/** The client side of the negotiation that the local relay performs with the
    account's upstream proxy for every CONNECT request: the SOCKS5 handshake
    (RFC 1928 sections 3, 4 and 6, with the username/password
    sub-negotiation of RFC 1929 section 2), or an HTTP CONNECT request
    (RFC 9110 section 9.3.6) carrying Basic credentials (RFC 7617 section 2).

    The socket is a value: `sock.connect` succeeding or not is the parameter
    `reachable`, everything written is collected in order, and `sock.recv` reads
    from a script of what the server sends. */
module Upstream {
  import opened Common
  import opened Text
  import Base64

  /** The fields of the remote proxy record that the negotiation reads. */
  datatype RemoteProxy = RemoteProxy(
    protocol: string, host: string, port: int,
    username: Option<string>, password: Option<string>)

  /** `p.get('username') and p.get('password')`. */
  predicate HasCredentials(p: RemoteProxy)
  {
    NonEmpty(p.username) && NonEmpty(p.password)
  }

  // ---------------------------------------------------------------- the wire

  /** What the server does next: deliver some bytes, close its side, or fail
      (a reset, or the 30-second timeout). */
  datatype Arrival = Data(bytes: seq<byte>) | Eof | Fault

  /** The bytes that arrive before the stream closes or fails. */
  function Pending(script: seq<Arrival>): seq<byte>
  {
    if script == [] then []
    else match script[0]
      case Data(d) => d + Pending(script[1..])
      case _ => []
  }

  /** A measure that every non-empty read decreases. */
  function Weight(script: seq<Arrival>): nat
  {
    if script == [] then 0
    else (match script[0] case Data(d) => |d| case _ => 0) + 1 + Weight(script[1..])
  }

  datatype Received = Received(data: seq<byte>, later: seq<Arrival>) | Raised

  /** `sock.recv(n)`: at most `n` bytes of the next delivery, the rest of which
      waits for the next call. A closed stream gives `b""` every time; a fault
      raises, and so does a server that sends nothing more (the timeout). */
  function Recv(script: seq<Arrival>, n: nat): (r: Received)
    ensures r.Raised? <==> script == [] || script[0] == Fault
    ensures r.Received? ==> |r.data| <= n && r.data + Pending(r.later) == Pending(script)
    ensures r.Received? && r.data != [] ==> Weight(r.later) < Weight(script)
    ensures script != [] && script[0].Data? && |script[0].bytes| >= n ==>
              r == Received(script[0].bytes[..n],
                            if |script[0].bytes| == n then script[1..] else [Data(script[0].bytes[n..])] + script[1..])
  {
    if script == [] then Raised
    else match script[0]
      case Fault => Raised
      case Eof => Received([], script)
      case Data(d) =>
        if n < |d| then
          var later := [Data(d[n..])] + script[1..];
          assert later[1..] == script[1..];
          assert d[..n] + d[n..] == d;
          Received(d[..n], later)
        else Received(d, script[1..])
  }

  /** What has been written so far and what is still to be read. */
  datatype Wire = Wire(sent: seq<byte>, unread: seq<Arrival>)

  /** Why no tunnel was opened. */
  datatype Failure =
    | Unreachable                     // `sock.connect` raised
    | StreamFailed                    // `sock.recv` raised
    | BadMethodReply(reply: seq<byte>)
    | CredentialsMissing              // the server chose username/password
    | NoAcceptableMethod
    | AuthRejected(reply: seq<byte>)
    | FieldTooLong                    // `struct.pack('B', n)` with n > 255
    | PortOutOfRange                  // `struct.pack('>H', port)` outside 0..65535
    | BadConnectReply(reply: seq<byte>)
    | Refused(code: byte, reason: string)
    | AddressLengthMissing            // `struct.unpack('B', b'')`
    | Socks4Unsupported
    | HttpRejected(statusLine: string)
    | UnsupportedProtocol(protocol: string)

  datatype Result = Tunnel | Failed(failure: Failure)

  /** The result, whether a socket to the proxy was opened, every byte written
      to it in order, and what the server sent that was not read. */
  datatype Outcome = Outcome(result: Result, dialed: bool, sent: seq<byte>, unread: seq<Arrival>)

  function Fail(f: Failure, w: Wire): Outcome
  {
    Outcome(Failed(f), true, w.sent, w.unread)
  }

  // ---------------------------------------------------------------- SOCKS5 frames

  const NoAuth: byte := 0x00
  const UserPass: byte := 0x02
  const NoAcceptable: byte := 0xFF

  /** The method-selection request: VER, NMETHODS, METHODS (RFC 1928 section 3).
      Username/password is offered exactly when both credentials are set. */
  function Greeting(p: RemoteProxy): (g: seq<byte>)
    ensures |g| >= 3 && g[0] == 5 && g[1] == |g| - 2
    ensures NoAuth in g[2..]
    ensures UserPass in g[2..] <==> HasCredentials(p)
    ensures g[2] == NoAuth && (HasCredentials(p) ==> |g| == 4 && g[3] == UserPass) && (!HasCredentials(p) ==> |g| == 3)
  {
    if HasCredentials(p) then [5, 2, NoAuth, UserPass] else [5, 1, NoAuth]
  }

  /** The username/password request: VER 1, ULEN, UNAME, PLEN, PASSWD
      (RFC 1929 section 2); a field longer than 255 bytes cannot be packed. */
  function AuthRequest(username: string, password: string): (r: Option<seq<byte>>)
    ensures r.Some? <==> |Utf8(username)| <= 255 && |Utf8(password)| <= 255
  {
    var u, w := Utf8(username), Utf8(password);
    if |u| <= 255 && |w| <= 255 then Some([1] + [|u|] + u + [|w|] + w) else None
  }

  /** The server's reading of a username/password request. */
  function ParseAuthRequest(f: seq<byte>): Option<(seq<byte>, seq<byte>)>
  {
    if |f| < 2 || f[0] != 1 || |f| < 2 + f[1] as int + 1 then None
    else
      var ulen: int := f[1];
      var plen: int := f[2 + ulen];
      if |f| != 3 + ulen + plen then None
      else Some((f[2..2 + ulen], f[3 + ulen..]))
  }

  lemma {:induction false} AuthRequestParses(username: string, password: string)
    requires AuthRequest(username, password).Some?
    ensures ParseAuthRequest(AuthRequest(username, password).value) == Some((Utf8(username), Utf8(password)))
  {
    var u, w := Utf8(username), Utf8(password);
    var f := AuthRequest(username, password).value;
    assert f[1] == |u| && f[2 + |u|] == |w|;
    assert f[2..2 + |u|] == u && f[3 + |u|..] == w;
  }

  /** The CONNECT request with a domain-name address: VER 5, CMD 1, RSV 0,
      ATYP 3, the length-prefixed name, the port in network order
      (RFC 1928 section 4). */
  function ConnectRequest(host: string, port: int): (r: Option<seq<byte>>)
    ensures r.Some? <==> |Utf8(host)| <= 255 && 0 <= port < 65536
  {
    var h := Utf8(host);
    if |h| <= 255 && 0 <= port < 65536 then Some([5, 1, 0] + [3] + [|h|] + h + [port / 256, port % 256])
    else None
  }

  /** The server's reading of a CONNECT request for a domain name. */
  function ParseConnectRequest(f: seq<byte>): Option<(seq<byte>, int)>
  {
    if |f| < 5 || f[..4] != [5, 1, 0, 3] || |f| != 5 + f[4] as int + 2 then None
    else
      var n: int := f[4];
      Some((f[5..5 + n], f[5 + n] as int * 256 + f[6 + n] as int))
  }

  lemma {:induction false} ConnectRequestParses(host: string, port: int)
    requires ConnectRequest(host, port).Some?
    ensures ParseConnectRequest(ConnectRequest(host, port).value) == Some((Utf8(host), port))
  {
    var h := Utf8(host);
    var f := ConnectRequest(host, port).value;
    assert f[..4] == [5, 1, 0, 3] && f[4] == |h|;
    assert f[5..5 + |h|] == h;
    assert f[5 + |h|] == port / 256 && f[6 + |h|] == port % 256;
  }

  /** Why the request failed when it cannot be packed: the name length is
      packed first. */
  function ConnectRequestError(host: string, port: int): (f: Failure)
    requires ConnectRequest(host, port).None?
    ensures f == FieldTooLong <==> |Utf8(host)| > 255
    ensures f == PortOutOfRange <==> |Utf8(host)| <= 255
  {
    if |Utf8(host)| > 255 then FieldTooLong else PortOutOfRange
  }

  /** The text logged for a reply code other than success (RFC 1928 section 6). */
  function ReplyReason(code: byte): (s: string)
    ensures |s| > 0
  {
    if code == 1 then "General SOCKS server failure"
    else if code == 2 then "Connection not allowed by ruleset"
    else if code == 3 then "Network unreachable"
    else if code == 4 then "Host unreachable"
    else if code == 5 then "Connection refused"
    else if code == 6 then "TTL expired"
    else if code == 7 then "Command not supported"
    else if code == 8 then "Address type not supported"
    else "Unknown error " + NatToString(code)
  }

  /** Different reply codes are never reported with the same text. */
  lemma {:induction false} ReplyReasonInjective(a: byte, b: byte)
    ensures ReplyReason(a) == ReplyReason(b) ==> a == b
  {
    if ReplyReason(a) == ReplyReason(b) {
      if !(1 <= a <= 8) && !(1 <= b <= 8) {
        UnknownReasonsDistinct(a, b);
      } else if 1 <= a <= 8 && 1 <= b <= 8 {
        KnownReasonsDistinct(a, b);
      } else {
        assert ReplyReason(a)[0] == ReplyReason(b)[0];
      }
    }
  }

  /** The eight table reasons have eight different lengths. */
  lemma {:induction false} KnownReasonsDistinct(a: byte, b: byte)
    requires 1 <= a <= 8 && 1 <= b <= 8 && ReplyReason(a) == ReplyReason(b)
    ensures a == b
  {
    var lengths := [28, 33, 19, 16, 18, 11, 21, 26];
    assert |ReplyReason(a)| == lengths[a - 1] && |ReplyReason(b)| == lengths[b - 1];
  }

  lemma {:induction false} UnknownReasonsDistinct(a: byte, b: byte)
    requires !(1 <= a <= 8) && !(1 <= b <= 8) && ReplyReason(a) == ReplyReason(b)
    ensures a == b
  {
    var prefix := "Unknown error ";
    assert NatToString(a) == ReplyReason(a)[|prefix|..];
    assert NatToString(b) == ReplyReason(b)[|prefix|..];
    DigitsValueOfNatToString(a);
    DigitsValueOfNatToString(b);
  }

  datatype Skip = Skipped(later: seq<Arrival>) | SkipFailed(failure: Failure)

  /** Reading past BND.ADDR and BND.PORT after a successful reply header. The
      bytes read are not checked; only a raise, or a missing length byte for a
      domain name, fails. Any other address type reads nothing. */
  function SkipBoundAddress(atyp: byte, script: seq<Arrival>): (r: Skip)
    ensures atyp !in {1, 3, 4} ==> r == Skipped(script)
  {
    if atyp == 1 then
      match Recv(script, 6)
      case Raised => SkipFailed(StreamFailed)
      case Received(_, later) => Skipped(later)
    else if atyp == 3 then
      match Recv(script, 1)
      case Raised => SkipFailed(StreamFailed)
      case Received(len, later) =>
        if |len| == 0 then SkipFailed(AddressLengthMissing)
        else match Recv(later, len[0] as int + 2)
          case Raised => SkipFailed(StreamFailed)
          case Received(_, later2) => Skipped(later2)
    else if atyp == 4 then
      match Recv(script, 18)
      case Raised => SkipFailed(StreamFailed)
      case Received(_, later) => Skipped(later)
    else Skipped(script)
  }

  /** How many bytes follow the reply header for a server that sends the
      address in full: 4 + 2 for IPv4, 1 + N + 2 for a name of N bytes,
      16 + 2 for IPv6. */
  function BoundAddressSize(atyp: byte, d: seq<byte>): nat
    requires atyp == 3 ==> |d| >= 1
  {
    if atyp == 1 then 6 else if atyp == 3 then 1 + d[0] as int + 2 else if atyp == 4 then 18 else 0
  }

  /** When the whole bound address arrives in one delivery, exactly its bytes
      are consumed and the rest of the delivery stays unread. */
  lemma {:induction false} SkipConsumesBoundAddress(atyp: byte, d: seq<byte>, rest: seq<Arrival>)
    requires atyp == 3 ==> |d| >= 1
    requires |d| >= BoundAddressSize(atyp, d)
    ensures SkipBoundAddress(atyp, [Data(d)] + rest).Skipped?
    ensures Pending(SkipBoundAddress(atyp, [Data(d)] + rest).later) ==
            Pending([Data(d)] + rest)[BoundAddressSize(atyp, d)..]
  {
    if atyp == 3 {
      SkipDomainConsumes(d, rest);
    } else if atyp in {1, 4} {
      RecvWhole([Data(d)] + rest, BoundAddressSize(atyp, d));
    }
  }

  /** A read of `k` bytes from a first delivery that holds at least `k`
      leaves exactly the bytes after them pending. */
  lemma {:induction false} RecvWhole(script: seq<Arrival>, k: nat)
    requires script != [] && script[0].Data? && |script[0].bytes| >= k
    ensures Recv(script, k).Received?
    ensures Pending(Recv(script, k).later) == Pending(script)[k..]
  {
    var d := script[0].bytes;
    var r := Recv(script, k);
    assert r.data == d[..k];
    assert Pending(script) == d + Pending(script[1..]);
    assert Pending(script)[..k] == d[..k];
    assert r.data + Pending(r.later) == Pending(script);
  }

  lemma {:induction false} SkipDomainConsumes(d: seq<byte>, rest: seq<Arrival>)
    requires |d| >= 1 && |d| >= BoundAddressSize(3, d)
    ensures SkipBoundAddress(3, [Data(d)] + rest).Skipped?
    ensures Pending(SkipBoundAddress(3, [Data(d)] + rest).later) ==
            Pending([Data(d)] + rest)[BoundAddressSize(3, d)..]
  {
    var script := [Data(d)] + rest;
    var k := BoundAddressSize(3, d);
    var later := [Data(d[1..])] + rest;
    assert Recv(script, 1) == Received(d[..1], later) by {
      assert script[1..] == rest;
    }
    assert Pending(later) == d[1..] + Pending(rest) by {
      assert later[1..] == rest;
    }
    assert Pending(script) == d + Pending(rest) by {
      assert script[1..] == rest;
    }
    RecvWhole(later, d[0] as int + 2);
    assert (d[1..] + Pending(rest))[k - 1..] == (d + Pending(rest))[k..];
  }

  // ---------------------------------------------------------------- SOCKS5 handshake

  /** Method selection, the optional username/password exchange, then CONNECT. */
  function Socks5(p: RemoteProxy, host: string, port: int, script: seq<Arrival>): (o: Outcome)
    ensures o.dialed && Greeting(p) <= o.sent
  {
    var w1 := Wire(Greeting(p), script);
    match Recv(script, 2)
    case Raised => Fail(StreamFailed, w1)
    case Received(reply, s2) =>
      var w2 := w1.(unread := s2);
      if |reply| != 2 || reply[0] != 5 then Fail(BadMethodReply(reply), w2)
      else if reply[1] == UserPass then
        if !HasCredentials(p) then Fail(CredentialsMissing, w2)
        else match AuthRequest(p.username.value, p.password.value)
          case None => Fail(FieldTooLong, w2)
          case Some(frame) =>
            var w3 := w2.(sent := w2.sent + frame);
            match Recv(s2, 2)
            case Raised => Fail(StreamFailed, w3)
            case Received(ack, s4) =>
              if |ack| != 2 || ack[1] != 0 then Fail(AuthRejected(ack), w3.(unread := s4))
              else SocksConnect(host, port, w3.(unread := s4))
      else if reply[1] == NoAcceptable then Fail(NoAcceptableMethod, w2)
      else SocksConnect(host, port, w2)
  }

  function SocksConnect(host: string, port: int, w: Wire): (o: Outcome)
    ensures o.dialed && w.sent <= o.sent
    ensures o.result == Tunnel ==> ConnectRequest(host, port).Some? && o.sent == w.sent + ConnectRequest(host, port).value
  {
    match ConnectRequest(host, port)
    case None => Fail(ConnectRequestError(host, port), w)
    case Some(frame) =>
      var w1 := w.(sent := w.sent + frame);
      match Recv(w.unread, 4)
      case Raised => Fail(StreamFailed, w1)
      case Received(header, later) =>
        var w2 := w1.(unread := later);
        if |header| != 4 then Fail(BadConnectReply(header), w2)
        else if header[1] != 0 then Fail(Refused(header[1], ReplyReason(header[1])), w2)
        else match SkipBoundAddress(header[3], later)
          case SkipFailed(f) => Fail(f, w2)
          case Skipped(rest) => Outcome(Tunnel, true, w2.sent, rest)
  }

  // ---------------------------------------------------------------- HTTP CONNECT

  /** `host:port` as the request line and the Host header spell it. */
  function Target(host: string, port: int): string
  {
    host + ":" + IntToString(port)
  }

  /** The Basic credentials token: base 64 of the UTF-8 of `user:password`. */
  function BasicToken(username: string, password: string): string
  {
    Base64.Encode(Utf8(username + ":" + password))
  }

  function RequestHead(host: string, port: int): string
  {
    "CONNECT " + Target(host, port) + " HTTP/1.1\r\n" + "Host: " + Target(host, port) + "\r\n"
  }

  /** The CONNECT request text, credentials included only when both are set. */
  function HttpRequest(p: RemoteProxy, host: string, port: int): (r: string)
    ensures RequestHead(host, port) <= r
    ensures |r| >= 4 && r[|r| - 4..] == "\r\n\r\n"
  {
    var auth := if HasCredentials(p) then
                  "Proxy-Authorization: Basic " + BasicToken(p.username.value, p.password.value) + "\r\n"
                else "";
    var r := RequestHead(host, port) + auth + "\r\n";
    assert r[|r| - 4..] == "\r\n\r\n" by {
      if auth == "" { assert r == RequestHead(host, port) + "\r\n"; }
    }
    r
  }

  /** The Basic token decodes back to exactly `user:password` (base 64, then
      UTF-8). */
  lemma {:induction false} BasicTokenDecodes(username: string, password: string)
    ensures Base64.Decode(BasicToken(username, password)) == Some(Utf8(username + ":" + password))
    ensures Utf8Decode(Utf8(username + ":" + password)) == username + ":" + password
  {
    Base64.DecodeEncode(Utf8(username + ":" + password));
    Utf8DecodeEncode(username + ":" + password);
  }

  /** Without credentials the request is the request line, Host and the blank
      line; with them a Proxy-Authorization header sits before the blank line. */
  lemma {:induction false} HttpRequestCredentials(p: RemoteProxy, host: string, port: int)
    ensures !HasCredentials(p) ==> HttpRequest(p, host, port) == RequestHead(host, port) + "\r\n"
    ensures HasCredentials(p) ==>
      HttpRequest(p, host, port) ==
        RequestHead(host, port) + "Proxy-Authorization: Basic " +
        BasicToken(p.username.value, p.password.value) + "\r\n\r\n"
  {
  }

  /** The blank line that ends the response head. */
  const HeadEnd: seq<byte> := [13, 10, 13, 10]

  datatype Head = Head(response: seq<byte>, later: seq<Arrival>) | HeadFailed

  /** The read loop: chunks of up to 1024 bytes until the response holds a
      blank line or the server closes. */
  function ReadHead(response: seq<byte>, script: seq<Arrival>): (h: Head)
    ensures h.Head? ==> response <= h.response
    decreases Weight(script)
  {
    if Contains(response, HeadEnd) then Head(response, script)
    else match Recv(script, 1024)
      case Raised => HeadFailed
      case Received(chunk, later) =>
        if chunk == [] then Head(response, later)
        else ReadHead(response + chunk, later)
  }

  /** `response.decode('utf-8', errors='ignore').split('\r\n')[0]`. */
  function StatusLine(response: seq<byte>): string
  {
    BeforeFirst(Utf8Decode(response), "\r\n")
  }

  function HttpConnect(p: RemoteProxy, host: string, port: int, script: seq<Arrival>): (o: Outcome)
  {
    var request := Utf8(HttpRequest(p, host, port));
    match ReadHead([], script)
    case HeadFailed => Outcome(Failed(StreamFailed), true, request, script)
    case Head(response, later) =>
      var status := StatusLine(response);
      if Contains(status, "200") then Outcome(Tunnel, true, request, later)
      else Outcome(Failed(HttpRejected(status)), true, request, later)
  }

  // ---------------------------------------------------------------- the whole exchange

  /** `_connect_through_proxy(host, port)`: SOCKS5 or HTTP by the record's
      protocol; `socks4` connects and gives up; anything else is not tried. */
  function Negotiate(p: RemoteProxy, host: string, port: int, reachable: bool, script: seq<Arrival>): (o: Outcome)
  {
    if p.protocol == "socks5" || p.protocol == "socks4" then
      if !reachable then Outcome(Failed(Unreachable), true, [], script)
      else if p.protocol == "socks5" then Socks5(p, host, port, script)
      else Outcome(Failed(Socks4Unsupported), true, [], script)
    else if p.protocol == "http" || p.protocol == "https" then
      if !reachable then Outcome(Failed(Unreachable), true, [], script)
      else HttpConnect(p, host, port, script)
    else Outcome(Failed(UnsupportedProtocol(p.protocol)), false, [], script)
  }

  /** The SOCKS5 branch of `_connect_through_proxy`, once connected. */
  method Socks5Handshake(p: RemoteProxy, host: string, port: int, script: seq<Arrival>)
    returns (o: Outcome)
    ensures o == Socks5(p, host, port, script)
  {
    var sent := Greeting(p);
    var stream := script;
    var response := Recv(stream, 2);
    if response.Raised? { return Outcome(Failed(StreamFailed), true, sent, stream); }
    stream := response.later;
    if |response.data| != 2 || response.data[0] != 5 {
      return Outcome(Failed(BadMethodReply(response.data)), true, sent, stream);
    }
    var selected := response.data[1];
    if selected == UserPass {
      if !HasCredentials(p) { return Outcome(Failed(CredentialsMissing), true, sent, stream); }
      var username, password := Utf8(p.username.value), Utf8(p.password.value);
      if |username| > 255 || |password| > 255 { return Outcome(Failed(FieldTooLong), true, sent, stream); }
      var authRequest: seq<byte> := [1];
      authRequest := authRequest + [|username|] + username;
      authRequest := authRequest + [|password|] + password;
      sent := sent + authRequest;
      var authResponse := Recv(stream, 2);
      if authResponse.Raised? { return Outcome(Failed(StreamFailed), true, sent, stream); }
      stream := authResponse.later;
      if |authResponse.data| != 2 || authResponse.data[1] != 0 {
        return Outcome(Failed(AuthRejected(authResponse.data)), true, sent, stream);
      }
    } else if selected == NoAcceptable {
      return Outcome(Failed(NoAcceptableMethod), true, sent, stream);
    }
    o := SocksConnectStep(host, port, sent, stream);
  }

  /** The CONNECT request, the reply header and the bound address. */
  method SocksConnectStep(host: string, port: int, sent0: seq<byte>, stream0: seq<Arrival>)
    returns (o: Outcome)
    ensures o == SocksConnect(host, port, Wire(sent0, stream0))
  {
    var sent, stream := sent0, stream0;
    var connectRequest: seq<byte> := [5, 1, 0];
    connectRequest := connectRequest + [3];
    var hostBytes := Utf8(host);
    if |hostBytes| > 255 { return Outcome(Failed(FieldTooLong), true, sent, stream); }
    connectRequest := connectRequest + [|hostBytes|] + hostBytes;
    if !(0 <= port < 65536) { return Outcome(Failed(PortOutOfRange), true, sent, stream); }
    connectRequest := connectRequest + [port / 256, port % 256];
    assert ConnectRequest(host, port) == Some(connectRequest);
    sent := sent + connectRequest;
    var response := Recv(stream, 4);
    if response.Raised? { return Outcome(Failed(StreamFailed), true, sent, stream); }
    stream := response.later;
    if |response.data| != 4 { return Outcome(Failed(BadConnectReply(response.data)), true, sent, stream); }
    if response.data[1] != 0 {
      return Outcome(Failed(Refused(response.data[1], ReplyReason(response.data[1]))), true, sent, stream);
    }
    var skip := SkipBoundAddress(response.data[3], stream);
    if skip.SkipFailed? { return Outcome(Failed(skip.failure), true, sent, stream); }
    return Outcome(Tunnel, true, sent, skip.later);
  }

  /** The HTTP branch of `_connect_through_proxy`, once connected: the request
      is extended piece by piece, then the response is read chunk by chunk. */
  method HttpTunnel(p: RemoteProxy, host: string, port: int, script: seq<Arrival>)
    returns (o: Outcome)
    ensures o == HttpConnect(p, host, port, script)
  {
    var connectRequest := "CONNECT " + Target(host, port) + " HTTP/1.1\r\n";
    connectRequest := connectRequest + "Host: " + Target(host, port) + "\r\n";
    if HasCredentials(p) {
      var encoded := BasicToken(p.username.value, p.password.value);
      connectRequest := connectRequest + "Proxy-Authorization: Basic " + encoded + "\r\n";
    }
    connectRequest := connectRequest + "\r\n";
    assert connectRequest == HttpRequest(p, host, port);
    var sent := Utf8(connectRequest);
    var response: seq<byte> := [];
    var stream := script;
    var closed := false;
    while !closed && !Contains(response, HeadEnd)
      invariant closed ==> ReadHead([], script) == Head(response, stream)
      invariant !closed ==> ReadHead([], script) == ReadHead(response, stream)
      decreases Weight(stream), if closed then 0 else 1
    {
      var chunk := Recv(stream, 1024);
      if chunk.Raised? { return Outcome(Failed(StreamFailed), true, sent, script); }
      stream := chunk.later;
      if chunk.data == [] {
        closed := true;
      } else {
        response := response + chunk.data;
      }
    }
    var statusLine := StatusLine(response);
    if Contains(statusLine, "200") { return Outcome(Tunnel, true, sent, stream); }
    return Outcome(Failed(HttpRejected(statusLine)), true, sent, stream);
  }

  /** `_connect_through_proxy` as the source runs it. */
  method ConnectThroughProxy(p: RemoteProxy, host: string, port: int, reachable: bool, script: seq<Arrival>)
    returns (o: Outcome)
    ensures o == Negotiate(p, host, port, reachable, script)
  {
    if p.protocol == "socks5" || p.protocol == "socks4" {
      if !reachable { return Outcome(Failed(Unreachable), true, [], script); }
      if p.protocol == "socks5" {
        o := Socks5Handshake(p, host, port, script);
      } else {
        o := Outcome(Failed(Socks4Unsupported), true, [], script);
      }
    } else if p.protocol == "http" || p.protocol == "https" {
      if !reachable { return Outcome(Failed(Unreachable), true, [], script); }
      o := HttpTunnel(p, host, port, script);
    } else {
      o := Outcome(Failed(UnsupportedProtocol(p.protocol)), false, [], script);
    }
  }

  // ---------------------------------------------------------------- properties

  /** Only `socks5`, `http` and `https` can give a tunnel; `socks4` connects and
      fails; any other protocol fails without opening a socket or sending. */
  lemma {:induction false} OnlyKnownProtocolsTunnel(p: RemoteProxy, host: string, port: int, reachable: bool, script: seq<Arrival>)
    ensures var o := Negotiate(p, host, port, reachable, script);
      (o.result == Tunnel ==> reachable && p.protocol in ["socks5", "http", "https"]) &&
      (p.protocol == "socks4" ==> o.result.Failed? && o.sent == []) &&
      (p.protocol !in ["socks5", "socks4", "http", "https"] ==>
         o == Outcome(Failed(UnsupportedProtocol(p.protocol)), false, [], script))
  {
  }

  /** The first bytes a SOCKS5 exchange writes are the greeting. */
  lemma {:induction false} GreetingSentFirst(p: RemoteProxy, host: string, port: int, script: seq<Arrival>)
    requires p.protocol == "socks5"
    ensures Greeting(p) <= Negotiate(p, host, port, true, script).sent
  {
  }

  /** The method reply must be two bytes starting with 5; method 0xFF fails,
      method 2 without credentials fails, and any other method goes straight
      to CONNECT. */
  lemma {:induction false} MethodReplyHandling(p: RemoteProxy, host: string, port: int, reply: seq<byte>, rest: seq<Arrival>)
    requires p.protocol == "socks5"
    ensures var o := Negotiate(p, host, port, true, [Data(reply)] + rest);
      (|reply| < 2 ==> o.result == Failed(BadMethodReply(reply))) &&
      (|reply| >= 2 && reply[0] != 5 ==> o.result == Failed(BadMethodReply(reply[..2]))) &&
      (|reply| >= 2 && reply[0] == 5 && reply[1] == NoAcceptable ==>
         o.result == Failed(NoAcceptableMethod) && o.sent == Greeting(p)) &&
      (|reply| >= 2 && reply[0] == 5 && reply[1] == UserPass && !HasCredentials(p) ==>
         o.result == Failed(CredentialsMissing) && o.sent == Greeting(p)) &&
      (|reply| >= 2 && reply[0] == 5 && reply[1] != UserPass && reply[1] != NoAcceptable &&
       ConnectRequest(host, port).Some? ==>
         o.sent == Greeting(p) + ConnectRequest(host, port).value)
  {
    var script := [Data(reply)] + rest;
    assert script[1..] == rest;
    if |reply| >= 2 {
      assert Recv(script, 2).data == reply[..2];
    }
  }

  /** With credentials and method 2 chosen, the auth request follows the
      greeting; a reply shorter than two bytes or with a non-zero status
      fails, and its version byte is never looked at. */
  lemma {:induction false} AuthReplyHandling(p: RemoteProxy, host: string, port: int, ack: seq<byte>, rest: seq<Arrival>)
    requires p.protocol == "socks5" && HasCredentials(p)
    requires AuthRequest(p.username.value, p.password.value).Some?
    requires |ack| == 2
    ensures var o := Negotiate(p, host, port, true, [Data([5, UserPass]), Data(ack)] + rest);
      var auth := AuthRequest(p.username.value, p.password.value).value;
      Greeting(p) + auth <= o.sent &&
      (ack[1] != 0 ==> o.result == Failed(AuthRejected(ack)) && o.sent == Greeting(p) + auth) &&
      (ack[1] == 0 && ConnectRequest(host, port).Some? ==>
         o.sent == Greeting(p) + auth + ConnectRequest(host, port).value)
  {
    var script: seq<Arrival> := [Data([5, UserPass]), Data(ack)] + rest;
    var s2: seq<Arrival> := [Data(ack)] + rest;
    var auth := AuthRequest(p.username.value, p.password.value).value;
    var w3 := Wire(Greeting(p) + auth, rest);
    assert Recv(script, 2) == Received([5, UserPass], s2) by {
      assert script[1..] == s2;
    }
    assert Recv(s2, 2) == Received(ack, rest) by {
      assert s2[1..] == rest;
    }
    assert Negotiate(p, host, port, true, script) ==
           if ack[1] != 0 then Fail(AuthRejected(ack), w3) else SocksConnect(host, port, w3);
  }

  /** The reply header must be four bytes; a non-zero REP fails with its table
      reason; success reads the bound address and yields the tunnel, the
      version byte aside. */
  lemma {:induction false} ConnectReplyHandling(host: string, port: int, w: Wire, header: seq<byte>, rest: seq<Arrival>)
    requires ConnectRequest(host, port).Some?
    requires w.unread == [Data(header)] + rest
    ensures var o := SocksConnect(host, port, w);
      o.sent == w.sent + ConnectRequest(host, port).value &&
      (|header| < 4 ==> o.result == Failed(BadConnectReply(header))) &&
      (|header| >= 4 && header[1] != 0 ==> o.result == Failed(Refused(header[1], ReplyReason(header[1])))) &&
      (|header| == 4 && header[1] == 0 && SkipBoundAddress(header[3], rest).Skipped? ==>
         o.result == Tunnel && o.unread == SkipBoundAddress(header[3], rest).later)
  {
    assert w.unread[1..] == rest;
    if |header| >= 4 {
      assert Recv(w.unread, 4).data == header[..4];
    }
  }

  lemma {:induction false} Utf8Contains(s: string, sub: string)
    requires Contains(s, sub)
    ensures Contains(Utf8(s), Utf8(sub))
  {
    var i :| 0 <= i <= |s| - |sub| && OccursAt(s, sub, i);
    assert s == s[..i] + sub + s[i + |sub|..];
    Utf8Append(s[..i] + sub, s[i + |sub|..]);
    Utf8Append(s[..i], sub);
    var j := |Utf8(s[..i])|;
    assert OccursAt(Utf8(s), Utf8(sub), j);
  }

  /** A head that arrives in one delivery of at most 1024 bytes is read in one
      call, and nothing after that delivery is read. */
  lemma {:induction false} ReadHeadOneChunk(b: seq<byte>, rest: seq<Arrival>)
    requires Contains(b, HeadEnd) && |b| <= 1024
    ensures ReadHead([], [Data(b)] + rest) == Head(b, rest)
  {
    var script := [Data(b)] + rest;
    assert script[1..] == rest;
    assert !Contains([], HeadEnd);
    assert Recv(script, 1024) == Received(b, rest);
    assert [] + b == b;
  }

  /** The server's deliveries, one per chunk. */
  function DataArrivals(chunks: seq<seq<byte>>): (r: seq<Arrival>)
    ensures |r| == |chunks| && forall i :: 0 <= i < |r| ==> r[i] == Data(chunks[i])
  {
    if chunks == [] then [] else [Data(chunks[0])] + DataArrivals(chunks[1..])
  }

  /** The chunks one after the other. */
  function Joined(chunks: seq<seq<byte>>): seq<byte>
  {
    if chunks == [] then [] else chunks[0] + Joined(chunks[1..])
  }

  /** A head delivered in several non-empty chunks of at most 1024 bytes,
      the blank line completed only by the last one, is read by one
      `recv(1024)` per chunk: the loop stops with all of them joined and
      leaves what follows unread. */
  lemma {:induction false} ReadHeadChunks(response: seq<byte>, chunks: seq<seq<byte>>, rest: seq<Arrival>)
    requires forall i :: 0 <= i < |chunks| ==> 0 < |chunks[i]| <= 1024
    requires forall k :: 0 <= k < |chunks| ==> !Contains(response + Joined(chunks[..k]), HeadEnd)
    requires Contains(response + Joined(chunks), HeadEnd)
    ensures ReadHead(response, DataArrivals(chunks) + rest) == Head(response + Joined(chunks), rest)
    decreases |chunks|
  {
    if chunks == [] {
      assert response + Joined(chunks) == response;
      assert DataArrivals(chunks) + rest == rest;
    } else {
      var c := chunks[0];
      var tail := chunks[1..];
      var script := DataArrivals(chunks) + rest;
      var later := DataArrivals(tail) + rest;
      assert chunks[..0] == [];
      assert response + Joined(chunks[..0]) == response;
      assert script == [Data(c)] + later by {
        assert DataArrivals(chunks) == [Data(c)] + DataArrivals(tail);
      }
      assert script[1..] == later;
      assert Recv(script, 1024) == Received(c, later);
      forall k | 0 <= k < |tail| ensures !Contains((response + c) + Joined(tail[..k]), HeadEnd) {
        assert chunks[..k + 1][0] == c && chunks[..k + 1][1..] == tail[..k];
        assert (response + c) + Joined(tail[..k]) == response + Joined(chunks[..k + 1]);
      }
      assert (response + c) + Joined(tail) == response + Joined(chunks);
      ReadHeadChunks(response + c, tail, rest);
    }
  }

  /** The HTTP branch decides by the status line however the head is split
      over `recv(1024)` calls: a tunnel exactly when the first line of the
      reply contains `200`, with the request sent as it is and what follows
      the head left unread. */
  lemma {:induction false} HttpStatusDecidesChunked(p: RemoteProxy, host: string, port: int, reply: string,
                                                    chunks: seq<seq<byte>>, rest: seq<Arrival>)
    requires Contains(reply, "\r\n\r\n") && Joined(chunks) == Utf8(reply)
    requires forall i :: 0 <= i < |chunks| ==> 0 < |chunks[i]| <= 1024
    requires forall k :: 0 <= k < |chunks| ==> !Contains(Joined(chunks[..k]), HeadEnd)
    ensures var o := HttpConnect(p, host, port, DataArrivals(chunks) + rest);
      o.sent == Utf8(HttpRequest(p, host, port)) &&
      (o.result == Tunnel <==> Contains(BeforeFirst(reply, "\r\n"), "200")) &&
      o.unread == rest
  {
    assert Utf8("\r\n\r\n") == HeadEnd;
    Utf8Contains(reply, "\r\n\r\n");
    forall k | 0 <= k < |chunks| ensures !Contains([] + Joined(chunks[..k]), HeadEnd) {
      assert [] + Joined(chunks[..k]) == Joined(chunks[..k]);
    }
    assert [] + Joined(chunks) == Utf8(reply);
    ReadHeadChunks([], chunks, rest);
    Utf8DecodeEncode(reply);
  }

  /** However many `recv(1024)` calls the response head takes, the request is
      sent as it is, and the outcome is decided by the first line of the
      decoded head alone: a tunnel exactly when that line contains `200`. A
      read that raises fails the tunnel. */
  lemma {:induction false} HttpStatusDecidesAnyChunks(p: RemoteProxy, host: string, port: int, script: seq<Arrival>)
    ensures var o := HttpConnect(p, host, port, script);
      o.sent == Utf8(HttpRequest(p, host, port)) && o.dialed &&
      (ReadHead([], script).HeadFailed? ==> o.result == Failed(StreamFailed)) &&
      (ReadHead([], script).Head? ==>
         (o.result == Tunnel <==> Contains(BeforeFirst(Utf8Decode(ReadHead([], script).response), "\r\n"), "200")) &&
         o.unread == ReadHead([], script).later)
  {
  }

  /** A server whose whole response head (at most 1024 bytes of text) arrives
      at once decides the outcome by its first line alone: a tunnel exactly
      when that line contains `200`. */
  lemma {:induction false} HttpStatusDecides(p: RemoteProxy, host: string, port: int, reply: string, rest: seq<Arrival>)
    requires Contains(reply, "\r\n\r\n") && |Utf8(reply)| <= 1024
    ensures var o := HttpConnect(p, host, port, [Data(Utf8(reply))] + rest);
      o.sent == Utf8(HttpRequest(p, host, port)) &&
      (o.result == Tunnel <==> Contains(BeforeFirst(reply, "\r\n"), "200")) &&
      o.unread == rest
  {
    assert Utf8("\r\n\r\n") == HeadEnd;
    Utf8Contains(reply, "\r\n\r\n");
    ReadHeadOneChunk(Utf8(reply), rest);
    Utf8DecodeEncode(reply);
  }
}
