/** The list of upstream proxies the user keeps (src/core/proxy_manager.py):
    parsing `protocol://host:port[:user:password]`, duplicate-free insertion,
    removal by position, the outcome of a liveness check, and the queries. */
module ProxyCatalog {
  import opened Common
  import opened Text

  /** The fields `parse_proxy_string` produces. */
  datatype ProxyAddress = ProxyAddress(
    protocol: string, host: string, port: int,
    username: Option<string>, password: Option<string>)

  /** A stored proxy: its address, the status text (`unchecked`, `alive` or
      `dead`), the time of the last check and the measured response time. */
  datatype ProxyRecord = ProxyRecord(
    address: ProxyAddress, status: string,
    lastCheck: Option<string>, responseTime: Option<int>)

  const Unchecked := "unchecked"
  const AliveStatus := "alive"
  const DeadStatus := "dead"

  // ---------------------------------------------------------------- parsing

  /** `s.split(sep, 1)` when `sep in s`: the text before the first separator
      and the text after it. */
  function SplitOnce(s: string, sep: string): (r: Option<(string, string)>)
    requires |sep| > 0
    ensures r.Some? <==> Contains(s, sep)
    ensures r.Some? ==> s == r.value.0 + sep + r.value.1 && Find(s, sep) == Some(|r.value.0|)
  {
    match Find(s, sep)
    case None => None
    case Some(i) =>
      assert s == s[..i] + sep + s[i + |sep|..] by { assert s[i..i + |sep|] == sep; }
      Some((s[..i], s[i + |sep|..]))
  }

  /** The host, port and optional credentials after the scheme. */
  function ParseFields(protocol: string, rest: string): (r: Option<ProxyAddress>)
    ensures r.Some? ==> r.value.protocol == protocol && ':' !in r.value.host
    ensures r.Some? ==> (r.value.username.None? <==> r.value.password.None?)
  {
    var parts := Split(rest, ':');
    if |parts| == 2 then
      match ParseInt(parts[1])
      case None => None
      case Some(port) => Some(ProxyAddress(protocol, parts[0], port, None, None))
    else if |parts| == 4 then
      match ParseInt(parts[1])
      case None => None
      case Some(port) => Some(ProxyAddress(protocol, parts[0], port, Some(parts[2]), Some(parts[3])))
    else None
  }

  /** The text parses exactly when it has two or four `:`-separated fields
      and `int()` accepts the second; the host is the first field and the
      port is `int()` of the second, so a non-integer port gives None. */
  lemma {:induction false} ParseFieldsPort(protocol: string, rest: string)
    ensures var parts := Split(rest, ':');
      ParseFields(protocol, rest).Some? <==> (|parts| == 2 || |parts| == 4) && ParseInt(parts[1]).Some?
    ensures var parts := Split(rest, ':'); var r := ParseFields(protocol, rest);
      r.Some? ==> r.value.host == parts[0] && Some(r.value.port) == ParseInt(parts[1])
  {
    var parts := Split(rest, ':');
    if (|parts| == 2 || |parts| == 4) && ParseInt(parts[1]).Some? {
      ParseFieldsOfParts(protocol, rest, ParseInt(parts[1]).value);
    }
  }

  /** `parse_proxy_string`: the scheme defaults to `http`; otherwise it is the
      text before the first `://`. */
  function ParseProxyString(s: string): (r: Option<ProxyAddress>)
    ensures !Contains(s, "://") ==> r == ParseFields("http", s)
    ensures Contains(s, "://") ==> r == ParseFields(SplitOnce(s, "://").value.0, SplitOnce(s, "://").value.1)
  {
    match SplitOnce(s, "://")
    case None => ParseFields("http", s)
    case Some((protocol, rest)) => ParseFields(protocol, rest)
  }

  /** Only two fields (no credentials) or four fields (with credentials) are
      accepted; any other count is refused. */
  lemma {:induction false} ParseFieldCount(protocol: string, rest: string)
    ensures var n := multiset(rest)[':'] + 1;
      (n != 2 && n != 4 ==> ParseFields(protocol, rest).None?) &&
      (ParseFields(protocol, rest).Some? && n == 2 ==> ParseFields(protocol, rest).value.username.None?) &&
      (ParseFields(protocol, rest).Some? && n == 4 ==> ParseFields(protocol, rest).value.username.Some?)
  {
    SplitCount(rest, ':');
  }

  /** A scheme without `:` is split off at its own `://`. */
  lemma {:induction false} SchemeSplit(protocol: string, rest: string)
    requires ':' !in protocol
    ensures ParseProxyString(protocol + "://" + rest) == ParseFields(protocol, rest)
  {
    var s := protocol + "://" + rest;
    FindAfter(protocol, "://", rest);
    assert s[..|protocol|] == protocol && s[|protocol| + 3..] == rest;
  }

  lemma {:induction false} SplitFourFields(host: string, digits: string, user: string, password: string)
    requires ':' !in host && ':' !in digits && ':' !in user && ':' !in password
    ensures var r := Split(host + [':'] + (digits + [':'] + (user + [':'] + password)), ':');
            |r| == 4 && r[0] == host && r[1] == digits && r[2] == user && r[3] == password
  {
    SplitThreeFields(digits, user, password);
    SplitField(host, ':', digits + [':'] + (user + [':'] + password));
  }

  lemma {:induction false} SplitThreeFields(digits: string, user: string, password: string)
    requires ':' !in digits && ':' !in user && ':' !in password
    ensures var r := Split(digits + [':'] + (user + [':'] + password), ':');
            |r| == 3 && r[0] == digits && r[1] == user && r[2] == password
  {
    SplitNoSeparator(password, ':');
    SplitField(user, ':', password);
    SplitField(digits, ':', user + [':'] + password);
  }

  lemma {:induction false} FourFieldsParse(protocol: string, host: string, port: int, user: string, password: string)
    requires ':' !in host && ':' !in user && ':' !in password
    ensures ParseFields(protocol, host + [':'] + (IntToString(port) + [':'] + (user + [':'] + password)))
            == Some(ProxyAddress(protocol, host, port, Some(user), Some(password)))
  {
    var digits := IntToString(port);
    IntTextPlain(port);
    SplitFourFields(host, digits, user, password);
    ParseIntToString(port);
    ParseFieldsOfParts(protocol, host + [':'] + (digits + [':'] + (user + [':'] + password)), port);
  }

  /** `ParseFields` reads only the parts of the text and the port field. */
  lemma {:induction false} ParseFieldsOfParts(protocol: string, rest: string, port: int)
    requires var parts := Split(rest, ':'); (|parts| == 2 || |parts| == 4) && ParseInt(parts[1]) == Some(port)
    ensures var parts := Split(rest, ':');
            |parts| == 2 ==> ParseFields(protocol, rest) == Some(ProxyAddress(protocol, parts[0], port, None, None))
    ensures var parts := Split(rest, ':');
            |parts| == 4 ==> ParseFields(protocol, rest) == Some(ProxyAddress(protocol, parts[0], port, Some(parts[2]), Some(parts[3])))
  {
  }

  /** The documented format `protocol://host:port:user:password` parses back to
      its fields, for fields without colons. */
  lemma {:induction false} ParseFullFormat(protocol: string, host: string, port: int, user: string, password: string)
    requires ':' !in protocol && ':' !in host && ':' !in user && ':' !in password
    ensures ParseProxyString(protocol + "://" + host + ":" + IntToString(port) + ":" + user + ":" + password)
            == Some(ProxyAddress(protocol, host, port, Some(user), Some(password)))
  {
    var digits := IntToString(port);
    var rest := host + [':'] + (digits + [':'] + (user + [':'] + password));
    assert protocol + "://" + host + ":" + digits + ":" + user + ":" + password == protocol + "://" + rest;
    SchemeSplit(protocol, rest);
    FourFieldsParse(protocol, host, port, user, password);
  }

  /** `a:b` holds no `://` when its only colon is followed by something other
      than `/`. */
  lemma {:induction false} NoSchemeInPair(a: string, b: string)
    requires ':' !in a && ':' !in b && |b| > 0 && b[0] != '/'
    ensures !Contains(a + ":" + b, "://")
  {
    var s := a + ":" + b;
    forall j | 0 <= j <= |s| - 3 ensures !OccursAt(s, "://", j) {
      assert s[j..j + 3][0] == s[j] && s[j..j + 3][1] == s[j + 1];
      if j < |a| { assert s[j] == a[j]; }
      else if j == |a| { assert s[j + 1] == b[0]; }
      else { assert s[j] == b[j - |a| - 1]; }
    }
  }

  lemma {:induction false} TwoFieldsParse(host: string, port: int)
    requires ':' !in host
    ensures ParseFields("http", host + [':'] + IntToString(port)) == Some(ProxyAddress("http", host, port, None, None))
  {
    var digits := IntToString(port);
    IntTextPlain(port);
    SplitNoSeparator(digits, ':');
    SplitField(host, ':', digits);
    assert Split(host + [':'] + digits, ':') == [host, digits];
    ParseIntToString(port);
  }

  /** A bare `host:port` gets the `http` scheme and no credentials. */
  lemma {:induction false} ParseShortFormat(host: string, port: int)
    requires ':' !in host
    ensures ParseProxyString(host + ":" + IntToString(port)) == Some(ProxyAddress("http", host, port, None, None))
  {
    IntTextPlain(port);
    NoSchemeInPair(host, IntToString(port));
    TwoFieldsParse(host, port);
  }

  // ---------------------------------------------------------------- positions

  /** `s` without the elements at the positions in `drop`. */
  function DropPositions<T>(s: seq<T>, drop: set<int>): (r: seq<T>)
    ensures |r| <= |s|
  {
    if s == [] then []
    else DropPositions(s[..|s| - 1], drop) + (if |s| - 1 in drop then [] else [s[|s| - 1]])
  }

  /** Only positions inside `s` matter. */
  lemma {:induction false} DropPositionsInside<T>(s: seq<T>, d: set<int>, e: set<int>)
    requires forall k :: 0 <= k < |s| ==> (k in d <==> k in e)
    ensures DropPositions(s, d) == DropPositions(s, e)
  {
    if s != [] { DropPositionsInside(s[..|s| - 1], d, e); }
  }

  /** Positions past the end of `a` are never dropped. */
  lemma {:induction false} DropPositionsTail<T>(a: seq<T>, b: seq<T>, d: set<int>)
    requires forall k :: k in d ==> k < |a|
    ensures DropPositions(a + b, d) == DropPositions(a, d) + b
  {
    if b == [] {
      assert a + b == a;
    } else {
      var n := |b| - 1;
      assert (a + b)[..|a + b| - 1] == a + b[..n];
      DropPositionsTail(a, b[..n], d);
      assert b == b[..n] + [b[n]];
    }
  }

  /** Removing the element at `i` leaves what dropping position `i` would, when
      every other dropped position lies before `i`. */
  lemma {:induction false} RemoveAtAsDrop<T>(s: seq<T>, i: int, d: set<int>)
    requires 0 <= i < |s|
    requires forall k :: k in d ==> k < i
    ensures DropPositions(RemoveAt(s, i), d) == DropPositions(s, d + {i})
  {
    var a, b := s[..i], s[i + 1..];
    assert DropPositions(RemoveAt(s, i), d) == DropPositions(a, d) + b by {
      assert RemoveAt(s, i) == a + b;
      DropPositionsTail(a, b, d);
    }
    assert DropPositions(s, d + {i}) == DropPositions(s[..i + 1], d + {i}) + b by {
      assert s == s[..i + 1] + b;
      DropPositionsTail(s[..i + 1], b, d + {i});
    }
    assert DropPositions(s[..i + 1], d + {i}) == DropPositions(a, d) by {
      assert s[..i + 1][..i] == a;
      DropPositionsInside(a, d + {i}, d);
    }
  }

  /** Removing by each index in turn, as `remove_proxies` does: invalid
      indices are skipped; the count is of the removals that happened. */
  function RemoveEach<T>(s: seq<T>, indices: seq<int>): (r: (seq<T>, nat))
    ensures r.1 <= |indices| && |r.0| == |s| - r.1
  {
    if indices == [] then (s, 0)
    else
      var i := indices[0];
      if 0 <= i < |s| then
        var rest := RemoveEach(RemoveAt(s, i), indices[1..]);
        (rest.0, rest.1 + 1)
      else RemoveEach(s, indices[1..])
  }

  /** One step of `RemoveEach`: the index at `i` either removes an element
      or is skipped. */
  lemma {:induction false} RemoveEachStep<T>(before: seq<T>, after: seq<T>, indices: seq<int>, i: nat, removed: bool)
    requires i < |indices|
    requires removed <==> 0 <= indices[i] < |before|
    requires after == if removed then RemoveAt(before, indices[i]) else before
    ensures RemoveEach(before, indices[i..]).0 == RemoveEach(after, indices[i + 1..]).0
    ensures RemoveEach(before, indices[i..]).1 == RemoveEach(after, indices[i + 1..]).1 + if removed then 1 else 0
  {
    assert indices[i..][0] == indices[i] && indices[i..][1..] == indices[i + 1..];
  }

  predicate StrictlyDecreasing(s: seq<int>)
  {
    forall i, j :: 0 <= i < j < |s| ==> s[i] > s[j]
  }

  function CountInRange(s: seq<int>, n: int): nat
  {
    if s == [] then 0 else (if 0 <= s[0] < n then 1 else 0) + CountInRange(s[1..], n)
  }

  /** Removing at strictly decreasing indices removes exactly the elements at
      those positions and counts the indices that were in range. */
  lemma {:induction false} RemoveEachDecreasing<T>(s: seq<T>, indices: seq<int>)
    requires StrictlyDecreasing(indices)
    ensures RemoveEach(s, indices).0 == DropPositions(s, set k | k in indices)
    ensures RemoveEach(s, indices).1 == CountInRange(indices, |s|)
  {
    if indices == [] {
      DropPositionsInside(s, {}, set k | k in indices);
      DropPositionsNone(s);
    } else {
      var i := indices[0];
      var tail := indices[1..];
      var d := set k | k in tail;
      DecreasingTail(indices);
      if 0 <= i < |s| {
        RemoveEachDecreasing(RemoveAt(s, i), tail);
        RemoveAtAsDrop(s, i, d);
        CountBelow(tail, i, |s| - 1, |s|);
      } else {
        RemoveEachDecreasing(s, tail);
        DropPositionsInside(s, d, d + {i});
      }
    }
  }

  /** The tail of a strictly decreasing list is strictly decreasing and lies
      below its head. */
  lemma {:induction false} DecreasingTail(indices: seq<int>)
    requires StrictlyDecreasing(indices) && indices != []
    ensures (set k | k in indices) == (set k | k in indices[1..]) + {indices[0]}
    ensures forall k :: k in indices[1..] ==> k < indices[0]
    ensures StrictlyDecreasing(indices[1..])
  {
    var tail := indices[1..];
    assert indices == [indices[0]] + tail;
    forall k | k in tail ensures k < indices[0] {
      var j :| 0 <= j < |tail| && tail[j] == k;
      assert indices[j + 1] == k;
    }
    forall a, b | 0 <= a < b < |tail| ensures tail[a] > tail[b] {
      assert tail[a] == indices[a + 1] && tail[b] == indices[b + 1];
    }
  }

  lemma {:induction false} DropPositionsNone<T>(s: seq<T>)
    ensures DropPositions(s, {}) == s
  {
    if s != [] {
      DropPositionsNone(s[..|s| - 1]);
      assert s == s[..|s| - 1] + [s[|s| - 1]];
    }
  }

  lemma {:induction false} CountBelow(s: seq<int>, bound: int, n: int, m: int)
    requires forall k :: k in s ==> k < bound
    requires bound <= n <= m
    ensures CountInRange(s, n) == CountInRange(s, m)
  {
    if s != [] {
      assert s[0] in s;
      assert forall k :: k in s[1..] ==> k in s;
      CountBelow(s[1..], bound, n, m);
    }
  }

  // ---------------------------------------------------------------- sorting

  predicate NonIncreasing(s: seq<int>)
  {
    forall i, j :: 0 <= i < j < |s| ==> s[i] >= s[j]
  }

  function InsertDesc(x: int, s: seq<int>): (r: seq<int>)
    requires NonIncreasing(s)
    ensures NonIncreasing(r) && multiset(r) == multiset(s) + multiset{x}
  {
    if s == [] || x >= s[0] then [x] + s
    else
      var t := InsertDesc(x, s[1..]);
      InsertBehindHead(x, s, t);
      [s[0]] + t
  }

  /** Putting the head of `s` in front of the tail with `x` inserted keeps the
      order, when `x` is smaller than the head. */
  lemma {:induction false} InsertBehindHead(x: int, s: seq<int>, t: seq<int>)
    requires NonIncreasing(s) && s != [] && x < s[0]
    requires NonIncreasing(t) && multiset(t) == multiset(s[1..]) + multiset{x}
    ensures NonIncreasing([s[0]] + t) && multiset([s[0]] + t) == multiset(s) + multiset{x}
  {
    assert s == [s[0]] + s[1..];
    forall i | 0 <= i < |t| ensures s[0] >= t[i] {
      assert t[i] in multiset(t);
      assert t[i] == x || t[i] in multiset(s[1..]);
      if t[i] != x {
        var k :| 0 <= k < |s[1..]| && s[1..][k] == t[i];
        assert s[k + 1] == t[i];
      }
    }
    var r := [s[0]] + t;
    forall i, j | 0 <= i < j < |r| ensures r[i] >= r[j] {
      assert r[j] == t[j - 1];
      if i > 0 { assert r[i] == t[i - 1]; }
    }
  }

  /** `sorted(indices, reverse=True)`. */
  function SortDesc(s: seq<int>): (r: seq<int>)
    ensures NonIncreasing(r) && multiset(r) == multiset(s)
  {
    if s == [] then []
    else
      assert s == [s[0]] + s[1..];
      InsertDesc(s[0], SortDesc(s[1..]))
  }

  /** A value at two positions is counted at least twice. */
  lemma {:induction false} TwiceCounted(r: seq<int>, i: int, j: int)
    requires 0 <= i < j < |r| && r[i] == r[j]
    ensures multiset(r)[r[i]] >= 2
  {
    assert r == r[..j] + [r[j]] + r[j + 1..];
    assert r[..j][i] == r[i];
    assert r[i] in multiset(r[..j]);
  }

  /** Distinct indices sort into a strictly decreasing list. */
  lemma {:induction false} SortDistinct(s: seq<int>)
    requires Distinct(s)
    ensures StrictlyDecreasing(SortDesc(s))
  {
    var r := SortDesc(s);
    forall i, j | 0 <= i < j < |r| ensures r[i] > r[j] {
      DistinctCount(s, r[j]);
      if r[i] == r[j] { TwiceCounted(r, i, j); }
    }
  }

  /** Sorting keeps the set of indices. */
  lemma {:induction false} SortKeepsIndices(s: seq<int>)
    ensures (set k | k in SortDesc(s)) == (set k | k in s)
  {
    var r := SortDesc(s);
    forall k ensures k in r <==> k in s {
      assert k in r <==> k in multiset(r);
      assert k in s <==> k in multiset(s);
    }
  }

  lemma {:induction false} DistinctCount(s: seq<int>, x: int)
    requires Distinct(s)
    ensures multiset(s)[x] <= 1
  {
    if s != [] {
      assert s == [s[0]] + s[1..];
      DistinctCons(s[0], s[1..]);
      DistinctCount(s[1..], x);
    }
  }

  // ---------------------------------------------------------------- probing

  /** What one `requests.get` through the proxy gives: a status code, or an
      exception (timeout, refused, unsupported scheme). */
  datatype Probe = Answered(code: int) | ProbeFailed

  const TestUrls := ["http://httpbin.org/ip", "http://api.ipify.org?format=json", "http://ip-api.com/json"]

  /** The index of the first answer that is a 200, if any. */
  function FirstSuccess(answers: seq<Probe>): (r: Option<nat>)
    ensures r.Some? ==> r.value < |answers| && answers[r.value] == Answered(200) &&
                        forall j :: 0 <= j < r.value ==> answers[j] != Answered(200)
    ensures r.None? ==> forall j :: 0 <= j < |answers| ==> answers[j] != Answered(200)
  {
    if answers == [] then None
    else if answers[0] == Answered(200) then Some(0)
    else match FirstSuccess(answers[1..])
      case None => None
      case Some(k) => Some(k + 1)
  }

  /** The record after a check: `alive` with its response time, or `dead`
      without one; the check time is set either way. */
  function Checked(proxy: ProxyRecord, success: bool, now: string, elapsedMs: int): (r: ProxyRecord)
    ensures r.address == proxy.address && r.lastCheck == Some(now)
    ensures r.status == (if success then AliveStatus else DeadStatus)
    ensures r.responseTime.None? <==> !success
  {
    if success then proxy.(status := AliveStatus, responseTime := Some(elapsedMs), lastCheck := Some(now))
    else proxy.(status := DeadStatus, responseTime := None, lastCheck := Some(now))
  }

  /** `check_proxy`: the test URLs are tried in order until one answers 200;
      `answers[i]` is what the probe of `TestUrls[i]` gives. Returns the
      updated record and how many URLs were tried. */
  method CheckProxy(proxy: ProxyRecord, answers: seq<Probe>, now: string, elapsedMs: int)
    returns (checked: ProxyRecord, tried: nat)
    requires |answers| == |TestUrls|
    ensures checked == Checked(proxy, FirstSuccess(answers).Some?, now, elapsedMs)
    ensures tried == if FirstSuccess(answers).Some? then FirstSuccess(answers).value + 1 else |TestUrls|
    ensures checked.status == AliveStatus || checked.status == DeadStatus
  {
    var success := false;
    var i := 0;
    while i < |TestUrls|
      invariant 0 <= i <= |TestUrls|
      invariant forall j :: 0 <= j < i ==> answers[j] != Answered(200)
      decreases |TestUrls| - i
    {
      if answers[i].Answered? && answers[i].code == 200 {
        success := true;
        break;
      }
      i := i + 1;
    }
    if success {
      checked := proxy.(status := AliveStatus, responseTime := Some(elapsedMs), lastCheck := Some(now));
      tried := i + 1;
    } else {
      checked := proxy.(status := DeadStatus, responseTime := None, lastCheck := Some(now));
      tried := |TestUrls|;
    }
  }

  // ---------------------------------------------------------------- the catalog

  function Fresh(a: ProxyAddress): ProxyRecord
  {
    ProxyRecord(a, Unchecked, None, None)
  }

  predicate IsDead(p: ProxyRecord) { p.status == DeadStatus }
  predicate NotDead(p: ProxyRecord) { p.status != DeadStatus }
  predicate IsAlive(p: ProxyRecord) { p.status == AliveStatus }

  /** Some stored record has this address. */
  predicate Listed(proxies: seq<ProxyRecord>, a: ProxyAddress)
  {
    exists i :: 0 <= i < |proxies| && proxies[i].address == a
  }

  class ProxyManager {
    var proxies: seq<ProxyRecord>

    constructor (loaded: seq<ProxyRecord>)
      ensures proxies == loaded
    {
      proxies := loaded;
    }

    /** `add_proxy`: a parsable string whose address is not yet listed is
        appended as a fresh unchecked record. */
    method AddProxy(proxyString: string) returns (added: bool)
      modifies this
      ensures added <==> ParseProxyString(proxyString).Some? && !Listed(old(proxies), ParseProxyString(proxyString).value)
      ensures proxies == if added then old(proxies) + [Fresh(ParseProxyString(proxyString).value)] else old(proxies)
    {
      var parsed := ParseProxyString(proxyString);
      if parsed.None? { return false; }
      var address := parsed.value;
      var i := 0;
      while i < |proxies|
        invariant 0 <= i <= |proxies|
        invariant forall j :: 0 <= j < i ==> proxies[j].address != address
      {
        if proxies[i].address == address { return false; }
        i := i + 1;
      }
      proxies := proxies + [Fresh(address)];
      return true;
    }

    /** `remove_proxy`: pops a valid index; any other index changes nothing. */
    method RemoveProxy(index: int) returns (removed: bool)
      modifies this
      ensures removed <==> 0 <= index < |old(proxies)|
      ensures proxies == if removed then RemoveAt(old(proxies), index) else old(proxies)
    {
      if 0 <= index < |proxies| {
        proxies := RemoveAt(proxies, index);
        return true;
      }
      return false;
    }

    /** `remove_proxies`: removes at each index from the largest down and
        counts the removals. */
    method RemoveProxies(indices: seq<int>) returns (count: nat)
      modifies this
      ensures (proxies, count) == RemoveEach(old(proxies), SortDesc(indices))
    {
      count := RemoveAtEach(SortDesc(indices));
    }

    /** The loop of `remove_proxies`: `remove_proxy` at each index in turn. */
    method RemoveAtEach(order: seq<int>) returns (count: nat)
      modifies this
      ensures (proxies, count) == RemoveEach(old(proxies), order)
    {
      ghost var total := RemoveEach(proxies, order);
      count := 0;
      var i := 0;
      while i < |order|
        invariant 0 <= i <= |order|
        invariant RemoveEach(proxies, order[i..]).0 == total.0
        invariant count + RemoveEach(proxies, order[i..]).1 == total.1
      {
        ghost var before := proxies;
        var removed := RemoveProxy(order[i]);
        RemoveEachStep(before, proxies, order, i, removed);
        if removed { count := count + 1; }
        i := i + 1;
      }
      assert order[i..] == [];
    }

    /** `clear_dead_proxies`: keeps the records that are not dead, in order,
        and returns how many went. */
    method ClearDeadProxies() returns (removed: nat)
      modifies this
      ensures proxies == Keep(old(proxies), NotDead)
      ensures removed == CountWhere(old(proxies), IsDead)
    {
      var originalCount := |proxies|;
      proxies := Keep(proxies, NotDead);
      KeepLength(old(proxies), NotDead);
      CountComplement(old(proxies), IsDead, NotDead);
      removed := originalCount - |proxies|;
    }

    /** `get_proxy_by_index`. */
    function GetProxyByIndex(index: int): (r: Option<ProxyRecord>)
      reads this
      ensures r.Some? <==> 0 <= index < |proxies|
      ensures r.Some? ==> r.value == proxies[index]
    {
      if 0 <= index < |proxies| then Some(proxies[index]) else None
    }

    /** `get_random_alive_proxy`: `choice` stands for the random pick among the
        alive records. */
    function GetRandomAliveProxy(choice: nat): (r: Option<ProxyRecord>)
      reads this
      ensures r.Some? ==> r.value in proxies && IsAlive(r.value)
      ensures r.None? <==> forall p :: p in proxies ==> !IsAlive(p)
    {
      var alive := Keep(proxies, IsAlive);
      if alive == [] then None
      else
        assert alive[choice % |alive|] in alive;
        Some(alive[choice % |alive|])
    }
  }

  /** With distinct indices, `remove_proxies` removes exactly the records at
      those positions and counts the indices that were in range. */
  lemma {:induction false} RemoveProxiesDistinct(proxies: seq<ProxyRecord>, indices: seq<int>)
    requires Distinct(indices)
    ensures RemoveEach(proxies, SortDesc(indices)).0 == DropPositions(proxies, set k | k in indices)
    ensures RemoveEach(proxies, SortDesc(indices)).1 == CountInRange(SortDesc(indices), |proxies|)
  {
    SortDistinct(indices);
    SortKeepsIndices(indices);
    RemoveEachDecreasing(proxies, SortDesc(indices));
  }

  /** What `clear_dead_proxies` leaves and what it reports add up. */
  lemma {:induction false} ClearDeadAccounts(proxies: seq<ProxyRecord>)
    ensures |Keep(proxies, NotDead)| + CountWhere(proxies, IsDead) == |proxies|
    ensures forall p :: p in Keep(proxies, NotDead) <==> p in proxies && !IsDead(p)
  {
    KeepLength(proxies, NotDead);
    CountComplement(proxies, IsDead, NotDead);
  }
}
