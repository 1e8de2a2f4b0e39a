/** Base 64 with the standard alphabet and `=` padding (section 4 of
    RFC 4648), as Python's `base64.b64encode` produces it. */
module Base64 {
  import opened Common

  /** The character that stands for the 6-bit value `i`. */
  function IndexChar(i: nat): (c: char)
    requires i < 64
  {
    if i < 26 then ('A' as int + i) as char
    else if i < 52 then ('a' as int + (i - 26)) as char
    else if i < 62 then ('0' as int + (i - 52)) as char
    else if i == 62 then '+'
    else '/'
  }

  /** The 6-bit value a character of the alphabet stands for. */
  function CharIndex(c: char): (r: Option<nat>)
    ensures r.Some? ==> r.value < 64
  {
    if 'A' <= c <= 'Z' then Some(c as int - 'A' as int)
    else if 'a' <= c <= 'z' then Some(c as int - 'a' as int + 26)
    else if '0' <= c <= '9' then Some(c as int - '0' as int + 52)
    else if c == '+' then Some(62)
    else if c == '/' then Some(63)
    else None
  }

  lemma {:induction false} CharIndexOfIndexChar(i: nat)
    requires i < 64
    ensures CharIndex(IndexChar(i)) == Some(i)
  {
  }

  predicate InAlphabet(c: char) { CharIndex(c).Some? }

  /** Four characters for three bytes. */
  function EncodeGroup(b0: byte, b1: byte, b2: byte): (r: string)
    ensures |r| == 4
  {
    [IndexChar(b0 / 4), IndexChar((b0 % 4) * 16 + b1 / 16),
     IndexChar((b1 % 16) * 4 + b2 / 64), IndexChar(b2 % 64)]
  }

  /** Python `base64.b64encode(b).decode()`. */
  function Encode(b: seq<byte>): (r: string)
    ensures |r| == 4 * ((|b| + 2) / 3)
    ensures forall i :: 0 <= i < |r| ==> InAlphabet(r[i]) || r[i] == '='
  {
    if |b| == 0 then ""
    else if |b| == 1 then EncodeGroup(b[0], 0, 0)[..2] + "=="
    else if |b| == 2 then EncodeGroup(b[0], b[1], 0)[..3] + "="
    else
      var g := EncodeGroup(b[0], b[1], b[2]);
      var rest := Encode(b[3..]);
      assert forall i :: 0 <= i < 4 ==> InAlphabet(g[i]) by {
        forall i | 0 <= i < 4 ensures InAlphabet(g[i]) { CharIndexOfIndexChar(if i == 0 then b[0] / 4 else if i == 1 then (b[0] % 4) * 16 + b[1] / 16 else if i == 2 then (b[1] % 16) * 4 + b[2] / 64 else b[2] % 64); }
      }
      g + rest
  }

  /** Reference decoder: the bytes a padded base 64 text stands for. */
  function Decode(s: string): (r: Option<seq<byte>>)
    decreases |s|
  {
    if |s| == 0 then Some([])
    else if |s| < 4 then None
    else
      var i0, i1, i2, i3 := CharIndex(s[0]), CharIndex(s[1]), CharIndex(s[2]), CharIndex(s[3]);
      if i0.None? || i1.None? then None
      else if |s| == 4 && s[2] == '=' && s[3] == '=' then
        Some([i0.value * 4 + i1.value / 16])
      else if i2.None? then None
      else if |s| == 4 && s[3] == '=' then
        Some([i0.value * 4 + i1.value / 16, (i1.value % 16) * 16 + i2.value / 4])
      else if i3.None? then None
      else
        var group := [i0.value * 4 + i1.value / 16, (i1.value % 16) * 16 + i2.value / 4,
                      (i2.value % 4) * 64 + i3.value];
        match Decode(s[4..])
        case None => None
        case Some(rest) => Some(group + rest)
  }

  lemma {:induction false} PaddingNotInAlphabet()
    ensures !InAlphabet('=')
  {
  }

  lemma {:induction false} GroupRoundTrip(b0: byte, b1: byte, b2: byte)
    ensures b0 / 4 * 4 + ((b0 % 4) * 16 + b1 / 16) / 16 == b0
    ensures (((b0 % 4) * 16 + b1 / 16) % 16) * 16 + ((b1 % 16) * 4 + b2 / 64) / 4 == b1
    ensures (((b1 % 16) * 4 + b2 / 64) % 4) * 64 + b2 % 64 == b2
  {
  }

  lemma {:induction false} DecodeEncodeOne(b0: byte)
    ensures Decode(Encode([b0])) == Some([b0])
  {
    var e := Encode([b0]);
    var g := EncodeGroup(b0, 0, 0);
    CharIndexOfIndexChar(b0 / 4);
    CharIndexOfIndexChar((b0 % 4) * 16);
    GroupRoundTrip(b0, 0, 0);
    assert e == [g[0], g[1], '=', '='];
  }

  lemma {:induction false} DecodeEncodeTwo(b0: byte, b1: byte)
    ensures Decode(Encode([b0, b1])) == Some([b0, b1])
  {
    var e := Encode([b0, b1]);
    var g := EncodeGroup(b0, b1, 0);
    CharIndexOfIndexChar(b0 / 4);
    CharIndexOfIndexChar((b0 % 4) * 16 + b1 / 16);
    CharIndexOfIndexChar((b1 % 16) * 4);
    GroupRoundTrip(b0, b1, 0);
    PaddingNotInAlphabet();
    assert e == [g[0], g[1], g[2], '='];
  }

  /** A full group of four alphabet characters decodes to its three bytes,
      followed by whatever the remaining text decodes to. */
  lemma {:induction false} DecodeFullGroup(b0: byte, b1: byte, b2: byte, rest: string, tail: seq<byte>)
    requires Decode(rest) == Some(tail)
    ensures Decode(EncodeGroup(b0, b1, b2) + rest) == Some([b0, b1, b2] + tail)
  {
    var g := EncodeGroup(b0, b1, b2);
    var s := g + rest;
    var j0, j1, j2, j3 := b0 / 4, (b0 % 4) * 16 + b1 / 16, (b1 % 16) * 4 + b2 / 64, b2 % 64;
    CharIndexOfIndexChar(j0);
    CharIndexOfIndexChar(j1);
    CharIndexOfIndexChar(j2);
    CharIndexOfIndexChar(j3);
    GroupRoundTrip(b0, b1, b2);
    PaddingNotInAlphabet();
    assert s[0] == IndexChar(j0) && s[1] == IndexChar(j1) && s[2] == IndexChar(j2) && s[3] == IndexChar(j3);
    assert s[4..] == rest;
  }

  /** Decoding undoes encoding. */
  lemma {:induction false} DecodeEncode(b: seq<byte>)
    ensures Decode(Encode(b)) == Some(b)
  {
    if |b| == 1 {
      assert b == [b[0]];
      DecodeEncodeOne(b[0]);
    } else if |b| == 2 {
      assert b == [b[0], b[1]];
      DecodeEncodeTwo(b[0], b[1]);
    } else if |b| >= 3 {
      DecodeEncode(b[3..]);
      DecodeFullGroup(b[0], b[1], b[2], Encode(b[3..]), b[3..]);
      assert b == [b[0], b[1], b[2]] + b[3..];
    }
  }
}
