/** The string operations of Python that the application relies on:
    `strip`, ASCII `lower`, substring search, `split`, `replace`, `int()`,
    `str(int)` and UTF-8 `encode`. */
module Text {
  import opened Common

  // ---------------------------------------------------------------- whitespace

  /** Python `str.isspace` for one character. */
  predicate IsPySpace(c: char)
  {
    var n := c as int;
    n == 32 || 9 <= n <= 13 || 28 <= n <= 31 || n == 0x85 || n == 0xA0 ||
    n == 0x1680 || 0x2000 <= n <= 0x200A || n == 0x2028 || n == 0x2029 ||
    n == 0x202F || n == 0x205F || n == 0x3000
  }

  /** Drop leading characters satisfying `p`. */
  function TrimLeft(s: string, p: char -> bool): (r: string)
    ensures |r| <= |s| && r == s[|s| - |r|..]
    ensures r == [] || !p(r[0])
    ensures forall i :: 0 <= i < |s| - |r| ==> p(s[i])
  {
    if s != [] && p(s[0]) then TrimLeft(s[1..], p) else s
  }

  /** Drop trailing characters satisfying `p`. */
  function TrimRight(s: string, p: char -> bool): (r: string)
    ensures |r| <= |s| && r == s[..|r|]
    ensures r == [] || !p(r[|r| - 1])
    ensures forall i :: |r| <= i < |s| ==> p(s[i])
  {
    if s != [] && p(s[|s| - 1]) then TrimRight(s[..|s| - 1], p) else s
  }

  /** Python `s.strip()`. */
  function Strip(s: string): (r: string)
    ensures r == [] || (!IsPySpace(r[0]) && !IsPySpace(r[|r| - 1]))
  {
    TrimRight(TrimLeft(s, IsPySpace), IsPySpace)
  }

  /** Python `s.strip(c)` for a single character `c`. */
  function StripChar(s: string, c: char): (r: string)
    ensures r == [] || (r[0] != c && r[|r| - 1] != c)
  {
    var r := TrimRight(TrimLeft(s, x => x == c), x => x == c);
    assert r == [] || r[0] == TrimLeft(s, x => x == c)[0];
    r
  }

  lemma {:induction false} TrimNone(s: string, p: char -> bool)
    requires forall i :: 0 <= i < |s| ==> !p(s[i])
    ensures TrimLeft(s, p) == s && TrimRight(s, p) == s
  {
  }

  /** Every character of `s` lies in the substring `s[i..j]` shape: trimming
      only removes characters, so a property of all characters survives. */
  lemma {:induction false} StripCharKeeps(s: string, c: char, q: char -> bool)
    requires forall i :: 0 <= i < |s| ==> q(s[i])
    ensures forall i :: 0 <= i < |StripChar(s, c)| ==> q(StripChar(s, c)[i])
  {
    var l := TrimLeft(s, x => x == c);
    var r := TrimRight(l, x => x == c);
    assert forall i :: 0 <= i < |l| ==> q(l[i]) by {
      forall i | 0 <= i < |l| ensures q(l[i]) { assert l[i] == s[|s| - |l| + i]; }
    }
    assert forall i :: 0 <= i < |r| ==> q(r[i]) by {
      forall i | 0 <= i < |r| ensures q(r[i]) { assert r[i] == l[i]; }
    }
    assert StripChar(s, c) == r;
  }

  /** A string in which `c` is never followed by another `c`. */
  predicate NoRepeat(s: string, c: char)
  {
    forall i :: 0 <= i < |s| - 1 && s[i] == c ==> s[i + 1] != c
  }

  /** Stripping takes a slice, so it cannot create a repeated character. */
  lemma {:induction false} StripCharNoRepeat(s: string, c: char, d: char)
    requires NoRepeat(s, d)
    ensures NoRepeat(StripChar(s, c), d)
  {
    var l := TrimLeft(s, x => x == c);
    var r := TrimRight(l, x => x == c);
    assert forall i :: 0 <= i < |r| ==> r[i] == l[i] == s[|s| - |l| + i];
  }

  /** A string that neither starts nor ends with `c` is its own strip. */
  lemma {:induction false} StripCharNone(s: string, c: char)
    requires s == [] || (s[0] != c && s[|s| - 1] != c)
    ensures StripChar(s, c) == s
  {
  }

  // ---------------------------------------------------------------- case

  /** ASCII lower-casing of one character. */
  function LowerChar(c: char): (r: char)
    ensures 'A' <= c <= 'Z' ==> r as int == c as int + 32
    ensures !('A' <= c <= 'Z') ==> r == c
  {
    if 'A' <= c <= 'Z' then (c as int + 32) as char else c
  }

  /** Python `s.lower()` on the ASCII range. */
  function Lower(s: string): (r: string)
    ensures |r| == |s| && forall i :: 0 <= i < |s| ==> r[i] == LowerChar(s[i])
  {
    seq(|s|, i requires 0 <= i < |s| => LowerChar(s[i]))
  }

  /** Lower-casing leaves a string without upper-case letters alone. */
  lemma {:induction false} LowerNoUpper(s: string)
    requires forall i :: 0 <= i < |s| ==> !('A' <= s[i] <= 'Z')
    ensures Lower(s) == s
  {
    var r := Lower(s);
    forall i | 0 <= i < |s| ensures r[i] == s[i] {
      assert r[i] == LowerChar(s[i]);
    }
  }

  // ---------------------------------------------------------------- search

  /** `sub` occurs in `s` starting at index `i`. */
  predicate OccursAt<T(==)>(s: seq<T>, sub: seq<T>, i: int)
  {
    0 <= i && i + |sub| <= |s| && s[i..i + |sub|] == sub
  }

  /** Python `sub in s` for strings and bytes. */
  predicate Contains<T(==)>(s: seq<T>, sub: seq<T>)
  {
    exists i | 0 <= i <= |s| - |sub| :: OccursAt(s, sub, i)
  }

  /** The first occurrence of `sub` in `s` at or after `k`. */
  function FindFrom<T(==)>(s: seq<T>, sub: seq<T>, k: nat): (r: Option<nat>)
    decreases |s| - k
    ensures r.Some? ==> k <= r.value && OccursAt(s, sub, r.value) &&
                        forall j :: k <= j < r.value ==> !OccursAt(s, sub, j)
    ensures r.None? ==> forall j :: k <= j ==> !OccursAt(s, sub, j)
  {
    if k + |sub| > |s| then None
    else if s[k..k + |sub|] == sub then Some(k)
    else FindFrom(s, sub, k + 1)
  }

  /** The first occurrence of `sub` in `s` (Python `s.find(sub)`). */
  function Find<T(==)>(s: seq<T>, sub: seq<T>): (r: Option<nat>)
    ensures r.Some? <==> Contains(s, sub)
    ensures r.Some? ==> OccursAt(s, sub, r.value) &&
                        forall j :: 0 <= j < r.value ==> !OccursAt(s, sub, j)
  {
    FindFrom(s, sub, 0)
  }

  /** When the first element of `sub` does not occur in `a`, the first
      occurrence of `sub` in `a + sub + b` is right after `a`. */
  lemma {:induction false} FindAfter<T>(a: seq<T>, sub: seq<T>, b: seq<T>)
    requires |sub| > 0 && sub[0] !in a
    ensures Find(a + sub + b, sub) == Some(|a|)
  {
    var s := a + sub + b;
    assert s[|a|..|a| + |sub|] == sub;
    assert OccursAt(s, sub, |a|);
  }

  /** Python `s.split(sep)[0]`: everything before the first separator. */
  function BeforeFirst<T(==)>(s: seq<T>, sep: seq<T>): (r: seq<T>)
    ensures r <= s
    ensures !Contains(s, sep) ==> r == s
  {
    match Find(s, sep)
    case Some(i) => s[..i]
    case None => s
  }

  /** Python `s.split(c)` for a single-character separator. */
  function Split(s: string, c: char): (r: seq<string>)
    ensures |r| >= 1
    ensures forall i :: 0 <= i < |r| ==> c !in r[i]
  {
    match IndexOf(s, c)
    case None => [s]
    case Some(i) => [s[..i]] + Split(s[i + 1..], c)
  }

  /** `s.split(c)` has one more part than `s` has separators. */
  lemma {:induction false} SplitCount(s: string, c: char)
    ensures |Split(s, c)| == multiset(s)[c] + 1
    decreases |s|
  {
    match IndexOf(s, c)
    case None =>
    case Some(i) =>
      assert s == s[..i] + [c] + s[i + 1..];
      assert multiset(s)[c] == multiset(s[..i])[c] + 1 + multiset(s[i + 1..])[c];
      SplitCount(s[i + 1..], c);
  }

  lemma {:induction false} SplitNoSeparator(s: string, c: char)
    requires c !in s
    ensures Split(s, c) == [s]
  {
  }

  lemma {:induction false} SplitField(a: string, c: char, b: string)
    requires c !in a
    ensures Split(a + [c] + b, c) == [a] + Split(b, c)
  {
    var s := a + [c] + b;
    IndexOfFirst(a, c, b);
    assert s[..|a|] == a && s[|a| + 1..] == b;
  }

  lemma {:induction false} IndexOfFirst(a: string, c: char, b: string)
    requires c !in a
    ensures IndexOf(a + [c] + b, c) == Some(|a|)
  {
    var s := a + [c] + b;
    var r := IndexOf(s, c);
    assert s[|a|] == c;
    assert r.Some?;
  }

  /** Python `s.replace(c, repl)` for a single character `c`. */
  function ReplaceChar(s: string, c: char, repl: string): (r: string)
    ensures c !in s ==> r == s
    ensures c !in repl ==> c !in r
  {
    if s == [] then [] else (if s[0] == c then repl else [s[0]]) + ReplaceChar(s[1..], c, repl)
  }

  lemma {:induction false} ReplaceCharAppend(a: string, b: string, c: char, repl: string)
    ensures ReplaceChar(a + b, c, repl) == ReplaceChar(a, c, repl) + ReplaceChar(b, c, repl)
  {
    if a == [] {
      assert a + b == b;
    } else {
      var head := if a[0] == c then repl else [a[0]];
      assert (a + b)[0] == a[0];
      assert (a + b)[1..] == a[1..] + b;
      ReplaceCharAppend(a[1..], b, c, repl);
      calc {
        ReplaceChar(a + b, c, repl);
        head + ReplaceChar(a[1..] + b, c, repl);
        head + (ReplaceChar(a[1..], c, repl) + ReplaceChar(b, c, repl));
        (head + ReplaceChar(a[1..], c, repl)) + ReplaceChar(b, c, repl);
      }
    }
  }

  /** Replacing the one `c` between two `c`-free strings. */
  lemma {:induction false} ReplaceJoin(a: string, c: char, repl: string, b: string)
    requires c !in a && c !in b
    ensures ReplaceChar(a + [c] + b, c, repl) == a + repl + b
  {
    assert a + [c] + b == a + ([c] + b);
    ReplaceCharAppend(a, [c] + b, c, repl);
    ReplaceCharAppend([c], b, c, repl);
    assert [c][1..] == [];
    assert ReplaceChar([c], c, repl) == repl + ReplaceChar([], c, repl);
    assert repl + [] == repl;
  }

  /** Python `re.sub('(P)+', [repl], s)`: every maximal run of characters
      satisfying `p` becomes the single character `repl`. */
  function CollapseRuns(s: string, p: char -> bool, repl: char): (r: string)
    ensures forall i :: 0 <= i < |r| ==> r[i] == repl || (r[i] in s && !p(r[i]))
    ensures r == [] <==> s == []
    ensures s != [] && !p(s[0]) ==> r[0] == s[0]
    ensures s != [] && p(s[0]) ==> r[0] == repl
    decreases |s|
  {
    if s == [] then []
    else if p(s[0]) then [repl] + CollapseRuns(TrimLeft(s, p), p, repl)
    else [s[0]] + CollapseRuns(s[1..], p, repl)
  }

  lemma {:induction false} CollapseNone(s: string, p: char -> bool, repl: char)
    requires forall i :: 0 <= i < |s| ==> !p(s[i])
    ensures CollapseRuns(s, p, repl) == s
  {
    if s != [] { CollapseNone(s[1..], p, repl); }
  }

  /** Putting a character in front keeps a string free of doubled `c`
      unless both the character and the old head are `c`. */
  lemma {:induction false} ConsNoRepeat(x: char, rest: string, c: char)
    requires NoRepeat(rest, c) && (x != c || rest == [] || rest[0] != c)
    ensures NoRepeat([x] + rest, c)
  {
    var r := [x] + rest;
    forall i | 0 <= i < |r| - 1 && r[i] == c ensures r[i + 1] != c {
      if i > 0 { assert r[i] == rest[i - 1] && r[i + 1] == rest[i]; }
    }
  }

  /** After collapsing, the replacement never appears twice in a row when it
      is itself one of the collapsed characters. */
  lemma {:induction false} CollapseNoRepeat(s: string, p: char -> bool, repl: char)
    requires p(repl)
    ensures NoRepeat(CollapseRuns(s, p, repl), repl)
    decreases |s|
  {
    if s != [] {
      if p(s[0]) {
        var t := TrimLeft(s, p);
        CollapseNoRepeat(t, p, repl);
        var rest := CollapseRuns(t, p, repl);
        assert rest == [] || rest[0] != repl by {
          if rest != [] { assert t != [] && !p(t[0]); }
        }
        ConsNoRepeat(repl, rest, repl);
      } else {
        CollapseNoRepeat(s[1..], p, repl);
        ConsNoRepeat(s[0], CollapseRuns(s[1..], p, repl), repl);
      }
    }
  }

  /** Collapsing leaves a string alone when each of its collapsible
      characters is already the replacement and stands alone. */
  lemma {:induction false} CollapseIsolated(s: string, p: char -> bool, repl: char)
    requires forall i :: 0 <= i < |s| && p(s[i]) ==> s[i] == repl
    requires forall i :: 0 <= i < |s| - 1 && p(s[i]) ==> !p(s[i + 1])
    ensures CollapseRuns(s, p, repl) == s
    decreases |s|
  {
    if s != [] {
      var tail := s[1..];
      assert forall i :: 0 <= i < |tail| ==> tail[i] == s[i + 1];
      CollapseIsolated(tail, p, repl);
      if p(s[0]) {
        assert TrimLeft(s, p) == TrimLeft(tail, p);
        if tail != [] { assert !p(tail[0]); }
        assert TrimLeft(tail, p) == tail;
        assert s == [s[0]] + tail;
      } else {
        assert s == [s[0]] + tail;
      }
    }
  }

  // ---------------------------------------------------------------- integers

  predicate IsDigit(c: char) { '0' <= c <= '9' }

  function DigitChar(d: nat): (c: char)
    requires d < 10
    ensures IsDigit(c) && c as int - '0' as int == d
  {
    ('0' as int + d) as char
  }

  /** Decimal text of a natural number, no leading zeros. */
  function NatToString(n: nat): (r: string)
    ensures |r| >= 1 && forall i :: 0 <= i < |r| ==> IsDigit(r[i])
  {
    if n < 10 then [DigitChar(n)] else NatToString(n / 10) + [DigitChar(n % 10)]
  }

  /** Python `str(i)` for an int. */
  function IntToString(i: int): (r: string)
    ensures |r| >= 1
    ensures i >= 0 ==> forall k :: 0 <= k < |r| ==> IsDigit(r[k])
    ensures i < 0 ==> r[0] == '-'
  {
    if i < 0 then "-" + NatToString(-i) else NatToString(i)
  }

  /** The number a string of decimal digits denotes. */
  function DigitsValue(ds: string): nat
    requires forall i :: 0 <= i < |ds| ==> IsDigit(ds[i])
  {
    if ds == [] then 0
    else
      assert IsDigit(ds[|ds| - 1]);
      DigitsValue(ds[..|ds| - 1]) * 10 + (ds[|ds| - 1] as int - '0' as int)
  }

  lemma {:induction false} DigitsValueOfNatToString(n: nat)
    ensures DigitsValue(NatToString(n)) == n
  {
    if n >= 10 {
      var s := NatToString(n);
      assert s[..|s| - 1] == NatToString(n / 10);
      DigitsValueOfNatToString(n / 10);
    }
  }

  /** Python's grouping rule for `int()`: digits, with single underscores
      allowed between two digits. */
  predicate DigitGroups(b: string)
  {
    && |b| > 0 && IsDigit(b[0]) && IsDigit(b[|b| - 1])
    && (forall i :: 0 <= i < |b| ==> IsDigit(b[i]) || b[i] == '_')
    && (forall i :: 0 <= i < |b| - 1 && b[i] == '_' ==> IsDigit(b[i + 1]))
  }

  /** Python `int(s)` in base 10: surrounding whitespace, an optional sign,
      then digit groups; anything else raises `ValueError` (here `None`). */
  function ParseInt(s: string): (r: Option<int>)
    ensures r.Some? ==> Strip(s) != ""
  {
    ParseSigned(Strip(s))
  }

  /** `int()` on text whose surrounding whitespace is already gone. */
  function ParseSigned(t: string): (r: Option<int>)
    ensures r.Some? ==> t != ""
  {
    var signed := |t| > 0 && (t[0] == '+' || t[0] == '-');
    var body := if signed then t[1..] else t;
    if DigitGroups(body) then
      var magnitude: int := DigitsValue(Keep(body, IsDigit));
      Some(if signed && t[0] == '-' then -magnitude else magnitude)
    else None
  }

  lemma {:induction false} StripPlain(s: string)
    requires forall i :: 0 <= i < |s| ==> !IsPySpace(s[i])
    ensures Strip(s) == s
  {
    TrimNone(s, IsPySpace);
  }

  lemma {:induction false} KeepAll(s: string, p: char -> bool)
    requires forall i :: 0 <= i < |s| ==> p(s[i])
    ensures Keep(s, p) == s
  {
    if s != [] { KeepAll(s[1..], p); }
  }

  lemma {:induction false} DigitsAreGroups(digits: string)
    requires |digits| > 0 && forall i :: 0 <= i < |digits| ==> IsDigit(digits[i])
    ensures DigitGroups(digits)
  {
  }

  lemma {:induction false} ParseDigits(n: nat)
    ensures ParseSigned(NatToString(n)) == Some(n)
  {
    var digits := NatToString(n);
    assert IsDigit(digits[0]);
    DigitsAreGroups(digits);
    KeepAll(digits, IsDigit);
    DigitsValueOfNatToString(n);
  }

  lemma {:induction false} ParseNegativeDigits(n: nat)
    ensures ParseSigned("-" + NatToString(n)) == Some(-(n as int))
  {
    var digits := NatToString(n);
    var t := "-" + digits;
    assert t[0] == '-' && t[1..] == digits;
    DigitsAreGroups(digits);
    KeepAll(digits, IsDigit);
    DigitsValueOfNatToString(n);
  }

  /** The decimal text of an integer holds neither `:` nor `@`. */
  lemma {:induction false} IntTextPlain(i: int)
    ensures ':' !in IntToString(i) && '@' !in IntToString(i)
  {
    var digits := IntToString(i);
    forall k | 0 <= k < |digits| ensures digits[k] != ':' && digits[k] != '@' {
      if i < 0 && k > 0 { assert digits[k] == NatToString(-i)[k - 1]; }
    }
  }

  /** `int(str(i)) == i`: the decimal text of an integer parses back to it. */
  lemma {:induction false} ParseIntToString(i: int)
    ensures ParseInt(IntToString(i)) == Some(i)
  {
    var s := IntToString(i);
    var n: nat := if i < 0 then -i else i;
    assert s == if i < 0 then "-" + NatToString(n) else NatToString(n);
    assert forall k :: 0 <= k < |s| ==> !IsPySpace(s[k]) by {
      forall k | 0 <= k < |s| ensures !IsPySpace(s[k]) {
        if i < 0 && k > 0 { assert s[k] == NatToString(n)[k - 1]; }
      }
    }
    StripPlain(s);
    if i < 0 { ParseNegativeDigits(n); } else { ParseDigits(n); }
  }

  // ---------------------------------------------------------------- UTF-8

  /** The UTF-8 encoding of one scalar value (RFC 3629, section 3). */
  function Utf8Char(c: char): (r: seq<byte>)
    ensures 1 <= |r| <= 4
    ensures c as int < 0x80 <==> |r| == 1
    ensures c as int < 0x80 ==> r == [c as int as byte]
  {
    var n := c as int;
    if n < 0x80 then [n]
    else if n < 0x800 then [0xC0 + n / 64, 0x80 + n % 64]
    else if n < 0x10000 then [0xE0 + n / 4096, 0x80 + (n / 64) % 64, 0x80 + n % 64]
    else [0xF0 + n / 262144, 0x80 + (n / 4096) % 64, 0x80 + (n / 64) % 64, 0x80 + n % 64]
  }

  /** Python `s.encode()` (UTF-8). */
  function Utf8(s: string): (r: seq<byte>)
    ensures |s| <= |r| <= 4 * |s|
  {
    if s == [] then [] else Utf8Char(s[0]) + Utf8(s[1..])
  }

  lemma {:induction false} Utf8Append(a: string, b: string)
    ensures Utf8(a + b) == Utf8(a) + Utf8(b)
  {
    if a == [] {
      assert a + b == b;
    } else {
      assert (a + b)[1..] == a[1..] + b;
      Utf8Append(a[1..], b);
    }
  }

  predicate IsAscii(s: string)
  {
    forall i :: 0 <= i < |s| ==> s[i] as int < 0x80
  }

  /** ASCII text encodes byte for byte. */
  lemma {:induction false} Utf8Ascii(s: string)
    requires IsAscii(s)
    ensures |Utf8(s)| == |s| && forall i :: 0 <= i < |s| ==> Utf8(s)[i] == s[i] as int
  {
    if s != [] {
      Utf8Ascii(s[1..]);
    }
  }

  /** The code of an ASCII string, one byte per character. */
  function AsciiBytes(s: string): (r: seq<byte>)
    requires IsAscii(s)
    ensures r == Utf8(s)
  {
    Utf8Ascii(s);
    seq(|s|, i requires 0 <= i < |s| => s[i] as int as byte)
  }

  predicate IsContinuation(x: byte) { 0x80 <= x < 0xC0 }

  /** What one step of a UTF-8 decoder finds at the front of `b`: a character
      and the bytes it took, or no character and the length of the longest
      prefix that could have started one (the part that is dropped). */
  datatype Decoded = Decoded(ch: Option<char>, width: nat)

  function Utf8Step(b: seq<byte>): (r: Decoded)
    requires |b| > 0
    ensures 1 <= r.width <= |b|
    ensures r.ch.Some? && r.width == 1 <==> b[0] < 0x80
  {
    var b0: int := b[0];
    if b0 < 0x80 then Decoded(Some(b0 as char), 1)
    else if 0xC2 <= b0 <= 0xDF then
      if |b| >= 2 && IsContinuation(b[1]) then Decoded(Some(((b0 - 0xC0) * 64 + (b[1] as int - 0x80)) as char), 2)
      else Decoded(None, 1)
    else if 0xE0 <= b0 <= 0xEF then
      var lo := if b0 == 0xE0 then 0xA0 else 0x80;
      var hi := if b0 == 0xED then 0x9F else 0xBF;
      if |b| < 2 || !(lo <= b[1] <= hi) then Decoded(None, 1)
      else if |b| < 3 || !IsContinuation(b[2]) then Decoded(None, 2)
      else Decoded(Some(((b0 - 0xE0) * 4096 + (b[1] as int - 0x80) * 64 + (b[2] as int - 0x80)) as char), 3)
    else if 0xF0 <= b0 <= 0xF4 then
      var lo := if b0 == 0xF0 then 0x90 else 0x80;
      var hi := if b0 == 0xF4 then 0x8F else 0xBF;
      if |b| < 2 || !(lo <= b[1] <= hi) then Decoded(None, 1)
      else if |b| < 3 || !IsContinuation(b[2]) then Decoded(None, 2)
      else if |b| < 4 || !IsContinuation(b[3]) then Decoded(None, 3)
      else Decoded(Some(((b0 - 0xF0) * 262144 + (b[1] as int - 0x80) * 4096 + (b[2] as int - 0x80) * 64 + (b[3] as int - 0x80)) as char), 4)
    else Decoded(None, 1)
  }

  /** Python `b.decode('utf-8', errors='ignore')`: malformed parts are dropped,
      each the longest prefix that could have begun a character. */
  function Utf8Decode(b: seq<byte>): (r: string)
    ensures |r| <= |b|
    decreases |b|
  {
    if b == [] then ""
    else
      var st := Utf8Step(b);
      (if st.ch.Some? then [st.ch.value] else []) + Utf8Decode(b[st.width..])
  }

  lemma {:induction false} Utf8StepTwo(c: char, rest: seq<byte>)
    requires 0x80 <= c as int < 0x800
    ensures Utf8Step(Utf8Char(c) + rest) == Decoded(Some(c), 2)
  {
    var n := c as int;
    var b := Utf8Char(c) + rest;
    var q, r := n / 64, n % 64;
    assert n == q * 64 + r;
    assert b[0] == 0xC0 + q && b[1] == 0x80 + r;
  }

  lemma {:induction false} Utf8StepThree(c: char, rest: seq<byte>)
    requires 0x800 <= c as int < 0x10000
    ensures Utf8Step(Utf8Char(c) + rest) == Decoded(Some(c), 3)
  {
    var n := c as int;
    var b := Utf8Char(c) + rest;
    var q, m, r := n / 4096, (n / 64) % 64, n % 64;
    assert n == q * 4096 + m * 64 + r;
    assert b[0] == 0xE0 + q && b[1] == 0x80 + m && b[2] == 0x80 + r;
  }

  /** The digits in base 64 of a four-byte scalar value. */
  lemma {:induction false} FourByteDigits(n: int)
    requires 0x10000 <= n < 0x110000
    ensures n == (n / 262144) * 262144 + ((n / 4096) % 64) * 4096 + ((n / 64) % 64) * 64 + n % 64
    ensures n / 262144 <= 4
    ensures n / 262144 == 0 ==> (n / 4096) % 64 >= 16
    ensures n / 262144 == 4 ==> (n / 4096) % 64 < 16
  {
    var q, u, t := n / 262144, n / 4096, n / 64;
    assert u == q * 64 + u % 64;
    assert t == u * 64 + t % 64;
    assert n == t * 64 + n % 64;
  }

  lemma {:induction false} Utf8StepFour(c: char, rest: seq<byte>)
    requires 0x10000 <= c as int
    ensures Utf8Step(Utf8Char(c) + rest) == Decoded(Some(c), 4)
  {
    var n := c as int;
    var b := Utf8Char(c) + rest;
    var q, m1, m2, r := n / 262144, (n / 4096) % 64, (n / 64) % 64, n % 64;
    FourByteDigits(n);
    assert b[0] == 0xF0 + q && b[1] == 0x80 + m1 && b[2] == 0x80 + m2 && b[3] == 0x80 + r;
  }

  lemma {:induction false} Utf8StepChar(c: char, rest: seq<byte>)
    ensures Utf8Step(Utf8Char(c) + rest) == Decoded(Some(c), |Utf8Char(c)|)
  {
    var n := c as int;
    if n < 0x80 {
    } else if n < 0x800 {
      Utf8StepTwo(c, rest);
    } else if n < 0x10000 {
      Utf8StepThree(c, rest);
    } else {
      Utf8StepFour(c, rest);
    }
  }

  /** Decoding undoes `str.encode()`. */
  lemma {:induction false} Utf8DecodeEncode(s: string)
    ensures Utf8Decode(Utf8(s)) == s
  {
    if s != [] {
      var b := Utf8(s);
      Utf8StepChar(s[0], Utf8(s[1..]));
      assert b[|Utf8Char(s[0])|..] == Utf8(s[1..]);
      Utf8DecodeEncode(s[1..]);
    }
  }
}
