/** Shared vocabulary: optional values, bytes, the dynamic values that the
    application keeps in its dictionaries, and small sequence helpers. */
module Common {

  datatype Option<+T> = None | Some(value: T)

  /** An octet on the wire. */
  type byte = x: int | 0 <= x < 256

  /** A value as the application stores it in a dictionary (JSON-shaped). */
  datatype Value =
    | Null
    | Bool(b: bool)
    | Int(i: int)
    | Str(s: string)
    | List(items: seq<Value>)
    | Dict(fields: map<string, Value>)

  /** Python truthiness of a stored value. */
  predicate Truthy(v: Value)
  {
    match v
    case Null => false
    case Bool(b) => b
    case Int(i) => i != 0
    case Str(s) => s != ""
    case List(items) => |items| > 0
    case Dict(fields) => |fields| > 0
  }

  /** Python truthiness of an optional string (`None` and `''` are false). */
  predicate NonEmpty(s: Option<string>)
  {
    s.Some? && s.value != ""
  }

  /** No element occurs twice. */
  predicate Distinct<T(==)>(s: seq<T>)
  {
    forall i, j :: 0 <= i < j < |s| ==> s[i] != s[j]
  }

  /** A bounded history after appending `x`: the oldest entry is dropped
      once there are more than `cap`. */
  function CappedAppend<T>(history: seq<T>, x: T, cap: nat): (r: seq<T>)
    ensures |history| < cap ==> r == history + [x]
    ensures |history| >= cap ==> r == (history + [x])[1..]
    ensures |history| <= cap ==> |r| <= cap
    ensures cap > 0 ==> r != [] && r[|r| - 1] == x
  {
    var h := history + [x];
    if |h| > cap then h[1..] else h
  }

  /** The elements of `s` that satisfy `p`, in their original order
      (a Python list comprehension with a condition). */
  function Keep<T(==)>(s: seq<T>, p: T -> bool): (r: seq<T>)
    ensures |r| <= |s|
    ensures forall x :: x in r ==> x in s && p(x)
    ensures forall x :: x in s && p(x) ==> x in r
  {
    if s == [] then []
    else (if p(s[0]) then [s[0]] else []) + Keep(s[1..], p)
  }

  /** How many elements of `s` satisfy `p`. */
  function CountWhere<T>(s: seq<T>, p: T -> bool): (n: nat)
    ensures n <= |s|
  {
    if s == [] then 0 else (if p(s[0]) then 1 else 0) + CountWhere(s[1..], p)
  }

  lemma {:induction false} KeepLength<T>(s: seq<T>, p: T -> bool)
    ensures |Keep(s, p)| == CountWhere(s, p)
  {
    if s != [] { KeepLength(s[1..], p); }
  }

  lemma {:induction false} KeepAppend<T>(a: seq<T>, b: seq<T>, p: T -> bool)
    ensures Keep(a + b, p) == Keep(a, p) + Keep(b, p)
  {
    if a == [] {
      assert a + b == b;
    } else {
      assert (a + b)[1..] == a[1..] + b;
      KeepAppend(a[1..], b, p);
    }
  }

  /** Counting a predicate and its negation covers every element once. */
  lemma {:induction false} CountComplement<T>(s: seq<T>, p: T -> bool, q: T -> bool)
    requires forall x :: q(x) == !p(x)
    ensures CountWhere(s, q) == |s| - CountWhere(s, p)
  {
    if s != [] { CountComplement(s[1..], p, q); }
  }

  /** `s` with the element at index `i` taken out (Python `list.pop(i)`). */
  function RemoveAt<T>(s: seq<T>, i: nat): (r: seq<T>)
    requires i < |s|
    ensures |r| == |s| - 1
    ensures forall j :: 0 <= j < i ==> r[j] == s[j]
    ensures forall j :: i <= j < |r| ==> r[j] == s[j + 1]
  {
    s[..i] + s[i + 1..]
  }

  /** The first index holding `x` (Python `list.index`), if any. */
  function IndexOf<T(==)>(s: seq<T>, x: T): (r: Option<nat>)
    ensures r.Some? ==> r.value < |s| && s[r.value] == x && x !in s[..r.value]
    ensures r.None? <==> x !in s
  {
    if s == [] then None
    else if s[0] == x then Some(0)
    else match IndexOf(s[1..], x)
      case None => None
      case Some(k) => assert s[1..][..k] == s[1..k + 1]; Some(k + 1)
  }

  /** Python `list.remove(x)`: the first occurrence of `x` goes. */
  function RemoveFirst<T(==)>(s: seq<T>, x: T): (r: seq<T>)
    requires x in s
    ensures |r| == |s| - 1
    ensures multiset(r) == multiset(s) - multiset{x}
  {
    assert s == [s[0]] + s[1..];
    if s[0] == x then s[1..] else [s[0]] + RemoveFirst(s[1..], x)
  }

  lemma {:induction false} DistinctCons<T>(x: T, s: seq<T>)
    ensures Distinct([x] + s) <==> x !in s && Distinct(s)
  {
    var t := [x] + s;
    if x !in s && Distinct(s) {
      forall i, j | 0 <= i < j < |t| ensures t[i] != t[j] {
        assert t[j] == s[j - 1];
        if i > 0 { assert t[i] == s[i - 1]; }
      }
    }
    if Distinct(t) {
      forall i, j | 0 <= i < j < |s| ensures s[i] != s[j] { assert s[i] == t[i + 1] && s[j] == t[j + 1]; }
      forall k | 0 <= k < |s| ensures s[k] != x { assert s[k] == t[k + 1] && t[0] == x; }
    }
  }

  lemma {:induction false} RemoveFirstOfDistinct<T>(s: seq<T>, x: T)
    requires Distinct(s) && x in s
    ensures x !in RemoveFirst(s, x) && Distinct(RemoveFirst(s, x))
    ensures forall y :: y in RemoveFirst(s, x) <==> y in s && y != x
  {
    assert s == [s[0]] + s[1..];
    DistinctCons(s[0], s[1..]);
    if s[0] != x {
      RemoveFirstOfDistinct(s[1..], x);
      DistinctCons(s[0], RemoveFirst(s[1..], x));
    }
  }

  /** Python `list.append(x)` guarded by `x not in list`. */
  function AppendNew<T(==,!new)>(s: seq<T>, x: T): (r: seq<T>)
    ensures x in r
    ensures forall y :: y in r <==> y in s || y == x
    ensures Distinct(s) ==> Distinct(r)
    ensures x in s ==> r == s
  {
    if x in s then s else s + [x]
  }

  /** The keys of a Python dict in insertion order: the order lists exactly the
      keys of `m`, each once. */
  ghost predicate OrderedKeys<K(!new), V>(order: seq<K>, m: map<K, V>)
  {
    Distinct(order) && (forall k :: k in order <==> k in m)
  }

  /** The insertion order after `del d[k]`. */
  function Without<K(==,!new)>(order: seq<K>, k: K): (r: seq<K>)
    ensures forall x :: x in r <==> x in order && x != k
    ensures Distinct(order) ==> Distinct(r)
    ensures |r| <= |order|
  {
    if order == [] then []
    else
      var rest := Without(order[1..], k);
      assert order == [order[0]] + order[1..];
      DistinctCons(order[0], order[1..]);
      DistinctCons(order[0], rest);
      (if order[0] == k then [] else [order[0]]) + rest
  }

  lemma {:induction false} WithoutAbsent<K(!new)>(order: seq<K>, k: K)
    requires k !in order
    ensures Without(order, k) == order
  {
    if order != [] {
      assert order == [order[0]] + order[1..];
      WithoutAbsent(order[1..], k);
    }
  }

  /** Deleting the first key of a dict drops the head of its order. */
  lemma {:induction false} WithoutHead<K(!new)>(order: seq<K>)
    requires order != [] && Distinct(order)
    ensures Without(order, order[0]) == order[1..]
  {
    assert order == [order[0]] + order[1..];
    DistinctCons(order[0], order[1..]);
    WithoutAbsent(order[1..], order[0]);
  }
}
