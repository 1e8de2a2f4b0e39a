/** The pure helpers of src/utils/memory_manager.py: truncating long text,
    splitting a list into chunks, and deleting an object's cache
    attributes. */
module MemoryTools {
  import opened Common

  /** Python's `s[:end]` for any integer `end`: a negative end counts from
      the back, and both are clamped to the string. */
  function PrefixTo<T>(s: seq<T>, end: int): (r: seq<T>)
    ensures end >= 0 ==> r == s[..if end <= |s| then end else |s|]
    ensures end < 0 ==> r == s[..if |s| + end >= 0 then |s| + end else 0]
  {
    if end >= 0 then s[..if end <= |s| then end else |s|]
    else s[..if |s| + end >= 0 then |s| + end else 0]
  }

  /** `limit_string_length`: text no longer than the limit comes back
      unchanged; longer text is cut to the first `max_length` characters and
      marked with `...`, so it ends up `max_length + 3` long. */
  function LimitStringLength(text: string, maxLength: int): (r: string)
    ensures |text| <= maxLength ==> r == text
    ensures |text| > maxLength >= 0 ==>
              |r| == maxLength + 3 && r[..maxLength] == text[..maxLength] && r[maxLength..] == "..."
    ensures |text| > maxLength && maxLength < 0 ==> r == PrefixTo(text, maxLength) + "..."
  {
    if |text| > maxLength then PrefixTo(text, maxLength) + "..." else text
  }

  /** Limiting twice with the same non-negative limit is limiting once. */
  lemma {:induction false} LimitIdempotent(text: string, maxLength: int)
    requires maxLength >= 0
    ensures LimitStringLength(LimitStringLength(text, maxLength), maxLength) == LimitStringLength(text, maxLength)
  {
    var once := LimitStringLength(text, maxLength);
    if |text| > maxLength {
      assert once[..maxLength] == text[..maxLength];
      assert LimitStringLength(once, maxLength) == once[..maxLength] + "...";
    }
  }

  // ---------------------------------------------------------------- chunks

  /** `items[i:i + size]` for `i` in `range(0, len(items), size)`. */
  function ChunksOf<T>(items: seq<T>, size: nat): (r: seq<seq<T>>)
    requires size > 0
    decreases |items|
  {
    if items == [] then []
    else
      var n := if size <= |items| then size else |items|;
      [items[..n]] + ChunksOf(items[n..], size)
  }

  /** `optimize_list`: `range` raises `ValueError` for a step of zero
      (`None`), and with a negative step the range is empty, so there are no
      chunks at all. */
  function Chunks<T>(items: seq<T>, size: int): (r: Option<seq<seq<T>>>)
    ensures r.None? <==> size == 0
    ensures size < 0 ==> r == Some([])
  {
    if size == 0 then None
    else if size < 0 then Some([])
    else Some(ChunksOf(items, size))
  }

  function Flatten<T>(chunks: seq<seq<T>>): seq<T>
  {
    if chunks == [] then [] else chunks[0] + Flatten(chunks[1..])
  }

  /** The chunks, concatenated, give back the list. */
  lemma {:induction false} FlattenChunks<T>(items: seq<T>, size: nat)
    requires size > 0
    ensures Flatten(ChunksOf(items, size)) == items
    decreases |items|
  {
    if items != [] {
      var n := if size <= |items| then size else |items|;
      var c := ChunksOf(items, size);
      FlattenChunks(items[n..], size);
      assert c[1..] == ChunksOf(items[n..], size);
      assert items == items[..n] + items[n..];
    }
  }

  /** Every chunk is non-empty and at most `size` long, and all but the last
      are exactly `size` long. */
  predicate SizedChunks<T>(c: seq<seq<T>>, size: nat)
  {
    (forall i :: 0 <= i < |c| ==> 0 < |c[i]| <= size) &&
    (forall i :: 0 <= i < |c| - 1 ==> |c[i]| == size)
  }

  /** Every chunk is non-empty and at most `size` long, and all but the last
      are exactly `size` long. */
  lemma {:induction false} ChunkSizes<T>(items: seq<T>, size: nat)
    requires size > 0
    ensures SizedChunks(ChunksOf(items, size), size)
    decreases |items|
  {
    if items != [] {
      var n := if size <= |items| then size else |items|;
      var c := ChunksOf(items, size);
      var rest := ChunksOf(items[n..], size);
      ChunkSizes(items[n..], size);
      assert c == [items[..n]] + rest;
      if n < size {
        assert items[n..] == [];
        assert rest == [];
      }
      forall i | 0 <= i < |c| ensures 0 < |c[i]| <= size && (i < |c| - 1 ==> |c[i]| == size) {
        if i > 0 {
          assert c[i] == rest[i - 1];
        } else {
          assert c[0] == items[..n];
        }
      }
    }
  }

  /** The remaining list from position `i` on; empty once the step has
      passed the end. */
  function Rest<T>(items: seq<T>, i: nat): (r: seq<T>)
    ensures i <= |items| ==> r == items[i..]
    ensures i > |items| ==> r == []
  {
    if i <= |items| then items[i..] else []
  }

  /** The generator loop of `optimize_list`, collecting what it yields. */
  method OptimizeList<T>(items: seq<T>, chunkSize: int) returns (r: Option<seq<seq<T>>>)
    ensures r == Chunks(items, chunkSize)
  {
    if chunkSize == 0 { return None; }
    if chunkSize < 0 { return Some([]); }
    var size: nat := chunkSize;
    var chunks: seq<seq<T>> := [];
    var i: nat := 0;
    while i < |items|
      invariant chunks + ChunksOf(Rest(items, i), size) == ChunksOf(items, size)
      decreases |items| - i
    {
      var end := if i + size <= |items| then i + size else |items|;
      var rest := items[i..];
      assert items[i..end] == rest[..end - i];
      assert Rest(items, i + size) == rest[end - i..] by {
        if i + size > |items| { assert rest[end - i..] == []; }
      }
      chunks := chunks + [items[i..end]];
      i := i + size;
    }
    assert Rest(items, i) == [];
    assert ChunksOf(Rest(items, i), size) == [];
    assert chunks + [] == chunks;
    return Some(chunks);
  }

  // ---------------------------------------------------------------- clear_cache

  /** The attribute names `clear_cache` deletes. */
  predicate IsCacheName(name: string)
  {
    (|name| >= 7 && name[..7] == "_cache_") || (|name| >= 8 && name[..8] == "_cached_")
  }

  /** `clear_cache` over the object's `__dict__` (`None` when the object has
      none, which leaves it untouched): every cache attribute is deleted,
      every other attribute keeps its value. */
  method ClearCache(attrs: Option<map<string, Value>>) returns (r: Option<map<string, Value>>)
    ensures attrs.None? ==> r.None?
    ensures attrs.Some? ==> r.Some?
    ensures attrs.Some? && r.Some? ==> forall k :: k in r.value <==> k in attrs.value && !IsCacheName(k)
    ensures attrs.Some? && r.Some? ==> forall k :: k in r.value ==> r.value[k] == attrs.value[k]
  {
    if attrs.None? { return None; }
    var d := attrs.value;
    var cacheAttrs := set k | k in d && IsCacheName(k);
    var todo := cacheAttrs;
    while todo != {}
      invariant todo <= cacheAttrs
      invariant d == attrs.value - (cacheAttrs - todo)
      decreases |todo|
    {
      var k :| k in todo;
      d := d - {k};
      todo := todo - {k};
    }
    return Some(d);
  }
}
