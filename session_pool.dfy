/** The bounded pool of open browser sessions (src/core/browser_pool.py).
    Times are integers in microseconds, the resolution of Python's
    `datetime`; the lock is left out and the pool is used sequentially. */
module SessionPool {
  import opened Common

  /** A WebDriver handle; `quit` on it is recorded, not performed. */
  datatype Driver = Driver(handle: nat)

  datatype Entry = Entry(driver: Driver, profilePath: string, lastUsed: int, createdAt: int)

  const MicrosPerSecond := 1000000
  const SecondsPerDay := 86400
  /** The idle sweep runs at most once per this many seconds. */
  const SweepInterval := 30
  /** `get_stats` counts an entry as idle after this many seconds. */
  const StatsIdleSeconds := 60

  /** `timedelta.seconds` of a difference of `delta` microseconds: whole
      seconds, reduced modulo a day (the `days` part is not included). */
  function Seconds(delta: int): (r: int)
    ensures 0 <= r < SecondsPerDay
  {
    (delta / MicrosPerSecond) % SecondsPerDay
  }

  /** The `.seconds` component forgets whole days. */
  lemma {:induction false} SecondsWrapDaily(delta: int)
    ensures Seconds(delta + SecondsPerDay * MicrosPerSecond) == Seconds(delta)
  {
    var q := delta / MicrosPerSecond;
    assert (delta + SecondsPerDay * MicrosPerSecond) / MicrosPerSecond == q + SecondsPerDay;
  }

  /** Two instances of the day wrap that `SecondsWrapDaily` states in
      general, at the 30-second gate: a sweep is skipped when a day and ten
      seconds have gone by, and one runs when the clock moved back by a
      microsecond. */
  lemma {:induction false} SweepGateExamples()
    ensures Seconds((SecondsPerDay + 10) * MicrosPerSecond) < SweepInterval
    ensures Seconds(-1) >= SweepInterval
  {
  }

  // ---------------------------------------------------------------- idle sweep

  predicate IsIdle(e: Entry, threshold: int)
  {
    e.lastUsed < threshold
  }

  /** The keys, in pool order, whose entries are idle (the list comprehension
      of `_cleanup_idle_browsers`). */
  function IdleKeys(order: seq<string>, pool: map<string, Entry>, threshold: int): (r: seq<string>)
    requires forall k :: k in order ==> k in pool
    ensures forall k :: k in r <==> k in order && IsIdle(pool[k], threshold)
    ensures Distinct(order) ==> Distinct(r)
    ensures |r| <= |order|
  {
    if order == [] then []
    else
      assert order == [order[0]] + order[1..];
      DistinctCons(order[0], order[1..]);
      var rest := IdleKeys(order[1..], pool, threshold);
      var r := (if IsIdle(pool[order[0]], threshold) then [order[0]] else []) + rest;
      DistinctCons(order[0], rest);
      r
  }

  /** The insertion order after deleting each of `keys` in turn. */
  function RemoveKeys(order: seq<string>, keys: seq<string>): (r: seq<string>)
    ensures forall x :: x in r <==> x in order && x !in keys
    ensures Distinct(order) ==> Distinct(r)
  {
    if keys == [] then order
    else Without(RemoveKeys(order, keys[..|keys| - 1]), keys[|keys| - 1])
  }

  /** The elements of `s` that are not in `keys`, in their order. */
  function Excluding(s: seq<string>, keys: seq<string>): seq<string>
  {
    if s == [] then [] else (if s[0] in keys then [] else [s[0]]) + Excluding(s[1..], keys)
  }

  lemma {:induction false} WithoutExcluding(s: seq<string>, keys: seq<string>, k: string)
    ensures Without(Excluding(s, keys), k) == Excluding(s, keys + [k])
  {
    if s != [] {
      WithoutExcluding(s[1..], keys, k);
      var head := if s[0] in keys then [] else [s[0]];
      var t := head + Excluding(s[1..], keys);
      if head == [] { assert t == Excluding(s[1..], keys); }
      else { assert t[1..] == Excluding(s[1..], keys); }
    }
  }

  /** Deleting keys one by one keeps the others in their order. */
  lemma {:induction false} RemoveKeysPreservesOrder(order: seq<string>, keys: seq<string>)
    ensures RemoveKeys(order, keys) == Excluding(order, keys)
  {
    if keys == [] {
      ExcludingNothing(order);
    } else {
      var init := keys[..|keys| - 1];
      RemoveKeysPreservesOrder(order, init);
      WithoutExcluding(order, init, keys[|keys| - 1]);
      assert init + [keys[|keys| - 1]] == keys;
    }
  }

  lemma {:induction false} ExcludingNothing(s: seq<string>)
    ensures Excluding(s, []) == s
  {
    if s != [] { ExcludingNothing(s[1..]); }
  }

  /** The drivers of `keys`, in that order. */
  function DriversOf(keys: seq<string>, pool: map<string, Entry>): (r: seq<Driver>)
    requires forall k :: k in keys ==> k in pool
    ensures |r| == |keys|
    ensures forall i :: 0 <= i < |keys| ==> r[i] == pool[keys[i]].driver
  {
    if keys == [] then [] else DriversOf(keys[..|keys| - 1], pool) + [pool[keys[|keys| - 1]].driver]
  }

  lemma {:induction false} DistinctSize(order: seq<string>, m: map<string, Entry>)
    requires OrderedKeys(order, m)
    ensures |m| == |order|
  {
    assert m.Keys == set k | k in order;
    DistinctCard(order);
  }

  lemma {:induction false} DistinctCard(s: seq<string>)
    requires Distinct(s)
    ensures |set k | k in s| == |s|
  {
    if s != [] {
      assert s == [s[0]] + s[1..];
      DistinctCons(s[0], s[1..]);
      DistinctCard(s[1..]);
      assert (set k | k in s) == (set k | k in s[1..]) + {s[0]};
    }
  }

  function KeySet(s: seq<string>): set<string>
  {
    set k | k in s
  }

  lemma {:induction false} RemoveOneMore(m: map<string, Entry>, s: seq<string>, k: string)
    ensures (m - KeySet(s)) - {k} == m - KeySet(s + [k])
  {
    assert KeySet(s + [k]) == KeySet(s) + {k};
  }

  /** One deletion of the sweep: the next idle key is still present, and
      taking it out advances the dict, the order and the quit log by one key. */
  lemma {:induction false} SweepStep(pool0: map<string, Entry>, order0: seq<string>, idle: seq<string>, i: nat)
    requires Distinct(idle) && i < |idle| && forall k :: k in idle ==> k in pool0
    ensures idle[i] in pool0 - KeySet(idle[..i])
    ensures (pool0 - KeySet(idle[..i])) - {idle[i]} == pool0 - KeySet(idle[..i + 1])
    ensures Without(RemoveKeys(order0, idle[..i]), idle[i]) == RemoveKeys(order0, idle[..i + 1])
    ensures DriversOf(idle[..i], pool0) + [pool0[idle[i]].driver] == DriversOf(idle[..i + 1], pool0)
  {
    assert idle[..i + 1] == idle[..i] + [idle[i]];
    assert idle[..i + 1][..i] == idle[..i];
    RemoveOneMore(pool0, idle[..i], idle[i]);
  }

  /** Deleting a key keeps the order and the dict in step. */
  lemma {:induction false} OrderedRemove(order: seq<string>, m: map<string, Entry>, k: string)
    requires OrderedKeys(order, m)
    ensures OrderedKeys(Without(order, k), m - {k})
  {
  }

  /** Deleting several keys keeps the order and the dict in step. */
  lemma {:induction false} OrderedRemoveKeys(order: seq<string>, m: map<string, Entry>, keys: seq<string>)
    requires OrderedKeys(order, m)
    ensures OrderedKeys(RemoveKeys(order, keys), m - KeySet(keys))
  {
  }

  /** Storing under a key keeps the order and the dict in step. */
  lemma {:induction false} OrderedStore(order: seq<string>, m: map<string, Entry>, k: string, e: Entry)
    requires OrderedKeys(order, m)
    ensures OrderedKeys(AppendNew(order, k), m[k := e])
  {
  }

  /** A dict with keys taken out is no larger, and strictly smaller when a
      key went. */
  lemma {:induction false} MapMinusCard(m: map<string, Entry>, n: map<string, Entry>)
    requires n.Keys <= m.Keys
    ensures |n| <= |m|
    ensures n.Keys != m.Keys ==> |n| < |m|
  {
    assert m.Keys == n.Keys + (m.Keys - n.Keys);
    assert |m.Keys| == |n.Keys| + |m.Keys - n.Keys|;
  }

  /** The loop of `_cleanup_idle_browsers`: pops each key in turn from the
      dict and its order, and quits its driver. */
  method PopAll(pool0: map<string, Entry>, order0: seq<string>, quitted0: seq<Driver>, keys: seq<string>)
    returns (pool: map<string, Entry>, order: seq<string>, quitted: seq<Driver>)
    requires Distinct(keys) && forall k :: k in keys ==> k in pool0
    ensures pool == pool0 - KeySet(keys)
    ensures order == RemoveKeys(order0, keys)
    ensures quitted == quitted0 + DriversOf(keys, pool0)
  {
    pool, order, quitted := pool0, order0, quitted0;
    var i := 0;
    while i < |keys|
      invariant 0 <= i <= |keys|
      invariant pool == pool0 - KeySet(keys[..i])
      invariant order == RemoveKeys(order0, keys[..i])
      invariant quitted == quitted0 + DriversOf(keys[..i], pool0)
    {
      var id := keys[i];
      SweepStep(pool0, order0, keys, i);
      assert quitted + [pool[id].driver] == quitted0 + DriversOf(keys[..i + 1], pool0) by {
        assert quitted + [pool[id].driver] == quitted0 + (DriversOf(keys[..i], pool0) + [pool0[id].driver]);
      }
      quitted := quitted + [pool[id].driver];
      pool := pool - {id};
      order := Without(order, id);
      i := i + 1;
    }
    assert keys[..i] == keys;
  }

  // ---------------------------------------------------------------- eviction

  /** The position of the entry `min(keys, key=created_at)` picks: the first
      one with the smallest creation time. */
  function OldestIndex(keys: seq<string>, pool: map<string, Entry>): (i: nat)
    requires keys != [] && forall k :: k in keys ==> k in pool
    ensures i < |keys|
    ensures forall j :: 0 <= j < |keys| ==> pool[keys[i]].createdAt <= pool[keys[j]].createdAt
    ensures forall j :: 0 <= j < i ==> pool[keys[j]].createdAt > pool[keys[i]].createdAt
  {
    if |keys| == 1 then 0
    else
      var j := OldestIndex(keys[1..], pool) + 1;
      if pool[keys[0]].createdAt <= pool[keys[j]].createdAt then 0 else j
  }

  /** `(now - last_used).seconds > 60`, the idle test of `get_stats`. */
  predicate IdleFor(e: Entry, now: int)
  {
    Seconds(now - e.lastUsed) > StatsIdleSeconds
  }

  /** The number of entries that `get_stats` reports as idle. */
  function CountStale(keys: seq<string>, pool: map<string, Entry>, now: int): (n: nat)
    requires forall k :: k in keys ==> k in pool
    ensures n <= |keys|
  {
    if keys == [] then 0
    else (if IdleFor(pool[keys[0]], now) then 1 else 0) + CountStale(keys[1..], pool, now)
  }

  /** The listed ids whose entries are idle. */
  ghost function StaleIn(keys: seq<string>, pool: map<string, Entry>, now: int): set<string>
    requires forall k :: k in keys ==> k in pool
  {
    set k | k in keys && IdleFor(pool[k], now)
  }

  /** Over a duplicate-free list of ids, the count is the number of distinct
      idle ids. */
  lemma {:induction false} CountStaleIsCard(keys: seq<string>, pool: map<string, Entry>, now: int)
    requires Distinct(keys) && forall k :: k in keys ==> k in pool
    ensures CountStale(keys, pool, now) == |StaleIn(keys, pool, now)|
  {
    if keys != [] {
      var t := keys[1..];
      assert keys == [keys[0]] + t;
      DistinctCons(keys[0], t);
      CountStaleIsCard(t, pool, now);
      if IdleFor(pool[keys[0]], now) {
        assert StaleIn(keys, pool, now) == StaleIn(t, pool, now) + {keys[0]};
      } else {
        assert StaleIn(keys, pool, now) == StaleIn(t, pool, now);
      }
    }
  }

  /** The idle count of a pool's insertion order is the number of pooled
      entries that are idle. */
  lemma {:induction false} CountStaleOfPool(order: seq<string>, pool: map<string, Entry>, now: int)
    requires OrderedKeys(order, pool)
    ensures CountStale(order, pool, now) == |set k | k in pool && IdleFor(pool[k], now)|
  {
    CountStaleIsCard(order, pool, now);
    assert StaleIn(order, pool, now) == set k | k in pool && IdleFor(pool[k], now);
  }

  /** The dict, its insertion order and the quit log, taken together. */
  datatype PoolView = PoolView(pool: map<string, Entry>, order: seq<string>, quitted: seq<Driver>)

  /** The sweep of `_cleanup_idle_browsers` on a view: the idle entries are
      popped and their drivers quit, in pool order. */
  ghost function Swept(v: PoolView, threshold: int): (r: PoolView)
    requires OrderedKeys(v.order, v.pool)
    ensures OrderedKeys(r.order, r.pool)
  {
    var idle := IdleKeys(v.order, v.pool, threshold);
    OrderedRemoveKeys(v.order, v.pool, idle);
    PoolView(v.pool - KeySet(idle), RemoveKeys(v.order, idle), v.quitted + DriversOf(idle, v.pool))
  }

  /** `_close_oldest_browser` on a view. */
  ghost function EvictedOldest(v: PoolView): (r: PoolView)
    requires OrderedKeys(v.order, v.pool)
    ensures OrderedKeys(r.order, r.pool)
  {
    if v.order == [] then v
    else
      var victim := v.order[OldestIndex(v.order, v.pool)];
      OrderedRemove(v.order, v.pool, victim);
      PoolView(v.pool - {victim}, Without(v.order, victim), v.quitted + [v.pool[victim].driver])
  }

  /** What `acquire` does after the sweep: a new id finding the pool full
      evicts the oldest entry first, then the entry is stored. */
  ghost function Admitted(v: PoolView, accountId: string, e: Entry, maxSize: int): (r: PoolView)
    requires OrderedKeys(v.order, v.pool)
    ensures OrderedKeys(r.order, r.pool)
  {
    var w := if |v.pool| >= maxSize && accountId !in v.pool then EvictedOldest(v) else v;
    OrderedStore(w.order, w.pool, accountId, e);
    PoolView(w.pool[accountId := e], AppendNew(w.order, accountId), w.quitted)
  }

  /** A pool within its bound stays within it after `acquire`: a new id
      finding it full takes the place of the evicted entry. */
  lemma {:induction false} AdmittedSize(v: PoolView, accountId: string, e: Entry, maxSize: int)
    requires OrderedKeys(v.order, v.pool)
    ensures 1 <= maxSize && |v.pool| <= maxSize ==> |Admitted(v, accountId, e, maxSize).pool| <= maxSize
  {
    if |v.pool| >= maxSize && accountId !in v.pool {
      if v.order != [] {
        FullPoolEvictsOldest(v.order, v.pool);
      }
      var w := EvictedOldest(v);
      assert w.pool.Keys <= v.pool.Keys;
      assert v.pool != map[] ==> |w.pool| == |v.pool| - 1;
      assert accountId !in w.pool;
    }
  }

  /** `get_stats` without the floating-point utilisation. */
  datatype Stats = Stats(size: nat, maxSize: int, idleBrowsers: nat)

  class BrowserPool {
    const maxSize: int
    const idleTimeout: int
    var pool: map<string, Entry>
    /** The dict's insertion order. */
    var order: seq<string>
    var lastCleanup: int
    /** The drivers `quit` was called on, in call order. */
    var quitted: seq<Driver>

    ghost predicate Valid()
      reads this
    {
      OrderedKeys(order, pool)
    }

    ghost function View(): (v: PoolView)
      reads this
      ensures v.pool == pool && v.order == order && v.quitted == quitted
    {
      PoolView(pool, order, quitted)
    }

    constructor (maxSize: int, idleTimeout: int, now: int)
      ensures Valid() && this.maxSize == maxSize && this.idleTimeout == idleTimeout
      ensures pool == map[] && order == [] && lastCleanup == now && quitted == []
    {
      this.maxSize := maxSize;
      this.idleTimeout := idleTimeout;
      pool, order, lastCleanup, quitted := map[], [], now, [];
    }

    function Threshold(now: int): int
    {
      now - idleTimeout * MicrosPerSecond
    }

    /** The part of `_cleanup_idle_browsers` after the 30-second gate: every
        entry last used before `now - idle_timeout` is taken out and quit, in
        pool order. */
    method SweepIdle(now: int)
      requires Valid()
      modifies this
      ensures Valid()
      ensures var idle := IdleKeys(old(order), old(pool), Threshold(now));
                lastCleanup == now &&
                pool == old(pool) - KeySet(idle) &&
                order == RemoveKeys(old(order), idle) &&
                quitted == old(quitted) + DriversOf(idle, old(pool))
    {
      var idle := IdleKeys(order, pool, Threshold(now));
      OrderedRemoveKeys(order, pool, idle);
      var p, o, q := PopAll(pool, order, quitted, idle);
      pool, order, quitted, lastCleanup := p, o, q, now;
    }

    /** `_cleanup_idle_browsers`: the sweep runs only when the `.seconds` of
        the time since the last one is at least 30. */
    method CleanupIdle(now: int)
      requires Valid()
      modifies this
      ensures Valid()
      ensures Seconds(now - old(lastCleanup)) < SweepInterval ==>
                pool == old(pool) && order == old(order) && lastCleanup == old(lastCleanup) && quitted == old(quitted)
      ensures Seconds(now - old(lastCleanup)) >= SweepInterval ==>
                var idle := IdleKeys(old(order), old(pool), Threshold(now));
                lastCleanup == now &&
                pool == old(pool) - KeySet(idle) &&
                order == RemoveKeys(old(order), idle) &&
                quitted == old(quitted) + DriversOf(idle, old(pool))
      ensures pool.Keys <= old(pool).Keys && |pool| <= |old(pool)|
    {
      if Seconds(now - lastCleanup) >= SweepInterval {
        SweepIdle(now);
        MapMinusCard(old(pool), pool);
      }
    }

    /** `_close_oldest_browser`: the first entry with the smallest creation
        time is taken out and quit; an empty pool is left alone. */
    method CloseOldest()
      requires Valid()
      modifies this
      ensures Valid()
      ensures old(order) == [] ==> pool == old(pool) && order == old(order) && quitted == old(quitted)
      ensures old(order) != [] ==>
                var victim := old(order)[OldestIndex(old(order), old(pool))];
                pool == old(pool) - {victim} && order == Without(old(order), victim) &&
                quitted == old(quitted) + [old(pool)[victim].driver]
      ensures old(pool) != map[] ==> |pool| == |old(pool)| - 1
      ensures lastCleanup == old(lastCleanup)
    {
      if order == [] { return; }
      var victim := order[OldestIndex(order, pool)];
      quitted := quitted + [pool[victim].driver];
      OrderedRemove(order, pool, victim);
      pool := pool - {victim};
      order := Without(order, victim);
      MapMinusCard(old(pool), pool);
      assert old(pool).Keys == pool.Keys + {victim};
    }

    /** `self._pool[account_id] = {...}`: a new id goes to the end of the
        order, an existing one keeps its place. */
    method Store(accountId: string, entry: Entry)
      requires Valid()
      modifies this
      ensures Valid()
      ensures pool == old(pool)[accountId := entry] && order == AppendNew(old(order), accountId)
      ensures quitted == old(quitted) && lastCleanup == old(lastCleanup)
      ensures |pool| == if accountId in old(pool) then |old(pool)| else |old(pool)| + 1
    {
      OrderedStore(order, pool, accountId, entry);
      pool := pool[accountId := entry];
      order := AppendNew(order, accountId);
    }

    /** `acquire`: sweep, evict the oldest when a new id finds the pool full,
        then store the entry with both timestamps set to `now`. */
    method Acquire(accountId: string, driver: Driver, profilePath: string, now: int)
      requires Valid()
      modifies this
      ensures Valid()
      ensures accountId in pool && pool[accountId] == Entry(driver, profilePath, now, now)
      ensures 1 <= maxSize && |old(pool)| <= maxSize ==> |pool| <= maxSize
      ensures var start := old(View());
              var swept := if Seconds(now - old(lastCleanup)) >= SweepInterval then Swept(start, Threshold(now)) else start;
              View() == Admitted(swept, accountId, Entry(driver, profilePath, now, now), maxSize)
      ensures lastCleanup == if Seconds(now - old(lastCleanup)) >= SweepInterval then now else old(lastCleanup)
    {
      ghost var start := View();
      CleanupIdle(now);
      assert View() == if Seconds(now - old(lastCleanup)) >= SweepInterval then Swept(start, Threshold(now)) else start;
      Admit(accountId, Entry(driver, profilePath, now, now));
    }

    /** The part of `acquire` after the sweep: eviction when a new id finds
        the pool full, then the store. */
    method Admit(accountId: string, e: Entry)
      requires Valid()
      modifies this
      ensures Valid()
      ensures View() == Admitted(old(View()), accountId, e, maxSize)
      ensures accountId in pool && pool[accountId] == e
      ensures 1 <= maxSize && |old(pool)| <= maxSize ==> |pool| <= maxSize
      ensures lastCleanup == old(lastCleanup)
    {
      ghost var start := View();
      if |pool| >= maxSize && accountId !in pool {
        CloseOldest();
        assert View() == EvictedOldest(start);
      }
      AdmittedSize(start, accountId, e, maxSize);
      Store(accountId, e);
    }

    /** `release`: takes the entry out and hands its driver back without
        quitting it. */
    method Release(accountId: string) returns (driver: Option<Driver>)
      requires Valid()
      modifies this
      ensures Valid()
      ensures driver.Some? <==> accountId in old(pool)
      ensures driver.Some? ==> driver.value == old(pool)[accountId].driver
      ensures pool == old(pool) - {accountId} && order == Without(old(order), accountId)
      ensures quitted == old(quitted) && lastCleanup == old(lastCleanup)
    {
      if accountId in pool {
        driver := Some(pool[accountId].driver);
        pool := pool - {accountId};
        order := Without(order, accountId);
      } else {
        WithoutAbsent(order, accountId);
        driver := None;
      }
    }

    /** `get`: hands back the driver and marks the entry used at `now`. */
    method Get(accountId: string, now: int) returns (driver: Option<Driver>)
      requires Valid()
      modifies this
      ensures Valid()
      ensures driver.Some? <==> accountId in old(pool)
      ensures driver.Some? ==> driver.value == old(pool)[accountId].driver &&
                               pool == old(pool)[accountId := old(pool)[accountId].(lastUsed := now)]
      ensures driver.None? ==> pool == old(pool)
      ensures order == old(order) && quitted == old(quitted) && lastCleanup == old(lastCleanup)
    {
      if accountId in pool {
        var entry := pool[accountId];
        pool := pool[accountId := entry.(lastUsed := now)];
        return Some(entry.driver);
      }
      return None;
    }

    function Exists(accountId: string): (r: bool)
      reads this
      ensures r <==> accountId in pool
    {
      accountId in pool
    }

    /** `get_all_ids`: the ids in insertion order. */
    function GetAllIds(): (ids: seq<string>)
      reads this
      requires Valid()
      ensures Distinct(ids) && forall k :: k in ids <==> k in pool
    {
      order
    }

    function GetPoolSize(): (n: nat)
      reads this
      requires Valid()
      ensures n == |order|
    {
      DistinctSize(order, pool);
      |pool|
    }

    function IsFull(): (r: bool)
      reads this
      requires Valid()
      ensures r <==> |order| >= maxSize
    {
      DistinctSize(order, pool);
      |pool| >= maxSize
    }

    /** `close_all`: every driver is quit, in pool order, and the pool empties. */
    method CloseAll()
      requires Valid()
      modifies this
      ensures Valid() && pool == map[] && order == []
      ensures quitted == old(quitted) + DriversOf(old(order), old(pool))
      ensures lastCleanup == old(lastCleanup)
    {
      var i := 0;
      while i < |order|
        invariant 0 <= i <= |order|
        invariant pool == old(pool) && order == old(order) && lastCleanup == old(lastCleanup) && Valid()
        invariant quitted == old(quitted) + DriversOf(order[..i], pool)
      {
        assert order[..i + 1][..i] == order[..i];
        quitted := quitted + [pool[order[i]].driver];
        i := i + 1;
      }
      assert order[..i] == order;
      pool, order := map[], [];
    }

    function GetStats(now: int): (s: Stats)
      reads this
      requires Valid()
      ensures s.size == |order| && s.maxSize == maxSize && s.idleBrowsers <= s.size
      ensures s.idleBrowsers == |set k | k in pool && IdleFor(pool[k], now)|
    {
      DistinctSize(order, pool);
      CountStaleOfPool(order, pool, now);
      Stats(|pool|, maxSize, CountStale(order, pool, now))
    }
  }

  /** A new id entering a full pool evicts exactly the entry
      `min(created_at)` names (the first such in insertion order). */
  lemma {:induction false} FullPoolEvictsOldest(order: seq<string>, pool: map<string, Entry>)
    requires OrderedKeys(order, pool) && order != []
    ensures var v := order[OldestIndex(order, pool)];
      v in pool &&
      (forall k :: k in pool ==> pool[v].createdAt <= pool[k].createdAt) &&
      (forall k :: k in Without(order, v) <==> k in pool && k != v) &&
      |pool - {v}| == |pool| - 1
  {
    var v := order[OldestIndex(order, pool)];
    forall k | k in pool ensures pool[v].createdAt <= pool[k].createdAt {
      var j :| 0 <= j < |order| && order[j] == k;
    }
    assert (pool - {v}).Keys == pool.Keys - {v};
  }

  /** After a sweep, exactly the entries used at or after the threshold remain,
      still in insertion order. */
  lemma {:induction false} SweepKeepsRecent(order: seq<string>, pool: map<string, Entry>, threshold: int)
    requires OrderedKeys(order, pool)
    ensures var idle := IdleKeys(order, pool, threshold);
      (forall k :: k in pool - (set k | k in idle) <==> k in pool && !IsIdle(pool[k], threshold)) &&
      RemoveKeys(order, idle) == Excluding(order, idle)
  {
    RemoveKeysPreservesOrder(order, IdleKeys(order, pool, threshold));
  }
}
