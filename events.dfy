/** The publish/subscribe bus of src/utils/event_bus.py: callbacks per event
    name, kept free of duplicates, and a history of the last 100 events
    published. Callbacks are opaque handles; calling one is recorded as a
    `Delivery`, and what the callback does is not part of this model. */
module Events {
  import opened Common

  const MaxHistory := 100

  /** An event; `timestamp` is the time of publishing, given by the caller. */
  datatype Event = Event(name: string, data: Value, timestamp: int)

  /** One call of a subscriber with the published event. */
  datatype Delivery = Delivery(callback: nat, event: Event)

  /** The calls `publish` makes: every subscriber of the event's name, in
      subscription order. A callback that raises is reported and the loop
      goes on, so every subscriber is called. */
  function Deliveries(subscribers: map<string, seq<nat>>, e: Event): (r: seq<Delivery>)
    ensures e.name !in subscribers ==> r == []
    ensures e.name in subscribers ==>
              |r| == |subscribers[e.name]| && forall i :: 0 <= i < |r| ==> r[i] == Delivery(subscribers[e.name][i], e)
  {
    if e.name in subscribers then
      seq(|subscribers[e.name]|, i requires 0 <= i < |subscribers[e.name]| => Delivery(subscribers[e.name][i], e))
    else []
  }

  // ---------------------------------------------------------------- history queries

  /** `[e for e in history if e.name == event_name]`. */
  function Named(history: seq<Event>, name: string): (r: seq<Event>)
    ensures |r| <= |history|
    ensures forall e :: e in r <==> e in history && e.name == name
  {
    if history == [] then []
    else (if history[0].name == name then [history[0]] else []) + Named(history[1..], name)
  }

  /** Filtering keeps chronological order: events of an earlier stretch of
      the history come before those of a later one. */
  lemma {:induction false} NamedAppend(a: seq<Event>, b: seq<Event>, name: string)
    ensures Named(a + b, name) == Named(a, name) + Named(b, name)
  {
    if a == [] {
      assert a + b == b;
    } else {
      assert (a + b)[1..] == a[1..] + b;
      NamedAppend(a[1..], b, name);
    }
  }

  /** Python's `h[start:]` for any integer `start`: a negative start counts
      from the end, and both are clamped to the list. */
  function From<T>(h: seq<T>, start: int): (r: seq<T>)
    ensures start >= 0 ==> r == h[if start <= |h| then start else |h|..]
    ensures start < 0 ==> r == h[if |h| + start >= 0 then |h| + start else 0..]
  {
    if start >= 0 then h[if start <= |h| then start else |h|..]
    else h[if |h| + start >= 0 then |h| + start else 0..]
  }

  /** `get_history`: filtered by name when a non-empty name is given, then
      `history[-limit:]` when the limit is given and not zero. */
  function History(history: seq<Event>, name: Option<string>, limit: Option<int>): (r: seq<Event>)
    ensures forall e :: e in r ==> e in history
    ensures NonEmpty(name) ==> forall e :: e in r ==> e.name == name.value
  {
    var filtered := if NonEmpty(name) then Named(history, name.value) else history;
    if limit.Some? && limit.value != 0 then From(filtered, -limit.value) else filtered
  }

  /** With a positive limit, `get_history` gives the last `limit` events of
      the selection (all of them when there are fewer), in the order they
      were published. */
  lemma {:induction false} HistoryIsRecentSuffix(history: seq<Event>, name: Option<string>, limit: int)
    requires limit > 0
    ensures var selected := if NonEmpty(name) then Named(history, name.value) else history;
            var r := History(history, name, Some(limit));
            |r| == (if limit <= |selected| then limit else |selected|) &&
            r == selected[|selected| - |r|..]
  {
  }

  /** The event just published is the most recent one `get_history` reports
      for its name, whatever positive limit is asked for. */
  lemma {:induction false} PublishedIsLatest(history: seq<Event>, e: Event, limit: int)
    requires limit > 0 && e.name != ""
    ensures var r := History(CappedAppend(history, e, MaxHistory), Some(e.name), Some(limit));
            r != [] && r[|r| - 1] == e
  {
    NamedEndsWith(history, e);
    LatestOfName(CappedAppend(history, e, MaxHistory), e, limit);
  }

  lemma {:induction false} LatestOfName(h: seq<Event>, e: Event, limit: int)
    requires limit > 0 && e.name != ""
    requires Named(h, e.name) != [] && Named(h, e.name)[|Named(h, e.name)| - 1] == e
    ensures var r := History(h, Some(e.name), Some(limit)); r != [] && r[|r| - 1] == e
  {
    HistoryByName(h, e.name, limit);
    SuffixKeepsLast(Named(h, e.name), limit);
  }

  lemma {:induction false} HistoryByName(history: seq<Event>, name: string, limit: int)
    requires limit > 0 && name != ""
    ensures History(history, Some(name), Some(limit)) == From(Named(history, name), -limit)
  {
  }

  lemma {:induction false} NamedEndsWith(history: seq<Event>, e: Event)
    ensures var named := Named(CappedAppend(history, e, MaxHistory), e.name);
            named != [] && named[|named| - 1] == e
  {
    var kept := if |history| + 1 > MaxHistory then history[1..] else history;
    assert CappedAppend(history, e, MaxHistory) == kept + [e] by {
      if |history| + 1 > MaxHistory {
        assert (history + [e])[1..] == history[1..] + [e];
      }
    }
    NamedAppend(kept, [e], e.name);
    assert Named([e], e.name) == [e] by {
      assert [e][1..] == [];
    }
  }

  lemma {:induction false} SuffixKeepsLast(s: seq<Event>, limit: int)
    requires limit > 0 && s != []
    ensures From(s, -limit) != [] && From(s, -limit)[|From(s, -limit)| - 1] == s[|s| - 1]
  {
  }

  /** A negative limit drops that many events from the front instead. */
  lemma {:induction false} NegativeLimitDropsOldest(history: seq<Event>, k: int)
    requires 0 < k <= |history|
    ensures History(history, None, Some(-k)) == history[k..]
  {
  }

  // ---------------------------------------------------------------- the bus

  class EventBus {
    var subscribers: map<string, seq<nat>>
    var history: seq<Event>

    ghost predicate Valid()
      reads this
    {
      |history| <= MaxHistory && forall n :: n in subscribers ==> Distinct(subscribers[n])
    }

    constructor ()
      ensures Valid() && subscribers == map[] && history == []
    {
      subscribers, history := map[], [];
    }

    /** `subscribe`: the event gets a list when it has none, and the callback
        is appended unless it is already there. */
    method Subscribe(name: string, callback: nat)
      requires Valid()
      modifies this
      ensures Valid() && history == old(history)
      ensures subscribers == old(subscribers)[name := AppendNew(if name in old(subscribers) then old(subscribers)[name] else [], callback)]
    {
      var current := if name in subscribers then subscribers[name] else [];
      subscribers := subscribers[name := AppendNew(current, callback)];
    }

    /** `unsubscribe`: removes the callback when it is subscribed, and does
        nothing otherwise. */
    method Unsubscribe(name: string, callback: nat)
      requires Valid()
      modifies this
      ensures Valid() && history == old(history)
      ensures name in old(subscribers) && callback in old(subscribers)[name] ==>
                subscribers == old(subscribers)[name := RemoveFirst(old(subscribers)[name], callback)] &&
                callback !in subscribers[name]
      ensures !(name in old(subscribers) && callback in old(subscribers)[name]) ==> subscribers == old(subscribers)
    {
      if name in subscribers && callback in subscribers[name] {
        RemoveFirstOfDistinct(subscribers[name], callback);
        subscribers := subscribers[name := RemoveFirst(subscribers[name], callback)];
      }
    }

    /** `publish`: records the event, then calls its subscribers. */
    method Publish(name: string, data: Value, now: int) returns (calls: seq<Delivery>)
      requires Valid()
      modifies this
      ensures Valid() && subscribers == old(subscribers)
      ensures history == CappedAppend(old(history), Event(name, data, now), MaxHistory)
      ensures calls == Deliveries(subscribers, Event(name, data, now))
    {
      var e := Event(name, data, now);
      history := CappedAppend(history, e, MaxHistory);
      calls := Deliveries(subscribers, e);
    }

    /** `clear_subscribers`: a non-empty name gets an empty list (added when
        it had none); no name, or the empty one, clears every list. */
    method ClearSubscribers(name: Option<string>)
      requires Valid()
      modifies this
      ensures Valid() && history == old(history)
      ensures NonEmpty(name) ==> subscribers == old(subscribers)[name.value := []]
      ensures !NonEmpty(name) ==> subscribers == map[]
    {
      if NonEmpty(name) {
        subscribers := subscribers[name.value := []];
      } else {
        subscribers := map[];
      }
    }

    /** `get_history`. */
    function GetHistory(name: Option<string>, limit: Option<int>): (r: seq<Event>)
      reads this
      ensures forall e :: e in r ==> e in history
      ensures NonEmpty(name) ==> forall e :: e in r ==> e.name == name.value
    {
      History(history, name, limit)
    }
  }
}
