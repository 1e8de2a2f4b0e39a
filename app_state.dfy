/** The application state store of src/utils/state_manager.py: a record of
    sixteen fields, observers per field, and an undo history of at most 50
    snapshots. A snapshot is a deep copy, so it is modelled as a value. */
module AppState {
  import opened Common

  /** The fields of the `AppState` dataclass, by name. */
  type State = map<string, Value>

  const MaxHistory := 50

  /** The field names `hasattr` accepts. */
  const FieldNames: set<string> := {
    "accounts", "selected_accounts", "account_stats", "proxies", "selected_proxies", "proxy_stats",
    "active_browsers", "groups", "active_group", "active_tab", "search_query", "sort_field",
    "sort_order", "is_checking_proxies", "is_loading", "error_message"}

  /** `AppState()`: every field at its default. */
  function DefaultState(): (s: State)
    ensures s.Keys == FieldNames
    ensures s["active_tab"] == Str("Accounts") && s["sort_order"] == Str("asc") && s["search_query"] == Str("")
  {
    map["accounts" := List([]), "selected_accounts" := List([]), "account_stats" := Dict(map[]),
        "proxies" := List([]), "selected_proxies" := List([]), "proxy_stats" := Dict(map[]),
        "active_browsers" := Dict(map[]), "groups" := List([]), "active_group" := Null,
        "active_tab" := Str("Accounts"), "search_query" := Str(""), "sort_field" := Null,
        "sort_order" := Str("asc"), "is_checking_proxies" := Bool(false), "is_loading" := Bool(false),
        "error_message" := Null]
  }

  /** `setattr` guarded by `hasattr`: a known field takes the value, an
      unknown name changes nothing. */
  function SetField(s: State, name: string, value: Value): (r: State)
    ensures r.Keys == s.Keys + (if name in FieldNames then {name} else {})
    ensures name in FieldNames ==> r[name] == value
    ensures forall k :: k in s && k != name ==> r[k] == s[k]
    ensures name !in FieldNames ==> r == s
  {
    if name in FieldNames then s[name := value] else s
  }

  /** The field names an update batch mentions. */
  function UpdatedNames(updates: seq<(string, Value)>): (r: set<string>)
    ensures forall j :: 0 <= j < |updates| ==> updates[j].0 in r
    ensures forall n :: n in r ==> exists j :: 0 <= j < |updates| && updates[j].0 == n
  {
    if updates == [] then {} else {updates[0].0} + UpdatedNames(updates[1..])
  }

  /** No later update of the batch names the field of update `j`. */
  predicate LastOf(updates: seq<(string, Value)>, j: int)
    requires 0 <= j < |updates|
  {
    forall k :: j < k < |updates| ==> updates[k].0 != updates[j].0
  }

  /** Every known field that the batch updates holds the value of its last
      update. */
  predicate LastUpdatesHeld(r: State, updates: seq<(string, Value)>)
  {
    forall j :: 0 <= j < |updates| && updates[j].0 in FieldNames && LastOf(updates, j) ==>
      updates[j].0 in r && r[updates[j].0] == updates[j].1
  }

  /** The updates of `update_multiple`, applied in order: fields the batch
      does not mention keep their values, the last update of a known field
      wins, and no field is added. */
  function SetFields(s: State, updates: seq<(string, Value)>): (r: State)
    ensures s.Keys <= FieldNames ==> r.Keys <= FieldNames
    ensures FieldNames <= s.Keys ==> FieldNames <= r.Keys
    ensures forall k :: k in s && k !in UpdatedNames(updates) ==> k in r && r[k] == s[k]
    ensures LastUpdatesHeld(r, updates)
    decreases |updates|
  {
    if updates == [] then s
    else
      var t := SetField(s, updates[0].0, updates[0].1);
      var r := SetFields(t, updates[1..]);
      LastUpdateWins(updates, t, r);
      r
  }

  /** One more update in front of a batch: it still holds at the end unless
      a later update names the same field. */
  lemma {:induction false} LastUpdateWins(updates: seq<(string, Value)>, t: State, r: State)
    requires updates != []
    requires updates[0].0 in FieldNames ==> updates[0].0 in t && t[updates[0].0] == updates[0].1
    requires forall k :: k in t && k !in UpdatedNames(updates[1..]) ==> k in r && r[k] == t[k]
    requires LastUpdatesHeld(r, updates[1..])
    ensures LastUpdatesHeld(r, updates)
  {
    var tail := updates[1..];
    forall j | 0 <= j < |updates| && updates[j].0 in FieldNames && LastOf(updates, j)
      ensures updates[j].0 in r && r[updates[j].0] == updates[j].1
    {
      if j == 0 {
        forall i | 0 <= i < |tail| ensures tail[i].0 != updates[0].0 {
          assert tail[i] == updates[i + 1];
        }
      } else {
        assert tail[j - 1] == updates[j];
        assert LastOf(tail, j - 1) by {
          forall k | j - 1 < k < |tail| ensures tail[k].0 != tail[j - 1].0 {
            assert tail[k] == updates[k + 1];
          }
        }
      }
    }
  }

  /** A notified callback and the value it received. Callbacks are opaque
      handles; what they do is not part of this model. */
  datatype Call = Call(callback: nat, value: Value)

  /** `_notify_observers`: every callback of the field, in subscription
      order, with the value; a callback that raises does not stop the rest. */
  function Notified(observers: map<string, seq<nat>>, name: string, value: Value): (r: seq<Call>)
    ensures name !in observers ==> r == []
    ensures name in observers ==>
              |r| == |observers[name]| && forall i :: 0 <= i < |r| ==> r[i] == Call(observers[name][i], value)
  {
    if name in observers then seq(|observers[name]|, i requires 0 <= i < |observers[name]| => Call(observers[name][i], value))
    else []
  }

  /** The notifications of `update_multiple`: field by field, in order. */
  function NotifiedAll(observers: map<string, seq<nat>>, updates: seq<(string, Value)>): (r: seq<Call>)
    ensures updates == [] ==> r == []
  {
    if updates == [] then []
    else Notified(observers, updates[0].0, updates[0].1) + NotifiedAll(observers, updates[1..])
  }

  class StateManager {
    var state: State
    var observers: map<string, seq<nat>>
    var history: seq<State>

    ghost predicate Valid()
      reads this
    {
      state.Keys == FieldNames && |history| <= MaxHistory &&
      forall h :: h in history ==> h.Keys == FieldNames
    }

    constructor()
      ensures Valid() && state == DefaultState() && observers == map[] && history == []
    {
      state, observers, history := DefaultState(), map[], [];
    }

    /** `get_field`: the field's value, or None for an unknown name. */
    function GetField(name: string): (r: Value)
      reads this
      ensures name in state ==> r == state[name]
      ensures name !in state ==> r == Null
    {
      if name in state then state[name] else Null
    }

    /** `update_state`: records a snapshot even when the name is unknown,
        sets the field, and notifies the field's observers. */
    method UpdateState(name: string, value: Value) returns (calls: seq<Call>)
      requires Valid()
      modifies this
      ensures Valid()
      ensures history == CappedAppend(old(history), old(state), MaxHistory)
      ensures state == SetField(old(state), name, value)
      ensures observers == old(observers)
      ensures calls == Notified(observers, name, value)
    {
      history := CappedAppend(history, state, MaxHistory);
      state := SetField(state, name, value);
      calls := Notified(observers, name, value);
    }

    /** `update_multiple`: one snapshot for the whole batch, then every
        field, then every notification. */
    method UpdateMultiple(updates: seq<(string, Value)>) returns (calls: seq<Call>)
      requires Valid()
      modifies this
      ensures Valid()
      ensures history == CappedAppend(old(history), old(state), MaxHistory)
      ensures state == SetFields(old(state), updates)
      ensures observers == old(observers)
      ensures calls == NotifiedAll(observers, updates)
    {
      history := CappedAppend(history, state, MaxHistory);
      state := SetFields(state, updates);
      calls := NotifiedAll(observers, updates);
    }

    /** `subscribe`: adds the callback to the field's list unless it is
        already there. */
    method Subscribe(name: string, callback: nat)
      modifies this
      ensures state == old(state) && history == old(history)
      ensures observers == old(observers)[name := AppendNew(if name in old(observers) then old(observers)[name] else [], callback)]
    {
      var current := if name in observers then observers[name] else [];
      observers := observers[name := AppendNew(current, callback)];
    }

    /** `unsubscribe`: removes the callback's entry when it is there. */
    method Unsubscribe(name: string, callback: nat)
      modifies this
      ensures state == old(state) && history == old(history)
      ensures name in old(observers) && callback in old(observers)[name] ==>
                observers == old(observers)[name := RemoveFirst(old(observers)[name], callback)]
      ensures !(name in old(observers) && callback in old(observers)[name]) ==> observers == old(observers)
    {
      if name in observers && callback in observers[name] {
        observers := observers[name := RemoveFirst(observers[name], callback)];
      }
    }

    /** `reset_state`. */
    method ResetState()
      modifies this
      ensures Valid() && state == DefaultState() && history == [] && observers == old(observers)
    {
      state, history := DefaultState(), [];
    }

    /** `undo`: restores the latest snapshot, or reports that there is none. */
    method Undo() returns (ok: bool)
      requires Valid()
      modifies this
      ensures ok <==> old(history) != []
      ensures ok ==> state == old(history)[|old(history)| - 1] && history == old(history)[..|old(history)| - 1]
      ensures !ok ==> state == old(state) && history == old(history)
      ensures observers == old(observers)
      ensures Valid()
    {
      if history == [] { return false; }
      state := history[|history| - 1];
      history := history[..|history| - 1];
      ok := true;
    }

    function GetHistorySize(): (n: nat)
      reads this
      ensures n == |history|
    {
      |history|
    }
  }

  /** An update followed by `undo` gives back the state from before the
      update. */
  method UpdateThenUndo(m: StateManager, name: string, value: Value) returns (ok: bool)
    requires m.Valid()
    modifies m
    ensures ok && m.state == old(m.state)
  {
    var _ := m.UpdateState(name, value);
    ok := m.Undo();
    assert m.state == CappedAppend(old(m.history), old(m.state), MaxHistory)[|CappedAppend(old(m.history), old(m.state), MaxHistory)| - 1];
  }

  /** A full history drops exactly its oldest snapshot. */
  lemma {:induction false} RecordedDropsOldest(history: seq<State>, snapshot: State)
    requires |history| == MaxHistory
    ensures CappedAppend(history, snapshot, MaxHistory) == history[1..] + [snapshot]
  {
    assert (history + [snapshot])[1..] == history[1..] + [snapshot];
  }

  /** A subscription that exists is not added twice, and unsubscribing an
      absent callback changes nothing. */
  lemma {:induction false} SubscribeIdempotent(current: seq<nat>, callback: nat)
    ensures AppendNew(AppendNew(current, callback), callback) == AppendNew(current, callback)
    ensures Distinct(current) ==> Distinct(AppendNew(current, callback))
  {
    assert callback in AppendNew(current, callback);
  }
}
