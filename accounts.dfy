/** What the two account managers (src/core/account_manager.py and
    account_manager.py) do alike to their list of account dicts: locate by
    id, overwrite existing keys, remove, search, filter and count. An
    account is a dict from field names to JSON values; a lookup of a field
    that is not there raises, as `account['id']` does. */
module AccountStore {
  import opened Common
  import opened Text

  type Account = map<string, Value>

  /** A query's outcome: its answer, or the exception one of its lookups
      raised (`KeyError`, or `AttributeError` from `.lower()` on a value
      that is not a string). */
  datatype Query<T> = Answer(value: T) | Raised

  predicate HasId(a: Account, id: string)
  {
    "id" in a && a["id"] == Str(id)
  }

  /** `account.get(key)`: the value, or None. */
  function Get(a: Account, key: string): Value
  {
    if key in a then a[key] else Null
  }

  /** A `str` argument that may be None. */
  function OptStr(o: Option<string>): (r: Value)
    ensures o.None? <==> r == Null
  {
    if o.Some? then Str(o.value) else Null
  }

  // ---------------------------------------------------------------- locating

  /** What the scan `for account in accounts: if account['id'] == account_id`
      meets first: the match, or an account without an `id` (a `KeyError`),
      or the end of the list. */
  datatype Lookup = Found(index: nat) | KeyMissing(index: nat) | NotFound

  function Locate(accounts: seq<Account>, id: string): (r: Lookup)
    ensures r.Found? ==> r.index < |accounts| && HasId(accounts[r.index], id)
    ensures r.KeyMissing? ==> r.index < |accounts| && "id" !in accounts[r.index]
    ensures forall j :: 0 <= j < |accounts| && (r.NotFound? || j < r.index) ==>
              "id" in accounts[j] && !HasId(accounts[j], id)
  {
    if accounts == [] then NotFound
    else if "id" !in accounts[0] then KeyMissing(0)
    else if HasId(accounts[0], id) then Found(0)
    else match Locate(accounts[1..], id)
      case Found(i) => Found(i + 1)
      case KeyMissing(i) => KeyMissing(i + 1)
      case NotFound => NotFound
  }

  /** The scanning loop shared by `update_account`, `remove_account` and
      `get_account`. */
  method FindAccount(accounts: seq<Account>, id: string) returns (r: Lookup)
    ensures r == Locate(accounts, id)
  {
    var i := 0;
    while i < |accounts|
      invariant 0 <= i <= |accounts|
      invariant forall j :: 0 <= j < i ==> "id" in accounts[j] && !HasId(accounts[j], id)
    {
      if "id" !in accounts[i] { return KeyMissing(i); }
      if accounts[i]["id"] == Str(id) { return Found(i); }
      i := i + 1;
    }
    return NotFound;
  }

  // ---------------------------------------------------------------- updating

  /** The keyword arguments of `update_account`, in order. */
  type Kwargs = seq<(string, Value)>

  /** `for key, value in kwargs.items(): if key in account: account[key] = value`. */
  function Overwrite(a: Account, kwargs: Kwargs): Account
  {
    if kwargs == [] then a
    else
      var (key, value) := kwargs[0];
      Overwrite(if key in a then a[key := value] else a, kwargs[1..])
  }

  /** The value the last argument named `key` gives, or `current`. */
  function LastValue(kwargs: Kwargs, key: string, current: Value): Value
  {
    if kwargs == [] then current
    else LastValue(kwargs[1..], key, if kwargs[0].0 == key then kwargs[0].1 else current)
  }

  /** Overwriting adds no key and sets each existing key to the last value
      given for it. */
  lemma {:induction false} OverwriteSpec(a: Account, kwargs: Kwargs)
    ensures Overwrite(a, kwargs).Keys == a.Keys
    ensures forall k :: k in a ==> Overwrite(a, kwargs)[k] == LastValue(kwargs, k, a[k])
  {
    if kwargs != [] {
      var (key, value) := kwargs[0];
      var b := if key in a then a[key := value] else a;
      OverwriteSpec(b, kwargs[1..]);
      forall k | k in a ensures b[k] == if key == k then value else a[k] { }
    }
  }

  /** The inner loop of `update_account` on one account. */
  method ApplyKwargs(a: Account, kwargs: Kwargs) returns (r: Account)
    ensures r == Overwrite(a, kwargs)
  {
    r := a;
    var i := 0;
    while i < |kwargs|
      invariant 0 <= i <= |kwargs|
      invariant Overwrite(r, kwargs[i..]) == Overwrite(a, kwargs)
    {
      assert kwargs[i..][1..] == kwargs[i + 1..];
      var (key, value) := kwargs[i];
      if key in r { r := r[key := value]; }
      i := i + 1;
    }
  }

  /** `update_account` on the list: the first account with the id gets the
      arguments for its existing keys; a missing id, or an account without
      an `id` key met first, leaves the list as it was and gives False. */
  method UpdateAccount(accounts: seq<Account>, id: string, kwargs: Kwargs) returns (ok: bool, r: seq<Account>)
    ensures ok <==> Locate(accounts, id).Found?
    ensures ok ==> r == accounts[Locate(accounts, id).index := Overwrite(accounts[Locate(accounts, id).index], kwargs)]
    ensures !ok ==> r == accounts
  {
    var found := FindAccount(accounts, id);
    if found.Found? {
      var updated := ApplyKwargs(accounts[found.index], kwargs);
      return true, accounts[found.index := updated];
    }
    return false, accounts;
  }

  /** The account `update_account` changed keeps its keys and its id unless
      `id` itself was among the arguments. */
  lemma {:induction false} UpdateKeepsShape(accounts: seq<Account>, id: string, kwargs: Kwargs)
    requires Locate(accounts, id).Found?
    ensures var i := Locate(accounts, id).index;
      Overwrite(accounts[i], kwargs).Keys == accounts[i].Keys &&
      ((forall j :: 0 <= j < |kwargs| ==> kwargs[j].0 != "id") ==> HasId(Overwrite(accounts[i], kwargs), id))
  {
    var i := Locate(accounts, id).index;
    OverwriteSpec(accounts[i], kwargs);
    if forall j :: 0 <= j < |kwargs| ==> kwargs[j].0 != "id" {
      LastValueUntouched(kwargs, "id", accounts[i]["id"]);
    }
  }

  lemma {:induction false} LastValueUntouched(kwargs: Kwargs, key: string, current: Value)
    requires forall j :: 0 <= j < |kwargs| ==> kwargs[j].0 != key
    ensures LastValue(kwargs, key, current) == current
  {
    if kwargs != [] {
      assert kwargs[0].0 != key;
      LastValueUntouched(kwargs[1..], key, current);
    }
  }

  // ---------------------------------------------------------------- removing

  /** Whether `os.path.exists` accepts the value without raising: `None`, a
      list and a dict raise `TypeError`, while a string is a path and an
      integer or a boolean is taken as a file descriptor. */
  predicate PathArgument(v: Value)
  {
    !(v.Null? || v.List? || v.Dict?)
  }

  /** The `delete_profile` test of `remove_account` runs without raising:
      the account has a `profile_path` (a missing one raises `KeyError`)
      that `os.path.exists` accepts. */
  predicate Deletable(a: Account)
  {
    "profile_path" in a && PathArgument(a["profile_path"])
  }

  /** Whether `remove_account` pops an account: the first account with the
      id is found, and, when its profile is to be deleted, the existence
      test of its `profile_path` does not raise (any exception is caught
      and answers False). */
  predicate Removable(accounts: seq<Account>, id: string, deleteProfile: bool)
  {
    Locate(accounts, id).Found? && (deleteProfile ==> Deletable(accounts[Locate(accounts, id).index]))
  }

  /** `remove_account` on the list: the first account with the id is popped. */
  method RemoveAccount(accounts: seq<Account>, id: string, deleteProfile: bool) returns (ok: bool, r: seq<Account>)
    ensures ok <==> Locate(accounts, id).Found? &&
                    (deleteProfile ==> "profile_path" in accounts[Locate(accounts, id).index] &&
                                       PathArgument(accounts[Locate(accounts, id).index]["profile_path"]))
    ensures ok ==> r == RemoveAt(accounts, Locate(accounts, id).index) && |r| == |accounts| - 1
    ensures !ok ==> r == accounts
  {
    var found := FindAccount(accounts, id);
    if found.Found? {
      if deleteProfile {
        var account := accounts[found.index];
        if "profile_path" !in account {
          return false, accounts;
        }
        var path := account["profile_path"];
        if path.Null? || path.List? || path.Dict? {
          return false, accounts;
        }
      }
      return true, RemoveAt(accounts, found.index);
    }
    return false, accounts;
  }

  /** `remove_accounts`: each id in turn, counting the removals that happened. */
  function RemoveEach(accounts: seq<Account>, ids: seq<string>, deleteProfiles: bool): (r: (seq<Account>, nat))
    ensures r.1 <= |ids| && |r.0| == |accounts| - r.1
  {
    if ids == [] then (accounts, 0)
    else if Removable(accounts, ids[0], deleteProfiles) then
      var rest := RemoveEach(RemoveAt(accounts, Locate(accounts, ids[0]).index), ids[1..], deleteProfiles);
      (rest.0, rest.1 + 1)
    else RemoveEach(accounts, ids[1..], deleteProfiles)
  }

  /** The loop of `remove_accounts`. */
  method RemoveAccounts(accounts: seq<Account>, ids: seq<string>, deleteProfiles: bool) returns (count: nat, r: seq<Account>)
    ensures (r, count) == RemoveEach(accounts, ids, deleteProfiles)
    ensures |r| == |accounts| - count && count <= |ids|
  {
    count, r := 0, accounts;
    var i := 0;
    while i < |ids|
      invariant 0 <= i <= |ids|
      invariant RemoveEach(r, ids[i..], deleteProfiles).0 == RemoveEach(accounts, ids, deleteProfiles).0
      invariant count + RemoveEach(r, ids[i..], deleteProfiles).1 == RemoveEach(accounts, ids, deleteProfiles).1
    {
      assert ids[i..][1..] == ids[i + 1..];
      var removed;
      removed, r := RemoveAccount(r, ids[i], deleteProfiles);
      if removed { count := count + 1; }
      i := i + 1;
    }
  }

  /** An account loaded with `"profile_path": null` is never removed while
      profiles are deleted: `os.path.exists(None)` raises, the error is
      caught, and `remove_accounts` counts nothing. */
  lemma {:induction false} NullProfilePathKept(a: Account, id: string)
    requires HasId(a, id) && "profile_path" in a && a["profile_path"] == Null
    ensures !Removable([a], id, true)
    ensures RemoveEach([a], [id], true) == ([a], 0)
  {
    assert Locate([a], id) == Found(0);
  }

  /** Every account carries an `id`, and no two carry the same one. */
  predicate UniqueIds(accounts: seq<Account>)
  {
    (forall i :: 0 <= i < |accounts| ==> "id" in accounts[i]) &&
    (forall i, j :: 0 <= i < j < |accounts| ==> accounts[i]["id"] != accounts[j]["id"])
  }

  lemma {:induction false} UniqueIdsRemoveAt(accounts: seq<Account>, i: nat)
    requires UniqueIds(accounts) && i < |accounts|
    ensures UniqueIds(RemoveAt(accounts, i))
    ensures forall a :: a in RemoveAt(accounts, i) ==> a in accounts && a["id"] != accounts[i]["id"]
  {
    var r := RemoveAt(accounts, i);
    forall a | a in r ensures a in accounts && a["id"] != accounts[i]["id"] {
      var j :| 0 <= j < |r| && r[j] == a;
      if j < i { assert r[j] == accounts[j]; } else { assert r[j] == accounts[j + 1]; }
    }
    forall x, y | 0 <= x < y < |r| ensures r[x]["id"] != r[y]["id"] {
      var x' := if x < i then x else x + 1;
      var y' := if y < i then y else y + 1;
      assert r[x] == accounts[x'] && r[y] == accounts[y'];
    }
  }

  /** With unique ids, and a usable `profile_path` on every account when
      profiles are deleted, `remove_accounts` leaves no account whose id was asked
      for; the count is then the number of accounts that went. */
  lemma {:induction false} RemoveEachUnique(accounts: seq<Account>, ids: seq<string>, deleteProfiles: bool)
    requires UniqueIds(accounts)
    requires deleteProfiles ==> forall a :: a in accounts ==> Deletable(a)
    ensures UniqueIds(RemoveEach(accounts, ids, deleteProfiles).0)
    ensures forall a, id :: a in RemoveEach(accounts, ids, deleteProfiles).0 && id in ids ==> !HasId(a, id)
    ensures forall a :: a in RemoveEach(accounts, ids, deleteProfiles).0 ==> a in accounts
  {
    if ids != [] {
      var id := ids[0];
      var tail := ids[1..];
      assert forall x :: x in ids <==> x == id || x in tail by { assert ids == [id] + tail; }
      match Locate(accounts, id)
      case Found(i) =>
        assert accounts[i] in accounts;
        var rest := RemoveAt(accounts, i);
        UniqueIdsRemoveAt(accounts, i);
        RemoveEachUnique(rest, tail, deleteProfiles);
      case KeyMissing(i) =>
        assert false;
      case NotFound =>
        RemoveEachUnique(accounts, tail, deleteProfiles);
    }
  }

  // ---------------------------------------------------------------- searching

  /** `query in value.lower()` for a truthy `value`; a value that is not a
      string has no `lower`. */
  function TextContains(v: Value, query: string): Query<bool>
  {
    if v.Str? then Answer(Contains(Lower(v.s), query)) else Raised
  }

  /** The condition of `search_accounts` for one account, with the query
      already lower-cased: the email is tried first, the name only when the
      email does not match. */
  function Matches(a: Account, query: string): Query<bool>
  {
    var email := Get(a, "email");
    var byEmail := if Truthy(email) then TextContains(email, query) else Answer(false);
    if byEmail.Raised? then Raised
    else if byEmail.value then Answer(true)
    else
      var name := Get(a, "name");
      if Truthy(name) then TextContains(name, query) else Answer(false)
  }

  /** The accounts that match, in order, or the exception the first failing
      test raised. */
  function Searched(accounts: seq<Account>, query: string): (r: Query<seq<Account>>)
    ensures r.Answer? <==> forall i :: 0 <= i < |accounts| ==> Matches(accounts[i], query).Answer?
  {
    if accounts == [] then Answer([])
    else
      var head := Matches(accounts[0], query);
      var rest := Searched(accounts[1..], query);
      assert forall i :: 1 <= i < |accounts| ==> accounts[i] == accounts[1..][i - 1];
      if head.Raised? || rest.Raised? then Raised
      else Answer((if head.value then [accounts[0]] else []) + rest.value)
  }

  /** `results` followed by what the rest of the loop answers. */
  function Prefixed(results: seq<Account>, rest: Query<seq<Account>>): Query<seq<Account>>
  {
    if rest.Raised? then Raised else Answer(results + rest.value)
  }

  lemma {:induction false} PrefixedNothing(r: Query<seq<Account>>)
    ensures Prefixed([], r) == r
  {
    if r.Answer? { assert [] + r.value == r.value; }
  }

  /** The loop of `search_accounts`. */
  method SearchAccounts(accounts: seq<Account>, query: string) returns (r: Query<seq<Account>>)
    ensures r == Searched(accounts, Lower(query))
  {
    var q := Lower(query);
    var results: seq<Account> := [];
    var i := 0;
    assert accounts[0..] == accounts;
    PrefixedNothing(Searched(accounts, q));
    while i < |accounts|
      invariant 0 <= i <= |accounts|
      invariant Searched(accounts, q) == Prefixed(results, Searched(accounts[i..], q))
    {
      assert accounts[i..][1..] == accounts[i + 1..];
      var m := Matches(accounts[i], q);
      var rest := Searched(accounts[i + 1..], q);
      assert Searched(accounts[i..], q) ==
             if m.Raised? || rest.Raised? then Raised
             else Answer((if m.value then [accounts[i]] else []) + rest.value);
      if m.Raised? { return Raised; }
      if rest.Answer? {
        var head := if m.value then [accounts[i]] else [];
        assert results + (head + rest.value) == (results + head) + rest.value;
        assert results + [] == results;
      }
      if m.value { results := results + [accounts[i]]; }
      i := i + 1;
    }
    assert accounts[i..] == [];
    assert results + [] == results;
    return Answer(results);
  }

  /** The accounts that match the query, in list order, each as often as
      it occurs (no test fails). */
  function KeepMatching(accounts: seq<Account>, query: string): seq<Account>
  {
    if accounts == [] then []
    else (if Matches(accounts[0], query) == Answer(true) then [accounts[0]] else []) + KeepMatching(accounts[1..], query)
  }

  /** A search that completes returns exactly the matching accounts, each
      where it stood in the list. */
  lemma {:induction false} SearchedSpec(accounts: seq<Account>, query: string)
    requires Searched(accounts, query).Answer?
    ensures forall a :: a in Searched(accounts, query).value <==> a in accounts && Matches(a, query) == Answer(true)
    ensures Searched(accounts, query).value == KeepMatching(accounts, query)
    ensures |Searched(accounts, query).value| <= |accounts|
  {
    if accounts != [] {
      SearchedSpec(accounts[1..], query);
      assert forall a :: a in accounts <==> a == accounts[0] || a in accounts[1..] by {
        assert accounts == [accounts[0]] + accounts[1..];
      }
    }
  }

  /** An account with neither an email nor a name is never found. */
  lemma {:induction false} NoTextNeverMatches(a: Account, query: string)
    requires !Truthy(Get(a, "email")) && !Truthy(Get(a, "name"))
    ensures Matches(a, query) == Answer(false)
  {
  }

  /** Matching ignores upper case in the stored text. */
  lemma {:induction false} MatchIgnoresCase(email: string, query: string)
    ensures Matches(map["email" := Str(email)], Lower(query)) == Matches(map["email" := Str(Lower(email))], Lower(query))
  {
    assert Lower(Lower(email)) == Lower(email);
  }

  // ---------------------------------------------------------------- filtering

  /** `[a for a in accounts if a[key] == value]`, raising on an account
      without the key. */
  function Where(accounts: seq<Account>, key: string, value: Value): (r: Query<seq<Account>>)
    ensures r.Answer? <==> forall i :: 0 <= i < |accounts| ==> key in accounts[i]
    ensures r.Answer? ==> |r.value| <= |accounts|
  {
    if accounts == [] then Answer([])
    else
      var rest := Where(accounts[1..], key, value);
      assert forall i :: 1 <= i < |accounts| ==> accounts[i] == accounts[1..][i - 1];
      if key !in accounts[0] || rest.Raised? then Raised
      else Answer((if accounts[0][key] == value then [accounts[0]] else []) + rest.value)
  }

  /** A completed filter keeps exactly the accounts with that value, in order. */
  lemma {:induction false} WhereSpec(accounts: seq<Account>, key: string, value: Value)
    requires Where(accounts, key, value).Answer?
    ensures forall a :: a in Where(accounts, key, value).value <==> a in accounts && a[key] == value
    ensures Where(accounts, key, value).value == KeepWhere(accounts, key, value)
  {
    if accounts != [] {
      WhereSpec(accounts[1..], key, value);
      assert forall a :: a in accounts <==> a == accounts[0] || a in accounts[1..] by {
        assert accounts == [accounts[0]] + accounts[1..];
      }
    }
  }

  /** The accounts whose `key` holds `value`, in order (no lookup fails). */
  function KeepWhere(accounts: seq<Account>, key: string, value: Value): seq<Account>
  {
    if accounts == [] then []
    else (if key in accounts[0] && accounts[0][key] == value then [accounts[0]] else []) + KeepWhere(accounts[1..], key, value)
  }

  /** `filter_accounts`: a filter that is None or empty is skipped; the type
      filter runs before the status filter. */
  function FilterAccounts(accounts: seq<Account>, accountType: Option<string>, status: Option<string>): (r: Query<seq<Account>>)
    ensures !NonEmpty(accountType) && !NonEmpty(status) ==> r == Answer(accounts)
  {
    var byType := if NonEmpty(accountType) then Where(accounts, "type", Str(accountType.value)) else Answer(accounts);
    if byType.Raised? then Raised
    else if NonEmpty(status) then Where(byType.value, "status", Str(status.value))
    else byType
  }

  /** A completed filter returns exactly the accounts that pass both given
      filters. */
  lemma {:induction false} FilterAccountsSpec(accounts: seq<Account>, accountType: Option<string>, status: Option<string>)
    requires FilterAccounts(accounts, accountType, status).Answer?
    ensures forall a :: a in FilterAccounts(accounts, accountType, status).value <==>
              a in accounts &&
              (NonEmpty(accountType) ==> Get(a, "type") == Str(accountType.value)) &&
              (NonEmpty(status) ==> Get(a, "status") == Str(status.value))
  {
    if NonEmpty(accountType) { WhereSpec(accounts, "type", Str(accountType.value)); }
    var byType := if NonEmpty(accountType) then Where(accounts, "type", Str(accountType.value)) else Answer(accounts);
    if NonEmpty(status) { WhereSpec(byType.value, "status", Str(status.value)); }
  }

  // ---------------------------------------------------------------- statistics

  /** `len([a for a in accounts if a[key] == value])`, raising on an account
      without the key. */
  function CountWhereKey(accounts: seq<Account>, key: string, value: Value): (r: Query<nat>)
    ensures r.Answer? <==> forall i :: 0 <= i < |accounts| ==> key in accounts[i]
    ensures r.Answer? ==> r.value <= |accounts|
  {
    match Where(accounts, key, value)
    case Raised => Raised
    case Answer(kept) => Answer(|kept|)
  }

  datatype Stats = Stats(total: nat, google: nat, outlook: nat, loggedIn: nat, notLoggedIn: int)

  /** `get_account_stats`. */
  function AccountStats(accounts: seq<Account>): (r: Query<Stats>)
    ensures r.Answer? <==> forall i :: 0 <= i < |accounts| ==> "type" in accounts[i] && "status" in accounts[i]
    ensures r.Answer? ==> r.value.total == |accounts| && r.value.notLoggedIn == r.value.total - r.value.loggedIn
    ensures r.Answer? ==> r.value.google <= r.value.total && r.value.outlook <= r.value.total && 0 <= r.value.notLoggedIn
  {
    var google := CountWhereKey(accounts, "type", Str("google"));
    var outlook := CountWhereKey(accounts, "type", Str("outlook"));
    var loggedIn := CountWhereKey(accounts, "status", Str("logged_in"));
    if google.Raised? || outlook.Raised? || loggedIn.Raised? then Raised
    else Answer(Stats(|accounts|, google.value, outlook.value, loggedIn.value, |accounts| - loggedIn.value))
  }

  /** The statistics of a single account. */
  lemma {:induction false} StatsOfOne(a: Account)
    requires "type" in a && "status" in a
    ensures var loggedIn := if a["status"] == Str("logged_in") then 1 else 0;
            AccountStats([a]) == Answer(Stats(1, if a["type"] == Str("google") then 1 else 0,
                                              if a["type"] == Str("outlook") then 1 else 0, loggedIn, 1 - loggedIn))
  {
    assert [a][1..] == [];
  }

  /** Google and Outlook accounts are counted from the same `type` field, so
      together they never exceed the total. */
  lemma {:induction false} TypesPartition(accounts: seq<Account>)
    requires AccountStats(accounts).Answer?
    ensures AccountStats(accounts).value.google + AccountStats(accounts).value.outlook <= |accounts|
  {
    TypeCountsDisjoint(accounts);
  }

  lemma {:induction false} TypeCountsDisjoint(accounts: seq<Account>)
    requires forall i :: 0 <= i < |accounts| ==> "type" in accounts[i]
    ensures CountWhereKey(accounts, "type", Str("google")).value + CountWhereKey(accounts, "type", Str("outlook")).value <= |accounts|
  {
    if accounts != [] {
      assert forall i :: 1 <= i < |accounts| ==> accounts[i] == accounts[1..][i - 1];
      TypeCountsDisjoint(accounts[1..]);
    }
  }
}
