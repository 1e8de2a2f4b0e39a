/** The account manager of account_manager.py, the older variant at the
    repository root: it keeps loaded accounts as they are, creates accounts
    without a browser field, and otherwise shares the list operations of
    `AccountStore`. */
module LegacyAccounts {
  import opened Common
  import opened Text
  import opened AccountStore

  /** `create_account`: a new account that is not logged in, has no email or
      name yet, and carries the proxy choice it was given. */
  function CreateAccount(id: string, accountType: string, useProxy: bool, proxyMode: Option<string>,
                         proxyId: Option<string>, profilePath: string): (r: Account)
    ensures HasId(r, id) && Get(r, "status") == Str("not_logged_in") && "browser" !in r
    ensures !Truthy(Get(r, "email")) && !Truthy(Get(r, "name"))
    ensures Get(r, "email") == Null && Get(r, "name") == Null
    ensures Get(r, "type") == Str(accountType) && Get(r, "profile_path") == Str(profilePath)
    ensures Get(r, "use_proxy") == Bool(useProxy)
    ensures r.Keys == {"id", "type", "email", "name", "status", "created_at", "last_opened", "profile_path",
                       "use_proxy", "proxy_mode", "proxy_id", "notes"}
    ensures Get(r, "created_at") == Null && Get(r, "last_opened") == Null && Get(r, "notes") == Str("")
    ensures Get(r, "proxy_mode") == OptStr(proxyMode) && Get(r, "proxy_id") == OptStr(proxyId)
  {
    map["id" := Str(id), "type" := Str(accountType), "email" := Null, "name" := Null,
        "status" := Str("not_logged_in"), "created_at" := Null, "last_opened" := Null,
        "profile_path" := Str(profilePath), "use_proxy" := Bool(useProxy),
        "proxy_mode" := OptStr(proxyMode), "proxy_id" := OptStr(proxyId), "notes" := Str("")]
  }

  /** A just-created account is found by no search, and counts as not
      logged in. */
  lemma {:induction false} CreatedAccountUnseen(id: string, accountType: string, useProxy: bool, proxyMode: Option<string>,
                             proxyId: Option<string>, profilePath: string, query: string)
    ensures var a := CreateAccount(id, accountType, useProxy, proxyMode, proxyId, profilePath);
      Matches(a, query) == Answer(false) &&
      AccountStats([a]) == Answer(Stats(1, if accountType == "google" then 1 else 0,
                                        if accountType == "outlook" then 1 else 0, 0, 1))
  {
    var a := CreateAccount(id, accountType, useProxy, proxyMode, proxyId, profilePath);
    assert "type" in a && a["type"] == Str(accountType) && "status" in a && a["status"] == Str("not_logged_in");
    StatsOfOne(a);
    NoTextNeverMatches(a, query);
  }

  class AccountManager {
    var accounts: seq<Account>

    /** `__init__` over the accounts read from the file, kept as read (an
        unreadable file gives the empty list). */
    constructor(loaded: seq<Account>)
      ensures accounts == loaded
    {
      accounts := loaded;
    }

    /** `add_account`: stamps `created_at` with the current time and
        appends. */
    method AddAccount(account: Account, now: string) returns (ok: bool)
      modifies this
      ensures ok && accounts == old(accounts) + [account["created_at" := Str(now)]]
    {
      accounts := accounts + [account["created_at" := Str(now)]];
      ok := true;
    }

    /** `update_account`. */
    method UpdateAccount(id: string, kwargs: Kwargs) returns (ok: bool)
      modifies this
      ensures ok <==> Locate(old(accounts), id).Found?
      ensures ok ==> accounts == old(accounts)[Locate(old(accounts), id).index :=
                                   Overwrite(old(accounts)[Locate(old(accounts), id).index], kwargs)]
      ensures !ok ==> accounts == old(accounts)
    {
      ok, accounts := AccountStore.UpdateAccount(accounts, id, kwargs);
    }

    /** `remove_account`. */
    method RemoveAccount(id: string, deleteProfile: bool) returns (ok: bool)
      modifies this
      ensures ok <==> Removable(old(accounts), id, deleteProfile)
      ensures ok ==> accounts == RemoveAt(old(accounts), Locate(old(accounts), id).index)
      ensures !ok ==> accounts == old(accounts)
    {
      ok, accounts := AccountStore.RemoveAccount(accounts, id, deleteProfile);
    }

    /** `remove_accounts`. */
    method RemoveAccounts(ids: seq<string>, deleteProfiles: bool) returns (count: nat)
      modifies this
      ensures (accounts, count) == RemoveEach(old(accounts), ids, deleteProfiles)
      ensures |accounts| == |old(accounts)| - count && count <= |ids|
    {
      count, accounts := AccountStore.RemoveAccounts(accounts, ids, deleteProfiles);
    }

    /** `get_account`: the first account with the id, None, or the
        `KeyError` of an account without an id met first. */
    method GetAccount(id: string) returns (r: Query<Option<Account>>)
      ensures r.Answer? && r.value.Some? <==> Locate(accounts, id).Found?
      ensures r.Answer? && r.value.Some? ==> r.value.value == accounts[Locate(accounts, id).index]
      ensures r.Raised? <==> Locate(accounts, id).KeyMissing?
    {
      var found := FindAccount(accounts, id);
      match found
      case Found(i) => r := Answer(Some(accounts[i]));
      case KeyMissing(_) => r := Raised;
      case NotFound => r := Answer(None);
    }

    /** `search_accounts`. */
    method SearchAccounts(query: string) returns (r: Query<seq<Account>>)
      ensures r == Searched(accounts, Lower(query))
    {
      r := AccountStore.SearchAccounts(accounts, query);
    }

    /** `filter_accounts`. */
    function FilterAccounts(accountType: Option<string>, status: Option<string>): (r: Query<seq<Account>>)
      reads this
      ensures r == AccountStore.FilterAccounts(accounts, accountType, status)
      ensures r.Answer? ==> forall a :: a in r.value <==>
                a in accounts &&
                (NonEmpty(accountType) ==> Get(a, "type") == Str(accountType.value)) &&
                (NonEmpty(status) ==> Get(a, "status") == Str(status.value))
    {
      var r := AccountStore.FilterAccounts(accounts, accountType, status);
      if r.Answer? then FilterAccountsSpec(accounts, accountType, status); r else r
    }

    /** `get_account_stats`. */
    function GetAccountStats(): (r: Query<Stats>)
      reads this
      ensures r == AccountStats(accounts)
      ensures r.Answer? ==> r.value.notLoggedIn == |accounts| - r.value.loggedIn &&
                            r.value.google + r.value.outlook <= r.value.total
    {
      if AccountStats(accounts).Answer? then TypesPartition(accounts); AccountStats(accounts) else
      AccountStats(accounts)
    }
  }
}
