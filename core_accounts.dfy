/** The account manager of src/core/account_manager.py: the list of
    accounts with the defaults it fills in on load, the profile-folder name
    derived from an email, and the list operations of `AccountStore`. */
module CoreAccounts {
  import opened Common
  import opened Text
  import opened AccountStore

  // ---------------------------------------------------------------- profile folders

  /** The characters `[^a-z0-9_\-]` of `_sanitize_profile_folder`. */
  predicate Disallowed(c: char)
  {
    !('a' <= c <= 'z' || '0' <= c <= '9' || c == '_' || c == '-')
  }

  predicate Allowed(c: char) { !Disallowed(c) }

  predicate IsUnderscore(c: char) { c == '_' }

  /** The two `re.sub` steps: runs of disallowed characters, then runs of
      underscores, each become one `_`. */
  function Collapsed(s: string): (r: string)
    ensures forall i :: 0 <= i < |r| ==> Allowed(r[i])
    ensures NoRepeat(r, '_')
  {
    var once := CollapseRuns(s, Disallowed, '_');
    assert forall c :: c in once ==> Allowed(c);
    CollapseNoRepeat(once, IsUnderscore, '_');
    CollapseRuns(once, IsUnderscore, '_')
  }

  /** The first four steps of `_sanitize_profile_folder`: strip, lower-case,
      then `@` to `_at_` and `.` to `_`. */
  function Replaced(email: Option<string>): string
  {
    ReplaceChar(ReplaceChar(Lower(Strip(if email.Some? then email.value else "")), '@', "_at_"), '.', "_")
  }

  /** `_sanitize_profile_folder`: a folder name made of lower-case letters,
      digits, `_` and `-`, never empty, with no `__` and no `_` at either
      end. */
  function SanitizeProfileFolder(email: Option<string>): (r: string)
    ensures r != []
    ensures forall i :: 0 <= i < |r| ==> Allowed(r[i])
    ensures NoRepeat(r, '_')
    ensures r[0] != '_' && r[|r| - 1] != '_'
  {
    var lowered := Lower(Strip(if email.Some? then email.value else ""));
    var collapsed := Collapsed(ReplaceChar(ReplaceChar(lowered, '@', "_at_"), '.', "_"));
    StripCharKeeps(collapsed, '_', Allowed);
    StripCharNoRepeat(collapsed, '_', '_');
    var stripped := StripChar(collapsed, '_');
    if stripped == [] then "unknown" else stripped
  }

  /** No email, or an empty one, gives `unknown`. */
  lemma {:induction false} SanitizeNothing()
    ensures SanitizeProfileFolder(None) == "unknown"
    ensures SanitizeProfileFolder(Some("")) == "unknown"
  {
    assert Strip("") == "";
  }

  /** A character that passes through every step unchanged. */
  predicate PlainChar(c: char)
  {
    'a' <= c <= 'z' || '0' <= c <= '9' || c == '-'
  }

  predicate Plain(s: string)
  {
    forall i :: 0 <= i < |s| ==> PlainChar(s[i])
  }

  /** What the first two replacements put in place of a separator. */
  predicate Replacement(sep: char, mid: string)
  {
    (sep == '@' && mid == "_at_") || (sep == '.' && mid == "_")
  }

  /** For plain words joined by `@` or `.`, the `@` becomes `_at_`, the `.`
      becomes `_`, and nothing else changes. */
  lemma {:induction false} SanitizeSeparator(a: string, sep: char, mid: string, b: string)
    requires a != [] && b != [] && Plain(a) && Plain(b) && Replacement(sep, mid)
    ensures SanitizeProfileFolder(Some(a + [sep] + b)) == a + mid + b
  {
    var email := Some(a + [sep] + b);
    SeparatorCollapsed(a, sep, mid, b);
    PlainEnds(a, mid, b);
    SanitizeCollapsed(email);
  }

  lemma {:induction false} SeparatorCollapsed(a: string, sep: char, mid: string, b: string)
    requires b != [] && Plain(a) && Plain(b) && Replacement(sep, mid)
    ensures Collapsed(Replaced(Some(a + [sep] + b))) == a + mid + b
  {
    var t := a + mid + b;
    assert Replaced(Some(a + [sep] + b)) == t by {
      JoinedLowered(a, sep, b);
      JoinedReplaced(a, sep, mid, b);
    }
    JoinedCollapsed(a, mid, b);
  }

  lemma {:induction false} PlainEnds(a: string, mid: string, b: string)
    requires a != [] && b != [] && Plain(a) && Plain(b)
    ensures var t := a + mid + b; t != [] && t[0] != '_' && t[|t| - 1] != '_'
  {
    var t := a + mid + b;
    assert t[0] == a[0] && PlainChar(a[0]);
    assert t[|t| - 1] == b[|b| - 1] && PlainChar(b[|b| - 1]);
  }

  /** When the collapsed text has no `_` at either end, the final strip
      leaves it as it is. */
  lemma {:induction false} SanitizeCollapsed(email: Option<string>)
    requires var c := Collapsed(Replaced(email)); c != [] && c[0] != '_' && c[|c| - 1] != '_'
    ensures SanitizeProfileFolder(email) == Collapsed(Replaced(email))
  {
    StripCharNone(Collapsed(Replaced(email)), '_');
  }

  lemma {:induction false} JoinedLowered(a: string, sep: char, b: string)
    requires Plain(a) && Plain(b) && (sep == '@' || sep == '.')
    ensures Lower(Strip(a + [sep] + b)) == a + [sep] + b
  {
    var s := a + [sep] + b;
    forall i | 0 <= i < |s| ensures !('A' <= s[i] <= 'Z') && !IsPySpace(s[i]) {
      if i < |a| { assert s[i] == a[i]; }
      else if i > |a| { assert s[i] == b[i - |a| - 1]; }
    }
    StripPlain(s);
    LowerNoUpper(s);
  }

  lemma {:induction false} JoinedReplaced(a: string, sep: char, mid: string, b: string)
    requires Plain(a) && Plain(b) && Replacement(sep, mid)
    ensures ReplaceChar(ReplaceChar(a + [sep] + b, '@', "_at_"), '.', "_") == a + mid + b
  {
    assert forall i :: 0 <= i < |a| ==> a[i] != '@' && a[i] != '.';
    assert forall i :: 0 <= i < |b| ==> b[i] != '@' && b[i] != '.';
    if sep == '@' {
      ReplaceJoin(a, '@', "_at_", b);
      JoinedChars(a, mid, b);
      assert '.' !in a + mid + b;
    } else {
      assert '@' !in a + [sep] + b;
      ReplaceJoin(a, '.', "_", b);
    }
  }

  /** `a + mid + b` is plain apart from its underscores. */
  lemma {:induction false} JoinedChars(a: string, mid: string, b: string)
    requires Plain(a) && Plain(b)
    requires forall i :: 0 <= i < |mid| ==> mid[i] == '_' || PlainChar(mid[i])
    ensures var t := a + mid + b;
      forall i :: 0 <= i < |t| ==> t[i] == '_' || PlainChar(t[i])
  {
    var t := a + mid + b;
    forall i | 0 <= i < |t| ensures t[i] == '_' || PlainChar(t[i]) {
      if i < |a| { assert t[i] == a[i]; }
      else if i < |a| + |mid| { assert t[i] == mid[i - |a|]; }
      else { assert t[i] == b[i - |a| - |mid|]; }
    }
  }

  lemma {:induction false} JoinedCollapsed(a: string, mid: string, b: string)
    requires Plain(a) && Plain(b) && b != [] && (mid == "_at_" || mid == "_")
    ensures Collapsed(a + mid + b) == a + mid + b
  {
    var t := a + mid + b;
    JoinedChars(a, mid, b);
    JoinedIsolated(a, mid, b);
    CollapseNone(t, Disallowed, '_');
    CollapseIsolated(t, IsUnderscore, '_');
  }

  /** In `a + mid + b` no underscore is followed by another. */
  lemma {:induction false} JoinedIsolated(a: string, mid: string, b: string)
    requires Plain(a) && Plain(b) && b != [] && (mid == "_at_" || mid == "_")
    ensures var t := a + mid + b;
      forall i :: 0 <= i < |t| - 1 && IsUnderscore(t[i]) ==> !IsUnderscore(t[i + 1])
  {
    var t := a + mid + b;
    assert forall i :: 0 <= i < |a| ==> t[i] == a[i];
    assert forall i :: |a| <= i < |a| + |mid| ==> t[i] == mid[i - |a|];
    assert forall i :: |a| + |mid| <= i < |t| ==> t[i] == b[i - |a| - |mid|];
  }

  // ---------------------------------------------------------------- accounts

  /** `load_accounts` fills in `browser: chrome` and empty `notes` on every
      loaded account that lacks them. */
  function WithDefaults(a: Account): (r: Account)
    ensures r.Keys == a.Keys + {"browser", "notes"}
    ensures forall k :: k in a ==> r[k] == a[k]
    ensures "browser" !in a ==> r["browser"] == Str("chrome")
    ensures "notes" !in a ==> r["notes"] == Str("")
  {
    var b := if "browser" in a then a else a["browser" := Str("chrome")];
    if "notes" in b then b else b["notes" := Str("")]
  }

  function LoadDefaults(loaded: seq<Account>): (r: seq<Account>)
    ensures |r| == |loaded| && forall i :: 0 <= i < |r| ==> r[i] == WithDefaults(loaded[i])
  {
    seq(|loaded|, i requires 0 <= i < |loaded| => WithDefaults(loaded[i]))
  }

  /** `create_account`: a new account that is not logged in, has no email or
      name yet, uses the Chrome browser and carries the proxy choice it was
      given. */
  function CreateAccount(id: string, accountType: string, useProxy: bool, proxyMode: Option<string>,
                         proxyId: Option<string>, profilePath: string): (r: Account)
    ensures HasId(r, id) && Get(r, "status") == Str("not_logged_in") && Get(r, "browser") == Str("chrome")
    ensures !Truthy(Get(r, "email")) && !Truthy(Get(r, "name"))
    ensures Get(r, "email") == Null && Get(r, "name") == Null
    ensures Get(r, "type") == Str(accountType) && Get(r, "profile_path") == Str(profilePath)
    ensures Get(r, "use_proxy") == Bool(useProxy)
    ensures r.Keys == {"id", "type", "email", "name", "status", "created_at", "last_opened", "profile_path",
                       "browser", "use_proxy", "proxy_mode", "proxy_id", "notes"}
    ensures Get(r, "created_at") == Null && Get(r, "last_opened") == Null && Get(r, "notes") == Str("")
    ensures Get(r, "proxy_mode") == OptStr(proxyMode) && Get(r, "proxy_id") == OptStr(proxyId)
  {
    map["id" := Str(id), "type" := Str(accountType), "email" := Null, "name" := Null,
        "status" := Str("not_logged_in"), "created_at" := Null, "last_opened" := Null,
        "profile_path" := Str(profilePath), "browser" := Str("chrome"), "use_proxy" := Bool(useProxy),
        "proxy_mode" := OptStr(proxyMode), "proxy_id" := OptStr(proxyId), "notes" := Str("")]
  }

  /** A just-created account is found by no search, and counts as not
      logged in. */
  lemma {:induction false} CreatedAccountUnseen(id: string, accountType: string, useProxy: bool, proxyMode: Option<string>,
                             proxyId: Option<string>, profilePath: string, query: string)
    ensures var a := CreateAccount(id, accountType, useProxy, proxyMode, proxyId, profilePath);
      Matches(a, query) == Answer(false) &&
      AccountStats([a]) == Answer(Stats(1, if accountType == "google" then 1 else 0,
                                        if accountType == "outlook" then 1 else 0, 0, 1))
  {
    var a := CreateAccount(id, accountType, useProxy, proxyMode, proxyId, profilePath);
    assert "type" in a && a["type"] == Str(accountType) && "status" in a && a["status"] == Str("not_logged_in");
    StatsOfOne(a);
    NoTextNeverMatches(a, query);
  }

  class AccountManager {
    var accounts: seq<Account>

    /** `__init__` over the accounts read from the file (an unreadable file
        gives the empty list). */
    constructor(loaded: seq<Account>)
      ensures accounts == LoadDefaults(loaded)
    {
      accounts := LoadDefaults(loaded);
    }

    /** `add_account`: stamps `created_at` with the current time and
        appends. */
    method AddAccount(account: Account, now: string) returns (ok: bool)
      modifies this
      ensures ok && accounts == old(accounts) + [account["created_at" := Str(now)]]
    {
      accounts := accounts + [account["created_at" := Str(now)]];
      ok := true;
    }

    /** `update_account`. */
    method UpdateAccount(id: string, kwargs: Kwargs) returns (ok: bool)
      modifies this
      ensures ok <==> Locate(old(accounts), id).Found?
      ensures ok ==> accounts == old(accounts)[Locate(old(accounts), id).index :=
                                   Overwrite(old(accounts)[Locate(old(accounts), id).index], kwargs)]
      ensures !ok ==> accounts == old(accounts)
    {
      ok, accounts := AccountStore.UpdateAccount(accounts, id, kwargs);
    }

    /** `remove_account`. */
    method RemoveAccount(id: string, deleteProfile: bool) returns (ok: bool)
      modifies this
      ensures ok <==> Removable(old(accounts), id, deleteProfile)
      ensures ok ==> accounts == RemoveAt(old(accounts), Locate(old(accounts), id).index)
      ensures !ok ==> accounts == old(accounts)
    {
      ok, accounts := AccountStore.RemoveAccount(accounts, id, deleteProfile);
    }

    /** `remove_accounts`. */
    method RemoveAccounts(ids: seq<string>, deleteProfiles: bool) returns (count: nat)
      modifies this
      ensures (accounts, count) == RemoveEach(old(accounts), ids, deleteProfiles)
      ensures |accounts| == |old(accounts)| - count && count <= |ids|
    {
      count, accounts := AccountStore.RemoveAccounts(accounts, ids, deleteProfiles);
    }

    /** `get_account`: the first account with the id, None, or the
        `KeyError` of an account without an id met first. */
    method GetAccount(id: string) returns (r: Query<Option<Account>>)
      ensures r.Answer? && r.value.Some? <==> Locate(accounts, id).Found?
      ensures r.Answer? && r.value.Some? ==> r.value.value == accounts[Locate(accounts, id).index]
      ensures r.Raised? <==> Locate(accounts, id).KeyMissing?
    {
      var found := FindAccount(accounts, id);
      match found
      case Found(i) => r := Answer(Some(accounts[i]));
      case KeyMissing(_) => r := Raised;
      case NotFound => r := Answer(None);
    }

    /** `search_accounts`. */
    method SearchAccounts(query: string) returns (r: Query<seq<Account>>)
      ensures r == Searched(accounts, Lower(query))
    {
      r := AccountStore.SearchAccounts(accounts, query);
    }

    /** `filter_accounts`. */
    function FilterAccounts(accountType: Option<string>, status: Option<string>): (r: Query<seq<Account>>)
      reads this
      ensures r == AccountStore.FilterAccounts(accounts, accountType, status)
      ensures r.Answer? ==> forall a :: a in r.value <==>
                a in accounts &&
                (NonEmpty(accountType) ==> Get(a, "type") == Str(accountType.value)) &&
                (NonEmpty(status) ==> Get(a, "status") == Str(status.value))
    {
      var r := AccountStore.FilterAccounts(accounts, accountType, status);
      if r.Answer? then FilterAccountsSpec(accounts, accountType, status); r else r
    }

    /** `get_account_stats`. */
    function GetAccountStats(): (r: Query<Stats>)
      reads this
      ensures r == AccountStats(accounts)
      ensures r.Answer? ==> r.value.notLoggedIn == |accounts| - r.value.loggedIn &&
                            r.value.google + r.value.outlook <= r.value.total
    {
      if AccountStats(accounts).Answer? then TypesPartition(accounts); AccountStats(accounts) else
      AccountStats(accounts)
    }
  }
}
