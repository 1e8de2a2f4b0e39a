/** The group manager of src/core/group_manager.py: a list of groups, each
    with a name, a colour and the ids of its member accounts. The
    undeletable group `all` is created when no groups file exists. */
module Groups {
  import opened Common

  datatype Group = Group(id: string, name: string, color: string, accountIds: seq<string>, createdAt: string)

  const AllGroupId := "all"
  const DefaultGroupColor := "#95a5a6"

  /** The groups a first start creates: only `all`, with no members. */
  function DefaultGroups(now: string): (r: seq<Group>)
    ensures |r| == 1 && r[0].id == AllGroupId && r[0].accountIds == []
  {
    [Group(AllGroupId, "All Accounts", "#3498db", [], now)]
  }

  /** The group `create_group` appends: the given name, the given colour or
      the grey default when none (or an empty one) is given, no members. */
  function NewGroup(id: string, name: string, color: Option<string>, now: string): (g: Group)
    ensures g.id == id && g.name == name && g.accountIds == [] && g.createdAt == now
    ensures g.color == if NonEmpty(color) then color.value else DefaultGroupColor
  {
    Group(id, name, if NonEmpty(color) then color.value else DefaultGroupColor, [], now)
  }

  // ---------------------------------------------------------------- lookup

  /** The position of the first group with the id (`get_group`). */
  function FirstGroup(groups: seq<Group>, id: string): (r: Option<nat>)
    ensures r.Some? ==> r.value < |groups| && groups[r.value].id == id &&
                        forall j :: 0 <= j < r.value ==> groups[j].id != id
    ensures r.None? <==> forall j :: 0 <= j < |groups| ==> groups[j].id != id
  {
    if groups == [] then None
    else if groups[0].id == id then Some(0)
    else match FirstGroup(groups[1..], id)
      case None => None
      case Some(i) => Some(i + 1)
  }

  /** The loop of `get_group`. */
  method FindGroup(groups: seq<Group>, id: string) returns (r: Option<nat>)
    ensures r == FirstGroup(groups, id)
  {
    var i := 0;
    while i < |groups|
      invariant 0 <= i <= |groups|
      invariant forall j :: 0 <= j < i ==> groups[j].id != id
    {
      if groups[i].id == id { return Some(i); }
      i := i + 1;
    }
    return None;
  }

  // ---------------------------------------------------------------- editing

  /** One keyword argument of `update_group`: only `name`, `color` and
      `account_ids` are applied, every other key is ignored. */
  datatype GroupField = SetName(name: string) | SetColor(color: string) | SetAccountIds(ids: seq<string>) | OtherKey(key: string)

  function Edited(g: Group, fields: seq<GroupField>): Group
    decreases |fields|
  {
    if fields == [] then g
    else
      var h := match fields[0]
        case SetName(n) => g.(name := n)
        case SetColor(c) => g.(color := c)
        case SetAccountIds(ids) => g.(accountIds := ids)
        case OtherKey(_) => g;
      Edited(h, fields[1..])
  }

  /** Editing never touches the id or the creation time, and arguments with
      other keys change nothing at all. */
  lemma {:induction false} EditedKeepsIdentity(g: Group, fields: seq<GroupField>)
    ensures Edited(g, fields).id == g.id && Edited(g, fields).createdAt == g.createdAt
    ensures (forall i :: 0 <= i < |fields| ==> fields[i].OtherKey?) ==> Edited(g, fields) == g
    decreases |fields|
  {
    if fields != [] {
      var h := match fields[0]
        case SetName(n) => g.(name := n)
        case SetColor(c) => g.(color := c)
        case SetAccountIds(ids) => g.(accountIds := ids)
        case OtherKey(_) => g;
      EditedKeepsIdentity(h, fields[1..]);
    }
  }

  /** `[g for g in groups if g['id'] != group_id]`. */
  function WithoutGroup(groups: seq<Group>, id: string): (r: seq<Group>)
    ensures |r| <= |groups|
    ensures forall g :: g in r <==> g in groups && g.id != id
  {
    if groups == [] then []
    else (if groups[0].id != id then [groups[0]] else []) + WithoutGroup(groups[1..], id)
  }

  /** Deleting a group id that is not there leaves the list as it was. */
  lemma {:induction false} WithoutAbsentGroup(groups: seq<Group>, id: string)
    requires forall j :: 0 <= j < |groups| ==> groups[j].id != id
    ensures WithoutGroup(groups, id) == groups
  {
    if groups != [] {
      WithoutAbsentGroup(groups[1..], id);
      assert [groups[0]] + groups[1..] == groups;
    }
  }

  /** `get_groups_for_account`: the groups whose members include the
      account, in order. */
  function GroupsFor(groups: seq<Group>, accountId: string): (r: seq<Group>)
    ensures |r| <= |groups|
    ensures forall g :: g in r <==> g in groups && accountId in g.accountIds
  {
    if groups == [] then []
    else (if accountId in groups[0].accountIds then [groups[0]] else []) + GroupsFor(groups[1..], accountId)
  }

  /** `len([g for g in groups if g.get('account_ids')])`. */
  function CountWithAccounts(groups: seq<Group>): (n: nat)
    ensures n <= |groups|
    ensures n == 0 <==> forall j :: 0 <= j < |groups| ==> groups[j].accountIds == []
  {
    if groups == [] then 0
    else
      assert forall j :: 1 <= j < |groups| ==> groups[j] == groups[1..][j - 1];
      (if groups[0].accountIds != [] then 1 else 0) + CountWithAccounts(groups[1..])
  }

  datatype GroupStats = GroupStats(totalGroups: nat, groupsWithAccounts: nat)

  /** Every group that contains an account has members, so it is counted
      among the groups with accounts. */
  lemma {:induction false} GroupsForCounted(groups: seq<Group>, accountId: string)
    ensures |GroupsFor(groups, accountId)| <= CountWithAccounts(groups)
  {
    if groups != [] {
      GroupsForCounted(groups[1..], accountId);
    }
  }

  // ---------------------------------------------------------------- the manager

  class GroupManager {
    var groups: seq<Group>

    /** `__init__`: the groups read from `groups.json` (`Some`, the empty
        list when it cannot be read), or the default groups when the file
        does not exist (`None`). */
    constructor(loaded: Option<seq<Group>>, now: string)
      ensures groups == if loaded.Some? then loaded.value else DefaultGroups(now)
    {
      groups := if loaded.Some? then loaded.value else DefaultGroups(now);
    }

    /** `create_group`; the fresh id stands for `uuid.uuid4()`. */
    method CreateGroup(id: string, name: string, color: Option<string>, now: string) returns (g: Group)
      modifies this
      ensures g == NewGroup(id, name, color, now)
      ensures groups == old(groups) + [g]
    {
      g := NewGroup(id, name, color, now);
      groups := groups + [g];
    }

    /** `get_group`. */
    method GetGroup(id: string) returns (r: Option<Group>)
      ensures r.Some? <==> FirstGroup(groups, id).Some?
      ensures r.Some? ==> r.value == groups[FirstGroup(groups, id).value] && r.value.id == id
    {
      var i := FindGroup(groups, id);
      r := if i.Some? then Some(groups[i.value]) else None;
    }

    /** `update_group`: the first group with the id takes the name, colour
        and members given; `saved` is whether writing the file succeeds. */
    method UpdateGroup(id: string, fields: seq<GroupField>, saved: bool) returns (ok: bool)
      modifies this
      ensures FirstGroup(old(groups), id).None? ==> !ok && groups == old(groups)
      ensures FirstGroup(old(groups), id).Some? ==>
                ok == saved &&
                groups == old(groups)[FirstGroup(old(groups), id).value :=
                                        Edited(old(groups)[FirstGroup(old(groups), id).value], fields)]
    {
      var i := FindGroup(groups, id);
      if i.None? { return false; }
      groups := groups[i.value := Edited(groups[i.value], fields)];
      ok := saved;
    }

    /** `delete_group`: `all` cannot be deleted; any other id removes every
        group carrying it. */
    method DeleteGroup(id: string, saved: bool) returns (ok: bool)
      modifies this
      ensures id == AllGroupId ==> !ok && groups == old(groups)
      ensures id != AllGroupId ==> ok == saved && groups == WithoutGroup(old(groups), id)
    {
      if id == AllGroupId { return false; }
      groups := WithoutGroup(groups, id);
      ok := saved;
    }

    /** `add_account_to_group`: appends the account to the first group with
        the id unless it is already a member. */
    method AddAccountToGroup(groupId: string, accountId: string, saved: bool) returns (ok: bool)
      modifies this
      ensures var i := FirstGroup(old(groups), groupId);
        if i.Some? && accountId !in old(groups)[i.value].accountIds then
          ok == saved && groups == old(groups)[i.value := old(groups)[i.value].(accountIds := old(groups)[i.value].accountIds + [accountId])]
        else !ok && groups == old(groups)
    {
      var i := FindGroup(groups, groupId);
      if i.Some? && accountId !in groups[i.value].accountIds {
        var g := groups[i.value];
        groups := groups[i.value := g.(accountIds := g.accountIds + [accountId])];
        return saved;
      }
      return false;
    }

    /** `remove_account_from_group`: removes the first occurrence of the
        account from the first group with the id. */
    method RemoveAccountFromGroup(groupId: string, accountId: string, saved: bool) returns (ok: bool)
      modifies this
      ensures var i := FirstGroup(old(groups), groupId);
        if i.Some? && accountId in old(groups)[i.value].accountIds then
          ok == saved && groups == old(groups)[i.value := old(groups)[i.value].(accountIds := RemoveFirst(old(groups)[i.value].accountIds, accountId))]
        else !ok && groups == old(groups)
    {
      var i := FindGroup(groups, groupId);
      if i.Some? && accountId in groups[i.value].accountIds {
        var g := groups[i.value];
        groups := groups[i.value := g.(accountIds := RemoveFirst(g.accountIds, accountId))];
        return saved;
      }
      return false;
    }

    /** `get_accounts_in_group`: the members of the first group with the id,
        or none. */
    method GetAccountsInGroup(groupId: string) returns (ids: seq<string>)
      ensures FirstGroup(groups, groupId).None? ==> ids == []
      ensures FirstGroup(groups, groupId).Some? ==> ids == groups[FirstGroup(groups, groupId).value].accountIds
    {
      var i := FindGroup(groups, groupId);
      ids := if i.Some? then groups[i.value].accountIds else [];
    }

    /** `get_group_stats`. */
    function GetGroupStats(): (r: GroupStats)
      reads this
      ensures r.totalGroups == |groups| && r.groupsWithAccounts <= r.totalGroups
      ensures r.groupsWithAccounts == 0 <==> forall j :: 0 <= j < |groups| ==> groups[j].accountIds == []
    {
      GroupStats(|groups|, CountWithAccounts(groups))
    }
  }

  /** Adding keeps the members of every group free of duplicates. */
  lemma {:induction false} AddKeepsMembersDistinct(members: seq<string>, accountId: string)
    requires Distinct(members) && accountId !in members
    ensures Distinct(members + [accountId])
  {
    assert AppendNew(members, accountId) == members + [accountId];
  }

  /** Removing from a duplicate-free member list leaves the account out and
      everyone else in. */
  lemma {:induction false} RemoveLeavesOthers(members: seq<string>, accountId: string)
    requires Distinct(members) && accountId in members
    ensures accountId !in RemoveFirst(members, accountId)
    ensures forall other :: other in RemoveFirst(members, accountId) <==> other in members && other != accountId
  {
    RemoveFirstOfDistinct(members, accountId);
  }
}
