/** The simple group manager of src/core/simple_group.py: a dict from group
    id to group, each group a name and a list of account ids. The dict's
    insertion order is kept beside it, since listing the groups follows
    it. */
module SimpleGroups {
  import opened Common

  datatype SimpleGroup = SimpleGroup(id: string, name: string, accounts: seq<string>)

  /** The id `create_group` gives: `group_` followed by the creation time
      formatted to the second (`%Y%m%d_%H%M%S`). */
  function GroupIdAt(stamp: string): (id: string)
    ensures |id| == 6 + |stamp| && id[..6] == "group_" && id[6..] == stamp
  {
    "group_" + stamp
  }

  /** The ids, in order, of the groups that contain the account. */
  function ContainingIds(order: seq<string>, groups: map<string, SimpleGroup>, accountId: string): (r: seq<string>)
    requires forall k :: k in order ==> k in groups
    ensures forall k :: k in r <==> k in order && accountId in groups[k].accounts
    ensures |r| <= |order|
    ensures Distinct(order) ==> Distinct(r)
  {
    if order == [] then []
    else
      assert forall k :: k in order[1..] ==> k in order;
      var rest := ContainingIds(order[1..], groups, accountId);
      assert order == [order[0]] + order[1..];
      DistinctCons(order[0], order[1..]);
      DistinctCons(order[0], rest);
      (if accountId in groups[order[0]].accounts then [order[0]] else []) + ContainingIds(order[1..], groups, accountId)
  }

  /** The groups, in insertion order. */
  function ValuesInOrder(order: seq<string>, groups: map<string, SimpleGroup>): (r: seq<SimpleGroup>)
    requires forall k :: k in order ==> k in groups
    ensures |r| == |order| && forall i :: 0 <= i < |order| ==> r[i] == groups[order[i]]
  {
    seq(|order|, i requires 0 <= i < |order| => groups[order[i]])
  }

  lemma {:induction false} StoreKeepsOrder(order: seq<string>, groups: map<string, SimpleGroup>, k: string, g: SimpleGroup)
    requires OrderedKeys(order, groups)
    ensures OrderedKeys(AppendNew(order, k), groups[k := g])
  {
  }

  lemma {:induction false} DeleteKeepsOrder(order: seq<string>, groups: map<string, SimpleGroup>, k: string)
    requires OrderedKeys(order, groups)
    ensures OrderedKeys(Without(order, k), groups - {k})
  {
  }

  class SimpleGroupManager {
    var groups: map<string, SimpleGroup>
    /** The keys of `groups` in insertion order. */
    var order: seq<string>

    ghost predicate Valid()
      reads this
    {
      OrderedKeys(order, groups)
    }

    /** `__init__` over the dict read from `simple_groups.json` (empty when
        the file is missing or unreadable), with its keys in file order. */
    constructor(loadedOrder: seq<string>, loaded: map<string, SimpleGroup>)
      requires OrderedKeys(loadedOrder, loaded)
      ensures Valid() && groups == loaded && order == loadedOrder
    {
      groups, order := loaded, loadedOrder;
    }

    /** `create_group`: stores a new empty group under the id made from the
        time. A group created earlier in the same second has that id and is
        replaced, keeping its place in the order. */
    method CreateGroup(stamp: string, name: string) returns (id: string)
      requires Valid()
      modifies this
      ensures Valid()
      ensures id == GroupIdAt(stamp)
      ensures groups == old(groups)[id := SimpleGroup(id, name, [])]
      ensures order == AppendNew(old(order), id)
    {
      id := GroupIdAt(stamp);
      StoreKeepsOrder(order, groups, id, SimpleGroup(id, name, []));
      groups := groups[id := SimpleGroup(id, name, [])];
      order := AppendNew(order, id);
    }

    /** `rename_group`. */
    method RenameGroup(id: string, newName: string)
      requires Valid()
      modifies this
      ensures Valid() && order == old(order)
      ensures id in old(groups) ==> groups == old(groups)[id := old(groups)[id].(name := newName)]
      ensures id !in old(groups) ==> groups == old(groups)
    {
      if id in groups {
        groups := groups[id := groups[id].(name := newName)];
      }
    }

    /** `delete_group`. */
    method DeleteGroup(id: string)
      requires Valid()
      modifies this
      ensures Valid()
      ensures groups == old(groups) - {id}
      ensures order == if id in old(groups) then Without(old(order), id) else old(order)
    {
      if id in groups {
        DeleteKeepsOrder(order, groups, id);
        groups := groups - {id};
        order := Without(order, id);
      }
    }

    /** `add_account_to_group`: appends the account unless it is already a
        member or the group is missing. */
    method AddAccountToGroup(groupId: string, accountId: string)
      requires Valid()
      modifies this
      ensures Valid() && order == old(order) && groups.Keys == old(groups).Keys
      ensures groupId in old(groups) ==>
                groups == old(groups)[groupId := old(groups)[groupId].(accounts := AppendNew(old(groups)[groupId].accounts, accountId))]
      ensures groupId !in old(groups) ==> groups == old(groups)
    {
      if groupId in groups && accountId !in groups[groupId].accounts {
        var g := groups[groupId];
        groups := groups[groupId := g.(accounts := g.accounts + [accountId])];
      }
    }

    /** `remove_account_from_group`: removes the first occurrence of the
        account when it is a member. */
    method RemoveAccountFromGroup(groupId: string, accountId: string)
      requires Valid()
      modifies this
      ensures Valid() && order == old(order) && groups.Keys == old(groups).Keys
      ensures groupId in old(groups) && accountId in old(groups)[groupId].accounts ==>
                groups == old(groups)[groupId := old(groups)[groupId].(accounts := RemoveFirst(old(groups)[groupId].accounts, accountId))]
      ensures !(groupId in old(groups) && accountId in old(groups)[groupId].accounts) ==> groups == old(groups)
    {
      if groupId in groups && accountId in groups[groupId].accounts {
        var g := groups[groupId];
        groups := groups[groupId := g.(accounts := RemoveFirst(g.accounts, accountId))];
      }
    }

    /** `get_all_groups`: the groups in insertion order. */
    function GetAllGroups(): (r: seq<SimpleGroup>)
      requires Valid()
      reads this
      ensures |r| == |groups|
      ensures forall g :: g in r <==> exists k :: k in groups && groups[k] == g
    {
      DistinctSize(order, groups);
      var r := ValuesInOrder(order, groups);
      assert forall k :: k in groups ==> groups[k] in r by {
        forall k | k in groups ensures groups[k] in r {
          var i :| 0 <= i < |order| && order[i] == k;
          assert r[i] == groups[k];
        }
      }
      r
    }

    /** `get_group`. */
    function GetGroup(id: string): (r: Option<SimpleGroup>)
      reads this
      ensures r.Some? <==> id in groups
      ensures r.Some? ==> r.value == groups[id]
    {
      if id in groups then Some(groups[id]) else None
    }

    /** `get_account_groups`: the ids of exactly the groups that contain the
        account, in insertion order, each once. */
    function GetAccountGroups(accountId: string): (r: seq<string>)
      requires Valid()
      reads this
      ensures forall k :: k in r <==> k in groups && accountId in groups[k].accounts
      ensures Distinct(r)
    {
      ContainingIds(order, groups, accountId)
    }
  }

  /** In a dict, the insertion order has exactly one entry per key. */
  lemma {:induction false} DistinctSize(order: seq<string>, groups: map<string, SimpleGroup>)
    requires OrderedKeys(order, groups)
    ensures |groups| == |order|
  {
    if order == [] {
      assert groups.Keys == {};
    } else {
      var k := order[0];
      assert order == [k] + order[1..];
      DistinctCons(k, order[1..]);
      DistinctSize(order[1..], groups - {k});
    }
  }
}
