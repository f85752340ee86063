/** The assignable-role tables and the `AssignableRoleGroup` model
    (app/models/assignable_role_group.rb, app/models/assignable_role.rb).
    Each table is a map from primary key to row, together with the order in
    which the table returns its rows. */
module RoleModels {
  import opened Common

  type RoleId = int
  type GroupId = int

  datatype AssignableRole = AssignableRole(key: string, description: Option<string>, groupId: Option<GroupId>)

  datatype RoleGroup = RoleGroup(key: string, name: string, description: Option<string>, isExclusive: bool)

  datatype Tables = Tables(
    roles: map<RoleId, AssignableRole>,
    roleOrder: seq<RoleId>,
    groups: map<GroupId, RoleGroup>,
    groupOrder: seq<GroupId>)

  predicate Distinct<T(==)>(s: seq<T>)
  {
    forall i, j :: 0 <= i < j < |s| ==> s[i] != s[j]
  }

  /** Each order lists every row of its table exactly once. */
  ghost predicate Valid(t: Tables)
  {
    && Distinct(t.roleOrder) && (forall r :: r in t.roles <==> r in t.roleOrder)
    && (forall i :: 0 <= i < |t.roleOrder| ==> t.roleOrder[i] in t.roles)
    && Distinct(t.groupOrder) && (forall g :: g in t.groups <==> g in t.groupOrder)
    && (forall i :: 0 <= i < |t.groupOrder| ==> t.groupOrder[i] in t.groups)
  }

  /** `AssignableRole#group` (many_to_one): the group the role points at, if
      that group exists. */
  function GroupOf(t: Tables, r: RoleId): Option<GroupId>
    requires r in t.roles
  {
    var g := t.roles[r].groupId;
    if g.Some? && g.value in t.groups then g else None
  }

  /** The role ids of `order`, in order, that satisfy `keep`. */
  function Select(order: seq<RoleId>, keep: RoleId -> bool): (rs: seq<RoleId>)
    ensures |rs| <= |order|
    ensures forall r :: r in rs <==> r in order && keep(r)
    ensures Distinct(order) ==> Distinct(rs)
  {
    if order == [] then []
    else
      var rest := Select(order[1..], keep);
      assert Distinct(order) ==> order[0] !in order[1..];
      if keep(order[0]) then [order[0]] + rest else rest
  }

  /** Every kept role occurs as often as in `order`, every other not at all. */
  lemma {:induction false} SelectCounts(order: seq<RoleId>, keep: RoleId -> bool)
    ensures forall r :: multiset(Select(order, keep))[r] == if keep(r) then multiset(order)[r] else 0
    decreases |order|
  {
    if order != [] {
      assert order == [order[0]] + order[1..];
      SelectCounts(order[1..], keep);
    }
  }

  lemma SelectCons(x: RoleId, rest: seq<RoleId>, keep: RoleId -> bool)
    ensures Select([x] + rest, keep) == if keep(x) then [x] + Select(rest, keep) else Select(rest, keep)
  {
    assert ([x] + rest)[1..] == rest;
  }

  /** Filtering a concatenation filters each part and keeps them in order;
      with the multiplicities above, this fixes the result as the
      subsequence of the kept roles. */
  lemma {:induction false} SelectAppend(a: seq<RoleId>, b: seq<RoleId>, keep: RoleId -> bool)
    ensures Select(a + b, keep) == Select(a, keep) + Select(b, keep)
    decreases |a|
  {
    if a != [] {
      var x, t := a[0], a[1..];
      assert a == [x] + t;
      assert a + b == [x] + (t + b);
      SelectAppend(t, b, keep);
      SelectCons(x, t + b, keep);
      SelectCons(x, t, keep);
    } else {
      assert a + b == b;
    }
  }

  /** `AssignableRoleGroup#roles` (one_to_many on assignable_role_group_id). */
  function GroupRoles(t: Tables, g: GroupId): (rs: seq<RoleId>)
    requires Valid(t)
    ensures forall r :: r in rs <==> r in t.roles && t.roles[r].groupId == Some(g)
  {
    Select(t.roleOrder, r => r in t.roles && t.roles[r].groupId == Some(g))
  }

  /** `AssignableRole.all.reject { |r| r.group }`. */
  function UngroupedRoles(t: Tables): (rs: seq<RoleId>)
    requires Valid(t)
    ensures forall r :: r in rs <==> r in t.roles && GroupOf(t, r).None?
  {
    Select(t.roleOrder, r => r in t.roles && GroupOf(t, r).None?)
  }

  /** `before_destroy`: every role of the group loses its group. */
  function Ungroup(roles: map<RoleId, AssignableRole>, g: GroupId): (r: map<RoleId, AssignableRole>)
    ensures r.Keys == roles.Keys
    ensures forall id :: id in roles && roles[id].groupId == Some(g) ==> r[id] == roles[id].(groupId := None)
    ensures forall id :: id in roles && roles[id].groupId != Some(g) ==> r[id] == roles[id]
  {
    map id | id in roles :: if roles[id].groupId == Some(g) then roles[id].(groupId := None) else roles[id]
  }

  function Without(order: seq<GroupId>, g: GroupId): (r: seq<GroupId>)
    ensures forall x :: x in r <==> x in order && x != g
    ensures Distinct(order) ==> Distinct(r)
  {
    if order == [] then []
    else
      var rest := Without(order[1..], g);
      assert Distinct(order) ==> order[0] !in order[1..];
      if order[0] == g then rest else [order[0]] + rest
  }

  /** `group.destroy`: the hook, then the deletion of the row. */
  function Destroyed(t: Tables, g: GroupId): Tables
  {
    Tables(Ungroup(t.roles, g), t.roleOrder, t.groups - {g}, Without(t.groupOrder, g))
  }

  /** After the destroy no role refers to the group, the roles of other
      groups and the ungrouped roles keep their rows, and the tables stay
      well formed. */
  lemma DestroyedUngroups(t: Tables, g: GroupId)
    requires Valid(t)
    ensures var u := Destroyed(t, g);
      && Valid(u)
      && u.roles.Keys == t.roles.Keys
      && (forall r :: r in u.roles ==> u.roles[r].groupId != Some(g))
      && (forall r :: r in t.roles && t.roles[r].groupId != Some(g) ==> u.roles[r] == t.roles[r])
      && g !in u.groups
      && (forall h :: h != g ==> (h in u.groups <==> h in t.groups))
  {
  }

  /** The former roles of a destroyed group are listed among the ungrouped
      roles, next to the roles that were ungrouped before. */
  lemma {:induction false} DestroyedRolesBecomeUngrouped(t: Tables, g: GroupId)
    requires Valid(t) && g in t.groups
    ensures Valid(Destroyed(t, g))
    ensures forall r :: r in UngroupedRoles(Destroyed(t, g)) <==> r in UngroupedRoles(t) || r in GroupRoles(t, g)
  {
    DestroyedUngroups(t, g);
    var u := Destroyed(t, g);
    forall r
      ensures r in UngroupedRoles(u) <==> r in UngroupedRoles(t) || r in GroupRoles(t, g)
    {
      if r in t.roles {
        if t.roles[r].groupId == Some(g) {
          assert GroupOf(u, r).None?;
        } else {
          assert GroupOf(u, r) == GroupOf(t, r);
        }
      }
    }
  }

  /** The tables as the bot's database holds them. */
  class Database {
    var roles: map<RoleId, AssignableRole>
    var roleOrder: seq<RoleId>
    var groups: map<GroupId, RoleGroup>
    var groupOrder: seq<GroupId>

    function Contents(): Tables
      reads this
    {
      Tables(roles, roleOrder, groups, groupOrder)
    }

    constructor (t: Tables)
      ensures Contents() == t
    {
      roles, roleOrder, groups, groupOrder := t.roles, t.roleOrder, t.groups, t.groupOrder;
    }

    /** `AssignableRoleGroup#destroy`. */
    method DestroyGroup(g: GroupId)
      requires Valid(Contents())
      modifies this
      ensures Contents() == Destroyed(old(Contents()), g)
      ensures Valid(Contents())
    {
      DestroyedUngroups(Contents(), g);
      roles := Ungroup(roles, g);
      groups := groups - {g};
      groupOrder := Without(groupOrder, g);
    }
  }
}
