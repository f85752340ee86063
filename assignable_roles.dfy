/** The AssignableRoles crystal (app/main/assignable_roles.rb): the `!<key>`
    role toggle, the `!roles` pager's selection, the embed's choice of group,
    the validators of the edit prompts, and the exclusivity toggle. */
module AssignableRoles {
  import opened Common
  import opened RoleModels
  import UserPrompts
  import ReactionControls

  /** `AssignableRole[key: k]` and `AssignableRoleGroup[key: k]`: the first
      row, in table order, whose key is `k`. */
  function FindRole(t: Tables, key: string): (r: Option<RoleId>)
    requires Valid(t)
    ensures r.Some? ==> r.value in t.roles && t.roles[r.value].key == key
    ensures r.None? ==> forall id :: id in t.roles ==> t.roles[id].key != key
  {
    FindRoleIn(t, t.roleOrder, key)
  }

  function FindRoleIn(t: Tables, order: seq<RoleId>, key: string): (r: Option<RoleId>)
    requires forall i :: 0 <= i < |order| ==> order[i] in t.roles
    ensures r.Some? ==> r.value in order && r.value in t.roles && t.roles[r.value].key == key
    ensures r.None? ==> forall id :: id in order ==> t.roles[id].key != key
  {
    if order == [] then None
    else if t.roles[order[0]].key == key then Some(order[0])
    else FindRoleIn(t, order[1..], key)
  }

  /** The position in `order` of the first group whose key is `key`
      (`find_index`). */
  function GroupIndex(t: Tables, order: seq<GroupId>, key: string): (r: Option<nat>)
    requires forall i :: 0 <= i < |order| ==> order[i] in t.groups
    ensures r.Some? ==> r.value < |order| && t.groups[order[r.value]].key == key
    ensures r.Some? ==> forall k :: 0 <= k < r.value ==> t.groups[order[k]].key != key
    ensures r.None? ==> forall g :: g in order ==> t.groups[g].key != key
  {
    if order == [] then None
    else if t.groups[order[0]].key == key then Some(0)
    else
      var rest := GroupIndex(t, order[1..], key);
      if rest.Some? then Some(rest.value + 1) else None
  }

  predicate HasGroupKey(t: Tables, key: string)
    requires Valid(t)
  {
    GroupIndex(t, t.groupOrder, key).Some?
  }

  // ---------------------------------------------------------------------------
  // The `!<key>` handler

  /** A member's roles on the server, changed through the three calls the
      handler uses. */
  class Member {
    var roles: set<RoleId>

    constructor (held: set<RoleId>)
      ensures roles == held
    {
      roles := held;
    }

    method AddRole(r: RoleId)
      modifies this
      ensures roles == old(roles) + {r}
    {
      roles := roles + {r};
    }

    method RemoveRole(r: RoleId)
      modifies this
      ensures roles == old(roles) - {r}
    {
      roles := roles - {r};
    }

    /** `modify_roles(add, remove)`: the old roles, minus `remove`, plus `add`. */
    method ModifyRoles(add: set<RoleId>, remove: set<RoleId>)
      modifies this
      ensures roles == old(roles) - remove + add
    {
      roles := roles - remove + add;
    }
  }

  datatype Reply =
    | RoleRemoved(role: RoleId)
    | RoleGivenExclusive(role: RoleId, group: GroupId)
    | RoleGiven(role: RoleId)

  datatype Toggled = Toggled(roles: set<RoleId>, reply: Option<Reply>)

  /** The role a message names: the text after `!` must equal a role's key. */
  function NamedRole(t: Tables, content: string): (r: Option<RoleId>)
    requires Valid(t)
    ensures r.Some? ==> |content| >= 1 && content[0] == '!' && r.value in t.roles && t.roles[r.value].key == content[1..]
    ensures r.None? && |content| >= 1 && content[0] == '!' ==> forall id :: id in t.roles ==> t.roles[id].key != content[1..]
  {
    if |content| >= 1 && content[0] == '!' then FindRole(t, content[1..]) else None
  }

  /** The other roles of an exclusive group that a newly given role displaces. */
  function Displaced(t: Tables, r: RoleId): set<RoleId>
    requires Valid(t) && r in t.roles
  {
    var g := GroupOf(t, r);
    if g.Some? && t.groups[g.value].isExclusive then (set x | x in GroupRoles(t, g.value)) - {r} else {}
  }

  /** What the handler does to the roles of the member who wrote `content`. */
  function Toggle(t: Tables, held: set<RoleId>, content: string): (o: Toggled)
    requires Valid(t)
    // nothing happens unless the text after `!` is a role's key
    ensures NamedRole(t, content).None? ==> o == Toggled(held, None)
    ensures NamedRole(t, content).Some? ==> o.reply.Some? && o.reply.value.role == NamedRole(t, content).value
    // a held role is removed, and no other role changes
    ensures NamedRole(t, content).Some? && NamedRole(t, content).value in held ==>
      var r := NamedRole(t, content).value;
      && o.reply == Some(RoleRemoved(r))
      && r !in o.roles && forall x :: x != r ==> (x in o.roles <==> x in held)
    // a missing role is given; in an exclusive group, every other role of
    // the group goes, and roles outside the group stay as they were
    ensures NamedRole(t, content).Some? && NamedRole(t, content).value !in held ==>
      var r := NamedRole(t, content).value;
      var g := GroupOf(t, r);
      && r in o.roles
      && (g.Some? && t.groups[g.value].isExclusive ==>
            o.reply == Some(RoleGivenExclusive(r, g.value))
            && (forall x :: x in t.roles && x != r && t.roles[x].groupId == g ==> x !in o.roles)
            && (forall x :: x != r && (x !in t.roles || t.roles[x].groupId != g) ==> (x in o.roles <==> x in held)))
      && (!(g.Some? && t.groups[g.value].isExclusive) ==>
            o.reply == Some(RoleGiven(r)) && forall x :: x != r ==> (x in o.roles <==> x in held))
  {
    var named := NamedRole(t, content);
    if named.None? then Toggled(held, None)
    else
      var r := named.value;
      if r in held then Toggled(held - {r}, Some(RoleRemoved(r)))
      else
        var g := GroupOf(t, r);
        if g.Some? && t.groups[g.value].isExclusive
          then Toggled(held - Displaced(t, r) + {r}, Some(RoleGivenExclusive(r, g.value)))
          else Toggled(held + {r}, Some(RoleGiven(r)))
  }

  /** A member holds at most one role of each exclusive group. */
  ghost predicate ExclusiveRespected(t: Tables, held: set<RoleId>)
    requires Valid(t)
  {
    forall a, b :: a in held && b in held && a in t.roles && b in t.roles && a != b && GroupOf(t, a).Some? && GroupOf(t, a) == GroupOf(t, b)
      ==> !t.groups[GroupOf(t, a).value].isExclusive
  }

  /** The handler never leaves a member with two roles of an exclusive group
      unless they already had two. */
  lemma ToggleRespectsExclusive(t: Tables, held: set<RoleId>, content: string)
    requires Valid(t) && ExclusiveRespected(t, held)
    ensures ExclusiveRespected(t, Toggle(t, held, content).roles)
  {
    var named := NamedRole(t, content);
    if named.Some? && named.value !in held {
      var r := named.value;
      var g := GroupOf(t, r);
      var after := Toggle(t, held, content).roles;
      if g.Some? && t.groups[g.value].isExclusive {
        forall a, b | a in after && b in after && a in t.roles && b in t.roles && a != b && GroupOf(t, a).Some? && GroupOf(t, a) == GroupOf(t, b)
          ensures !t.groups[GroupOf(t, a).value].isExclusive
        {
          assert GroupOf(t, a) != g;
        }
      }
    }
  }

  /** For a role outside any exclusive group, the second `!<key>` undoes the
      first. */
  lemma ToggleTwiceRestores(t: Tables, held: set<RoleId>, content: string)
    requires Valid(t)
    requires NamedRole(t, content).Some? ==>
      var g := GroupOf(t, NamedRole(t, content).value);
      !(g.Some? && t.groups[g.value].isExclusive)
    ensures Toggle(t, Toggle(t, held, content).roles, content).roles == held
  {
  }

  /** The `message start_with: '!'` handler. */
  method HandleRoleMessage(db: RoleModels.Database, member: Member, content: string) returns (reply: Option<Reply>)
    requires Valid(db.Contents())
    modifies member
    ensures Toggled(member.roles, reply) == Toggle(db.Contents(), old(member.roles), content)
  {
    var t := db.Contents();
    if !(|content| >= 1 && content[0] == '!') {
      return None;
    }
    var found := FindRole(t, content[1..]);
    if found.None? {
      return None;
    }
    var r := found.value;
    if r in member.roles {
      member.RemoveRole(r);
      reply := Some(RoleRemoved(r));
    } else {
      var g := GroupOf(t, r);
      if g.Some? && t.groups[g.value].isExclusive {
        var removed := Displaced(t, r);
        member.ModifyRoles({r}, removed);
        reply := Some(RoleGivenExclusive(r, g.value));
      } else {
        member.AddRole(r);
        reply := Some(RoleGiven(r));
      }
    }
  }

  // ---------------------------------------------------------------------------
  // `!roles`: the starting page and the pages of the embed

  datatype RolesError = NoSuchGroup | NilIndex

  /** Lines 90 and 96 as written: the existence check compares the argument
      as typed, the position search compares it downcased. */
  function RolesStartAsWritten(t: Tables, arg: Option<string>): (r: Result<nat, RolesError>)
    requires Valid(t)
    ensures arg.None? ==> r == Ok(0)
    // the existence check: a key equal to the argument as typed
    ensures r == Err(NoSuchGroup) <==>
      arg.Some? && forall g :: g in t.groups ==> t.groups[g].key != arg.value
    // past it, `find_index` with the downcased argument may find nothing
    ensures r == Err(NilIndex) <==>
      && arg.Some? && (exists g :: g in t.groups && t.groups[g].key == arg.value)
      && forall g :: g in t.groups ==> t.groups[g].key != Lower(arg.value)
    ensures arg.Some? && r.Ok? ==>
      && 1 <= r.value <= |t.groupOrder|
      && t.groups[t.groupOrder[r.value - 1]].key == Lower(arg.value)
      && forall k :: 0 <= k < r.value - 1 ==> t.groups[t.groupOrder[k]].key != Lower(arg.value)
  {
    if arg.None? then Ok(0)
    else if !HasGroupKey(t, arg.value) then
      assert forall g :: g in t.groups ==> t.groups[g].key != arg.value;
      Err(NoSuchGroup)
    else
      var w := t.groupOrder[GroupIndex(t, t.groupOrder, arg.value).value];
      assert w in t.groups && t.groups[w].key == arg.value;
      var i := GroupIndex(t, t.groupOrder, Lower(arg.value));
      if i.None? then
        assert forall g :: g in t.groups ==> t.groups[g].key != Lower(arg.value);
        Err(NilIndex)
      else
        var g := t.groupOrder[i.value];
        assert g in t.groups && t.groups[g].key == Lower(arg.value);
        Ok(i.value + 1)
  }

  /** A group whose key is stored in lower case, as every command stores it,
      is not found when the argument has a capital letter, although the
      position search downcases it. */
  lemma RolesStartRejectsCapitals()
    ensures var t := Tables(map[], [], map[5 := RoleGroup("colors", "Colors", None, false)], [5]);
      Valid(t) && RolesStartAsWritten(t, Some("Colors")) == Err(NoSuchGroup)
  {
    var t := Tables(map[], [], map[5 := RoleGroup("colors", "Colors", None, false)], [5]);
    assert Valid(t) by {
      assert t.groupOrder[0] == 5;
    }
    assert "colors"[0] != "Colors"[0];
    assert GroupIndex(t, [5], "Colors") == None;
  }

  /** The same group is found under its exact key. */
  lemma RolesStartFindsExactKey()
    ensures var t := Tables(map[], [], map[5 := RoleGroup("colors", "Colors", None, false)], [5]);
      Valid(t) && RolesStartAsWritten(t, Some("colors")) == Ok(1)
  {
    var t := Tables(map[], [], map[5 := RoleGroup("colors", "Colors", None, false)], [5]);
    assert Valid(t) by {
      assert t.groupOrder[0] == 5;
    }
    assert GroupIndex(t, [5], "colors") == Some(0);
    LowerUnchanged("colors");
    assert HasGroupKey(t, "colors");
    assert RolesStartAsWritten(t, Some("colors")) == Ok(1);
  }

  /** A group whose key has a capital letter passes the existence check
      under that key, but the downcased search finds no group, and
      `nil + 1` raises. */
  lemma RolesStartCapitalKeyRaises()
    ensures var t := Tables(map[], [], map[5 := RoleGroup("Colors", "Colors", None, false)], [5]);
      Valid(t) && RolesStartAsWritten(t, Some("Colors")) == Err(NilIndex)
  {
    var t := Tables(map[], [], map[5 := RoleGroup("Colors", "Colors", None, false)], [5]);
    assert Valid(t) by {
      assert t.groupOrder[0] == 5;
    }
    assert GroupIndex(t, [5], "Colors") == Some(0);
    assert Lower("Colors")[0] == 'c';
    assert GroupIndex(t, [5], Lower("Colors")) == None;
  }

  /** The starting page of `!roles`, with the argument downcased for the
      existence check as for the position search: page 0 without an
      argument, else 1 + the position of the first group whose key is the
      downcased argument. */
  function RolesStart(t: Tables, arg: Option<string>): (r: Result<nat, RolesError>)
    requires Valid(t)
    ensures arg.None? ==> r == Ok(0)
    ensures arg.Some? ==> (r.Ok? <==> exists g :: g in t.groups && t.groups[g].key == Lower(arg.value))
    ensures arg.Some? && r.Ok? ==>
      && 1 <= r.value <= |t.groupOrder|
      && t.groups[t.groupOrder[r.value - 1]].key == Lower(arg.value)
      && forall k :: 0 <= k < r.value - 1 ==> t.groups[t.groupOrder[k]].key != Lower(arg.value)
    ensures r.Err? ==> r.error == NoSuchGroup
  {
    if arg.None? then Ok(0)
    else
      var i := GroupIndex(t, t.groupOrder, Lower(arg.value));
      if i.None? then
        assert forall g :: g in t.groups ==> t.groups[g].key != Lower(arg.value);
        Err(NoSuchGroup)
      else
        var g := t.groupOrder[i.value];
        assert g in t.groups && t.groups[g].key == Lower(arg.value);
        Ok(i.value + 1)
  }

  /** The pager of `!roles` runs over `0..groups.size`, and its starting page
      always lies in that range, so it never raises for the starting index. */
  lemma RolesPagerStarts(t: Tables, arg: Option<string>, m: ReactionControls.MessageId,
                         u: ReactionControls.UserId, events: seq<ReactionControls.Await>)
    requires Valid(t)
    requires RolesStart(t, arg).Ok?
    ensures var s := ReactionControls.Session(m, u, 0, |t.groupOrder|);
      ReactionControls.Controls(true, s, RolesStart(t, arg).value, events).Finished?
  {
  }

  /** Where the code as written yields a page, it is the corrected page. */
  lemma RolesStartAgrees(t: Tables, arg: Option<string>)
    requires Valid(t)
    requires RolesStartAsWritten(t, arg).Ok?
    ensures RolesStart(t, arg) == RolesStartAsWritten(t, arg)
  {
  }

  /** Hence the pager also accepts every page the code as written yields. */
  lemma RolesPagerStartsAsWritten(t: Tables, arg: Option<string>, m: ReactionControls.MessageId,
                                  u: ReactionControls.UserId, events: seq<ReactionControls.Await>)
    requires Valid(t)
    requires RolesStartAsWritten(t, arg).Ok?
    ensures var s := ReactionControls.Session(m, u, 0, |t.groupOrder|);
      ReactionControls.Controls(true, s, RolesStartAsWritten(t, arg).value, events).Finished?
  {
    RolesStartAgrees(t, arg);
    RolesPagerStarts(t, arg, m, u, events);
  }

  /** What `generate_embed(index)` shows. */
  datatype Page =
    | GroupPage(group: GroupId, roles: seq<RoleId>)
    | UngroupedPage(roles: seq<RoleId>)
    | NoGroupAtIndex

  function EmbedPage(t: Tables, index: int): (p: Page)
    requires Valid(t)
    // page 0 lists exactly the roles without a group
    ensures index <= 0 ==> p.UngroupedPage? && forall r :: r in p.roles <==> r in t.roles && GroupOf(t, r).None?
    // page i > 0 shows group i - 1 with exactly its roles
    ensures 0 < index <= |t.groupOrder| ==>
      && p.GroupPage? && p.group == t.groupOrder[index - 1]
      && forall r :: r in p.roles <==> r in t.roles && t.roles[r].groupId == Some(p.group)
    ensures index > |t.groupOrder| ==> p.NoGroupAtIndex?
  {
    if index > 0 then
      if index - 1 < |t.groupOrder| then
        var g := t.groupOrder[index - 1];
        GroupPage(g, GroupRoles(t, g))
      else NoGroupAtIndex
    else UngroupedPage(UngroupedRoles(t))
  }

  /** Every page the pager can reach exists. */
  lemma PagerPagesExist(t: Tables, index: int)
    requires Valid(t)
    requires 0 <= index <= |t.groupOrder|
    ensures !EmbedPage(t, index).NoGroupAtIndex?
  {
  }

  // ---------------------------------------------------------------------------
  // The validators of the edit prompts

  /** `'<options>'.include?(msg.content[0].downcase)`: an empty message has
      no first character, and the call on nil raises. */
  function OptionVerdict(options: string, content: string): (v: UserPrompts.Verdict)
    ensures content == [] <==> v == UserPrompts.Raise
    ensures v == UserPrompts.Accept <==> content != [] && LowerChar(content[0]) in options
  {
    if content == [] then UserPrompts.Raise
    else if LowerChar(content[0]) in options then UserPrompts.Accept
    else UserPrompts.Reject
  }

  /** Line 242: key, description or group. */
  function EditRoleChoice(content: string): (v: UserPrompts.Verdict)
    ensures v == UserPrompts.Accept <==> content != [] && LowerChar(content[0]) in {'k', 'd', 'g'}
  {
    OptionVerdict("kdg", content)
  }

  /** Line 436: key, name, description or exclusivity. */
  function EditGroupChoice(content: string): (v: UserPrompts.Verdict)
    ensures v == UserPrompts.Accept <==> content != [] && LowerChar(content[0]) in {'k', 'n', 'd', 'e'}
  {
    OptionVerdict("knde", content)
  }

  /** Line 396: yes or no. */
  function ExclusiveChoice(content: string): (v: UserPrompts.Verdict)
    ensures v == UserPrompts.Accept <==> content != [] && LowerChar(content[0]) in {'y', 'n'}
  {
    OptionVerdict("yn", content)
  }

  /** Line 397: an accepted answer makes the group exclusive exactly when it
      is a yes; otherwise it is a no. */
  function IsExclusiveAnswer(content: string): (b: bool)
    requires ExclusiveChoice(content) == UserPrompts.Accept
    ensures b <==> LowerChar(content[0]) == 'y'
    ensures !b ==> LowerChar(content[0]) == 'n'
  {
    LowerChar(content[0]) == 'y'
  }

  /** `\w` in a Ruby regular expression: an ASCII letter, digit or underscore. */
  predicate IsWordChar(c: char)
  {
    'a' <= c <= 'z' || 'A' <= c <= 'Z' || '0' <= c <= '9' || c == '_'
  }

  /** Lines 253-258 and 447-453: a key with a character matching `/\W/` is
      rejected with a notice; a key that is already taken once downcased
      (`taken` says whether it is) gets a notice sent through `send_temp`
      without its required duration argument, which raises; any other key is
      accepted. */
  function NewKeyVerdict(content: string, taken: bool): (v: UserPrompts.Verdict)
    ensures v == UserPrompts.Reject <==> exists i :: 0 <= i < |content| && !IsWordChar(content[i])
    ensures v == UserPrompts.Raise <==> (forall i :: 0 <= i < |content| ==> IsWordChar(content[i])) && taken
    ensures v == UserPrompts.Accept <==> (forall i :: 0 <= i < |content| ==> IsWordChar(content[i])) && !taken
  {
    if exists i :: 0 <= i < |content| && !IsWordChar(content[i]) then UserPrompts.Reject
    else if taken then UserPrompts.Raise
    else UserPrompts.Accept
  }

  /** The validator of the new role key (lines 252-260). */
  function NewRoleKeyVerdict(t: Tables, content: string): (v: UserPrompts.Verdict)
    requires Valid(t)
    ensures v == UserPrompts.Accept <==>
      (forall i :: 0 <= i < |content| ==> IsWordChar(content[i]))
      && forall id :: id in t.roles ==> t.roles[id].key != Lower(content)
    ensures v == UserPrompts.Raise <==>
      (forall i :: 0 <= i < |content| ==> IsWordChar(content[i]))
      && exists id :: id in t.roles && t.roles[id].key == Lower(content)
  {
    var found := FindRole(t, Lower(content));
    assert (forall id :: id in t.roles ==> t.roles[id].key != Lower(content)) ==> found.None?;
    NewKeyVerdict(content, found.Some?)
  }

  /** The validator of the new group key (lines 446-454). */
  function NewGroupKeyVerdict(t: Tables, content: string): (v: UserPrompts.Verdict)
    requires Valid(t)
    ensures v == UserPrompts.Accept <==>
      (forall i :: 0 <= i < |content| ==> IsWordChar(content[i]))
      && forall g :: g in t.groups ==> t.groups[g].key != Lower(content)
    ensures v == UserPrompts.Raise <==>
      (forall i :: 0 <= i < |content| ==> IsWordChar(content[i]))
      && exists g :: g in t.groups && t.groups[g].key == Lower(content)
  {
    var found := GroupIndex(t, t.groupOrder, Lower(content));
    assert found.Some? ==> t.groupOrder[found.value] in t.groups;
    assert (forall g :: g in t.groups ==> t.groups[g].key != Lower(content)) ==> found.None?;
    NewKeyVerdict(content, found.Some?)
  }

  // ---------------------------------------------------------------------------
  // Line 507: `group.is_exclusive = !group.is_exclusive`, then `save`

  function FlippedExclusive(t: Tables, g: GroupId): (u: Tables)
    requires g in t.groups
    ensures u.roles == t.roles && u.roleOrder == t.roleOrder && u.groupOrder == t.groupOrder
    ensures u.groups.Keys == t.groups.Keys
    ensures u.groups[g].isExclusive == !t.groups[g].isExclusive
    ensures u.groups[g] == t.groups[g].(isExclusive := u.groups[g].isExclusive)
    ensures forall h :: h in t.groups && h != g ==> u.groups[h] == t.groups[h]
  {
    t.(groups := t.groups[g := t.groups[g].(isExclusive := !t.groups[g].isExclusive)])
  }

  /** Toggling twice restores the tables. */
  lemma FlipTwice(t: Tables, g: GroupId)
    requires g in t.groups
    ensures FlippedExclusive(FlippedExclusive(t, g), g) == t
  {
    var u := FlippedExclusive(FlippedExclusive(t, g), g);
    assert u.groups == t.groups;
  }

  method ToggleExclusive(db: RoleModels.Database, g: GroupId)
    requires g in db.groups
    modifies db
    ensures db.Contents() == FlippedExclusive(old(db.Contents()), g)
  {
    var group := db.groups[g];
    group := group.(isExclusive := !group.isExclusive);
    db.groups := db.groups[g := group];
  }
}
