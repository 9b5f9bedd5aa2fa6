/** What role and permission requests do to each other, and who can make whom a super user. */
module RbacLaws {
  import opened Core
  import opened Rbac
  import opened RbacInvariant
  import Ability
  import opened MongoQuery

  // ----- undoing -----

  /** A new action is unused, and deleting it again leaves the matrix as it was. */
  lemma CreateThenDelete(s: Matrix, name: string)
    requires Inv(s) && CreateAction(s, name).reply.Done?
    ensures var t := CreateAction(s, name).matrix; DeleteAction(t, s.issued) == Outcome(s.(issued := t.issued), Done)
  {
    hide NamesOk;
    var t := CreateAction(s, name).matrix;
    assert t.actions - {s.issued} == s.actions;
    assert forall p :: p in s.permissions ==> s.permissions[p].action in s.actions;
    assert WithoutAction(t.permissions, s.issued) == s.permissions;
    assert forall g :: g in s.grants ==> g.permission in s.permissions;
    assert !InUse(t, s.issued);
  }

  lemma {:induction false} FilterAll<T(!new)>(rows: seq<T>, keep: T -> bool)
    requires forall x :: x in rows ==> keep(x)
    ensures Filter(rows, keep) == rows
  {
    hide Filter;
    if rows == [] {
      FilterEmpty(keep);
    } else {
      var init, last := rows[..|rows| - 1], rows[|rows| - 1];
      assert rows == init + [last] && last in rows;
      FilterAll(init, keep);
      FilterSnoc(init, last, keep);
    }
  }

  lemma {:induction false} FilterNone<T(!new)>(rows: seq<T>, keep: T -> bool)
    requires forall x :: x in rows ==> !keep(x)
    ensures Filter(rows, keep) == []
  {
    hide Filter;
    if rows == [] {
      FilterEmpty(keep);
    } else {
      var init, last := rows[..|rows| - 1], rows[|rows| - 1];
      assert rows == init + [last] && last in rows;
      FilterNone(init, keep);
      FilterSnoc(init, last, keep);
    }
  }

  lemma {:induction false} FilterConcat<T(!new)>(a: seq<T>, b: seq<T>, keep: T -> bool)
    ensures Filter(a + b, keep) == Filter(a, keep) + Filter(b, keep)
  {
    hide Filter;
    if b == [] {
      assert a + b == a && Filter(b, keep) == [] by {
        FilterEmpty(keep);
      }
    } else {
      var init, last := b[..|b| - 1], b[|b| - 1];
      assert b == init + [last];
      FilterConcat(a, init, keep);
      FilterSnoc(init, last, keep);
      FilterSnoc(a + init, last, keep);
      assert a + b == (a + init) + [last];
      ConcatAssociates(Filter(a, keep), Filter(init, keep), if keep(last) then [last] else []);
    }
  }

  lemma ConcatAssociates<T>(a: seq<T>, b: seq<T>, c: seq<T>)
    ensures (a + b) + c == a + (b + c)
  {
  }

  lemma FilterEmpty<T(!new)>(keep: T -> bool)
    ensures Filter([], keep) == []
  {
  }

  lemma FilterSnoc<T(!new)>(rows: seq<T>, last: T, keep: T -> bool)
    ensures Filter(rows + [last], keep) == Filter(rows, keep) + if keep(last) then [last] else []
  {
    assert (rows + [last])[..|rows|] == rows;
  }

  /** Removing a permission undoes assigning it. */
  lemma AssignThenRemove(s: Matrix, actor: nat, role: nat, permission: nat, conditions: Option<Condition>)
    requires AssignPermissions(s, actor, role, [permission], conditions).reply.Done?
    ensures RemovePermission(AssignPermissions(s, actor, role, [permission], conditions).matrix, actor, role,
            permission) == Outcome(s, Done)
  {
    hide AssignPermissions, Filter, IsSuper, Granted;
    var t := AssignPermissions(s, actor, role, [permission], conditions).matrix;
    var other := (g: Grant) => !(g.role == role && g.permission == permission);
    var added := [Grant(role, permission, conditions)];
    AssignedOne(s, actor, role, permission, conditions);
    FilterConcat(s.grants, added, other);
    NotGranted(s, role, permission);
    FilterAll(s.grants, other);
    FilterNone(added, other);
    SameHolders(s, t, actor);
  }

  lemma AssignedOne(s: Matrix, actor: nat, role: nat, permission: nat, conditions: Option<Condition>)
    requires AssignPermissions(s, actor, role, [permission], conditions).reply.Done?
    ensures AssignPermissions(s, actor, role, [permission], conditions).matrix ==
            s.(grants := s.grants + [Grant(role, permission, conditions)])
    ensures role in s.roles && (s.roles[role].isSystem ==> IsSuper(s, actor)) && !Granted(s, role, permission)
  {
    hide IsSuper, Shaped, DeadOnArrival, Granted;
    assert [permission][0] == permission;
    var t := AssignPermissions(s, actor, role, [permission], conditions).matrix;
    assert t.grants == s.grants + [Grant(role, permission, conditions)];
  }

  lemma NotGranted(s: Matrix, role: nat, permission: nat)
    requires !Granted(s, role, permission)
    ensures forall g :: g in s.grants ==> !(g.role == role && g.permission == permission)
  {
  }

  lemma SameHolders(s: Matrix, t: Matrix, user: nat)
    requires t == s.(grants := t.grants)
    ensures IsSuper(t, user) <==> IsSuper(s, user)
  {
    assert forall r :: r in s.roles ==> (Holds(t, user, s.roles[r].name) <==> Holds(s, user, s.roles[r].name));
  }

  /** Taking a role away undoes giving it - to another user or to oneself. */
  lemma AssignRoleThenUnassign(s: Matrix, actor: nat, user: nat, role: nat)
    requires AssignRole(s, actor, user, role).reply.Done?
    ensures UnassignRole(AssignRole(s, actor, user, role).matrix, actor, user, role) == Outcome(s, Done)
  {
    var t := AssignRole(s, actor, user, role).matrix;
    var name := s.roles[role].name;
    var other := (r: string) => r != name;
    FilterConcat(s.members[user].roles, [name], other);
    FilterAll(s.members[user].roles, other);
    FilterNone([name], other);
    assert Unnamed(t.members[user], name) == s.members[user];
    assert t.members[user := s.members[user]] == s.members;
    assert forall r :: r in s.roles && Holds(s, actor, s.roles[r].name) ==> Holds(t, actor, s.roles[r].name);
    assert IsSuper(s, actor) ==> IsSuper(t, actor);
    hide Filter, IsSuper;
  }

  // ----- replacing -----

  /** Replacing gives the role exactly the requested grants, in order, and leaves every other role's alone. */
  lemma SetIsExact(s: Matrix, actor: nat, role: nat, items: seq<Item>)
    requires SetPermissions(s, actor, role, items).reply.Done?
    ensures var t := SetPermissions(s, actor, role, items).matrix;
            GrantsOf(t.grants, role, true) == Pushed([], role, items) &&
              GrantsOf(t.grants, role, false) == GrantsOf(s.grants, role, false)
  {
    hide SetPermissions, Filter, Pushed;
    var t := SetPermissions(s, actor, role, items).matrix;
    var others, own := GrantsOf(s.grants, role, false), Pushed([], role, items);
    SetWrites(s, actor, role, items);
    PushedOwn(role, items);
    NoneOf(s.grants, role);
    var mine, theirs := (g: Grant) => (g.role == role) == true, (g: Grant) => (g.role == role) == false;
    FilterConcat(others, own, mine);
    FilterNone(others, mine);
    FilterAll(own, mine);
    FilterConcat(others, own, theirs);
    FilterAll(others, theirs);
    FilterNone(own, theirs);
    assert [] + own == own && others + [] == others;
  }

  lemma SetWrites(s: Matrix, actor: nat, role: nat, items: seq<Item>)
    requires SetPermissions(s, actor, role, items).reply.Done?
    ensures SetPermissions(s, actor, role, items).matrix.grants ==
            GrantsOf(s.grants, role, false) + Pushed([], role, items)
  {
    hide Shaped, GrantRefusal, GrantsOf;
  }

  lemma PushedOwn(role: nat, items: seq<Item>)
    ensures forall g :: g in Pushed([], role, items) ==> g.role == role
  {
  }

  // ----- pairs -----

  ghost predicate PairsUnique(grants: seq<Grant>) {
    forall i, j :: 0 <= i < j < |grants| ==>
      !(grants[i].role == grants[j].role && grants[i].permission == grants[j].permission)
  }

  ghost predicate DistinctItems(items: seq<Item>) {
    forall i, j :: 0 <= i < j < |items| ==> items[i].permission != items[j].permission
  }

  lemma PushedPairs(kept: seq<Grant>, role: nat, items: seq<Item>)
    requires PairsUnique(kept)
    requires forall g, i :: g in kept && 0 <= i < |items| ==> !(g.role == role && g.permission == items[i].permission)
    ensures PairsUnique(Pushed(kept, role, items)) <==> DistinctItems(items)
  {
    var r := Pushed(kept, role, items);
    if PairsUnique(r) {
      forall i, j | 0 <= i < j < |items|
        ensures items[i].permission != items[j].permission
      {
        assert r[|kept| + i].permission == items[i].permission && r[|kept| + j].permission == items[j].permission;
      }
    }
    if DistinctItems(items) {
      forall i, j | 0 <= i < j < |r|
        ensures !(r[i].role == r[j].role && r[i].permission == r[j].permission)
      {
        if j >= |kept| {
          assert r[j] == Grant(role, items[j - |kept|].permission, items[j - |kept|].conditions);
          if i < |kept| {
            assert kept[i] in kept && r[i] == kept[i];
          } else {
            assert r[i] == Grant(role, items[i - |kept|].permission, items[i - |kept|].conditions);
          }
        }
      }
    }
  }

  lemma {:induction false} FilteredPairs(grants: seq<Grant>, keep: Grant -> bool)
    requires PairsUnique(grants)
    ensures PairsUnique(Filter(grants, keep))
  {
    if grants != [] {
      var last := |grants| - 1;
      var init := Filter(grants[..last], keep);
      FilteredPairs(grants[..last], keep);
      forall i | 0 <= i < |init|
        ensures !(init[i].role == grants[last].role && init[i].permission == grants[last].permission)
      {
        assert init[i] in grants[..last];
      }
    }
  }

  /** The permissions one request names. */
  function Named(op: Op): seq<Item> {
    match op
    case OpSetPermissions(_, items) => items
    case OpAssignPermissions(_, permissions, conditions) => Items(permissions, conditions)
    case _ => []
  }

  /** The guards of a request to grant: the shape of the items, then the actor, the role and every permission. */
  ghost predicate MayGrant(s: Matrix, actor: nat, role: nat, items: seq<Item>) {
    && Barred(s, actor).None? && |items| <= 500
    && role in s.roles && (s.roles[role].isSystem ==> IsSuper(s, actor))
    && forall i :: 0 <= i < |items| ==>
         Shaped(items[i].conditions) && items[i].permission in s.permissions && !DeadOnArrival(s, items[i])
  }

  /** The request gets through its guards and writes grants. */
  ghost predicate WritesGrants(s: Matrix, actor: nat, op: Op) {
    match op
    case OpSetPermissions(id, items) => MayGrant(s, actor, id, items)
    case OpAssignPermissions(id, permissions, conditions) =>
      && permissions != [] && Shaped(conditions) && MayGrant(s, actor, id, Items(permissions, conditions))
      && forall i :: 0 <= i < |permissions| ==> !Granted(s, id, permissions[i])
    case _ => false
  }

  lemma GrantsAccepted(s: Matrix, actor: nat, op: Op)
    requires op.OpSetPermissions? || op.OpAssignPermissions?
    ensures Step(s, actor, op).reply.Done? <==> WritesGrants(s, actor, op)
  {
    hide Shaped, IsSuper, DeadOnArrival, Granted, Pushed, GrantsOf;
    if op.OpAssignPermissions? {
      var items := Items(op.permissions, op.conditions);
      assert op.permissions != [] ==> items[0].conditions == op.conditions;
    }
  }

  /** Pairs stay unique if and only if a request that gets through its guards names no permission twice. */
  lemma PairsStayUniqueIff(s: Matrix, actor: nat, op: Op)
    requires PairsUnique(s.grants)
    ensures PairsUnique(Step(s, actor, op).matrix.grants) <==> (WritesGrants(s, actor, op) ==> DistinctItems(Named(op)))
  {
    hide WritesGrants, Step, PairsUnique, DistinctItems, Named;
    if op.OpSetPermissions? || op.OpAssignPermissions? {
      GrantsAccepted(s, actor, op);
    }
    PairsAfter(s, actor, op);
    if !op.OpSetPermissions? && !op.OpAssignPermissions? {
      NothingNamed(s, actor, op);
    }
  }

  lemma NothingNamed(s: Matrix, actor: nat, op: Op)
    requires !op.OpSetPermissions? && !op.OpAssignPermissions?
    ensures !WritesGrants(s, actor, op) && DistinctItems(Named(op))
  {
  }

  lemma PairsAfterGrants(s: Matrix, actor: nat, op: Op)
    requires PairsUnique(s.grants) && (op.OpSetPermissions? || op.OpAssignPermissions?)
    ensures var o := Step(s, actor, op); PairsUnique(o.matrix.grants) <==> (o.reply.Done? ==> DistinctItems(Named(op)))
  {
    hide Shaped, GrantRefusal, IsSuper, PairsUnique, Pushed, Filter, DistinctItems;
    if Step(s, actor, op).reply.Done? {
      match op
      case OpSetPermissions(id, items) =>
        FilteredPairs(s.grants, (g: Grant) => (g.role == id) == false);
        NoneOf(s.grants, id);
        PushedPairs(GrantsOf(s.grants, id, false), id, items);
      case OpAssignPermissions(id, permissions, conditions) =>
        assert forall i :: 0 <= i < |permissions| ==> !Granted(s, id, permissions[i]);
        PushedPairs(s.grants, id, Items(permissions, conditions));
    }
  }

  lemma PairsAfter(s: Matrix, actor: nat, op: Op)
    requires PairsUnique(s.grants)
    ensures var o := Step(s, actor, op); PairsUnique(o.matrix.grants) <==> (o.reply.Done? ==> DistinctItems(Named(op)))
  {
    hide IsSuper, PairsUnique, Filter, SetPermissions, AssignPermissions, Stripped, FanOut;
    match op
    case OpSetPermissions(_, _) => PairsAfterGrants(s, actor, op);
    case OpAssignPermissions(_, _, _) => PairsAfterGrants(s, actor, op);
    case OpRemovePermission(id, permission) =>
      FilteredPairs(s.grants, (g: Grant) => !(g.role == id && g.permission == permission));
    case OpDeleteRole(id) =>
      FilteredPairs(s.grants, (g: Grant) => (g.role == id) == false);
    case _ =>
  }

  lemma NoneOf(grants: seq<Grant>, role: nat)
    ensures forall g :: g in GrantsOf(grants, role, false) ==> g.role != role
  {
  }

  // ----- names users hold -----

  /** Every role name a user holds is the name of a role. */
  ghost predicate NamesHeld(s: Matrix) {
    forall u, name :: 0 <= u < |s.members| && name in s.members[u].roles ==> RoleNamed(s, name)
  }

  predicate HeldBySome(s: Matrix, name: string) {
    exists u :: 0 <= u < |s.members| && name in s.members[u].roles
  }

  /** The guards of a rename, and that it gives the role another name. */
  predicate MayRename(s: Matrix, actor: nat, id: nat, name: string, setsSuper: bool) {
    && Barred(s, actor).None? && !setsSuper && !BadRoleName(name)
    && id in s.roles && !s.roles[id].isSystem && name != s.roles[id].name && !RoleNamed(s, name)
  }

  /** The request gets through its guards and renames a role whose present name somebody holds. */
  predicate Strands(s: Matrix, actor: nat, op: Op) {
    op.OpRenameRole? && MayRename(s, actor, op.id, op.name, op.setsSuper) && HeldBySome(s, s.roles[op.id].name)
  }

  lemma RenameHeld(s: Matrix, id: nat, name: string)
    requires Inv(s) && NamesHeld(s) && id in s.roles && !RoleNamed(s, name)
    ensures NamesHeld(s.(roles := s.roles[id := s.roles[id].(name := name)])) <==> !HeldBySome(s, s.roles[id].name)
  {
    var t := s.(roles := s.roles[id := s.roles[id].(name := name)]);
    var former := s.roles[id].name;
    assert !RoleNamed(t, former);
    if HeldBySome(s, former) {
      var u :| 0 <= u < |s.members| && former in s.members[u].roles;
      assert former in t.members[u].roles;
    } else {
      forall u, n | 0 <= u < |t.members| && n in t.members[u].roles
        ensures RoleNamed(t, n)
      {
        assert RoleNamed(s, n);
        var r :| r in s.roles && s.roles[r].name == n;
        assert n != former && r != id && t.roles[r].name == n;
      }
    }
  }

  /** Nobody holds the name of a role that has just been deleted. */
  lemma DeleteUnholds(s: Matrix, id: nat)
    requires DeleteRole(s, id).reply.Done?
    ensures !HeldBySome(DeleteRole(s, id).matrix, s.roles[id].name)
  {
  }

  lemma DeleteHeld(s: Matrix, id: nat)
    requires NamesHeld(s)
    ensures NamesHeld(DeleteRole(s, id).matrix)
  {
    var t := DeleteRole(s, id).matrix;
    if DeleteRole(s, id).reply.Done? {
      forall u, n | 0 <= u < |t.members| && n in t.members[u].roles
        ensures n != s.roles[id].name && RoleNamed(t, n)
      {
        assert RoleNamed(s, n);
        var r :| r in s.roles && s.roles[r].name == n;
        assert r in t.roles;
      }
    }
  }

  lemma OthersHeld(s: Matrix, actor: nat, op: Op)
    requires IdsOk(s) && NamesHeld(s) && !op.OpRenameRole? && !op.OpDeleteRole?
    ensures NamesHeld(Step(s, actor, op).matrix)
  {
    var t := Step(s, actor, op).matrix;
    NamesGiven(s, actor, op);
    assert s.issued !in s.roles;
    hide IdsOk, IsSuper, GrantRefusal, GrantsOf, FanOut;
    assert forall r :: r in s.roles ==> r in t.roles && t.roles[r] == s.roles[r];
    assert forall name :: RoleNamed(s, name) ==> RoleNamed(t, name);
    hide Step;
  }

  /**
   Every name a user holds stays the name of a role, unless a request renames a role that somebody holds - and then it
   does not.
   */
  lemma NamesStayHeldIff(s: Matrix, actor: nat, op: Op)
    requires Inv(s) && NamesHeld(s)
    ensures NamesHeld(Step(s, actor, op).matrix) <==> !Strands(s, actor, op)
  {
    hide NamesHeld, HeldBySome, ExactMatrix, GrantsOk, IsSuper, GrantRefusal, GrantsOf, Stripped, RoleNamed;
    if op.OpRenameRole? {
      if MayRename(s, actor, op.id, op.name, op.setsSuper) {
        RenameHeld(s, op.id, op.name);
      }
    } else if op.OpDeleteRole? {
      DeleteHeld(s, op.id);
    } else {
      OthersHeld(s, actor, op);
    }
  }

  lemma NamesGiven(s: Matrix, actor: nat, op: Op)
    requires !op.OpDeleteRole?
    ensures var t := Step(s, actor, op).matrix;
            && |t.members| == |s.members|
            && forall u, name :: 0 <= u < |s.members| && name in t.members[u].roles ==>
                 name in s.members[u].roles || (op.OpAssignRole? && op.user == u && op.id in s.roles &&
                   name == s.roles[op.id].name)
  {
    hide IsSuper, GrantRefusal, GrantsOf;
  }

  // ----- where both promises fail -----

  /** One live administrator, some resources, no actions yet. */
  function Bare(resources: nat): Matrix {
    Tables(resources, map[], map[], map[0 := Role("admin", true, true)], [], [Member(true, ["admin"])], 1)
  }

  /** An action is created, and one request grants its first permission twice. */
  lemma NamedTwice(resources: nat, action: string)
    requires resources >= 1 && 1 <= |action| <= 50 && action !in RESERVED
    ensures Inv(Bare(resources))
    ensures var t := After(Bare(resources),
            [Request(0, OpCreateAction(action)), Request(0, OpSetPermissions(0, [Item(2, None), Item(2, None)]))]);
            t.grants == [Grant(0, 2, None), Grant(0, 2, None)] && !PairsUnique(t.grants)
  {
    hide CreateAction, SetPermissions, Inv, PairsUnique;
    var s, items := Bare(resources), [Item(2, None), Item(2, None)];
    var requests := [Request(0, OpCreateAction(action)), Request(0, OpSetPermissions(0, items))];
    BareInv(resources, s.members);
    NoRequests(s);
    AfterRequest(s, requests, 0);
    AfterRequest(s, requests, 1);
    assert requests[..2] == requests;
    FirstAction(resources, action);
    var s1 := CreateAction(s, action).matrix;
    assert Barred(s, 0).None? && Barred(s1, 0).None?;
    GrantedTwice(s1, 2);
  }

  lemma FirstAction(resources: nat, action: string)
    requires resources >= 1 && 1 <= |action| <= 50 && action !in RESERVED
    ensures var s, t := Bare(resources), CreateAction(Bare(resources), action).matrix;
            && 2 in t.permissions && t.roles == s.roles && t.members == s.members && t.grants == []
  {
  }

  lemma GrantedTwice(s: Matrix, permission: nat)
    requires 0 in s.roles && s.roles[0] == Role("admin", true, true) && Holds(s, 0, "admin")
    requires permission in s.permissions && s.grants == []
    ensures var t := SetPermissions(s, 0, 0, [Item(permission, None), Item(permission, None)]).matrix;
            t.grants == [Grant(0, permission, None), Grant(0, permission, None)] && !PairsUnique(t.grants)
  {
    hide Shaped, OnCreate;
    var items := [Item(permission, None), Item(permission, None)];
    assert IsSuper(s, 0) && (forall i :: 0 <= i < |items| ==> Shaped(items[i].conditions)) by {
      NothingToShape();
    }
    var t := SetPermissions(s, 0, 0, items).matrix;
    assert t.grants == [] + [Grant(0, permission, None), Grant(0, permission, None)];
    assert t.grants[0] == t.grants[1];
  }

  lemma NothingToShape()
    ensures Shaped(None)
  {
  }

  lemma NoRequests(s: Matrix)
    ensures forall requests: seq<Request> :: After(s, requests[..0]) == s
  {
    forall requests: seq<Request>
      ensures After(s, requests[..0]) == s
    {
      assert requests[..0] == [];
    }
  }

  lemma AfterRequest(s: Matrix, requests: seq<Request>, k: nat)
    requires k < |requests|
    ensures After(s, requests[..k + 1]) == Step(After(s, requests[..k]), requests[k].actor, requests[k].op).matrix
  {
    hide Step;
    assert requests[..k + 1][..k] == requests[..k];
  }

  /** A role is created, given to somebody, and renamed. */
  lemma StrandedByRename(resources: nat, former: string, name: string)
    requires !BadRoleName(former) && !BadRoleName(name) && former != "admin" && name != "admin" && former != name
    ensures Inv(Bare(resources))
    ensures var t := After(Bare(resources),
            [Request(0, OpCreateRole(former, false)), Request(0, OpAssignRole(0, 1)),
            Request(0, OpRenameRole(1, name, false))]);
            Holds(t, 0, former) && !RoleNamed(t, former)
  {
    hide Inv, CreateRole, AssignRole, RenameRole;
    var s := Bare(resources);
    var requests := [Request(0, OpCreateRole(former, false)), Request(0, OpAssignRole(0, 1)),
                     Request(0, OpRenameRole(1, name, false))];
    BareInv(resources, s.members);
    NoRequests(s);
    AfterRequest(s, requests, 0);
    AfterRequest(s, requests, 1);
    AfterRequest(s, requests, 2);
    assert requests[..3] == requests;
    Renamed(resources, former, name);
  }

  lemma Renamed(resources: nat, former: string, name: string)
    requires !BadRoleName(former) && !BadRoleName(name) && former != "admin" && name != "admin" && former != name
    ensures var s := Bare(resources);
            var s1 := CreateRole(s, former, false).matrix;
            var s2 := AssignRole(s1, 0, 0, 1).matrix;
            var t := RenameRole(s2, 1, name, false).matrix;
            && Barred(s, 0).None? && Barred(s1, 0).None? && Barred(s2, 0).None?
            && Holds(t, 0, former) && !RoleNamed(t, former)
  {
    var s1 := CreateRole(Bare(resources), former, false).matrix;
    assert s1.roles == map[0 := Role("admin", true, true), 1 := Role(former, false, false)];
    var s2 := AssignRole(s1, 0, 0, 1).matrix;
    assert s2.members[0].roles == ["admin", former];
    hide IsSuper;
  }

  /** A new role is held at once by exactly the users who hold its name already. */
  lemma NewRoleHolders(s: Matrix, name: string)
    requires IdsOk(s) && CreateRole(s, name, false).reply.Done?
    ensures var t := CreateRole(s, name, false).matrix;
            && s.issued !in s.roles && s.issued in t.roles && t.roles[s.issued].name == name
            && forall user :: Holds(t, user, name) <==> Holds(s, user, name)
    ensures NamesHeld(s) ==> !HeldBySome(CreateRole(s, name, false).matrix, name)
  {
  }

  /** The stranded name is picked up by the next role created under it: its holder has a role that nobody gave them. */
  lemma StrandedIsPickedUp(resources: nat, former: string, name: string)
    requires !BadRoleName(former) && !BadRoleName(name) && former != "admin" && name != "admin" && former != name
    ensures var t := After(Bare(resources),
            [Request(0, OpCreateRole(former, false)), Request(0, OpAssignRole(0, 1)),
            Request(0, OpRenameRole(1, name, false)), Request(0, OpCreateRole(former, false))]);
            2 in t.roles && t.roles[2].name == former && Holds(t, 0, former)
  {
    hide Inv, CreateRole, AssignRole, RenameRole;
    var s := Bare(resources);
    var requests := [Request(0, OpCreateRole(former, false)), Request(0, OpAssignRole(0, 1)),
      Request(0, OpRenameRole(1, name, false)), Request(0, OpCreateRole(former, false))];
    NoRequests(s);
    AfterRequest(s, requests, 0);
    AfterRequest(s, requests, 1);
    AfterRequest(s, requests, 2);
    AfterRequest(s, requests, 3);
    assert requests[..4] == requests;
    Renamed(resources, former, name);
    PickedUp(resources, former, name);
  }

  lemma PickedUp(resources: nat, former: string, name: string)
    requires !BadRoleName(former) && !BadRoleName(name) && former != "admin" && name != "admin" && former != name
    ensures var s2 := AssignRole(CreateRole(Bare(resources), former, false).matrix, 0, 0, 1).matrix;
            var s3 := RenameRole(s2, 1, name, false).matrix;
            var t := CreateRole(s3, former, false).matrix;
            Barred(s3, 0).None? && 2 in t.roles && t.roles[2].name == former && Holds(t, 0, former)
  {
    var s1 := CreateRole(Bare(resources), former, false).matrix;
    assert s1.roles == map[0 := Role("admin", true, true), 1 := Role(former, false, false)];
    var s2 := AssignRole(s1, 0, 0, 1).matrix;
    assert s2.members[0].roles == ["admin", former];
    var s3 := RenameRole(s2, 1, name, false).matrix;
    assert s3.roles == map[0 := Role("admin", true, true), 1 := Role(name, false, false)] && s3.issued == 2;
    hide IsSuper;
  }

  // ----- super users -----

  lemma SuperRolesFixed(s: Matrix, actor: nat, op: Op)
    requires NamesOk(s)
    ensures var t := Step(s, actor, op).matrix; forall r :: r in t.roles && t.roles[r].isSuper ==>
            r in s.roles && s.roles[r] == t.roles[r]
  {
    hide IsSuper, GrantRefusal, GrantsOf;
  }

  lemma DeleteRoleNames(s: Matrix, id: nat)
    ensures var t := DeleteRole(s, id).matrix;
            |t.members| == |s.members| && forall u, name :: 0 <= u < |s.members| && name in t.members[u].roles ==>
              name in s.members[u].roles
  {
  }

  /** Only a super user makes another one, and only by assigning a role. */
  lemma NewSuperStep(s: Matrix, actor: nat, op: Op, user: nat)
    requires Inv(s) && !IsSuper(s, user) && IsSuper(Step(s, actor, op).matrix, user)
    ensures op.OpAssignRole? && op.user == user && IsSuper(s, actor)
  {
    var t := Step(s, actor, op).matrix;
    SuperRolesFixed(s, actor, op);
    var r :| r in t.roles && t.roles[r].isSuper && Holds(t, user, t.roles[r].name);
    var name := t.roles[r].name;
    assert r in s.roles && s.roles[r] == t.roles[r] && !Holds(s, user, name);
    if op.OpDeleteRole? {
      DeleteRoleNames(s, op.id);
    } else {
      NamesGiven(s, actor, op);
      assert op.OpAssignRole? && op.user == user && s.roles[op.id].name == name;
      assert op.id == r;
    }
  }

  /** In every run, whoever becomes a super user was made one by somebody who already was. */
  lemma {:induction false} SuperOnlyFromSuper(s: Matrix, requests: seq<Request>, user: nat)
    requires Inv(s) && !IsSuper(s, user) && IsSuper(After(s, requests), user)
    ensures exists k ::
              && 0 <= k < |requests| && requests[k].op.OpAssignRole? && requests[k].op.user == user
              && IsSuper(After(s, requests[..k]), requests[k].actor)
  {
    hide Inv, Step, IsSuper;
    var last := |requests| - 1;
    var init := requests[..last];
    RunKeeps(s, init);
    if IsSuper(After(s, init), user) {
      SuperOnlyFromSuper(s, init, user);
      assert forall k :: 0 <= k < last ==> init[..k] == requests[..k];
    } else {
      NewSuperStep(After(s, init), requests[last].actor, requests[last].op, user);
    }
  }

  // ----- stored conditions -----

  /**
   An accepted condition resolves unless its custom text is empty, a later branch names the ownership field, or one
   compares with an attribute other than the id.
   */
  lemma AcceptedConditionVeto(c: Condition)
    requires Shaped(Some(c))
    ensures Ability.Vetoed(c) <==>
              || c.custom.Blank?
              || Ability.Overwrites(Ability.FieldMatchWrites(c) + Ability.UserAttrWrites(c,
                   "") + Ability.CustomWrites(c), Ability.OwnerKey(c))
              || (&& c.userAttr.JObj?
                  && exists i :: 0 <= i < |c.userAttr.fields| && c.userAttr.fields[i].value != JStr("id"))
  {
    MentionsEither(Ability.FieldMatchWrites(c) + Ability.UserAttrWrites(c, ""), Ability.CustomWrites(c));
    MentionsEither(Ability.FieldMatchWrites(c), Ability.UserAttrWrites(c, ""));
    if c.userAttr.JObj? {
      SameKeys(Ability.UserAttrWrites(c, ""), c.userAttr.fields);
    }
  }

  lemma MentionsEither(a: seq<Field>, b: seq<Field>)
    ensures forall key :: Ability.Mentions(a + b, key) <==> Ability.Mentions(a, key) || Ability.Mentions(b, key)
  {
    forall key | Ability.Mentions(a, key)
      ensures Ability.Mentions(a + b, key)
    {
      var i :| 0 <= i < |a| && a[i].key == key;
      assert (a + b)[i].key == key;
    }
    forall key | Ability.Mentions(b, key)
      ensures Ability.Mentions(a + b, key)
    {
      var i :| 0 <= i < |b| && b[i].key == key;
      assert (a + b)[|a| + i].key == key;
    }
  }

  lemma SameKeys(a: seq<Field>, b: seq<Field>)
    requires |a| == |b| && forall i :: 0 <= i < |a| ==> a[i].key == b[i].key
    ensures forall key :: Ability.Mentions(a, key) <==> Ability.Mentions(b, key)
  {
    forall key | Ability.Mentions(b, key)
      ensures Ability.Mentions(a, key)
    {
      var i :| 0 <= i < |b| && b[i].key == key;
      assert a[i].key == key;
    }
  }
}
