/** What every run of role and permission requests keeps. */
module RbacInvariant {
  import opened Core
  import opened Rbac

  predicate HasRow(s: Matrix, resource: nat, action: nat) {
    exists p :: p in s.permissions && s.permissions[p] == Permission(resource, action)
  }

  /** Exactly one permission row per resource and action, and no other row. */
  ghost predicate ExactMatrix(s: Matrix) {
    && (forall r: nat, a: nat :: r < s.resources && a in s.actions ==> HasRow(s, r, a))
    && (forall p, q :: p in s.permissions && q in s.permissions && s.permissions[p] == s.permissions[q] ==> p == q)
    && (forall p :: p in s.permissions ==>
         s.permissions[p].resource < s.resources && s.permissions[p].action in s.actions)
  }

  /** Every grant points at a role and a permission that exist, is well shaped, and can be met. */
  ghost predicate GrantsOk(s: Matrix) {
    forall g :: g in s.grants ==>
      && g.role in s.roles && g.permission in s.permissions
      && Shaped(g.conditions) && !(IdentityBound(g.conditions) && OnCreate(s, g.permission))
  }

  ghost predicate NamesOk(s: Matrix) {
    && (forall a, b :: a in s.actions && b in s.actions && s.actions[a].name == s.actions[b].name ==> a == b)
    && (forall a, b :: a in s.roles && b in s.roles && s.roles[a].name == s.roles[b].name ==> a == b)
    && (forall r :: r in s.roles && s.roles[r].isSuper ==> s.roles[r].isSystem)
  }

  ghost predicate IdsOk(s: Matrix) {
    && (forall a :: a in s.actions ==> a < s.issued)
    && (forall p :: p in s.permissions ==> p < s.issued)
    && (forall r :: r in s.roles ==> r < s.issued)
  }

  ghost predicate Inv(s: Matrix) { ExactMatrix(s) && GrantsOk(s) && NamesOk(s) && IdsOk(s) }

  // ----- one step -----

  lemma CreatedMatrix(s: Matrix, name: string)
    requires ExactMatrix(s) && IdsOk(s)
    ensures ExactMatrix(CreateAction(s, name).matrix)
  {
    var t := CreateAction(s, name).matrix;
    if t != s {
      forall r: nat, a: nat | r < t.resources && a in t.actions
        ensures HasRow(t, r, a)
      {
        if a == s.issued {
          assert t.permissions[s.issued + 1 + r] == Permission(r, a);
        } else {
          assert HasRow(s, r, a);
          var p :| p in s.permissions && s.permissions[p] == Permission(r, a);
          assert t.permissions[p] == Permission(r, a);
        }
      }
    }
  }

  lemma FannedOut(s: Matrix, name: string, permission: nat)
    requires ExactMatrix(s) && IdsOk(s) && permission in s.permissions
    ensures var t := CreateAction(s, name).matrix;
            permission in t.permissions && (OnCreate(t, permission) ==> OnCreate(s, permission))
  {
    assert s.permissions[permission].action in s.actions;
  }

  lemma CreateActionKeeps(s: Matrix, name: string)
    requires Inv(s)
    ensures Inv(CreateAction(s, name).matrix)
  {
    hide ExactMatrix, Shaped, IdentityBound, FanOut;
    CreatedMatrix(s, name);
    var t := CreateAction(s, name).matrix;
    forall g | g in s.grants
      ensures g.permission in t.permissions && (OnCreate(t, g.permission) ==> OnCreate(s, g.permission))
    {
      FannedOut(s, name, g.permission);
    }
  }

  lemma DeleteActionKeeps(s: Matrix, id: nat)
    requires Inv(s)
    ensures Inv(DeleteAction(s, id).matrix)
  {
    var t := DeleteAction(s, id).matrix;
    if t != s {
      forall r: nat, a: nat | r < t.resources && a in t.actions
        ensures HasRow(t, r, a)
      {
        assert HasRow(s, r, a);
        var p :| p in s.permissions && s.permissions[p] == Permission(r, a);
        assert t.permissions[p] == Permission(r, a);
      }
      forall g | g in s.grants
        ensures g.permission in t.permissions
      {
        assert !Concerns(s, g.permission, id);
      }
    }
  }

  lemma CreateRoleKeeps(s: Matrix, name: string, setsSuper: bool)
    requires Inv(s)
    ensures Inv(CreateRole(s, name, setsSuper).matrix)
  {
    hide ExactMatrix, Shaped, IdentityBound, OnCreate;
    SameMatrix(s, CreateRole(s, name, setsSuper).matrix);
  }

  lemma RenameRoleKeeps(s: Matrix, id: nat, name: string, setsSuper: bool)
    requires Inv(s)
    ensures Inv(RenameRole(s, id, name, setsSuper).matrix)
  {
    hide ExactMatrix, Shaped, IdentityBound, OnCreate;
    SameMatrix(s, RenameRole(s, id, name, setsSuper).matrix);
  }

  lemma DeleteRoleKeeps(s: Matrix, id: nat)
    requires Inv(s)
    ensures Inv(DeleteRole(s, id).matrix)
  {
    hide ExactMatrix, Shaped, IdentityBound, OnCreate, Stripped;
    SameMatrix(s, DeleteRole(s, id).matrix);
  }

  lemma MembersKeep(s: Matrix, actor: nat, user: nat, id: nat)
    requires Inv(s)
    ensures Inv(AssignRole(s, actor, user, id).matrix) && Inv(UnassignRole(s, actor, user, id).matrix)
  {
    hide ExactMatrix, Shaped, IdentityBound, OnCreate, IsSuper, Unnamed;
    SameMatrix(s, AssignRole(s, actor, user, id).matrix);
    SameMatrix(s, UnassignRole(s, actor, user, id).matrix);
  }

  lemma SameMatrix(s: Matrix, t: Matrix)
    requires t.resources == s.resources && t.actions == s.actions && t.permissions == s.permissions
    ensures ExactMatrix(s) ==> ExactMatrix(t)
    ensures forall p :: OnCreate(t, p) <==> OnCreate(s, p)
  {
    assert forall r, a :: HasRow(s, r, a) ==> HasRow(t, r, a);
  }

  lemma PushedFrom(kept: seq<Grant>, role: nat, items: seq<Item>, g: Grant)
    requires g in Pushed(kept, role, items)
    ensures g in kept || exists i :: 0 <= i < |items| && g == Grant(role, items[i].permission, items[i].conditions)
  {
    var all := Pushed(kept, role, items);
    var i :| 0 <= i < |all| && all[i] == g;
    if i < |kept| {
      assert g == kept[i];
    } else {
      assert g == Grant(role, items[i - |kept|].permission, items[i - |kept|].conditions);
    }
  }

  /** Grants may be dropped, and may be added for requests the role and the registry accept. */
  lemma GrantsReplaced(s: Matrix, actor: nat, role: nat, kept: seq<Grant>, items: seq<Item>)
    requires Inv(s) && GrantRefusal(s, actor, role, items).None?
    requires forall g :: g in kept ==> g in s.grants
    requires forall i :: 0 <= i < |items| ==> Shaped(items[i].conditions)
    ensures Inv(s.(grants := Pushed(kept, role, items)))
  {
    var t := s.(grants := Pushed(kept, role, items));
    SameMatrix(s, t);
    assert forall i :: 0 <= i < |items| ==> !DeadOnArrival(s, items[i]) && items[i].permission in s.permissions;
    hide ExactMatrix, Shaped, IdentityBound, OnCreate, Pushed, NamesOk, IsSuper, GrantRefusal;
    forall g | g in t.grants
      ensures || g in s.grants
              || exists i :: 0 <= i < |items| && g == Grant(role, items[i].permission, items[i].conditions)
    {
      PushedFrom(kept, role, items, g);
    }
  }

  lemma SetKeeps(s: Matrix, actor: nat, role: nat, items: seq<Item>)
    requires Inv(s)
    ensures Inv(SetPermissions(s, actor, role, items).matrix)
  {
    if SetPermissions(s, actor, role, items).reply.Done? {
      GrantsReplaced(s, actor, role, GrantsOf(s.grants, role, false), items);
    }
    hide Inv, GrantRefusal, Shaped, Pushed, GrantsOf;
  }

  lemma AssignKeeps(s: Matrix, actor: nat, role: nat, permissions: seq<nat>, conditions: Option<Condition>)
    requires Inv(s)
    ensures Inv(AssignPermissions(s, actor, role, permissions, conditions).matrix)
  {
    if AssignPermissions(s, actor, role, permissions, conditions).reply.Done? {
      GrantsReplaced(s, actor, role, s.grants, Items(permissions, conditions));
    }
    hide Inv, GrantRefusal, Shaped, Pushed;
  }

  lemma RemoveKeeps(s: Matrix, actor: nat, role: nat, permission: nat)
    requires Inv(s)
    ensures Inv(RemovePermission(s, actor, role, permission).matrix)
  {
    hide ExactMatrix, Shaped, IdentityBound, OnCreate, IsSuper;
    SameMatrix(s, RemovePermission(s, actor, role, permission).matrix);
  }

  lemma HandleKeeps(s: Matrix, actor: nat, op: Op)
    requires Inv(s)
    ensures Inv(Handle(s, actor, op).matrix)
  {
    hide Inv, CreateAction, DeleteAction, CreateRole, RenameRole, DeleteRole, SetPermissions, AssignPermissions,
      RemovePermission, AssignRole, UnassignRole;
    match op
    case OpCreateAction(name) => CreateActionKeeps(s, name);
    case OpDeleteAction(id) => DeleteActionKeeps(s, id);
    case OpCreateRole(name, setsSuper) => CreateRoleKeeps(s, name, setsSuper);
    case OpRenameRole(id, name, setsSuper) => RenameRoleKeeps(s, id, name, setsSuper);
    case OpDeleteRole(id) => DeleteRoleKeeps(s, id);
    case OpSetPermissions(id, items) => SetKeeps(s, actor, id, items);
    case OpAssignPermissions(id, permissions, conditions) => AssignKeeps(s, actor, id, permissions, conditions);
    case OpRemovePermission(id, permission) => RemoveKeeps(s, actor, id, permission);
    case OpAssignRole(user, id) => MembersKeep(s, actor, user, id);
    case OpUnassignRole(user, id) => MembersKeep(s, actor, user, id);
  }

  lemma StepKeeps(s: Matrix, actor: nat, op: Op)
    requires Inv(s)
    ensures Inv(Step(s, actor, op).matrix)
  {
    hide Inv, Handle;
    HandleKeeps(s, actor, op);
  }

  /**
   Exactly one permission row per resource and action, and no dangling, malformed or unmeetable grant, in every run.
   */
  lemma {:induction false} RunKeeps(s: Matrix, requests: seq<Request>)
    requires Inv(s)
    ensures Inv(After(s, requests))
  {
    hide Inv, Step;
    if requests != [] {
      var last := |requests| - 1;
      RunKeeps(s, requests[..last]);
      StepKeeps(After(s, requests[..last]), requests[last].actor, requests[last].op);
    }
  }

  /** Resources and users before any action exists. */
  lemma BareInv(resources: nat, members: seq<Member>)
    ensures Inv(Tables(resources, map[], map[], map[0 := Role("admin", true, true)], [], members, 1))
  {
  }
}
