/**
 The role and permission tables as the handlers change them: every method does, statement by statement, what its
 request does in `Rbac`.
 */
module RbacStore {
  import opened Core
  import opened Rbac
  import opened RbacInvariant

  class Store {
    const resources: nat
    var actions: map<nat, Action>
    var permissions: map<nat, Permission>
    var roles: map<nat, Role>
    var grants: seq<Grant>
    var members: seq<Member>
    var issued: nat

    function Snapshot(): Matrix
      reads this
    {
      Tables(resources, actions, permissions, roles, grants, members, issued)
    }

    ghost predicate Valid()
      reads this
    {
      Inv(Snapshot())
    }

    constructor (seed: Matrix)
      requires Inv(seed)
      ensures Valid() && Snapshot() == seed
    {
      resources, actions, permissions, roles := seed.resources, seed.actions, seed.permissions, seed.roles;
      grants, members, issued := seed.grants, seed.members, seed.issued;
    }

    // ----- actions -----

    method ActionNameTaken(name: string) returns (taken: bool)
      ensures taken <==> ActionNamed(Snapshot(), name)
    {
      var todo := actions.Keys;
      while todo != {}
        invariant todo <= actions.Keys
        invariant forall a :: a in actions && actions[a].name == name ==> a in todo
        decreases todo
      {
        var a :| a in todo;
        if actions[a].name == name {
          return true;
        }
        todo := todo - {a};
      }
      return false;
    }

    /** One permission for every resource. */
    method CreatePermissions(action: nat)
      modifies this`permissions, this`issued
      ensures permissions == FanOut(old(permissions), action, old(issued), resources) &&
              issued == old(issued) + resources
    {
      for resource := 0 to resources
        invariant issued == old(issued) + resource
        invariant permissions == FanOut(old(permissions), action, old(issued), resource)
      {
        permissions := permissions[issued := Permission(resource, action)];
        issued := issued + 1;
      }
    }

    method HandleCreateAction(name: string) returns (reply: Reply)
      requires Valid()
      modifies this
      ensures Valid() && Outcome(Snapshot(), reply) == CreateAction(old(Snapshot()), name)
    {
      hide Inv, ActionNamed, FanOut;
      CreateActionKeeps(Snapshot(), name);
      if |name| == 0 || |name| > 50 || name in RESERVED {
        return Refused(400);
      }
      var taken := ActionNameTaken(name);
      if taken {
        return Refused(400);
      }
      var id := issued;
      issued := issued + 1;
      actions := actions[id := Action(name, false)];
      CreatePermissions(id);
      reply := Done;
    }

    /** The permissions that refer to the action. */
    method Affected(action: nat) returns (affected: set<nat>)
      ensures forall p :: p in affected <==> Concerns(Snapshot(), p, action)
    {
      affected := {};
      var todo := permissions.Keys;
      while todo != {}
        invariant todo <= permissions.Keys
        invariant forall p :: p in affected <==> p !in todo && Concerns(Snapshot(), p, action)
        decreases todo
      {
        var p :| p in todo;
        if permissions[p].action == action {
          affected := affected + {p};
        }
        todo := todo - {p};
      }
    }

    method DeletePermissions(affected: set<nat>, action: nat)
      requires forall p :: p in affected <==> Concerns(Snapshot(), p, action)
      modifies this`permissions
      ensures permissions == WithoutAction(old(permissions), action)
    {
      var todo := affected;
      while todo != {}
        invariant todo <= affected
        invariant forall p :: p in permissions <==> p in old(permissions) && (p in todo || p !in affected)
        invariant forall p :: p in permissions ==> permissions[p] == old(permissions)[p]
        decreases todo
      {
        var p :| p in todo;
        permissions := permissions - {p};
        todo := todo - {p};
      }
      assert forall p :: p in affected ==> Concerns(old(Snapshot()), p, action);
    }

    method HandleDeleteAction(id: nat) returns (reply: Reply)
      requires Valid()
      modifies this
      ensures Valid() && Outcome(Snapshot(), reply) == DeleteAction(old(Snapshot()), id)
    {
      hide Inv;
      DeleteActionKeeps(Snapshot(), id);
      if id !in actions {
        return Refused(404);
      }
      if actions[id].isDefault {
        return Refused(403);
      }
      var affected := Affected(id);
      if exists g :: g in grants && g.permission in affected {
        return Refused(409);
      }
      DeletePermissions(affected, id);
      actions := actions - {id};
      reply := Done;
    }

    // ----- roles -----

    method RoleNameTaken(name: string) returns (taken: bool)
      ensures taken <==> RoleNamed(Snapshot(), name)
    {
      var todo := roles.Keys;
      while todo != {}
        invariant todo <= roles.Keys
        invariant forall r :: r in roles && roles[r].name == name ==> r in todo
        decreases todo
      {
        var r :| r in todo;
        if roles[r].name == name {
          return true;
        }
        todo := todo - {r};
      }
      return false;
    }

    method HandleCreateRole(name: string, setsSuper: bool) returns (reply: Reply)
      requires Valid()
      modifies this
      ensures Valid() && Outcome(Snapshot(), reply) == CreateRole(old(Snapshot()), name, setsSuper)
    {
      hide Inv, RoleNamed;
      CreateRoleKeeps(Snapshot(), name, setsSuper);
      if BadRoleName(name) || setsSuper {
        return Refused(400);
      }
      var taken := RoleNameTaken(name);
      if taken {
        return Refused(400);
      }
      roles := roles[issued := Role(name, false, false)];
      issued := issued + 1;
      reply := Done;
    }

    method HandleRenameRole(id: nat, name: string, setsSuper: bool) returns (reply: Reply)
      requires Valid()
      modifies this
      ensures Valid() && Outcome(Snapshot(), reply) == RenameRole(old(Snapshot()), id, name, setsSuper)
    {
      hide Inv, RoleNamed;
      RenameRoleKeeps(Snapshot(), id, name, setsSuper);
      if setsSuper || BadRoleName(name) {
        return Refused(400);
      }
      if id !in roles {
        return Refused(404);
      }
      if roles[id].isSystem {
        return Refused(400);
      }
      if name != roles[id].name {
        var taken := RoleNameTaken(name);
        if taken {
          return Refused(400);
        }
        roles := roles[id := roles[id].(name := name)];
      }
      reply := Done;
    }

    method HandleDeleteRole(id: nat) returns (reply: Reply)
      requires Valid()
      modifies this
      ensures Valid() && Outcome(Snapshot(), reply) == DeleteRole(old(Snapshot()), id)
    {
      hide Inv, Unnamed, GrantsOf;
      DeleteRoleKeeps(Snapshot(), id);
      if id !in roles {
        return Refused(404);
      }
      if roles[id].isSystem {
        return Refused(400);
      }
      grants := GrantsOf(grants, id, false);
      for user := 0 to |members|
        invariant |members| == |old(members)| && roles == old(roles) && grants == GrantsOf(old(grants), id, false)
        invariant actions == old(actions) && permissions == old(permissions) && issued == old(issued)
        invariant forall u :: 0 <= u < user ==> members[u] == Unnamed(old(members)[u], roles[id].name)
        invariant forall u :: user <= u < |members| ==> members[u] == old(members)[u]
      {
        members := members[user := Unnamed(members[user], roles[id].name)];
      }
      assert members == Stripped(old(members), roles[id].name);
      roles := roles - {id};
      reply := Done;
    }

    // ----- a role's permissions -----

    method Refusal(actor: nat, role: nat, items: seq<Item>) returns (refusal: Option<nat>)
      ensures refusal == GrantRefusal(Snapshot(), actor, role, items)
    {
      hide IsSuper, IdentityBound, OnCreate;
      if role !in roles {
        return Some(404);
      }
      if roles[role].isSystem && !IsSuper(Snapshot(), actor) {
        return Some(400);
      }
      for i := 0 to |items|
        invariant forall k :: 0 <= k < i ==> !DeadOnArrival(Snapshot(), items[k])
      {
        if DeadOnArrival(Snapshot(), items[i]) {
          return Some(400);
        }
      }
      for i := 0 to |items|
        invariant forall k :: 0 <= k < i ==> items[k].permission in permissions
      {
        if items[i].permission !in permissions {
          return Some(400);
        }
      }
      return None;
    }

    method Push(role: nat, items: seq<Item>)
      modifies this`grants
      ensures grants == Pushed(old(grants), role, items)
    {
      for i := 0 to |items|
        invariant grants == Pushed(old(grants), role, items[..i])
      {
        grants := grants + [Grant(role, items[i].permission, items[i].conditions)];
        assert items[..i + 1] == items[..i] + [items[i]];
      }
      assert items[..|items|] == items;
    }

    method HandleSetPermissions(actor: nat, role: nat, items: seq<Item>) returns (reply: Reply)
      requires Valid()
      modifies this
      ensures Valid() && Outcome(Snapshot(), reply) == SetPermissions(old(Snapshot()), actor, role, items)
    {
      hide Inv, GrantRefusal, Shaped, Pushed, GrantsOf;
      SetKeeps(Snapshot(), actor, role, items);
      if |items| > 500 {
        return Refused(400);
      }
      for i := 0 to |items|
        invariant Snapshot() == old(Snapshot())
        invariant forall k :: 0 <= k < i ==> Shaped(items[k].conditions)
      {
        if !Shaped(items[i].conditions) {
          return Refused(400);
        }
      }
      var refusal := Refusal(actor, role, items);
      if refusal.Some? {
        return Refused(refusal.value);
      }
      grants := GrantsOf(grants, role, false);
      Push(role, items);
      reply := Done;
    }

    method HandleAssignPermissions(actor: nat, role: nat, permissionIds: seq<nat>, conditions: Option<Condition>)
        returns (reply: Reply)
      requires Valid()
      modifies this
      ensures Valid() && Outcome(Snapshot(), reply) ==
              AssignPermissions(old(Snapshot()), actor, role, permissionIds, conditions)
    {
      hide Inv, GrantRefusal, Shaped, Pushed, Granted;
      AssignKeeps(Snapshot(), actor, role, permissionIds, conditions);
      if permissionIds == [] || |permissionIds| > 500 || !Shaped(conditions) {
        return Refused(400);
      }
      var items := Items(permissionIds, conditions);
      var refusal := Refusal(actor, role, items);
      if refusal.Some? {
        return Refused(refusal.value);
      }
      for i := 0 to |permissionIds|
        invariant Snapshot() == old(Snapshot())
        invariant forall k :: 0 <= k < i ==> !Granted(Snapshot(), role, permissionIds[k])
      {
        if Granted(Snapshot(), role, permissionIds[i]) {
          return Refused(409);
        }
      }
      Push(role, items);
      reply := Done;
    }

    method HandleRemovePermission(actor: nat, role: nat, permission: nat) returns (reply: Reply)
      requires Valid()
      modifies this
      ensures Valid() && Outcome(Snapshot(), reply) == RemovePermission(old(Snapshot()), actor, role, permission)
    {
      hide Inv, IsSuper;
      RemoveKeeps(Snapshot(), actor, role, permission);
      if role !in roles {
        return Refused(404);
      }
      if roles[role].isSystem && !IsSuper(Snapshot(), actor) {
        return Refused(400);
      }
      grants := Filter(grants, (g: Grant) => !(g.role == role && g.permission == permission));
      reply := Done;
    }

    // ----- a user's roles -----

    method HandleAssignRole(actor: nat, user: nat, role: nat) returns (reply: Reply)
      requires Valid()
      modifies this
      ensures Valid() && Outcome(Snapshot(), reply) == AssignRole(old(Snapshot()), actor, user, role)
    {
      hide Inv, IsSuper;
      MembersKeep(Snapshot(), actor, user, role);
      if !LiveMember(Snapshot(), user) || role !in roles {
        return Refused(404);
      }
      if roles[role].isSuper && !IsSuper(Snapshot(), actor) {
        return Refused(403);
      }
      if roles[role].name in members[user].roles {
        return Refused(409);
      }
      members := members[user := members[user].(roles := members[user].roles + [roles[role].name])];
      reply := Done;
    }

    method HandleUnassignRole(actor: nat, user: nat, role: nat) returns (reply: Reply)
      requires Valid()
      modifies this
      ensures Valid() && Outcome(Snapshot(), reply) == UnassignRole(old(Snapshot()), actor, user, role)
    {
      hide Inv, IsSuper;
      MembersKeep(Snapshot(), actor, user, role);
      if !LiveMember(Snapshot(), user) || role !in roles {
        return Refused(404);
      }
      if roles[role].isSuper && !IsSuper(Snapshot(), actor) {
        return Refused(403);
      }
      members := members[user := Unnamed(members[user], roles[role].name)];
      reply := Done;
    }
  }
}
