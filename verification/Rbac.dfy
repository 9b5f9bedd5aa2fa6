/**
 Roles, actions and the permission matrix as a step machine.
 Resources are fixed and named by their index, as users are; ids of actions, permissions and roles come from one supply.
 */
module Rbac {
  import opened Core
  import Ability
  import MongoQuery

  type Condition = Ability.Condition

  datatype Role = Role(name: string, isSystem: bool, isSuper: bool)

  datatype Action = Action(name: string, isDefault: bool)

  datatype Permission = Permission(resource: nat, action: nat)

  datatype Grant = Grant(role: nat, permission: nat, conditions: Option<Condition>)

  datatype Member = Member(live: bool, roles: seq<string>)

  datatype Matrix = Tables(
    resources: nat,
    actions: map<nat, Action>,
    permissions: map<nat, Permission>,
    roles: map<nat, Role>,
    grants: seq<Grant>,
    members: seq<Member>,
    issued: nat)

  /** One requested grant. */
  datatype Item = Item(permission: nat, conditions: Option<Condition>)

  datatype Reply = Done | Refused(status: nat)

  datatype Outcome = Outcome(matrix: Matrix, reply: Reply)

  // ----- who is asking -----

  predicate LiveMember(s: Matrix, user: nat) { user < |s.members| && s.members[user].live }

  predicate Holds(s: Matrix, user: nat, name: string) { user < |s.members| && name in s.members[user].roles }

  predicate IsSuper(s: Matrix, user: nat) {
    exists r :: r in s.roles && s.roles[r].isSuper && Holds(s, user, s.roles[r].name)
  }

  /** `adminGuard`. */
  function Barred(s: Matrix, actor: nat): Option<nat> {
    if !LiveMember(s, actor) then Some(401) else if !Holds(s, actor, "admin") then Some(403) else None
  }

  // ----- actions -----

  const RESERVED: set<string> := {"manage", "all"}

  /** One permission for each of the first `n` resources, with consecutive ids. */
  function FanOut(permissions: map<nat, Permission>, action: nat, first: nat, n: nat): (r: map<nat, Permission>)
    ensures forall p :: p in r <==> p in permissions || first <= p < first + n
    ensures forall p :: p in r ==> r[p] == if first <= p < first + n then Permission(p - first, action)
            else permissions[p]
  {
    if n == 0 then permissions else FanOut(permissions, action, first,
      n - 1)[first + n - 1 := Permission(n - 1, action)]
  }

  predicate ActionNamed(s: Matrix, name: string) { exists a :: a in s.actions && s.actions[a].name == name }

  /** The name arrives trimmed and in lower case. */
  function CreateAction(s: Matrix, name: string): Outcome {
    if |name| == 0 || |name| > 50 || name in RESERVED || ActionNamed(s, name) then Outcome(s, Refused(400))
    else Outcome(s.(actions := s.actions[s.issued := Action(name, false)],
                    permissions := FanOut(s.permissions, s.issued, s.issued + 1, s.resources),
                    issued := s.issued + 1 + s.resources),
                 Done)
  }

  predicate Concerns(s: Matrix, permission: nat, action: nat) {
    permission in s.permissions && s.permissions[permission].action == action
  }

  predicate InUse(s: Matrix, action: nat) { exists g :: g in s.grants && Concerns(s, g.permission, action) }

  function WithoutAction(permissions: map<nat, Permission>, action: nat): map<nat, Permission> {
    map p | p in permissions && permissions[p].action != action :: permissions[p]
  }

  function DeleteAction(s: Matrix, id: nat): Outcome {
    if id !in s.actions then Outcome(s, Refused(404))
    else if s.actions[id].isDefault then Outcome(s, Refused(403))
    else if InUse(s, id) then Outcome(s, Refused(409))
    else Outcome(s.(actions := s.actions - {id}, permissions := WithoutAction(s.permissions, id)), Done)
  }

  // ----- roles -----

  predicate BadRoleName(name: string) { |name| == 0 || |name| > 100 }

  predicate RoleNamed(s: Matrix, name: string) { exists r :: r in s.roles && s.roles[r].name == name }

  /** The name arrives trimmed. */
  function CreateRole(s: Matrix, name: string, setsSuper: bool): Outcome {
    if BadRoleName(name) || setsSuper || RoleNamed(s, name) then Outcome(s, Refused(400))
    else Outcome(s.(roles := s.roles[s.issued := Role(name, false, false)], issued := s.issued + 1), Done)
  }

  /** Only the role row is renamed; users keep the name they were given. */
  function RenameRole(s: Matrix, id: nat, name: string, setsSuper: bool): Outcome {
    if setsSuper || BadRoleName(name) then Outcome(s, Refused(400))
    else if id !in s.roles then Outcome(s, Refused(404))
    else if s.roles[id].isSystem then Outcome(s, Refused(400))
    else if name == s.roles[id].name then Outcome(s, Done)
    else if RoleNamed(s, name) then Outcome(s, Refused(400))
    else Outcome(s.(roles := s.roles[id := s.roles[id].(name := name)]), Done)
  }

  function Filter<T(!new)>(rows: seq<T>, keep: T -> bool): (r: seq<T>)
    ensures forall x :: x in r <==> x in rows && keep(x)
  {
    if rows == [] then [] else Filter(rows[..|rows| - 1], keep) + if keep(rows[|rows| - 1]) then [rows[|rows| - 1]]
      else []
  }

  /** The grants of one role, or of every other role. */
  function GrantsOf(grants: seq<Grant>, role: nat, own: bool): seq<Grant> {
    Filter(grants, (g: Grant) => (g.role == role) == own)
  }

  function Unnamed(m: Member, name: string): Member { m.(roles := Filter(m.roles, (r: string) => r != name)) }

  function Stripped(members: seq<Member>, name: string): (r: seq<Member>)
    ensures |r| == |members| && forall i :: 0 <= i < |r| ==> r[i] == Unnamed(members[i], name)
  {
    seq(|members|, i requires 0 <= i < |members| => Unnamed(members[i], name))
  }

  function DeleteRole(s: Matrix, id: nat): Outcome {
    if id !in s.roles then Outcome(s, Refused(404))
    else if s.roles[id].isSystem then Outcome(s, Refused(400))
    else Outcome(s.(grants := GrantsOf(s.grants, id, false), members := Stripped(s.members, s.roles[id].name),
      roles := s.roles - {id}), Done)
  }

  // ----- a role's permissions -----

  /** `findConditionShapeError` finds nothing; an empty `custom` text is not looked at. */
  predicate Shaped(conditions: Option<Condition>) {
    conditions.Some? ==>
      var c := conditions.value;
      && (c.ownership.JNull? || Ability.OwnershipShape(c.ownership))
      && (c.fieldMatch.JNull? || Ability.FieldMatchShape(c.fieldMatch))
      && (c.userAttr.JNull? || Ability.UserAttrShape(c.userAttr))
      && (c.custom.NoCustom? || c.custom.Blank? ||
           (c.custom.ParsedTo? && c.custom.json.JObj? && MongoQuery.Validate(c.custom.json, "", 0).None?))
  }

  /** A branch that compares with the acting user, which no record about to be created can carry. */
  predicate IdentityBound(conditions: Option<Condition>) {
    conditions.Some? && (!conditions.value.ownership.JNull? || !conditions.value.userAttr.JNull?)
  }

  predicate OnCreate(s: Matrix, permission: nat) {
    && permission in s.permissions && s.permissions[permission].action in s.actions &&
         s.permissions[permission].resource < s.resources
    && s.actions[s.permissions[permission].action].name == "create"
  }

  predicate DeadOnArrival(s: Matrix, item: Item) { IdentityBound(item.conditions) && OnCreate(s, item.permission) }

  function Pushed(grants: seq<Grant>, role: nat, items: seq<Item>): (r: seq<Grant>)
    ensures |r| == |grants| + |items|
    ensures forall i :: 0 <= i < |grants| ==> r[i] == grants[i]
    ensures forall i :: 0 <= i < |items| ==> r[|grants| + i] == Grant(role, items[i].permission, items[i].conditions)
  {
    grants + seq(|items|, i requires 0 <= i < |items| => Grant(role, items[i].permission, items[i].conditions))
  }

  /** The checks that need the role and the registry. */
  function GrantRefusal(s: Matrix, actor: nat, role: nat, items: seq<Item>): Option<nat> {
    if role !in s.roles then Some(404)
    else if s.roles[role].isSystem && !IsSuper(s, actor) then Some(400)
    else if exists i :: 0 <= i < |items| && DeadOnArrival(s, items[i]) then Some(400)
    else if exists i :: 0 <= i < |items| && items[i].permission !in s.permissions then Some(400)
    else None
  }

  function SetPermissions(s: Matrix, actor: nat, role: nat, items: seq<Item>): Outcome {
    if |items| > 500 || (exists i :: 0 <= i < |items| && !Shaped(items[i].conditions)) then Outcome(s, Refused(400))
    else
      var refusal := GrantRefusal(s, actor, role, items);
      if refusal.Some? then Outcome(s, Refused(refusal.value))
      else Outcome(s.(grants := Pushed(GrantsOf(s.grants, role, false), role, items)), Done)
  }

  predicate Granted(s: Matrix, role: nat, permission: nat) {
    exists g :: g in s.grants && g.role == role && g.permission == permission
  }

  function Items(permissions: seq<nat>, conditions: Option<Condition>): (r: seq<Item>)
    ensures |r| == |permissions| && forall i :: 0 <= i < |r| ==> r[i] == Item(permissions[i], conditions)
  {
    seq(|permissions|, i requires 0 <= i < |permissions| => Item(permissions[i], conditions))
  }

  function AssignPermissions(s: Matrix, actor: nat, role: nat, permissions: seq<nat>,
      conditions: Option<Condition>): Outcome {
    if permissions == [] || |permissions| > 500 || !Shaped(conditions) then Outcome(s, Refused(400))
    else
      var items := Items(permissions, conditions);
      var refusal := GrantRefusal(s, actor, role, items);
      if refusal.Some? then Outcome(s, Refused(refusal.value))
      else if exists i :: 0 <= i < |permissions| && Granted(s, role, permissions[i]) then Outcome(s, Refused(409))
      else Outcome(s.(grants := Pushed(s.grants, role, items)), Done)
  }

  function RemovePermission(s: Matrix, actor: nat, role: nat, permission: nat): Outcome {
    if role !in s.roles then Outcome(s, Refused(404))
    else if s.roles[role].isSystem && !IsSuper(s, actor) then Outcome(s, Refused(400))
    else Outcome(s.(grants := Filter(s.grants, (g: Grant) => !(g.role == role && g.permission == permission))), Done)
  }

  // ----- a user's roles -----

  function RoleRefusal(s: Matrix, actor: nat, user: nat, role: nat): Option<nat> {
    if !LiveMember(s, user) then Some(404)
    else if role !in s.roles then Some(404)
    else if s.roles[role].isSuper && !IsSuper(s, actor) then Some(403)
    else None
  }

  function AssignRole(s: Matrix, actor: nat, user: nat, role: nat): Outcome {
    var refusal := RoleRefusal(s, actor, user, role);
    if refusal.Some? then Outcome(s, Refused(refusal.value))
    else if Holds(s, user, s.roles[role].name) then Outcome(s, Refused(409))
    else Outcome(s.(members := s.members[user :=
      s.members[user].(roles := s.members[user].roles + [s.roles[role].name])]), Done)
  }

  function UnassignRole(s: Matrix, actor: nat, user: nat, role: nat): Outcome {
    var refusal := RoleRefusal(s, actor, user, role);
    if refusal.Some? then Outcome(s, Refused(refusal.value))
    else Outcome(s.(members := s.members[user := Unnamed(s.members[user], s.roles[role].name)]), Done)
  }

  // ----- steps and runs -----

  datatype Op =
    | OpCreateAction(name: string)
    | OpDeleteAction(id: nat)
    | OpCreateRole(name: string, setsSuper: bool)
    | OpRenameRole(id: nat, name: string, setsSuper: bool)
    | OpDeleteRole(id: nat)
    | OpSetPermissions(id: nat, items: seq<Item>)
    | OpAssignPermissions(id: nat, permissions: seq<nat>, conditions: Option<Condition>)
    | OpRemovePermission(id: nat, permission: nat)
    | OpAssignRole(user: nat, id: nat)
    | OpUnassignRole(user: nat, id: nat)

  function Handle(s: Matrix, actor: nat, op: Op): Outcome {
    match op
    case OpCreateAction(name) => CreateAction(s, name)
    case OpDeleteAction(id) => DeleteAction(s, id)
    case OpCreateRole(name, setsSuper) => CreateRole(s, name, setsSuper)
    case OpRenameRole(id, name, setsSuper) => RenameRole(s, id, name, setsSuper)
    case OpDeleteRole(id) => DeleteRole(s, id)
    case OpSetPermissions(id, items) => SetPermissions(s, actor, id, items)
    case OpAssignPermissions(id, permissions, conditions) => AssignPermissions(s, actor, id, permissions, conditions)
    case OpRemovePermission(id, permission) => RemovePermission(s, actor, id, permission)
    case OpAssignRole(user, id) => AssignRole(s, actor, user, id)
    case OpUnassignRole(user, id) => UnassignRole(s, actor, user, id)
  }

  function Step(s: Matrix, actor: nat, op: Op): Outcome {
    var barred := Barred(s, actor);
    if barred.Some? then Outcome(s, Refused(barred.value)) else Handle(s, actor, op)
  }

  datatype Request = Request(actor: nat, op: Op)

  function After(s: Matrix, requests: seq<Request>): Matrix {
    if requests == [] then s
    else
      var last := requests[|requests| - 1];
      Step(After(s, requests[..|requests| - 1]), last.actor, last.op).matrix
  }
}
