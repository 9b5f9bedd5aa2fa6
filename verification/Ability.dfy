/** From role permissions to CASL rules: conditions resolved fail-closed, allows first, denies last. */
module Ability {
  import opened Core
  import opened MongoQuery
  import Money

  // ----- stored rows -----

  datatype Role = Role(id: string, name: string, isSuper: bool)

  datatype Resource = Resource(id: string, name: string, subject: string)

  datatype Permission = Permission(resourceId: string, actionId: string)

  /** The `custom` text after `JSON.parse`; the empty text, which does not parse either, is told apart. */
  datatype Custom = NoCustom | Blank | Unparsable | ParsedTo(json: Json)

  /** A stored condition; a branch that is null is absent, any other value may be malformed. */
  datatype Condition = Condition(deny: bool, ownership: Json, fieldMatch: Json, userAttr: Json, custom: Custom)

  datatype RolePermission = RolePermission(roleId: string, permissionId: string, conditions: Option<Condition>)

  datatype Registry = Registry(
    roles: seq<Role>,
    rolePermissions: seq<RolePermission>,
    permissions: map<string, Permission>,
    resources: seq<Resource>,
    actions: map<string, string>)

  datatype User = User(id: string, roles: seq<string>)

  /** One resolved permission of a user. */
  datatype Entry = Entry(resource: string, action: string, conditions: Option<Condition>)

  predicate IsDeny(e: Entry) { e.conditions.Some? && e.conditions.value.deny }

  // ----- shape of the structured branches -----

  const MAX_FIELDS := 32
  const MAX_MATCH_VALUES := 100
  const MAX_KEY_LENGTH := 128

  predicate NonBlank(text: string) { Money.Trim(text) != "" }

  predicate ValidKey(key: string) {
    NonBlank(key) && |key| <= MAX_KEY_LENGTH && key !in PROTOTYPE_KEYS && !IsOperator(key)
  }

  predicate OwnershipShape(j: Json) {
    && j.JObj? && |j.fields| == 1 && j.fields[0].key == "userField"
    && j.fields[0].value.JStr? && ValidKey(j.fields[0].value.s)
  }

  predicate FieldMatchShape(j: Json) {
    && j.JObj? && 1 <= |j.fields| <= MAX_FIELDS
    && forall i :: 0 <= i < |j.fields| ==>
         var f := j.fields[i];
         && ValidKey(f.key) && f.value.JArr? && 1 <= |f.value.items| <= MAX_MATCH_VALUES
         && forall k :: 0 <= k < |f.value.items| ==> IsScalar(f.value.items[k])
  }

  predicate UserAttrShape(j: Json) {
    && j.JObj? && 1 <= |j.fields| <= MAX_FIELDS
    && forall i :: 0 <= i < |j.fields| ==>
         ValidKey(j.fields[i].key) && j.fields[i].value.JStr? && ValidKey(j.fields[i].value.s)
  }

  // ----- condition resolution -----

  /** What each well-formed branch writes into the query, in writing order. */
  function OwnershipWrites(c: Condition, userId: string): seq<Field> {
    if OwnershipShape(c.ownership) then [Field(c.ownership.fields[0].value.s, JStr(userId))] else []
  }

  function FieldMatchWrites(c: Condition): seq<Field> {
    if c.fieldMatch.JObj?
    then seq(|c.fieldMatch.fields|, i requires 0 <= i < |c.fieldMatch.fields| =>
               Field(c.fieldMatch.fields[i].key, JObj([Field("$in", c.fieldMatch.fields[i].value)])))
    else []
  }

  /** Every field compared with the user's id, the one attribute a condition can name. */
  function BoundToUser(fields: seq<Field>, userId: string): (r: seq<Field>)
    ensures |r| == |fields| && forall i :: 0 <= i < |r| ==> r[i] == Field(fields[i].key, JStr(userId))
  {
    seq(|fields|, i requires 0 <= i < |fields| => Field(fields[i].key, JStr(userId)))
  }

  function UserAttrWrites(c: Condition, userId: string): seq<Field> {
    if c.userAttr.JObj? then BoundToUser(c.userAttr.fields, userId) else []
  }

  function CustomWrites(c: Condition): seq<Field> {
    if c.custom.ParsedTo? && c.custom.json.JObj? then c.custom.json.fields else []
  }

  predicate Mentions(fields: seq<Field>, key: string) {
    exists i :: 0 <= i < |fields| && fields[i].key == key
  }

  /** The field the ownership branch protects. */
  function OwnerKey(c: Condition): Option<string> {
    if OwnershipShape(c.ownership) then Some(c.ownership.fields[0].value.s) else None
  }

  predicate Overwrites(fields: seq<Field>, owner: Option<string>) {
    owner.Some? && Mentions(fields, owner.value)
  }

  predicate OwnershipVeto(c: Condition) {
    !c.ownership.JNull? && !OwnershipShape(c.ownership)
  }

  predicate FieldMatchVeto(c: Condition) {
    !c.fieldMatch.JNull? && (!FieldMatchShape(c.fieldMatch) || Overwrites(FieldMatchWrites(c), OwnerKey(c)))
  }

  predicate UserAttrVeto(c: Condition) {
    && !c.userAttr.JNull?
    && (|| !UserAttrShape(c.userAttr)
        || Overwrites(c.userAttr.fields, OwnerKey(c))
        || exists i :: 0 <= i < |c.userAttr.fields| && c.userAttr.fields[i].value != JStr("id"))
  }

  predicate CustomVeto(c: Condition) {
    match c.custom
    case NoCustom => false
    case Blank => true
    case Unparsable => true
    case ParsedTo(json) => !json.JObj? || Validate(json, "", 0).Some? || Overwrites(json.fields, OwnerKey(c))
  }

  /** A present branch is malformed, or a later one would overwrite the ownership key. */
  predicate Vetoed(c: Condition) {
    OwnershipVeto(c) || FieldMatchVeto(c) || UserAttrVeto(c) || CustomVeto(c)
  }

  function Writes(c: Condition, userId: string): seq<Field> {
    OwnershipWrites(c, userId) + FieldMatchWrites(c) + UserAttrWrites(c, userId) + CustomWrites(c)
  }

  type Query = map<string, Json>

  /** Property assignments in order: a later write to a key replaces an earlier one. */
  function Overlay(writes: seq<Field>): Query {
    if writes == [] then map[]
    else Overlay(writes[..|writes| - 1])[writes[|writes| - 1].key := writes[|writes| - 1].value]
  }

  predicate HasBranches(c: Condition) {
    !c.ownership.JNull? || !c.fieldMatch.JNull? || !c.userAttr.JNull? || !c.custom.NoCustom?
  }

  // ----- rules, and how CASL reads them -----

  datatype Rule = Rule(action: string, subject: string, query: Option<Query>, inverted: bool)

  const RESERVED_ACTIONS: set<string> := {"manage", "all"}

  function LowerChar(c: char): char { if 'A' <= c <= 'Z' then (c as int + 32) as char else c }

  function Lower(s: string): string { seq(|s|, i requires 0 <= i < |s| => LowerChar(s[i])) }

  predicate Reserved(action: string, subject: string) {
    action in RESERVED_ACTIONS || Lower(subject) == "all"
  }

  /** The rule one entry registers on its subject, if any. */
  function RuleOf(e: Entry, subject: string, userId: string): Option<Rule> {
    var deny := IsDeny(e);
    var unconditional := Some(Rule(e.action, subject, None, deny));
    if Reserved(e.action, subject) then if deny then unconditional else None
    else if e.conditions.None? then unconditional
    else
      var c := e.conditions.value;
      if !Vetoed(c) && Overlay(Writes(c, userId)) != map[]
        then Some(Rule(e.action, subject, Some(Overlay(Writes(c, userId))), deny))
      else if (!Vetoed(c) && !HasBranches(c)) || deny then unconditional
      else None
  }

  /**
   The subject of a resource name; a later resource of the same name replaces an earlier one, and an empty subject
   counts as none.
   */
  function SubjectOf(resources: seq<Resource>, name: string): Option<string> {
    if resources == [] then None
    else
      var last := resources[|resources| - 1];
      if last.name == name then if last.subject == "" then None else Some(last.subject)
      else SubjectOf(resources[..|resources| - 1], name)
  }

  function RulesOf(entries: seq<Entry>, resources: seq<Resource>, userId: string): seq<Rule> {
    if entries == [] then []
    else
      var rest := RulesOf(entries[..|entries| - 1], resources, userId);
      var e := entries[|entries| - 1];
      var subject := SubjectOf(resources, e.resource);
      if subject.None? then rest
      else
        var rule := RuleOf(e, subject.value, userId);
        if rule.None? then rest else rest + [rule.value]
  }

  function Select(entries: seq<Entry>, deny: bool): (r: seq<Entry>)
    ensures forall e :: e in r <==> e in entries && IsDeny(e) == deny
  {
    if entries == [] then []
    else
      var rest := Select(entries[..|entries| - 1], deny);
      var e := entries[|entries| - 1];
      assert forall x :: x in entries <==> x in entries[..|entries| - 1] || x == e;
      if IsDeny(e) == deny then rest + [e] else rest
  }

  predicate HasSuperRole(reg: Registry, user: User) {
    exists i :: 0 <= i < |reg.roles| && reg.roles[i].isSuper && reg.roles[i].name in user.roles
  }

  function PackedRules(reg: Registry, user: User): seq<Rule> {
    if HasSuperRole(reg, user) then [Rule("manage", "all", None, false)]
    else
      var resolved := Resolved(reg, user);
      RulesOf(Select(resolved, false), reg.resources, user.id) + RulesOf(Select(resolved, true), reg.resources, user.id)
  }

  /** CASL's meaning of a query entry on a record: the interpreter is not part of this model. */
  type Interpreter<!R> = (string, Json, R) -> bool

  predicate MatchesQuery<R>(holds: Interpreter<R>, query: Query, record: R) {
    forall key :: key in query ==> holds(key, query[key], record)
  }

  predicate RuleApplies<R>(holds: Interpreter<R>, rule: Rule, action: string, subject: string, record: R) {
    && (rule.action == action || rule.action == "manage")
    && (rule.subject == subject || rule.subject == "all")
    && (rule.query.Some? ==> MatchesQuery(holds, rule.query.value, record))
  }

  /** The last rule that applies decides; none means no. */
  function Can<R>(holds: Interpreter<R>, rules: seq<Rule>, action: string, subject: string, record: R): bool {
    if rules == [] then false
    else
      var last := rules[|rules| - 1];
      if RuleApplies(holds, last, action, subject, record) then !last.inverted
      else Can(holds, rules[..|rules| - 1], action, subject, record)
  }

  // ----- resolved permissions -----

  /** The dedup key: effect, resource and action joined by colons. */
  function DedupKey(e: Entry): string {
    (if IsDeny(e) then "deny" else "allow") + ":" + e.resource + ":" + e.action
  }

  function EntryOf(reg: Registry, rp: RolePermission): Option<Entry> {
    if rp.permissionId !in reg.permissions then None
    else
      var p := reg.permissions[rp.permissionId];
      var resource := First(reg.resources, (r: Resource) => r.id == p.resourceId);
      if resource.None? || p.actionId !in reg.actions then None
      else Some(Entry(reg.resources[resource.value].name, reg.actions[p.actionId], rp.conditions))
  }

  /** Adds the entry of one row unless its key is taken: the first wins. */
  function AddRow(reg: Registry, role: Role, rp: RolePermission, found: seq<Entry>): seq<Entry> {
    var e := EntryOf(reg, rp);
    if rp.roleId != role.id || e.None? || (exists i :: 0 <= i < |found| && DedupKey(found[i]) == DedupKey(e.value))
      then found
    else found + [e.value]
  }

  function AddRows(reg: Registry, role: Role, rows: seq<RolePermission>, found: seq<Entry>): seq<Entry> {
    if rows == [] then found
    else AddRow(reg, role, rows[|rows| - 1], AddRows(reg, role, rows[..|rows| - 1], found))
  }

  function AddRoles(reg: Registry, user: User, roles: seq<Role>): seq<Entry> {
    if roles == [] then []
    else
      var found := AddRoles(reg, user, roles[..|roles| - 1]);
      var role := roles[|roles| - 1];
      if role.name in user.roles then AddRows(reg, role, reg.rolePermissions, found) else found
  }

  function Resolved(reg: Registry, user: User): seq<Entry> {
    AddRoles(reg, user, reg.roles)
  }

  // ----- what the compiled rules mean -----

  ghost predicate HoldsAll<R>(holds: Interpreter<R>, writes: seq<Field>, record: R) {
    forall i :: 0 <= i < |writes| ==> holds(writes[i].key, writes[i].value, record)
  }

  /** A permission that grants: exactly its own action and subject, its condition resolved and met. */
  ghost predicate Grants<R>(holds: Interpreter<R>, e: Entry, resources: seq<Resource>, userId: string, action: string,
      subject: string, record: R) {
    && !IsDeny(e) && SubjectOf(resources, e.resource) == Some(subject) && e.action == action &&
         !Reserved(action, subject)
    && (e.conditions.Some? ==>
          var c := e.conditions.value;
          !Vetoed(c) && (HasBranches(c) ==>
            Writes(c, userId) != [] && MatchesQuery(holds, Overlay(Writes(c, userId)), record)))
  }

  /** A permission that denies: also through the wildcards, and unconditionally when its condition does not resolve. */
  ghost predicate Denies<R>(holds: Interpreter<R>, e: Entry, resources: seq<Resource>, userId: string, action: string,
      subject: string, record: R) {
    var own := SubjectOf(resources, e.resource);
    && IsDeny(e) && own.Some? && (e.action == action || e.action == "manage") &&
         (own.value == subject || own.value == "all")
    && var c := e.conditions.value;
       Reserved(e.action, own.value) || Vetoed(c) || Writes(c, userId) == [] ||
         MatchesQuery(holds, Overlay(Writes(c, userId)), record)
  }

  lemma OverlayEmpty(writes: seq<Field>)
    ensures Overlay(writes) == map[] <==> writes == []
  {
    if writes != [] {
      assert writes[|writes| - 1].key in Overlay(writes);
    }
  }

  lemma {:induction false} OverlayLookup(writes: seq<Field>, key: string)
    ensures key in Overlay(writes) <==> Mentions(writes, key)
    ensures key in Overlay(writes) ==> exists i :: 0 <= i < |writes| && writes[i] == Field(key, Overlay(writes)[key])
  {
    if writes != [] {
      var last := |writes| - 1;
      OverlayLookup(writes[..last], key);
      if writes[last].key != key && key in Overlay(writes) {
        var i :| 0 <= i < last && writes[..last][i] == Field(key, Overlay(writes)[key]);
        assert writes[i] == Field(key, Overlay(writes)[key]);
      }
    }
  }

  /** A record meeting every written entry meets the query: overwriting only ever drops entries. */
  lemma AllWritesMatch<R>(holds: Interpreter<R>, writes: seq<Field>, record: R)
    requires HoldsAll(holds, writes, record)
    ensures MatchesQuery(holds, Overlay(writes), record)
  {
    forall key | key in Overlay(writes)
      ensures holds(key, Overlay(writes)[key], record)
    {
      OverlayLookup(writes, key);
    }
  }

  /** When no two branches write one key, the query is exactly the conjunction of the branches. */
  lemma DistinctWritesMatch<R>(holds: Interpreter<R>, writes: seq<Field>, record: R)
    requires forall i, j :: 0 <= i < j < |writes| ==> writes[i].key != writes[j].key
    ensures MatchesQuery(holds, Overlay(writes), record) <==> HoldsAll(holds, writes, record)
  {
    if MatchesQuery(holds, Overlay(writes), record) {
      forall i | 0 <= i < |writes|
        ensures holds(writes[i].key, writes[i].value, record)
      {
        OverlayLookup(writes, writes[i].key);
      }
    }
    if HoldsAll(holds, writes, record) {
      AllWritesMatch(holds, writes, record);
    }
  }

  lemma {:induction false} RuleOrigin(entries: seq<Entry>, resources: seq<Resource>, userId: string, rule: Rule)
    ensures rule in RulesOf(entries, resources, userId) <==>
            exists i :: 0 <= i < |entries| && SubjectOf(resources, entries[i].resource).Some?
                        && RuleOf(entries[i], SubjectOf(resources, entries[i].resource).value, userId) == Some(rule)
  {
    hide RuleOf;
    if entries != [] {
      var last := |entries| - 1;
      RuleOrigin(entries[..last], resources, userId, rule);
      assert entries == entries[..last] + [entries[last]];
    }
  }

  ghost predicate SomeRuleApplies<R>(holds: Interpreter<R>, rules: seq<Rule>, action: string, subject: string,
      record: R) {
    exists i :: 0 <= i < |rules| && RuleApplies(holds, rules[i], action, subject, record)
  }

  lemma {:induction false} AllowsThenDenies<R>(holds: Interpreter<R>, allows: seq<Rule>, denies: seq<Rule>,
      action: string, subject: string, record: R)
    requires forall i :: 0 <= i < |allows| ==> !allows[i].inverted
    requires forall i :: 0 <= i < |denies| ==> denies[i].inverted
    ensures Can(holds, allows + denies, action, subject, record) <==>
            SomeRuleApplies(holds, allows, action, subject, record) &&
              !SomeRuleApplies(holds, denies, action, subject, record)
    decreases |allows| + |denies|
  {
    hide RuleApplies;
    var rules := allows + denies;
    if denies != [] {
      var init := denies[..|denies| - 1];
      assert rules[..|rules| - 1] == allows + init;
      AllowsThenDenies(holds, allows, init, action, subject, record);
      assert denies == init + [denies[|denies| - 1]];
    } else if allows != [] {
      var init := allows[..|allows| - 1];
      assert rules[..|rules| - 1] == init + denies;
      AllowsThenDenies(holds, init, denies, action, subject, record);
      assert allows == init + [allows[|allows| - 1]];
    }
  }

  lemma RuleMeansEntry<R>(holds: Interpreter<R>, e: Entry, resources: seq<Resource>, own: string, userId: string,
      action: string, subject: string, record: R)
    requires SubjectOf(resources, e.resource) == Some(own)
    ensures var rule := RuleOf(e, own, userId);
            && (rule.Some? ==> rule.value.inverted == IsDeny(e))
            && (rule.Some? && RuleApplies(holds, rule.value, action, subject, record) <==>
                  Grants(holds, e, resources, userId, action, subject, record) ||
                    Denies(holds, e, resources, userId, action, subject, record))
  {
    hide Validate, OwnershipShape, FieldMatchShape, UserAttrShape, Vetoed, MatchesQuery, Writes;
    if e.conditions.Some? {
      OverlayEmpty(Writes(e.conditions.value, userId));
      NoBranchesNoWrites(e.conditions.value, userId);
    }
  }

  lemma NoBranchesNoWrites(c: Condition, userId: string)
    ensures !HasBranches(c) ==> Writes(c, userId) == []
  {
  }

  lemma RulesMeanEntries<R>(holds: Interpreter<R>, entries: seq<Entry>, resources: seq<Resource>, userId: string,
      deny: bool, action: string, subject: string, record: R)
    requires forall e :: e in entries ==> IsDeny(e) == deny
    ensures var rules := RulesOf(entries, resources, userId);
            && (forall i :: 0 <= i < |rules| ==> rules[i].inverted == deny)
            && (SomeRuleApplies(holds, rules, action, subject, record) <==>
                  exists e :: e in entries && (Grants(holds, e, resources, userId, action, subject, record)
                                               || Denies(holds, e, resources, userId, action, subject, record)))
  {
    hide RuleOf, RulesOf, RuleApplies, Grants, Denies;
    var rules := RulesOf(entries, resources, userId);
    forall i | 0 <= i < |rules|
      ensures rules[i].inverted == deny
      ensures RuleApplies(holds, rules[i], action, subject, record) ==>
                exists e :: e in entries && (Grants(holds, e, resources, userId, action, subject, record)
                                             || Denies(holds, e, resources, userId, action, subject, record))
    {
      RuleOrigin(entries, resources, userId, rules[i]);
      var k :| 0 <= k < |entries| && SubjectOf(resources, entries[k].resource).Some?
               && RuleOf(entries[k], SubjectOf(resources, entries[k].resource).value, userId) == Some(rules[i]);
      RuleMeansEntry(holds, entries[k], resources, SubjectOf(resources, entries[k].resource).value, userId, action,
        subject, record);
    }
    forall e | e in entries && (Grants(holds, e, resources, userId, action, subject, record)
                                || Denies(holds, e, resources, userId, action, subject, record))
      ensures SomeRuleApplies(holds, rules, action, subject, record)
    {
      EntryHasRule(holds, entries, e, resources, userId, action, subject, record);
    }
  }

  lemma EntryHasRule<R>(holds: Interpreter<R>, entries: seq<Entry>, e: Entry, resources: seq<Resource>,
      userId: string, action: string, subject: string, record: R)
    requires e in entries
    requires Grants(holds, e, resources, userId, action, subject, record) ||
             Denies(holds, e, resources, userId, action, subject, record)
    ensures SomeRuleApplies(holds, RulesOf(entries, resources, userId), action, subject, record)
  {
    assert SubjectOf(resources, e.resource).Some?;
    hide RuleOf, RulesOf, RuleApplies, Grants, Denies;
    var own := SubjectOf(resources, e.resource).value;
    RuleMeansEntry(holds, e, resources, own, userId, action, subject, record);
    var rule := RuleOf(e, own, userId).value;
    var k :| 0 <= k < |entries| && entries[k] == e;
    RuleOrigin(entries, resources, userId, rule);
  }

  /** The compiled rules decide: a super role, or some permission grants and none denies. */
  lemma DecisionIsGrantWithoutDeny<R>(holds: Interpreter<R>, reg: Registry, user: User, action: string,
      subject: string, record: R)
    ensures Can(holds, PackedRules(reg, user), action, subject, record) <==>
            || HasSuperRole(reg, user)
            || (&& (exists e :: e in Resolved(reg, user) &&
                      Grants(holds, e, reg.resources, user.id, action, subject, record))
                && !(exists e :: e in Resolved(reg, user) &&
                       Denies(holds, e, reg.resources, user.id, action, subject, record)))
  {
    if HasSuperRole(reg, user) {
      assert RuleApplies(holds, Rule("manage", "all", None, false), action, subject, record);
    } else {
      hide Resolved, RulesOf;
      var resolved := Resolved(reg, user);
      var allows, denies := Select(resolved, false), Select(resolved, true);
      RulesMeanEntries(holds, allows, reg.resources, user.id, false, action, subject, record);
      RulesMeanEntries(holds, denies, reg.resources, user.id, true, action, subject, record);
      AllowsThenDenies(holds, RulesOf(allows, reg.resources, user.id), RulesOf(denies, reg.resources, user.id),
        action, subject, record);
    }
  }

  /** Nobody without a super role gets a wildcard allow, whatever the stored names are. */
  lemma NoWildcardAllow(reg: Registry, user: User, rule: Rule)
    requires !HasSuperRole(reg, user) && rule in PackedRules(reg, user) && !rule.inverted
    ensures !Reserved(rule.action, rule.subject)
  {
    hide Resolved, RulesOf, Vetoed, Writes, HasBranches;
    var allows, denies := Select(Resolved(reg, user), false), Select(Resolved(reg, user), true);
    RulesInvertedAsEntries(denies, reg.resources, user.id, true, rule);
    RuleOrigin(allows, reg.resources, user.id, rule);
  }

  lemma RulesInvertedAsEntries(entries: seq<Entry>, resources: seq<Resource>, userId: string, deny: bool, rule: Rule)
    requires forall e :: e in entries ==> IsDeny(e) == deny
    ensures rule in RulesOf(entries, resources, userId) ==> rule.inverted == deny
  {
    hide Vetoed, Writes, HasBranches;
    RuleOrigin(entries, resources, userId, rule);
  }

  lemma OwnerKeyWrittenOnce(c: Condition, userId: string)
    requires !Vetoed(c) && !c.ownership.JNull?
    ensures OwnershipWrites(c, userId) != []
    ensures var owner := OwnershipWrites(c, userId)[0];
            && owner.value == JStr(userId)
            && owner.key in Overlay(Writes(c, userId)) && Overlay(Writes(c, userId))[owner.key] == owner.value
  {
    hide Validate, FieldMatchShape;
    var owner := OwnershipWrites(c, userId)[0];
    var writes := Writes(c, userId);
    assert writes[0] == owner;
    OverlayLookup(writes, owner.key);
    var a, b, d := FieldMatchWrites(c), UserAttrWrites(c, userId), CustomWrites(c);
    assert forall i :: 0 <= i < |a| ==> a[i].key != owner.key;
    assert forall i :: 0 <= i < |b| ==> b[i].key != owner.key;
    assert forall i :: 0 <= i < |d| ==> d[i].key != owner.key;
    assert writes == [owner] + a + b + d;
  }

  /**
   An ownership allow grants only records whose owner field holds the user's id: no other branch can take the field
   over.
   */
  lemma OwnershipIsEnforced<R>(holds: Interpreter<R>, e: Entry, resources: seq<Resource>, userId: string,
      action: string, subject: string, record: R)
    requires Grants(holds, e, resources, userId, action, subject, record)
    requires e.conditions.Some? && !e.conditions.value.ownership.JNull?
    ensures OwnershipShape(e.conditions.value.ownership)
    ensures holds(e.conditions.value.ownership.fields[0].value.s, JStr(userId), record)
  {
    OwnerKeyWrittenOnce(e.conditions.value, userId);
  }

  /** A deny blocks at least every record that all its branches describe, and every record when it does not resolve. */
  lemma DenyCoversItsBranches<R>(holds: Interpreter<R>, e: Entry, resources: seq<Resource>, userId: string, record: R)
    requires IsDeny(e) && SubjectOf(resources, e.resource).Some?
    requires Vetoed(e.conditions.value) || HoldsAll(holds, Writes(e.conditions.value, userId), record)
    ensures Denies(holds, e, resources, userId, e.action, SubjectOf(resources, e.resource).value, record)
  {
    if HoldsAll(holds, Writes(e.conditions.value, userId), record) {
      AllWritesMatch(holds, Writes(e.conditions.value, userId), record);
    }
  }

  // ----- deduplication -----

  ghost predicate KeysDistinct(found: seq<Entry>) {
    forall i, j :: 0 <= i < j < |found| ==> DedupKey(found[i]) != DedupKey(found[j])
  }

  ghost predicate KeyPresent(found: seq<Entry>, key: string) {
    exists i :: 0 <= i < |found| && DedupKey(found[i]) == key
  }

  /** Adding a row keeps what is there, keeps keys distinct, and leaves the row's key present. */
  lemma AddRowDedups(reg: Registry, role: Role, rp: RolePermission, found: seq<Entry>)
    requires KeysDistinct(found)
    ensures var r := AddRow(reg, role, rp, found);
            && KeysDistinct(r) && found <= r
            && (rp.roleId == role.id && EntryOf(reg, rp).Some? ==> KeyPresent(r, DedupKey(EntryOf(reg, rp).value)))
  {
    hide EntryOf, DedupKey;
    var e := EntryOf(reg, rp);
    if rp.roleId == role.id && e.Some? && !KeyPresent(found, DedupKey(e.value)) {
      assert AddRow(reg, role, rp, found)[|found|] == e.value;
    }
  }

  lemma {:induction false} AddRowsDedups(reg: Registry, role: Role, rows: seq<RolePermission>, found: seq<Entry>)
    requires KeysDistinct(found)
    ensures var r := AddRows(reg, role, rows, found);
            && KeysDistinct(r) && found <= r
            && forall i :: 0 <= i < |rows| && rows[i].roleId == role.id && EntryOf(reg, rows[i]).Some? ==>
                 KeyPresent(r, DedupKey(EntryOf(reg, rows[i]).value))
  {
    hide EntryOf, DedupKey, AddRow, KeysDistinct;
    if rows != [] {
      var init := rows[..|rows| - 1];
      AddRowsDedups(reg, role, init, found);
      var before := AddRows(reg, role, init, found);
      AddRowDedups(reg, role, rows[|rows| - 1], before);
      var after := AddRow(reg, role, rows[|rows| - 1], before);
      forall key | KeyPresent(before, key)
        ensures KeyPresent(after, key)
      {
        var k :| 0 <= k < |before| && DedupKey(before[k]) == key;
        assert after[k] == before[k];
      }
      assert forall i :: 0 <= i < |rows| - 1 ==> init[i] == rows[i];
    }
  }

  /** Resolution keeps one entry per effect, resource and action, and drops a row only when its key is already there. */
  lemma {:induction false} ResolvedDedups(reg: Registry, user: User, roles: seq<Role>)
    ensures KeysDistinct(AddRoles(reg, user, roles))
    ensures forall k, i :: 0 <= k < |roles| && roles[k].name in user.roles && 0 <= i < |reg.rolePermissions|
                           && reg.rolePermissions[i].roleId == roles[k].id &&
                                EntryOf(reg, reg.rolePermissions[i]).Some? ==>
              KeyPresent(AddRoles(reg, user, roles), DedupKey(EntryOf(reg, reg.rolePermissions[i]).value))
  {
    hide EntryOf, DedupKey, AddRow, AddRows, KeysDistinct;
    if roles == [] {
      assert KeysDistinct([]) by { NoKeysYet(); }
    } else {
      var init := roles[..|roles| - 1];
      ResolvedDedups(reg, user, init);
      var before, after := AddRoles(reg, user, init), AddRoles(reg, user, roles);
      AddRowsDedups(reg, roles[|roles| - 1], reg.rolePermissions, before);
      forall key | KeyPresent(before, key)
        ensures KeyPresent(after, key)
      {
        var k :| 0 <= k < |before| && DedupKey(before[k]) == key;
        assert after[k] == before[k];
      }
      assert forall k :: 0 <= k < |roles| - 1 ==> init[k] == roles[k];
    }
  }

  lemma NoKeysYet()
    ensures KeysDistinct([])
  {
  }
}
