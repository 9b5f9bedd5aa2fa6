/** The loops that build a user's permissions and rules, each equal to its definition in `Ability`. */
module AbilityCompiler {
  import opened Core
  import opened MongoQuery
  import opened Ability

  lemma RowsStep(reg: Registry, role: Role, rows: seq<RolePermission>, found: seq<Entry>, k: nat)
    requires k < |rows|
    ensures AddRows(reg, role, rows[..k + 1], found) == AddRow(reg, role, rows[k], AddRows(reg, role, rows[..k], found))
  {
    assert rows[..k + 1][..k] == rows[..k];
  }

  /**
   `getResolvedPermissionsForUser`: an insertion-ordered map filled first-wins, kept here as its key set and its
   values.
   */
  method ResolvePermissions(reg: Registry, user: User) returns (resolved: seq<Entry>)
    ensures resolved == Resolved(reg, user)
  {
    resolved := [];
    var keys: set<string> := {};
    for r := 0 to |reg.roles|
      invariant resolved == AddRoles(reg, user, reg.roles[..r])
      invariant forall key :: key in keys <==> KeyPresent(resolved, key)
    {
      var role := reg.roles[r];
      assert reg.roles[..r + 1][..r] == reg.roles[..r];
      if role.name in user.roles {
        ghost var before := resolved;
        for k := 0 to |reg.rolePermissions|
          invariant resolved == AddRows(reg, role, reg.rolePermissions[..k], before)
          invariant forall key :: key in keys <==> KeyPresent(resolved, key)
        {
          var row := reg.rolePermissions[k];
          RowsStep(reg, role, reg.rolePermissions, before, k);
          if row.roleId == role.id {
            var entry := EntryOf(reg, row);
            if entry.Some? && DedupKey(entry.value) !in keys {
              assert !KeyPresent(resolved, DedupKey(entry.value));
              KeysGrow(resolved, entry.value);
              resolved := resolved + [entry.value];
              keys := keys + {DedupKey(entry.value)};
            }
          }
        }
        assert reg.rolePermissions[..|reg.rolePermissions|] == reg.rolePermissions;
      }
    }
    assert reg.roles[..|reg.roles|] == reg.roles;
  }

  lemma KeysGrow(found: seq<Entry>, e: Entry)
    ensures forall key :: KeyPresent(found + [e], key) <==> KeyPresent(found, key) || key == DedupKey(e)
  {
    hide DedupKey;
    var grown := found + [e];
    forall key | KeyPresent(found, key) || key == DedupKey(e)
      ensures KeyPresent(grown, key)
    {
      if KeyPresent(found, key) {
        var i :| 0 <= i < |found| && DedupKey(found[i]) == key;
        assert grown[i] == found[i];
      } else {
        assert grown[|found|] == e;
      }
    }
  }

  lemma OverlayStep(writes: seq<Field>, w: Field)
    ensures Overlay(writes + [w]) == Overlay(writes)[w.key := w.value]
  {
    assert (writes + [w])[..|writes|] == writes;
  }

  lemma OverlayPrefix(head: seq<Field>, tail: seq<Field>, k: nat)
    requires k < |tail|
    ensures Overlay(head + tail[..k + 1]) == Overlay(head + tail[..k])[tail[k].key := tail[k].value]
  {
    assert head + tail[..k + 1] == (head + tail[..k]) + [tail[k]];
    OverlayStep(head + tail[..k], tail[k]);
  }

  /** Writes the fields of one branch over the query, stopping at the protected key. */
  method WriteFields(query: Query, fields: seq<Field>, owner: Option<string>, ghost head: seq<Field>)
      returns (vetoed: bool, result: Query)
    requires query == Overlay(head)
    ensures vetoed <==> Overwrites(fields, owner)
    ensures !vetoed ==> result == Overlay(head + fields)
  {
    vetoed, result := false, query;
    assert head + fields[..0] == head;
    for k := 0 to |fields|
      invariant !vetoed
      invariant result == Overlay(head + fields[..k])
      invariant owner.Some? ==> !Mentions(fields[..k], owner.value)
    {
      if owner == Some(fields[k].key) {
        vetoed := true;
        return;
      }
      OverlayPrefix(head, fields, k);
      result := result[fields[k].key := fields[k].value];
    }
    assert fields[..|fields|] == fields;
  }

  method ApplyOwnership(c: Condition, userId: string) returns (vetoed: bool, query: Query)
    ensures vetoed <==> OwnershipVeto(c)
    ensures !vetoed ==> query == Overlay(OwnershipWrites(c, userId))
  {
    vetoed, query := false, map[];
    if !c.ownership.JNull? {
      if OwnershipShape(c.ownership) {
        query := query[c.ownership.fields[0].value.s := JStr(userId)];
        OverlayStep([], OwnershipWrites(c, userId)[0]);
        assert [] + OwnershipWrites(c, userId) == OwnershipWrites(c, userId);
      } else {
        vetoed := true;
      }
    }
  }

  method ApplyFieldMatch(c: Condition, query: Query, ghost head: seq<Field>) returns (vetoed: bool, result: Query)
    requires query == Overlay(head)
    ensures vetoed <==> FieldMatchVeto(c)
    ensures !vetoed ==> result == Overlay(head + FieldMatchWrites(c))
  {
    vetoed, result := false, query;
    assert head + [] == head;
    if !c.fieldMatch.JNull? {
      if FieldMatchShape(c.fieldMatch) {
        vetoed, result := WriteFields(query, FieldMatchWrites(c), OwnerKey(c), head);
      } else {
        vetoed := true;
      }
    }
  }

  /** Binds each field to the user's id, stopping at an attribute other than the id or at the protected key. */
  method BindFields(query: Query, fields: seq<Field>, userId: string, owner: Option<string>, ghost head: seq<Field>)
      returns (vetoed: bool, result: Query)
    requires query == Overlay(head)
    ensures vetoed <==> Overwrites(fields, owner) || exists i :: 0 <= i < |fields| && fields[i].value != JStr("id")
    ensures !vetoed ==> result == Overlay(head + BoundToUser(fields, userId))
  {
    hide Overlay;
    vetoed, result := false, query;
    ghost var writes := BoundToUser(fields, userId);
    assert head + writes[..0] == head;
    for k := 0 to |fields|
      invariant result == Overlay(head + writes[..k])
      invariant forall i :: 0 <= i < k ==> fields[i].value == JStr("id") && owner != Some(fields[i].key)
    {
      if fields[k].value != JStr("id") || owner == Some(fields[k].key) {
        return true, result;
      }
      OverlayPrefix(head, writes, k);
      result := result[fields[k].key := JStr(userId)];
    }
    assert writes[..|fields|] == writes;
  }

  method ApplyUserAttr(c: Condition, userId: string, query: Query, ghost head: seq<Field>)
      returns (vetoed: bool, result: Query)
    requires query == Overlay(head)
    ensures vetoed <==> UserAttrVeto(c)
    ensures !vetoed ==> result == Overlay(head + UserAttrWrites(c, userId))
  {
    vetoed, result := false, query;
    assert head + [] == head;
    if !c.userAttr.JNull? {
      if UserAttrShape(c.userAttr) {
        vetoed, result := BindFields(query, c.userAttr.fields, userId, OwnerKey(c), head);
      } else {
        vetoed := true;
      }
    }
  }

  method ApplyCustom(c: Condition, query: Query, ghost head: seq<Field>) returns (vetoed: bool, result: Query)
    requires query == Overlay(head)
    ensures vetoed <==> CustomVeto(c)
    ensures !vetoed ==> result == Overlay(head + CustomWrites(c))
  {
    hide Validate;
    vetoed, result := false, query;
    assert head + [] == head;
    match c.custom {
      case NoCustom =>
      case Blank => vetoed := true;
      case Unparsable => vetoed := true;
      case ParsedTo(json) =>
        if !json.JObj? || Validate(json, "", 0).Some? {
          vetoed := true;
        } else {
          vetoed, result := WriteFields(query, json.fields, OwnerKey(c), head);
        }
    }
  }

  /** The condition branches in order: a veto by any of them stops the rest. */
  method BuildQuery(c: Condition, userId: string) returns (vetoed: bool, query: Query)
    ensures vetoed <==> Vetoed(c)
    ensures !vetoed ==> query == Overlay(Writes(c, userId))
  {
    hide OwnershipVeto, FieldMatchVeto, UserAttrVeto, CustomVeto, OwnershipWrites, FieldMatchWrites, UserAttrWrites,
      CustomWrites;
    ghost var head := OwnershipWrites(c, userId);
    vetoed, query := ApplyOwnership(c, userId);
    if !vetoed {
      vetoed, query := ApplyFieldMatch(c, query, head);
      head := head + FieldMatchWrites(c);
    }
    if !vetoed {
      vetoed, query := ApplyUserAttr(c, userId, query, head);
      head := head + UserAttrWrites(c, userId);
    }
    if !vetoed {
      vetoed, query := ApplyCustom(c, query, head);
    }
  }

  /** Registers one entry's rule, as the last step of the loop over the permissions. */
  method Register(e: Entry, subject: string, userId: string, rules: seq<Rule>) returns (registered: seq<Rule>)
    ensures registered == match RuleOf(e, subject, userId) case None => rules case Some(rule) => rules + [rule]
  {
    hide Vetoed, Overlay, Writes;
    var deny := IsDeny(e);
    var unconditional := Rule(e.action, subject, None, deny);
    if Reserved(e.action, subject) {
      return if deny then rules + [unconditional] else rules;
    }
    if e.conditions.None? {
      return rules + [unconditional];
    }
    var vetoed, query := BuildQuery(e.conditions.value, userId);
    if !vetoed && query != map[] {
      registered := rules + [Rule(e.action, subject, Some(query), deny)];
    } else if !vetoed && !HasBranches(e.conditions.value) {
      registered := rules + [unconditional];
    } else if deny {
      registered := rules + [unconditional];
    } else {
      registered := rules;
    }
  }

  method RegisterAll(entries: seq<Entry>, subjects: map<string, string>, userId: string,
      ghost resources: seq<Resource>, rules: seq<Rule>)
    returns (registered: seq<Rule>)
    requires MapsSubjects(subjects, resources)
    ensures registered == rules + RulesOf(entries, resources, userId)
  {
    hide RuleOf, SubjectOf;
    registered := rules;
    for k := 0 to |entries|
      invariant registered == rules + RulesOf(entries[..k], resources, userId)
    {
      assert entries[..k + 1][..k] == entries[..k];
      var e := entries[k];
      if e.resource in subjects && subjects[e.resource] != "" {
        registered := Register(e, subjects[e.resource], userId, registered);
      }
    }
    assert entries[..|entries|] == entries;
  }

  /** The subject of each resource name; the map behind `subjectMap`. */
  ghost predicate MapsSubjects(subjects: map<string, string>, resources: seq<Resource>) {
    forall name :: SubjectOf(resources, name) ==
                   if name in subjects && subjects[name] != "" then Some(subjects[name]) else None
  }

  method SubjectMap(resources: seq<Resource>) returns (subjects: map<string, string>)
    ensures MapsSubjects(subjects, resources)
  {
    subjects := map[];
    for k := 0 to |resources|
      invariant MapsSubjects(subjects, resources[..k])
    {
      assert resources[..k + 1][..k] == resources[..k];
      subjects := subjects[resources[k].name := resources[k].subject];
    }
    assert resources[..|resources|] == resources;
  }

  /** `getPackedRulesForUser`. */
  method CompileRules(reg: Registry, user: User) returns (rules: seq<Rule>)
    ensures rules == PackedRules(reg, user)
  {
    hide RulesOf, Resolved, SubjectOf;
    if HasSuperRole(reg, user) {
      return [Rule("manage", "all", None, false)];
    }
    var subjects := SubjectMap(reg.resources);
    var resolved := ResolvePermissions(reg, user);
    rules := RegisterAll(Select(resolved, false), subjects, user.id, reg.resources, []);
    rules := RegisterAll(Select(resolved, true), subjects, user.id, reg.resources, rules);
  }
}
