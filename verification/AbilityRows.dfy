/** The decision in terms of the stored rows: which row of a held role counts, and what the dedup key can confuse. */
module AbilityRows {
  import opened Core
  import opened MongoQuery
  import opened Ability

  // ----- rows of held roles, in scanning order -----

  /** Row `i`, scanned for role `k`, yields an entry for the user. */
  predicate Yields(reg: Registry, user: User, k: nat, i: nat) {
    && k < |reg.roles| && i < |reg.rolePermissions| && reg.roles[k].name in user.roles
    && reg.rolePermissions[i].roleId == reg.roles[k].id && EntryOf(reg, reg.rolePermissions[i]).Some?
  }

  /** The entry of a row; the default stands for rows that have none. */
  function EntryAt(reg: Registry, i: nat): Entry {
    if i < |reg.rolePermissions| then EntryOf(reg, reg.rolePermissions[i]).GetOr(Entry("", "", None))
      else Entry("", "", None)
  }

  /** Roles are scanned in order, and for each of them the rows in order. */
  predicate Precedes(a: nat, b: nat, k: nat, i: nat) { a < k || (a == k && b < i) }

  ghost predicate Taken(reg: Registry, user: User, key: string, k: nat, i: nat) {
    exists a: nat, b: nat :: Precedes(a, b, k, i) && Yields(reg, user, a, b) && DedupKey(EntryAt(reg, b)) == key
  }

  /** A row counts when no earlier row has its key: the first wins. */
  ghost predicate Effective(reg: Registry, user: User, k: nat, i: nat) {
    Yields(reg, user, k, i) && !Taken(reg, user, DedupKey(EntryAt(reg, i)), k, i)
  }

  ghost predicate Counted(reg: Registry, user: User, e: Entry, k: nat, i: nat) {
    exists a: nat, b: nat :: Precedes(a, b, k, i) && Effective(reg, user, a, b) && EntryAt(reg, b) == e
  }

  /** What the scan has found just before row `i` of role `k`. */
  ghost predicate Tracks(reg: Registry, user: User, found: seq<Entry>, k: nat, i: nat) {
    && (forall e :: e in found <==> Counted(reg, user, e, k, i))
    && (forall key :: KeyPresent(found, key) <==> Taken(reg, user, key, k, i))
  }

  lemma NextTaken(reg: Registry, user: User, key: string, k: nat, i: nat)
    ensures Taken(reg, user, key, k, i + 1) <==>
            Taken(reg, user, key, k, i) || (Yields(reg, user, k, i) && DedupKey(EntryAt(reg, i)) == key)
  {
    hide Yields, DedupKey, EntryOf;
    if Taken(reg, user, key, k, i) {
      var a: nat, b: nat :| Precedes(a, b, k, i) && Yields(reg, user, a, b) && DedupKey(EntryAt(reg, b)) == key;
      assert Precedes(a, b, k, i + 1);
    }
    if Yields(reg, user, k, i) && DedupKey(EntryAt(reg, i)) == key {
      assert Precedes(k, i, k, i + 1);
    }
  }

  lemma NextCounted(reg: Registry, user: User, e: Entry, k: nat, i: nat)
    ensures Counted(reg, user, e, k, i + 1) <==>
            Counted(reg, user, e, k, i) || (Effective(reg, user, k, i) && EntryAt(reg, i) == e)
  {
    hide Yields, DedupKey, EntryOf, Taken;
    if Counted(reg, user, e, k, i) {
      var a: nat, b: nat :| Precedes(a, b, k, i) && Effective(reg, user, a, b) && EntryAt(reg, b) == e;
      assert Precedes(a, b, k, i + 1);
    }
    if Effective(reg, user, k, i) && EntryAt(reg, i) == e {
      assert Precedes(k, i, k, i + 1);
    }
  }

  /** Going on to the next role, when the rows left for this one yield nothing. */
  lemma NextRole(reg: Registry, user: User, found: seq<Entry>, k: nat, i: nat)
    requires Tracks(reg, user, found, k, i)
    requires forall b: nat :: i <= b ==> !Yields(reg, user, k, b)
    ensures Tracks(reg, user, found, k + 1, 0)
  {
    hide Yields, DedupKey, EntryOf, KeyPresent;
    forall key
      ensures Taken(reg, user, key, k + 1, 0) <==> Taken(reg, user, key, k, i)
    {
      if Taken(reg, user, key, k, i) {
        var a: nat, b: nat :| Precedes(a, b, k, i) && Yields(reg, user, a, b) && DedupKey(EntryAt(reg, b)) == key;
        assert Precedes(a, b, k + 1, 0);
      }
      if Taken(reg, user, key, k + 1, 0) {
        var a: nat, b: nat :| Precedes(a, b, k + 1, 0) && Yields(reg, user, a, b) && DedupKey(EntryAt(reg, b)) == key;
        assert Precedes(a, b, k, i);
      }
    }
    forall e
      ensures Counted(reg, user, e, k + 1, 0) <==> Counted(reg, user, e, k, i)
    {
      SameCounted(reg, user, e, k, i);
    }
  }

  lemma SameCounted(reg: Registry, user: User, e: Entry, k: nat, i: nat)
    requires forall b: nat :: i <= b ==> !Yields(reg, user, k, b)
    ensures Counted(reg, user, e, k + 1, 0) <==> Counted(reg, user, e, k, i)
  {
    hide Yields, DedupKey, EntryOf, Taken;
    if Counted(reg, user, e, k, i) {
      var a: nat, b: nat :| Precedes(a, b, k, i) && Effective(reg, user, a, b) && EntryAt(reg, b) == e;
      assert Precedes(a, b, k + 1, 0);
    }
    if Counted(reg, user, e, k + 1, 0) {
      var a: nat, b: nat :| Precedes(a, b, k + 1, 0) && Effective(reg, user, a, b) && EntryAt(reg, b) == e;
      assert Precedes(a, b, k, i);
    }
  }

  lemma RowTracks(reg: Registry, user: User, found: seq<Entry>, k: nat, i: nat)
    requires k < |reg.roles| && reg.roles[k].name in user.roles && i < |reg.rolePermissions|
    requires Tracks(reg, user, found, k, i)
    ensures Tracks(reg, user, AddRow(reg, reg.roles[k], reg.rolePermissions[i], found), k, i + 1)
  {
    hide DedupKey, EntryOf, Taken, Counted;
    var row := reg.rolePermissions[i];
    var after := AddRow(reg, reg.roles[k], row, found);
    var counts := Yields(reg, user, k, i);
    if counts {
      var e := EntryAt(reg, i);
      assert after == if KeyPresent(found, DedupKey(e)) then found else found + [e];
      Appended(found, e);
    } else {
      assert after == found;
    }
    forall key
      ensures KeyPresent(after, key) <==> Taken(reg, user, key, k, i + 1)
    {
      NextTaken(reg, user, key, k, i);
    }
    forall x
      ensures x in after <==> Counted(reg, user, x, k, i + 1)
    {
      NextCounted(reg, user, x, k, i);
    }
  }

  lemma Appended(found: seq<Entry>, e: Entry)
    ensures forall key :: KeyPresent(found + [e], key) <==> KeyPresent(found, key) || DedupKey(e) == key
  {
    hide DedupKey;
    forall key | KeyPresent(found, key)
      ensures KeyPresent(found + [e], key)
    {
      var i :| 0 <= i < |found| && DedupKey(found[i]) == key;
      assert (found + [e])[i] == found[i];
    }
    assert (found + [e])[|found|] == e;
  }

  lemma {:induction false} RowsTrack(reg: Registry, user: User, found: seq<Entry>, k: nat, i: nat)
    requires k < |reg.roles| && reg.roles[k].name in user.roles && i <= |reg.rolePermissions|
    requires Tracks(reg, user, found, k, 0)
    ensures Tracks(reg, user, AddRows(reg, reg.roles[k], reg.rolePermissions[..i], found), k, i)
  {
    hide Tracks, AddRow;
    if i > 0 {
      RowsTrack(reg, user, found, k, i - 1);
      var rows := reg.rolePermissions[..i];
      assert rows[..i - 1] == reg.rolePermissions[..i - 1] && rows[i - 1] == reg.rolePermissions[i - 1];
      RowTracks(reg, user, AddRows(reg, reg.roles[k], reg.rolePermissions[..i - 1], found), k, i - 1);
    } else {
      assert reg.rolePermissions[..0] == [];
    }
  }

  lemma {:induction false} RolesTrack(reg: Registry, user: User, k: nat)
    requires k <= |reg.roles|
    ensures Tracks(reg, user, AddRoles(reg, user, reg.roles[..k]), k, 0)
  {
    hide Tracks, AddRows;
    if k == 0 {
      assert reg.roles[..0] == [];
      NothingYet(reg, user);
    } else {
      RolesTrack(reg, user, k - 1);
      var found := AddRoles(reg, user, reg.roles[..k - 1]);
      assert reg.roles[..k][..k - 1] == reg.roles[..k - 1];
      if reg.roles[k - 1].name in user.roles {
        RowsTrack(reg, user, found, k - 1, |reg.rolePermissions|);
        assert reg.rolePermissions[..|reg.rolePermissions|] == reg.rolePermissions;
        NextRole(reg, user, AddRows(reg, reg.roles[k - 1], reg.rolePermissions, found), k - 1, |reg.rolePermissions|);
      } else {
        NextRole(reg, user, found, k - 1, 0);
      }
    }
  }

  lemma NothingYet(reg: Registry, user: User)
    ensures Tracks(reg, user, [], 0, 0)
  {
  }

  /** An entry is resolved if and only if a row of a held role yields it and no earlier such row has its key. */
  lemma ResolvedIffEffective(reg: Registry, user: User, e: Entry)
    ensures e in Resolved(reg, user) <==> exists k: nat, i: nat :: Effective(reg, user, k, i) && EntryAt(reg, i) == e
  {
    RolesTrack(reg, user, |reg.roles|);
    assert reg.roles[..|reg.roles|] == reg.roles;
    hide DedupKey, EntryOf, Taken, AddRoles;
    assert e in Resolved(reg, user) <==> Counted(reg, user, e, |reg.roles|, 0);
    forall k: nat, i: nat | Effective(reg, user, k, i)
      ensures Precedes(k, i, |reg.roles|, 0)
    {
    }
  }

  /** One row counts for each key. */
  lemma EffectiveIsFirst(reg: Registry, user: User, a: nat, b: nat, k: nat, i: nat)
    requires Effective(reg, user, a, b) && Effective(reg, user, k, i) &&
             DedupKey(EntryAt(reg, b)) == DedupKey(EntryAt(reg, i))
    ensures a == k && b == i
  {
    hide DedupKey, EntryOf, Yields;
    assert Precedes(a, b, k, i) || Precedes(k, i, a, b) || (a == k && b == i);
  }

  // ----- the decision -----

  ghost predicate RowGrants<R>(holds: Interpreter<R>, reg: Registry, user: User, k: nat, i: nat,
                               action: string, subject: string, record: R)
  {
    Effective(reg, user, k, i) && Grants(holds, EntryAt(reg, i), reg.resources, user.id, action, subject, record)
  }

  ghost predicate RowDenies<R>(holds: Interpreter<R>, reg: Registry, user: User, k: nat, i: nat,
                               action: string, subject: string, record: R)
  {
    Effective(reg, user, k, i) && Denies(holds, EntryAt(reg, i), reg.resources, user.id, action, subject, record)
  }

  /**
   The compiled rules allow if and only if the user has a super role, or some stored row that counts grants and none
   that counts denies.
   */
  lemma DecisionOverRows<R>(holds: Interpreter<R>, reg: Registry, user: User, action: string, subject: string,
      record: R)
    ensures Can(holds, PackedRules(reg, user), action, subject, record) <==>
            || HasSuperRole(reg, user)
            || (&& (exists k: nat, i: nat :: RowGrants(holds, reg, user, k, i, action, subject, record))
                && !(exists k: nat, i: nat :: RowDenies(holds, reg, user, k, i, action, subject, record)))
  {
    hide Resolved, Grants, Denies, PackedRules, Can, Effective, EntryOf;
    DecisionIsGrantWithoutDeny(holds, reg, user, action, subject, record);
    forall e
      ensures e in Resolved(reg, user) <==> exists k: nat, i: nat :: Effective(reg, user, k, i) && EntryAt(reg, i) == e
    {
      ResolvedIffEffective(reg, user, e);
    }
    RowsAreEntries(holds, reg, user, action, subject, record);
  }

  lemma RowsAreEntries<R>(holds: Interpreter<R>, reg: Registry, user: User, action: string, subject: string, record: R)
    requires forall e :: e in Resolved(reg, user) <==>
             exists k: nat, i: nat :: Effective(reg, user, k, i) && EntryAt(reg, i) == e
    ensures (exists e :: e in Resolved(reg, user) &&
               Grants(holds, e, reg.resources, user.id, action, subject, record)) <==>
            (exists k: nat, i: nat :: RowGrants(holds, reg, user, k, i, action, subject, record))
    ensures (exists e :: e in Resolved(reg, user) &&
               Denies(holds, e, reg.resources, user.id, action, subject, record)) <==>
            (exists k: nat, i: nat :: RowDenies(holds, reg, user, k, i, action, subject, record))
  {
    hide Resolved, Grants, Denies, Taken, Yields, EntryOf;
    if e :| e in Resolved(reg, user) && Grants(holds, e, reg.resources, user.id, action, subject, record) {
      var k: nat, i: nat :| Effective(reg, user, k, i) && EntryAt(reg, i) == e;
      assert RowGrants(holds, reg, user, k, i, action, subject, record);
    }
    if k: nat, i: nat :| RowGrants(holds, reg, user, k, i, action, subject, record) {
      assert EntryAt(reg, i) in Resolved(reg, user);
    }
    if e :| e in Resolved(reg, user) && Denies(holds, e, reg.resources, user.id, action, subject, record) {
      var k: nat, i: nat :| Effective(reg, user, k, i) && EntryAt(reg, i) == e;
      assert RowDenies(holds, reg, user, k, i, action, subject, record);
    }
    if k: nat, i: nat :| RowDenies(holds, reg, user, k, i, action, subject, record) {
      assert EntryAt(reg, i) in Resolved(reg, user);
    }
  }

  /** A stored deny that counts blocks every record its branches describe, and every record when it does not resolve. */
  lemma EffectiveDenyBlocks<R>(holds: Interpreter<R>, reg: Registry, user: User, k: nat, i: nat, record: R)
    requires !HasSuperRole(reg, user) && Effective(reg, user, k, i)
    requires var e := EntryAt(reg, i);
             && IsDeny(e) && SubjectOf(reg.resources, e.resource).Some?
             && (Vetoed(e.conditions.value) || HoldsAll(holds, Writes(e.conditions.value, user.id), record))
    ensures var e := EntryAt(reg, i);
            !Can(holds, PackedRules(reg, user), e.action, SubjectOf(reg.resources, e.resource).value, record)
  {
    var e := EntryAt(reg, i);
    var subject := SubjectOf(reg.resources, e.resource).value;
    DenyCoversItsBranches(holds, e, reg.resources, user.id, record);
    assert RowDenies(holds, reg, user, k, i, e.action, subject, record);
    DecisionOverRows(holds, reg, user, e.action, subject, record);
    hide HasSuperRole, Can, PackedRules, Denies, Effective;
  }

  /**
   Of two denies - or two allows - of one permission that the user holds, the later never counts, whatever its
   condition.
   */
  lemma LaterRowIsShadowed(reg: Registry, user: User, a: nat, b: nat, k: nat, i: nat)
    requires Yields(reg, user, a, b) && Yields(reg, user, k, i) && Precedes(a, b, k, i)
    requires reg.rolePermissions[b].permissionId == reg.rolePermissions[i].permissionId
    requires IsDeny(EntryAt(reg, b)) == IsDeny(EntryAt(reg, i))
    ensures !Effective(reg, user, k, i)
  {
    assert DedupKey(EntryAt(reg, b)) == DedupKey(EntryAt(reg, i));
    hide DedupKey, EntryOf, Yields;
    assert Taken(reg, user, DedupKey(EntryAt(reg, i)), k, i);
  }

  /**
   So a deny is lost when a deny of the same permission comes first: the record it describes is allowed if nothing
   that counts denies it.
   */
  lemma ShadowedDenyIsLost<R>(holds: Interpreter<R>, reg: Registry, user: User, a: nat, b: nat, k: nat, i: nat,
                              action: string, subject: string, record: R)
    requires Yields(reg, user, a, b) && Yields(reg, user, k, i) && Precedes(a, b, k, i)
    requires reg.rolePermissions[b].permissionId == reg.rolePermissions[i].permissionId
    requires IsDeny(EntryAt(reg, b)) && IsDeny(EntryAt(reg, i))
    requires exists c: nat, d: nat :: RowGrants(holds, reg, user, c, d, action, subject, record)
    requires forall c: nat, d: nat :: (c, d) != (k, i) ==> !RowDenies(holds, reg, user, c, d, action, subject, record)
    ensures Can(holds, PackedRules(reg, user), action, subject, record)
  {
    LaterRowIsShadowed(reg, user, a, b, k, i);
    DecisionOverRows(holds, reg, user, action, subject, record);
    hide Can, PackedRules, Denies, Grants, Effective, Yields, HasSuperRole;
  }

  /** An allow row and one deny each from two roles, all on reading users. */
  function TwoDenies(first: Condition, second: Condition): Registry {
    Registry([Role("r1", "one", false), Role("r2", "two", false)],
             [RolePermission("r1", "p", None), RolePermission("r1", "p", Some(first)),
               RolePermission("r2", "p", Some(second))],
             map["p" := Permission("users", "read")],
             [Resource("users", "users", "User")],
             map["read" := "read"])
  }

  lemma TwoDenyRows(first: Condition, second: Condition, user: User)
    requires first.deny && second.deny && user.roles == ["one", "two"]
    ensures var reg := TwoDenies(first, second);
            && (forall k: nat, i: nat :: Yields(reg, user, k, i) <==> (k == 0 && i <= 1) || (k == 1 && i == 2))
            && EntryAt(reg, 0) == Entry("users", "read", None) && EntryAt(reg, 1) == Entry("users", "read", Some(first))
            && EntryAt(reg, 2) == Entry("users", "read", Some(second))
            && SubjectOf(reg.resources, "users") == Some("User")
  {
    var reg := TwoDenies(first, second);
    assert reg.resources[..0] == [];
    var found := First(reg.resources, (r: Resource) => r.id == "users");
    assert found == Some(0) by {
      assert reg.resources[0].id == "users";
    }
    hide SubjectOf;
  }

  lemma NotReserved()
    ensures !Reserved("read", "User")
  {
    assert Lower("User")[0] == 'u';
  }

  /**
   Whatever the two conditions: a record the first deny does not describe is read, even if the second deny describes
   it - or does not resolve and so should refuse everything.
   */
  lemma SecondDenyIsLost<R>(holds: Interpreter<R>, first: Condition, second: Condition, user: User, record: R)
    requires first.deny && second.deny && user.roles == ["one", "two"]
    requires !Vetoed(first) && Writes(first, user.id) != []
    requires !MatchesQuery(holds, Overlay(Writes(first, user.id)), record)
    ensures Can(holds, PackedRules(TwoDenies(first, second), user), "read", "User", record)
  {
    hide Vetoed, Writes, Overlay, MatchesQuery, PackedRules, Can, DedupKey, EntryOf, Yields, SubjectOf, TwoDenies,
      Reserved;
    var reg := TwoDenies(first, second);
    TwoDenyRows(first, second, user);
    NotReserved();
    KeyOfRead(reg, user, first, second);
    assert RowGrants(holds, reg, user, 0, 0, "read", "User", record);
    ShadowedDenyIsLost(holds, reg, user, 0, 1, 1, 2, "read", "User", record);
  }

  lemma KeyOfRead(reg: Registry, user: User, first: Condition, second: Condition)
    requires first.deny && second.deny && user.roles == ["one", "two"] && reg == TwoDenies(first, second)
    ensures Effective(reg, user, 0, 0)
    ensures reg.rolePermissions[1].permissionId == reg.rolePermissions[2].permissionId
    ensures reg.resources == [Resource("users", "users", "User")] && |reg.rolePermissions| == 3
  {
    TwoDenyRows(first, second, user);
    hide DedupKey, EntryOf;
  }

  /** A deny of the records whose `field` is "x". */
  function DenyWhere(field: string): Condition {
    Condition(true, JNull, JObj([Field(field, JArr([JStr("x")]))]), JNull, NoCustom)
  }

  lemma DenyWhereResolves(field: string, userId: string)
    requires ValidKey(field)
    ensures !Vetoed(DenyWhere(field))
    ensures Writes(DenyWhere(field), userId) == [Field(field, JObj([Field("$in", JArr([JStr("x")]))]))]
    ensures Overlay(Writes(DenyWhere(field), userId)) == map[field := JObj([Field("$in", JArr([JStr("x")]))])]
  {
    hide ValidKey;
    var writes := [Field(field, JObj([Field("$in", JArr([JStr("x")]))]))];
    assert FieldMatchWrites(DenyWhere(field)) == writes;
    assert writes[..0] == [];
  }

  /**
   An input: two roles deny reading where one field or another is "x"; a record that meets only the second condition
   is described by that deny, and read.
   */
  lemma SecondDenyExample(userId: string, one: string, other: string)
    requires ValidKey(one) && ValidKey(other) && one != other
    ensures var holds := (key: string, value: Json, record: string) => key == record;
            && !Vetoed(DenyWhere(other)) && MatchesQuery(holds, Overlay(Writes(DenyWhere(other), userId)), other)
            && Can(holds, PackedRules(TwoDenies(DenyWhere(one), DenyWhere(other)), User(userId, ["one", "two"])),
                 "read", "User", other)
  {
    hide ValidKey, Vetoed, Writes, Overlay, Can, PackedRules, TwoDenies;
    var holds := (key: string, value: Json, record: string) => key == record;
    DenyWhereResolves(one, userId);
    DenyWhereResolves(other, userId);
    assert one in Overlay(Writes(DenyWhere(one), userId));
    SecondDenyIsLost(holds, DenyWhere(one), DenyWhere(other), User(userId, ["one", "two"]), other);
  }

  // ----- what the key can confuse -----

  lemma Prefixed(a: string, b: string, x: string, y: string)
    requires a + ":" + x == b + ":" + y && |a| <= |b|
    ensures a == b ==> x == y
    ensures a != b ==> |a| < |b| && b[..|a|] == a && b[|a|] == ':' && x == b[|a| + 1..] + ":" + y
  {
    var left, right := a + ":" + x, b + ":" + y;
    assert left[..|a|] == a && left[|a|] == ':' && left[|a| + 1..] == x;
    assert right[..|b|] == b && right[|b| + 1..] == y;
    assert b[..|a|] == right[..|a|];
    if |a| == |b| {
      assert b == b[..|a|];
    } else {
      assert right[|a|] == b[|a|];
      assert right[|a| + 1..] == b[|a| + 1..] + ":" + y;
    }
  }

  /** One name continues the other with a colon. */
  predicate Continues(longer: string, shorter: string) {
    |shorter| < |longer| && longer[..|shorter|] == shorter && longer[|shorter|] == ':'
  }

  lemma KeysEqual(a: Entry, b: Entry)
    ensures DedupKey(a) == DedupKey(b) <==>
            IsDeny(a) == IsDeny(b) && a.resource + ":" + a.action == b.resource + ":" + b.action
  {
    assert DedupKey(a) == (if IsDeny(a) then "deny:" else "allow:") + (a.resource + ":" + a.action);
    assert DedupKey(b) == (if IsDeny(b) then "deny:" else "allow:") + (b.resource + ":" + b.action);
    if IsDeny(a) == IsDeny(b) {
      var n := if IsDeny(a) then 5 else 6;
      assert DedupKey(a)[n..] == a.resource + ":" + a.action && DedupKey(b)[n..] == b.resource + ":" + b.action;
    } else {
      assert DedupKey(a)[0] != DedupKey(b)[0];
    }
  }

  /**
   Two keys are equal exactly for the same effect, resource and action, unless one resource name continues the other
   with a colon.
   */
  lemma KeysTellPermissionsApart(a: Entry, b: Entry)
    requires !Continues(a.resource, b.resource) && !Continues(b.resource, a.resource)
    ensures DedupKey(a) == DedupKey(b) <==> IsDeny(a) == IsDeny(b) && a.resource == b.resource && a.action == b.action
  {
    KeysEqual(a, b);
    if a.resource + ":" + a.action == b.resource + ":" + b.action {
      if |a.resource| <= |b.resource| {
        Prefixed(a.resource, b.resource, a.action, b.action);
      } else {
        Prefixed(b.resource, a.resource, b.action, a.action);
      }
    }
  }

  /** Exactly then some actions make two different resources share a key. */
  lemma ResourcesCollideIff(a: string, b: string)
    requires a != b
    ensures (exists x, y :: a + ":" + x == b + ":" + y) <==> Continues(a, b) || Continues(b, a)
  {
    if x, y :| a + ":" + x == b + ":" + y {
      if |a| <= |b| {
        Prefixed(a, b, x, y);
      } else {
        Prefixed(b, a, y, x);
      }
    }
    if Continues(b, a) {
      assert a + ":" + (b[|a| + 1..] + ":") == b + ":" + "";
    } else if Continues(a, b) {
      assert a + ":" + "" == b + ":" + (a[|b| + 1..] + ":");
    }
  }

  /** A different entry whose key is taken by the row that counts is lost. */
  lemma CollidingEntryIsLost(reg: Registry, user: User, a: nat, b: nat, i: nat)
    requires Effective(reg, user, a, b) && i < |reg.rolePermissions| && EntryOf(reg, reg.rolePermissions[i]).Some?
    requires DedupKey(EntryAt(reg, b)) == DedupKey(EntryAt(reg, i)) && EntryAt(reg, b) != EntryAt(reg, i)
    ensures EntryAt(reg, i) !in Resolved(reg, user)
  {
    hide DedupKey, EntryOf, Resolved;
    ResolvedIffEffective(reg, user, EntryAt(reg, i));
    forall k: nat, j: nat | Effective(reg, user, k, j) && DedupKey(EntryAt(reg, j)) == DedupKey(EntryAt(reg, i))
      ensures EntryAt(reg, j) != EntryAt(reg, i)
    {
      EffectiveIsFirst(reg, user, a, b, k, j);
    }
  }

  /** The resources there are: none continues another, and no route adds one. */
  const SEEDED: set<string> := {"users", "profile", "roles", "permissions"}

  /** With the resources there are, every held permission keeps an entry of its own effect, resource and action. */
  lemma NoPermissionIsLost(reg: Registry, user: User, k: nat, i: nat)
    requires forall r :: r in reg.resources ==> r.name in SEEDED
    requires Yields(reg, user, k, i)
    ensures var e := EntryAt(reg, i);
            exists x :: x in Resolved(reg, user) && IsDeny(x) == IsDeny(e) && x.resource == e.resource &&
              x.action == e.action
  {
    var e := EntryAt(reg, i);
    ResolvedDedups(reg, user, reg.roles);
    assert KeyPresent(Resolved(reg, user), DedupKey(e));
    var n :| 0 <= n < |Resolved(reg, user)| && DedupKey(Resolved(reg, user)[n]) == DedupKey(e);
    var x := Resolved(reg, user)[n];
    hide DedupKey, Resolved;
    ResolvedIffEffective(reg, user, x);
    var a: nat, b: nat :| Effective(reg, user, a, b) && EntryAt(reg, b) == x;
    SeededEntry(reg, b);
    SeededEntry(reg, i);
    KeysTellPermissionsApart(x, e);
  }

  lemma SeededEntry(reg: Registry, i: nat)
    requires forall r :: r in reg.resources ==> r.name in SEEDED
    requires i < |reg.rolePermissions| && EntryOf(reg, reg.rolePermissions[i]).Some?
    ensures EntryAt(reg, i).resource in SEEDED
    ensures forall name :: name in SEEDED ==>
            !Continues(name, EntryAt(reg, i).resource) && !Continues(EntryAt(reg, i).resource, name)
  {
  }
}
