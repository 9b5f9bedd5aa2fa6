/**
 The pre-deploy check of stored conditions: three mutually recursive checkers, and how they relate to the safety
 check.
 */
module RoleConditionCheck {
  import opened Core
  import opened MongoQuery

  datatype Verdict = Ok | Bad(path: string)

  const USER_FIELDS: set<string> := {"id", "email", "firstName", "lastName", "isActive"}
  const COMPARISON_OPS: set<string> := {"$eq", "$ne", "$gt", "$gte", "$lt", "$lte"}
  const LIST_OPS: set<string> := {"$in", "$nin"}
  const LOGICAL_OPS: set<string> := {"$and", "$or", "$nor", "$not"}

  function CheckConditionsNode(node: Json, path: string): Verdict
    decreases node, 1
  {
    if node.JObj? then CheckFields(node.fields, path) else Bad(path)
  }

  function CheckFields(fields: seq<Field>, path: string): Verdict
    decreases fields, 0
  {
    if fields == [] then Ok
    else
      var f := fields[0];
      var childPath := Child(path, f.key);
      var sub :=
        if f.key in LOGICAL_OPS then CheckLogicalOp(f.key, f.value, childPath)
        else if IsOperator(f.key) then Bad(childPath)
        else if f.key !in USER_FIELDS then Bad(childPath)
        else CheckFieldValue(f.value, childPath);
      if sub.Ok? then CheckFields(fields[1..], path) else sub
  }

  function CheckLogicalOp(op: string, value: Json, path: string): Verdict
    decreases value, 2
  {
    if op == "$not" then CheckConditionsNode(value, path)
    else if !value.JArr? then Bad(path)
    else CheckItems(value.items, path)
  }

  function CheckItems(items: seq<Json>, path: string): Verdict
    decreases items, 0
  {
    if items == [] then Ok
    else
      var sub := CheckConditionsNode(items[0], path);
      if sub.Ok? then CheckItems(items[1..], path) else sub
  }

  function CheckFieldValue(value: Json, path: string): Verdict {
    if IsScalar(value) then Ok
    else if value.JArr? then Bad(path)
    else CheckFieldOps(value.fields, path)
  }

  function CheckFieldOps(ops: seq<Field>, path: string): Verdict {
    if ops == [] then Ok
    else
      var op := ops[0];
      if op.key in COMPARISON_OPS then
        if IsScalar(op.value) then CheckFieldOps(ops[1..], path) else Bad(path + "." + op.key)
      else if op.key in LIST_OPS then
        if op.value.JArr? && forall i :: 0 <= i < |op.value.items| ==> IsScalar(op.value.items[i])
        then CheckFieldOps(ops[1..], path) else Bad(path + "." + op.key)
      else Bad(path + "." + op.key)
  }

  // ----- the conditions it accepts, defined on their own -----

  ghost predicate FieldOperator(op: Field) {
    || (op.key in COMPARISON_OPS && IsScalar(op.value))
    || (op.key in LIST_OPS && op.value.JArr? && forall i :: 0 <= i < |op.value.items| ==> IsScalar(op.value.items[i]))
  }

  ghost predicate FieldTest(value: Json) {
    IsScalar(value) || (value.JObj? && forall i :: 0 <= i < |value.fields| ==> FieldOperator(value.fields[i]))
  }

  ghost predicate Translatable(node: Json)
    decreases node
  {
    node.JObj? && forall i :: 0 <= i < |node.fields| ==> TranslatableField(node.fields[i])
  }

  ghost predicate TranslatableField(f: Field)
    decreases f
  {
    if f.key == "$not" then Translatable(f.value)
    else if f.key in LOGICAL_OPS then f.value.JArr? && forall k :: 0 <= k < |f.value.items| ==>
      Translatable(f.value.items[k])
    else f.key in USER_FIELDS && FieldTest(f.value)
  }

  lemma {:induction false} FieldOpsExact(ops: seq<Field>, path: string)
    ensures CheckFieldOps(ops, path).Ok? <==> forall i :: 0 <= i < |ops| ==> FieldOperator(ops[i])
  {
    if ops != [] {
      FieldOpsExact(ops[1..], path);
      assert ops == [ops[0]] + ops[1..];
    }
  }

  lemma {:induction false} FieldsExact(fields: seq<Field>, path: string)
    ensures CheckFields(fields, path).Ok? <==> forall i :: 0 <= i < |fields| ==> TranslatableField(fields[i])
    decreases fields, 0
  {
    if fields != [] {
      var f := fields[0];
      var childPath := Child(path, f.key);
      if f.key == "$not" {
        NodeExact(f.value, childPath);
      } else if f.key in LOGICAL_OPS {
        if f.value.JArr? {
          ItemsExact(f.value.items, childPath);
        }
      } else if f.value.JObj? {
        FieldOpsExact(f.value.fields, childPath);
      }
      FieldsExact(fields[1..], path);
      assert fields == [f] + fields[1..];
    }
  }

  lemma {:induction false} ItemsExact(items: seq<Json>, path: string)
    ensures CheckItems(items, path).Ok? <==> forall k :: 0 <= k < |items| ==> Translatable(items[k])
    decreases items, 0
  {
    if items != [] {
      NodeExact(items[0], path);
      ItemsExact(items[1..], path);
      assert items == [items[0]] + items[1..];
    }
  }

  /** The mutual recursion accepts exactly the translatable conditions. */
  lemma {:induction false} NodeExact(node: Json, path: string)
    ensures CheckConditionsNode(node, path).Ok? <==> Translatable(node)
    decreases node, 1
  {
    if node.JObj? {
      FieldsExact(node.fields, path);
    }
  }

  lemma FieldTestIsSafe(value: Json)
    requires FieldTest(value)
    ensures Safe(value)
  {
    if value.JObj? {
      forall i | 0 <= i < |value.fields|
        ensures SafeKey(value.fields[i]) && Safe(value.fields[i].value)
      {
        var op := value.fields[i];
        assert FieldOperator(op);
        assert op.key in ALLOWED_OPERATORS;
      }
    }
  }

  lemma {:induction false} TranslatableIsSafe(node: Json)
    requires Translatable(node)
    ensures Safe(node)
  {
    forall i | 0 <= i < |node.fields|
      ensures SafeKey(node.fields[i]) && Safe(node.fields[i].value)
    {
      var f := node.fields[i];
      assert TranslatableField(f);
      if f.key == "$not" {
        TranslatableIsSafe(f.value);
      } else if f.key in LOGICAL_OPS {
        forall k | 0 <= k < |f.value.items|
          ensures Safe(f.value.items[k])
        {
          TranslatableIsSafe(f.value.items[k]);
        }
      } else {
        FieldTestIsSafe(f.value);
      }
    }
  }

  /**
   The mutual recursion refines the single one: a condition it accepts passes the safety check iff it respects the
   nesting cap.
   */
  lemma CheckedIsSafeWithinCap(node: Json)
    requires CheckConditionsNode(node, "").Ok?
    ensures Validate(node, "", 0).None? <==> Within(node, MAX_DEPTH)
  {
    NodeExact(node, "");
    TranslatableIsSafe(node);
    AcceptedIffSafe(node);
  }

  /** `{$not: {$not: ... {}}}` */
  function Negations(n: nat): Json {
    JObj(if n == 0 then [] else [Field("$not", Negations(n - 1))])
  }

  lemma {:induction false} NegationsNest(n: nat, levels: int)
    ensures Translatable(Negations(n))
    ensures Within(Negations(n), levels) <==> n < levels
  {
    if n > 0 {
      NegationsNest(n - 1, levels - 1);
      assert Negations(n).fields[0].value == Negations(n - 1);
      assert TranslatableField(Negations(n).fields[0]);
    }
  }

  /** The cap is the whole difference: the pre-deploy check has none, and from 32 negations on the two disagree. */
  lemma CapIsTheDifference(n: nat)
    ensures CheckConditionsNode(Negations(n), "").Ok?
    ensures Validate(Negations(n), "", 0).None? <==> n < MAX_DEPTH
  {
    NegationsNest(n, MAX_DEPTH);
    NodeExact(Negations(n), "");
    CheckedIsSafeWithinCap(Negations(n));
  }
}
