/**
 The safety check of a stored MongoQuery condition: operator allow-list, prototype keys, list operators, nesting cap.
 */
module MongoQuery {
  import opened Core
  import Money

  datatype Json =
    | JNull | JBool(b: bool) | JNum(n: int) | JStr(s: string) | JArr(items: seq<Json>) | JObj(fields: seq<Field>)

  /** One own property, in `Object.entries` order. */
  datatype Field = Field(key: string, value: Json)

  datatype QueryError =
    | TooDeep(path: string)
    | PrototypeKey(key: string, path: string)
    | DeniedOperator(key: string, path: string)
    | UnknownOperator(key: string, path: string)
    | ListExpected(key: string, path: string)
    | ScalarsExpected(key: string, path: string)

  const ALLOWED_OPERATORS: set<string> :=
    {"$eq", "$ne", "$gt", "$gte", "$lt", "$lte", "$in", "$nin", "$and", "$or", "$nor", "$not"}
  const DENIED_OPERATORS: set<string> := {"$where", "$function", "$expr"}
  const PROTOTYPE_KEYS: set<string> := {"__proto__", "constructor", "prototype"}
  const LIST_OPERATORS: set<string> := {"$in", "$nin"}
  const MAX_DEPTH: nat := 32

  predicate IsScalar(j: Json) { !j.JArr? && !j.JObj? }

  predicate IsOperator(key: string) { key != "" && key[0] == '$' }

  function Child(path: string, key: string): string { if path == "" then key else path + "." + key }

  /** `Object.entries`, and the index-keyed pairs of an array. */
  function Entries(j: Json): seq<Field> {
    match j
    case JArr(items) => seq(|items|, i requires 0 <= i < |items| => Field(Money.Text(i), items[i]))
    case JObj(fields) => fields
    case _ => []
  }

  function KeyError(e: Field, path: string): Option<QueryError> {
    if e.key in PROTOTYPE_KEYS then Some(PrototypeKey(e.key, path))
    else if !IsOperator(e.key) then None
    else if e.key in DENIED_OPERATORS then Some(DeniedOperator(e.key, path))
    else if e.key !in ALLOWED_OPERATORS then Some(UnknownOperator(e.key, path))
    else if e.key !in LIST_OPERATORS then None
    else if !e.value.JArr? then Some(ListExpected(e.key, Child(path, e.key)))
    else if exists i :: 0 <= i < |e.value.items| && !IsScalar(e.value.items[i])
      then Some(ScalarsExpected(e.key, Child(path, e.key)))
    else None
  }

  /** `validateMongoQueryKeys`; the nesting cap is also what bounds the recursion. */
  function Validate(j: Json, path: string, depth: nat): Option<QueryError>
    requires depth <= MAX_DEPTH
    decreases MAX_DEPTH - depth, 0
  {
    if IsScalar(j) then None
    else if depth >= MAX_DEPTH then Some(TooDeep(path))
    else ValidateEntries(Entries(j), path, depth + 1)
  }

  function ValidateEntries(entries: seq<Field>, path: string, depth: nat): Option<QueryError>
    requires depth <= MAX_DEPTH
    decreases MAX_DEPTH - depth, |entries|
  {
    if entries == [] then None
    else
      var keyError := KeyError(entries[0], path);
      if keyError.Some? then keyError
      else
        var childError := Validate(entries[0].value, Child(path, entries[0].key), depth);
        if childError.Some? then childError else ValidateEntries(entries[1..], path, depth)
  }

  // ----- the trees it accepts, defined on their own -----

  ghost predicate SafeKey(e: Field) {
    && e.key !in PROTOTYPE_KEYS
    && (IsOperator(e.key) ==> e.key in ALLOWED_OPERATORS)
    && (e.key in LIST_OPERATORS ==> e.value.JArr? && forall i :: 0 <= i < |e.value.items| ==>
         IsScalar(e.value.items[i]))
  }

  ghost predicate Safe(j: Json) {
    match j
    case JArr(items) => forall i :: 0 <= i < |items| ==> Safe(items[i])
    case JObj(fields) => forall i :: 0 <= i < |fields| ==> SafeKey(fields[i]) && Safe(fields[i].value)
    case _ => true
  }

  /** Containers nest at most `levels` deep. */
  ghost predicate Within(j: Json, levels: int) {
    match j
    case JArr(items) => levels >= 1 && forall i :: 0 <= i < |items| ==> Within(items[i], levels - 1)
    case JObj(fields) => levels >= 1 && forall i :: 0 <= i < |fields| ==> Within(fields[i].value, levels - 1)
    case _ => true
  }

  lemma KeyErrorExact(e: Field, path: string)
    ensures KeyError(e, path).None? <==> SafeKey(e)
  {
  }

  lemma IndexKeysAreSafe(n: nat, value: Json)
    ensures SafeKey(Field(Money.Text(n), value))
  {
    var key := Money.Text(n);
    assert Money.IsDigit(key[0]);
    assert forall other :: other in PROTOTYPE_KEYS + LIST_OPERATORS ==> other != "" && !Money.IsDigit(other[0]);
  }

  lemma {:induction false} EntriesExact(entries: seq<Field>, path: string, depth: nat)
    requires depth <= MAX_DEPTH
    ensures ValidateEntries(entries, path, depth).None? <==>
            forall i :: 0 <= i < |entries| ==>
              SafeKey(entries[i]) && Safe(entries[i].value) && Within(entries[i].value, MAX_DEPTH - depth)
    decreases MAX_DEPTH - depth, |entries|
  {
    if entries != [] {
      hide SafeKey, KeyError, Safe, Within;
      var e := entries[0];
      KeyErrorExact(e, path);
      ValidateExact(e.value, Child(path, e.key), depth);
      EntriesExact(entries[1..], path, depth);
      assert entries == [e] + entries[1..];
    }
  }

  /** `null` is returned for exactly the safe trees that fit the nesting still allowed, whatever the path reported. */
  lemma {:induction false} ValidateExact(j: Json, path: string, depth: nat)
    requires depth <= MAX_DEPTH
    ensures Validate(j, path, depth).None? <==> Safe(j) && Within(j, MAX_DEPTH - depth)
    decreases MAX_DEPTH - depth, 0
  {
    if !IsScalar(j) && depth < MAX_DEPTH {
      var entries := Entries(j);
      EntriesExact(entries, path, depth + 1);
      if j.JArr? {
        forall i | 0 <= i < |entries|
          ensures SafeKey(entries[i]) && entries[i].value == j.items[i]
        {
          IndexKeysAreSafe(i, j.items[i]);
        }
        assert forall i :: 0 <= i < |j.items| ==> entries[i].value == j.items[i];
      }
    }
  }

  /** From the root: accepted iff safe and at most 32 container levels deep. */
  lemma AcceptedIffSafe(j: Json)
    ensures Validate(j, "", 0).None? <==> Safe(j) && Within(j, MAX_DEPTH)
  {
    ValidateExact(j, "", 0);
  }
}
