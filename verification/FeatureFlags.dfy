/** Feature-flag evaluation: excludes first, then includes, then the default. */
module FeatureFlags {
  import opened Core

  /** An attribute value; `Object` is any other object, never identical to one held elsewhere. */
  datatype Attribute =
    | Undefined | Null | Bool(b: bool) | Num(n: int) | Str(s: string) | Date(ms: int)
    | List(items: seq<Attribute>) | Object

  datatype Op = Eq | In | EndsWith | Before | After

  datatype Payload =
    | Users(userIds: seq<string>)
    | Roles(roleNames: seq<string>)
    | Percentage(percent: int)
    | AttributeTest(field: string, customKey: Option<string>, op: Op, value: Attribute)

  datatype Effect = Include | Exclude

  datatype Rule = Rule(effect: Effect, payload: Payload)

  datatype Flag = Flag(key: string, enabled: bool, environments: seq<string>)

  datatype Context = Context(userId: Option<string>, anonId: Option<string>, roles: seq<string>,
      attributes: map<string, Attribute>, env: string)

  /** What the platform supplies: the hash bucket of an id under a flag, and date parsing. */
  datatype Platform = Platform(bucket: (string, string) -> nat, parseDate: string -> Option<int>)

  datatype Reason = Disabled | EnvMismatch | Excluded | DefaultOn | IncludedByRule

  datatype Preview = Preview(result: bool, reason: Reason, matched: Option<nat>)

  predicate StrictlyEqual(a: Attribute, b: Attribute) {
    a == b && !a.Date? && !a.List? && !a.Object?
  }

  predicate HasSuffix(text: string, suffix: string) {
    |suffix| <= |text| && text[|text| - |suffix|..] == suffix
  }

  function ToTimestamp(p: Platform, v: Attribute): Option<int> {
    match v
    case Date(ms) => Some(ms)
    case Str(s) => p.parseDate(s)
    case Num(n) => Some(n)
    case _ => None
  }

  predicate MatchesOp(p: Platform, actual: Attribute, op: Op, expected: Attribute) {
    match op
    case Eq => StrictlyEqual(actual, expected)
    case In => expected.List? && exists i :: 0 <= i < |expected.items| && StrictlyEqual(expected.items[i], actual)
    case EndsWith => actual.Str? && expected.Str? && HasSuffix(actual.s, expected.s)
    case Before =>
      var a, b := ToTimestamp(p, actual), ToTimestamp(p, expected);
      a.Some? && b.Some? && a.value < b.value
    case After =>
      var a, b := ToTimestamp(p, actual), ToTimestamp(p, expected);
      a.Some? && b.Some? && a.value > b.value
  }

  predicate MatchesRule(p: Platform, payload: Payload, flagKey: string, ctx: Context) {
    match payload
    case Users(ids) => ctx.userId.Some? && ctx.userId.value in ids
    case Roles(names) => exists i :: 0 <= i < |ctx.roles| && ctx.roles[i] in names
    case Percentage(percent) =>
      var id := if ctx.userId.Some? then ctx.userId else ctx.anonId;
      id.Some? && p.bucket(id.value, flagKey) < percent
    case AttributeTest(field, customKey, op, value) =>
      var key := if field == "custom" then customKey else Some(field);
      && key.Some? && key.value != ""
      && MatchesOp(p, if key.value in ctx.attributes then ctx.attributes[key.value] else Undefined, op, value)
  }

  predicate Hits(p: Platform, flag: Flag, rule: Rule, ctx: Context, effect: Effect) {
    rule.effect == effect && MatchesRule(p, rule.payload, flag.key, ctx)
  }

  predicate AnyHit(p: Platform, flag: Flag, rules: seq<Rule>, ctx: Context, effect: Effect) {
    exists rule :: rule in rules && Hits(p, flag, rule, ctx, effect)
  }

  predicate HasInclude(rules: seq<Rule>) {
    exists rule :: rule in rules && rule.effect == Include
  }

  predicate InScope(flag: Flag, ctx: Context) {
    flag.enabled && (flag.environments == [] || ctx.env in flag.environments)
  }

  /** The meaning of a flag: in scope, not excluded, and included if anything has to include it. */
  predicate IsOn(p: Platform, flag: Flag, rules: seq<Rule>, ctx: Context) {
    InScope(flag, ctx) && !AnyHit(p, flag, rules, ctx, Exclude) &&
      (HasInclude(rules) ==> AnyHit(p, flag, rules, ctx, Include))
  }

  /** The scan of `evaluateFeatureFlag`. */
  method Evaluate(p: Platform, flag: Flag, rules: seq<Rule>, ctx: Context) returns (on: bool)
    ensures on <==> IsOn(p, flag, rules, ctx)
  {
    if !InScope(flag, ctx) {
      return false;
    }
    var excluded := FirstHit(p, flag, rules, ctx, Exclude);
    if excluded.Some? {
      return false;
    }
    var includes: seq<Rule> := [];
    for i := 0 to |rules|
      invariant forall rule :: rule in includes <==> rule in rules[..i] && rule.effect == Include
    {
      if rules[i].effect == Include {
        includes := includes + [rules[i]];
      }
    }
    assert rules[..|rules|] == rules;
    assert forall rule :: rule in rules && rule.effect == Include ==> rule in includes;
    if |includes| == 0 {
      return true;
    }
    assert includes[0] in includes;
    var included := FirstHit(p, flag, includes, ctx, Include);
    on := included.Some?;
  }

  /** The first rule of an effect that matches. */
  method FirstHit(p: Platform, flag: Flag, rules: seq<Rule>, ctx: Context, effect: Effect) returns (hit: Option<nat>)
    ensures hit.None? <==> !AnyHit(p, flag, rules, ctx, effect)
    ensures hit.Some? ==> hit.value < |rules| && Hits(p, flag, rules[hit.value], ctx, effect)
    ensures hit.Some? ==> forall i :: 0 <= i < hit.value ==> !Hits(p, flag, rules[i], ctx, effect)
  {
    hit := None;
    for i := 0 to |rules|
      invariant forall k :: 0 <= k < i ==> !Hits(p, flag, rules[k], ctx, effect)
    {
      if rules[i].effect == effect && MatchesRule(p, rules[i].payload, flag.key, ctx) {
        assert rules[i] in rules;
        return Some(i);
      }
    }
  }

  /**
   `previewFeatureFlag`: the same answer as `Evaluate` on every input, with the least matching rule of the effect that
   decided it.
   */
  method PreviewFlag(p: Platform, flag: Flag, rules: seq<Rule>, ctx: Context) returns (r: Preview)
    ensures r.result <==> IsOn(p, flag, rules, ctx)
    ensures r.reason == Disabled <==> !flag.enabled
    ensures r.reason == EnvMismatch <==> flag.enabled && !InScope(flag, ctx)
    ensures r.matched.Some? ==>
              && r.matched.value < |rules|
              && Hits(p, flag, rules[r.matched.value], ctx, if r.result then Include else Exclude)
              && forall i :: 0 <= i < r.matched.value ==>
                   !Hits(p, flag, rules[i], ctx, if r.result then Include else Exclude)
    ensures r.matched.None? <==>
              !InScope(flag, ctx) || (!AnyHit(p, flag, rules, ctx, Exclude) && !AnyHit(p, flag, rules, ctx, Include))
    ensures InScope(flag, ctx) ==> r.reason == if !r.result then Excluded else if HasInclude(rules)
            then IncludedByRule else DefaultOn
  {
    if !flag.enabled {
      return Preview(false, Disabled, None);
    }
    if |flag.environments| > 0 && ctx.env !in flag.environments {
      return Preview(false, EnvMismatch, None);
    }
    var excluded := FirstHit(p, flag, rules, ctx, Exclude);
    if excluded.Some? {
      return Preview(false, Excluded, excluded);
    }
    if !HasInclude(rules) {
      assert !AnyHit(p, flag, rules, ctx, Include);
      return Preview(true, DefaultOn, None);
    }
    var included := FirstHit(p, flag, rules, ctx, Include);
    if included.Some? {
      return Preview(true, IncludedByRule, included);
    }
    r := Preview(false, Excluded, None);
  }

  /** The order of the rules never changes the answer. */
  lemma OrderIsIrrelevant(p: Platform, flag: Flag, a: seq<Rule>, b: seq<Rule>, ctx: Context)
    requires multiset(a) == multiset(b)
    ensures IsOn(p, flag, a, ctx) <==> IsOn(p, flag, b, ctx)
  {
    hide Hits;
    assert forall rule :: rule in a <==> rule in multiset(a);
    assert forall rule :: rule in b <==> rule in multiset(b);
  }

  /** Raising an include percentage never turns the flag off for anyone. */
  lemma RolloutIsMonotone(p: Platform, flag: Flag, rules: seq<Rule>, k: nat, percent: int, ctx: Context)
    requires k < |rules| && rules[k].effect == Include && rules[k].payload.Percentage? &&
             rules[k].payload.percent <= percent
    ensures IsOn(p, flag, rules, ctx) ==> IsOn(p, flag, rules[k := Rule(Include, Percentage(percent))], ctx)
  {
    var raised := rules[k := Rule(Include, Percentage(percent))];
    assert rules[k] in rules && raised[k] in raised;
    assert forall i :: 0 <= i < |rules| && i != k ==> raised[i] == rules[i];
    if IsOn(p, flag, rules, ctx) {
      var rule :| rule in rules && Hits(p, flag, rule, ctx, Include);
      var i :| 0 <= i < |rules| && rules[i] == rule;
      assert Hits(p, flag, raised[i], ctx, Include) && raised[i] in raised;
    }
  }
}
