/**
 Every unit recorded on a subscription before its current period: counted by one of its closes, or skipped by one
 step.
 */
module BillingUnits {
  import opened Core
  import Calendar
  import opened Billing
  import opened BillingInvariant
  import opened BillingPeriods
  import BillingUsage

  /** Usage is recorded on rows that exist. */
  ghost predicate UsageOk(s: Ledger) {
    forall i :: 0 <= i < |s.usage| ==> s.usage[i].subscription < |s.subscriptions|
  }

  // ----- the three ways to skip units -----

  /** The record is accepted onto the row. */
  predicate Ingests(s: Ledger, customer: nat, meterKey: string, quantity: int, key: string, sub: nat) {
    && 1 <= quantity <= MAX_QUANTITY
    && First(s.usage, (r: UsageRecord) => r.customer == customer && r.idempotencyKey == key).None?
    && (customer in s.balances ==> s.balances[customer] >= 0)
    && EntitledSubscription(s.subscriptions, customer) == Some(sub)
    && First(s.catalog.plans, (p: Plan) => p.meterKey == Some(meterKey)).Some?
  }

  /** The renewal charges the row's fixed plan and restarts its period. */
  predicate RenewsFixed(s: Ledger, target: Option<nat>, owner: Option<nat>, success: bool, sub: nat) {
    && RenewalTarget(s, target, owner) == Some(sub) && success && sub < |s.subscriptions|
    && var row := s.subscriptions[sub];
       var p := FindPlan(s.catalog, row.planKey);
       && p.Some? && row.provider in s.catalog.plans[p.value].prices && !row.cancelAtPeriodEnd && row.mode == Fixed
  }

  /** The checkout starts the user's incomplete row over. */
  predicate StartsOver(s: Ledger, userId: nat, russian: bool, planKey: string, sub: nat) {
    && FindActivePlan(s.catalog, planKey).Some?
    && var (s1, c) := WithCustomer(s, userId, russian);
       && EntitledSubscription(s1.subscriptions, c).None? && Effective(s1.customers[c]) == YooKassa
       && PendingCheckout(s1.subscriptions, c) == Some(sub)
  }

  /** The units that a step puts, or leaves, before the row's current period without counting them. */
  function Skipped(s: Ledger, op: Op, now: int, sub: nat): nat {
    if sub >= |s.subscriptions| then 0
    else
      var from := s.subscriptions[sub].periodStart;
      match op
      case OpRecordUsage(customer, meterKey, quantity, occurredAt, key) =>
        if Ingests(s, customer, meterKey, quantity, key, sub) && occurredAt.GetOr(now) < from then quantity else 0
      case OpAdvanceRenewal(target, owner, success) =>
        if RenewsFixed(s, target, owner, success, sub) then UnitsBetween(s.usage, sub, from, now) else 0
      case OpCheckout(userId, russian, planKey) =>
        if StartsOver(s, userId, russian, planKey, sub) then UnitsBetween(s.usage, sub, from, now) else 0
      case _ => 0
  }

  // ----- one step -----

  lemma {:induction false} NothingRecorded(usage: seq<UsageRecord>, sub: nat, to: int)
    requires forall i :: 0 <= i < |usage| ==> usage[i].subscription < sub
    ensures UnitsBefore(usage, sub, to) == 0
  {
    if usage != [] {
      NothingRecorded(usage[..|usage| - 1], sub, to);
    }
  }

  lemma OneMore(usage: seq<UsageRecord>, r: UsageRecord, sub: nat, to: int)
    ensures UnitsBefore(usage + [r], sub, to) ==
            UnitsBefore(usage, sub, to) + if r.subscription == sub && r.occurredAt < to then r.quantity else 0
  {
    assert (usage + [r])[..|usage|] == usage;
  }

  /** A step that touches neither usage nor the periods of the rows there are. */
  ghost predicate PeriodsStand(s: Ledger, o: Outcome) {
    && o.ledger.usage == s.usage && !o.reply.PeriodClosed? && |s.subscriptions| <= |o.ledger.subscriptions|
    && forall k :: 0 <= k < |s.subscriptions| ==>
         o.ledger.subscriptions[k].periodStart == s.subscriptions[k].periodStart
  }

  /** The units before the current periods move by what is counted and what is skipped. */
  ghost predicate Accounted(s: Ledger, op: Op, now: int, o: Outcome, sub: nat) {
    SettledUnits(o.ledger, sub) == SettledUnits(s, sub) + Counted(o.reply, sub) + Skipped(s, op, now, sub)
  }

  lemma StandingPeriods(s: Ledger, op: Op, now: int, o: Outcome, sub: nat)
    requires UsageOk(s) && PeriodsStand(s, o) && Skipped(s, op, now, sub) == 0
    ensures Accounted(s, op, now, o, sub) && UsageOk(o.ledger)
  {
    hide Skipped;
    if |s.subscriptions| <= sub < |o.ledger.subscriptions| {
      NothingRecorded(s.usage, sub, o.ledger.subscriptions[sub].periodStart);
    }
  }

  lemma EntriesStand(s: Ledger, op: Op, now: int)
    requires op.OpSetRegion? || op.OpPurchase? || op.OpRefund? || op.OpCompletePurchase?
    ensures PeriodsStand(s, Step(s, op, now))
  {
    hide CurrentSubscription, PurchaseAmount, FindSession, PurchasedGrant, PackUnits, Revoked, Balance;
  }

  lemma RewritesStand(s: Ledger, op: Op, now: int)
    requires op.OpUpdatePaymentMethod? || op.OpCancel? || op.OpAdminCancel? || op.OpDeleteUser?
    ensures PeriodsStand(s, Step(s, op, now))
  {
    hide Demoted;
  }

  lemma ChangeStands(s: Ledger, userId: nat, planKey: string, now: int)
    ensures PeriodsStand(s, ChangePlan(s, userId, planKey, now))
  {
    hide ChangeQuote, RefundSource, RefundLeg, SettledChange;
    hide CurrentOf;
  }

  lemma ActivateStands(s: Ledger, userId: nat, russian: bool, planKey: string, status: Status, now: int)
    ensures PeriodsStand(s, Activate(s, userId, russian, planKey, status, now))
  {
    hide BroughtToPlan, FindPlan, PeriodsStand;
    var o, found := Activate(s, userId, russian, planKey, status, now), FindPlan(s.catalog, planKey);
    if found.Some? {
      PlanFound(s.catalog, planKey);
      var (s1, c) := WithCustomer(s, userId, russian);
      var plan := s.catalog.plans[found.value];
      BroughtStands(WithDefaultMethod(s1, c), c, plan, status, now);
      StandsThrough(s, WithDefaultMethod(s1, c), o);
    } else {
      NothingMoves(s, o);
    }
  }

  lemma StandsThrough(s: Ledger, t: Ledger, o: Outcome)
    requires t.usage == s.usage && t.subscriptions == s.subscriptions
    requires PeriodsStand(t, Outcome(o.ledger, Done)) && o.reply.Done?
    ensures PeriodsStand(s, o)
  {
  }

  lemma NothingMoves(s: Ledger, o: Outcome)
    requires o.ledger == s && !o.reply.PeriodClosed?
    ensures PeriodsStand(s, o)
  {
  }

  lemma BroughtStands(s: Ledger, c: nat, plan: Plan, status: Status, now: int)
    requires c < |s.customers|
    ensures PeriodsStand(s, Outcome(BroughtToPlan(s, c, plan, status, now), Done))
  {
    hide Calendar.AddInterval, ActivationPrice;
  }

  lemma CheckoutUnits(s: Ledger, userId: nat, russian: bool, planKey: string, now: int, sub: nat)
    requires UsageOk(s) && forall k :: 0 <= k < |s.subscriptions| ==> s.subscriptions[k].periodStart <= now
    ensures var op, o := OpCheckout(userId, russian, planKey), Checkout(s, userId, russian, planKey, now);
            Accounted(s, op, now, o, sub) && UsageOk(o.ledger)
  {
    hide UnitsBefore, UnitsBetween, EntitledSubscription, PendingCheckout, FindActivePlan, Calendar.AddInterval;
    var op, o := OpCheckout(userId, russian, planKey), Checkout(s, userId, russian, planKey, now);
    var c := WithCustomer(s, userId, russian).1;
    PendingInTable(s.subscriptions, c);
    if sub < |s.subscriptions| && StartsOver(s, userId, russian, planKey, sub) {
      UnitsSplit(s.usage, sub, s.subscriptions[sub].periodStart, now);
    } else {
      CheckoutStands(s, userId, russian, planKey, now, sub);
      if sub == |s.subscriptions| < |o.ledger.subscriptions| {
        NothingRecorded(s.usage, sub, o.ledger.subscriptions[sub].periodStart);
      }
    }
  }

  lemma PendingInTable(subscriptions: seq<Subscription>, customer: nat)
    ensures PendingCheckout(subscriptions, customer).Some? ==>
            PendingCheckout(subscriptions, customer).value < |subscriptions|
  {
  }

  lemma CheckoutStands(s: Ledger, userId: nat, russian: bool, planKey: string, now: int, sub: nat)
    requires !StartsOver(s, userId, russian, planKey, sub)
    ensures var o := Checkout(s, userId, russian, planKey, now);
            && o.ledger.usage == s.usage && !o.reply.PeriodClosed?
            && |s.subscriptions| <= |o.ledger.subscriptions| <= |s.subscriptions| + 1
            && (sub < |s.subscriptions| ==> o.ledger.subscriptions[sub].periodStart == s.subscriptions[sub].periodStart)
  {
    hide EntitledSubscription, PendingCheckout, FindActivePlan, Calendar.AddInterval;
    PendingInTable(s.subscriptions, WithCustomer(s, userId, russian).1);
  }

  lemma RecordUnits(s: Ledger, customer: nat, meterKey: string, quantity: int, occurredAt: Option<int>, key: string,
      now: int, sub: nat)
    requires UsageOk(s)
    ensures var op := OpRecordUsage(customer, meterKey, quantity, occurredAt, key);
            var o := RecordUsage(s, customer, meterKey, quantity, occurredAt, key, now);
            Accounted(s, op, now, o, sub) && UsageOk(o.ledger)
  {
    hide UnitsBefore, EntitledSubscription;
    var entitled := EntitledSubscription(s.subscriptions, customer);
    EntitledInTable(s.subscriptions, customer);
    if entitled.Some? && 1 <= quantity <= MAX_QUANTITY && sub < |s.subscriptions| {
      OneMore(s.usage, UsageRecord(customer, entitled.value, meterKey, quantity, occurredAt.GetOr(now), key), sub,
              s.subscriptions[sub].periodStart);
    }
  }

  lemma EntitledInTable(subscriptions: seq<Subscription>, customer: nat)
    ensures EntitledSubscription(subscriptions, customer).Some? ==>
              EntitledSubscription(subscriptions, customer).value < |subscriptions|
  {
  }

  lemma RenewalUnits(s: Ledger, target: Option<nat>, owner: Option<nat>, success: bool, now: int, sub: nat)
    requires UsageOk(s) && forall k :: 0 <= k < |s.subscriptions| ==> s.subscriptions[k].periodStart <= now
    ensures var op, o := OpAdvanceRenewal(target, owner, success), AdvanceRenewal(s, target, owner, success, now);
            Accounted(s, op, now, o, sub) && UsageOk(o.ledger)
  {
    hide UnitsBefore, UnitsBetween, RenewalTarget, FindPlan, Calendar.NextPeriodEnd;
    TargetInTable(s, target, owner);
    if sub < |s.subscriptions| {
      UnitsSplit(s.usage, sub, s.subscriptions[sub].periodStart, now);
    }
  }

  lemma TargetInTable(s: Ledger, target: Option<nat>, owner: Option<nat>)
    ensures RenewalTarget(s, target, owner).Some? ==> RenewalTarget(s, target, owner).value < |s.subscriptions|
  {
  }

  lemma StepUnits(s: Ledger, op: Op, before: int, now: int, sub: nat)
    requires Inv(s, before) && before <= now && UsageOk(s)
    ensures Accounted(s, op, now, Step(s, op, now), sub) && UsageOk(Step(s, op, now).ledger)
  {
    hide Inv, Accounted, UsageOk, PeriodsStand, SetRegion, UpdatePaymentMethod, Purchase, Checkout, ChangePlan,
      Cancel, AdminCancel,
      Refund, RecordUsage, Activate, CompletePurchase, AdvanceRenewal, DeleteUser;
    StartsByNow(s, before, now);
    match op
    case OpRecordUsage(customer, meterKey, quantity, occurredAt, key) =>
      RecordUnits(s, customer, meterKey, quantity, occurredAt, key, now, sub);
    case OpAdvanceRenewal(target, owner, success) => RenewalUnits(s, target, owner, success, now, sub);
    case OpCheckout(userId, russian, planKey) => CheckoutUnits(s, userId, russian, planKey, now, sub);
    case OpChangePlan(userId, planKey) =>
      ChangeStands(s, userId, planKey, now);
      StandingPeriods(s, op, now, Step(s, op, now), sub);
    case OpActivate(userId, russian, planKey, status) =>
      ActivateStands(s, userId, russian, planKey, status, now);
      StandingPeriods(s, op, now, Step(s, op, now), sub);
    case _ =>
      if op.OpSetRegion? || op.OpPurchase? || op.OpRefund? || op.OpCompletePurchase? {
        EntriesStand(s, op, now);
      } else {
        RewritesStand(s, op, now);
      }
      StandingPeriods(s, op, now, Step(s, op, now), sub);
  }

  lemma StartsByNow(s: Ledger, before: int, now: int)
    requires Inv(s, before) && before <= now
    ensures forall k :: 0 <= k < |s.subscriptions| ==> s.subscriptions[k].periodStart <= now
  {
    assert forall k :: 0 <= k < |s.subscriptions| ==> RowOk(s.subscriptions[k], |s.customers|, before);
  }

  // ----- runs -----

  function SkippedTotal(s: Ledger, events: seq<Event>, sub: nat): nat {
    if events == [] then 0
    else
      var init, last := events[..|events| - 1], events[|events| - 1];
      SkippedTotal(s, init, sub) + Skipped(After(s, init), last.op, last.now, sub)
  }

  /**
   Over any run: what lies before the row's current period is exactly what the closes counted and what the steps
   skipped.
   */
  lemma {:induction false} UnitsAccounted(s: Ledger, start: int, events: seq<Event>, sub: nat)
    requires Inv(s, start) && Clocked(start, events) && UsageOk(s)
    ensures UsageOk(After(s, events))
    ensures SettledUnits(After(s, events), sub) ==
            SettledUnits(s, sub) + CountedTotal(s, events, sub) + SkippedTotal(s, events, sub)
  {
    hide Inv, Step, UsageOk, SettledUnits, Skipped;
    if events != [] {
      var last := |events| - 1;
      var init := events[..last];
      ClockedPrefix(start, events, last);
      UnitsAccounted(s, start, init, sub);
      RunKeeps(s, start, init);
      StepUnits(After(s, init), events[last].op, Latest(start, init), events[last].now, sub);
    }
  }

  lemma {:induction false} SkippedNone(s: Ledger, events: seq<Event>, sub: nat)
    ensures SkippedTotal(s, events, sub) == 0 <==>
            forall k :: 0 <= k < |events| ==> Skipped(After(s, events[..k]), events[k].op, events[k].now, sub) == 0
  {
    hide Skipped, After;
    if events != [] {
      var last := |events| - 1;
      var init := events[..last];
      SkippedNone(s, init, sub);
      assert forall k :: 0 <= k < last ==> init[..k] == events[..k] && init[k] == events[k];
    }
  }

  /**
   From an empty ledger the closes of a subscription count everything recorded before its current period if and only if
   no record arrives late, no period is renewed on a fixed plan and no incomplete row is started over with units in it.
   */
  lemma EverythingCountedIff(catalog: Catalog, start: int, events: seq<Event>, sub: nat)
    requires Clocked(start, events)
    ensures var s := Opening(catalog);
            CountedTotal(s, events, sub) == SettledUnits(After(s, events), sub) <==>
            forall k :: 0 <= k < |events| ==> Skipped(After(s, events[..k]), events[k].op, events[k].now, sub) == 0
  {
    hide Inv, Skipped, After, CountedTotal, SkippedTotal;
    OpeningInv(catalog, start);
    UnitsAccounted(Opening(catalog), start, events, sub);
    SkippedNone(Opening(catalog), events, sub);
  }

  // ----- a losing run -----

  lemma LateUsage(s: Ledger, sub: Subscription, meterKey: string, quantity: int, late: int, key: string, now: int)
    requires s.subscriptions == [sub] && sub.customer == 0 && sub.status == Active && s.usage == [] &&
             s.balances == map[]
    requires 1 <= quantity <= MAX_QUANTITY && exists p :: p in s.catalog.plans && p.meterKey == Some(meterKey)
    ensures RecordUsage(s, 0, meterKey, quantity, Some(late), key, now) ==
            Outcome(s.(usage := [UsageRecord(0, 0, meterKey, quantity, late, key)]), Done)
  {
  }

  function LateRun(userId: nat, russian: bool, planKey: string, meterKey: string, quantity: nat, late: int,
      key: string, t0: int, t1: int, t2: int): (r: seq<Event>)
    ensures |r| == 3 && (t0 <= t1 <= t2 ==> Clocked(t0, r))
  {
    [Event(OpActivate(userId, russian, planKey, Active), t0),
      Event(OpRecordUsage(0, meterKey, quantity, Some(late), key), t1),
     Event(OpAdvanceRenewal(Some(0), None, true), t2)]
  }

  /**
   Activate a metered plan, record units dated before it, renew: the close counts none, and the units stay uncounted.
   */
  lemma LateUnitsAreLost(catalog: Catalog, plan: Plan, userId: nat, russian: bool, planKey: string, meterKey: string,
      quantity: nat, late: int, key: string, t0: int, t1: int, t2: int)
    requires FindPlan(catalog, planKey).Some? && catalog.plans[FindPlan(catalog, planKey).value] == plan
    requires plan.mode == Usage && plan.meterKey == Some(meterKey) && GeoDefault(CountryOf(russian)) in plan.prices
    requires late < t0 <= t1 <= t2 && 1 <= quantity <= MAX_QUANTITY
    ensures var s, events := Opening(catalog),
            LateRun(userId, russian, planKey, meterKey, quantity, late, key, t0, t1, t2);
            && ReplyAt(s, events, 2) == PeriodClosed(0, 0, t0, t2, 0, 0, 0, 0, 0)
            && SettledUnits(After(s, events), 0) == quantity && After(s, events).subscriptions[0].periodStart == t2
  {
    hide FindPlan, Activate, RecordUsage, AdvanceRenewal, Opening, After, ReplyAt, Clocked, SettledUnits;
    var s0, events := Opening(catalog), LateRun(userId, russian, planKey, meterKey, quantity, late, key, t0, t1, t2);
    var sub := FirstActivation(catalog, userId, russian, planKey, t0);
    PlanFound(catalog, planKey);
    var s1 := Activate(s0, userId, russian, planKey, Active, t0).ledger;
    LateClose(s1, sub, plan, meterKey, quantity, late, key, t1, t2);
    ThreeEvents(s0, events, s1, RecordUsage(s1, 0, meterKey, quantity, Some(late), key, t1).ledger);
  }

  lemma LateClose(s: Ledger, sub: Subscription, plan: Plan, meterKey: string, quantity: nat, late: int, key: string,
      t1: int, t2: int)
    requires s.subscriptions == [sub] && sub.customer == 0 && sub.status == Active && sub.mode == Usage &&
             !sub.cancelAtPeriodEnd
    requires s.usage == [] && s.balances == map[] && plan in s.catalog.plans && plan.meterKey == Some(meterKey)
    requires FindPlan(s.catalog, sub.planKey).Some? && s.catalog.plans[FindPlan(s.catalog, sub.planKey).value] == plan
    requires sub.provider in plan.prices && late < sub.periodStart <= t2 && 1 <= quantity <= MAX_QUANTITY
    ensures var o := AdvanceRenewal(RecordUsage(s, 0, meterKey, quantity, Some(late), key, t1).ledger, Some(0), None,
            true, t2);
            && o.reply == PeriodClosed(0, 0, sub.periodStart, t2, 0, 0, 0, 0, 0)
            && SettledUnits(o.ledger, 0) == quantity
            && |o.ledger.subscriptions| == 1 && o.ledger.subscriptions[0].periodStart == t2
  {
    hide FindPlan, RecordUsage, AdvanceRenewal, UnitsBetween, UnitsBefore, Calendar.NextPeriodEnd;
    LateUsage(s, sub, meterKey, quantity, late, key, t1);
    var r := UsageRecord(0, 0, meterKey, quantity, late, key);
    OneRecord(r, 0, sub.periodStart, t2);
    OneClose(RecordUsage(s, 0, meterKey, quantity, Some(late), key, t1).ledger, sub, plan, 0, t2);
    OneMore([], r, 0, t2);
    NothingRecorded([], 0, t2);
    assert [] + [r] == [r];
  }

  lemma ThreeEvents(s: Ledger, e: seq<Event>, s1: Ledger, s2: Ledger)
    requires |e| == 3 && s1 == Step(s, e[0].op, e[0].now).ledger && s2 == Step(s1, e[1].op, e[1].now).ledger
    ensures ReplyAt(s, e, 2) == Step(s2, e[2].op, e[2].now).reply && After(s, e) == Step(s2, e[2].op, e[2].now).ledger
  {
    hide Step;
    assert After(s, e[..0]) == s;
    assert e[..1][..0] == e[..0] && After(s, e[..1]) == s1;
    assert e[..2][..1] == e[..1] && After(s, e[..2]) == s2;
  }
}
