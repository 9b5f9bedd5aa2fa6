/**
 When an invoice that is refunded in full is also marked refunded: a plan change never marks its source, an admin
 refund does.
 */
module BillingMarks {
  import opened Core
  import Calendar
  import Proration
  import opened Billing
  import opened BillingInvariant
  import opened BillingMoney

  /** Nothing is left to refund on the invoice. */
  predicate Full(invoices: seq<Invoice>, id: nat) {
    id < |invoices| && invoices[id].refundedMinor == invoices[id].amountMinor
  }

  // ----- one step -----

  lemma SettledRow(invoices: seq<Invoice>, sub: Subscription, k: nat, source: nat, refund: int, charge: int,
      currency: string, mode: Mode, now: int)
    requires source < |invoices|
    ensures var r := SettledChange(invoices, sub, k, Some(source), refund, charge, currency, mode, now);
            |r| >= |invoices| && r[source] ==
              invoices[source].(refundedMinor := invoices[source].refundedMinor + Max(0, refund))
  {
  }

  /**
   A plan change leaves its source full if and only if the quote covers what the source has left - and leaves it paid
   either way.
   */
  lemma ChangeFillsSourceIff(s: Ledger, userId: nat, planKey: string, now: int, source: nat)
    requires Inv(s, now) && GuardChange(s, userId, planKey).Guarded?
    requires var g := GuardChange(s, userId, planKey);
             s.subscriptions[g.sub].status == Active && RefundSource(s.invoices, g.sub) == Some(source)
    ensures var g := GuardChange(s, userId, planKey);
            var t := ChangePlan(s, userId, planKey, now).ledger;
            && source < |s.invoices| && source < |t.invoices| && t.invoices[source].status == Paid
            && (Full(t.invoices, source) <==>
                  ChangeQuote(g, s.subscriptions[g.sub],
                    now).refundMinor >= s.invoices[source].amountMinor - s.invoices[source].refundedMinor)
  {
    var g := GuardChange(s, userId, planKey);
    RefundSourceIsPaid(s.invoices, g.sub);
    assert InvoiceOk(s.invoices[source], |s.customers|);
    var sub := s.subscriptions[g.sub];
    var quote := ChangeQuote(g, sub, now);
    var refund := RefundLeg(s.invoices, Some(source), quote.refundMinor);
    SettledRow(s.invoices, sub, g.sub, source, refund, quote.chargeMinor, g.toPlan.prices[sub.provider].currency,
      g.toPlan.mode, now);
    hide SettledChange, RefundSource, GuardChange, ChangeQuote, Inv;
  }

  /**
   An admin refund of a paid invoice is accepted if and only if the amount fits, and marks it if and only if the
   amount is all that is left.
   */
  lemma RefundMarksIff(s: Ledger, id: nat, amount: Option<int>, now: int)
    requires Inv(s, now) && id < |s.invoices| && s.invoices[id].status == Paid
    ensures var left := s.invoices[id].amountMinor - s.invoices[id].refundedMinor;
            var o := Refund(s, id, amount, now);
            && (o.reply.InvoiceRefunded? <==> left > 0 && (amount.Some? ==> 1 <= amount.value <= left))
            && (o.reply.InvoiceRefunded? ==>
                  && id < |o.ledger.invoices|
                  && (o.ledger.invoices[id].status == Refunded <==> amount.GetOr(left) == left)
                  && (o.ledger.invoices[id].status == Refunded <==> Full(o.ledger.invoices, id)))
  {
    assert InvoiceOk(s.invoices[id], |s.customers|);
    hide Inv, InvoiceOk, Revoked, PackUnits;
  }

  // ----- over runs -----

  lemma ChangeMarksNothing(s: Ledger, userId: nat, planKey: string, now: int)
    ensures var t := ChangePlan(s, userId, planKey, now).ledger;
            && |s.invoices| <= |t.invoices|
            && forall i :: 0 <= i < |s.invoices| ==>
                 t.invoices[i].status == s.invoices[i].status && t.invoices[i].amountMinor == s.invoices[i].amountMinor
  {
    var g := GuardChange(s, userId, planKey);
    if g.Guarded? {
      RefundSourceIsPaid(s.invoices, g.sub);
    }
    hide RefundSource, ChangeQuote, GuardChange, RefundLeg;
  }

  /** Only an admin refund changes an invoice's status. */
  lemma OnlyRefundMarks(s: Ledger, op: Op, now: int)
    requires !op.OpRefund?
    ensures var t := Step(s, op, now).ledger;
            |s.invoices| <= |t.invoices| && forall i :: 0 <= i < |s.invoices| ==>
              t.invoices[i].status == s.invoices[i].status
  {
    hide ChangePlan, Activate, CompletePurchase, AdvanceRenewal;
    match op
    case OpChangePlan(userId, planKey) => ChangeMarksNothing(s, userId, planKey, now);
    case OpActivate(userId, russian, planKey, status) => ActivateAddsOne(s, userId, russian, planKey, status, now);
    case OpCompletePurchase(session, buyer) => CompletePurchaseAddsOne(s, session, buyer, now);
    case OpAdvanceRenewal(target, owner, success) => RenewalAddsOne(s, target, owner, success, now);
    case _ => QuietSteps(s, op, now);
  }

  lemma RefundNames(s: Ledger, id: nat, amount: Option<int>, now: int)
    ensures forall i: nat :: LegOn(Refund(s, id, amount, now).reply, i) > 0 ==>
            i == id && Refund(s, id, amount, now).reply.InvoiceRefunded?
    ensures Refund(s, id, amount, now).reply.InvoiceRefunded? ==> id < |s.invoices| && s.invoices[id].status == Paid
  {
    hide RevokeOneTimeEffects;
  }

  /** A full invoice is never touched again. */
  lemma FullIsFinal(s: Ledger, op: Op, before: int, now: int, id: nat)
    requires Inv(s, before) && before <= now && Full(s.invoices, id)
    ensures var t := Step(s, op, now).ledger; id < |t.invoices| && t.invoices[id] == s.invoices[id]
  {
    hide Step;
    StepKeeps(s, op, before, now);
    var o := Step(s, op, now);
    assert InvoiceOk(o.ledger.invoices[id], |o.ledger.customers|);
    assert InvoiceStep(s.invoices[id], o.ledger.invoices[id], LegOn(o.reply, id));
    hide Inv;
  }

  /** The step that fills an invoice marks it if and only if it is an admin refund. */
  lemma FillingStep(s: Ledger, op: Op, before: int, now: int, id: nat)
    requires Inv(s, before) && before <= now && !Full(s.invoices, id)
    requires var t := Step(s, op, now).ledger; Full(t.invoices, id) && t.invoices[id].amountMinor > 0
    ensures Step(s, op, now).ledger.invoices[id].status == Refunded <==> op.OpRefund?
  {
    var o := Step(s, op, now);
    StepKeeps(s, op, before, now);
    assert id < |s.invoices| && InvoiceStep(s.invoices[id], o.ledger.invoices[id], LegOn(o.reply, id));
    assert s.invoices[id].status == Paid;
    if op.OpRefund? {
      RefundNames(s, op.invoice, op.amount, now);
      Later(s, before, now);
      RefundMarksIff(s, id, op.amount, now);
    } else {
      OnlyRefundMarks(s, op, now);
    }
    hide Step, Refund, Inv, Keeps;
  }

  /** The invoice is first full after the k-th event. */
  predicate FilledAt(s: Ledger, events: seq<Event>, k: nat, id: nat) {
    k < |events| && !Full(After(s, events[..k]).invoices, id) && Full(After(s, events[..k + 1]).invoices, id)
  }

  /**
   Over any run: an invoice that is full at the end was filled by one event, and is marked refunded if and only if
   that was an admin refund.
   */
  lemma {:induction false} MarkedIffFilledByRefund(s: Ledger, start: int, events: seq<Event>, id: nat)
    requires Inv(s, start) && Clocked(start, events) && !Full(s.invoices, id)
    requires var t := After(s, events); Full(t.invoices, id) && t.invoices[id].amountMinor > 0
    ensures exists k :: 0 <= k < |events| && FilledAt(s, events, k, id)
                        && (After(s, events).invoices[id].status == Refunded <==> events[k].op.OpRefund?)
  {
    hide Step, Inv;
    var last := |events| - 1;
    var init := events[..last];
    ClockedPrefix(start, events, last);
    RunKeeps(s, start, init);
    var mid := After(s, init);
    assert After(s, events) == Step(mid, events[last].op, events[last].now).ledger;
    assert events[..last + 1] == events;
    if Full(mid.invoices, id) {
      FullIsFinal(mid, events[last].op, Latest(start, init), events[last].now, id);
      MarkedIffFilledByRefund(s, start, init, id);
      var k :| 0 <= k < last && FilledAt(s, init, k, id) &&
        (mid.invoices[id].status == Refunded <==> init[k].op.OpRefund?);
      assert init[..k] == events[..k] && init[..k + 1] == events[..k + 1];
      assert FilledAt(s, events, k, id);
    } else {
      FillingStep(mid, events[last].op, Latest(start, init), events[last].now, id);
      assert FilledAt(s, events, last, id);
    }
  }

  // ----- a source that ends full and paid -----

  lemma WholePeriod(from: int, interval: Calendar.Interval) returns (days: nat)
    ensures days >= 1 && Calendar.AddInterval(from, interval) == from + days * Calendar.DAY_MS
  {
    hide Calendar.NextPeriodEnd, Calendar.PlusIntervals;
    Calendar.RenewalsDoNotDrift(from, interval, 1);
    days := Calendar.PeriodLength(from, interval, 0);
  }

  lemma FirstInvoice(catalog: Catalog, plan: Plan, userId: nat, russian: bool, planKey: string, now: int)
      returns (sub: Subscription)
    requires FindPlan(catalog, planKey).Some? && catalog.plans[FindPlan(catalog, planKey).value] == plan
    requires GeoDefault(CountryOf(russian)) in plan.prices
    ensures var t := Activate(Opening(catalog), userId, russian, planKey, Active, now).ledger;
            && t.catalog == catalog && t.subscriptions == [sub] && |t.customers| == 1 && t.customers[0].userId == userId
            && sub.customer == 0 && sub.planKey == plan.key && sub.provider == GeoDefault(CountryOf(russian)) &&
                 sub.status == Active
            && sub.periodStart == now && sub.periodEnd == Calendar.AddInterval(now, plan.interval) &&
                 !sub.cancelAtPeriodEnd
            && |t.invoices| == 1 && t.invoices[0].subscription == Some(0) && t.invoices[0].status == Paid &&
                 t.invoices[0].mode == plan.mode
            && t.invoices[0].refundedMinor == 0 && t.invoices[0].amountMinor == plan.prices[sub.provider].amountMinor
  {
    hide Calendar.AddInterval;
    var t := Activate(Opening(catalog), userId, russian, planKey, Active, now).ledger;
    sub := t.subscriptions[0];
  }

  lemma FirstGuard(s: Ledger, sub: Subscription, from: Plan, to: Plan, userId: nat, toKey: string)
    requires s.subscriptions == [sub] && |s.customers| == 1 && s.customers[0].userId == userId && sub.customer == 0
    requires sub.status == Active && !sub.cancelAtPeriodEnd && sub.provider in to.prices && to.key != sub.planKey
    requires FindPlan(s.catalog, sub.planKey).Some? && s.catalog.plans[FindPlan(s.catalog, sub.planKey).value] == from
    requires FindActivePlan(s.catalog, toKey).Some? && s.catalog.plans[FindActivePlan(s.catalog, toKey).value] == to
    ensures GuardChange(s, userId, toKey) == Guarded(0, 0, from, to)
  {
    hide FindPlan, FindActivePlan;
  }

  lemma OnlySource(invoices: seq<Invoice>)
    requires |invoices| == 1 && invoices[0].subscription == Some(0) && invoices[0].status == Paid &&
             invoices[0].mode == Fixed && invoices[0].amountMinor > 0
    ensures RefundSource(invoices, 0) == Some(0)
  {
    assert invoices[..0] == [];
  }

  /** The run of one activation and, at once, one plan change. */
  function ChangedAtOnce(userId: nat, russian: bool, fromKey: string, toKey: string, now: int): seq<Event> {
    [Event(OpActivate(userId, russian, fromKey, Active), now), Event(OpChangePlan(userId, toKey), now)]
  }

  /**
   From an empty ledger: a fixed plan activated and changed at once leaves its first invoice refunded in full, and
   paid.
   */
  lemma FullAndPaid(catalog: Catalog, from: Plan, to: Plan, userId: nat, russian: bool, fromKey: string,
      toKey: string, now: int)
    requires FindPlan(catalog, fromKey).Some? && catalog.plans[FindPlan(catalog, fromKey).value] == from
    requires FindActivePlan(catalog, toKey).Some? && catalog.plans[FindActivePlan(catalog, toKey).value] == to
    requires from.key != to.key && from.mode == Fixed
    requires var provider := GeoDefault(CountryOf(russian));
             provider in from.prices && provider in to.prices && from.prices[provider].amountMinor > 0
    ensures var t := After(Opening(catalog), ChangedAtOnce(userId, russian, fromKey, toKey, now));
            Full(t.invoices, 0) && t.invoices[0].amountMinor > 0 && t.invoices[0].status == Paid
  {
    hide FindPlan, FindActivePlan, Activate, ChangePlan, Inv, Full, ChangedAtOnce;
    var events, s0 := ChangedAtOnce(userId, russian, fromKey, toKey, now), Opening(catalog);
    var s := Activate(s0, userId, russian, fromKey, Active, now).ledger;
    OnceEvents(s0, userId, russian, fromKey, toKey, now);
    var sub := FirstInvoice(catalog, from, userId, russian, fromKey, now);
    KeyFound(catalog, fromKey);
    FirstInv(catalog, userId, russian, fromKey, now);
    FirstChange(s, sub, from, to, userId, toKey, now);
  }

  lemma FirstInv(catalog: Catalog, userId: nat, russian: bool, planKey: string, now: int)
    ensures Inv(Activate(Opening(catalog), userId, russian, planKey, Active, now).ledger, now)
  {
    hide Activate, Inv;
    OpeningInv(catalog, now);
    StepKeeps(Opening(catalog), OpActivate(userId, russian, planKey, Active), now, now);
  }

  lemma FirstChange(s: Ledger, sub: Subscription, from: Plan, to: Plan, userId: nat, toKey: string, now: int)
    requires Inv(s, now) && s.subscriptions == [sub] && |s.customers| == 1 && s.customers[0].userId == userId &&
             sub.customer == 0
    requires sub.status == Active && !sub.cancelAtPeriodEnd && sub.provider in to.prices && to.key != sub.planKey
    requires FindPlan(s.catalog, sub.planKey).Some? && s.catalog.plans[FindPlan(s.catalog, sub.planKey).value] == from
    requires FindActivePlan(s.catalog, toKey).Some? && s.catalog.plans[FindActivePlan(s.catalog, toKey).value] == to
    requires sub.periodStart == now && sub.periodEnd == Calendar.AddInterval(now, from.interval)
    requires |s.invoices| == 1 && s.invoices[0].subscription == Some(0) && s.invoices[0].status == Paid &&
             s.invoices[0].mode == Fixed
    requires s.invoices[0].refundedMinor == 0 && s.invoices[0].amountMinor == PlanAmount(from, sub.provider) > 0
    ensures var t := ChangePlan(s, userId, toKey, now).ledger;
            Full(t.invoices, 0) && t.invoices[0].amountMinor > 0 && t.invoices[0].status == Paid
  {
    hide FindPlan, FindActivePlan, ChangePlan, GuardChange, RefundSource, Inv, Calendar.AddInterval;
    FirstGuard(s, sub, from, to, userId, toKey);
    OnlySource(s.invoices);
    var days := WholePeriod(now, from.interval);
    Proration.QuoteAtTheEnds(PlanAmount(from, sub.provider), PlanAmount(to, sub.provider), now, days, now);
    ChangeFillsSourceIff(s, userId, toKey, now, 0);
    ChangeMarksNothing(s, userId, toKey, now);
  }

  lemma OnceEvents(s: Ledger, userId: nat, russian: bool, fromKey: string, toKey: string, now: int)
    ensures After(s, ChangedAtOnce(userId, russian, fromKey, toKey, now)) ==
            ChangePlan(Activate(s, userId, russian, fromKey, Active, now).ledger, userId, toKey, now).ledger
  {
    hide Activate, ChangePlan;
    TwoEvents(s, ChangedAtOnce(userId, russian, fromKey, toKey, now));
  }

  lemma KeyFound(catalog: Catalog, planKey: string)
    requires FindPlan(catalog, planKey).Some?
    ensures catalog.plans[FindPlan(catalog, planKey).value].key == planKey
  {
  }

  lemma TwoEvents(s: Ledger, events: seq<Event>)
    requires |events| == 2
    ensures After(s, events) == Step(Step(s, events[0].op, events[0].now).ledger, events[1].op, events[1].now).ledger
  {
    hide Step;
    assert events[..1][..0] == [];
    assert After(s, []) == s;
    assert After(s, events[..1]) == Step(s, events[0].op, events[0].now).ledger;
  }
}
