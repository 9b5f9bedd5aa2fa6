/** Prepaid credits over whole runs: a balance is the packs still standing minus the units renewals have spent. */
module BillingCredits {
  import opened Core
  import opened Billing
  import opened BillingInvariant

  /** The units an invoice still stands for to a customer: a credit pack, until it is refunded in full. */
  function Worth(catalog: Catalog, i: Invoice, customer: nat): nat {
    if i.customer == customer && i.status != Refunded then PackUnits(catalog, i) else 0
  }

  function PackCredits(catalog: Catalog, invoices: seq<Invoice>, customer: nat): nat {
    if invoices == [] then 0
    else PackCredits(catalog, invoices[..|invoices| - 1], customer) + Worth(catalog, invoices[|invoices| - 1], customer)
  }

  function Spent(reply: Reply, customer: nat): nat {
    if reply.PeriodClosed? && reply.customer == customer then reply.creditUnits else 0
  }

  function SpentTotal(s: Ledger, events: seq<Event>, customer: nat): nat {
    if events == [] then 0
    else SpentTotal(s, events[..|events| - 1], customer) + Spent(ReplyAt(s, events, |events| - 1), customer)
  }

  lemma {:induction false} SameWorth(catalog: Catalog, a: seq<Invoice>, b: seq<Invoice>, customer: nat)
    requires |a| == |b| && forall i :: 0 <= i < |a| ==> Worth(catalog, a[i], customer) == Worth(catalog, b[i], customer)
    ensures PackCredits(catalog, a, customer) == PackCredits(catalog, b, customer)
  {
    hide Worth;
    if a != [] {
      SameWorth(catalog, a[..|a| - 1], b[..|b| - 1], customer);
    }
  }

  lemma WorthAppended(catalog: Catalog, a: seq<Invoice>, i: Invoice, customer: nat)
    ensures PackCredits(catalog, a + [i], customer) == PackCredits(catalog, a, customer) + Worth(catalog, i, customer)
  {
    assert (a + [i])[..|a|] == a;
  }

  lemma {:induction false} WorthReplaced(catalog: Catalog, a: seq<Invoice>, k: nat, i: Invoice, customer: nat)
    requires k < |a|
    ensures PackCredits(catalog, a[k := i], customer)
            == PackCredits(catalog, a, customer) - Worth(catalog, a[k], customer) + Worth(catalog, i, customer)
  {
    hide Worth;
    var last := |a| - 1;
    if k == last {
      assert a[k := i][..last] == a[..last];
    } else {
      assert a[k := i][..last] == a[..last][k := i];
      WorthReplaced(catalog, a[..last], k, i, customer);
    }
  }

  // ----- one step -----

  /** What a step does to a balance beyond what it does to the packs. */
  ghost predicate CreditStep(s: Ledger, o: Outcome, customer: nat) {
    Balance(o.ledger.balances, customer) - PackCredits(o.ledger.catalog, o.ledger.invoices, customer)
    == Balance(s.balances, customer) - PackCredits(s.catalog, s.invoices, customer) - Spent(o.reply, customer)
  }

  lemma QuietCredits(s: Ledger, op: Op, now: int, customer: nat)
    requires !op.OpChangePlan? && !op.OpRefund? && !op.OpActivate? && !op.OpCompletePurchase? && !op.OpAdvanceRenewal?
    ensures CreditStep(s, Step(s, op, now), customer)
  {
    hide Step, PackCredits, Balance;
    QuietTables(s, op, now);
  }

  ghost predicate SameTables(s: Ledger, o: Outcome) {
    o.ledger.invoices == s.invoices && o.ledger.balances == s.balances && o.ledger.catalog == s.catalog &&
      !o.reply.PeriodClosed?
  }

  lemma QuietTables(s: Ledger, op: Op, now: int)
    requires !op.OpChangePlan? && !op.OpRefund? && !op.OpActivate? && !op.OpCompletePurchase? && !op.OpAdvanceRenewal?
    ensures SameTables(s, Step(s, op, now))
  {
    if op.OpSetRegion? || op.OpPurchase? || op.OpCheckout? {
      QuietEntries(s, op, now);
    } else {
      QuietRewrites(s, op, now);
    }
    hide Step, SameTables;
  }

  lemma QuietEntries(s: Ledger, op: Op, now: int)
    requires op.OpSetRegion? || op.OpPurchase? || op.OpCheckout?
    ensures SameTables(s, Step(s, op, now))
  {
    hide SameTables, SetRegion, Purchase, Checkout;
    match op
    case OpSetRegion(userId, russian, region) => RegionTables(s, userId, russian, region);
    case OpPurchase(userId, russian, productKey, requested) =>
      PurchaseTables(s, userId, russian, productKey, requested, now);
    case OpCheckout(userId, russian, planKey) => CheckoutTables(s, userId, russian, planKey, now);
  }

  lemma RegionTables(s: Ledger, userId: nat, russian: bool, region: Region)
    ensures SameTables(s, SetRegion(s, userId, russian, region))
  {
    hide CurrentSubscription;
  }

  lemma PurchaseTables(s: Ledger, userId: nat, russian: bool, productKey: string, requested: Option<int>, now: int)
    ensures SameTables(s, Purchase(s, userId, russian, productKey, requested, now))
  {
    hide PurchaseAmount;
  }

  lemma CheckoutTables(s: Ledger, userId: nat, russian: bool, planKey: string, now: int)
    ensures SameTables(s, Checkout(s, userId, russian, planKey, now))
  {
    hide EntitledSubscription, PendingCheckout, CheckoutRow, FindActivePlan;
  }

  lemma QuietRewrites(s: Ledger, op: Op, now: int)
    requires op.OpUpdatePaymentMethod? || op.OpCancel? || op.OpAdminCancel? || op.OpRecordUsage? || op.OpDeleteUser?
    ensures SameTables(s, Step(s, op, now))
  {
    hide EntitledSubscription, Ended, Demoted;
  }

  lemma ChangePlanCredits(s: Ledger, userId: nat, planKey: string, now: int, customer: nat)
    ensures CreditStep(s, ChangePlan(s, userId, planKey, now), customer)
  {
    hide PackCredits, RefundSource, RefundLeg;
    var g := GuardChange(s, userId, planKey);
    if g.Guarded? && s.subscriptions[g.sub].status != Trialing {
      var sub := s.subscriptions[g.sub];
      var quote := ChangeQuote(g, sub, now);
      var source := RefundSource(s.invoices, g.sub);
      RefundSourceIsPaid(s.invoices, g.sub);
      SettledWorth(s, g.sub, source, RefundLeg(s.invoices, source, quote.refundMinor), quote.chargeMinor,
                   g.toPlan.prices[sub.provider].currency, g.toPlan.mode, now, customer);
    }
  }

  lemma SettledWorth(s: Ledger, k: nat, source: Option<nat>, refund: int, charge: int, currency: string, mode: Mode,
      now: int, customer: nat)
    requires k < |s.subscriptions| && (source.Some? ==> source.value < |s.invoices|)
    ensures PackCredits(s.catalog, SettledChange(s.invoices, s.subscriptions[k], k, source, refund, charge, currency,
            mode, now), customer)
            == PackCredits(s.catalog, s.invoices, customer)
  {
    hide PackCredits;
    var sub := s.subscriptions[k];
    var invoice := ChargeInvoice(sub, k, charge, currency, mode, Paid, now);
    var charged := if charge > 0 then s.invoices + [invoice] else s.invoices;
    WorthAppended(s.catalog, s.invoices, invoice, customer);
    if refund > 0 && source.Some? {
      var document := ChargeInvoice(sub, k, refund, currency, Fixed, Refunded, now);
      WorthAppended(s.catalog, charged, document, customer);
      SameWorth(s.catalog, charged + [document],
        SettledChange(s.invoices, sub, k, source, refund, charge, currency, mode, now), customer);
    }
  }

  lemma RefundCredits(s: Ledger, id: nat, amount: Option<int>, now: int, customer: nat)
    ensures CreditStep(s, Refund(s, id, amount, now), customer)
  {
    hide PackCredits, Revoked;
    var o := Refund(s, id, amount, now);
    if o.reply.InvoiceRefunded? {
      WorthReplaced(s.catalog, s.invoices, id, o.ledger.invoices[id], customer);
    }
  }

  lemma RecurringAdded(s: Ledger, o: Outcome, invoice: Invoice, customer: nat)
    requires o.ledger.catalog == s.catalog && o.ledger.invoices == s.invoices + [invoice] && invoice.kind == Recurring
    ensures PackCredits(s.catalog, o.ledger.invoices, customer) == PackCredits(s.catalog, s.invoices, customer)
  {
    WorthAppended(s.catalog, s.invoices, invoice, customer);
  }

  lemma ActivateCredits(s: Ledger, userId: nat, russian: bool, planKey: string, status: Status, now: int, customer: nat)
    ensures CreditStep(s, Activate(s, userId, russian, planKey, status, now), customer)
  {
    hide PackCredits, BroughtToPlan, Balance, FindPlan;
    ActivateAdds(s, userId, russian, planKey, status, now);
    var o := Activate(s, userId, russian, planKey, status, now);
    if o.ledger.invoices != s.invoices {
      RecurringAdded(s, o, o.ledger.invoices[|s.invoices|], customer);
    }
    hide Activate;
  }

  lemma ActivateAdds(s: Ledger, userId: nat, russian: bool, planKey: string, status: Status, now: int)
    ensures var o := Activate(s, userId, russian, planKey, status, now);
            && o.ledger.catalog == s.catalog && o.ledger.balances == s.balances && !o.reply.PeriodClosed?
            && (o.ledger.invoices == s.invoices
                || (&& |o.ledger.invoices| == |s.invoices| + 1 && o.ledger.invoices[|s.invoices|].kind == Recurring
                    && o.ledger.invoices == s.invoices + [o.ledger.invoices[|s.invoices|]]))
  {
    hide BroughtToPlan, FindPlan;
    var found := FindPlan(s.catalog, planKey);
    if found.Some? {
      PlanInCatalog(s.catalog, planKey);
      var (s1, c) := WithCustomer(s, userId, russian);
      BroughtAdds(WithDefaultMethod(s1, c), c, s.catalog.plans[found.value], status, now);
    }
  }

  lemma BroughtAdds(s: Ledger, c: nat, plan: Plan, status: Status, now: int)
    requires c < |s.customers|
    ensures var t := BroughtToPlan(s, c, plan, status, now);
            && t.catalog == s.catalog && t.balances == s.balances
            && |t.invoices| == |s.invoices| + 1 && t.invoices[|s.invoices|].kind == Recurring
            && t.invoices == s.invoices + [t.invoices[|s.invoices|]]
  {
    hide Activated, FreshRow, CurrentSubscription, ActivationPrice;
  }

  lemma CompletePurchaseCredits(s: Ledger, ref: Option<nat>, userId: Option<nat>, now: int, customer: nat)
    ensures CreditStep(s, CompletePurchase(s, ref, userId, now), customer)
  {
    hide PackCredits, FindSession, PurchasedGrant, PackUnits;
    var o := CompletePurchase(s, ref, userId, now);
    if o.reply.PurchaseSettled? {
      WorthAppended(s.catalog, s.invoices, o.ledger.invoices[|s.invoices|], customer);
    }
  }

  lemma RenewalCredits(s: Ledger, target: Option<nat>, userId: Option<nat>, success: bool, now: int, customer: nat)
    ensures CreditStep(s, AdvanceRenewal(s, target, userId, success, now), customer)
  {
    hide PackCredits, RenewalTarget, FailCharge, ChargeRenewal;
    var o, found := AdvanceRenewal(s, target, userId, success, now), RenewalTarget(s, target, userId);
    if found.Some? {
      TargetInRange(s, target, userId);
      var sub := s.subscriptions[found.value];
      var p := FindPlan(s.catalog, sub.planKey);
      if success && p.Some? && sub.provider in s.catalog.plans[p.value].prices && !sub.cancelAtPeriodEnd {
        ChargeCredits(s, found.value, s.catalog.plans[p.value], now, customer);
      }
    }
  }

  lemma TargetInRange(s: Ledger, target: Option<nat>, userId: Option<nat>)
    ensures var found := RenewalTarget(s, target, userId); found.Some? ==> found.value < |s.subscriptions|
  {
  }

  lemma ChargeCredits(s: Ledger, k: nat, plan: Plan, now: int, customer: nat)
    requires k < |s.subscriptions| && s.subscriptions[k].provider in plan.prices
    ensures CreditStep(s, ChargeRenewal(s, k, plan, now), customer)
  {
    hide PackCredits, UnitsBetween, Renewed;
    var o := ChargeRenewal(s, k, plan, now);
    RecurringAdded(s, o, o.ledger.invoices[|s.invoices|], customer);
  }

  lemma StepCredits(s: Ledger, op: Op, now: int, customer: nat)
    ensures CreditStep(s, Step(s, op, now), customer)
  {
    hide ChangePlan, Refund, Activate, CompletePurchase, AdvanceRenewal, CreditStep;
    match op
    case OpChangePlan(userId, planKey) => ChangePlanCredits(s, userId, planKey, now, customer);
    case OpRefund(id, amount) => RefundCredits(s, id, amount, now, customer);
    case OpActivate(userId, russian, planKey, status) =>
      ActivateCredits(s, userId, russian, planKey, status, now, customer);
    case OpCompletePurchase(session, buyer) => CompletePurchaseCredits(s, session, buyer, now, customer);
    case OpAdvanceRenewal(target, owner, success) => RenewalCredits(s, target, owner, success, now, customer);
    case _ => QuietCredits(s, op, now, customer);
  }

  // ----- runs -----

  /**
   Conservation: after any run from an empty ledger, a balance is the customer's standing packs minus what their
   renewals spent.
   */
  lemma {:induction false} CreditsConserved(catalog: Catalog, events: seq<Event>, customer: nat)
    ensures var s := Opening(catalog);
            Balance(After(s, events).balances, customer)
            == PackCredits(After(s, events).catalog, After(s, events).invoices, customer) - SpentTotal(s, events,
              customer)
  {
    hide Step;
    if events != [] {
      var s, last := Opening(catalog), |events| - 1;
      CreditsConserved(catalog, events[..last], customer);
      StepCredits(After(s, events[..last]), events[last].op, events[last].now, customer);
    }
  }

  /**
   Closing a usage period: every unit is covered by the plan, paid with a credit, or charged; and spending stops at
   zero.
   */
  lemma PeriodCloseBalances(s: Ledger, target: Option<nat>, userId: Option<nat>, now: int)
    requires AdvanceRenewal(s, target, userId, true, now).reply.PeriodClosed?
    ensures var o := AdvanceRenewal(s, target, userId, true, now);
            var r, sub := o.reply, s.subscriptions[o.reply.sub];
            && r.totalUnits == UnitsBetween(s.usage, r.sub, sub.periodStart, now)
            && r.totalUnits == r.coveredUnits + r.creditUnits + r.chargedUnits
            && (exists p :: p in s.catalog.plans && p.key == sub.planKey && sub.provider in p.prices
                  && r.coveredUnits == Min(r.totalUnits, p.prices[sub.provider].includedUnits)
                  && r.amountMinor == r.chargedUnits * p.prices[sub.provider].unitPriceMinor)
            && (r.chargedUnits > 0 ==> Balance(o.ledger.balances, r.customer) <= 0)
            && Balance(o.ledger.balances, r.customer) >= Min(0, Balance(s.balances, r.customer))
            && o.ledger.invoices[|s.invoices|].amountMinor == r.amountMinor
  {
    hide RenewalTarget, ChargeRenewal, FindPlan, UnitsBetween;
    TargetInRange(s, target, userId);
    var k := RenewalTarget(s, target, userId).value;
    var sub := s.subscriptions[k];
    PlanInCatalog(s.catalog, sub.planKey);
    CloseSplits(s, k, s.catalog.plans[FindPlan(s.catalog, sub.planKey).value], now);
  }

  lemma PlanInCatalog(catalog: Catalog, planKey: string)
    ensures var found := FindPlan(catalog, planKey);
            found.Some? ==>
              && found.value < |catalog.plans| && catalog.plans[found.value] in catalog.plans
              && catalog.plans[found.value].key == planKey
  {
  }

  lemma CloseSplits(s: Ledger, k: nat, plan: Plan, now: int)
    requires k < |s.subscriptions| && s.subscriptions[k].provider in plan.prices
    requires ChargeRenewal(s, k, plan, now).reply.PeriodClosed?
    ensures var o := ChargeRenewal(s, k, plan, now);
            var r, sub, price := o.reply, s.subscriptions[k], plan.prices[s.subscriptions[k].provider];
            && r.sub == k && r.totalUnits == UnitsBetween(s.usage, k, sub.periodStart, now)
            && r.totalUnits == r.coveredUnits + r.creditUnits + r.chargedUnits
            && r.coveredUnits == Min(r.totalUnits, price.includedUnits)
            && r.amountMinor == r.chargedUnits * price.unitPriceMinor
            && (r.chargedUnits > 0 ==> Balance(o.ledger.balances, r.customer) <= 0)
            && Balance(o.ledger.balances, r.customer) >= Min(0, Balance(s.balances, r.customer))
            && |o.ledger.invoices| == |s.invoices| + 1 && o.ledger.invoices[|s.invoices|].amountMinor == r.amountMinor
  {
    hide UnitsBetween, Renewed;
  }

  /**
   However a pack's refund is split, it is clawed back once: exactly by the leg that completes it, and never again
   after.
   */
  lemma PackClawedBackOnce(s: Ledger, id: nat, amount: Option<int>, now: int)
    requires Inv(s, now) && id < |s.invoices| && s.invoices[id].kind == OneTime
    ensures var o := Refund(s, id, amount, now);
            Balance(o.ledger.balances, s.invoices[id].customer) ==
            Balance(s.balances, s.invoices[id].customer)
            - if o.reply.InvoiceRefunded? &&
              s.invoices[id].refundedMinor + o.reply.amountMinor == s.invoices[id].amountMinor
              then PackUnits(s.catalog, s.invoices[id]) else 0
    ensures s.invoices[id].refundedMinor == s.invoices[id].amountMinor ==> Refund(s, id, amount, now).reply.Refused?
  {
    assert InvoiceOk(s.invoices[id], |s.customers|);
    hide Revoked;
  }
}
