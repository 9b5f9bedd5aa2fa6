/**
 Money over whole runs: every unit refunded is a leg some reply reported, and no invoice gives back more than it took.
 */
module BillingMoney {
  import opened Core
  import opened Billing
  import opened BillingInvariant

  // ----- each invoice -----

  function RefundedOn(invoices: seq<Invoice>, id: nat): int {
    if id < |invoices| then invoices[id].refundedMinor else 0
  }

  /** The refund legs that a run's replies report on one invoice. */
  function Legs(s: Ledger, events: seq<Event>, id: nat): int {
    if events == [] then 0
    else Legs(s, events[..|events| - 1], id) + LegOn(ReplyAt(s, events, |events| - 1), id)
  }

  /**
   After any run, an invoice's refunded total is the sum of the plan-change and admin legs reported on it, and at most
   its amount.
   */
  lemma {:induction false} RefundsAreTheLegs(s: Ledger, start: int, events: seq<Event>, id: nat)
    requires Inv(s, start) && Clocked(start, events)
    ensures RefundedOn(After(s, events).invoices, id) == RefundedOn(s.invoices, id) + Legs(s, events, id)
    ensures id < |After(s, events).invoices| ==>
            0 <= RefundedOn(After(s, events).invoices, id) <= After(s, events).invoices[id].amountMinor
  {
    RunKeeps(s, start, events);
    hide Inv, Step, SubscriptionsStep;
    if events != [] {
      var last := |events| - 1;
      ClockedPrefix(start, events, last);
      RunKeeps(s, start, events[..last]);
      RefundsAreTheLegs(s, start, events[..last], id);
      StepKeeps(After(s, events[..last]), events[last].op, Latest(start, events[..last]), events[last].now);
      LegApplied(After(s, events[..last]), Step(After(s, events[..last]), events[last].op, events[last].now), id,
        events[last].now);
    }
    InvoiceBounds(After(s, events), Latest(start, events), id);
  }

  lemma LegApplied(s: Ledger, o: Outcome, id: nat, now: int)
    requires Keeps(s, o, now)
    ensures RefundedOn(o.ledger.invoices, id) == RefundedOn(s.invoices, id) + LegOn(o.reply, id)
  {
    if id < |s.invoices| {
      assert InvoiceStep(s.invoices[id], o.ledger.invoices[id], LegOn(o.reply, id));
    }
  }

  lemma InvoiceBounds(s: Ledger, now: int, id: nat)
    requires Inv(s, now)
    ensures id < |s.invoices| ==> 0 <= s.invoices[id].refundedMinor <= s.invoices[id].amountMinor
  {
    if id < |s.invoices| {
      assert InvoiceOk(s.invoices[id], |s.customers|);
    }
  }

  // ----- the whole book -----

  function TotalRefunded(invoices: seq<Invoice>): int {
    if invoices == [] then 0 else TotalRefunded(invoices[..|invoices| - 1]) + invoices[|invoices| - 1].refundedMinor
  }

  /** A refund document: a row born refunded, with nothing refunded on it. */
  predicate IsDocument(i: Invoice) { i.status == Refunded && i.refundedMinor == 0 }

  function DocumentAmount(i: Invoice): int { if IsDocument(i) then i.amountMinor else 0 }

  function DocumentTotal(invoices: seq<Invoice>): int {
    if invoices == [] then 0 else DocumentTotal(invoices[..|invoices| - 1]) + DocumentAmount(invoices[|invoices| - 1])
  }

  function AdminLeg(reply: Reply): int { if reply.InvoiceRefunded? then reply.amountMinor else 0 }

  function ChangeLeg(reply: Reply): int { if reply.PlanChanged? && reply.source.Some? then reply.refundMinor else 0 }

  function AdminLegs(s: Ledger, events: seq<Event>): int {
    if events == [] then 0 else AdminLegs(s, events[..|events| - 1]) + AdminLeg(ReplyAt(s, events, |events| - 1))
  }

  function Target(reply: Reply): Option<nat> {
    match reply
    case PlanChanged(_, source, _, _) => source
    case InvoiceRefunded(id, _) => Some(id)
    case _ => None
  }

  lemma {:induction false} TotalsGrowByTheLeg(a: seq<Invoice>, b: seq<Invoice>, reply: Reply)
    requires InvoicesStep(a, b, reply)
    ensures TotalRefunded(b) == TotalRefunded(a) + AdminLeg(reply) + ChangeLeg(reply)
    decreases |b|
  {
    if |b| > |a| {
      TotalsGrowByTheLeg(a, b[..|b| - 1], reply);
    } else {
      OneLegAdded(a, b, reply);
      if Target(reply).Some? {
        assert LegOn(reply, Target(reply).value) == AdminLeg(reply) + ChangeLeg(reply);
        if Target(reply).value >= |a| {
          assert LegOn(reply, Target(reply).value) == 0;
        }
      }
    }
  }

  /** Over a prefix of the rows, the total moves by the leg if its target is in the prefix. */
  lemma {:induction false} OneLegAdded(a: seq<Invoice>, b: seq<Invoice>, reply: Reply)
    requires |a| == |b| && forall i :: 0 <= i < |a| ==> b[i].refundedMinor == a[i].refundedMinor + LegOn(reply, i)
    ensures TotalRefunded(b) == TotalRefunded(a) + if Target(reply).Some? &&
            Target(reply).value < |a| then LegOn(reply, Target(reply).value) else 0
  {
    if a != [] {
      OneLegAdded(a[..|a| - 1], b[..|b| - 1], reply);
      assert LegOn(reply, |a| - 1) != 0 ==> Target(reply) == Some(|a| - 1);
    }
  }

  lemma {:induction false} SameDocuments(a: seq<Invoice>, b: seq<Invoice>)
    requires |a| == |b| && forall i :: 0 <= i < |a| ==> DocumentAmount(a[i]) == DocumentAmount(b[i])
    ensures DocumentTotal(a) == DocumentTotal(b)
  {
    if a != [] {
      SameDocuments(a[..|a| - 1], b[..|b| - 1]);
    }
  }

  lemma DocumentAppended(a: seq<Invoice>, i: Invoice)
    ensures DocumentTotal(a + [i]) == DocumentTotal(a) + DocumentAmount(i)
  {
    assert (a + [i])[..|a|] == a;
  }

  lemma ChangeDocuments(s: Ledger, k: nat, quote: nat, charge: nat, currency: string, mode: Mode, now: int)
    requires k < |s.subscriptions| && InvoicesOk(s.invoices, |s.customers|)
    ensures var source := RefundSource(s.invoices, k);
            var refund := RefundLeg(s.invoices, source, quote);
            DocumentTotal(SettledChange(s.invoices, s.subscriptions[k], k, source, refund, charge, currency, mode, now))
            == DocumentTotal(s.invoices) + ChangeLeg(PlanChanged(k, source, refund, charge))
  {
    RefundSourceIsPaid(s.invoices, k);
    hide RefundSource, DocumentTotal;
    var sub, source := s.subscriptions[k], RefundSource(s.invoices, k);
    var refund := RefundLeg(s.invoices, source, quote);
    var charged := if charge > 0 then s.invoices + [ChargeInvoice(sub, k, charge, currency, mode, Paid, now)]
      else s.invoices;
    if charge > 0 {
      DocumentAppended(s.invoices, ChargeInvoice(sub, k, charge, currency, mode, Paid, now));
    }
    if source.Some? {
      assert InvoiceOk(s.invoices[source.value], |s.customers|);
    }
    if refund > 0 && source.Some? {
      var document := ChargeInvoice(sub, k, refund, currency, Fixed, Refunded, now);
      DocumentAppended(charged, document);
      SameDocuments(charged + [document], SettledChange(s.invoices, sub, k, source, refund, charge, currency, mode,
        now));
    }
  }

  /** At most one invoice is added, and it is a paid one. */
  ghost predicate OnePaidAtMost(s: Ledger, o: Outcome) {
    || o.ledger.invoices == s.invoices
    || (exists i: Invoice :: i.status == Paid && o.ledger.invoices == s.invoices + [i])
  }

  lemma ActivateAddsOne(s: Ledger, userId: nat, russian: bool, planKey: string, status: Status, now: int)
    ensures OnePaidAtMost(s, Activate(s, userId, russian, planKey, status, now))
  {
    hide Activated, FreshRow, CurrentSubscription;
  }

  lemma CompletePurchaseAddsOne(s: Ledger, ref: Option<nat>, userId: Option<nat>, now: int)
    ensures OnePaidAtMost(s, CompletePurchase(s, ref, userId, now))
  {
    hide FindSession, PurchasedGrant, PackUnits;
  }

  lemma RenewalAddsOne(s: Ledger, target: Option<nat>, userId: Option<nat>, success: bool, now: int)
    ensures OnePaidAtMost(s, AdvanceRenewal(s, target, userId, success, now))
  {
    hide RenewalTarget, UnitsBetween, FailCharge;
  }

  lemma PaidInvoicesAreNoDocuments(s: Ledger, o: Outcome)
    requires OnePaidAtMost(s, o)
    ensures DocumentTotal(o.ledger.invoices) == DocumentTotal(s.invoices)
  {
    if o.ledger.invoices != s.invoices {
      var i: Invoice :| i.status == Paid && o.ledger.invoices == s.invoices + [i];
      DocumentAppended(s.invoices, i);
    }
  }

  lemma RefundDocuments(s: Ledger, id: nat, amount: Option<int>, now: int)
    requires InvoicesOk(s.invoices, |s.customers|)
    ensures DocumentTotal(Refund(s, id, amount, now).ledger.invoices) == DocumentTotal(s.invoices)
  {
    hide DocumentTotal;
    if id < |s.invoices| {
      assert InvoiceOk(s.invoices[id], |s.customers|);
    }
    SameDocuments(s.invoices, Refund(s, id, amount, now).ledger.invoices);
  }

  lemma ChangePlanDocuments(s: Ledger, userId: nat, planKey: string, now: int)
    requires InvoicesOk(s.invoices, |s.customers|)
    ensures var o := ChangePlan(s, userId, planKey, now);
            DocumentTotal(o.ledger.invoices) == DocumentTotal(s.invoices) + ChangeLeg(o.reply)
  {
    hide DocumentTotal, SettledChange, RefundSource, RefundLeg;
    var g := GuardChange(s, userId, planKey);
    if g.Guarded? && s.subscriptions[g.sub].status != Trialing {
      var sub := s.subscriptions[g.sub];
      var quote := ChangeQuote(g, sub, now);
      ChangeDocuments(s, g.sub, quote.refundMinor, quote.chargeMinor, g.toPlan.prices[sub.provider].currency,
        g.toPlan.mode, now);
    }
  }

  /** The other steps leave the invoice table alone. */
  lemma QuietSteps(s: Ledger, op: Op, now: int)
    requires !op.OpChangePlan? && !op.OpRefund? && !op.OpActivate? && !op.OpCompletePurchase? && !op.OpAdvanceRenewal?
    ensures var o := Step(s, op, now); o.ledger.invoices == s.invoices && ChangeLeg(o.reply) == 0
  {
    hide CurrentSubscription, EntitledSubscription, PendingCheckout, CheckoutRow;
  }

  lemma RenewalRepliesNoLeg(s: Ledger, op: Op, now: int)
    requires op.OpActivate? || op.OpCompletePurchase? || op.OpAdvanceRenewal?
    ensures ChangeLeg(Step(s, op, now).reply) == 0
  {
    hide FindSession, RenewalTarget, UnitsBetween, CurrentSubscription;
  }

  /** A step writes refund documents for exactly the plan-change leg it reports. */
  lemma StepDocuments(s: Ledger, op: Op, now: int)
    requires Inv(s, now)
    ensures var o := Step(s, op, now);
            DocumentTotal(o.ledger.invoices) == DocumentTotal(s.invoices) + ChangeLeg(o.reply)
  {
    hide DocumentTotal, ChangePlan, Refund, Activate, CompletePurchase, AdvanceRenewal, ChangeLeg, OnePaidAtMost;
    match op
    case OpChangePlan(userId, planKey) => ChangePlanDocuments(s, userId, planKey, now);
    case OpRefund(id, amount) =>
      RefundDocuments(s, id, amount, now);
      RefundRepliesNoChange(s, id, amount, now);
    case OpActivate(userId, russian, planKey, status) =>
      ActivateAddsOne(s, userId, russian, planKey, status, now);
      RenewalRepliesNoLeg(s, op, now);
      PaidInvoicesAreNoDocuments(s, Step(s, op, now));
    case OpCompletePurchase(session, buyer) =>
      CompletePurchaseAddsOne(s, session, buyer, now);
      RenewalRepliesNoLeg(s, op, now);
      PaidInvoicesAreNoDocuments(s, Step(s, op, now));
    case OpAdvanceRenewal(target, owner, success) =>
      RenewalAddsOne(s, target, owner, success, now);
      RenewalRepliesNoLeg(s, op, now);
      PaidInvoicesAreNoDocuments(s, Step(s, op, now));
    case _ => QuietSteps(s, op, now);
  }

  lemma RefundRepliesNoChange(s: Ledger, id: nat, amount: Option<int>, now: int)
    ensures ChangeLeg(Refund(s, id, amount, now).reply) == 0
  {
  }

  /**
   Conservation: from an empty ledger, everything refunded on invoices is the plan-change documents plus the admin
   legs.
   */
  lemma {:induction false} RefundsConserved(catalog: Catalog, start: int, events: seq<Event>)
    requires Clocked(start, events)
    ensures var s := Opening(catalog);
            TotalRefunded(After(s, events).invoices) == DocumentTotal(After(s, events).invoices) + AdminLegs(s, events)
  {
    var s := Opening(catalog);
    hide Inv, Step, SubscriptionsStep, InvoicesStep;
    if events != [] {
      var last := |events| - 1;
      var before := After(s, events[..last]);
      ClockedPrefix(start, events, last);
      RefundsConserved(catalog, start, events[..last]);
      OpeningInv(catalog, start);
      RunKeeps(s, start, events[..last]);
      StepKeeps(before, events[last].op, Latest(start, events[..last]), events[last].now);
      Later(before, Latest(start, events[..last]), events[last].now);
      StepDocuments(before, events[last].op, events[last].now);
      TotalsGrowByTheLeg(before.invoices, After(s, events).invoices, ReplyAt(s, events, last));
    }
  }
}
