/** A plan change against its preview. */
module BillingPlanChange {
  import opened Core
  import opened Billing
  import opened BillingInvariant

  /** The source invoice has at least the quoted refund left on it. */
  predicate SourceCovers(s: Ledger, sub: nat, refund: int) {
    var source := RefundSource(s.invoices, sub);
    || refund == 0
    || (source.Some? && s.invoices[source.value].amountMinor - s.invoices[source.value].refundedMinor >= refund)
  }

  /** A preview is refused exactly as the change would be. */
  lemma PreviewRefusedAlike(s: Ledger, userId: nat, planKey: string, now: int, status: nat)
    ensures PreviewChange(s, userId, planKey, now) == NoPreview(status) <==>
            ChangePlan(s, userId, planKey, now).reply == Refused(status)
  {
    hide RefundSource, RefundLeg, SettledChange, ChangeQuote;
  }

  /** The amounts of the rows a change writes: a paid charge, then a refund document, each only if positive. */
  lemma ChangeWrites(s: Ledger, userId: nat, planKey: string, now: int)
    requires ChangePlan(s, userId, planKey, now).reply.PlanChanged?
    ensures var o := ChangePlan(s, userId, planKey, now);
            var n, charged := |s.invoices|, if o.reply.chargeMinor > 0 then 1 else 0;
            var documented := if o.reply.refundMinor > 0 && o.reply.source.Some? then 1 else 0;
            && |o.ledger.invoices| == n + charged + documented
            && (charged == 1 ==>
                  o.ledger.invoices[n].status == Paid && o.ledger.invoices[n].amountMinor == o.reply.chargeMinor)
            && (documented == 1 ==>
                  && o.ledger.invoices[n + charged].status == Refunded
                  && o.ledger.invoices[n + charged].amountMinor == o.reply.refundMinor)
  {
    hide RefundSource, RefundLeg, ChangeQuote, GuardChange;
    var g := GuardChange(s, userId, planKey);
    RefundSourceIsPaid(s.invoices, g.sub);
  }

  /** The refund a change would be quoted; a trial moves no money. */
  function QuotedRefund(s: Ledger, userId: nat, planKey: string, now: int): nat {
    var g := GuardChange(s, userId, planKey);
    if g.Blocked? || s.subscriptions[g.sub].status == Trialing then 0
    else ChangeQuote(g, s.subscriptions[g.sub], now).refundMinor
  }

  /**
   The previewed net settles if and only if the source invoice still covers the quoted refund, whatever the provider;
   and where the two legs are previewed, the charge settles as it is and the refund under the same condition. The
   refund is never more than quoted.
   */
  lemma PreviewIsWhatSettles(s: Ledger, userId: nat, planKey: string, now: int)
    requires Inv(s, now) && PreviewChange(s, userId, planKey, now).Preview?
    ensures var p, o := PreviewChange(s, userId, planKey, now), ChangePlan(s, userId, planKey, now);
            var quoted := QuotedRefund(s, userId, planKey, now);
            && o.reply.PlanChanged? && 0 <= o.reply.refundMinor <= quoted
            && (o.reply.chargeMinor - o.reply.refundMinor == p.dueNowMinor <==> SourceCovers(s, o.reply.sub, quoted))
            && (p.creditMinor.Some? ==>
                  && p.chargeMinor == Some(o.reply.chargeMinor) && p.creditMinor == Some(quoted)
                  && (o.reply.refundMinor == p.creditMinor.value <==> SourceCovers(s, o.reply.sub, quoted)))
  {
    hide RefundSource, SettledChange, ChangeQuote, GuardChange;
    var g := GuardChange(s, userId, planKey);
    RefundSourceIsPaid(s.invoices, g.sub);
    var source := RefundSource(s.invoices, g.sub);
    if source.Some? {
      assert InvoiceOk(s.invoices[source.value], |s.customers|);
    }
  }
}
