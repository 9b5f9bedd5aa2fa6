/**
 The billing tables as the handlers change them: every handler does, statement by statement, what its step in
 `Billing` says, on a clock that never runs backwards, and so keeps the ledger invariant.
 */
module BillingStore {
  import opened Core
  import opened Calendar
  import opened Billing
  import opened BillingInvariant
  import BillingCredits
  import BillingUsage

  class Store {
    const catalog: Catalog
    var customers: seq<Customer>
    var subscriptions: seq<Subscription>
    var invoices: seq<Invoice>
    var methods: seq<PaymentMethod>
    var usage: seq<UsageRecord>
    var grants: seq<Grant>
    var sessions: seq<Option<Session>>
    var balances: map<nat, int>
    /** The time of the last request. */
    ghost var clock: int

    function Snapshot(): Ledger
      reads this
    {
      Ledger(catalog, customers, subscriptions, invoices, methods, usage, grants, sessions, balances)
    }

    ghost predicate Valid()
      reads this
    {
      Inv(Snapshot(), clock) && BillingUsage.KeysUnique(usage)
    }

    constructor (catalog: Catalog, ghost now: int)
      ensures Valid() && clock == now
      ensures this.catalog == catalog && Snapshot() == Opening(catalog)
    {
      this.catalog := catalog;
      clock := now;
      customers, subscriptions, invoices, methods, usage, grants, sessions, balances := [], [], [], [], [], [], [],
        map[];
    }

    method GetOrCreateCustomer(userId: nat, russian: bool) returns (c: nat)
      modifies this`customers
      ensures (Snapshot(), c) == WithCustomer(old(Snapshot()), userId, russian)
    {
      var found := FindCustomer(customers, userId);
      if found.Some? {
        return found.value;
      }
      c := |customers|;
      customers := customers + [NewCustomer(userId, russian)];
    }

    method SetBillingRegion(userId: nat, russian: bool, region: Region, now: int) returns (reply: Reply)
      requires Valid() && clock <= now
      modifies this
      ensures Outcome(Snapshot(), reply) == SetRegion(old(Snapshot()), userId, russian, region)
      ensures Valid() && clock == now
    {
      hide Inv, OneOpen, BillingUsage.KeysUnique;
      Kept(Snapshot(), OpSetRegion(userId, russian, region), clock, now,
        SetRegion(Snapshot(), userId, russian, region));
      clock := now;
      var c := GetOrCreateCustomer(userId, russian);
      var next := OverrideFor(region);
      var effective := next.GetOr(GeoDefault(customers[c].country));
      var open := CurrentSubscription(subscriptions, c);
      if open.Some? && subscriptions[open.value].provider != effective {
        return Refused(409);
      }
      customers := customers[c := customers[c].(override := next)];
      reply := Done;
    }

    method ReplacePaymentMethod(userId: nat, now: int) returns (reply: Reply)
      requires Valid() && clock <= now
      modifies this
      ensures Outcome(Snapshot(), reply) == UpdatePaymentMethod(old(Snapshot()), userId, now)
      ensures Valid() && clock == now
    {
      hide Inv, OneOpen, BillingUsage.KeysUnique;
      Kept(Snapshot(), OpUpdatePaymentMethod(userId), clock, now, UpdatePaymentMethod(Snapshot(), userId, now));
      clock := now;
      var found := FindCustomer(customers, userId);
      if found.None? {
        return Refused(404);
      }
      var c := found.value;
      var current := CurrentSubscription(subscriptions, c);
      if current.None? {
        return Refused(404);
      }
      var k := current.value;
      DemoteMethods(c);
      var id := |methods|;
      methods := methods + [PaymentMethod(c, subscriptions[k].provider, true)];
      customers := customers[c := customers[c].(defaultMethod := Some(id))];
      subscriptions := subscriptions[k := subscriptions[k].(paymentMethod := Some(id), updatedAt := now)];
      reply := Done;
    }

    /** The scan that takes the default mark off the customer's other methods. */
    method DemoteMethods(c: nat)
      modifies this`methods
      ensures methods == Demoted(old(methods), c)
    {
      for i := 0 to |methods|
        invariant |methods| == |old(methods)|
        invariant forall j :: 0 <= j < i ==> methods[j] == Demoted(old(methods), c)[j]
        invariant forall j :: i <= j < |methods| ==> methods[j] == old(methods)[j]
      {
        if methods[i].customer == c && methods[i].isDefault {
          methods := methods[i := methods[i].(isDefault := false)];
        }
      }
    }

    method StartPurchase(userId: nat, russian: bool, productKey: string, requested: Option<int>, now: int)
        returns (reply: Reply)
      requires Valid() && clock <= now
      modifies this
      ensures Outcome(Snapshot(), reply) == Purchase(old(Snapshot()), userId, russian, productKey, requested, now)
      ensures Valid() && clock == now
    {
      hide Inv, OneOpen, BillingUsage.KeysUnique;
      Kept(Snapshot(), OpPurchase(userId, russian, productKey, requested), clock, now,
        Purchase(Snapshot(), userId, russian, productKey, requested, now));
      clock := now;
      if requested.Some? && requested.value < 1 {
        return Refused(400);
      }
      var found := First(catalog.products, (p: Product) => p.key == productKey);
      if found.None? || !catalog.products[found.value].active {
        return Refused(404);
      }
      var product := catalog.products[found.value];
      var c := GetOrCreateCustomer(userId, russian);
      var provider := Effective(customers[c]);
      if provider !in product.prices {
        return Refused(409);
      }
      var price := product.prices[provider];
      var amount: int;
      if product.kind != Custom {
        if price.amountMinor == 0 {
          return Refused(503);
        }
        amount := price.amountMinor;
      } else {
        if price.minAmountMinor.None? || price.maxAmountMinor.None? {
          return Refused(503);
        }
        if requested.None? {
          return Refused(400);
        }
        if requested.value < price.minAmountMinor.value || requested.value > price.maxAmountMinor.value {
          return Refused(400);
        }
        amount := requested.value;
      }
      sessions := sessions + [Some(Session(c, found.value, provider, amount, price.currency, now))];
      reply := Done;
    }

    method StartCheckout(userId: nat, russian: bool, planKey: string, now: int) returns (reply: Reply)
      requires Valid() && clock <= now
      modifies this
      ensures Outcome(Snapshot(), reply) == Checkout(old(Snapshot()), userId, russian, planKey, now)
      ensures Valid() && clock == now
      ensures OneOpen(subscriptions)
    {
      hide Inv, OneOpen, BillingUsage.KeysUnique, CheckoutRow, Newest, First, Effective, NewCustomer;
      Kept(Snapshot(), OpCheckout(userId, russian, planKey), clock, now,
        Checkout(Snapshot(), userId, russian, planKey, now));
      clock := now;
      var found := FindActivePlan(catalog, planKey);
      if found.None? {
        return Refused(404);
      }
      var plan := catalog.plans[found.value];
      var c := GetOrCreateCustomer(userId, russian);
      var entitled := EntitledSubscription(subscriptions, c);
      if entitled.Some? {
        return Refused(409);
      }
      var provider := Effective(customers[c]);
      var pending := PendingCheckout(subscriptions, c);
      if provider == YooKassa {
        var row := CheckoutRow(plan, c, provider, now);
        if pending.Some? {
          var was := subscriptions[pending.value];
          subscriptions := subscriptions[pending.value :=
            row.(dunningAttempts := was.dunningAttempts, createdAt := was.createdAt)];
        } else {
          subscriptions := subscriptions + [row];
        }
      } else if pending.Some? {
        subscriptions := subscriptions[pending.value :=
          subscriptions[pending.value].(status := Canceled, updatedAt := now)];
      }
      reply := Done;
    }

    method ChangeSubscriptionPlan(userId: nat, planKey: string, now: int) returns (reply: Reply)
      requires Valid() && clock <= now
      modifies this
      ensures Outcome(Snapshot(), reply) == ChangePlan(old(Snapshot()), userId, planKey, now)
      ensures Valid() && clock == now
      ensures reply.PlanChanged? && reply.source.Some? ==>
                reply.source.value < |old(invoices)| &&
                  0 <= reply.refundMinor <= Left(old(invoices)[reply.source.value])
    {
      hide Inv, OneOpen, BillingUsage.KeysUnique, RefundSource, RefundLeg, SettledChange, GuardChange, ChangeQuote;
      Kept(Snapshot(), OpChangePlan(userId, planKey), clock, now, ChangePlan(Snapshot(), userId, planKey, now));
      ChangeFits(Snapshot(), userId, planKey, clock, now);
      clock := now;
      var g := GuardChange(Snapshot(), userId, planKey);
      if g.Blocked? {
        return Refused(g.status);
      }
      var k := g.sub;
      var sub := subscriptions[k];
      if sub.status != Trialing {
        var quote := ChangeQuote(g, sub, now);
        var source, refund := SettleChange(k, quote.refundMinor, quote.chargeMinor,
          g.toPlan.prices[sub.provider].currency, g.toPlan.mode, now);
        reply := PlanChanged(k, source, refund, quote.chargeMinor);
      } else {
        reply := PlanChanged(k, None, 0, 0);
      }
      subscriptions := subscriptions[k := sub.(planKey := g.toPlan.key, mode := g.toPlan.mode, updatedAt := now)];
    }

    /**
     The money of a plan change: the source is chosen before the charge is recorded, so the charge cannot refund
     itself.
     */
    method SettleChange(k: nat, quoted: int, charge: int, currency: string, mode: Mode, now: int)
        returns (source: Option<nat>, refund: int)
      requires k < |subscriptions|
      modifies this`invoices
      ensures source == RefundSource(old(invoices), k) && (source.Some? ==> source.value < |old(invoices)|)
      ensures refund == RefundLeg(old(invoices), source, quoted)
      ensures invoices == SettledChange(old(invoices), subscriptions[k], k, source, refund, charge, currency, mode, now)
    {
      source, refund := RefundSource(invoices, k), 0;
      assert source.Some? ==> source.value < |invoices|;
      hide RefundSource;
      var sub := subscriptions[k];
      if source.Some? {
        refund := Min(quoted, invoices[source.value].amountMinor - invoices[source.value].refundedMinor);
      }
      if charge > 0 {
        invoices := invoices + [ChargeInvoice(sub, k, charge, currency, mode, Paid, now)];
      }
      if refund > 0 && source.Some? {
        invoices := invoices + [ChargeInvoice(sub, k, refund, currency, Fixed, Refunded, now)];
        var paid := invoices[source.value];
        invoices := invoices[source.value := paid.(refundedMinor := paid.refundedMinor + refund)];
      }
    }

    method EndSubscription(k: nat, immediate: bool, now: int)
      requires k < |subscriptions|
      modifies this`subscriptions
      ensures subscriptions == old(subscriptions)[k := Ended(old(subscriptions)[k], immediate, now)]
    {
      if immediate {
        subscriptions := subscriptions[k := subscriptions[k].(status := Canceled, cancelAtPeriodEnd := false)];
      } else {
        subscriptions := subscriptions[k := subscriptions[k].(cancelAtPeriodEnd := true)];
      }
      subscriptions := subscriptions[k := subscriptions[k].(updatedAt := now)];
    }

    method CancelSubscription(userId: nat, immediate: bool, now: int) returns (reply: Reply)
      requires Valid() && clock <= now
      modifies this
      ensures Outcome(Snapshot(), reply) == Cancel(old(Snapshot()), userId, immediate, now)
      ensures Valid() && clock == now
    {
      hide Inv, OneOpen, BillingUsage.KeysUnique;
      Kept(Snapshot(), OpCancel(userId, immediate), clock, now, Cancel(Snapshot(), userId, immediate, now));
      clock := now;
      var current := CurrentOf(Snapshot(), userId);
      if current.None? {
        return Refused(404);
      }
      EndSubscription(current.value, immediate, now);
      reply := Done;
    }

    method CancelAsAdmin(k: nat, immediate: bool, now: int) returns (reply: Reply)
      requires Valid() && clock <= now
      modifies this
      ensures Outcome(Snapshot(), reply) == AdminCancel(old(Snapshot()), k, immediate, now)
      ensures Valid() && clock == now
    {
      hide Inv, OneOpen, BillingUsage.KeysUnique;
      Kept(Snapshot(), OpAdminCancel(k, immediate), clock, now, AdminCancel(Snapshot(), k, immediate, now));
      clock := now;
      if k >= |subscriptions| {
        return Refused(404);
      }
      if !Open(subscriptions[k].status) {
        return Refused(409);
      }
      EndSubscription(k, immediate, now);
      reply := Done;
    }

    method RevokeEffects(id: nat, now: int)
      requires id < |invoices|
      modifies this`grants, this`balances
      ensures Snapshot() == RevokeOneTimeEffects(old(Snapshot()), id, now)
    {
      var invoice := invoices[id];
      if invoice.kind != OneTime {
        return;
      }
      RevokeGrants(id, now);
      var units := PackUnits(catalog, invoice);
      if units > 0 {
        balances := balances[invoice.customer := Balance(balances, invoice.customer) - units];
      }
    }

    method RevokeGrants(id: nat, now: int)
      modifies this`grants
      ensures grants == Revoked(old(grants), id, now)
    {
      for i := 0 to |grants|
        invariant |grants| == |old(grants)|
        invariant forall j :: 0 <= j < i ==> grants[j] == Revoked(old(grants), id, now)[j]
        invariant forall j :: i <= j < |grants| ==> grants[j] == old(grants)[j]
      {
        if grants[i].sourceInvoice == id && grants[i].revokedAt.None? {
          grants := grants[i := grants[i].(revokedAt := Some(now))];
        }
      }
    }

    method RefundInvoice(id: nat, amount: Option<int>, now: int) returns (reply: Reply)
      requires Valid() && clock <= now
      modifies this
      ensures Outcome(Snapshot(), reply) == Refund(old(Snapshot()), id, amount, now)
      ensures Valid() && clock == now
      ensures reply.InvoiceRefunded? ==> id < |old(invoices)| && 0 < reply.amountMinor <= Left(old(invoices)[id])
    {
      hide Inv, OneOpen, BillingUsage.KeysUnique, RevokeOneTimeEffects;
      Kept(Snapshot(), OpRefund(id, amount), clock, now, Refund(Snapshot(), id, amount, now));
      RefundFits(Snapshot(), id, amount, now);
      clock := now;
      if amount.Some? && amount.value < 1 {
        return Refused(400);
      }
      if id >= |invoices| {
        return Refused(404);
      }
      if invoices[id].status != Paid {
        return Refused(409);
      }
      var already := invoices[id].refundedMinor;
      var remaining := invoices[id].amountMinor - already;
      var refund := amount.GetOr(remaining);
      if refund <= 0 || refund > remaining {
        return Refused(400);
      }
      invoices := invoices[id := invoices[id].(refundedMinor := already + refund)];
      if already + refund >= invoices[id].amountMinor {
        invoices := invoices[id := invoices[id].(status := Refunded)];
        assert invoices == old(invoices)[id :=
          old(invoices)[id].(refundedMinor := already + refund, status := Refunded)];
        RevokeEffects(id, now);
      }
      reply := InvoiceRefunded(id, refund);
    }

    method IngestUsage(customer: nat, meterKey: string, quantity: int, occurredAt: Option<int>, key: string, now: int)
        returns (reply: Reply)
      requires Valid() && clock <= now
      modifies this
      ensures Outcome(Snapshot(), reply) ==
              RecordUsage(old(Snapshot()), customer, meterKey, quantity, occurredAt, key, now)
      ensures Valid() && clock == now
    {
      hide Inv, OneOpen, BillingUsage.KeysUnique;
      Kept(Snapshot(), OpRecordUsage(customer, meterKey, quantity, occurredAt, key), clock, now,
        RecordUsage(Snapshot(), customer, meterKey, quantity, occurredAt, key, now));
      clock := now;
      if quantity < 1 || quantity > MAX_QUANTITY {
        return Refused(400);
      }
      var replay := First(usage, (r: UsageRecord) => r.customer == customer && r.idempotencyKey == key);
      if replay.Some? {
        return Done;
      }
      if customer in balances && balances[customer] < 0 {
        return Refused(409);
      }
      var sub := EntitledSubscription(subscriptions, customer);
      if sub.None? {
        return Refused(404);
      }
      var meter := First(catalog.plans, (p: Plan) => p.meterKey == Some(meterKey));
      if meter.None? {
        return Refused(400);
      }
      usage := usage + [UsageRecord(customer, sub.value, meterKey, quantity, occurredAt.GetOr(now), key)];
      reply := Done;
    }

    method ActivateSubscription(userId: nat, russian: bool, planKey: string, status: Status, now: int)
        returns (reply: Reply)
      requires Valid() && clock <= now
      modifies this
      ensures Outcome(Snapshot(), reply) == Activate(old(Snapshot()), userId, russian, planKey, status, now)
      ensures Valid() && clock == now
      ensures OneOpen(subscriptions)
    {
      hide Inv, OneOpen, BillingUsage.KeysUnique;
      Kept(Snapshot(), OpActivate(userId, russian, planKey, status), clock, now,
        Activate(Snapshot(), userId, russian, planKey, status, now));
      clock := now;
      var found := FindPlan(catalog, planKey);
      if found.None? {
        return Refused(404);
      }
      var plan := catalog.plans[found.value];
      var c := GetOrCreateCustomer(userId, russian);
      hide WithDefaultMethod, BroughtToPlan;
      EnsureDefaultMethod(c);
      BringToPlan(c, plan, status, now);
      reply := Done;
    }

    method EnsureDefaultMethod(c: nat)
      requires c < |customers|
      modifies this`customers, this`methods
      ensures Snapshot() == WithDefaultMethod(old(Snapshot()), c)
    {
      if customers[c].defaultMethod.None? {
        methods := methods + [PaymentMethod(c, customers[c].provider, true)];
        customers := customers[c := customers[c].(defaultMethod := Some(|methods| - 1))];
      }
    }

    /** Reuses the customer's open row or adds one, and records the paid invoice for the plan price. */
    method BringToPlan(c: nat, plan: Plan, status: Status, now: int)
      requires c < |customers|
      modifies this`subscriptions, this`invoices
      ensures Snapshot() == BroughtToPlan(old(Snapshot()), c, plan, status, now)
    {
      hide Activated, FreshRow, ActivationPrice, AddInterval;
      var customer := customers[c];
      var existing := CurrentSubscription(subscriptions, c);
      var k := |subscriptions|;
      if existing.Some? {
        k := existing.value;
      } else {
        subscriptions := subscriptions + [FreshRow(plan, c, customer, status, now)];
      }
      subscriptions := subscriptions[k := Activated(subscriptions[k], plan, status, customer.defaultMethod, now)];
      var price := ActivationPrice(plan, customer.provider);
      invoices := invoices + [Invoice(c, Some(k), customer.provider, price.amountMinor, 0, price.currency, Paid,
        plan.mode, Recurring, None,
                                      now, AddInterval(now, plan.interval), now)];
    }

    method SettlePurchase(ref: Option<nat>, userId: Option<nat>, now: int) returns (reply: Reply)
      requires Valid() && clock <= now
      modifies this
      ensures Outcome(Snapshot(), reply) == CompletePurchase(old(Snapshot()), ref, userId, now)
      ensures Valid() && clock == now
    {
      hide Inv, OneOpen, BillingUsage.KeysUnique, PurchasedGrant, PackUnits, Newest, First, Balance;
      Kept(Snapshot(), OpCompletePurchase(ref, userId), clock, now, CompletePurchase(Snapshot(), ref, userId, now));
      clock := now;
      if ref.None? && userId.None? {
        return Refused(400);
      }
      var found := FindSession(Snapshot(), ref, userId);
      if found.None? {
        return Refused(404);
      }
      var session := sessions[found.value].value;
      var id := |invoices|;
      var invoice := Invoice(session.customer, None, session.provider, session.amountMinor, 0, session.currency, Paid,
                             Fixed, OneTime, Some(session.product), now, now, now);
      invoices := invoices + [invoice];
      grants := grants + PurchasedGrant(catalog, session, id, now);
      var units := PackUnits(catalog, invoice);
      if units > 0 {
        balances := balances[session.customer := Balance(balances, session.customer) + units];
      }
      sessions := sessions[found.value := None];
      reply := PurchaseSettled(id);
    }

    method CountFailure(k: nat, now: int)
      requires k < |subscriptions|
      modifies this`subscriptions
      ensures subscriptions == old(subscriptions)[k := FailCharge(old(subscriptions)[k], now)]
    {
      var sub := subscriptions[k];
      var attempts := sub.dunningAttempts + 1;
      subscriptions := subscriptions[k := sub.(dunningAttempts := attempts,
        status := if attempts >= DUNNING_MAX_ATTEMPTS then Canceled else PastDue)];
      if subscriptions[k].status == Canceled {
        subscriptions := subscriptions[k := subscriptions[k].(cancelAtPeriodEnd := false)];
      }
      subscriptions := subscriptions[k := subscriptions[k].(updatedAt := now)];
    }

    method RunRenewal(target: Option<nat>, userId: Option<nat>, success: bool, now: int) returns (reply: Reply)
      requires Valid() && clock <= now
      modifies this
      ensures Outcome(Snapshot(), reply) == AdvanceRenewal(old(Snapshot()), target, userId, success, now)
      ensures Valid() && clock == now
      ensures reply.PeriodClosed? ==> reply.totalUnits == reply.coveredUnits + reply.creditUnits + reply.chargedUnits
      ensures reply.PeriodClosed? ==> Balance(balances, reply.customer) >= Min(0,
              Balance(old(balances), reply.customer))
    {
      hide Inv, OneOpen, BillingUsage.KeysUnique, ChargeRenewal, NextPeriodEnd, FailCharge, RenewalTarget;
      Kept(Snapshot(), OpAdvanceRenewal(target, userId, success), clock, now,
        AdvanceRenewal(Snapshot(), target, userId, success, now));
      CloseSplits(Snapshot(), target, userId, success, now);
      clock := now;
      var found := RenewalTarget(Snapshot(), target, userId);
      if found.None? {
        return Refused(404);
      }
      var k := found.value;
      var sub := subscriptions[k];
      if !success {
        CountFailure(k, now);
        return ChargeFailed(k);
      }
      var p := FindPlan(catalog, sub.planKey);
      if p.None? || sub.provider !in catalog.plans[p.value].prices {
        return Refused(404);
      }
      if sub.cancelAtPeriodEnd {
        subscriptions := subscriptions[k := sub.(status := Canceled, updatedAt := now)];
        return Done;
      }
      reply := ChargeAndAdvance(k, catalog.plans[p.value], now);
    }

    method TotalUnits(k: nat, from: int, to: int) returns (total: nat)
      ensures total == UnitsBetween(usage, k, from, to)
    {
      total := 0;
      for i := 0 to |usage|
        invariant total == UnitsBetween(usage[..i], k, from, to)
      {
        assert usage[..i + 1][..i] == usage[..i];
        if usage[i].subscription == k && from <= usage[i].occurredAt < to {
          total := total + usage[i].quantity;
        }
      }
      assert usage[..|usage|] == usage;
    }

    method ChargeAndAdvance(k: nat, plan: Plan, now: int) returns (reply: Reply)
      requires k < |subscriptions| && subscriptions[k].provider in plan.prices
      modifies this`subscriptions, this`invoices, this`balances
      ensures Outcome(Snapshot(), reply) == ChargeRenewal(old(Snapshot()), k, plan, now)
    {
      hide NextPeriodEnd, UnitsBetween;
      var sub := subscriptions[k];
      var price := plan.prices[sub.provider];
      var closedStart := sub.periodStart;
      var anchor := if sub.status == Trialing then now else sub.anchor.GetOr(sub.periodStart);
      var newEnd := NextPeriodEnd(anchor, now, plan.interval);
      var amount, periodStart, periodEnd := price.amountMinor, now, newEnd;
      if sub.mode == Fixed {
        reply := FixedRenewed(k, amount);
      } else {
        var total := TotalUnits(k, closedStart, now);
        var billable := Max(0, total - price.includedUnits);
        var credits := Min(Max(0, Balance(balances, sub.customer)), billable);
        if credits > 0 {
          balances := balances[sub.customer := balances[sub.customer] - credits];
        }
        amount := (billable - credits) * price.unitPriceMinor;
        periodStart, periodEnd := closedStart, now;
        reply := PeriodClosed(k, sub.customer, closedStart, now, total, total - billable, credits, billable - credits,
          amount);
      }
      invoices := invoices + [Invoice(sub.customer, Some(k), sub.provider, amount, 0, price.currency, Paid, sub.mode,
        Recurring, None, periodStart, periodEnd, now)];
      subscriptions := subscriptions[k := sub.(status := Active, trialEnd := None, dunningAttempts := 0,
        periodStart := now,
                                               periodEnd := newEnd, anchor := Some(anchor), updatedAt := now)];
    }

    method CancelForDeletedUser(userId: nat, now: int) returns (reply: Reply)
      requires Valid() && clock <= now
      modifies this
      ensures Outcome(Snapshot(), reply) == DeleteUser(old(Snapshot()), userId, now)
      ensures Valid() && clock == now
      ensures CurrentOf(Snapshot(), userId).None?
    {
      hide Inv, OneOpen, BillingUsage.KeysUnique;
      Kept(Snapshot(), OpDeleteUser(userId), clock, now, DeleteUser(Snapshot(), userId, now));
      NothingCurrent(Snapshot(), userId, now);
      clock := now;
      var found := FindCustomer(customers, userId);
      if found.None? {
        return Done;
      }
      CancelRows(found.value, now);
      reply := Done;
    }

    method CancelRows(c: nat, now: int)
      modifies this`subscriptions
      ensures subscriptions == CanceledFor(old(subscriptions), c, now)
    {
      for i := 0 to |subscriptions|
        invariant |subscriptions| == |old(subscriptions)|
        invariant forall j :: 0 <= j < i ==> subscriptions[j] == CanceledFor(old(subscriptions), c, now)[j]
        invariant forall j :: i <= j < |subscriptions| ==> subscriptions[j] == old(subscriptions)[j]
      {
        if subscriptions[i].customer == c && subscriptions[i].status != Canceled {
          EndSubscription(i, true, now);
        }
      }
    }
  }

  /** What is left to refund on an invoice. */
  function Left(i: Invoice): int { i.amountMinor - i.refundedMinor }

  lemma Kept(s: Ledger, op: Op, before: int, now: int, o: Outcome)
    requires Inv(s, before) && before <= now && BillingUsage.KeysUnique(s.usage) && o == Step(s, op, now)
    ensures Inv(o.ledger, now) && BillingUsage.KeysUnique(o.ledger.usage) && OneOpen(o.ledger.subscriptions)
  {
    hide Step;
    StepKeeps(s, op, before, now);
    BillingUsage.StepRecords(s, op, now);
  }

  lemma RefundFits(s: Ledger, id: nat, amount: Option<int>, now: int)
    ensures var o := Refund(s, id, amount, now);
            o.reply.InvoiceRefunded? ==> id < |s.invoices| && 0 < o.reply.amountMinor <= Left(s.invoices[id])
  {
    hide RevokeOneTimeEffects;
  }

  lemma ChangeFits(s: Ledger, userId: nat, planKey: string, before: int, now: int)
    requires Inv(s, before)
    ensures var o := ChangePlan(s, userId, planKey, now);
            o.reply.PlanChanged? && o.reply.source.Some? ==>
              o.reply.source.value < |s.invoices| && 0 <= o.reply.refundMinor <= Left(s.invoices[o.reply.source.value])
  {
    hide RefundSource, SettledChange, ChangeQuote, GuardChange;
    var g := GuardChange(s, userId, planKey);
    if g.Guarded? {
      RefundSourceIsPaid(s.invoices, g.sub);
    }
    assert forall i :: 0 <= i < |s.invoices| ==> InvoiceOk(s.invoices[i], |s.customers|);
  }

  lemma CloseSplits(s: Ledger, target: Option<nat>, userId: Option<nat>, success: bool, now: int)
    ensures var o := AdvanceRenewal(s, target, userId, success, now);
            o.reply.PeriodClosed? ==>
              && o.reply.totalUnits == o.reply.coveredUnits + o.reply.creditUnits + o.reply.chargedUnits
              && Balance(o.ledger.balances, o.reply.customer) >= Min(0, Balance(s.balances, o.reply.customer))
  {
    var o := AdvanceRenewal(s, target, userId, success, now);
    FailuresCloseNothing(s, target, userId, now);
    if o.reply.PeriodClosed? {
      BillingCredits.PeriodCloseBalances(s, target, userId, now);
    }
    hide AdvanceRenewal;
  }

  lemma FailuresCloseNothing(s: Ledger, target: Option<nat>, userId: Option<nat>, now: int)
    ensures !AdvanceRenewal(s, target, userId, false, now).reply.PeriodClosed?
  {
    hide FailCharge;
  }

  lemma NothingCurrent(s: Ledger, userId: nat, now: int)
    ensures CurrentOf(DeleteUser(s, userId, now).ledger, userId).None?
  {
  }
}
