/** What every billing step keeps, and how much one step may change. */
module BillingInvariant {
  import opened Core
  import opened Calendar
  import opened Billing

  // ----- the invariant -----

  ghost predicate CustomersOk(customers: seq<Customer>) {
    forall i, j :: 0 <= i < j < |customers| ==> customers[i].userId != customers[j].userId
  }

  ghost predicate RowOk(sub: Subscription, customers: nat, now: int) {
    sub.customer < customers && sub.periodStart <= now &&
      (Open(sub.status) ==> sub.dunningAttempts < DUNNING_MAX_ATTEMPTS)
  }

  /** At most one open subscription per customer. */
  ghost predicate OneOpen(subscriptions: seq<Subscription>) {
    forall i, j :: 0 <= i < j < |subscriptions| && subscriptions[i].customer == subscriptions[j].customer ==>
      !Open(subscriptions[i].status) || !Open(subscriptions[j].status)
  }

  ghost predicate SubscriptionsOk(subscriptions: seq<Subscription>, customers: nat, now: int) {
    (forall i :: 0 <= i < |subscriptions| ==> RowOk(subscriptions[i], customers, now)) && OneOpen(subscriptions)
  }

  /**
   Nobody is refunded more than they paid; a one-time invoice is marked refunded exactly when it is refunded in full.
   */
  ghost predicate InvoiceOk(i: Invoice, customers: nat) {
    && i.customer < customers
    && 0 <= i.refundedMinor <= i.amountMinor
    && (i.status == Paid || i.status == Refunded)
    && (i.kind == OneTime ==>
          i.subscription.None? && i.amountMinor > 0 && (i.status == Refunded <==> i.refundedMinor == i.amountMinor))
  }

  ghost predicate InvoicesOk(invoices: seq<Invoice>, customers: nat) {
    forall i :: 0 <= i < |invoices| ==> InvoiceOk(invoices[i], customers)
  }

  /** A grant is revoked exactly when the purchase behind it is refunded in full. */
  ghost predicate GrantsOk(grants: seq<Grant>, invoices: seq<Invoice>) {
    forall g :: 0 <= g < |grants| ==>
      && grants[g].sourceInvoice < |invoices| && invoices[grants[g].sourceInvoice].kind == OneTime
      && (grants[g].revokedAt.Some? <==> invoices[grants[g].sourceInvoice].status == Refunded)
  }

  ghost predicate SessionsOk(sessions: seq<Option<Session>>, customers: nat) {
    forall i :: 0 <= i < |sessions| && sessions[i].Some? ==>
      sessions[i].value.customer < customers && sessions[i].value.amountMinor >= 1
  }

  /** A balance row exists for exactly the customers who have settled a credit pack. */
  ghost predicate BalancesOk(s: Ledger) {
    forall c :: c in s.balances <==> HasPack(s, c)
  }

  ghost predicate HasPack(s: Ledger, c: nat) {
    exists i :: 0 <= i < |s.invoices| && s.invoices[i].customer == c && PackUnits(s.catalog, s.invoices[i]) > 0
  }

  ghost predicate Inv(s: Ledger, now: int) {
    && CustomersOk(s.customers)
    && SubscriptionsOk(s.subscriptions, |s.customers|, now)
    && InvoicesOk(s.invoices, |s.customers|)
    && GrantsOk(s.grants, s.invoices)
    && SessionsOk(s.sessions, |s.customers|)
    && BalancesOk(s)
  }

  // ----- how much one step may change -----

  /** A canceled row is final; a period only ever restarts at the present. */
  ghost predicate RowStep(a: Subscription, b: Subscription, now: int) {
    && b.customer == a.customer && b.createdAt == a.createdAt
    && (!Open(a.status) ==> b == a)
    && (b.periodStart == a.periodStart || b.periodStart == now)
  }

  ghost predicate SubscriptionsStep(a: seq<Subscription>, b: seq<Subscription>, now: int) {
    && |a| <= |b| <= |a| + 1
    && (forall k :: 0 <= k < |a| ==> RowStep(a[k], b[k], now))
    && (|b| > |a| ==> b[|a|].periodStart == now)
  }

  /** The money a reply says was refunded on one invoice. */
  function LegOn(reply: Reply, invoice: nat): int {
    match reply
    case PlanChanged(_, source, refundMinor, _) => if source == Some(invoice) then refundMinor else 0
    case InvoiceRefunded(id, amountMinor) => if id == invoice then amountMinor else 0
    case _ => 0
  }

  /** An invoice keeps everything but its refunded total and, on a refund, its status; one that is not paid is final. */
  ghost predicate InvoiceStep(a: Invoice, b: Invoice, leg: int) {
    && b == a.(refundedMinor := a.refundedMinor + leg, status := b.status)
    && leg >= 0
    && (a.status != Paid ==> b == a)
    && (b.status != a.status ==> b.status == Refunded && leg > 0)
  }

  ghost predicate InvoicesStep(a: seq<Invoice>, b: seq<Invoice>, reply: Reply) {
    && |a| <= |b|
    && (forall i :: 0 <= i < |a| ==> InvoiceStep(a[i], b[i], LegOn(reply, i)))
    && (forall i :: |a| <= i < |b| ==> b[i].refundedMinor == 0)
    && (forall i :: |a| <= i ==> LegOn(reply, i) == 0)
  }

  ghost predicate Keeps(s: Ledger, o: Outcome, now: int) {
    && Inv(o.ledger, now)
    && o.ledger.catalog == s.catalog
    && SubscriptionsStep(s.subscriptions, o.ledger.subscriptions, now)
    && InvoicesStep(s.invoices, o.ledger.invoices, o.reply)
    && |s.customers| <= |o.ledger.customers|
    && s.usage <= o.ledger.usage
  }

  // ----- the building blocks of the steps -----

  lemma NewCustomerKeeps(s: Ledger, userId: nat, russian: bool, now: int)
    requires Inv(s, now)
    ensures var s1 := WithCustomer(s, userId, russian).0;
            && Inv(s1, now)
            && s1.subscriptions == s.subscriptions && s1.invoices == s.invoices && s1.usage == s.usage &&
                 s1.catalog == s.catalog
            && |s.customers| <= |s1.customers|
  {
  }

  lemma Later(s: Ledger, before: int, now: int)
    requires Inv(s, before) && before <= now
    ensures Inv(s, now)
  {
  }

  /** Rewriting one row: it stays with its customer and does not reopen. */
  lemma RowRewritten(subscriptions: seq<Subscription>, k: nat, row: Subscription, customers: nat, now: int)
    requires SubscriptionsOk(subscriptions, customers, now) && k < |subscriptions|
    requires RowOk(row, customers, now) && RowStep(subscriptions[k], row, now)
    ensures SubscriptionsOk(subscriptions[k := row], customers, now)
    ensures SubscriptionsStep(subscriptions, subscriptions[k := row], now)
  {
  }

  lemma RowAppended(subscriptions: seq<Subscription>, row: Subscription, customers: nat, now: int)
    requires SubscriptionsOk(subscriptions, customers, now)
    requires RowOk(row, customers, now) && row.periodStart == now
    requires forall k :: 0 <= k < |subscriptions| && subscriptions[k].customer == row.customer ==>
             !Open(subscriptions[k].status)
    ensures SubscriptionsOk(subscriptions + [row], customers, now)
    ensures SubscriptionsStep(subscriptions, subscriptions + [row], now)
  {
  }

  /** A new recurring invoice touches neither grants nor credits. */
  lemma RecurringAppended(s: Ledger, t: Ledger, invoice: Invoice)
    requires t.invoices == s.invoices + [invoice] && t.balances == s.balances && t.grants == s.grants &&
             t.catalog == s.catalog
    requires invoice.kind == Recurring
    requires BalancesOk(s) && GrantsOk(s.grants, s.invoices)
    ensures BalancesOk(t) && GrantsOk(t.grants, t.invoices)
  {
    assert PackUnits(t.catalog, invoice) == 0;
    PacksAppended(s, t, invoice);
  }

  lemma PacksAppended(s: Ledger, t: Ledger, invoice: Invoice)
    requires t.invoices == s.invoices + [invoice] && t.catalog == s.catalog
    ensures forall c :: HasPack(t, c) <==> HasPack(s, c) || (invoice.customer == c && PackUnits(t.catalog, invoice) > 0)
  {
    forall c
      ensures HasPack(t, c) <==> HasPack(s, c) || (invoice.customer == c && PackUnits(t.catalog, invoice) > 0)
    {
      assert t.invoices[|s.invoices|] == invoice;
      assert forall i :: 0 <= i < |s.invoices| ==> t.invoices[i] == s.invoices[i];
    }
  }

  /** Marks on an existing invoice leave every pack where it is. */
  lemma PacksMarked(s: Ledger, t: Ledger, id: nat)
    requires id < |s.invoices| == |t.invoices| && t.catalog == s.catalog
    requires forall i :: 0 <= i < |t.invoices| && i != id ==> t.invoices[i] == s.invoices[i]
    requires t.invoices[id].customer == s.invoices[id].customer &&
             PackUnits(t.catalog, t.invoices[id]) == PackUnits(s.catalog, s.invoices[id])
    ensures forall c :: HasPack(t, c) <==> HasPack(s, c)
  {
    forall c
      ensures HasPack(t, c) <==> HasPack(s, c)
    {
      if HasPack(s, c) {
        var i :| 0 <= i < |s.invoices| && s.invoices[i].customer == c && PackUnits(s.catalog, s.invoices[i]) > 0;
        assert t.invoices[i].customer == c && PackUnits(t.catalog, t.invoices[i]) > 0;
      }
      if HasPack(t, c) {
        var i :| 0 <= i < |t.invoices| && t.invoices[i].customer == c && PackUnits(t.catalog, t.invoices[i]) > 0;
        assert s.invoices[i].customer == c && PackUnits(s.catalog, s.invoices[i]) > 0;
      }
    }
  }

  /** Packs and balances do not depend on the other tables. */
  lemma SamePacks(s: Ledger, t: Ledger)
    requires t.catalog == s.catalog && t.invoices == s.invoices
    ensures forall c :: HasPack(s, c) <==> HasPack(t, c)
    ensures t.balances == s.balances ==> (BalancesOk(s) <==> BalancesOk(t))
  {
  }

  /** A step that only rewrites subscription rows. */
  lemma OnlyRows(s: Ledger, t: Ledger, reply: Reply, now: int)
    requires Inv(s, now) && t == s.(subscriptions := t.subscriptions)
    requires SubscriptionsOk(t.subscriptions, |s.customers|, now) &&
             SubscriptionsStep(s.subscriptions, t.subscriptions, now)
    requires reply.Done? || reply.ChargeFailed? || reply.Refused?
    ensures Keeps(s, Outcome(t, reply), now)
  {
    hide SubscriptionsOk, SubscriptionsStep;
    SamePacks(s, t);
  }

  /** A step that first makes sure of the customer row. */
  lemma ThroughCustomer(s: Ledger, userId: nat, russian: bool, o: Outcome, now: int)
    requires Inv(s, now) && Keeps(WithCustomer(s, userId, russian).0, o, now)
    ensures Keeps(s, o, now)
  {
    hide Inv, SubscriptionsStep, InvoicesStep;
    NewCustomerKeeps(s, userId, russian, now);
  }

  // ----- the steps -----

  lemma SetRegionKeeps(s: Ledger, userId: nat, russian: bool, region: Region, now: int)
    requires Inv(s, now)
    ensures Keeps(s, SetRegion(s, userId, russian, region), now)
  {
    NewCustomerKeeps(s, userId, russian, now);
  }

  lemma UpdatePaymentMethodKeeps(s: Ledger, userId: nat, now: int)
    requires Inv(s, now)
    ensures Keeps(s, UpdatePaymentMethod(s, userId, now), now)
  {
    var current := CurrentOf(s, userId);
    if current.Some? {
      var sub := s.subscriptions[current.value];
      RowRewritten(s.subscriptions, current.value, sub.(paymentMethod := Some(|s.methods|), updatedAt := now),
        |s.customers|, now);
    }
  }

  lemma PurchaseKeeps(s: Ledger, userId: nat, russian: bool, productKey: string, requested: Option<int>, now: int)
    requires Inv(s, now)
    ensures Keeps(s, Purchase(s, userId, russian, productKey, requested, now), now)
  {
    hide OneOpen, HasPack, GrantsOk, InvoiceOk, RowOk;
    NewCustomerKeeps(s, userId, russian, now);
    SamePacks(WithCustomer(s, userId, russian).0, Purchase(s, userId, russian, productKey, requested, now).ledger);
    SamePacks(s, Purchase(s, userId, russian, productKey, requested, now).ledger);
  }

  lemma CheckoutRowsKeep(subscriptions: seq<Subscription>, customers: nat, plan: Plan, c: nat, provider: Provider,
      now: int)
    requires SubscriptionsOk(subscriptions, customers, now) && c < customers
    requires EntitledSubscription(subscriptions, c).None?
    ensures var pending, row := PendingCheckout(subscriptions, c), CheckoutRow(plan, c, provider, now);
            if pending.Some? then
              var was := subscriptions[pending.value];
              var reused := subscriptions[pending.value :=
                row.(dunningAttempts := was.dunningAttempts, createdAt := was.createdAt)];
              var released := subscriptions[pending.value := was.(status := Canceled, updatedAt := now)];
              && SubscriptionsOk(reused, customers, now) && SubscriptionsStep(subscriptions, reused, now)
              && SubscriptionsOk(released, customers, now) && SubscriptionsStep(subscriptions, released, now)
            else
              && SubscriptionsOk(subscriptions + [row], customers, now)
              && SubscriptionsStep(subscriptions, subscriptions + [row], now)
  {
    hide SubscriptionsStep, AddInterval;
    var pending, row := PendingCheckout(subscriptions, c), CheckoutRow(plan, c, provider, now);
    if pending.Some? {
      var was := subscriptions[pending.value];
      RowRewritten(subscriptions, pending.value,
        row.(dunningAttempts := was.dunningAttempts, createdAt := was.createdAt), customers, now);
      RowRewritten(subscriptions, pending.value, was.(status := Canceled, updatedAt := now), customers, now);
    } else {
      hide OneOpen;
      RowAppended(subscriptions, row, customers, now);
    }
  }

  lemma CheckoutKeeps(s: Ledger, userId: nat, russian: bool, planKey: string, now: int)
    requires Inv(s, now)
    ensures Keeps(s, Checkout(s, userId, russian, planKey, now), now)
  {
    var o := Checkout(s, userId, russian, planKey, now);
    var found := FindActivePlan(s.catalog, planKey);
    if found.None? {
      NothingDone(s, o.reply, now);
    } else {
      hide SubscriptionsStep, SubscriptionsOk, Keeps, CheckoutRow, FindActivePlan, PendingCheckout,
        EntitledSubscription, InvoicesOk, GrantsOk, SessionsOk, BalancesOk, CustomersOk;
      var (s1, c) := WithCustomer(s, userId, russian);
      NewCustomerKeeps(s, userId, russian, now);
      if o.ledger == s1 {
        NothingDone(s1, o.reply, now);
      } else {
        CheckoutRowsKeep(s1.subscriptions, |s1.customers|, s.catalog.plans[found.value], c,
          Effective(s1.customers[c]), now);
        OnlyRows(s1, o.ledger, o.reply, now);
      }
      ThroughCustomer(s, userId, russian, o, now);
    }
  }

  lemma NothingDone(s: Ledger, reply: Reply, now: int)
    requires Inv(s, now)
    requires reply.Done? || reply.ChargeFailed? || reply.Refused?
    ensures Keeps(s, Outcome(s, reply), now)
  {
  }

  lemma CancelKeeps(s: Ledger, userId: nat, immediate: bool, now: int)
    requires Inv(s, now)
    ensures Keeps(s, Cancel(s, userId, immediate, now), now)
  {
    var current := CurrentOf(s, userId);
    if current.Some? {
      RowRewritten(s.subscriptions, current.value, Ended(s.subscriptions[current.value], immediate, now),
        |s.customers|, now);
    }
  }

  lemma AdminCancelKeeps(s: Ledger, k: nat, immediate: bool, now: int)
    requires Inv(s, now)
    ensures Keeps(s, AdminCancel(s, k, immediate, now), now)
  {
    if k < |s.subscriptions| && Open(s.subscriptions[k].status) {
      RowRewritten(s.subscriptions, k, Ended(s.subscriptions[k], immediate, now), |s.customers|, now);
    }
  }

  lemma RecordUsageKeeps(s: Ledger, customer: nat, meterKey: string, quantity: int, occurredAt: Option<int>,
      key: string, now: int)
    requires Inv(s, now)
    ensures Keeps(s, RecordUsage(s, customer, meterKey, quantity, occurredAt, key, now), now)
  {
    hide OneOpen, EntitledSubscription, HasPack, GrantsOk, SessionsOk, CustomersOk;
    SamePacks(s, RecordUsage(s, customer, meterKey, quantity, occurredAt, key, now).ledger);
  }

  lemma DeleteUserKeeps(s: Ledger, userId: nat, now: int)
    requires Inv(s, now)
    ensures Keeps(s, DeleteUser(s, userId, now), now)
  {
  }

  /** What the invoice half of a step has to keep. */
  ghost predicate InvoicesKept(s: Ledger, t: Ledger, reply: Reply) {
    && InvoicesOk(t.invoices, |t.customers|) && GrantsOk(t.grants, t.invoices) && BalancesOk(t)
    && InvoicesStep(s.invoices, t.invoices, reply)
  }

  lemma ChargeAppended(s: Ledger, invoice: Invoice, reply: Reply)
    requires InvoicesOk(s.invoices, |s.customers|) && GrantsOk(s.grants, s.invoices) && BalancesOk(s)
    requires InvoiceOk(invoice, |s.customers|) && invoice.kind == Recurring && invoice.refundedMinor == 0
    requires forall i :: 0 <= i ==> LegOn(reply, i) == 0
    ensures InvoicesKept(s, s.(invoices := s.invoices + [invoice]), reply)
  {
    RecurringAppended(s, s.(invoices := s.invoices + [invoice]), invoice);
  }

  lemma SourceMarked(s: Ledger, i: nat, refund: int, reply: Reply)
    requires InvoicesOk(s.invoices, |s.customers|) && GrantsOk(s.grants, s.invoices) && BalancesOk(s)
    requires i < |s.invoices| && s.invoices[i].status == Paid && s.invoices[i].kind == Recurring
    requires 0 <= refund <= s.invoices[i].amountMinor - s.invoices[i].refundedMinor
    requires forall k :: 0 <= k ==> LegOn(reply, k) == if k == i then refund else 0
    ensures InvoicesKept(s, s.(invoices :=
            s.invoices[i := s.invoices[i].(refundedMinor := s.invoices[i].refundedMinor + refund)]), reply)
  {
    var t := s.(invoices := s.invoices[i := s.invoices[i].(refundedMinor := s.invoices[i].refundedMinor + refund)]);
    PacksMarked(s, t, i);
  }

  /** Appending unrefunded invoices first leaves the legs where they are. */
  lemma StepsCompose(a: seq<Invoice>, b: seq<Invoice>, c: seq<Invoice>, quiet: Reply, reply: Reply)
    requires InvoicesStep(a, b, quiet) && a <= b && InvoicesStep(b, c, reply)
    requires forall i :: |a| <= i ==> LegOn(reply, i) == 0
    ensures InvoicesStep(a, c, reply)
  {
    forall i | |a| <= i < |c|
      ensures c[i].refundedMinor == 0
    {
      if i < |b| {
        assert InvoiceStep(b[i], c[i], LegOn(reply, i));
      }
    }
  }

  lemma SettledChangeKeeps(s: Ledger, k: nat, quote: nat, charge: nat, currency: string, mode: Mode, now: int)
    requires InvoicesOk(s.invoices, |s.customers|) && GrantsOk(s.grants, s.invoices) && BalancesOk(s)
    requires k < |s.subscriptions| && s.subscriptions[k].customer < |s.customers|
    ensures var source := RefundSource(s.invoices, k);
            var refund := RefundLeg(s.invoices, source, quote);
            var after := SettledChange(s.invoices, s.subscriptions[k], k, source, refund, charge, currency, mode, now);
            InvoicesKept(s, s.(invoices := after), PlanChanged(k, source, refund, charge))
  {
    RefundSourceIsPaid(s.invoices, k);
    hide RefundSource, InvoicesStep, GrantsOk, BalancesOk;
    var sub, source := s.subscriptions[k], RefundSource(s.invoices, k);
    var refund := RefundLeg(s.invoices, source, quote);
    var reply := PlanChanged(k, source, refund, charge);
    var charged := if charge > 0 then s.(invoices :=
      s.invoices + [ChargeInvoice(sub, k, charge, currency, mode, Paid, now)]) else s;
    QuietlyCharged(s, charged, charge, ChargeInvoice(sub, k, charge, currency, mode, Paid, now));
    if refund > 0 && source.Some? {
      var document := ChargeInvoice(sub, k, refund, currency, Fixed, Refunded, now);
      var documented := charged.(invoices := charged.invoices + [document]);
      ChargeAppended(charged, document, Done);
      SourceMarked(documented, source.value, refund, reply);
      StepsCompose(s.invoices, charged.invoices, documented.invoices, Done, Done);
      StepsCompose(s.invoices, documented.invoices,
        SettledChange(s.invoices, sub, k, source, refund, charge, currency, mode, now), Done, reply);
    } else {
      SameLegs(s.invoices, charged.invoices, Done, reply);
    }
  }

  lemma QuietlyCharged(s: Ledger, charged: Ledger, charge: nat, invoice: Invoice)
    requires InvoicesOk(s.invoices, |s.customers|) && GrantsOk(s.grants, s.invoices) && BalancesOk(s)
    requires InvoiceOk(invoice, |s.customers|) && invoice.kind == Recurring && invoice.refundedMinor == 0
    requires charged == if charge > 0 then s.(invoices := s.invoices + [invoice]) else s
    ensures InvoicesKept(s, charged, Done) && s.invoices <= charged.invoices
  {
    if charge > 0 {
      ChargeAppended(s, invoice, Done);
    }
  }

  lemma SameLegs(a: seq<Invoice>, b: seq<Invoice>, reply: Reply, other: Reply)
    requires InvoicesStep(a, b, reply) && forall i :: 0 <= i ==> LegOn(reply, i) == LegOn(other, i)
    ensures InvoicesStep(a, b, other)
  {
  }

  lemma RefundSourceIsPaid(invoices: seq<Invoice>, k: nat)
    ensures var source := RefundSource(invoices, k);
            source.Some? ==>
              && source.value < |invoices| && invoices[source.value].subscription == Some(k)
              && invoices[source.value].status == Paid && invoices[source.value].mode == Fixed
  {
  }

  /** Assembles a step out of its row half and its invoice half. */
  lemma RowsAndInvoices(s: Ledger, t: Ledger, reply: Reply, now: int)
    requires Inv(s, now) && t.catalog == s.catalog && t.customers == s.customers && s.usage <= t.usage &&
             t.sessions == s.sessions
    requires SubscriptionsOk(t.subscriptions, |s.customers|, now) &&
             SubscriptionsStep(s.subscriptions, t.subscriptions, now)
    requires InvoicesKept(s, t, reply)
    ensures Keeps(s, Outcome(t, reply), now)
  {
  }

  lemma ChangePlanKeeps(s: Ledger, userId: nat, planKey: string, now: int)
    requires Inv(s, now)
    ensures Keeps(s, ChangePlan(s, userId, planKey, now), now)
  {
    var o := ChangePlan(s, userId, planKey, now);
    var g := GuardChange(s, userId, planKey);
    if g.Blocked? {
      NothingDone(s, o.reply, now);
    } else {
      var sub := s.subscriptions[g.sub];
      RowRewritten(s.subscriptions, g.sub, sub.(planKey := g.toPlan.key, mode := g.toPlan.mode, updatedAt := now),
        |s.customers|, now);
      hide GuardChange, RefundSource, RefundLeg, SettledChange, SubscriptionsOk, SubscriptionsStep, InvoicesOk,
        GrantsOk, BalancesOk, CustomersOk, SessionsOk, InvoicesStep;
      var quote := ChangeQuote(g, sub, now);
      if sub.status == Trialing {
        NoLegs(s, o.reply);
      } else {
        assert sub.customer < |s.customers|;
        SettledChangeKeeps(s, g.sub, quote.refundMinor, quote.chargeMinor, g.toPlan.prices[sub.provider].currency,
          g.toPlan.mode, now);
        KeptAcrossRows(s, s.(invoices := o.ledger.invoices), o.ledger, o.reply);
      }
      RowsAndInvoices(s, o.ledger, o.reply, now);
    }
  }

  lemma KeptAcrossRows(s: Ledger, t: Ledger, u: Ledger, reply: Reply)
    requires InvoicesKept(s, t, reply) && u == t.(subscriptions := u.subscriptions)
    ensures InvoicesKept(s, u, reply)
  {
    SamePacks(t, u);
  }

  lemma NoLegs(s: Ledger, reply: Reply)
    requires InvoicesOk(s.invoices, |s.customers|) && GrantsOk(s.grants, s.invoices) && BalancesOk(s)
    requires forall i :: 0 <= i ==> LegOn(reply, i) == 0
    ensures InvoicesStep(s.invoices, s.invoices, reply)
    ensures forall rows: seq<Subscription> :: InvoicesKept(s, s.(subscriptions := rows), reply)
  {
    forall rows: seq<Subscription>
      ensures InvoicesKept(s, s.(subscriptions := rows), reply)
    {
      SamePacks(s, s.(subscriptions := rows));
    }
  }

  lemma SameRows(s: Ledger, now: int)
    ensures SubscriptionsStep(s.subscriptions, s.subscriptions, now)
  {
  }

  lemma RefundKeeps(s: Ledger, id: nat, amount: Option<int>, now: int)
    requires Inv(s, now)
    ensures Keeps(s, Refund(s, id, amount, now), now)
  {
    hide Refund, SubscriptionsOk, SessionsOk, CustomersOk, GrantsOk, BalancesOk, InvoicesStep, InvoicesOk, Keeps;
    var o := Refund(s, id, amount, now);
    RefundShape(s, id, amount, now);
    if !o.reply.InvoiceRefunded? {
      NothingDone(s, o.reply, now);
    } else {
      RefundGrants(s, id, amount, now);
      RefundBalances(s, id, amount, now);
      RefundedRow(s.invoices, o.ledger.invoices, |s.customers|, id, o.reply.amountMinor);
      SameRows(s, now);
      RowsAndInvoices(s, o.ledger, o.reply, now);
    }
  }

  /** A refund rewrites one invoice, and may touch grants and balances. */
  lemma RefundShape(s: Ledger, id: nat, amount: Option<int>, now: int)
    ensures var o := Refund(s, id, amount, now);
            && (!o.reply.InvoiceRefunded? ==> o.reply.Refused? && o.ledger == s)
            && (o.reply.InvoiceRefunded? ==>
                  && o.reply.invoice == id && id < |s.invoices| && s.invoices[id].status == Paid
                  && 0 < o.reply.amountMinor <= s.invoices[id].amountMinor - s.invoices[id].refundedMinor
                  && o.ledger == s.(invoices := o.ledger.invoices, grants := o.ledger.grants,
                       balances := o.ledger.balances)
                  && o.ledger.invoices == MarkedRefund(s.invoices, id, o.reply.amountMinor))
  {
    hide Revoked, PackUnits, Balance;
  }

  function MarkedRefund(invoices: seq<Invoice>, id: nat, refund: int): seq<Invoice>
    requires id < |invoices|
  {
    var total := invoices[id].refundedMinor + refund;
    invoices[id := invoices[id].(refundedMinor := total,
                                 status := if total >= invoices[id].amountMinor then Refunded else Paid)]
  }

  lemma RefundedRow(a: seq<Invoice>, b: seq<Invoice>, customers: nat, id: nat, refund: int)
    requires InvoicesOk(a, customers) && id < |a| && a[id].status == Paid
    requires 0 < refund <= a[id].amountMinor - a[id].refundedMinor && b == MarkedRefund(a, id, refund)
    ensures InvoicesOk(b, customers) && InvoicesStep(a, b, InvoiceRefunded(id, refund))
  {
  }

  lemma RefundGrants(s: Ledger, id: nat, amount: Option<int>, now: int)
    requires GrantsOk(s.grants, s.invoices) && InvoicesOk(s.invoices, |s.customers|) &&
             Refund(s, id, amount, now).reply.InvoiceRefunded?
    ensures var t := Refund(s, id, amount, now).ledger; GrantsOk(t.grants, t.invoices)
  {
  }

  lemma RefundBalances(s: Ledger, id: nat, amount: Option<int>, now: int)
    requires BalancesOk(s) && Refund(s, id, amount, now).reply.InvoiceRefunded?
    ensures BalancesOk(Refund(s, id, amount, now).ledger)
  {
    hide Revoked;
    var t := Refund(s, id, amount, now).ledger;
    PacksMarked(s, t, id);
    assert PackUnits(s.catalog, s.invoices[id]) > 0 ==> HasPack(s, s.invoices[id].customer);
  }

  lemma DefaultMethodKeeps(s: Ledger, c: nat, now: int)
    requires Inv(s, now) && c < |s.customers|
    ensures var s2 := WithDefaultMethod(s, c);
            && Inv(s2, now)
            && s2.subscriptions == s.subscriptions && s2.invoices == s.invoices && s2.usage == s.usage &&
                 s2.catalog == s.catalog
  {
    SamePacks(s, WithDefaultMethod(s, c));
  }

  lemma ActivateKeeps(s: Ledger, userId: nat, russian: bool, planKey: string, status: Status, now: int)
    requires Inv(s, now)
    ensures Keeps(s, Activate(s, userId, russian, planKey, status, now), now)
  {
    var o := Activate(s, userId, russian, planKey, status, now);
    var found := FindPlan(s.catalog, planKey);
    if found.None? {
      NothingDone(s, o.reply, now);
    } else {
      var plan := s.catalog.plans[found.value];
      var (s1, c) := WithCustomer(s, userId, russian);
      var s2 := WithDefaultMethod(s1, c);
      NewCustomerKeeps(s, userId, russian, now);
      DefaultMethodKeeps(s1, c, now);
      hide WithCustomer, WithDefaultMethod, SubscriptionsOk, SubscriptionsStep, InvoicesStep, GrantsOk, SessionsOk,
        BalancesOk, CustomersOk, Activated, FreshRow, FindPlan;
      ActivatedRowKeeps(s2.subscriptions, |s2.customers|, plan, c, s2.customers[c], status, now);
      var invoice := o.ledger.invoices[|s2.invoices|];
      ChargeAppended(s2, invoice, Done);
      KeptAcrossRows(s2, s2.(invoices := s2.invoices + [invoice]), o.ledger, Done);
      RowsAndInvoices(s2, o.ledger, Done, now);
    }
  }

  lemma ActivatedRowKeeps(subscriptions: seq<Subscription>, customers: nat, plan: Plan, c: nat, customer: Customer,
      status: Status, now: int)
    requires SubscriptionsOk(subscriptions, customers, now) && c < customers
    ensures var existing := CurrentSubscription(subscriptions, c);
            var k := existing.GetOr(|subscriptions|);
            var row := Activated(if existing.Some? then subscriptions[k]
              else FreshRow(plan, c, customer, status, now), plan, status, customer.defaultMethod, now);
            var rows := if existing.Some? then subscriptions[k := row] else subscriptions + [row];
            SubscriptionsOk(rows, customers, now) && SubscriptionsStep(subscriptions, rows, now)
  {
    hide AddInterval;
    var existing := CurrentSubscription(subscriptions, c);
    var k := existing.GetOr(|subscriptions|);
    var row := Activated(if existing.Some? then subscriptions[k] else FreshRow(plan, c, customer, status, now), plan,
      status, customer.defaultMethod, now);
    if existing.Some? {
      RowRewritten(subscriptions, k, row, customers, now);
    } else {
      hide OneOpen;
      RowAppended(subscriptions, row, customers, now);
    }
  }

  lemma CompletePurchaseKeeps(s: Ledger, ref: Option<nat>, userId: Option<nat>, now: int)
    requires Inv(s, now)
    ensures Keeps(s, CompletePurchase(s, ref, userId, now), now)
  {
    hide OneOpen, HasPack, PackUnits, PurchasedGrant, GrantsOk;
    var o := CompletePurchase(s, ref, userId, now);
    if o.reply.PurchaseSettled? {
      var found := FindSession(s, ref, userId);
      var invoice := o.ledger.invoices[|s.invoices|];
      PacksAppended(s, o.ledger, invoice);
      PurchasedGrantOk(s.grants, s.invoices, s.catalog, s.sessions[found.value].value, invoice, now);
    }
    hide FindSession, SubscriptionsOk;
  }

  lemma PurchasedGrantOk(grants: seq<Grant>, invoices: seq<Invoice>, catalog: Catalog, session: Session,
      invoice: Invoice, now: int)
    requires GrantsOk(grants, invoices) && invoice.kind == OneTime && invoice.status == Paid
    ensures GrantsOk(grants + PurchasedGrant(catalog, session, |invoices|, now), invoices + [invoice])
  {
  }

  lemma AdvanceRenewalKeeps(s: Ledger, target: Option<nat>, userId: Option<nat>, success: bool, now: int)
    requires Inv(s, now)
    ensures Keeps(s, AdvanceRenewal(s, target, userId, success, now), now)
  {
    var o := AdvanceRenewal(s, target, userId, success, now);
    var found := RenewalTarget(s, target, userId);
    if found.None? {
      NothingDone(s, o.reply, now);
    } else {
      var k := found.value;
      var sub := s.subscriptions[k];
      RowRewritten(s.subscriptions, k, FailCharge(sub, now), |s.customers|, now);
      RowRewritten(s.subscriptions, k, sub.(status := Canceled, updatedAt := now), |s.customers|, now);
      hide RenewalTarget, SubscriptionsStep, SubscriptionsOk, Keeps, FailCharge, InvoicesOk, GrantsOk, BalancesOk,
        SessionsOk, CustomersOk, FindPlan;
      if o.reply.PeriodClosed? || o.reply.FixedRenewed? {
        ChargeRenewalKeeps(s, k, s.catalog.plans[FindPlan(s.catalog, sub.planKey).value], now);
      } else if o.ledger == s {
        NothingDone(s, o.reply, now);
      } else {
        hide ChargeRenewal;
        OnlyRows(s, o.ledger, o.reply, now);
      }
    }
  }

  lemma ChargeRenewalKeeps(s: Ledger, k: nat, plan: Plan, now: int)
    requires Inv(s, now) && k < |s.subscriptions| && Open(s.subscriptions[k].status) &&
             s.subscriptions[k].provider in plan.prices
    ensures Keeps(s, ChargeRenewal(s, k, plan, now), now)
  {
    hide OneOpen, Renewed, RowStep, ChargeRenewal, InvoicesKept, Keeps, BalancesOk, GrantsOk, InvoiceOk,
      SubscriptionsStep,
      CustomersOk, SessionsOk;
    var o, sub := ChargeRenewal(s, k, plan, now), s.subscriptions[k];
    assert RowOk(sub, |s.customers|, now);
    hide RowOk;
    RenewedRow(sub, plan, |s.customers|, now);
    RowRewritten(s.subscriptions, k, Renewed(sub, plan, now), |s.customers|, now);
    var invoice := RenewalShape(s, k, plan, now);
    RenewalInvoiceOk(invoice, sub, |s.customers|, now);
    ChargeAppended(s, invoice, o.reply);
    KeptAcrossSpending(s, s.(invoices := s.invoices + [invoice]), o.ledger, o.reply);
    RowsAndInvoices(s, o.ledger, o.reply, now);
  }

  /**
   What a charged renewal does to the tables: one row rewritten, one paid invoice, and a balance spent from if there
   is one.
   */
  lemma RenewalShape(s: Ledger, k: nat, plan: Plan, now: int) returns (invoice: Invoice)
    requires k < |s.subscriptions| && s.subscriptions[k].provider in plan.prices
    ensures var o, sub := ChargeRenewal(s, k, plan, now), s.subscriptions[k];
            && o.ledger == s.(subscriptions := s.subscriptions[k := Renewed(sub, plan, now)],
                              invoices := s.invoices + [invoice], balances := o.ledger.balances)
            && (forall c :: c in o.ledger.balances <==> c in s.balances)
            && (forall i: nat :: LegOn(o.reply, i) == 0)
            && invoice.customer == sub.customer && invoice.kind == Recurring && invoice.refundedMinor == 0
            && invoice.amountMinor >= 0 && invoice.status == Paid
  {
    hide UnitsBetween, Renewed;
    invoice := ChargeRenewal(s, k, plan, now).ledger.invoices[|s.invoices|];
  }

  lemma RenewalInvoiceOk(invoice: Invoice, sub: Subscription, customers: nat, now: int)
    requires RowOk(sub, customers, now) && invoice.customer == sub.customer && invoice.kind == Recurring
    requires invoice.refundedMinor == 0 && invoice.amountMinor >= 0 && invoice.status == Paid
    ensures InvoiceOk(invoice, customers)
  {
  }

  lemma KeptAcrossSpending(s: Ledger, t: Ledger, u: Ledger, reply: Reply)
    requires InvoicesKept(s, t, reply) && u == t.(subscriptions := u.subscriptions, balances := u.balances)
    requires forall c :: c in u.balances <==> c in t.balances
    ensures InvoicesKept(s, u, reply)
  {
    SamePacks(t, u);
  }

  lemma RenewedRow(sub: Subscription, plan: Plan, customers: nat, now: int)
    requires RowOk(sub, customers, now) && Open(sub.status)
    ensures RowOk(Renewed(sub, plan, now), customers, now) && RowStep(sub, Renewed(sub, plan, now), now)
  {
  }

  /** Every step, at a time not before the last, keeps the invariant and stays within these limits. */
  lemma StepKeeps(s: Ledger, op: Op, before: int, now: int)
    requires Inv(s, before) && before <= now
    ensures Keeps(s, Step(s, op, now), now)
  {
    hide Keeps, Inv, SetRegion, UpdatePaymentMethod, Purchase, Checkout, ChangePlan, Cancel, AdminCancel, Refund,
      RecordUsage, Activate, CompletePurchase, AdvanceRenewal, DeleteUser;
    Later(s, before, now);
    match op
    case OpSetRegion(userId, russian, region) => SetRegionKeeps(s, userId, russian, region, now);
    case OpUpdatePaymentMethod(userId) => UpdatePaymentMethodKeeps(s, userId, now);
    case OpPurchase(userId, russian, productKey, requested) =>
      PurchaseKeeps(s, userId, russian, productKey, requested, now);
    case OpCheckout(userId, russian, planKey) => CheckoutKeeps(s, userId, russian, planKey, now);
    case OpChangePlan(userId, planKey) => ChangePlanKeeps(s, userId, planKey, now);
    case OpCancel(userId, immediate) => CancelKeeps(s, userId, immediate, now);
    case OpAdminCancel(sub, immediate) => AdminCancelKeeps(s, sub, immediate, now);
    case OpRefund(invoice, amount) => RefundKeeps(s, invoice, amount, now);
    case OpRecordUsage(customer, meterKey, quantity, occurredAt, key) =>
      RecordUsageKeeps(s, customer, meterKey, quantity, occurredAt, key, now);
    case OpActivate(userId, russian, planKey, status) => ActivateKeeps(s, userId, russian, planKey, status, now);
    case OpCompletePurchase(session, buyer) => CompletePurchaseKeeps(s, session, buyer, now);
    case OpAdvanceRenewal(target, owner, success) => AdvanceRenewalKeeps(s, target, owner, success, now);
    case OpDeleteUser(userId) => DeleteUserKeeps(s, userId, now);
  }

  lemma OpeningInv(catalog: Catalog, now: int)
    ensures Inv(Opening(catalog), now)
  {
  }

  /** The instant of the last event, or `start`. */
  function Latest(start: int, events: seq<Event>): int {
    if events == [] then start else events[|events| - 1].now
  }

  lemma ClockedPrefix(start: int, events: seq<Event>, k: nat)
    requires Clocked(start, events) && k <= |events|
    ensures Clocked(start, events[..k])
    ensures k < |events| ==> Latest(start, events[..k]) <= events[k].now
    ensures start <= Latest(start, events[..k]) <= Latest(start, events)
  {
  }

  /** Every reachable ledger satisfies the invariant. */
  lemma {:induction false} RunKeeps(s: Ledger, start: int, events: seq<Event>)
    requires Inv(s, start) && Clocked(start, events)
    ensures Inv(After(s, events), Latest(start, events))
    ensures After(s, events).catalog == s.catalog
  {
    hide Inv, Step;
    if events != [] {
      var last := |events| - 1;
      ClockedPrefix(start, events, last);
      RunKeeps(s, start, events[..last]);
      StepKeeps(After(s, events[..last]), events[last].op, Latest(start, events[..last]), events[last].now);
    }
  }
}
