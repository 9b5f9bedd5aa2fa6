/**
 The billing ledger as a step machine: what each route and each provider or scheduler step does to the tables.
 Tables keep insertion order and never drop rows, so a row's index is its id and a fresh id is the table's length.
 Times are milliseconds; amounts are minor units.
 */
module Billing {
  import opened Core
  import opened Calendar
  import Proration

  datatype Provider = Paddle | YooKassa

  datatype Mode = Fixed | Usage

  datatype Status = Incomplete | Trialing | Active | PastDue | Canceled

  datatype InvoiceStatus = Pending | Paid | Failed | Refunded

  datatype Kind = Recurring | OneTime

  datatype ProductType = Sku | Credits | Custom

  datatype Country = RU | US

  datatype Region = Auto | Ru | World

  /** Absent numeric fields are 0, as the code reads them. */
  datatype PlanPrice = PlanPrice(currency: string, amountMinor: nat, unitPriceMinor: nat, includedUnits: nat)

  datatype Plan = Plan(key: string, mode: Mode, interval: Interval, meterKey: Option<string>, trialDays: nat,
      active: bool, prices: map<Provider, PlanPrice>)

  datatype ProductPrice = ProductPrice(currency: string, amountMinor: nat, minAmountMinor: Option<nat>,
      maxAmountMinor: Option<nat>)

  /** An empty entitlement, zero credits or zero days mean the grant does not carry one. */
  datatype Product = Product(key: string, kind: ProductType, active: bool, prices: map<Provider, ProductPrice>,
      entitlement: string, credits: nat, durationDays: nat)

  datatype Catalog = Catalog(plans: seq<Plan>, products: seq<Product>)

  datatype Customer = Customer(userId: nat, provider: Provider, override: Option<Provider>, country: Country,
      defaultMethod: Option<nat>)

  datatype Subscription = Subscription(
    customer: nat,
    planKey: string,
    provider: Provider,
    mode: Mode,
    status: Status,
    selfManaged: bool,
    periodStart: int,
    periodEnd: int,
    cancelAtPeriodEnd: bool,
    trialEnd: Option<int>,
    paymentMethod: Option<nat>,
    dunningAttempts: nat,
    anchor: Option<int>,
    createdAt: int,
    updatedAt: int)

  datatype Invoice = Invoice(
    customer: nat,
    subscription: Option<nat>,
    provider: Provider,
    amountMinor: int,
    refundedMinor: int,
    currency: string,
    status: InvoiceStatus,
    mode: Mode,
    kind: Kind,
    product: Option<nat>,
    periodStart: int,
    periodEnd: int,
    createdAt: int)

  datatype PaymentMethod = PaymentMethod(customer: nat, provider: Provider, isDefault: bool)

  datatype UsageRecord = UsageRecord(customer: nat, subscription: nat, meterKey: string, quantity: nat,
      occurredAt: int, idempotencyKey: string)

  datatype Grant = Grant(customer: nat, entitlement: string, sourceInvoice: nat, expiresAt: Option<int>,
      revokedAt: Option<int>)

  datatype Session = Session(customer: nat, product: nat, provider: Provider, amountMinor: int, currency: string,
      createdAt: int)

  /** A settled purchase session leaves `None` behind. */
  datatype Ledger = Ledger(
    catalog: Catalog,
    customers: seq<Customer>,
    subscriptions: seq<Subscription>,
    invoices: seq<Invoice>,
    methods: seq<PaymentMethod>,
    usage: seq<UsageRecord>,
    grants: seq<Grant>,
    sessions: seq<Option<Session>>,
    balances: map<nat, int>)

  const DUNNING_MAX_ATTEMPTS: nat := 3
  const MAX_QUANTITY := 1_000_000_000

  function Opening(catalog: Catalog): Ledger {
    Ledger(catalog, [], [], [], [], [], [], [], map[])
  }

  // ----- lookups -----

  predicate Open(status: Status) { status != Canceled }

  predicate Entitled(status: Status) { status in {Trialing, Active, PastDue} }

  predicate Changeable(status: Status) { status in {Trialing, Active} }

  function GeoDefault(country: Country): Provider { if country == RU then YooKassa else Paddle }

  function CountryOf(russian: bool): Country { if russian then RU else US }

  function Effective(c: Customer): Provider { c.override.GetOr(GeoDefault(c.country)) }

  function OverrideFor(region: Region): Option<Provider> {
    match region
    case Auto => None
    case Ru => Some(YooKassa)
    case World => Some(Paddle)
  }

  function FindCustomer(customers: seq<Customer>, userId: nat): Option<nat> {
    First(customers, (c: Customer) => c.userId == userId)
  }

  function FindPlan(catalog: Catalog, key: string): Option<nat> {
    First(catalog.plans, (p: Plan) => p.key == key)
  }

  function FindActivePlan(catalog: Catalog, key: string): Option<nat> {
    First(catalog.plans, (p: Plan) => p.key == key && p.active)
  }

  function CurrentSubscription(subscriptions: seq<Subscription>, customer: nat): Option<nat> {
    Newest(subscriptions, (s: Subscription) => s.customer == customer && Open(s.status), (s: Subscription) =>
      s.createdAt)
  }

  function EntitledSubscription(subscriptions: seq<Subscription>, customer: nat): Option<nat> {
    Newest(subscriptions, (s: Subscription) => s.customer == customer && Entitled(s.status), (s: Subscription) =>
      s.createdAt)
  }

  function PendingCheckout(subscriptions: seq<Subscription>, customer: nat): Option<nat> {
    First(subscriptions, (s: Subscription) => s.customer == customer && s.status == Incomplete)
  }

  /** The caller's current subscription, through their customer row. */
  function CurrentOf(s: Ledger, userId: nat): Option<nat> {
    var c := FindCustomer(s.customers, userId);
    if c.None? then None else CurrentSubscription(s.subscriptions, c.value)
  }

  /** The invoice a plan change refunds from: the newest paid fixed one of the subscription. */
  function RefundSource(invoices: seq<Invoice>, sub: nat): Option<nat> {
    Newest(invoices,
           (i: Invoice) => i.subscription == Some(sub) && i.status == Paid && i.mode == Fixed && i.amountMinor > 0,
           (i: Invoice) => i.createdAt)
  }

  // ----- replies -----

  datatype Reply =
    | Done
    | Refused(status: nat)
    | PlanChanged(sub: nat, source: Option<nat>, refundMinor: int, chargeMinor: int)
    | InvoiceRefunded(invoice: nat, amountMinor: int)
    | PurchaseSettled(invoice: nat)
    | PeriodClosed(sub: nat, customer: nat, start: int, end: int, totalUnits: nat, coveredUnits: nat,
      creditUnits: nat, chargedUnits: nat, amountMinor: int)
    | FixedRenewed(sub: nat, amountMinor: int)
    | ChargeFailed(sub: nat)

  datatype Outcome = Outcome(ledger: Ledger, reply: Reply)

  // ----- self-service routes -----

  function NewCustomer(userId: nat, russian: bool): Customer {
    Customer(userId, GeoDefault(CountryOf(russian)), None, CountryOf(russian), None)
  }

  function WithCustomer(s: Ledger, userId: nat, russian: bool): (r: (Ledger, nat))
    ensures r.1 < |r.0.customers|
  {
    var found := FindCustomer(s.customers, userId);
    if found.Some? then (s, found.value)
    else (s.(customers := s.customers + [NewCustomer(userId, russian)]), |s.customers|)
  }

  function SetRegion(s: Ledger, userId: nat, russian: bool, region: Region): Outcome {
    var (s1, c) := WithCustomer(s, userId, russian);
    var customer := s1.customers[c];
    var next := customer.(override := OverrideFor(region));
    var open := CurrentSubscription(s1.subscriptions, c);
    if open.Some? && s1.subscriptions[open.value].provider != Effective(next) then Outcome(s1, Refused(409))
    else Outcome(s1.(customers := s1.customers[c := next]), Done)
  }

  function Demoted(methods: seq<PaymentMethod>, customer: nat): (r: seq<PaymentMethod>)
    ensures |r| == |methods|
    ensures forall i :: 0 <= i < |r| ==> r[i] == if methods[i].customer == customer
            then methods[i].(isDefault := false) else methods[i]
  {
    seq(|methods|, i requires 0 <= i < |methods| =>
      if methods[i].customer == customer then methods[i].(isDefault := false) else methods[i])
  }

  function UpdatePaymentMethod(s: Ledger, userId: nat, now: int): Outcome {
    var found, current := FindCustomer(s.customers, userId), CurrentOf(s, userId);
    if current.None? then Outcome(s, Refused(404))
    else
      var c, k, m := found.value, current.value, |s.methods|;
      var sub := s.subscriptions[k];
      Outcome(s.(methods := Demoted(s.methods, c) + [PaymentMethod(c, sub.provider, true)],
                 customers := s.customers[c := s.customers[c].(defaultMethod := Some(m))],
                 subscriptions := s.subscriptions[k := sub.(paymentMethod := Some(m), updatedAt := now)]),
              Done)
  }

  /** The amount a purchase session is opened for, or the status of the refusal. */
  function PurchaseAmount(product: Product, price: ProductPrice, requested: Option<int>): (r: (int, nat))
    ensures r.1 == 0 && (requested.Some? ==> requested.value >= 1) ==> r.0 >= 1
  {
    if product.kind != Custom then if price.amountMinor == 0 then (0, 503) else (price.amountMinor, 0)
    else if price.minAmountMinor.None? || price.maxAmountMinor.None? then (0, 503)
    else if requested.None? then (0, 400)
    else if requested.value < price.minAmountMinor.value || requested.value > price.maxAmountMinor.value then (0, 400)
    else (requested.value, 0)
  }

  function Purchase(s: Ledger, userId: nat, russian: bool, productKey: string, requested: Option<int>,
      now: int): Outcome {
    if requested.Some? && requested.value < 1 then Outcome(s, Refused(400))
    else
      var found := First(s.catalog.products, (p: Product) => p.key == productKey);
      if found.None? || !s.catalog.products[found.value].active then Outcome(s, Refused(404))
      else
        var product := s.catalog.products[found.value];
        var (s1, c) := WithCustomer(s, userId, russian);
        var provider := Effective(s1.customers[c]);
        if provider !in product.prices then Outcome(s1, Refused(409))
        else
          var price := product.prices[provider];
          var (amount, refusal) := PurchaseAmount(product, price, requested);
          if refusal != 0 then Outcome(s1, Refused(refusal))
          else Outcome(s1.(sessions := s1.sessions + [Some(Session(c, found.value, provider, amount, price.currency,
            now))]), Done)
  }

  /** The row a self-managed checkout leaves waiting for its first payment. */
  function CheckoutRow(plan: Plan, customer: nat, provider: Provider, now: int): Subscription {
    Subscription(customer, plan.key, provider, plan.mode, Incomplete, true, now, AddInterval(now, plan.interval), false,
                 if plan.trialDays > 0 then Some(now + plan.trialDays * DAY_MS) else None, None, 0, Some(now), now, now)
  }

  function Checkout(s: Ledger, userId: nat, russian: bool, planKey: string, now: int): Outcome {
    var found := FindActivePlan(s.catalog, planKey);
    if found.None? then Outcome(s, Refused(404))
    else
      var plan := s.catalog.plans[found.value];
      var (s1, c) := WithCustomer(s, userId, russian);
      if EntitledSubscription(s1.subscriptions, c).Some? then Outcome(s1, Refused(409))
      else
        var provider := Effective(s1.customers[c]);
        var pending := PendingCheckout(s1.subscriptions, c);
        if provider == YooKassa then
          var row := CheckoutRow(plan, c, provider, now);
          if pending.Some? then
            var was := s1.subscriptions[pending.value];
            Outcome(s1.(subscriptions := s1.subscriptions[pending.value :=
              row.(dunningAttempts := was.dunningAttempts, createdAt := was.createdAt)]), Done)
          else Outcome(s1.(subscriptions := s1.subscriptions + [row]), Done)
        else if pending.Some? then
          Outcome(s1.(subscriptions := s1.subscriptions[pending.value :=
            s1.subscriptions[pending.value].(status := Canceled, updatedAt := now)]), Done)
        else Outcome(s1, Done)
  }

  datatype Guarded = Guarded(customer: nat, sub: nat, fromPlan: Plan, toPlan: Plan) | Blocked(status: nat)

  /** The guards shared by a plan change and its preview. */
  function GuardChange(s: Ledger, userId: nat, planKey: string): (g: Guarded)
    ensures g.Guarded? ==>
              && FindCustomer(s.customers, userId) == Some(g.customer)
              && CurrentOf(s, userId) == Some(g.sub) && g.sub < |s.subscriptions|
    ensures g.Guarded? ==>
              s.subscriptions[g.sub].provider in g.toPlan.prices && Changeable(s.subscriptions[g.sub].status)
  {
    var current := CurrentOf(s, userId);
    if current.None? then Blocked(404)
    else
      var sub := s.subscriptions[current.value];
      if !Changeable(sub.status) then Blocked(409)
      else if sub.cancelAtPeriodEnd then Blocked(409)
      else
        var to := FindActivePlan(s.catalog, planKey);
        if to.None? then Blocked(404)
        else
          var toPlan := s.catalog.plans[to.value];
          if toPlan.key == sub.planKey then Blocked(409)
          else if sub.provider !in toPlan.prices then Blocked(409)
          else
            var from := FindPlan(s.catalog, sub.planKey);
            if from.None? then Blocked(503)
            else Guarded(FindCustomer(s.customers, userId).value, current.value, s.catalog.plans[from.value], toPlan)
  }

  function PlanAmount(plan: Plan, provider: Provider): nat {
    if provider in plan.prices then plan.prices[provider].amountMinor else 0
  }

  function ChangeQuote(g: Guarded, sub: Subscription, now: int): Proration.Quote
    requires g.Guarded?
  {
    Proration.QuoteFor(PlanAmount(g.fromPlan, sub.provider), PlanAmount(g.toPlan, sub.provider), sub.periodStart,
      sub.periodEnd, now)
  }

  /** What is refunded on the source: the quote, capped by what is still unrefunded on it. */
  function RefundLeg(invoices: seq<Invoice>, source: Option<nat>, quoted: int): int
    requires source.Some? ==> source.value < |invoices|
  {
    if source.None? then 0
    else Min(quoted, invoices[source.value].amountMinor - invoices[source.value].refundedMinor)
  }

  function ChargeInvoice(sub: Subscription, k: nat, amount: int, currency: string, mode: Mode, status: InvoiceStatus,
      now: int): Invoice {
    Invoice(sub.customer, Some(k), sub.provider, amount, 0, currency, status, mode, Recurring, None, now,
      sub.periodEnd, now)
  }

  /** The charge for the new plan, then the refund document, then the mark on the source. */
  function SettledChange(invoices: seq<Invoice>, sub: Subscription, k: nat, source: Option<nat>, refund: int,
      charge: int, currency: string, mode: Mode, now: int): seq<Invoice>
    requires source.Some? ==> source.value < |invoices|
  {
    var charged := if charge > 0 then invoices + [ChargeInvoice(sub, k, charge, currency, mode, Paid, now)]
      else invoices;
    if refund > 0 && source.Some? then
      var documented := charged + [ChargeInvoice(sub, k, refund, currency, Fixed, Refunded, now)];
      documented[source.value := documented[source.value].(refundedMinor :=
        documented[source.value].refundedMinor + refund)]
    else charged
  }

  function ChangePlan(s: Ledger, userId: nat, planKey: string, now: int): Outcome {
    var g := GuardChange(s, userId, planKey);
    if g.Blocked? then Outcome(s, Refused(g.status))
    else
      var sub := s.subscriptions[g.sub];
      var changed := s.(subscriptions := s.subscriptions[g.sub :=
        sub.(planKey := g.toPlan.key, mode := g.toPlan.mode, updatedAt := now)]);
      if sub.status == Trialing then Outcome(changed, PlanChanged(g.sub, None, 0, 0))
      else
        var quote := ChangeQuote(g, sub, now);
        var source := RefundSource(s.invoices, g.sub);
        var refund := RefundLeg(s.invoices, source, quote.refundMinor);
        var currency := g.toPlan.prices[sub.provider].currency;
        Outcome(changed.(invoices := SettledChange(s.invoices, sub, g.sub, source, refund, quote.chargeMinor,
          currency, g.toPlan.mode, now)),
                PlanChanged(g.sub, source, refund, quote.chargeMinor))
  }

  datatype Preview = Preview(creditMinor: Option<nat>, chargeMinor: Option<nat>,
      dueNowMinor: int) | NoPreview(status: nat)

  /** The prorated cost of a change without applying it; a delegated provider reports only the net. */
  function PreviewChange(s: Ledger, userId: nat, planKey: string, now: int): Preview {
    var g := GuardChange(s, userId, planKey);
    if g.Blocked? then NoPreview(g.status)
    else
      var sub := s.subscriptions[g.sub];
      var quote := ChangeQuote(g, sub, now);
      var refund := if sub.status == Trialing then 0 else quote.refundMinor;
      var charge := if sub.status == Trialing then 0 else quote.chargeMinor;
      var delegated := sub.provider != YooKassa;
      Preview(if delegated then None else Some(refund), if delegated then None else Some(charge), charge - refund)
  }

  function Ended(sub: Subscription, immediate: bool, now: int): Subscription {
    if immediate then sub.(status := Canceled, cancelAtPeriodEnd := false, updatedAt := now)
    else sub.(cancelAtPeriodEnd := true, updatedAt := now)
  }

  function Cancel(s: Ledger, userId: nat, immediate: bool, now: int): Outcome {
    var current := CurrentOf(s, userId);
    if current.None? then Outcome(s, Refused(404))
    else Outcome(s.(subscriptions := s.subscriptions[current.value :=
      Ended(s.subscriptions[current.value], immediate, now)]), Done)
  }

  // ----- admin routes -----

  function AdminCancel(s: Ledger, k: nat, immediate: bool, now: int): Outcome {
    if k >= |s.subscriptions| then Outcome(s, Refused(404))
    else if !Open(s.subscriptions[k].status) then Outcome(s, Refused(409))
    else Outcome(s.(subscriptions := s.subscriptions[k := Ended(s.subscriptions[k], immediate, now)]), Done)
  }

  /** The units a credit pack's invoice stands for. */
  function PackUnits(catalog: Catalog, i: Invoice): nat {
    if i.kind == OneTime && i.product.Some? && i.product.value < |catalog.products| &&
      catalog.products[i.product.value].kind == Credits
    then catalog.products[i.product.value].credits else 0
  }

  function Balance(balances: map<nat, int>, customer: nat): int {
    if customer in balances then balances[customer] else 0
  }

  function Revoked(grants: seq<Grant>, invoice: nat, now: int): (r: seq<Grant>)
    ensures |r| == |grants|
    ensures forall i :: 0 <= i < |r| ==>
              r[i] == if grants[i].sourceInvoice == invoice &&
                grants[i].revokedAt.None? then grants[i].(revokedAt := Some(now)) else grants[i]
  {
    seq(|grants|, i requires 0 <= i < |grants| =>
          if grants[i].sourceInvoice == invoice &&
            grants[i].revokedAt.None? then grants[i].(revokedAt := Some(now)) else grants[i])
  }

  /** A fully refunded one-time purchase gives back what it granted. */
  function RevokeOneTimeEffects(s: Ledger, id: nat, now: int): Ledger
    requires id < |s.invoices|
  {
    var invoice := s.invoices[id];
    if invoice.kind != OneTime then s
    else
      var units := PackUnits(s.catalog, invoice);
      s.(grants := Revoked(s.grants, id, now),
         balances := if units > 0 then s.balances[invoice.customer := Balance(s.balances, invoice.customer) - units]
           else s.balances)
  }

  function Refund(s: Ledger, id: nat, amount: Option<int>, now: int): Outcome {
    if amount.Some? && amount.value < 1 then Outcome(s, Refused(400))
    else if id >= |s.invoices| then Outcome(s, Refused(404))
    else if s.invoices[id].status != Paid then Outcome(s, Refused(409))
    else
      var invoice := s.invoices[id];
      var remaining := invoice.amountMinor - invoice.refundedMinor;
      var refund := amount.GetOr(remaining);
      if refund <= 0 || refund > remaining then Outcome(s, Refused(400))
      else
        var total := invoice.refundedMinor + refund;
        var full := total >= invoice.amountMinor;
        var marked := s.(invoices := s.invoices[id :=
          invoice.(refundedMinor := total, status := if full then Refunded else Paid)]);
        Outcome(if full then RevokeOneTimeEffects(marked, id, now) else marked, InvoiceRefunded(id, refund))
  }

  function RecordUsage(s: Ledger, customer: nat, meterKey: string, quantity: int, occurredAt: Option<int>,
      key: string, now: int): Outcome {
    if quantity < 1 || quantity > MAX_QUANTITY then Outcome(s, Refused(400))
    else if First(s.usage, (r: UsageRecord) => r.customer == customer && r.idempotencyKey == key).Some?
      then Outcome(s, Done)
    else if customer in s.balances && s.balances[customer] < 0 then Outcome(s, Refused(409))
    else
      var sub := EntitledSubscription(s.subscriptions, customer);
      if sub.None? then Outcome(s, Refused(404))
      else if First(s.catalog.plans, (p: Plan) => p.meterKey == Some(meterKey)).None? then Outcome(s, Refused(400))
      else Outcome(s.(usage := s.usage + [UsageRecord(customer, sub.value, meterKey, quantity, occurredAt.GetOr(now),
        key)]), Done)
  }

  // ----- provider and scheduler steps -----

  /** The price of a plan on a provider, or on the other one when it has none there. */
  function ActivationPrice(plan: Plan, provider: Provider): PlanPrice {
    var other := if provider == Paddle then YooKassa else Paddle;
    if provider in plan.prices then plan.prices[provider]
    else if other in plan.prices then plan.prices[other]
    else PlanPrice("USD", 0, 0, 0)
  }

  function WithDefaultMethod(s: Ledger, c: nat): (r: Ledger)
    requires c < |s.customers|
    ensures |r.customers| == |s.customers| && r.customers[c].defaultMethod.Some?
  {
    if s.customers[c].defaultMethod.Some? then s
    else s.(methods := s.methods + [PaymentMethod(c, s.customers[c].provider, true)],
            customers := s.customers[c := s.customers[c].(defaultMethod := Some(|s.methods|))])
  }

  /** Brings the customer's open row - or a new one - to the given plan and status. */
  function Activated(was: Subscription, plan: Plan, status: Status, card: Option<nat>, now: int): Subscription {
    was.(planKey := plan.key, mode := plan.mode, status := status, paymentMethod := card,
         periodEnd := AddInterval(now, plan.interval), anchor := if was.selfManaged then Some(now) else was.anchor,
           updatedAt := now)
  }

  function FreshRow(plan: Plan, c: nat, customer: Customer, status: Status, now: int): Subscription {
    Subscription(c, plan.key, customer.provider, plan.mode, status, customer.provider == YooKassa, now,
      AddInterval(now, plan.interval), false,
                 None, customer.defaultMethod, 0, None, now, now)
  }

  function Activate(s: Ledger, userId: nat, russian: bool, planKey: string, status: Status, now: int): Outcome {
    var found := FindPlan(s.catalog, planKey);
    if found.None? then Outcome(s, Refused(404))
    else
      var plan := s.catalog.plans[found.value];
      var (s1, c) := WithCustomer(s, userId, russian);
      Outcome(BroughtToPlan(WithDefaultMethod(s1, c), c, plan, status, now), Done)
  }

  function BroughtToPlan(s: Ledger, c: nat, plan: Plan, status: Status, now: int): Ledger
    requires c < |s.customers|
  {
    var customer := s.customers[c];
    var existing := CurrentSubscription(s.subscriptions, c);
    var k := existing.GetOr(|s.subscriptions|);
    var row := Activated(if existing.Some? then s.subscriptions[k] else FreshRow(plan, c, customer, status, now),
      plan, status, customer.defaultMethod, now);
    var price := ActivationPrice(plan, customer.provider);
    var invoice := Invoice(c, Some(k), customer.provider, price.amountMinor, 0, price.currency, Paid, plan.mode,
      Recurring, None,
                           now, AddInterval(now, plan.interval), now);
    s.(subscriptions := if existing.Some? then s.subscriptions[k := row] else s.subscriptions + [row],
       invoices := s.invoices + [invoice])
  }

  /** A pending session by reference, else the user's newest. */
  function FindSession(s: Ledger, ref: Option<nat>, userId: Option<nat>): (r: Option<nat>)
    ensures r.Some? ==> r.value < |s.sessions| && s.sessions[r.value].Some?
  {
    if ref.Some? && ref.value < |s.sessions| && s.sessions[ref.value].Some? then ref
    else if userId.None? then None
    else
      var c := FindCustomer(s.customers, userId.value);
      if c.None? then None
      else Newest(s.sessions, (x: Option<Session>) => x.Some? && x.value.customer == c.value, (x: Option<Session>) =>
        if x.Some? then x.value.createdAt else 0)
  }

  function CompletePurchase(s: Ledger, ref: Option<nat>, userId: Option<nat>, now: int): Outcome {
    if ref.None? && userId.None? then Outcome(s, Refused(400))
    else
      var found := FindSession(s, ref, userId);
      if found.None? then Outcome(s, Refused(404))
      else
        var session := s.sessions[found.value].value;
        var id := |s.invoices|;
        var invoice := Invoice(session.customer, None, session.provider, session.amountMinor, 0, session.currency,
          Paid, Fixed, OneTime,
                               Some(session.product), now, now, now);
        var units := PackUnits(s.catalog, invoice);
        Outcome(s.(invoices := s.invoices + [invoice],
                   grants := s.grants + PurchasedGrant(s.catalog, session, id, now),
                   balances := if units > 0 then s.balances[session.customer :=
                     Balance(s.balances, session.customer) + units] else s.balances,
                   sessions := s.sessions[found.value := None]),
                PurchaseSettled(id))
  }

  function PurchasedGrant(catalog: Catalog, session: Session, invoice: nat, now: int): seq<Grant> {
    if session.product < |catalog.products| && catalog.products[session.product].kind == Sku &&
      catalog.products[session.product].entitlement != "" then
      var product := catalog.products[session.product];
      [Grant(session.customer, product.entitlement, invoice,
        if product.durationDays > 0 then Some(now + product.durationDays * DAY_MS) else None, None)]
    else []
  }

  /** The units recorded on a subscription in [from, to), whatever their meter. */
  function UnitsBetween(usage: seq<UsageRecord>, sub: nat, from: int, to: int): nat {
    if usage == [] then 0
    else
      var last := usage[|usage| - 1];
      UnitsBetween(usage[..|usage| - 1], sub, from, to)
      + if last.subscription == sub && from <= last.occurredAt < to then last.quantity else 0
  }

  function RenewalTarget(s: Ledger, sub: Option<nat>, userId: Option<nat>): (r: Option<nat>)
    ensures r.Some? ==> r.value < |s.subscriptions| && Entitled(s.subscriptions[r.value].status)
  {
    if sub.Some? && sub.value < |s.subscriptions| && Entitled(s.subscriptions[sub.value].status) then sub
    else if userId.None? then None
    else
      var c := FindCustomer(s.customers, userId.value);
      if c.None? then None else EntitledSubscription(s.subscriptions, c.value)
  }

  function FailCharge(sub: Subscription, now: int): Subscription {
    var attempts := sub.dunningAttempts + 1;
    if attempts >= DUNNING_MAX_ATTEMPTS then sub.(dunningAttempts := attempts, status := Canceled,
      cancelAtPeriodEnd := false, updatedAt := now)
    else sub.(dunningAttempts := attempts, status := PastDue, updatedAt := now)
  }

  function RenewalAnchor(sub: Subscription, now: int): int {
    if sub.status == Trialing then now else sub.anchor.GetOr(sub.periodStart)
  }

  function Renewed(sub: Subscription, plan: Plan, now: int): Subscription {
    var anchor := RenewalAnchor(sub, now);
    sub.(status := Active, trialEnd := None, dunningAttempts := 0, periodStart := now,
         periodEnd := NextPeriodEnd(anchor, now, plan.interval), anchor := Some(anchor), updatedAt := now)
  }

  function AdvanceRenewal(s: Ledger, target: Option<nat>, userId: Option<nat>, success: bool, now: int): Outcome {
    var found := RenewalTarget(s, target, userId);
    if found.None? then Outcome(s, Refused(404))
    else
      var k := found.value;
      var sub := s.subscriptions[k];
      if !success then Outcome(s.(subscriptions := s.subscriptions[k := FailCharge(sub, now)]), ChargeFailed(k))
      else
        var p := FindPlan(s.catalog, sub.planKey);
        if p.None? || sub.provider !in s.catalog.plans[p.value].prices then Outcome(s, Refused(404))
        else if sub.cancelAtPeriodEnd then Outcome(s.(subscriptions :=
          s.subscriptions[k := sub.(status := Canceled, updatedAt := now)]), Done)
        else ChargeRenewal(s, k, s.catalog.plans[p.value], now)
  }

  function ChargeRenewal(s: Ledger, k: nat, plan: Plan, now: int): Outcome
    requires k < |s.subscriptions| && s.subscriptions[k].provider in plan.prices
  {
    var sub := s.subscriptions[k];
    var price := plan.prices[sub.provider];
    var advanced := s.(subscriptions := s.subscriptions[k := Renewed(sub, plan, now)]);
    if sub.mode == Fixed then
      var invoice := Invoice(sub.customer, Some(k), sub.provider, price.amountMinor, 0, price.currency, Paid, Fixed,
        Recurring, None,
                             now, Renewed(sub, plan, now).periodEnd, now);
      Outcome(advanced.(invoices := s.invoices + [invoice]), FixedRenewed(k, price.amountMinor))
    else
      var total := UnitsBetween(s.usage, k, sub.periodStart, now);
      var billable := Max(0, total - price.includedUnits);
      var credits := Min(Max(0, Balance(s.balances, sub.customer)), billable);
      var amount := (billable - credits) * price.unitPriceMinor;
      var invoice := Invoice(sub.customer, Some(k), sub.provider, amount, 0, price.currency, Paid, Usage, Recurring,
        None, sub.periodStart, now, now);
      Outcome(advanced.(invoices := s.invoices + [invoice],
                        balances := if credits > 0 then s.balances[sub.customer := s.balances[sub.customer] - credits]
                          else s.balances),
              PeriodClosed(k, sub.customer, sub.periodStart, now, total, total - billable, credits,
                billable - credits, amount))
  }

  function CanceledFor(subscriptions: seq<Subscription>, customer: nat, now: int): (r: seq<Subscription>)
    ensures |r| == |subscriptions|
    ensures forall i :: 0 <= i < |r| ==>
              r[i] == if subscriptions[i].customer != customer ||
                subscriptions[i].status == Canceled then subscriptions[i]
                      else Ended(subscriptions[i], true, now)
  {
    seq(|subscriptions|, i requires 0 <= i < |subscriptions| =>
          if subscriptions[i].customer != customer ||
            subscriptions[i].status == Canceled then subscriptions[i] else Ended(subscriptions[i], true, now))
  }

  /** The billing half of deleting a user. */
  function DeleteUser(s: Ledger, userId: nat, now: int): Outcome {
    var c := FindCustomer(s.customers, userId);
    if c.None? then Outcome(s, Done) else Outcome(s.(subscriptions := CanceledFor(s.subscriptions, c.value, now)), Done)
  }

  // ----- steps and runs -----

  datatype Op =
    | OpSetRegion(userId: nat, russian: bool, region: Region)
    | OpUpdatePaymentMethod(userId: nat)
    | OpPurchase(userId: nat, russian: bool, productKey: string, requested: Option<int>)
    | OpCheckout(userId: nat, russian: bool, planKey: string)
    | OpChangePlan(userId: nat, planKey: string)
    | OpCancel(userId: nat, immediate: bool)
    | OpAdminCancel(sub: nat, immediate: bool)
    | OpRefund(invoice: nat, amount: Option<int>)
    | OpRecordUsage(customer: nat, meterKey: string, quantity: int, occurredAt: Option<int>, idempotencyKey: string)
    | OpActivate(userId: nat, russian: bool, planKey: string, status: Status)
    | OpCompletePurchase(session: Option<nat>, buyer: Option<nat>)
    | OpAdvanceRenewal(target: Option<nat>, owner: Option<nat>, success: bool)
    | OpDeleteUser(userId: nat)

  function Step(s: Ledger, op: Op, now: int): Outcome {
    match op
    case OpSetRegion(userId, russian, region) => SetRegion(s, userId, russian, region)
    case OpUpdatePaymentMethod(userId) => UpdatePaymentMethod(s, userId, now)
    case OpPurchase(userId, russian, productKey, requested) => Purchase(s, userId, russian, productKey, requested, now)
    case OpCheckout(userId, russian, planKey) => Checkout(s, userId, russian, planKey, now)
    case OpChangePlan(userId, planKey) => ChangePlan(s, userId, planKey, now)
    case OpCancel(userId, immediate) => Cancel(s, userId, immediate, now)
    case OpAdminCancel(sub, immediate) => AdminCancel(s, sub, immediate, now)
    case OpRefund(invoice, amount) => Refund(s, invoice, amount, now)
    case OpRecordUsage(customer, meterKey, quantity, occurredAt, key) =>
      RecordUsage(s, customer, meterKey, quantity, occurredAt, key, now)
    case OpActivate(userId, russian, planKey, status) => Activate(s, userId, russian, planKey, status, now)
    case OpCompletePurchase(session, buyer) => CompletePurchase(s, session, buyer, now)
    case OpAdvanceRenewal(target, owner, success) => AdvanceRenewal(s, target, owner, success, now)
    case OpDeleteUser(userId) => DeleteUser(s, userId, now)
  }

  datatype Event = Event(op: Op, now: int)

  /** The ledger after a run. */
  function After(s: Ledger, events: seq<Event>): Ledger {
    if events == [] then s
    else
      var last := events[|events| - 1];
      Step(After(s, events[..|events| - 1]), last.op, last.now).ledger
  }

  /** The reply to the k-th event of a run. */
  function ReplyAt(s: Ledger, events: seq<Event>, k: nat): Reply
    requires k < |events|
  {
    Step(After(s, events[..k]), events[k].op, events[k].now).reply
  }

  /** Time never runs backwards, from `start` on. */
  ghost predicate Clocked(start: int, events: seq<Event>) {
    && (forall i :: 0 <= i < |events| ==> start <= events[i].now)
    && forall i, j :: 0 <= i < j < |events| ==> events[i].now <= events[j].now
  }
}
