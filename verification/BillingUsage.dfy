/** Usage ingestion over whole runs: an idempotency key records at most once. */
module BillingUsage {
  import opened Core
  import opened Billing

  /** No customer has two records with one idempotency key. */
  ghost predicate KeysUnique(usage: seq<UsageRecord>) {
    forall i, j :: 0 <= i < j < |usage| && usage[i].customer == usage[j].customer ==>
      usage[i].idempotencyKey != usage[j].idempotencyKey
  }

  predicate Recorded(usage: seq<UsageRecord>, customer: nat, key: string) {
    exists i :: 0 <= i < |usage| && usage[i].customer == customer && usage[i].idempotencyKey == key
  }

  lemma QuietUsage(s: Ledger, op: Op, now: int)
    requires op.OpSetRegion? || op.OpUpdatePaymentMethod? || op.OpPurchase? || op.OpCheckout? || op.OpCancel? ||
             op.OpAdminCancel? || op.OpDeleteUser?
    ensures Step(s, op, now).ledger.usage == s.usage
  {
    hide CurrentSubscription, EntitledSubscription, PendingCheckout, CheckoutRow;
  }

  lemma QuietSettlements(s: Ledger, op: Op, now: int)
    requires op.OpChangePlan? || op.OpRefund? || op.OpActivate? || op.OpCompletePurchase? || op.OpAdvanceRenewal?
    ensures Step(s, op, now).ledger.usage == s.usage
  {
    hide CurrentSubscription, GuardChange, ChangeQuote, RefundSource, SettledChange, FindSession, RenewalTarget,
      UnitsBetween;
  }

  lemma IngestRecords(s: Ledger, customer: nat, meterKey: string, quantity: int, occurredAt: Option<int>, key: string,
      now: int)
    requires KeysUnique(s.usage)
    ensures var o := RecordUsage(s, customer, meterKey, quantity, occurredAt, key, now);
            && KeysUnique(o.ledger.usage)
            && (Recorded(s.usage, customer, key) ==> o.ledger.usage == s.usage)
            && (o.reply.Done? ==> Recorded(o.ledger.usage, customer, key))
  {
    hide EntitledSubscription;
    var t := RecordUsage(s, customer, meterKey, quantity, occurredAt, key, now).ledger;
    if t.usage != s.usage {
      assert t.usage[|s.usage|].customer == customer && t.usage[|s.usage|].idempotencyKey == key;
    }
  }

  lemma StepRecords(s: Ledger, op: Op, now: int)
    requires KeysUnique(s.usage)
    ensures KeysUnique(Step(s, op, now).ledger.usage) && s.usage <= Step(s, op, now).ledger.usage
  {
    if op.OpRecordUsage? {
      IngestRecords(s, op.customer, op.meterKey, op.quantity, op.occurredAt, op.idempotencyKey, now);
    } else if op.OpChangePlan? || op.OpRefund? || op.OpActivate? || op.OpCompletePurchase? || op.OpAdvanceRenewal? {
      QuietSettlements(s, op, now);
    } else {
      QuietUsage(s, op, now);
    }
    hide ChangePlan, Refund, Activate, CompletePurchase, AdvanceRenewal, SetRegion, UpdatePaymentMethod, Purchase,
      Checkout, Cancel;
  }

  /** From an empty ledger, a key records at most once however often it is sent. */
  lemma {:induction false} RecordedOnce(catalog: Catalog, events: seq<Event>)
    ensures KeysUnique(After(Opening(catalog), events).usage)
  {
    hide Step, KeysUnique;
    if events == [] {
      NothingRecorded(catalog);
    } else {
      RecordedOnce(catalog, events[..|events| - 1]);
      StepRecords(After(Opening(catalog), events[..|events| - 1]), events[|events| - 1].op, events[|events| - 1].now);
    }
  }

  lemma NothingRecorded(catalog: Catalog)
    ensures KeysUnique(Opening(catalog).usage)
  {
  }

  lemma Grows(s: Ledger, events: seq<Event>, k: nat)
    requires k <= |events|
    ensures After(s, events[..k]).usage <= After(s, events).usage
    decreases |events|
  {
    if k < |events| {
      var init := events[..|events| - 1];
      assert init[..k] == events[..k];
      Grows(s, init, k);
      StepGrows(After(s, init), events[|events| - 1].op, events[|events| - 1].now);
    } else {
      assert events[..k] == events;
    }
    hide Step;
  }

  lemma StepGrows(s: Ledger, op: Op, now: int)
    ensures s.usage <= Step(s, op, now).ledger.usage
  {
    if !op.OpRecordUsage? {
      if op.OpChangePlan? || op.OpRefund? || op.OpActivate? || op.OpCompletePurchase? || op.OpAdvanceRenewal? {
        QuietSettlements(s, op, now);
      } else {
        QuietUsage(s, op, now);
      }
    }
    hide ChangePlan, Refund, Activate, CompletePurchase, AdvanceRenewal, SetRegion, UpdatePaymentMethod, Purchase,
      Checkout, Cancel;
  }

  lemma IngestAnswers(s: Ledger, op: Op, now: int)
    requires op.OpRecordUsage?
    ensures Step(s, op, now).reply.Done? ==> Recorded(Step(s, op, now).ledger.usage, op.customer, op.idempotencyKey)
    ensures Recorded(s.usage, op.customer, op.idempotencyKey) ==> Step(s, op, now).ledger == s
  {
    hide EntitledSubscription;
    var t := Step(s, op, now).ledger;
    if t.usage != s.usage {
      assert t.usage[|s.usage|].customer == op.customer && t.usage[|s.usage|].idempotencyKey == op.idempotencyKey;
    }
  }

  /** Sent again after it was accepted, a key changes nothing, at any later point of any run. */
  lemma ReplayChangesNothing(s: Ledger, events: seq<Event>, i: nat, j: nat)
    requires i < j < |events| && events[i].op.OpRecordUsage? && events[j].op.OpRecordUsage?
    requires events[i].op.customer == events[j].op.customer &&
             events[i].op.idempotencyKey == events[j].op.idempotencyKey
    requires ReplyAt(s, events, i).Done?
    ensures After(s, events[..j + 1]) == After(s, events[..j])
  {
    hide Step, Recorded;
    assert events[..i + 1][..i] == events[..i] && events[..j + 1][..j] == events[..j] &&
      events[..j][..i + 1] == events[..i + 1];
    IngestAnswers(After(s, events[..i]), events[i].op, events[i].now);
    Grows(s, events[..j], i + 1);
    StillRecorded(After(s, events[..i + 1]).usage, After(s, events[..j]).usage, events[i].op.customer,
      events[i].op.idempotencyKey);
    IngestAnswers(After(s, events[..j]), events[j].op, events[j].now);
  }

  lemma StillRecorded(a: seq<UsageRecord>, b: seq<UsageRecord>, customer: nat, key: string)
    requires a <= b && Recorded(a, customer, key)
    ensures Recorded(b, customer, key)
  {
    var i :| 0 <= i < |a| && a[i].customer == customer && a[i].idempotencyKey == key;
    assert b[i] == a[i];
  }
}
