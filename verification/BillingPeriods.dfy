/**
 Subscriptions over whole runs: usage periods never overlap, canceled rows are final, dunning ends within three
 failures.
 */
module BillingPeriods {
  import opened Core
  import Calendar
  import opened Billing
  import opened BillingInvariant

  // ----- rows between two points of a run -----

  /** A row moves only forward: its period start never goes back, and once canceled it is frozen. */
  ghost predicate RowForward(a: Subscription, b: Subscription) {
    b.customer == a.customer && a.periodStart <= b.periodStart && (!Open(a.status) ==> b == a)
  }

  ghost predicate RowsForward(a: seq<Subscription>, b: seq<Subscription>) {
    |a| <= |b| && forall k :: 0 <= k < |a| ==> RowForward(a[k], b[k])
  }

  lemma StepForward(s: Ledger, op: Op, before: int, now: int)
    requires Inv(s, before) && before <= now
    ensures RowsForward(s.subscriptions, Step(s, op, now).ledger.subscriptions)
  {
    hide Step;
    StepKeeps(s, op, before, now);
    forall k | 0 <= k < |s.subscriptions|
      ensures RowForward(s.subscriptions[k], Step(s, op, now).ledger.subscriptions[k])
    {
      assert RowOk(s.subscriptions[k], |s.customers|, before);
    }
  }

  /** From any point of a run to any later one. */
  lemma {:induction false} RunForward(s: Ledger, start: int, events: seq<Event>, i: nat, j: nat)
    requires Inv(s, start) && Clocked(start, events) && i <= j <= |events|
    ensures RowsForward(After(s, events[..i]).subscriptions, After(s, events[..j]).subscriptions)
    decreases j
  {
    hide Inv, Step, Clocked;
    if i < j {
      var init := events[..j - 1];
      assert events[..j][..j - 1] == init;
      ClockedPrefix(start, events, j - 1);
      RunForward(s, start, events, i, j - 1);
      RunKeeps(s, start, init);
      StepForward(After(s, init), events[j - 1].op, Latest(start, init), events[j - 1].now);
      ForwardTransitive(After(s, events[..i]).subscriptions, After(s, init).subscriptions,
        After(s, events[..j]).subscriptions);
    }
  }

  lemma ForwardTransitive(a: seq<Subscription>, b: seq<Subscription>, c: seq<Subscription>)
    requires RowsForward(a, b) && RowsForward(b, c)
    ensures RowsForward(a, c)
  {
    forall k | 0 <= k < |a|
      ensures RowForward(a[k], c[k])
    {
      assert RowForward(a[k], b[k]) && RowForward(b[k], c[k]);
    }
  }

  /** A canceled row is never changed again, by any continuation of the run. */
  lemma CanceledIsFinal(s: Ledger, start: int, events: seq<Event>, i: nat, k: nat)
    requires Inv(s, start) && Clocked(start, events) && i <= |events|
    requires k < |After(s, events[..i]).subscriptions| && After(s, events[..i]).subscriptions[k].status == Canceled
    ensures k < |After(s, events).subscriptions| &&
            After(s, events).subscriptions[k] == After(s, events[..i]).subscriptions[k]
  {
    RunForward(s, start, events, i, |events|);
    assert events[..|events|] == events;
    assert RowForward(After(s, events[..i]).subscriptions[k], After(s, events).subscriptions[k]);
  }

  // ----- closed usage periods -----

  /** The reply of a close names the period that ends now and restarts there. */
  lemma CloseIsThePeriod(s: Ledger, op: Op, now: int)
    requires Step(s, op, now).reply.PeriodClosed?
    ensures var r, t := Step(s, op, now).reply, Step(s, op, now).ledger;
            && r.sub < |s.subscriptions| && r.sub < |t.subscriptions|
            && r.start == s.subscriptions[r.sub].periodStart && r.end == now == t.subscriptions[r.sub].periodStart
            && r.totalUnits == UnitsBetween(s.usage, r.sub, r.start, r.end) && t.usage == s.usage
  {
    CloseIsARenewal(s, op, now);
    hide RenewalTarget, UnitsBetween;
  }

  lemma CloseIsARenewal(s: Ledger, op: Op, now: int)
    requires Step(s, op, now).reply.PeriodClosed?
    ensures op.OpAdvanceRenewal?
  {
    hide CurrentSubscription, EntitledSubscription, PendingCheckout, FindSession;
  }

  /**
   Of two closes of one subscription the later begins no earlier than the first ended: closed periods are disjoint.
   */
  lemma ClosedPeriodsDisjoint(s: Ledger, start: int, events: seq<Event>, i: nat, j: nat)
    requires Inv(s, start) && Clocked(start, events) && i < j < |events|
    requires ReplyAt(s, events, i).PeriodClosed? && ReplyAt(s, events, j).PeriodClosed?
    requires ReplyAt(s, events, i).sub == ReplyAt(s, events, j).sub
    ensures ReplyAt(s, events, i).end <= ReplyAt(s, events, j).start
  {
    hide Step;
    assert events[..i + 1][..i] == events[..i];
    CloseIsThePeriod(After(s, events[..i]), events[i].op, events[i].now);
    CloseIsThePeriod(After(s, events[..j]), events[j].op, events[j].now);
    RunForward(s, start, events, i + 1, j);
    var k := ReplyAt(s, events, i).sub;
    assert RowForward(After(s, events[..i + 1]).subscriptions[k], After(s, events[..j]).subscriptions[k]);
  }

  /** So no usage record is counted by two closes. */
  lemma RecordCountedOnce(s: Ledger, start: int, events: seq<Event>, i: nat, j: nat, r: UsageRecord)
    requires Inv(s, start) && Clocked(start, events) && i < |events| && j < |events|
    requires ReplyAt(s, events, i).PeriodClosed? && ReplyAt(s, events, j).PeriodClosed?
    requires ReplyAt(s, events, i).sub == ReplyAt(s, events, j).sub
    requires ReplyAt(s, events, i).start <= r.occurredAt < ReplyAt(s, events, i).end
    requires ReplyAt(s, events, j).start <= r.occurredAt < ReplyAt(s, events, j).end
    ensures i == j
  {
    hide Step;
    if i < j {
      ClosedPeriodsDisjoint(s, start, events, i, j);
    } else if j < i {
      ClosedPeriodsDisjoint(s, start, events, j, i);
    }
  }

  // ----- billed units against recorded units -----

  function UnitsBefore(usage: seq<UsageRecord>, sub: nat, to: int): nat {
    if usage == [] then 0
    else
      var last := usage[|usage| - 1];
      UnitsBefore(usage[..|usage| - 1], sub, to) + if last.subscription == sub &&
        last.occurredAt < to then last.quantity else 0
  }

  function Recorded(usage: seq<UsageRecord>, sub: nat): nat {
    if usage == [] then 0
    else
      var last := usage[|usage| - 1];
      Recorded(usage[..|usage| - 1], sub) + if last.subscription == sub then last.quantity else 0
  }

  lemma {:induction false} UnitsSplit(usage: seq<UsageRecord>, sub: nat, from: int, to: int)
    requires from <= to
    ensures UnitsBefore(usage, sub, from) + UnitsBetween(usage, sub, from, to) == UnitsBefore(usage, sub, to)
    ensures UnitsBefore(usage, sub, to) <= Recorded(usage, sub)
  {
    if usage != [] {
      UnitsSplit(usage[..|usage| - 1], sub, from, to);
    }
  }

  lemma {:induction false} UnitsGrow(a: seq<UsageRecord>, b: seq<UsageRecord>, sub: nat, from: int, to: int)
    requires a <= b && from <= to
    ensures UnitsBefore(a, sub, from) <= UnitsBefore(b, sub, to)
    decreases |b|
  {
    if |b| > |a| {
      UnitsGrow(a, b[..|b| - 1], sub, from, to);
    } else {
      UnitsSplit(a, sub, from, to);
      assert a == b;
    }
  }

  function Counted(reply: Reply, sub: nat): nat {
    if reply.PeriodClosed? && reply.sub == sub then reply.totalUnits else 0
  }

  /** The units that a run's closes have counted on one subscription. */
  function CountedTotal(s: Ledger, events: seq<Event>, sub: nat): nat {
    if events == [] then 0
    else CountedTotal(s, events[..|events| - 1], sub) + Counted(ReplyAt(s, events, |events| - 1), sub)
  }

  /** The units before a row's current period; all of them, for a row that does not exist yet, are none. */
  function SettledUnits(s: Ledger, sub: nat): nat {
    if sub < |s.subscriptions| then UnitsBefore(s.usage, sub, s.subscriptions[sub].periodStart) else 0
  }

  lemma StepCounts(s: Ledger, op: Op, before: int, now: int, sub: nat)
    requires Inv(s, before) && before <= now
    ensures var o := Step(s, op, now); SettledUnits(s, sub) + Counted(o.reply, sub) <= SettledUnits(o.ledger, sub)
  {
    hide Step, Inv;
    var o := Step(s, op, now);
    StepKeeps(s, op, before, now);
    StepForward(s, op, before, now);
    if o.reply.PeriodClosed? {
      CloseIsThePeriod(s, op, now);
    }
    if sub < |s.subscriptions| {
      var a, b := s.subscriptions[sub], o.ledger.subscriptions[sub];
      assert RowForward(a, b);
      if Counted(o.reply, sub) > 0 {
        UnitsSplit(s.usage, sub, a.periodStart, now);
      } else {
        UnitsGrow(s.usage, o.ledger.usage, sub, a.periodStart, b.periodStart);
      }
    }
  }

  /** Over any run the closes of a subscription count at most what was recorded on it before its current period. */
  lemma {:induction false} NothingCountedTwice(s: Ledger, start: int, events: seq<Event>, sub: nat)
    requires Inv(s, start) && Clocked(start, events)
    ensures CountedTotal(s, events, sub) <= SettledUnits(After(s, events), sub) <= Recorded(After(s, events).usage, sub)
  {
    hide Inv, Step;
    if events != [] {
      var last := |events| - 1;
      ClockedPrefix(start, events, last);
      NothingCountedTwice(s, start, events[..last], sub);
      RunKeeps(s, start, events[..last]);
      StepCounts(After(s, events[..last]), events[last].op, Latest(start, events[..last]), events[last].now, sub);
    }
    var t := After(s, events);
    if sub < |t.subscriptions| {
      UnitsSplit(t.usage, sub, t.subscriptions[sub].periodStart, t.subscriptions[sub].periodStart);
    }
  }

  // ----- open subscriptions and dunning -----

  /**
   In every reachable ledger a customer has at most one open subscription, and an open one has dunning attempts to
   spare.
   */
  lemma OneOpenPerCustomer(s: Ledger, start: int, events: seq<Event>, i: nat, j: nat)
    requires Inv(s, start) && Clocked(start, events)
    requires var rows := After(s, events).subscriptions;
             i < |rows| && j < |rows| && Open(rows[i].status) && Open(rows[j].status) &&
               rows[i].customer == rows[j].customer
    ensures i == j
    ensures After(s, events).subscriptions[i].dunningAttempts < DUNNING_MAX_ATTEMPTS
  {
    RunKeeps(s, start, events);
    assert RowOk(After(s, events).subscriptions[i], |After(s, events).customers|, Latest(start, events));
  }

  ghost predicate OnlyFailures(events: seq<Event>, k: nat) {
    forall i :: 0 <= i < |events| ==> events[i].op == OpAdvanceRenewal(Some(k), None, false)
  }

  /**
   Under failing renewals alone, a row is canceled exactly when its attempts run out - within three - and past due
   until then.
   */
  lemma {:induction false} FailuresCancel(s: Ledger, start: int, events: seq<Event>, k: nat)
    requires Inv(s, start) && OnlyFailures(events, k) && events != []
    requires k < |s.subscriptions| && Entitled(s.subscriptions[k].status)
    ensures var left, rows := DUNNING_MAX_ATTEMPTS - s.subscriptions[k].dunningAttempts, After(s, events).subscriptions;
            && 1 <= left <= DUNNING_MAX_ATTEMPTS && k < |rows|
            && rows[k].status == (if |events| < left then PastDue else Canceled)
            && rows[k].dunningAttempts == s.subscriptions[k].dunningAttempts + Min(|events|, left)
  {
    hide Inv, AdvanceRenewal;
    AttemptsLeft(s, start, k);
    var last := |events| - 1;
    assert events[last].op == OpAdvanceRenewal(Some(k), None, false);
    if last > 0 {
      FailuresCancel(s, start, events[..last], k);
    }
    OneFailure(After(s, events[..last]), k, events[last].now);
  }

  lemma AttemptsLeft(s: Ledger, now: int, k: nat)
    requires Inv(s, now) && k < |s.subscriptions| && Open(s.subscriptions[k].status)
    ensures s.subscriptions[k].dunningAttempts < DUNNING_MAX_ATTEMPTS
  {
    assert RowOk(s.subscriptions[k], |s.customers|, now);
  }

  /** A failing pass counts on an entitled row and leaves any other as it is. */
  lemma OneFailure(s: Ledger, k: nat, now: int)
    requires k < |s.subscriptions|
    ensures var rows := AdvanceRenewal(s, Some(k), None, false, now).ledger.subscriptions;
            && k < |rows|
            && rows[k] == if Entitled(s.subscriptions[k].status) then FailCharge(s.subscriptions[k], now)
                          else s.subscriptions[k]
  {
  }

  // ----- a customer's first periods -----

  lemma FirstActivation(catalog: Catalog, userId: nat, russian: bool, planKey: string, now: int)
      returns (sub: Subscription)
    requires FindPlan(catalog, planKey).Some?
    ensures var t := Activate(Opening(catalog), userId, russian, planKey, Active, now).ledger;
            && t.catalog == catalog && t.subscriptions == [sub] && t.usage == [] && t.balances == map[]
            && sub.customer == 0 && sub.planKey == catalog.plans[FindPlan(catalog, planKey).value].key
            && sub.provider == GeoDefault(CountryOf(russian)) &&
                 sub.mode == catalog.plans[FindPlan(catalog, planKey).value].mode
            && sub.status == Active && sub.periodStart == now && !sub.cancelAtPeriodEnd
  {
    sub := Activate(Opening(catalog), userId, russian, planKey, Active, now).ledger.subscriptions[0];
  }

  lemma MeteredUsage(s: Ledger, sub: Subscription, meterKey: string, quantity: int, key: string, now: int)
    requires s.subscriptions == [sub] && sub.customer == 0 && sub.status == Active && s.usage == [] &&
             s.balances == map[]
    requires 1 <= quantity <= MAX_QUANTITY && exists p :: p in s.catalog.plans && p.meterKey == Some(meterKey)
    ensures RecordUsage(s, 0, meterKey, quantity, None, key, now) ==
            Outcome(s.(usage := [UsageRecord(0, 0, meterKey, quantity, now, key)]), Done)
  {
  }

  lemma OneClose(s: Ledger, sub: Subscription, plan: Plan, total: nat, now: int)
    requires s.subscriptions == [sub] && sub.status == Active && sub.mode == Usage && !sub.cancelAtPeriodEnd &&
             s.balances == map[]
    requires FindPlan(s.catalog, sub.planKey).Some? && s.catalog.plans[FindPlan(s.catalog, sub.planKey).value] == plan
    requires sub.provider in plan.prices && total == UnitsBetween(s.usage, 0, sub.periodStart, now)
    ensures var o, price := AdvanceRenewal(s, Some(0), None, true, now), plan.prices[sub.provider];
            && o.ledger.subscriptions == [Renewed(sub, plan, now)] && o.ledger.usage == s.usage &&
                 o.ledger.balances == map[] && o.ledger.catalog == s.catalog
            && o.reply == PeriodClosed(0, sub.customer, sub.periodStart, now, total, Min(total, price.includedUnits), 0,
                                       Max(0, total - price.includedUnits),
                                         Max(0, total - price.includedUnits) * price.unitPriceMinor)
  {
    hide UnitsBetween, Calendar.NextPeriodEnd;
  }

  function FirstPeriods(userId: nat, russian: bool, planKey: string, meterKey: string, quantity: nat, key: string,
      t0: int, t1: int, t2: int, t3: int): (r: seq<Event>)
    ensures |r| == 4 && (t0 <= t1 < t2 <= t3 ==> Clocked(t0, r))
  {
    [Event(OpActivate(userId, russian, planKey, Active), t0),
      Event(OpRecordUsage(0, meterKey, quantity, None, key), t1),
     Event(OpAdvanceRenewal(Some(0), None, true), t2), Event(OpAdvanceRenewal(Some(0), None, true), t3)]
  }

  /** The ledgers on the way through the first periods. */
  lemma FirstLedgers(catalog: Catalog, plan: Plan, userId: nat, russian: bool, planKey: string, meterKey: string,
      quantity: nat, key: string, t0: int, t1: int, t2: int, t3: int)
      returns (s1: Ledger, s2: Ledger, s3: Ledger)
    requires FindPlan(catalog, planKey).Some? && catalog.plans[FindPlan(catalog, planKey).value] == plan
    requires plan.mode == Usage && plan.meterKey == Some(meterKey) && GeoDefault(CountryOf(russian)) in plan.prices
    requires t0 <= t1 < t2 <= t3 && 1 <= quantity <= MAX_QUANTITY
    ensures s1 == Activate(Opening(catalog), userId, russian, planKey, Active, t0).ledger
    ensures s2 == RecordUsage(s1, 0, meterKey, quantity, None, key, t1).ledger
    ensures s3 == AdvanceRenewal(s2, Some(0), None, true, t2).ledger
    ensures var price := plan.prices[GeoDefault(CountryOf(russian))];
            var charged := Max(0, quantity - price.includedUnits);
            && AdvanceRenewal(s2, Some(0), None, true, t2).reply ==
               PeriodClosed(0, 0, t0, t2, quantity, Min(quantity, price.includedUnits), 0, charged,
                 charged * price.unitPriceMinor)
            && AdvanceRenewal(s3, Some(0), None, true, t3).reply == PeriodClosed(0, 0, t2, t3, 0, 0, 0, 0, 0)
  {
    hide FindPlan, Activate, RecordUsage, AdvanceRenewal, Opening;
    var sub := FirstActivation(catalog, userId, russian, planKey, t0);
    PlanFound(catalog, planKey);
    s1 := Activate(Opening(catalog), userId, russian, planKey, Active, t0).ledger;
    MeteredUsage(s1, sub, meterKey, quantity, key, t1);
    s2 := RecordUsage(s1, 0, meterKey, quantity, None, key, t1).ledger;
    TwoCloses(s2, sub, plan, UsageRecord(0, 0, meterKey, quantity, t1, key), t2, t3);
    s3 := AdvanceRenewal(s2, Some(0), None, true, t2).ledger;
  }

  /**
   From an empty ledger: activate, record, renew, renew again. The first close bills the recorded units, the second
   bills nothing.
   */
  lemma UsageIsBilledOnce(catalog: Catalog, plan: Plan, userId: nat, russian: bool, planKey: string, meterKey: string,
      quantity: nat, key: string, t0: int, t1: int, t2: int, t3: int)
    requires FindPlan(catalog, planKey).Some? && catalog.plans[FindPlan(catalog, planKey).value] == plan
    requires plan.mode == Usage && plan.meterKey == Some(meterKey) && GeoDefault(CountryOf(russian)) in plan.prices
    requires t0 <= t1 < t2 <= t3 && 1 <= quantity <= MAX_QUANTITY
    ensures var price := plan.prices[GeoDefault(CountryOf(russian))];
            var charged := Max(0, quantity - price.includedUnits);
            var events := FirstPeriods(userId, russian, planKey, meterKey, quantity, key, t0, t1, t2, t3);
            && ReplyAt(Opening(catalog), events, 2) ==
               PeriodClosed(0, 0, t0, t2, quantity, Min(quantity, price.includedUnits), 0, charged,
                 charged * price.unitPriceMinor)
            && ReplyAt(Opening(catalog), events, 3) == PeriodClosed(0, 0, t2, t3, 0, 0, 0, 0, 0)
  {
    hide FindPlan, Activate, RecordUsage, AdvanceRenewal, Opening, After, ReplyAt, Clocked;
    var s1, s2, s3 := FirstLedgers(catalog, plan, userId, russian, planKey, meterKey, quantity, key, t0, t1, t2, t3);
    Prefixes(Opening(catalog), FirstPeriods(userId, russian, planKey, meterKey, quantity, key, t0, t1, t2, t3), s1,
      s2, s3);
  }

  lemma PlanFound(catalog: Catalog, planKey: string)
    requires FindPlan(catalog, planKey).Some?
    ensures var k := FindPlan(catalog, planKey).value;
            k < |catalog.plans| && catalog.plans[k] in catalog.plans && catalog.plans[k].key == planKey
  {
  }

  lemma OneRecord(r: UsageRecord, sub: nat, from: int, to: int)
    ensures UnitsBetween([r], sub, from, to) == if r.subscription == sub &&
            from <= r.occurredAt < to then r.quantity else 0
  {
    assert [r][..0] == [];
  }

  lemma TwoCloses(s: Ledger, sub: Subscription, plan: Plan, r: UsageRecord, t2: int, t3: int)
    requires s.subscriptions == [sub] && sub.status == Active && sub.mode == Usage && !sub.cancelAtPeriodEnd &&
             s.balances == map[]
    requires FindPlan(s.catalog, sub.planKey).Some? && s.catalog.plans[FindPlan(s.catalog, sub.planKey).value] == plan
    requires sub.provider in plan.prices && s.usage == [r] && r.subscription == 0 &&
             sub.periodStart <= r.occurredAt < t2
    ensures var o, price := AdvanceRenewal(s, Some(0), None, true, t2), plan.prices[sub.provider];
            var charged := Max(0, r.quantity - price.includedUnits);
            && o.reply == PeriodClosed(0, sub.customer, sub.periodStart, t2, r.quantity,
                 Min(r.quantity, price.includedUnits), 0, charged, charged * price.unitPriceMinor)
            && AdvanceRenewal(o.ledger, Some(0), None, true, t3).reply ==
                 PeriodClosed(0, sub.customer, t2, t3, 0, 0, 0, 0, 0)
  {
    hide FindPlan, AdvanceRenewal, UnitsBetween, Calendar.NextPeriodEnd;
    OneRecord(r, 0, sub.periodStart, t2);
    OneRecord(r, 0, t2, t3);
    OneClose(s, sub, plan, r.quantity, t2);
    OneClose(AdvanceRenewal(s, Some(0), None, true, t2).ledger, Renewed(sub, plan, t2), plan, 0, t3);
  }

  lemma Prefixes(s: Ledger, e: seq<Event>, s1: Ledger, s2: Ledger, s3: Ledger)
    requires |e| == 4 && s1 == Step(s, e[0].op, e[0].now).ledger && s2 == Step(s1, e[1].op, e[1].now).ledger &&
             s3 == Step(s2, e[2].op, e[2].now).ledger
    ensures ReplyAt(s, e, 2) == Step(s2, e[2].op, e[2].now).reply &&
            ReplyAt(s, e, 3) == Step(s3, e[3].op, e[3].now).reply
  {
    hide Step;
    assert After(s, e[..0]) == s;
    assert e[..1][..0] == e[..0] && After(s, e[..1]) == s1;
    assert e[..2][..1] == e[..1] && After(s, e[..2]) == s2;
    assert e[..3][..2] == e[..2] && After(s, e[..3]) == s3;
  }
}
