/** Plan-change proration at whole-day granularity, in exact integers. */
module Proration {
  import opened Core
  import opened Calendar

  datatype Quote = Quote(remainderDays: nat, totalDays: nat, refundMinor: nat, chargeMinor: nat)

  /** `Math.round` of ms / DAY_MS: the floor of the quotient plus a half. */
  function RoundDays(ms: int): int { (2 * ms + DAY_MS) / (2 * DAY_MS) }

  /** `Math.ceil` of ms / DAY_MS. */
  function CeilDays(ms: int): int { -(-ms / DAY_MS) }

  function TotalDays(periodStart: int, periodEnd: int): (n: nat)
    ensures n >= 1
  {
    Max(1, RoundDays(periodEnd - periodStart))
  }

  function RemainderDays(periodStart: int, periodEnd: int, now: int): (n: nat)
    ensures n <= TotalDays(periodStart, periodEnd)
  {
    Min(TotalDays(periodStart, periodEnd), Max(0, CeilDays(periodEnd - now)))
  }

  /** The floor of price x remainder / total. */
  function Share(price: nat, remainder: nat, total: nat): (share: nat)
    requires 1 <= total && remainder <= total
    ensures share * total <= price * remainder < share * total + total
    ensures share <= price
  {
    ShareBounds(price, remainder, total);
    price * remainder / total
  }

  lemma Cancel(a: int, b: int, k: nat)
    requires k >= 1 && a * k < b * k + k
    ensures a <= b
  {
    assert (a - b) * k == a * k - b * k;
    if a > b {
      AtLeastOnce(a - b, k);
    }
  }

  lemma AtLeastOnce(n: int, k: nat)
    requires n >= 1
    ensures n * k >= k
  {
    assert (n - 1) * k >= 0;
  }

  lemma ShareBounds(price: nat, remainder: nat, total: nat)
    requires 1 <= total && remainder <= total
    ensures var share := price * remainder / total;
            0 <= share <= price && share * total <= price * remainder < share * total + total
  {
    var n := price * remainder;
    var share := n / total;
    assert n == share * total + n % total;
    assert n <= price * total;
    Cancel(share, price, total);
    Cancel(0, share, total);
  }

  function QuoteFor(fromMinor: nat, toMinor: nat, periodStart: int, periodEnd: int, now: int): Quote {
    var total := TotalDays(periodStart, periodEnd);
    var remainder := RemainderDays(periodStart, periodEnd, now);
    Quote(remainder, total, Share(fromMinor, remainder, total), Share(toMinor, remainder, total))
  }

  /**
   The two legs stay within the plan prices, and their net is within one minor unit of the exact pro-rata difference.
   */
  lemma NetWithinOneUnit(fromMinor: nat, toMinor: nat, periodStart: int, periodEnd: int, now: int)
    ensures var q := QuoteFor(fromMinor, toMinor, periodStart, periodEnd, now);
            && q.remainderDays <= q.totalDays && q.refundMinor <= fromMinor && q.chargeMinor <= toMinor
            && 0 - q.totalDays
                 < (q.chargeMinor - q.refundMinor) * q.totalDays - (toMinor - fromMinor) * q.remainderDays
                 < q.totalDays
  {
    var q := QuoteFor(fromMinor, toMinor, periodStart, periodEnd, now);
    assert (q.chargeMinor - q.refundMinor) * q.totalDays == q.chargeMinor * q.totalDays - q.refundMinor * q.totalDays;
    assert (toMinor - fromMinor) * q.remainderDays == toMinor * q.remainderDays - fromMinor * q.remainderDays;
  }

  lemma ShareMonotone(price: nat, less: nat, more: nat, total: nat)
    requires 1 <= total && less <= more <= total
    ensures Share(price, less, total) <= Share(price, more, total)
  {
    var a, b := Share(price, less, total), Share(price, more, total);
    assert price * less <= price * more;
    Cancel(a, b, total);
  }

  /** Waiting never makes the refund or the charge grow. */
  lemma QuoteDecreases(fromMinor: nat, toMinor: nat, periodStart: int, periodEnd: int, now: int, later: int)
    requires now <= later
    ensures var q, r := QuoteFor(fromMinor, toMinor, periodStart, periodEnd, now),
            QuoteFor(fromMinor, toMinor, periodStart, periodEnd, later);
            r.remainderDays <= q.remainderDays && r.refundMinor <= q.refundMinor && r.chargeMinor <= q.chargeMinor
  {
    var total := TotalDays(periodStart, periodEnd);
    var less, more := RemainderDays(periodStart, periodEnd, later), RemainderDays(periodStart, periodEnd, now);
    assert CeilDays(periodEnd - later) <= CeilDays(periodEnd - now);
    ShareMonotone(fromMinor, less, more, total);
    ShareMonotone(toMinor, less, more, total);
  }

  lemma WholePeriodShare(price: nat, total: nat)
    requires total >= 1
    ensures Share(price, total, total) == price
    ensures Share(price, 0, total) == 0
  {
    Cancel(price, Share(price, total, total), total);
    Cancel(Share(price, 0, total), 0, total);
  }

  /** A period of whole days moves both full prices if changed at its start, and nothing once it has ended. */
  lemma QuoteAtTheEnds(fromMinor: nat, toMinor: nat, periodStart: int, days: nat, now: int)
    requires days >= 1
    ensures var q := QuoteFor(fromMinor, toMinor, periodStart, periodStart + days * DAY_MS, now);
            && q.totalDays == days
            && (now <= periodStart ==> q.refundMinor == fromMinor && q.chargeMinor == toMinor)
            && (now >= periodStart + days * DAY_MS ==> q.refundMinor == 0 && q.chargeMinor == 0)
  {
    WholePeriodShare(fromMinor, days);
    WholePeriodShare(toMinor, days);
  }
}
