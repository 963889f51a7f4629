/** Pricing a span of ticks: hours rounded to a hundredth, then the total to a cent, both half to even. */
module LineItem {

  /** `n / d` rounded to the nearest integer, a tie to the even one. */
  function RoundHalfEven(n: int, d: int): int
    requires d > 0
  {
    var q, r := n / d, n % d;
    if 2 * r < d || (2 * r == d && q % 2 == 0) then q else q + 1
  }

  /** That is what it is: no integer is nearer, and of two equally near it is the even one. */
  lemma RoundHalfEvenIsNearest(n: int, d: int, q: int)
    requires d > 0
    ensures q == RoundHalfEven(n, d) <==>
            -d <= 2 * (n - q * d) <= d && (2 * (n - q * d) == d || 2 * (n - q * d) == -d ==> q % 2 == 0)
  {
    var f, r := n / d, n % d;
    assert n == f * d + r;
    Shift(f, q, d);
    if q == f + 1 {
      assert (f + 1) * d == f * d + d;
    } else if q != f {
      FarFromFloor(f, q, d, n);
    }
  }

  lemma Shift(f: int, q: int, d: int)
    ensures q * d == f * d + (q - f) * d
  {
  }

  lemma FarFromFloor(f: int, q: int, d: int, n: int)
    requires d > 0 && f * d <= n < f * d + d && (q < f || q > f + 1)
    ensures !(-d <= 2 * (n - q * d) <= d)
  {
    Shift(f, q, d);
    if q > f + 1 { MulAtLeast(q - f, 2, d); } else { MulAtLeast(f - q, 1, d); assert (q - f) * d == -((f - q) * d); }
  }

  lemma MulAtLeast(a: int, b: int, d: int)
    requires a >= b && d > 0
    ensures a * d >= b * d
  {
  }

  datatype BillingMode = NotBillable | Hourly | MonthlyFixed

  datatype Item = Item(hoursTimes100: int, unitCents: int, totalCents: int)

  function ComputeLineItem(mode: BillingMode, ticks: nat, tickSec: nat, rateCents: int): Item {
    match mode
    case MonthlyFixed => Item(100, rateCents, rateCents)
    case Hourly =>
      var h := RoundHalfEven(ticks * tickSec * 100, 3600);
      Item(h, rateCents, RoundHalfEven(h * rateCents, 100))
    case NotBillable => Item(0, 0, 0)
  }

  lemma RoundHalfEvenError(n: int, d: int)
    requires d > 0
    ensures -d <= 2 * (RoundHalfEven(n, d) * d - n) <= d
  {
  }

  lemma RoundHalfEvenMonotone(m: int, n: int, d: int)
    requires d > 0 && m <= n
    ensures RoundHalfEven(m, d) <= RoundHalfEven(n, d)
  {
    var a, b := RoundHalfEven(m, d), RoundHalfEven(n, d);
    RoundHalfEvenIsNearest(m, d, a);
    RoundHalfEvenIsNearest(n, d, b);
    if a > b {
      Shift(b, a, d);
      MulAtLeast(a - b, 1, d);
    }
  }

  lemma MulUpTo(x: int, r: int, bound: int)
    requires r >= 0 && -bound <= x <= bound
    ensures -bound * r <= x * r <= bound * r
  {
  }

  lemma MulMonotone(a: int, b: int, r: int)
    requires a <= b && r >= 0
    ensures a * r <= b * r
  {
  }

  /** The two roundings together are off by at most half a hundredth of an hour at the rate,
      and half a cent. */
  lemma TotalIsClose(ticks: nat, tickSec: nat, rateCents: nat)
    ensures var s, total := ticks * tickSec, ComputeLineItem(Hourly, ticks, tickSec, rateCents).totalCents;
            -(18 * rateCents + 1800) <= 3600 * total - s * rateCents <= 18 * rateCents + 1800
  {
    var s := ticks * tickSec;
    var h := RoundHalfEven(s * 100, 3600);
    var total := RoundHalfEven(h * rateCents, 100);
    RoundHalfEvenError(s * 100, 3600);
    RoundHalfEvenError(h * rateCents, 100);
    MulUpTo(36 * h - s, rateCents, 18);
    assert (36 * h - s) * rateCents == 36 * (h * rateCents) - s * rateCents;
  }

  /** The line reads right: its hours are the ticks' to half a hundredth, its unit the rate, and its total
      hours times unit to half a cent. */
  lemma LineAddsUp(mode: BillingMode, ticks: nat, tickSec: nat, rateCents: int)
    requires !mode.NotBillable?
    ensures var item := ComputeLineItem(mode, ticks, tickSec, rateCents);
            && item.unitCents == rateCents
            && -50 <= 100 * item.totalCents - item.hoursTimes100 * item.unitCents <= 50
            && (if mode.Hourly? then -18 <= 36 * item.hoursTimes100 - ticks * tickSec <= 18
                else item.hoursTimes100 == 100 && item.totalCents == rateCents)
  {
    if mode.Hourly? {
      var h := RoundHalfEven(ticks * tickSec * 100, 3600);
      RoundHalfEvenError(ticks * tickSec * 100, 3600);
      RoundHalfEvenError(h * rateCents, 100);
    }
  }

  lemma MulNonNegative(a: int, b: int)
    requires a >= 0 && b >= 0
    ensures a * b >= 0
  {
  }

  /** More ticks, or a higher rate, never make the total smaller. */
  lemma TotalIsMonotone(ticks: nat, moreTicks: nat, tickSec: nat, rate: nat, higherRate: nat)
    requires ticks <= moreTicks && rate <= higherRate
    ensures 0 <= ComputeLineItem(Hourly, ticks, tickSec, rate).totalCents
              <= ComputeLineItem(Hourly, moreTicks, tickSec, higherRate).totalCents
  {
    MulMonotone(ticks, moreTicks, tickSec);
    var h, h' := RoundHalfEven(ticks * tickSec * 100, 3600), RoundHalfEven(moreTicks * tickSec * 100, 3600);
    MulNonNegative(ticks, tickSec);
    RoundHalfEvenMonotone(0, ticks * tickSec * 100, 3600);
    RoundHalfEvenMonotone(ticks * tickSec * 100, moreTicks * tickSec * 100, 3600);
    MulNonNegative(h, rate);
    MulMonotone(h, h', rate);
    MulMonotone(rate, higherRate, h');
    RoundHalfEvenMonotone(0, h * rate, 100);
    RoundHalfEvenMonotone(h * rate, h' * higherRate, 100);
  }
}
