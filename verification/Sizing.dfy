/** Exchange rounding and position fractions (shared/signal/sizing.py and the
    rounding helpers of services/core_engine/risk.py). */
module Sizing {
  import opened Common
  import opened Pnl

  datatype SymbolFilters = SymbolFilters(stepSize: real, tickSize: real, minQty: real, minNotional: real)

  function Times(units: int, step: real): real {
    units as real * step
  }

  /** Largest multiple of the step that is not above the value. */
  function FloorToStep(value: real, step: real): real
    requires step > 0.0
  {
    Times((value / step).Floor, step)
  }

  /** Smallest multiple of the step that is not below the value. */
  function CeilingToStep(value: real, step: real): real
    requires step > 0.0
  {
    -FloorToStep(-value, step)
  }

  /** Prices round down for LONG and up for SHORT, whatever they are for. */
  function RoundPrice(side: Side, price: real, tick: real): real
    requires tick > 0.0
  {
    if side.Long? then FloorToStep(price, tick) else CeilingToStep(price, tick)
  }

  predicate WholeSteps(value: real, step: real)
    requires step > 0.0
  {
    FloorToStep(value, step) == value
  }

  // ---------------------------------------------------------------- rounding facts

  lemma TimesLaws(m: int, n: int, step: real)
    ensures Times(m + n, step) == Times(m, step) + Times(n, step)
    ensures Times(-m, step) == -Times(m, step)
    ensures Times(1, step) == step && Times(0, step) == 0.0
  {
    assert (m + n) as real == m as real + n as real;
    assert (-m) as real == -(m as real);
  }

  lemma TimesKeepsOrder(m: int, n: int, step: real)
    requires step >= 0.0 && m <= n
    ensures Times(m, step) <= Times(n, step)
  {
    ScaleKeepsWeakOrder(m as real, n as real, step);
  }

  lemma Distributes(a: real, b: real, m: real)
    ensures Product(a + b, m) == Product(a, m) + Product(b, m) && Product(1.0, m) == m
    ensures a >= 0.0 && m > 0.0 ==> Product(a, m) >= 0.0
    ensures b > 0.0 && m > 0.0 ==> Product(b, m) > 0.0
  {
  }

  lemma BetweenSteps(k: real, q: real, step: real)
    requires step > 0.0 && k <= q < k + 1.0
    ensures Product(k, step) <= Product(q, step) < Product(k, step) + step
  {
    hide Product;
    Distributes(q - k, k, step);
    Distributes(q, k + 1.0 - q, step);
    Distributes(k, 1.0, step);
  }

  lemma FloorBounds(value: real, step: real)
    requires step > 0.0
    ensures FloorToStep(value, step) <= value < FloorToStep(value, step) + step
  {
    var q := value / step;
    BetweenSteps(q.Floor as real, q, step);
    QuotientTimesDivisor(value, step);
    assert FloorToStep(value, step) == Product(q.Floor as real, step);
  }

  lemma QuotientTimesDivisor(value: real, step: real)
    requires step > 0.0
    ensures Product(value / step, step) == value
  {
  }

  lemma MultipleIsWhole(k: int, step: real)
    requires step > 0.0
    ensures WholeSteps(Times(k, step), step)
  {
    ScaleBound(k as real, step);
    assert Times(k, step) / step == k as real;
  }

  lemma FloorIsWhole(value: real, step: real)
    requires step > 0.0
    ensures WholeSteps(FloorToStep(value, step), step)
  {
    MultipleIsWhole((value / step).Floor, step);
  }

  lemma WholeStepsAdd(a: real, b: real, step: real)
    requires step > 0.0 && WholeSteps(a, step) && WholeSteps(b, step)
    ensures WholeSteps(a + b, step) && WholeSteps(a - b, step)
  {
    var m, n := (a / step).Floor, (b / step).Floor;
    TimesLaws(m, n, step);
    TimesLaws(n, 0, step);
    TimesLaws(m, -n, step);
    MultipleIsWhole(m + n, step);
    MultipleIsWhole(m + -n, step);
  }

  lemma {:induction false} WholeStepsSum(s: seq<real>, step: real)
    requires step > 0.0 && forall i :: 0 <= i < |s| ==> WholeSteps(s[i], step)
    ensures WholeSteps(Sum(s), step)
  {
    if s == [] {
      MultipleIsWhole(0, step);
      TimesLaws(0, 0, step);
    } else {
      WholeStepsSum(s[..|s| - 1], step);
      WholeStepsAdd(Sum(s[..|s| - 1]), s[|s| - 1], step);
    }
  }

  lemma ScaleKeepsWeakOrder(x: real, y: real, d: real)
    requires d >= 0.0 && x <= y
    ensures x * d <= y * d
  {
    assert (y - x) * d >= 0.0;
  }

  lemma FloorKeepsOrder(a: real, b: real, step: real)
    requires step > 0.0 && a <= b
    ensures FloorToStep(a, step) <= FloorToStep(b, step)
  {
    DivideKeepsOrder(b, a, step);
    TimesKeepsOrder((a / step).Floor, (b / step).Floor, step);
  }

  lemma FloorOfNonNegative(value: real, step: real)
    requires step > 0.0 && value >= 0.0
    ensures FloorToStep(value, step) >= 0.0
  {
    FloorKeepsOrder(0.0, value, step);
    MultipleIsWhole(0, step);
    TimesLaws(0, 0, step);
  }

  lemma RoundPriceKeepsOrder(side: Side, a: real, b: real, tick: real)
    requires tick > 0.0 && a <= b
    ensures RoundPrice(side, a, tick) <= RoundPrice(side, b, tick)
  {
    FloorKeepsOrder(a, b, tick);
    FloorKeepsOrder(-b, -a, tick);
  }

  /** Rounding moves a LONG price down and a SHORT price up, by less than one tick:
      never to a tighter stop, and never past a positive price to below zero. */
  lemma RoundPriceBounds(side: Side, price: real, tick: real)
    requires tick > 0.0
    ensures var r := RoundPrice(side, price, tick);
            && (side.Long? ==> r <= price < r + tick)
            && (side.Short? ==> r - tick < price <= r)
            && WholeSteps(r, tick)
            && (price > 0.0 ==> r >= 0.0 && (side.Short? ==> r > 0.0))
  {
    FloorBounds(price, tick);
    FloorBounds(-price, tick);
    FloorIsWhole(price, tick);
    FloorIsWhole(-price, tick);
    MultipleIsWhole(0, tick);
    TimesLaws(0, 0, tick);
    WholeStepsAdd(0.0, FloorToStep(-price, tick), tick);
    if price > 0.0 {
      FloorOfNonNegative(price, tick);
    }
  }

  // ---------------------------------------------------------------- fractions

  function EqualFractions(count: int): Result<seq<real>, string> {
    if count <= 0 then
      Failure("count must be positive")
    else
      var fraction := 1.0 / count as real;
      Success(seq(count - 1, _ => fraction) + [1.0 - fraction * (count - 1) as real])
  }

  function Model2Fractions(count: int, weights: seq<real>): Result<seq<real>, string> {
    if count <= 0 then
      Failure("count must be positive")
    else if count > |weights| then
      Failure("not enough model-2 weights for target count")
    else if exists i :: 0 <= i < count && weights[i] <= 0.0 then
      Failure("model-2 weights must be positive")
    else
      var total := Sum(weights[..count]);
      var normalized := Normalized(weights[..count - 1], total);
      Success(normalized + [1.0 - Sum(normalized)])
  }

  function Normalized(weights: seq<real>, total: real): (r: seq<real>)
    ensures |r| == |weights|
  {
    seq(|weights|, i requires 0 <= i < |weights| => if total == 0.0 then 0.0 else weights[i] / total)
  }

  /** A partition of the position over `count` targets. */
  ghost predicate PartitionsPosition(fractions: seq<real>, count: int) {
    && |fractions| == count > 0
    && (forall i :: 0 <= i < count ==> 0.0 < fractions[i] <= 1.0)
    && Sum(fractions) == 1.0
  }

  lemma {:induction false} SumOfEqual(n: nat, x: real)
    ensures Sum(seq(n, _ => x)) == n as real * x
  {
    if n > 0 {
      SumOfEqual(n - 1, x);
      assert seq(n, _ => x)[..n - 1] == seq(n - 1, _ => x);
    }
  }

  lemma RestOfEqualParts(count: int, fraction: real)
    requires count > 0 && fraction == 1.0 / count as real
    ensures 0.0 < fraction <= 1.0
    ensures 1.0 - fraction * (count - 1) as real == fraction
    ensures (count - 1) as real * fraction + fraction == 1.0
  {
    var n := count as real;
    assert (count - 1) as real == n - 1.0;
    assert fraction * n == 1.0;
    assert (n - 1.0) * fraction == n * fraction - fraction;
  }

  lemma EqualFractionsPartition(count: int)
    requires count > 0
    ensures EqualFractions(count).Success?
    ensures PartitionsPosition(EqualFractions(count).value, count)
    ensures forall i :: 0 <= i < count ==> EqualFractions(count).value[i] == 1.0 / count as real
  {
    var fraction := 1.0 / count as real;
    var front: seq<real> := seq(count - 1, _ => fraction);
    var f := EqualFractions(count).value;
    assert 0.0 < fraction <= 1.0 && f[count - 1] == fraction by { RestOfEqualParts(count, fraction); }
    assert f[..count - 1] == front;
    assert f == front + [fraction];
    assert Sum(f) == 1.0 by {
      RestOfEqualParts(count, fraction);
      SumOfEqual(count - 1, fraction);
      SumAppend(front, fraction);
    }
  }

  lemma {:induction false} SumOfNormalized(weights: seq<real>, total: real)
    requires total > 0.0 && forall i :: 0 <= i < |weights| ==> weights[i] > 0.0
    ensures Sum(Normalized(weights, total)) == Sum(weights) / total
    ensures Sum(weights) >= 0.0
  {
    if weights != [] {
      var front := weights[..|weights| - 1];
      SumOfNormalized(front, total);
      assert Normalized(weights, total)[..|weights| - 1] == Normalized(front, total);
      assert Sum(weights) / total == Sum(front) / total + weights[|weights| - 1] / total;
    }
  }

  /** The truncated weights, renormalized, keep the ratios of the configured weights. */
  lemma Model2FractionsPartition(count: int, weights: seq<real>)
    requires Model2Fractions(count, weights).Success?
    ensures PartitionsPosition(Model2Fractions(count, weights).value, count)
    ensures Sum(weights[..count]) > 0.0
    ensures forall i :: 0 <= i < count ==>
              Model2Fractions(count, weights).value[i] == weights[i] / Sum(weights[..count])
  {
    var selected := weights[..count];
    var total := Sum(selected);
    var front := weights[..count - 1];
    var last := weights[count - 1];
    SumNonNegative(front);
    assert selected[..count - 1] == front;
    assert total == Sum(front) + last;
    SumOfNormalized(front, total);
    var normalized := Normalized(front, total);
    var f := Model2Fractions(count, weights).value;
    SumAppend(normalized, 1.0 - Sum(normalized));
    ShareOfTotal(Sum(front), last, total);
    forall i | 0 <= i < count
      ensures f[i] == weights[i] / total && 0.0 < f[i] <= 1.0
    {
      if i < count - 1 {
        SumBlock(front, i, i + 1);
        assert front[i..i + 1] == [weights[i]] && Sum([weights[i]]) == weights[i] by {
          assert [weights[i]][..0] == [];
        }
      }
      QuotientOfPositives(weights[i], total);
    }
  }

  lemma ShareOfTotal(a: real, b: real, total: real)
    requires total > 0.0 && total == a + b
    ensures 1.0 - a / total == b / total
  {
    assert a / total + b / total == (a + b) / total;
  }

  lemma QuotientOfPositives(a: real, b: real)
    requires 0.0 < a <= b
    ensures 0.0 < a / b <= 1.0
  {
  }
}
