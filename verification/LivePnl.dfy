/** Realized profit of a live trade (the accounting part of services/core_engine/lifecycle.py). */
module LivePnl {
  import opened Common
  import opened Pnl
  import opened LiveExchange

  /** A leg whose exit price the fill event itself reports. */
  datatype LegFill = LegFill(index: nat, price: real)

  function ExitOf(leg: Leg, remainingExit: Option<real>, reported: Option<LegFill>): Option<real> {
    if leg.status == LegFilled then
      Some(if reported.Some? && reported.value.index == leg.index then reported.value.price else leg.target)
    else remainingExit
  }

  /** The legs' profits, each weighted by its quantity over the trade's. */
  function LegsPnl(r: Row, legs: seq<Leg>, remainingExit: Option<real>, reported: Option<LegFill>)
    : Result<real, string>
  {
    if legs == [] then Success(0.0)
    else
      var k := |legs| - 1;
      var pnl :- LegsPnl(r, legs[..k], remainingExit, reported);
      match ExitOf(legs[k], remainingExit, reported)
      case None => Success(pnl)
      case Some(price) =>
        var part :- PnlUsdtForFraction(r.margin, Quotient(legs[k].qty, r.qty), r.side, r.entry, price, r.leverage);
        Success(pnl + part)
  }

  /** The blended result, clamped at minus one margin. */
  function BlendedPnl(r: Row, remainingExit: Option<real>, reported: Option<LegFill>): Result<real, string> {
    if r.qty <= 0.0 then Failure("trade quantity must be positive")
    else
      var legs :- LegsPnl(r, r.legs, remainingExit, reported);
      var pnl :- if r.legs == [] && remainingExit.Some?
                 then PnlUsdtForFraction(r.margin, 1.0, r.side, r.entry, remainingExit.value, r.leverage)
                 else Success(legs);
      Success(Max(pnl, -r.margin))
  }

  /** The accumulating loop of the source. */
  method ComputeBlendedPnl(r: Row, remainingExit: Option<real>, reported: Option<LegFill>)
    returns (result: Result<real, string>)
    ensures result == BlendedPnl(r, remainingExit, reported)
  {
    hide PnlUsdtForFraction;
    if r.qty <= 0.0 {
      return Failure("trade quantity must be positive");
    }
    var pnl := 0.0;
    for k := 0 to |r.legs|
      invariant LegsPnl(r, r.legs[..k], remainingExit, reported) == Success(pnl)
    {
      assert r.legs[..k + 1][..k] == r.legs[..k];
      var price := ExitOf(r.legs[k], remainingExit, reported);
      if price.Some? {
        var part := PnlUsdtForFraction(r.margin, Quotient(r.legs[k].qty, r.qty), r.side, r.entry, price.value,
                                       r.leverage);
        if part.Failure? {
          LegsFailureStays(r, r.legs, k + 1, remainingExit, reported);
          return part;
        }
        pnl := pnl + part.value;
      }
    }
    assert r.legs[..|r.legs|] == r.legs;
    if r.legs == [] && remainingExit.Some? {
      var whole := PnlUsdtForFraction(r.margin, 1.0, r.side, r.entry, remainingExit.value, r.leverage);
      if whole.Failure? {
        return whole;
      }
      pnl := whole.value;
    }
    return Success(Max(pnl, -r.margin));
  }

  lemma {:induction false} LegsFailureStays(r: Row, legs: seq<Leg>, k: nat, remainingExit: Option<real>,
                                            reported: Option<LegFill>)
    requires k <= |legs| && LegsPnl(r, legs[..k], remainingExit, reported).Failure?
    ensures LegsPnl(r, legs, remainingExit, reported) == LegsPnl(r, legs[..k], remainingExit, reported)
  {
    hide PnlUsdtForFraction;
    if k < |legs| {
      assert legs[..|legs| - 1][..k] == legs[..k];
      LegsFailureStays(r, legs[..|legs| - 1], k, remainingExit, reported);
    } else {
      assert legs[..k] == legs;
    }
  }

  lemma {:induction false} LegsPnlSucceeds(r: Row, n: nat, remainingExit: Option<real>, reported: Option<LegFill>)
    requires RowOk(r) && n <= |r.legs|
    ensures LegsPnl(r, r.legs[..n], remainingExit, reported).Success?
  {
    hide PositionPnl;
    if n > 0 {
      LegsPnlSucceeds(r, n - 1, remainingExit, reported);
      assert r.legs[..n][..n - 1] == r.legs[..n - 1];
      FractionIsProper(r, n - 1);
    }
  }

  lemma FractionIsProper(r: Row, i: nat)
    requires RowOk(r) && i < |r.legs|
    ensures 0.0 <= Quotient(r.legs[i].qty, r.qty) <= 1.0
  {
    var q := Quantities(r.legs);
    assert q[i] == r.legs[i].qty;
    SumBlock(q, i, i + 1);
    assert q[i..i + 1] == [q[i]] && [q[i]][..0] == [];
    ProperFraction(q[i], r.qty);
  }

  lemma ProperFraction(a: real, b: real)
    requires 0.0 <= a <= b && b > 0.0
    ensures 0.0 <= a / b <= 1.0
  {
  }

  /** On every stored row the computation succeeds, and never reports more than the margin lost. */
  lemma BlendedPnlSucceeds(r: Row, remainingExit: Option<real>, reported: Option<LegFill>)
    requires RowOk(r)
    ensures BlendedPnl(r, remainingExit, reported).Success?
    ensures BlendedPnl(r, remainingExit, reported).value >= -r.margin
  {
    LegsPnlSucceeds(r, |r.legs|, remainingExit, reported);
    assert r.legs[..|r.legs|] == r.legs;
  }

  // ---------------------------------------------------------------- the result as returns

  /** A leg's part of the return on margin: a filled leg at the reported price, if the event is its
      own, or at its target; any other leg at the remaining exit, if there is one. */
  ghost function LegReturn(r: Row, leg: Leg, remainingExit: Option<real>, reported: Option<LegFill>): real
    requires r.entry > 0.0
  {
    var part := Quotient(leg.qty, r.qty);
    if leg.status == LegFilled && reported.Some? && reported.value.index == leg.index then
      Product(part, Return(r.side, r.entry, reported.value.price, r.leverage))
    else if leg.status == LegFilled then Product(part, Return(r.side, r.entry, leg.target, r.leverage))
    else if remainingExit.Some? then Product(part, Return(r.side, r.entry, remainingExit.value, r.leverage))
    else 0.0
  }

  ghost function LegReturns(r: Row, legs: seq<Leg>, remainingExit: Option<real>, reported: Option<LegFill>)
    : (s: seq<real>)
    requires r.entry > 0.0
    ensures |s| == |legs|
  {
    seq(|legs|, i requires 0 <= i < |legs| => LegReturn(r, legs[i], remainingExit, reported))
  }

  /** The return on margin of the whole trade. */
  ghost function TradeReturn(r: Row, remainingExit: Option<real>, reported: Option<LegFill>): real
    requires r.entry > 0.0
  {
    if r.legs == [] && remainingExit.Some? then Return(r.side, r.entry, remainingExit.value, r.leverage)
    else Sum(LegReturns(r, r.legs, remainingExit, reported))
  }

  lemma LegPnlIsReturn(r: Row, i: nat, price: real)
    requires RowOk(r) && i < |r.legs|
    ensures PnlUsdtForFraction(r.margin, Quotient(r.legs[i].qty, r.qty), r.side, r.entry, price, r.leverage)
            == Success(Product(r.margin, Product(Quotient(r.legs[i].qty, r.qty),
                                                 Return(r.side, r.entry, price, r.leverage))))
  {
    hide Move, PositionPnl, Product, Return, Quotient, Sum, FilledIndices;
    FractionIsProper(r, i);
    PositionPnlIsWeightedReturn(r.margin, Quotient(r.legs[i].qty, r.qty), r.side, r.entry, price, r.leverage);
  }

  lemma {:induction false} LegsPnlIsReturns(r: Row, n: nat, remainingExit: Option<real>, reported: Option<LegFill>)
    requires RowOk(r) && n <= |r.legs|
    ensures LegsPnl(r, r.legs[..n], remainingExit, reported)
            == Success(Product(r.margin, Sum(LegReturns(r, r.legs[..n], remainingExit, reported))))
  {
    hide PnlUsdtForFraction, Product, Sum, Return, Quotient, RowOk;
    RowHasEntry(r);
    if n == 0 {
      EmptySum();
      ProductLaws(r.margin, 0.0, 0.0);
    } else {
      LegsPnlIsReturns(r, n - 1, remainingExit, reported);
      assert r.legs[..n][..n - 1] == r.legs[..n - 1];
      var front := LegReturns(r, r.legs[..n - 1], remainingExit, reported);
      var last := LegReturn(r, r.legs[n - 1], remainingExit, reported);
      assert LegReturns(r, r.legs[..n], remainingExit, reported) == front + [last];
      SumAppend(front, last);
      ProductLaws(r.margin, Sum(front), last);
      var price := ExitOf(r.legs[n - 1], remainingExit, reported);
      if price.Some? {
        LegPnlIsReturn(r, n - 1, price.value);
      }
    }
  }

  lemma RowHasEntry(r: Row)
    requires RowOk(r)
    ensures r.entry > 0.0 && r.margin > 0.0 && r.qty > 0.0 && r.leverage > 0
  {
  }

  /** The blended result is the margin times the trade's return, but never below one margin lost. */
  lemma BlendIsTradeReturn(r: Row, remainingExit: Option<real>, reported: Option<LegFill>)
    requires RowOk(r)
    ensures BlendedPnl(r, remainingExit, reported)
            == Success(Max(Product(r.margin, TradeReturn(r, remainingExit, reported)), -r.margin))
  {
    hide Product, Sum, Return, LegsPnl, RowOk, Move, PositionPnl;
    RowHasEntry(r);
    LegsPnlIsReturns(r, |r.legs|, remainingExit, reported);
    assert r.legs[..|r.legs|] == r.legs;
    if r.legs == [] && remainingExit.Some? {
      PositionPnlIsWeightedReturn(r.margin, 1.0, r.side, r.entry, remainingExit.value, r.leverage);
      ProductLaws(1.0, Return(r.side, r.entry, remainingExit.value, r.leverage), 0.0);
    }
  }
}
