/** Profit, loss and liquidation arithmetic (shared/signal/pnl.py).
    A Failure carries the message of the source's ValueError. */
module Pnl {
  import opened Common

  /** Signed move of a price as a fraction of the entry, once the entry is known to be positive. */
  function Move(side: Side, entry: real, price: real): real
    requires entry > 0.0
  {
    if side.Long? then (price - entry) / entry else (entry - price) / entry
  }

  /** Return on margin, as a fraction: the move times the leverage. */
  function Return(side: Side, entry: real, price: real, leverage: int): real
    requires entry > 0.0
  {
    Move(side, entry, price) * leverage as real
  }

  function SignedMoveFraction(side: Side, entry: real, price: real): Result<real, string> {
    if entry <= 0.0 then Failure("entry must be positive") else Success(Move(side, entry, price))
  }

  function PnlUsdtForFraction(margin: real, fraction: real, side: Side, entry: real, price: real,
                              leverage: int): Result<real, string>
  {
    if margin < 0.0 then
      Failure("margin_usdt must not be negative")
    else if !(0.0 <= fraction <= 1.0) then
      Failure("position_fraction must be between zero and one")
    else if leverage <= 0 then
      Failure("leverage must be positive")
    else
      var move :- SignedMoveFraction(side, entry, price);
      Success(PositionPnl(margin, fraction, move, leverage))
  }

  function PositionPnl(margin: real, fraction: real, move: real, leverage: int): real {
    margin * fraction * move * leverage as real
  }

  /** The profit of a share of the position is the margin times the weighted return. */
  lemma PositionPnlIsWeightedReturn(margin: real, fraction: real, side: Side, entry: real, price: real, leverage: int)
    requires entry > 0.0
    ensures PositionPnl(margin, fraction, Move(side, entry, price), leverage)
            == Product(margin, Product(fraction, Return(side, entry, price, leverage)))
  {
    hide Move;
    Reassociate(margin, fraction, Move(side, entry, price), leverage as real);
  }

  lemma Reassociate(a: real, b: real, c: real, d: real)
    ensures a * b * c * d == Product(a, Product(b, c * d))
  {
    var r := c * d;
    assert a * b * r == a * (b * r);
    assert a * b * c * d == a * b * r;
  }

  function LiquidationPrice(side: Side, entry: real, leverage: int, maintenanceRate: real): real
    requires leverage > 0
  {
    var move := 1.0 / leverage as real - maintenanceRate;
    if side.Long? then entry * (1.0 - move) else entry * (1.0 + move)
  }

  function ApproximateLiquidationPrice(side: Side, entry: real, leverage: int, maintenanceRate: real)
    : Result<real, string>
  {
    if entry <= 0.0 then
      Failure("entry must be positive")
    else if leverage <= 0 then
      Failure("leverage must be positive")
    else if maintenanceRate < 0.0 then
      Failure("maintenance_margin_rate must not be negative")
    else
      Success(LiquidationPrice(side, entry, leverage, maintenanceRate))
  }

  function LiquidationHappensBeforeStop(side: Side, entry: real, stopLoss: real, leverage: int,
                                        maintenanceRate: real): Result<bool, string>
  {
    var liquidation :- ApproximateLiquidationPrice(side, entry, leverage, maintenanceRate);
    Success(if side.Long? then stopLoss < liquidation else stopLoss > liquidation)
  }

  /** a is strictly worse for the position than b. */
  predicate Worse(side: Side, a: real, b: real) {
    if side.Long? then a < b else a > b
  }

  // ---------------------------------------------------------------- arithmetic

  lemma DivideKeepsOrder(a: real, b: real, d: real)
    requires d > 0.0
    ensures a < b <==> a / d < b / d
  {
    var x, y := a / d, b / d;
    assert a == x * d && b == y * d;
    if x < y {
      MultiplyKeepsOrder(x, y, d);
    } else if y < x {
      MultiplyKeepsOrder(y, x, d);
    }
  }

  lemma MultiplyKeepsOrder(x: real, y: real, d: real)
    requires d > 0.0 && x < y
    ensures x * d < y * d
  {
    assert (y - x) * d > 0.0;
  }

  lemma ScaleBound(k: real, d: real)
    requires d != 0.0
    ensures k * d / d == k
  {
  }

  lemma WorsePriceMeansWorseMove(side: Side, entry: real, a: real, b: real)
    requires entry > 0.0
    ensures Worse(side, a, b) <==> Move(side, entry, a) < Move(side, entry, b)
  {
    if side.Long? {
      DivideKeepsOrder(a - entry, b - entry, entry);
    } else {
      DivideKeepsOrder(entry - a, entry - b, entry);
    }
  }

  lemma WorsePriceMeansWorseReturn(side: Side, entry: real, a: real, b: real, leverage: int)
    requires entry > 0.0 && leverage > 0
    ensures Worse(side, a, b) <==> Return(side, entry, a, leverage) < Return(side, entry, b, leverage)
  {
    WorsePriceMeansWorseMove(side, entry, a, b);
    ProductKeepsOrder(Move(side, entry, a), Move(side, entry, b), leverage as real);
  }

  lemma ProductKeepsOrder(x: real, y: real, d: real)
    requires d > 0.0
    ensures x < y <==> x * d < y * d
  {
    if x < y {
      MultiplyKeepsOrder(x, y, d);
    } else if y < x {
      MultiplyKeepsOrder(y, x, d);
    }
  }

  lemma NoMoveAtEntry(side: Side, entry: real, leverage: int)
    requires entry > 0.0
    ensures Return(side, entry, entry, leverage) == 0.0
  {
    assert Move(side, entry, entry) == 0.0;
  }

  /** At the liquidation price the position has lost its margin less the maintenance part. */
  lemma ReturnAtLiquidation(side: Side, entry: real, leverage: int, maintenanceRate: real)
    requires entry > 0.0 && leverage > 0
    ensures var liquidation := LiquidationPrice(side, entry, leverage, maintenanceRate);
            Return(side, entry, liquidation, leverage) == maintenanceRate * leverage as real - 1.0
  {
    var l := leverage as real;
    var move := 1.0 / l - maintenanceRate;
    var liquidation := LiquidationPrice(side, entry, leverage, maintenanceRate);
    assert Move(side, entry, liquidation) == -move by {
      if side.Long? {
        assert liquidation - entry == -move * entry;
      } else {
        assert entry - liquidation == -move * entry;
      }
      ScaleBound(-move, entry);
    }
    assert (1.0 / l) * l == 1.0;
    assert -move * l == maintenanceRate * l - 1.0;
  }

  /** Liquidation comes before the stop exactly when the stop's loss exceeds the whole margin
      less the maintenance part: the rule the design states as "SL move times leverage over 100%". */
  lemma LiquidationBeforeStopIffLossExceedsMargin(side: Side, entry: real, stopLoss: real, leverage: int,
                                                  maintenanceRate: real)
    requires entry > 0.0 && leverage > 0 && maintenanceRate >= 0.0
    ensures var before := LiquidationHappensBeforeStop(side, entry, stopLoss, leverage, maintenanceRate);
            && before.Success?
            && (before.value <==>
                Return(side, entry, stopLoss, leverage) < maintenanceRate * leverage as real - 1.0)
  {
    ReturnAtLiquidation(side, entry, leverage, maintenanceRate);
    WorsePriceMeansWorseReturn(side, entry, stopLoss,
                               LiquidationPrice(side, entry, leverage, maintenanceRate), leverage);
  }

  /** A price that liquidation has not passed loses strictly less than one margin. */
  lemma SafePriceLosesLessThanMargin(side: Side, entry: real, price: real, leverage: int, maintenanceRate: real)
    requires entry > 0.0 && leverage > 0 && maintenanceRate >= 0.0
    requires Worse(side, LiquidationPrice(side, entry, leverage, maintenanceRate), price)
    ensures Return(side, entry, price, leverage) > -1.0
  {
    ReturnAtLiquidation(side, entry, leverage, maintenanceRate);
    WorsePriceMeansWorseReturn(side, entry, LiquidationPrice(side, entry, leverage, maintenanceRate),
                               price, leverage);
    assert maintenanceRate * leverage as real >= 0.0;
  }
}
