/** One virtual trade driven by mark prices: opening plan, one price tick, and the stateless
    reading of a price history that the stored state is proved to follow
    (services/demo_engine/trade_logic.py and the tick of services/demo_engine/engine.py). */
module DemoTrade {
  import opened Common
  import opened Pnl
  import opened Sizing

  datatype LegPlan = LegPlan(index: nat, target: real, fraction: real, qty: real)

  datatype OpenPlan = OpenPlan(margin: real, notional: real, qty: real, liqPrice: real, legs: seq<LegPlan>)

  datatype Reason = Liquidation | Model3Exit | AllTp | BreakEven | StopLoss

  datatype Decision =
    | Hold(touched: set<nat>, filled: set<nat>)
    | CloseOut(reason: Reason, exitPrice: real, roi: real, pnl: real, touched: set<nat>, filled: set<nat>)

  // ---------------------------------------------------------------- crossings

  predicate CrossesTakeProfit(side: Side, price: real, target: real) {
    if side.Long? then price >= target else price <= target
  }

  predicate CrossesStop(side: Side, price: real, stop: real) {
    if side.Long? then price <= stop else price >= stop
  }

  predicate CrossesLiquidation(side: Side, price: real, liqPrice: real) {
    if side.Long? then price <= liqPrice else price >= liqPrice
  }

  function CurrentStop(stopLoss: real, entry: real, touched: set<nat>, moveToBreakEven: bool): real {
    if moveToBreakEven && 1 in touched then entry else stopLoss
  }

  function Model3Threshold(side: Side, entry: real, leverage: int, roiPct: real): real
    requires leverage > 0
  {
    var move := roiPct / (100.0 * leverage as real);
    entry * (if side.Long? then 1.0 + move else 1.0 - move)
  }

  function Model3ExitPrice(side: Side, entry: real, leverage: int, roiPct: real): Result<real, string> {
    if entry <= 0.0 then Failure("entry must be positive")
    else if leverage <= 0 then Failure("leverage must be positive")
    else if roiPct <= 0.0 then Failure("model3_exit_roi_pct must be positive")
    else Success(Model3Threshold(side, entry, leverage, roiPct))
  }

  // ---------------------------------------------------------------- opening plan

  function BuildDemoOpenPlan(side: Side, entry: real, stopLoss: real, leverage: int, targets: seq<real>,
                             margin: real, riskModel: int, roiPct: real, weights: seq<real>,
                             maintenanceRate: real): Result<OpenPlan, string>
  {
    if entry <= 0.0 then Failure("entry must be positive")
    else if stopLoss <= 0.0 then Failure("stop_loss must be positive")
    else if leverage <= 0 then Failure("leverage must be positive")
    else if margin <= 0.0 then Failure("margin_usdt must be positive")
    else if riskModel !in {1, 2, 3} then Failure("risk_model must be 1, 2, or 3")
    else if riskModel in {1, 2} && targets == [] then Failure("risk models 1 and 2 require at least one target")
    else
      var notional := margin * leverage as real;
      var qty := notional / entry;
      var fractions :- (
        if riskModel == 1 then EqualFractions(|targets|)
        else if riskModel == 2 then Model2Fractions(|targets|, weights)
        else
          var _ :- Model3ExitPrice(side, entry, leverage, roiPct);
          Success([]));
      var liqPrice :- ApproximateLiquidationPrice(side, entry, leverage, maintenanceRate);
      Success(OpenPlan(margin, notional, qty, liqPrice, PlannedLegs(targets, fractions, qty)))
  }

  /** One leg for each fraction; model 3 has no fractions and so no legs. */
  function PlannedLegs(targets: seq<real>, fractions: seq<real>, qty: real): (legs: seq<LegPlan>)
    ensures |legs| == if |targets| < |fractions| then |targets| else |fractions|
  {
    seq(if |targets| < |fractions| then |targets| else |fractions|,
        i requires 0 <= i < |targets| && i < |fractions| =>
          LegPlan(i + 1, targets[i], fractions[i], Product(qty, fractions[i])))
  }

  // ---------------------------------------------------------------- blended result

  /** Where a leg exits: its target if touched, else the remaining exit price if there is one. */
  function ExitOf(leg: LegPlan, touched: set<nat>, remainingExit: Option<real>): Option<real> {
    if leg.index in touched then Some(leg.target) else remainingExit
  }

  function BlendedPnl(legs: seq<LegPlan>, touched: set<nat>, remainingExit: Option<real>, margin: real,
                      side: Side, entry: real, leverage: int): Result<real, string>
  {
    if legs == [] then Success(0.0)
    else
      var pnl :- BlendedPnl(legs[..|legs| - 1], touched, remainingExit, margin, side, entry, leverage);
      var leg := legs[|legs| - 1];
      match ExitOf(leg, touched, remainingExit)
      case None => Success(pnl)
      case Some(price) =>
        var part :- PnlUsdtForFraction(margin, leg.fraction, side, entry, price, leverage);
        Success(pnl + part)
  }

  /** The accumulating loop of the source. */
  method ComputeBlendedPnl(legs: seq<LegPlan>, touched: set<nat>, remainingExit: Option<real>, margin: real,
                           side: Side, entry: real, leverage: int) returns (r: Result<real, string>)
    ensures r == BlendedPnl(legs, touched, remainingExit, margin, side, entry, leverage)
  {
    var pnl := 0.0;
    for k := 0 to |legs|
      invariant BlendedPnl(legs[..k], touched, remainingExit, margin, side, entry, leverage) == Success(pnl)
    {
      assert legs[..k + 1][..k] == legs[..k];
      var price := ExitOf(legs[k], touched, remainingExit);
      if price.Some? {
        var part := PnlUsdtForFraction(margin, legs[k].fraction, side, entry, price.value, leverage);
        if part.Failure? {
          BlendedFailureStays(legs, k + 1, touched, remainingExit, margin, side, entry, leverage);
          return part;
        }
        pnl := pnl + part.value;
      }
    }
    assert legs[..|legs|] == legs;
    return Success(pnl);
  }

  lemma {:induction false} BlendedFailureStays(legs: seq<LegPlan>, k: nat, touched: set<nat>,
                                               remainingExit: Option<real>, margin: real, side: Side,
                                               entry: real, leverage: int)
    requires k <= |legs|
    requires BlendedPnl(legs[..k], touched, remainingExit, margin, side, entry, leverage).Failure?
    ensures BlendedPnl(legs, touched, remainingExit, margin, side, entry, leverage)
            == BlendedPnl(legs[..k], touched, remainingExit, margin, side, entry, leverage)
  {
    if k < |legs| {
      assert legs[..|legs| - 1][..k] == legs[..k];
      BlendedFailureStays(legs[..|legs| - 1], k, touched, remainingExit, margin, side, entry, leverage);
    } else {
      assert legs[..k] == legs;
    }
  }

  // ---------------------------------------------------------------- one price tick

  function ClosedDecision(reason: Reason, exitPrice: real, pnl: real, margin: real, touched: set<nat>,
                          filled: set<nat>): Decision
    requires margin > 0.0
  {
    CloseOut(reason, exitPrice, pnl / margin * 100.0, pnl, touched, filled)
  }

  function StopReason(activeStop: real, entry: real): Reason {
    if activeStop == entry then BreakEven else StopLoss
  }

  function NewlyFilled(legs: seq<LegPlan>, known: set<nat>, side: Side, price: real): set<nat> {
    set leg | leg in legs && leg.index !in known && CrossesTakeProfit(side, price, leg.target) :: leg.index
  }

  function EvaluatePriceTick(side: Side, entry: real, stopLoss: real, leverage: int, margin: real, liqPrice: real,
                             price: real, riskModel: int, roiPct: real, moveToBreakEven: bool,
                             legs: seq<LegPlan>, known: set<nat>, maintenanceRate: real): Result<Decision, string>
  {
    if maintenanceRate < 0.0 then Failure("maintenance_margin_rate must not be negative")
    else if margin <= 0.0 then Failure("margin_usdt must be positive")
    else if riskModel !in {1, 2, 3} then Failure("risk_model must be 1, 2, or 3")
    else if CrossesLiquidation(side, price, liqPrice) then
      Success(CloseOut(Liquidation, liqPrice, -100.0, -margin, known, {}))
    else if riskModel == 3 then
      var threshold :- Model3ExitPrice(side, entry, leverage, roiPct);
      var activeStop := CurrentStop(stopLoss, entry, known, moveToBreakEven);
      if CrossesTakeProfit(side, price, threshold) then
        var pnl :- PnlUsdtForFraction(margin, 1.0, side, entry, threshold, leverage);
        Success(ClosedDecision(Model3Exit, threshold, pnl, margin, known, {}))
      else if CrossesStop(side, price, activeStop) then
        var pnl :- PnlUsdtForFraction(margin, 1.0, side, entry, activeStop, leverage);
        Success(ClosedDecision(StopReason(activeStop, entry), activeStop, pnl, margin, known, {}))
      else
        Success(Hold(known, {}))
    else
      var filled := NewlyFilled(legs, known, side, price);
      var updated := known + filled;
      var activeStop := CurrentStop(stopLoss, entry, updated, moveToBreakEven);
      if legs != [] && forall leg | leg in legs :: leg.index in updated then
        var pnl :- BlendedPnl(legs, updated, None, margin, side, entry, leverage);
        Success(ClosedDecision(AllTp, price, pnl, margin, updated, filled))
      else if CrossesStop(side, price, activeStop) then
        var pnl :- BlendedPnl(legs, updated, Some(activeStop), margin, side, entry, leverage);
        Success(ClosedDecision(StopReason(activeStop, entry), activeStop, pnl, margin, updated, filled))
      else
        Success(Hold(updated, filled))
  }

  // ---------------------------------------------------------------- stored trade

  datatype LegStatus = LegOpen | LegFilled | LegCancelled

  datatype Leg = Leg(index: nat, target: real, qty: real, status: LegStatus)

  datatype Closing = Closing(reason: Reason, roi: real, pnl: real)

  /** A demo trade row with its legs, its signal's entry and stop, and its closing fields:
      `closing` is None while the status is "open". */
  datatype Trade = Trade(userId: int, signalId: int, symbol: string, side: Side, entry: real, stopLoss: real,
                         leverage: int, margin: real, liqPrice: real, legs: seq<Leg>, touched: set<nat>,
                         closing: Option<Closing>)

  datatype Config = Config(roiPct: real, moveToBreakEven: bool, maintenanceRate: real)

  function LegQuantities(legs: seq<Leg>): (r: seq<real>)
    ensures |r| == |legs|
  {
    seq(|legs|, i requires 0 <= i < |legs| => legs[i].qty)
  }

  /** Leg plans rebuilt from stored quantities. */
  function PlansFromTrade(t: Trade): (r: seq<LegPlan>)
    ensures |r| == |t.legs| || r == []
  {
    var total := Sum(LegQuantities(t.legs));
    if total <= 0.0 then []
    else seq(|t.legs|, i requires 0 <= i < |t.legs| =>
               LegPlan(t.legs[i].index, t.legs[i].target, Quotient(t.legs[i].qty, total), t.legs[i].qty))
  }

  function FilledIndices(legs: seq<Leg>): set<nat> {
    set leg | leg in legs && leg.status == LegFilled :: leg.index
  }

  function MarkLegsFilled(t: Trade, indices: set<nat>): Trade {
    if indices == {} then t
    else t.(legs := seq(|t.legs|, i requires 0 <= i < |t.legs| =>
                          if t.legs[i].index in indices && t.legs[i].status == LegOpen
                          then t.legs[i].(status := LegFilled) else t.legs[i]),
            touched := t.touched + indices)
  }

  function CloseTrade(t: Trade, closing: Closing, touched: set<nat>): Trade {
    t.(closing := Some(closing), touched := touched,
       legs := seq(|t.legs|, i requires 0 <= i < |t.legs| =>
                     if t.legs[i].status == LegOpen then t.legs[i].(status := LegCancelled) else t.legs[i]))
  }

  /** What the engine stores after one tick; a closed trade is no longer listed. */
  function ApplyTick(cfg: Config, t: Trade, price: real): Result<Trade, string> {
    if t.closing.Some? then Success(t)
    else
      var decision :- EvaluatePriceTick(t.side, t.entry, t.stopLoss, t.leverage, t.margin, t.liqPrice, price,
                                        if t.legs == [] then 3 else 1, cfg.roiPct, cfg.moveToBreakEven,
                                        PlansFromTrade(t), t.touched + FilledIndices(t.legs), cfg.maintenanceRate);
      var marked := MarkLegsFilled(t, decision.filled);
      match decision
      case Hold(_, _) => Success(marked)
      case CloseOut(reason, _, roi, pnl, touched, _) => Success(CloseTrade(marked, Closing(reason, roi, pnl), touched))
  }

  /** The stored state after a whole price history. */
  function Run(cfg: Config, t: Trade, h: seq<real>): Result<Trade, string> {
    if h == [] then Success(t)
    else
      var before :- Run(cfg, t, h[..|h| - 1]);
      ApplyTick(cfg, before, h[|h| - 1])
  }

  // ---------------------------------------------------------------- the history, read without state

  /** The most profitable price so far. */
  function Extreme(side: Side, h: seq<real>): real
    requires h != []
  {
    if |h| == 1 then h[0]
    else
      var before := Extreme(side, h[..|h| - 1]);
      if side.Long? then Max(before, h[|h| - 1]) else Min(before, h[|h| - 1])
  }

  /** The legs whose target the running extreme has crossed. */
  function TouchedBy(t: Trade, h: seq<real>): set<nat> {
    if h == [] then {}
    else set leg | leg in t.legs && CrossesTakeProfit(t.side, Extreme(t.side, h), leg.target) :: leg.index
  }

  datatype Verdict = Verdict(reason: Reason, exitPrice: real, touched: set<nat>)

  /** Whether the last price of a history closes a trade that was open before it: liquidation
      first, then the profit exits, then the break-even or original stop. */
  function VerdictOn(cfg: Config, t: Trade, h: seq<real>): Option<Verdict>
    requires h != [] && t.leverage > 0
  {
    var price := h[|h| - 1];
    var touched := TouchedBy(t, h);
    var stop := CurrentStop(t.stopLoss, t.entry, touched, cfg.moveToBreakEven);
    var threshold := Model3Threshold(t.side, t.entry, t.leverage, cfg.roiPct);
    if CrossesLiquidation(t.side, price, t.liqPrice) then
      Some(Verdict(Liquidation, t.liqPrice, TouchedBy(t, h[..|h| - 1])))
    else if t.legs == [] && CrossesTakeProfit(t.side, price, threshold) then
      Some(Verdict(Model3Exit, threshold, {}))
    else if t.legs != [] && forall leg | leg in t.legs :: leg.index in touched then
      Some(Verdict(AllTp, price, touched))
    else if CrossesStop(t.side, price, stop) then
      Some(Verdict(StopReason(stop, t.entry), stop, touched))
    else
      None
  }

  /** The first tick with a verdict. */
  function FirstClose(cfg: Config, t: Trade, h: seq<real>): (r: Option<nat>)
    requires t.leverage > 0
    ensures r.Some? ==> r.value < |h| && VerdictOn(cfg, t, h[..r.value + 1]).Some?
  {
    if h == [] then None
    else
      assert h[..|h|] == h;
      assert forall n :: 0 <= n <= |h| - 1 ==> h[..|h| - 1][..n] == h[..n];
      var before := FirstClose(cfg, t, h[..|h| - 1]);
      if before.Some? then before
      else if VerdictOn(cfg, t, h).Some? then Some(|h| - 1)
      else None
  }

  /** Return on the margin of a leg's exit, weighted by the leg's share of the position. */
  function Share(leg: LegPlan, touched: set<nat>, exit: real, side: Side, entry: real, leverage: int): real
    requires entry > 0.0
  {
    Product(leg.fraction, Return(side, entry, if leg.index in touched then leg.target else exit, leverage))
  }

  function Shares(legs: seq<LegPlan>, touched: set<nat>, exit: real, side: Side, entry: real, leverage: int)
    : (r: seq<real>)
    requires entry > 0.0
    ensures |r| == |legs|
  {
    seq(|legs|, i requires 0 <= i < |legs| => Share(legs[i], touched, exit, side, entry, leverage))
  }

  /** Blended return of a verdict as a fraction of the margin. */
  function VerdictReturn(t: Trade, v: Verdict): real
    requires t.entry > 0.0
  {
    if v.reason == Liquidation then -1.0
    else if t.legs == [] then Return(t.side, t.entry, v.exitPrice, t.leverage)
    else Sum(Shares(PlansFromTrade(t), v.touched, v.exitPrice, t.side, t.entry, t.leverage))
  }

  /** The trade while it is still open, as the touched targets determine it. */
  function OpenWith(t: Trade, touched: set<nat>): Trade {
    t.(touched := touched,
       legs := seq(|t.legs|, i requires 0 <= i < |t.legs| =>
                     if t.legs[i].index in touched then t.legs[i].(status := LegFilled) else t.legs[i]))
  }

  /** The trade as the verdict leaves it. */
  function ClosedBy(t: Trade, v: Verdict): Trade
    requires t.entry > 0.0
  {
    var r := VerdictReturn(t, v);
    t.(touched := v.touched,
       closing := Some(Closing(v.reason, r * 100.0, Product(t.margin, r))),
       legs := seq(|t.legs|, i requires 0 <= i < |t.legs| =>
                     if t.legs[i].index in v.touched then t.legs[i].(status := LegFilled)
                     else t.legs[i].(status := LegCancelled)))
  }

  /** The trade that a price history determines, with no state carried between ticks. */
  function FromHistory(cfg: Config, t: Trade, h: seq<real>): Trade
    requires t.entry > 0.0 && t.leverage > 0
  {
    match FirstClose(cfg, t, h)
    case None => OpenWith(t, TouchedBy(t, h))
    case Some(k) => ClosedBy(t, VerdictOn(cfg, t, h[..k + 1]).value)
  }

  // ---------------------------------------------------------------- profit and loss of a decision

  lemma PnlIsShare(margin: real, leg: LegPlan, touched: set<nat>, exit: real, side: Side, entry: real, leverage: int)
    requires margin >= 0.0 && 0.0 <= leg.fraction <= 1.0 && entry > 0.0 && leverage > 0
    ensures PnlUsdtForFraction(margin, leg.fraction, side, entry,
                               if leg.index in touched then leg.target else exit, leverage)
            == Success(Product(margin, Share(leg, touched, exit, side, entry, leverage)))
  {
    hide Move, PositionPnl, Product, Return;
    var price := if leg.index in touched then leg.target else exit;
    PositionPnlIsWeightedReturn(margin, leg.fraction, side, entry, price, leverage);
  }

  /** The loop computes the margin times the share-weighted returns, whatever is left untouched
      exiting at `exit`. */
  lemma {:induction false} BlendedIsShares(legs: seq<LegPlan>, touched: set<nat>, remaining: Option<real>, exit: real,
                                           margin: real, side: Side, entry: real, leverage: int)
    requires margin >= 0.0 && entry > 0.0 && leverage > 0
    requires forall i :: 0 <= i < |legs| ==> 0.0 <= legs[i].fraction <= 1.0
    requires remaining == Some(exit)
             || (remaining.None? && forall i :: 0 <= i < |legs| ==> legs[i].index in touched)
    ensures BlendedPnl(legs, touched, remaining, margin, side, entry, leverage)
            == Success(Product(margin, Sum(Shares(legs, touched, exit, side, entry, leverage))))
  {
    hide PnlUsdtForFraction, Share, Product, Sum;
    if legs == [] {
      ProductLaws(margin, 0.0, 0.0);
      EmptySum();
    } else {
      var front, last := legs[..|legs| - 1], legs[|legs| - 1];
      BlendedIsShares(front, touched, remaining, exit, margin, side, entry, leverage);
      PnlIsShare(margin, last, touched, exit, side, entry, leverage);
      var shares := Shares(front, touched, exit, side, entry, leverage);
      var share := Share(last, touched, exit, side, entry, leverage);
      assert Shares(legs, touched, exit, side, entry, leverage) == shares + [share];
      SumAppend(shares, share);
      ProductLaws(margin, Sum(shares), share);
    }
  }

  function PlanFractions(plans: seq<LegPlan>): (r: seq<real>)
    ensures |r| == |plans|
  {
    seq(|plans|, i requires 0 <= i < |plans| => plans[i].fraction)
  }

  /** Fractions rebuilt from positive quantities partition the position. */
  lemma RebuiltFractionsPartition(t: Trade)
    requires t.legs != [] && forall i :: 0 <= i < |t.legs| ==> t.legs[i].qty > 0.0
    ensures |PlansFromTrade(t)| == |t.legs|
    ensures PartitionsPosition(PlanFractions(PlansFromTrade(t)), |t.legs|)
  {
    hide Sum;
    var q := LegQuantities(t.legs);
    var total := Sum(q);
    TotalIsPositive(q);
    SumOfNormalized(q, total);
    var plans := PlansFromTrade(t);
    assert PlanFractions(plans) == Normalized(q, total);
    assert total / total == 1.0;
    forall i | 0 <= i < |q|
      ensures 0.0 < Normalized(q, total)[i] <= 1.0
    {
      PartIsAtMostTotal(q, i);
      QuotientOfPositives(q[i], total);
    }
  }

  lemma TotalIsPositive(q: seq<real>)
    requires q != [] && forall i :: 0 <= i < |q| ==> q[i] > 0.0
    ensures Sum(q) > 0.0
  {
    SumNonNegative(q[..|q| - 1]);
  }

  lemma PartIsAtMostTotal(q: seq<real>, i: nat)
    requires i < |q| && forall j :: 0 <= j < |q| ==> q[j] > 0.0
    ensures q[i] <= Sum(q)
  {
    SumBlock(q, i, i + 1);
    assert q[i..i + 1] == [q[i]] && [q[i]][..0] == [];
  }

  // ---------------------------------------------------------------- the stored state follows the history

  /** A trade as the engine opens it: nothing touched, every leg open, distinct positive legs. */
  ghost predicate Opened(cfg: Config, t: Trade) {
    && t.closing.None? && t.touched == {}
    && t.entry > 0.0 && t.leverage > 0 && t.margin > 0.0
    && cfg.maintenanceRate >= 0.0 && (t.legs == [] ==> cfg.roiPct > 0.0)
    && (forall i :: 0 <= i < |t.legs| ==> t.legs[i].status == LegOpen && t.legs[i].qty > 0.0)
    && (forall i, j :: 0 <= i < j < |t.legs| ==> t.legs[i].index < t.legs[j].index)
  }

  lemma ExtremeExtends(side: Side, h: seq<real>, price: real, target: real)
    ensures CrossesTakeProfit(side, Extreme(side, h + [price]), target)
            <==> || (h != [] && CrossesTakeProfit(side, Extreme(side, h), target))
                 || CrossesTakeProfit(side, price, target)
  {
    assert (h + [price])[..|h|] == h;
  }

  /** One more price touches the legs it crosses itself. */
  lemma TouchedExtends(t: Trade, h: seq<real>, price: real)
    ensures TouchedBy(t, h + [price])
            == TouchedBy(t, h) + set leg | leg in t.legs && CrossesTakeProfit(t.side, price, leg.target) :: leg.index
  {
    forall leg | leg in t.legs
      ensures CrossesTakeProfit(t.side, Extreme(t.side, h + [price]), leg.target)
              <==> (h != [] && CrossesTakeProfit(t.side, Extreme(t.side, h), leg.target))
                   || CrossesTakeProfit(t.side, price, leg.target)
    {
      ExtremeExtends(t.side, h, price, leg.target);
    }
  }

  lemma OpenWithKeepsPlans(t: Trade, touched: set<nat>)
    ensures PlansFromTrade(OpenWith(t, touched)) == PlansFromTrade(t)
  {
    assert LegQuantities(OpenWith(t, touched).legs) == LegQuantities(t.legs);
  }

  /** While open, the filled legs are those whose index was touched. */
  lemma OpenWithFilled(cfg: Config, t: Trade, touched: set<nat>)
    requires Opened(cfg, t) && touched <= IndicesOf(t)
    ensures FilledIndices(OpenWith(t, touched).legs) == touched
  {
    var legs := OpenWith(t, touched).legs;
    forall x | x in touched
      ensures x in FilledIndices(legs)
    {
      var i :| 0 <= i < |t.legs| && t.legs[i].index == x;
      assert legs[i] in legs && legs[i].status == LegFilled;
    }
  }

  function IndicesOf(t: Trade): set<nat> {
    set leg | leg in t.legs :: leg.index
  }

  lemma MarkingExtends(cfg: Config, t: Trade, touched: set<nat>, filled: set<nat>)
    requires Opened(cfg, t)
    ensures MarkLegsFilled(OpenWith(t, touched), filled) == OpenWith(t, touched + filled)
  {
    var a, b := MarkLegsFilled(OpenWith(t, touched), filled), OpenWith(t, touched + filled);
    assert touched + {} == touched;
    assert |a.legs| == |b.legs| && forall i :: 0 <= i < |a.legs| ==> a.legs[i] == b.legs[i];
  }

  lemma ClosingCancelsUntouched(cfg: Config, t: Trade, v: Verdict)
    requires Opened(cfg, t)
    ensures var r := VerdictReturn(t, v);
            CloseTrade(OpenWith(t, v.touched), Closing(v.reason, r * 100.0, Product(t.margin, r)), v.touched)
            == ClosedBy(t, v)
  {
    var r := VerdictReturn(t, v);
    var a := CloseTrade(OpenWith(t, v.touched), Closing(v.reason, r * 100.0, Product(t.margin, r)), v.touched);
    var b := ClosedBy(t, v);
    assert |a.legs| == |b.legs| && forall i :: 0 <= i < |a.legs| ==> a.legs[i] == b.legs[i];
  }

  /** Legs newly filled by a price, added to the known ones, are those the extreme has crossed. */
  lemma FilledMeansTouched(t: Trade, h: seq<real>, price: real)
    requires PlansFromTrade(t) != [] && |PlansFromTrade(t)| == |t.legs|
    ensures TouchedBy(t, h) + NewlyFilled(PlansFromTrade(t), TouchedBy(t, h), t.side, price)
            == TouchedBy(t, h + [price])
  {
    TouchedExtends(t, h, price);
    var plans, known := PlansFromTrade(t), TouchedBy(t, h);
    var filled := NewlyFilled(plans, known, t.side, price);
    var crossed := set leg | leg in t.legs && CrossesTakeProfit(t.side, price, leg.target) :: leg.index;
    forall x | x in crossed && x !in known
      ensures x in filled
    {
      var i :| 0 <= i < |t.legs| && t.legs[i].index == x && CrossesTakeProfit(t.side, price, t.legs[i].target);
      assert plans[i] in plans;
    }
    forall x | x in filled
      ensures x in crossed
    {
      var i :| 0 <= i < |plans| && plans[i].index == x && CrossesTakeProfit(t.side, price, plans[i].target);
      assert t.legs[i] in t.legs;
    }
  }

  lemma ReturnOfPnl(margin: real, r: real)
    requires margin > 0.0
    ensures Product(margin, r) / margin * 100.0 == r * 100.0
  {
    ScaleBound(r, margin);
  }

  ghost predicate AllIn(t: Trade, touched: set<nat>) {
    forall leg | leg in t.legs :: leg.index in touched
  }

  lemma PlansCoverLegs(t: Trade, touched: set<nat>)
    requires |PlansFromTrade(t)| == |t.legs|
    ensures (forall p | p in PlansFromTrade(t) :: p.index in touched) <==> AllIn(t, touched)
  {
    var plans := PlansFromTrade(t);
    if forall p | p in plans :: p.index in touched {
      forall leg | leg in t.legs
        ensures leg.index in touched
      {
        var i :| 0 <= i < |t.legs| && t.legs[i] == leg;
        assert plans[i] in plans;
      }
    }
  }

  /** One tick on the state that the history determines gives the state that the longer
      history determines: a trade with legs. */
  lemma TickWithLegs(cfg: Config, t: Trade, h: seq<real>, price: real)
    requires Opened(cfg, t) && t.legs != []
    ensures var s := OpenWith(t, TouchedBy(t, h));
            ApplyTick(cfg, s, price) == match VerdictOn(cfg, t, h + [price])
                                        case None => Success(OpenWith(t, TouchedBy(t, h + [price])))
                                        case Some(v) => Success(ClosedBy(t, v))
  {
    hide Sum, Product, BlendedPnl, PlansFromTrade, NewlyFilled, TouchedBy, OpenWith, ClosedBy, FilledIndices,
         MarkLegsFilled, CloseTrade, Model3Threshold, Model3ExitPrice, Shares, Return;
    var touched := TouchedBy(t, h);
    var s := OpenWith(t, touched);
    OpenWithBasics(t, touched);
    TouchedAreIndices(t, h);
    OpenWithFilled(cfg, t, touched);
    OpenWithKeepsPlans(t, touched);
    RebuiltFractionsPartition(t);
    var plans := PlansFromTrade(t);
    assert (h + [price])[..|h|] == h;
    assert touched + touched == touched;
    var filled := NewlyFilled(plans, touched, t.side, price);
    var updated := TouchedBy(t, h + [price]);
    FilledMeansTouched(t, h, price);
    MarkingExtends(cfg, t, touched, filled);
    MarkingExtends(cfg, t, touched, {});
    assert touched + {} == touched;
    PlansCoverLegs(t, updated);
    PlansAreProportions(t);
    var verdict := VerdictOn(cfg, t, h + [price]);
    match verdict {
      case None =>
      case Some(v) =>
        ClosingCancelsUntouched(cfg, t, v);
        ReturnOfPnl(t.margin, VerdictReturn(t, v));
        ProductLaws(t.margin, 0.0, 0.0);
        if v.reason != Liquidation {
          BlendedIsShares(plans, v.touched, if v.reason == AllTp then None else Some(v.exitPrice), v.exitPrice,
                          t.margin, t.side, t.entry, t.leverage);
        }
    }
  }

  lemma OpenWithBasics(t: Trade, touched: set<nat>)
    ensures var s := OpenWith(t, touched);
            && s == t.(legs := s.legs, touched := touched) && |s.legs| == |t.legs|
  {
  }

  lemma TouchedAreIndices(t: Trade, h: seq<real>)
    ensures TouchedBy(t, h) <= IndicesOf(t)
  {
  }

  lemma PlansAreProportions(t: Trade)
    requires |PlansFromTrade(t)| == |t.legs|
    requires PartitionsPosition(PlanFractions(PlansFromTrade(t)), |t.legs|)
    ensures forall i :: 0 <= i < |t.legs| ==> 0.0 < PlansFromTrade(t)[i].fraction <= 1.0
  {
    forall i | 0 <= i < |t.legs|
      ensures 0.0 < PlansFromTrade(t)[i].fraction <= 1.0
    {
      assert PlanFractions(PlansFromTrade(t))[i] == PlansFromTrade(t)[i].fraction;
    }
  }

  /** The same for a model-3 trade, which has no legs. */
  lemma TickWithoutLegs(cfg: Config, t: Trade, h: seq<real>, price: real)
    requires Opened(cfg, t) && t.legs == []
    ensures var s := OpenWith(t, TouchedBy(t, h));
            ApplyTick(cfg, s, price) == match VerdictOn(cfg, t, h + [price])
                                        case None => Success(OpenWith(t, TouchedBy(t, h + [price])))
                                        case Some(v) => Success(ClosedBy(t, v))
  {
    hide Product, Model3Threshold, Return, BlendedPnl, PlansFromTrade, Shares;
    assert (h + [price])[..|h|] == h;
    assert TouchedBy(t, h) == {} && TouchedBy(t, h + [price]) == {};
    assert OpenWith(t, {}) == t;
    assert t.touched + FilledIndices(t.legs) == {};
    var verdict := VerdictOn(cfg, t, h + [price]);
    if verdict.Some? {
      var v := verdict.value;
      ClosingCancelsUntouched(cfg, t, v);
      ReturnOfPnl(t.margin, VerdictReturn(t, v));
      ProductLaws(t.margin, 0.0, 0.0);
      WholePositionPnl(t.margin, t.side, t.entry, v.exitPrice, t.leverage);
    }
  }

  lemma WholePositionPnl(margin: real, side: Side, entry: real, price: real, leverage: int)
    requires margin >= 0.0 && entry > 0.0 && leverage > 0
    ensures PnlUsdtForFraction(margin, 1.0, side, entry, price, leverage)
            == Success(Product(margin, Return(side, entry, price, leverage)))
  {
    hide Move, PositionPnl, Product, Return;
    PositionPnlIsWeightedReturn(margin, 1.0, side, entry, price, leverage);
    ProductLaws(1.0, Return(side, entry, price, leverage), 0.0);
  }

  /** Refinement: the stored-state engine, run over any price history, ends in the trade that
      the history determines on its own. */
  lemma {:induction false} EngineFollowsHistory(cfg: Config, t: Trade, h: seq<real>)
    requires Opened(cfg, t)
    ensures Run(cfg, t, h) == Success(FromHistory(cfg, t, h))
  {
    hide ApplyTick, VerdictOn, TouchedBy;
    if h == [] {
      UntouchedTrade(cfg, t);
    } else {
      var front, price := h[..|h| - 1], h[|h| - 1];
      EngineFollowsHistory(cfg, t, front);
      assert h == front + [price] && h[..|h|] == h;
      match FirstClose(cfg, t, front) {
        case Some(k) =>
          assert front[..k + 1] == h[..k + 1];
          ClosedStaysClosed(cfg, FromHistory(cfg, t, front), price);
        case None =>
          if t.legs == [] {
            TickWithoutLegs(cfg, t, front, price);
          } else {
            TickWithLegs(cfg, t, front, price);
          }
      }
    }
  }

  lemma UntouchedTrade(cfg: Config, t: Trade)
    requires Opened(cfg, t)
    ensures OpenWith(t, TouchedBy(t, [])) == t
  {
    assert OpenWith(t, {}).legs == t.legs;
  }

  lemma ClosedStaysClosed(cfg: Config, t: Trade, price: real)
    requires t.closing.Some?
    ensures ApplyTick(cfg, t, price) == Success(t)
  {
  }

  /** Once a run has closed the trade, no longer history changes it. */
  lemma {:induction false} ClosedForGood(cfg: Config, t: Trade, h: seq<real>, more: seq<real>)
    requires Run(cfg, t, h).Success? && Run(cfg, t, h).value.closing.Some?
    ensures Run(cfg, t, h + more) == Run(cfg, t, h)
  {
    hide ApplyTick;
    if more == [] {
      assert h + more == h;
    } else {
      var front := more[..|more| - 1];
      ClosedForGood(cfg, t, h, front);
      assert (h + more)[..|h + more| - 1] == h + front;
      ClosedStaysClosed(cfg, Run(cfg, t, h).value, more[|more| - 1]);
    }
  }

  /** The tick named by FirstClose is the first one that has a verdict. */
  lemma {:induction false} FirstCloseIsFirst(cfg: Config, t: Trade, h: seq<real>)
    requires t.leverage > 0
    ensures var k := FirstClose(cfg, t, h);
            forall n :: 0 < n <= (if k.Some? then k.value else |h|) ==> VerdictOn(cfg, t, h[..n]).None?
  {
    hide VerdictOn;
    if h != [] {
      var front := h[..|h| - 1];
      FirstCloseIsFirst(cfg, t, front);
      assert h[..|h|] == h;
      assert forall n :: 0 <= n < |h| ==> front[..n] == h[..n];
    }
  }

  // ---------------------------------------------------------------- opening from a plan

  /** What the sanitizer guarantees of an accepted signal. */
  ghost predicate SaneSignal(side: Side, entry: real, stopLoss: real, targets: seq<real>) {
    && targets != [] && Worse(side, stopLoss, entry)
    && (forall i :: 0 <= i < |targets| ==> Worse(side, entry, targets[i]))
    && forall i, j :: 0 <= i < j < |targets| ==> Worse(side, targets[i], targets[j])
  }

  /** The row and legs persisted for a plan. */
  function OpenTrade(userId: int, signalId: int, symbol: string, side: Side, entry: real, stopLoss: real,
                     leverage: int, plan: OpenPlan): Trade
  {
    Trade(userId, signalId, symbol, side, entry, stopLoss, leverage, plan.margin, plan.liqPrice,
          seq(|plan.legs|, i requires 0 <= i < |plan.legs| =>
                Leg(plan.legs[i].index, plan.legs[i].target, plan.legs[i].qty, LegOpen)), {}, None)
  }

  lemma PlanFractionsPartition(side: Side, entry: real, stopLoss: real, leverage: int, targets: seq<real>,
                               margin: real, riskModel: int, roiPct: real, weights: seq<real>, rate: real)
    requires BuildDemoOpenPlan(side, entry, stopLoss, leverage, targets, margin, riskModel, roiPct, weights,
                               rate).Success?
    ensures var plan := BuildDemoOpenPlan(side, entry, stopLoss, leverage, targets, margin, riskModel, roiPct, weights,
                                          rate).value;
            && entry > 0.0 && leverage > 0 && margin > 0.0 && rate >= 0.0 && (riskModel == 3 ==> roiPct > 0.0)
            && plan.margin == margin && plan.qty > 0.0
            && plan.liqPrice == LiquidationPrice(side, entry, leverage, rate)
            && |plan.legs| == (if riskModel == 3 then 0 else |targets|)
            && (riskModel != 3 ==> PartitionsPosition(PlanFractions(plan.legs), |targets|))
            && forall i :: 0 <= i < |plan.legs| ==>
                 plan.legs[i] == LegPlan(i + 1, targets[i], plan.legs[i].fraction,
                                         Product(plan.qty, plan.legs[i].fraction))
  {
    hide Product, LiquidationPrice, Sum, EqualFractions, Model2Fractions;
    PositiveQuotient(margin, leverage as real, entry);
    if riskModel != 3 {
      var plan := BuildDemoOpenPlan(side, entry, stopLoss, leverage, targets, margin, riskModel, roiPct, weights,
                                    rate).value;
      var f := if riskModel == 1 then EqualFractions(|targets|).value else Model2Fractions(|targets|, weights).value;
      assert PartitionsPosition(f, |targets|) by {
        if riskModel == 1 {
          EqualFractionsPartition(|targets|);
        } else {
          Model2FractionsPartition(|targets|, weights);
        }
      }
      assert plan.legs == PlannedLegs(targets, f, plan.qty);
      PlannedFractions(targets, f, plan.qty);
    }
  }

  /** The planned position in numbers: margin times leverage buys it at the entry, and each target
      gets an equal part or its weight's part of it. */
  lemma PlanInNumbers(side: Side, entry: real, stopLoss: real, leverage: int, targets: seq<real>, margin: real,
                      riskModel: int, roiPct: real, weights: seq<real>, rate: real, i: nat)
    requires BuildDemoOpenPlan(side, entry, stopLoss, leverage, targets, margin, riskModel, roiPct, weights,
                               rate).Success?
    ensures var plan := BuildDemoOpenPlan(side, entry, stopLoss, leverage, targets, margin, riskModel, roiPct, weights,
                                          rate).value;
            && plan.notional == margin * leverage as real == plan.qty * entry
            && (i < |plan.legs| ==>
                  && plan.legs[i].fraction == (if riskModel == 2 then Quotient(weights[i], Sum(weights[..|targets|]))
                                               else 1.0 / |targets| as real)
                  && plan.legs[i].qty == plan.qty * plan.legs[i].fraction)
  {
    hide LiquidationPrice, Sum, EqualFractions, Model2Fractions;
    if riskModel == 1 {
      EqualFractionsPartition(|targets|);
    } else if riskModel == 2 {
      Model2FractionsPartition(|targets|, weights);
    }
  }

  lemma PlannedFractions(targets: seq<real>, fractions: seq<real>, qty: real)
    requires |fractions| == |targets|
    ensures PlanFractions(PlannedLegs(targets, fractions, qty)) == fractions
  {
  }

  lemma PositiveQuotient(a: real, b: real, c: real)
    ensures a > 0.0 && b > 0.0 && c > 0.0 ==> a * b / c > 0.0
  {
    if a > 0.0 && b > 0.0 && c > 0.0 {
      assert a * b > 0.0;
      DivideKeepsOrder(0.0, a * b, c);
    }
  }

  /** A trade opened from a plan is Opened, and the fractions that ticks rebuild from the stored
      quantities are the planned ones. */
  lemma OpenedFromPlan(cfg: Config, userId: int, signalId: int, symbol: string, side: Side, entry: real,
                       stopLoss: real, leverage: int, targets: seq<real>, margin: real, riskModel: int,
                       weights: seq<real>)
    requires BuildDemoOpenPlan(side, entry, stopLoss, leverage, targets, margin, riskModel, cfg.roiPct, weights,
                               cfg.maintenanceRate).Success?
    ensures var plan := BuildDemoOpenPlan(side, entry, stopLoss, leverage, targets, margin, riskModel, cfg.roiPct,
                                          weights, cfg.maintenanceRate).value;
            var t := OpenTrade(userId, signalId, symbol, side, entry, stopLoss, leverage, plan);
            Opened(cfg, t) && PlansFromTrade(t) == plan.legs
  {
    hide Product, LiquidationPrice, Sum, BuildDemoOpenPlan;
    PlanFractionsPartition(side, entry, stopLoss, leverage, targets, margin, riskModel, cfg.roiPct, weights,
                           cfg.maintenanceRate);
    var plan := BuildDemoOpenPlan(side, entry, stopLoss, leverage, targets, margin, riskModel, cfg.roiPct, weights,
                                  cfg.maintenanceRate).value;
    var t := OpenTrade(userId, signalId, symbol, side, entry, stopLoss, leverage, plan);
    var fractions := PlanFractions(plan.legs);
    forall i | 0 <= i < |plan.legs|
      ensures t.legs[i].qty == Product(plan.qty, fractions[i]) > 0.0
    {
      assert fractions[i] == plan.legs[i].fraction;
      PositiveProduct(plan.qty, fractions[i]);
    }
    EmptySum();
    if plan.legs != [] {
      SumScales(plan.qty, fractions, LegQuantities(t.legs));
      ProductLaws(plan.qty, 0.0, 0.0);
      forall i | 0 <= i < |plan.legs|
        ensures PlansFromTrade(t)[i] == plan.legs[i]
      {
        CancelFactor(plan.qty, fractions[i]);
      }
    }
  }

  lemma PositiveProduct(a: real, b: real)
    requires a > 0.0 && b > 0.0
    ensures Product(a, b) > 0.0
  {
  }

  lemma CancelFactor(a: real, b: real)
    requires a > 0.0
    ensures Quotient(Product(a, b), a) == b
  {
    ScaleBound(b, a);
  }

  lemma {:induction false} SumScales(factor: real, s: seq<real>, scaled: seq<real>)
    requires |s| == |scaled| && forall i :: 0 <= i < |s| ==> scaled[i] == Product(factor, s[i])
    ensures Sum(scaled) == Product(factor, Sum(s))
  {
    hide Product;
    ProductLaws(factor, 0.0, 0.0);
    if s != [] {
      var k := |s| - 1;
      SumScales(factor, s[..k], scaled[..k]);
      ProductLaws(factor, Sum(s[..k]), s[k]);
    }
  }

  // ---------------------------------------------------------------- consequences

  /** With strictly monotone targets, in leg order, a touched leg means every earlier leg is touched. */
  lemma TouchedIsPrefix(t: Trade, h: seq<real>, i: nat, j: nat)
    requires forall a, b :: 0 <= a < b < |t.legs| ==>
               t.legs[a].index < t.legs[b].index && Worse(t.side, t.legs[a].target, t.legs[b].target)
    requires i < j < |t.legs| && t.legs[j].index in TouchedBy(t, h)
    ensures t.legs[i].index in TouchedBy(t, h)
  {
    var leg :| leg in t.legs && CrossesTakeProfit(t.side, Extreme(t.side, h), leg.target)
               && leg.index == t.legs[j].index;
    var k :| 0 <= k < |t.legs| && t.legs[k] == leg;
    assert k == j;
    assert t.legs[i] in t.legs;
  }

  /** When the maintenance rate times the leverage is below one, the liquidation price is on the
      losing side, so the tick that liquidates a trade touches no further target. */
  lemma LiquidationTouchesNothing(cfg: Config, t: Trade, h: seq<real>)
    requires t.entry > 0.0 && t.leverage > 0 && h != []
    requires t.liqPrice == LiquidationPrice(t.side, t.entry, t.leverage, cfg.maintenanceRate)
    requires Product(cfg.maintenanceRate, t.leverage as real) < 1.0
    requires forall leg | leg in t.legs :: Worse(t.side, t.entry, leg.target)
    requires CrossesLiquidation(t.side, h[|h| - 1], t.liqPrice)
    ensures TouchedBy(t, h) == TouchedBy(t, h[..|h| - 1])
  {
    var front, price := h[..|h| - 1], h[|h| - 1];
    assert h == front + [price];
    TouchedExtends(t, front, price);
    ReturnAtLiquidation(t.side, t.entry, t.leverage, cfg.maintenanceRate);
    NoMoveAtEntry(t.side, t.entry, t.leverage);
    WorsePriceMeansWorseReturn(t.side, t.entry, t.liqPrice, t.entry, t.leverage);
  }

  /** What a trade opened from a sane signal keeps for its whole life. */
  ghost predicate Sane(cfg: Config, t: Trade) {
    && Opened(cfg, t)
    && t.liqPrice == LiquidationPrice(t.side, t.entry, t.leverage, cfg.maintenanceRate)
    && Worse(t.side, t.stopLoss, t.entry)
    && forall i :: 0 <= i < |t.legs| ==> Worse(t.side, t.entry, t.legs[i].target)
  }

  lemma SaneFromSignal(cfg: Config, userId: int, signalId: int, symbol: string, side: Side, entry: real,
                       stopLoss: real, leverage: int, targets: seq<real>, margin: real, riskModel: int,
                       weights: seq<real>)
    requires SaneSignal(side, entry, stopLoss, targets)
    requires BuildDemoOpenPlan(side, entry, stopLoss, leverage, targets, margin, riskModel, cfg.roiPct, weights,
                               cfg.maintenanceRate).Success?
    ensures var plan := BuildDemoOpenPlan(side, entry, stopLoss, leverage, targets, margin, riskModel, cfg.roiPct,
                                          weights, cfg.maintenanceRate).value;
            Sane(cfg, OpenTrade(userId, signalId, symbol, side, entry, stopLoss, leverage, plan))
  {
    hide BuildDemoOpenPlan, LiquidationPrice, PartitionsPosition;
    OpenedFromPlan(cfg, userId, signalId, symbol, side, entry, stopLoss, leverage, targets, margin, riskModel, weights);
    PlanFractionsPartition(side, entry, stopLoss, leverage, targets, margin, riskModel, cfg.roiPct, weights,
                           cfg.maintenanceRate);
  }

  lemma ShareAboveFraction(fraction: real, r: real)
    requires fraction > 0.0 && r > -1.0
    ensures Product(fraction, r) > -fraction
  {
    PositiveProduct(fraction, r + 1.0);
    ProductLaws(fraction, r, 1.0);
  }

  /** Exits that each lose less than everything blend to less than a whole margin. */
  lemma {:induction false} BlendLosesLessThanMargin(plans: seq<LegPlan>, touched: set<nat>, exit: real, side: Side,
                                                    entry: real, leverage: int)
    requires entry > 0.0 && plans != []
    requires forall i :: 0 <= i < |plans| ==>
               && plans[i].fraction > 0.0
               && Return(side, entry, if plans[i].index in touched then plans[i].target else exit, leverage) > -1.0
    ensures Sum(Shares(plans, touched, exit, side, entry, leverage)) > -Sum(PlanFractions(plans))
  {
    hide Product, Return;
    var k := |plans| - 1;
    var front, last := plans[..k], plans[k];
    assert Shares(plans, touched, exit, side, entry, leverage)[..k]
        == Shares(front, touched, exit, side, entry, leverage);
    assert PlanFractions(plans)[..k] == PlanFractions(front);
    ShareAboveFraction(last.fraction,
                       Return(side, entry, if last.index in touched then last.target else exit, leverage));
    if k > 0 {
      BlendLosesLessThanMargin(front, touched, exit, side, entry, leverage);
    }
  }

  lemma Model3ExitIsProfitable(side: Side, entry: real, leverage: int, roiPct: real)
    requires entry > 0.0 && leverage > 0
    ensures Return(side, entry, Model3Threshold(side, entry, leverage, roiPct), leverage) == roiPct / 100.0
  {
    var l := leverage as real;
    var move := roiPct / (100.0 * l);
    var threshold := Model3Threshold(side, entry, leverage, roiPct);
    assert Move(side, entry, threshold) == move by {
      if side.Long? {
        assert threshold - entry == move * entry;
      } else {
        assert entry - threshold == move * entry;
      }
      ScaleBound(move, entry);
    }
    assert (100.0 * l) * move == roiPct;
  }

  /** An exit other than liquidation returns more than minus one margin. */
  lemma ExitBeatsLiquidation(cfg: Config, t: Trade, h: seq<real>)
    requires Sane(cfg, t) && h != [] && VerdictOn(cfg, t, h).Some?
    requires VerdictOn(cfg, t, h).value.reason != Liquidation
    ensures VerdictReturn(t, VerdictOn(cfg, t, h).value) > -1.0
  {
    hide Return, Product, LiquidationPrice, Model3Threshold, PlansFromTrade, Shares, Sum, TouchedBy;
    var v := VerdictOn(cfg, t, h).value;
    if v.reason == Model3Exit {
      Model3ExitIsProfitable(t.side, t.entry, t.leverage, cfg.roiPct);
    } else if v.reason == AllTp {
      TouchedLegsAreProfitable(cfg, t, v.touched, v.exitPrice);
    } else {
      SafePriceLosesLessThanMargin(t.side, t.entry, v.exitPrice, t.leverage, cfg.maintenanceRate);
      if t.legs != [] {
        TouchedLegsAreProfitable(cfg, t, v.touched, v.exitPrice);
      }
    }
  }

  lemma TouchedLegsAreProfitable(cfg: Config, t: Trade, touched: set<nat>, exit: real)
    requires Sane(cfg, t) && t.legs != []
    requires Return(t.side, t.entry, exit, t.leverage) > -1.0 || AllIn(t, touched)
    ensures Sum(Shares(PlansFromTrade(t), touched, exit, t.side, t.entry, t.leverage)) > -1.0
  {
    hide Return, Product, LiquidationPrice, Shares, Sum;
    RebuiltFractionsPartition(t);
    PlansAreProportions(t);
    var plans := PlansFromTrade(t);
    NoMoveAtEntry(t.side, t.entry, t.leverage);
    forall i | 0 <= i < |plans|
      ensures Return(t.side, t.entry, if plans[i].index in touched then plans[i].target else exit, t.leverage) > -1.0
    {
      assert t.legs[i] in t.legs;
      WorsePriceMeansWorseReturn(t.side, t.entry, t.entry, t.legs[i].target, t.leverage);
    }
    BlendLosesLessThanMargin(plans, touched, exit, t.side, t.entry, t.leverage);
  }

  /** The demo loses at most one margin on any price history, and all of it only when liquidated,
      although nothing clamps its result. */
  lemma LossIsBoundedByMargin(cfg: Config, t: Trade, h: seq<real>)
    requires Sane(cfg, t)
    ensures Run(cfg, t, h).Success?
    ensures var closing := Run(cfg, t, h).value.closing;
            closing.Some? ==>
              && closing.value.pnl >= -t.margin
              && (closing.value.pnl == -t.margin <==> closing.value.reason == Liquidation)
              && closing.value.pnl == Product(t.margin, closing.value.roi / 100.0)
  {
    hide Run, VerdictOn, VerdictReturn, Product;
    EngineFollowsHistory(cfg, t, h);
    var k := FirstClose(cfg, t, h);
    if k.Some? {
      var v := VerdictOn(cfg, t, h[..k.value + 1]).value;
      var r := VerdictReturn(t, v);
      ProductLaws(t.margin, 0.0, 0.0);
      if v.reason != Liquidation {
        ExitBeatsLiquidation(cfg, t, h[..k.value + 1]);
        ShareAboveFraction(t.margin, r);
      } else {
        LiquidationReturn(t, v);
      }
      assert r * 100.0 / 100.0 == r;
    }
  }

  lemma LiquidationReturn(t: Trade, v: Verdict)
    requires t.entry > 0.0 && v.reason == Liquidation
    ensures VerdictReturn(t, v) == -1.0
  {
  }

  // ---------------------------------------------------------------- the run in prices alone

  /** Some price so far was at the target or better. */
  ghost predicate Reached(side: Side, h: seq<real>, target: real) {
    exists j :: 0 <= j < |h| && !Worse(side, h[j], target)
  }

  ghost function ReachedLegs(t: Trade, h: seq<real>): set<nat> {
    set leg | leg in t.legs && Reached(t.side, h, leg.target) :: leg.index
  }

  /** The first target was reached: only then, and only with the setting on, the stop is at the entry. */
  ghost predicate FirstTargetReached(t: Trade, h: seq<real>) {
    exists i :: 0 <= i < |t.legs| && t.legs[i].index == 1 && Reached(t.side, h, t.legs[i].target)
  }

  ghost function StopNow(cfg: Config, t: Trade, h: seq<real>): real {
    if cfg.moveToBreakEven && FirstTargetReached(t, h) then t.entry else t.stopLoss
  }

  /** What a price does to a trade that is open before it. */
  ghost function ReasonAt(cfg: Config, t: Trade, h: seq<real>, price: real): Option<Reason>
    requires t.entry > 0.0
  {
    if !Worse(t.side, t.liqPrice, price) then Some(Liquidation)
    else if t.legs == [] && Return(t.side, t.entry, price, t.leverage) >= cfg.roiPct / 100.0 then Some(Model3Exit)
    else if t.legs != [] && forall i :: 0 <= i < |t.legs| ==> Reached(t.side, h + [price], t.legs[i].target) then
      Some(AllTp)
    else if !Worse(t.side, StopNow(cfg, t, h + [price]), price) then
      Some(if StopNow(cfg, t, h + [price]) == t.entry then BreakEven else StopLoss)
    else None
  }

  lemma {:induction false} ReachedIffExtreme(side: Side, h: seq<real>, target: real)
    ensures Reached(side, h, target) <==> h != [] && CrossesTakeProfit(side, Extreme(side, h), target)
  {
    if h != [] {
      var front, price := h[..|h| - 1], h[|h| - 1];
      ReachedIffExtreme(side, front, target);
      assert h == front + [price];
      ExtremeExtends(side, front, price, target);
      if Reached(side, front, target) {
        var j :| 0 <= j < |front| && !Worse(side, front[j], target);
        assert h[j] == front[j];
      } else if !Worse(side, price, target) {
        assert h[|h| - 1] == price;
      } else {
        forall j | 0 <= j < |h|
          ensures Worse(side, h[j], target)
        {
          assert j < |front| ==> h[j] == front[j];
        }
      }
    }
  }

  lemma TouchedIsReached(t: Trade, h: seq<real>)
    ensures TouchedBy(t, h) == ReachedLegs(t, h)
  {
    hide Reached;
    forall leg | leg in t.legs
      ensures Reached(t.side, h, leg.target) <==> h != [] && CrossesTakeProfit(t.side, Extreme(t.side, h), leg.target)
    {
      ReachedIffExtreme(t.side, h, leg.target);
    }
  }

  lemma StopIsStopNow(cfg: Config, t: Trade, h: seq<real>)
    ensures CurrentStop(t.stopLoss, t.entry, TouchedBy(t, h), cfg.moveToBreakEven) == StopNow(cfg, t, h)
  {
    hide Reached;
    TouchedIsReached(t, h);
    if FirstTargetReached(t, h) {
      var i :| 0 <= i < |t.legs| && t.legs[i].index == 1 && Reached(t.side, h, t.legs[i].target);
      assert t.legs[i] in t.legs;
    }
    if 1 in ReachedLegs(t, h) {
      var leg :| leg in t.legs && Reached(t.side, h, leg.target) && leg.index == 1;
      var i :| 0 <= i < |t.legs| && t.legs[i] == leg;
    }
  }

  /** With distinct indices, all indices are touched exactly when every target was reached. */
  lemma AllTouchedIff(t: Trade, h: seq<real>)
    requires forall i, j :: 0 <= i < j < |t.legs| ==> t.legs[i].index < t.legs[j].index
    ensures AllIn(t, TouchedBy(t, h)) <==> forall i :: 0 <= i < |t.legs| ==> Reached(t.side, h, t.legs[i].target)
  {
    hide Reached;
    TouchedIsReached(t, h);
    if AllIn(t, TouchedBy(t, h)) {
      forall i | 0 <= i < |t.legs|
        ensures Reached(t.side, h, t.legs[i].target)
      {
        assert t.legs[i] in t.legs;
        var leg :| leg in t.legs && Reached(t.side, h, leg.target) && leg.index == t.legs[i].index;
        var k :| 0 <= k < |t.legs| && t.legs[k] == leg;
        assert k == i;
      }
    }
  }

  lemma ThresholdCrossedIff(cfg: Config, t: Trade, price: real)
    requires t.entry > 0.0 && t.leverage > 0
    ensures CrossesTakeProfit(t.side, price, Model3Threshold(t.side, t.entry, t.leverage, cfg.roiPct))
            <==> Return(t.side, t.entry, price, t.leverage) >= cfg.roiPct / 100.0
  {
    hide Return, Model3Threshold;
    var threshold := Model3Threshold(t.side, t.entry, t.leverage, cfg.roiPct);
    Model3ExitIsProfitable(t.side, t.entry, t.leverage, cfg.roiPct);
    WorsePriceMeansWorseReturn(t.side, t.entry, price, threshold, t.leverage);
  }

  /** The verdict on a price, read off prices, entry, stop and targets. */
  lemma VerdictInPrices(cfg: Config, t: Trade, h: seq<real>, price: real)
    requires Opened(cfg, t)
    ensures var v, reason := VerdictOn(cfg, t, h + [price]), ReasonAt(cfg, t, h, price);
            && (v.Some? <==> reason.Some?)
            && (v.Some? ==>
                  && v.value.reason == reason.value
                  && v.value.touched == (if reason.value == Liquidation then ReachedLegs(t, h)
                                         else if t.legs == [] then {} else ReachedLegs(t, h + [price]))
                  && (reason.value in {BreakEven, StopLoss} ==> v.value.exitPrice == StopNow(cfg, t, h + [price]))
                  && (reason.value == Model3Exit ==>
                        Return(t.side, t.entry, v.value.exitPrice, t.leverage) == cfg.roiPct / 100.0))
  {
    hide Return, Model3Threshold, Reached, Extreme, TouchedBy, StopNow, CurrentStop, ReachedLegs;
    assert (h + [price])[..|h|] == h;
    TouchedIsReached(t, h);
    TouchedIsReached(t, h + [price]);
    StopIsStopNow(cfg, t, h + [price]);
    AllTouchedIff(t, h + [price]);
    ThresholdCrossedIff(cfg, t, price);
    Model3ExitIsProfitable(t.side, t.entry, t.leverage, cfg.roiPct);
    if t.legs == [] {
      NoLegsReached(t, h + [price]);
    }
  }

  /** The price that a close reports: liquidation and stops exit at their own levels, the model-3
      exit at the threshold, and the last target at the price that was seen. */
  lemma ReportedExit(side: Side, entry: real, stopLoss: real, leverage: int, margin: real, liqPrice: real,
                     price: real, riskModel: int, roiPct: real, moveToBreakEven: bool, legs: seq<LegPlan>,
                     known: set<nat>, rate: real)
    ensures var d := EvaluatePriceTick(side, entry, stopLoss, leverage, margin, liqPrice, price, riskModel, roiPct,
                                       moveToBreakEven, legs, known, rate);
            d.Success? && d.value.CloseOut? ==>
              match d.value.reason
              case Liquidation => d.value.exitPrice == liqPrice
              case Model3Exit => entry > 0.0 && Return(side, entry, d.value.exitPrice, leverage) == roiPct / 100.0
              case AllTp => d.value.exitPrice == price
              case BreakEven => d.value.exitPrice == entry
              case StopLoss => d.value.exitPrice == stopLoss
  {
    hide BlendedPnl, PnlUsdtForFraction, Model3Threshold, Return;
    if entry > 0.0 && leverage > 0 {
      Model3ExitIsProfitable(side, entry, leverage, roiPct);
    }
  }

  lemma NoLegsReached(t: Trade, h: seq<real>)
    requires t.legs == []
    ensures ReachedLegs(t, h) == {}
  {
  }

  /** The return on margin of a close, by its reason: minus one on liquidation, the setting on the
      model-3 exit, else every leg at its own target where reached and at the stop where not. */
  ghost function ReturnAt(cfg: Config, t: Trade, h: seq<real>, price: real, reason: Reason): real
    requires t.entry > 0.0
  {
    var stop, reached := StopNow(cfg, t, h + [price]), ReachedLegs(t, h + [price]);
    if reason == Liquidation then -1.0
    else if reason == Model3Exit then cfg.roiPct / 100.0
    else if t.legs == [] then Return(t.side, t.entry, stop, t.leverage)
    else Sum(Shares(PlansFromTrade(t), reached, stop, t.side, t.entry, t.leverage))
  }

  /** One price after any history that left the trade open: it closes for the reason that the
      prices give, or stays open with the targets reached so far. */
  lemma NextTick(cfg: Config, t: Trade, h: seq<real>, price: real)
    requires Opened(cfg, t) && Run(cfg, t, h).Success? && Run(cfg, t, h).value.closing.None?
    ensures Run(cfg, t, h + [price]).Success?
    ensures var end, reason := Run(cfg, t, h + [price]).value, ReasonAt(cfg, t, h, price);
            match reason
            case None => end.closing.None? && end.touched == ReachedLegs(t, h + [price])
            case Some(why) =>
              var r := ReturnAt(cfg, t, h, price, why);
              && end.closing == Some(Closing(why, r * 100.0, Product(t.margin, r)))
              && end.touched == if why == Liquidation then ReachedLegs(t, h) else ReachedLegs(t, h + [price])
  {
    hide Run, VerdictOn, Return, Shares, PlansFromTrade, Product, Sum, ReachedLegs, StopNow, TouchedBy, Reached;
    EngineFollowsHistory(cfg, t, h);
    EngineFollowsHistory(cfg, t, h + [price]);
    OpenMeansNoClose(cfg, t, h);
    assert (h + [price])[..|h|] == h && (h + [price])[..|h| + 1] == h + [price];
    VerdictInPrices(cfg, t, h, price);
    TouchedIsReached(t, h + [price]);
    OpenWithBasics(t, TouchedBy(t, h + [price]));
    if t.legs == [] {
      NoLegsReached(t, h + [price]);
      NoLegsReached(t, h);
    }
    var reason := ReasonAt(cfg, t, h, price);
    if reason == Some(AllTp) {
      AllReachedNeedNoExit(cfg, t, h, price, VerdictOn(cfg, t, h + [price]).value.exitPrice);
    }
  }

  lemma OpenMeansNoClose(cfg: Config, t: Trade, h: seq<real>)
    requires t.entry > 0.0 && t.leverage > 0 && FromHistory(cfg, t, h).closing.None?
    ensures FirstClose(cfg, t, h).None?
  {
    hide FirstClose, VerdictOn;
  }

  /** When every target was reached, the price of what is left does not matter. */
  lemma AllReachedNeedNoExit(cfg: Config, t: Trade, h: seq<real>, price: real, exit: real)
    requires Opened(cfg, t) && ReasonAt(cfg, t, h, price) == Some(AllTp)
    ensures t.legs != []
    ensures Shares(PlansFromTrade(t), ReachedLegs(t, h + [price]), exit, t.side, t.entry, t.leverage)
            == Shares(PlansFromTrade(t), ReachedLegs(t, h + [price]), StopNow(cfg, t, h + [price]), t.side, t.entry,
                      t.leverage)
  {
    hide Return, Reached, StopNow, Sum, Product;
    RebuiltFractionsPartition(t);
    var plans, reached := PlansFromTrade(t), ReachedLegs(t, h + [price]);
    forall i | 0 <= i < |plans|
      ensures plans[i].index in reached
    {
      assert t.legs[i] in t.legs;
    }
  }

  /** Without liquidation and with a target that is never reached, the trade is open exactly while
      no price has come to its stop, and closes at the first that has, with that stop. */
  lemma {:induction false} ClosesAtFirstStop(cfg: Config, t: Trade, h: seq<real>)
    requires Opened(cfg, t) && t.legs != []
    requires forall n :: 0 <= n < |h| ==> Worse(t.side, t.liqPrice, h[n])
    requires exists i :: 0 <= i < |t.legs| && !Reached(t.side, h, t.legs[i].target)
    ensures Run(cfg, t, h).Success?
    ensures Run(cfg, t, h).value.closing.None? <==>
            forall n :: 0 <= n < |h| ==> Worse(t.side, StopNow(cfg, t, h[..n + 1]), h[n])
    ensures forall k :: && 0 <= k < |h| && !Worse(t.side, StopNow(cfg, t, h[..k + 1]), h[k])
                        && (forall n :: 0 <= n < k ==> Worse(t.side, StopNow(cfg, t, h[..n + 1]), h[n])) ==>
              var stop := StopNow(cfg, t, h[..k + 1]);
              && Run(cfg, t, h).value.closing.Some?
              && Run(cfg, t, h).value.closing.value.reason == (if stop == t.entry then BreakEven else StopLoss)
              && Run(cfg, t, h).value.closing.value.pnl
                 == Product(t.margin, Sum(Shares(PlansFromTrade(t), ReachedLegs(t, h[..k + 1]), stop, t.side, t.entry,
                                                 t.leverage)))
              && Run(cfg, t, h).value.touched == ReachedLegs(t, h[..k + 1])
  {
    hide Run, Reached, ReachedLegs, StopNow, Shares, PlansFromTrade, Product, Sum, Worse;
    if h == [] {
      RunOfNothing(cfg, t);
    } else {
      var m := |h| - 1;
      var front, price := h[..m], h[m];
      assert h == front + [price] && h[..m + 1] == h;
      assert forall n :: 0 <= n < m ==> front[n] == h[n] && front[..n + 1] == h[..n + 1];
      SomeTargetUnreached(t, front, price);
      ClosesAtFirstStop(cfg, t, front);
      if Run(cfg, t, front).value.closing.None? {
        NextTick(cfg, t, front, price);
      } else {
        ClosedForGood(cfg, t, front, [price]);
      }
    }
  }

  lemma RunOfNothing(cfg: Config, t: Trade)
    ensures Run(cfg, t, []) == Success(t)
  {
  }

  lemma SomeTargetUnreached(t: Trade, h: seq<real>, price: real)
    requires exists i :: 0 <= i < |t.legs| && !Reached(t.side, h + [price], t.legs[i].target)
    ensures exists i :: 0 <= i < |t.legs| && !Reached(t.side, h, t.legs[i].target)
  {
    var i :| 0 <= i < |t.legs| && !Reached(t.side, h + [price], t.legs[i].target);
    assert forall j :: 0 <= j < |h| ==> (h + [price])[j] == h[j];
    assert !Reached(t.side, h, t.legs[i].target);
  }
}
