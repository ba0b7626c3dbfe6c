/** The demo and the live engine account alike: the same legs, fills and exit give the same closing
    figures, although one works on fractions and the other on quantities with a clamp
    (services/core_engine/lifecycle.py, services/demo_engine/trade_logic.py and engine.py). */
module Accounting {
  import opened Common
  import opened Pnl
  import opened LiveExchange
  import opened LiveTrade
  import LiveOpening
  import LivePnl
  import D = DemoTrade

  /** The demo trade that a live trade's legs would have been opened as. */
  function DemoOf(cfg: D.Config, r: Row): D.Trade
    requires r.leverage > 0
  {
    D.Trade(0, 0, "", r.side, r.entry, r.stopLoss, r.leverage, r.margin,
            LiquidationPrice(r.side, r.entry, r.leverage, cfg.maintenanceRate),
            seq(|r.legs|, i requires 0 <= i < |r.legs| =>
                  D.Leg(r.legs[i].index, r.legs[i].target, r.legs[i].qty, D.LegOpen)),
            {}, None)
  }

  /** Fractions rebuilt from the demo's stored quantities are the live quantities over the total. */
  lemma SameFractions(cfg: D.Config, r: Row)
    requires RowOk(r)
    ensures var plans := D.PlansFromTrade(DemoOf(cfg, r));
            && |plans| == |r.legs|
            && forall i :: 0 <= i < |r.legs| ==>
                 plans[i] == D.LegPlan(r.legs[i].index, r.legs[i].target, Quotient(r.legs[i].qty, r.qty), r.legs[i].qty)
  {
    hide Quotient, Sum, LiquidationPrice, FilledIndices;
    var t := DemoOf(cfg, r);
    assert D.LegQuantities(t.legs) == Quantities(r.legs);
    EmptySum();
  }

  /** With distinct leg indices, a leg is filled exactly when its index was touched. */
  lemma FilledIffTouched(r: Row, i: nat)
    requires RowOk(r) && i < |r.legs|
    ensures r.legs[i].status == LegFilled <==> r.legs[i].index in r.touched
  {
    hide Sum, Quantities;
    if r.legs[i].index in r.touched {
      var leg :| leg in r.legs && leg.status == LegFilled && leg.index == r.legs[i].index;
      var j :| 0 <= j < |r.legs| && r.legs[j] == leg;
      assert j == i;
    }
  }

  lemma RowBasics(r: Row)
    requires RowOk(r)
    ensures r.qty > 0.0 && r.margin > 0.0 && r.leverage > 0
  {
  }

  lemma {:induction false} SameLegsPnl(cfg: D.Config, r: Row, n: nat, exit: Option<real>)
    requires RowOk(r) && n <= |r.legs|
    ensures |D.PlansFromTrade(DemoOf(cfg, r))| == |r.legs|
    ensures LivePnl.LegsPnl(r, r.legs[..n], exit, None)
            == D.BlendedPnl(D.PlansFromTrade(DemoOf(cfg, r))[..n], r.touched, exit, r.margin, r.side, r.entry,
                            r.leverage)
  {
    hide D.PlansFromTrade, RowOk, PnlUsdtForFraction, Quotient, LiquidationPrice;
    RowBasics(r);
    SameFractions(cfg, r);
    var plans := D.PlansFromTrade(DemoOf(cfg, r));
    if n > 0 {
      SameLegsPnl(cfg, r, n - 1, exit);
      FilledIffTouched(r, n - 1);
      assert r.legs[..n][..n - 1] == r.legs[..n - 1] && plans[..n][..n - 1] == plans[..n - 1];
    }
  }

  /** On the same legs, fills and exit, the live result is the demo's, clamped at minus one margin. */
  lemma BlendsAgree(cfg: D.Config, r: Row, exit: Option<real>)
    requires RowOk(r) && r.legs != []
    ensures var demo := D.BlendedPnl(D.PlansFromTrade(DemoOf(cfg, r)), r.touched, exit, r.margin, r.side, r.entry,
                                     r.leverage);
            && demo.Success?
            && LivePnl.BlendedPnl(r, exit, None) == Success(Max(demo.value, -r.margin))
  {
    hide D.PlansFromTrade, D.BlendedPnl, LivePnl.LegsPnl, RowOk;
    RowBasics(r);
    LivePnl.BlendedPnlSucceeds(r, exit, None);
    SameLegsPnl(cfg, r, |r.legs|, exit);
    var plans := D.PlansFromTrade(DemoOf(cfg, r));
    assert r.legs[..|r.legs|] == r.legs && plans[..|r.legs|] == plans;
  }

  // ---------------------------------------------------------------- whole closings

  /** What the live engine stores when it closes the trade for the reason and at the price of a
      demo verdict, on events that carry no profit figure of the exchange's own. */
  function LiveClosing(cfg: D.Config, r: Row, v: D.Verdict): Closing
    requires RowOk(r)
  {
    match v.reason
    case Liquidation => Closing(Liquidation, -r.margin, -100.0)
    case Model3Exit => Closing(Model3Exited, LiveOpening.Model3Pnl(r.margin, cfg.roiPct), cfg.roiPct)
    case AllTp => AllTpClosing(r, Event(false, false, true, None, None, None), 0)
    case _ => StopClosing(r, Event(false, false, true, None, Some(v.exitPrice), None))
  }

  predicate SameReason(live: Reason, demo: D.Reason) {
    match demo
    case Liquidation => live == Liquidation
    case Model3Exit => live == Model3Exited
    case AllTp => live == AllTp
    case BreakEven => live == BreakEven
    case StopLoss => live == StopLoss
  }

  /** The clamp does nothing to a result that is the margin times a return above minus one. */
  lemma ClampIsIdle(margin: real, r: real)
    requires margin > 0.0 && r > -1.0
    ensures Max(Product(margin, r), -margin) == Product(margin, r)
    ensures Quotient(Product(margin, r), margin) == r
  {
    D.ShareAboveFraction(margin, r);
    D.CancelFactor(margin, r);
  }

  /** The live blended result of a stop or of all take-profits is the demo's, and needs no clamp. */
  lemma BlendIsReturn(cfg: D.Config, r: Row, v: D.Verdict, exit: Option<real>)
    requires RowOk(r) && D.Sane(cfg, DemoOf(cfg, r)) && r.touched == v.touched
    requires D.VerdictReturn(DemoOf(cfg, r), v) > -1.0 && v.reason != D.Liquidation
    requires exit == Some(v.exitPrice)
             || (exit.None? && r.legs != [] && forall i :: 0 <= i < |r.legs| ==> r.legs[i].index in r.touched)
    ensures LivePnl.BlendedPnl(r, exit, None) == Success(Product(r.margin, D.VerdictReturn(DemoOf(cfg, r), v)))
  {
    hide D.PlansFromTrade, D.BlendedPnl, D.Shares, Product, LiquidationPrice, Return, PnlUsdtForFraction, Sum,
         FilledIndices, Quantities;
    var t := DemoOf(cfg, r);
    var x := D.VerdictReturn(t, v);
    ClampIsIdle(r.margin, x);
    if r.legs == [] {
      D.WholePositionPnl(r.margin, r.side, r.entry, v.exitPrice, r.leverage);
    } else {
      BlendsAgree(cfg, r, exit);
      D.RebuiltFractionsPartition(t);
      D.PlansAreProportions(t);
      SameFractions(cfg, r);
      D.BlendedIsShares(D.PlansFromTrade(t), r.touched, exit, v.exitPrice, r.margin, r.side, r.entry, r.leverage);
    }
  }

  /** Whenever the demo closes, the live engine would book the same: liquidation, the model-3 exit,
      all take-profits, break even and stop, to the same profit, return and reason. */
  lemma DemoAndLiveCloseAlike(cfg: D.Config, r: Row, h: seq<real>)
    requires RowOk(r) && D.Sane(cfg, DemoOf(cfg, r)) && h != []
    requires D.VerdictOn(cfg, DemoOf(cfg, r), h).Some?
    requires r.touched == D.VerdictOn(cfg, DemoOf(cfg, r), h).value.touched
    ensures var v := D.VerdictOn(cfg, DemoOf(cfg, r), h).value;
            var demo, live := D.ClosedBy(DemoOf(cfg, r), v).closing.value, LiveClosing(cfg, r, v);
            live.pnl == demo.pnl && live.roi == demo.roi && SameReason(live.reason, demo.reason)
  {
    hide D.PlansFromTrade, D.Shares, Product, LiquidationPrice, Return, PnlUsdtForFraction, Sum, FilledIndices,
         Quantities, D.TouchedBy, LivePnl.BlendedPnl, Quotient, D.VerdictReturn, D.Model3Threshold, RowOk;
    RowBasics(r);
    var t := DemoOf(cfg, r);
    var v := D.VerdictOn(cfg, t, h).value;
    var x := D.VerdictReturn(t, v);
    ProductLaws(r.margin, 0.0, 0.0);
    match v.reason {
      case Liquidation =>
        D.LiquidationReturn(t, v);
      case Model3Exit =>
        Model3Alike(cfg, r, v);
      case _ =>
        D.ExitBeatsLiquidation(cfg, t, h);
        ClampIsIdle(r.margin, x);
        if v.reason == D.AllTp {
          EveryLegTouched(t, r, v.touched);
        }
        BlendIsReturn(cfg, r, v, if v.reason == D.AllTp then None else Some(v.exitPrice));
    }
  }

  lemma EveryLegTouched(t: D.Trade, r: Row, touched: set<nat>)
    requires |t.legs| == |r.legs| && forall i :: 0 <= i < |r.legs| ==> t.legs[i].index == r.legs[i].index
    requires forall leg | leg in t.legs :: leg.index in touched
    ensures forall i :: 0 <= i < |r.legs| ==> r.legs[i].index in touched
  {
    forall i | 0 <= i < |r.legs|
      ensures r.legs[i].index in touched
    {
      assert t.legs[i] in t.legs;
    }
  }

  /** The demo's profit at its threshold is the live closed form. */
  lemma Model3Alike(cfg: D.Config, r: Row, v: D.Verdict)
    requires r.leverage > 0 && r.entry > 0.0 && r.legs == [] && v.reason == D.Model3Exit
    requires v.exitPrice == D.Model3Threshold(r.side, r.entry, r.leverage, cfg.roiPct)
    ensures D.VerdictReturn(DemoOf(cfg, r), v) == cfg.roiPct / 100.0
    ensures Product(r.margin, D.VerdictReturn(DemoOf(cfg, r), v)) == LiveOpening.Model3Pnl(r.margin, cfg.roiPct)
  {
    hide D.Model3Threshold, LiquidationPrice, Return;
    D.Model3ExitIsProfitable(r.side, r.entry, r.leverage, cfg.roiPct);
    assert D.VerdictReturn(DemoOf(cfg, r), v) == cfg.roiPct / 100.0;
    PercentOf(r.margin, cfg.roiPct);
  }

  lemma PercentOf(m: real, x: real)
    ensures m * (x / 100.0) == m * x / 100.0
  {
  }
}
