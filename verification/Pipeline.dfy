/** From the signal to the engines: what the sanitizer accepts is what the planner and the demo
    engine rely on. */
module Pipeline {
  import opened Common
  import opened Pnl
  import S = Sanitizer
  import D = DemoTrade
  import E = ExecutionPlan

  /** Every comparison of prices in the sanitizer and in the engines is one order on prices, the
      one in which a worse price has a lower return. */
  lemma SidesAreOneOrder(side: Side, a: real, b: real)
    ensures S.ProfitableSide(side, a, b) <==> Worse(side, a, b)
    ensures S.StopOnCorrectSide(side, a, b) <==> Worse(side, b, a)
    ensures S.Nearer(side, a, b) <==> Worse(side, a, b)
    ensures D.CrossesTakeProfit(side, a, b) <==> !Worse(side, a, b)
    ensures D.CrossesStop(side, a, b) <==> !Worse(side, b, a)
    ensures D.CrossesLiquidation(side, a, b) <==> !Worse(side, b, a)
  {
  }

  /** An accepted signal is sane: its stop is on the losing side and its targets move away from
      the entry on the profitable side. */
  lemma AcceptedIsSane(signal: S.EntrySignal, lo: real, hi: real, s: S.SanitizedSignal, keep: seq<nat>, drop: seq<nat>)
    requires S.StopOnCorrectSide(signal.side, signal.entry, signal.stopLoss)
    requires S.AcceptedAs(signal, lo, hi, s, keep, drop)
    ensures D.SaneSignal(s.side, s.entry, s.stopLoss, s.targetsClean)
  {
    S.AcceptedSignalIsTradable(signal, lo, hi, s, keep, drop);
    hide S.AcceptedAs;
    assert forall i :: 0 <= i < |s.targetsClean| ==> S.ProfitableSide(s.side, s.entry, s.targetsClean[i]);
    assert forall i, j :: 0 <= i < j < |s.targetsClean| ==> S.Nearer(s.side, s.targetsClean[i], s.targetsClean[j]);
  }

  /** The planner never rejects an accepted signal for the side of its stop or of a target. */
  lemma SidesNeverRejected(signal: S.EntrySignal, lo: real, hi: real, s: S.SanitizedSignal, keep: seq<nat>,
                           drop: seq<nat>, r: E.Request)
    requires S.StopOnCorrectSide(signal.side, signal.entry, signal.stopLoss)
    requires S.AcceptedAs(signal, lo, hi, s, keep, drop)
    requires r.side == s.side && r.entry == s.entry && r.stopLoss == s.stopLoss && r.targets == s.targetsClean
    ensures E.ValidateInputs(r) != Some(E.StopOnWrongSide) && E.ValidateInputs(r) != Some(E.TargetOnWrongSide)
    ensures E.ValidateInputs(r) != Some(E.NoTargets)
  {
    AcceptedIsSane(signal, lo, hi, s, keep, drop);
  }

  /** From an accepted signal to any point of its demo trade: whatever prices follow, the stored
      state is what the history determines, and a closed trade has lost at most its margin, and
      all of it exactly when it was liquidated. */
  lemma DemoRunOfAcceptedSignal(signal: S.EntrySignal, lo: real, hi: real, s: S.SanitizedSignal, keep: seq<nat>,
                                drop: seq<nat>, cfg: D.Config, userId: int, signalId: int, leverage: int,
                                margin: real, riskModel: int, weights: seq<real>, h: seq<real>)
    requires S.StopOnCorrectSide(signal.side, signal.entry, signal.stopLoss)
    requires S.AcceptedAs(signal, lo, hi, s, keep, drop)
    requires D.BuildDemoOpenPlan(s.side, s.entry, s.stopLoss, leverage, s.targetsClean, margin, riskModel, cfg.roiPct,
                                 weights, cfg.maintenanceRate).Success?
    ensures var plan := D.BuildDemoOpenPlan(s.side, s.entry, s.stopLoss, leverage, s.targetsClean, margin, riskModel,
                                            cfg.roiPct, weights, cfg.maintenanceRate).value;
            var t := D.OpenTrade(userId, signalId, s.symbol, s.side, s.entry, s.stopLoss, leverage, plan);
            && D.Opened(cfg, t) && D.Run(cfg, t, h) == Success(D.FromHistory(cfg, t, h))
            && match D.FromHistory(cfg, t, h).closing
               case None => true
               case Some(c) => c.pnl >= -margin && (c.pnl == -margin <==> c.reason == D.Liquidation)
  {
    hide D.BuildDemoOpenPlan, D.FromHistory, D.Run, S.AcceptedAs, Product;
    AcceptedIsSane(signal, lo, hi, s, keep, drop);
    var plan := D.BuildDemoOpenPlan(s.side, s.entry, s.stopLoss, leverage, s.targetsClean, margin, riskModel,
                                    cfg.roiPct, weights, cfg.maintenanceRate).value;
    var t := D.OpenTrade(userId, signalId, s.symbol, s.side, s.entry, s.stopLoss, leverage, plan);
    D.SaneFromSignal(cfg, userId, signalId, s.symbol, s.side, s.entry, s.stopLoss, leverage, s.targetsClean, margin,
                     riskModel, weights);
    D.PlanFractionsPartition(s.side, s.entry, s.stopLoss, leverage, s.targetsClean, margin, riskModel, cfg.roiPct,
                             weights, cfg.maintenanceRate);
    D.EngineFollowsHistory(cfg, t, h);
    D.LossIsBoundedByMargin(cfg, t, h);
  }
}
