/** Whole runs of one live trade: opening, fill events, liquidation, the model-3 exit and
    reconciliation in any order and number, with crashes at any moment. */
module LiveRuns {
  import opened Common
  import opened OrderIds
  import opened LiveExchange
  import opened LiveTrade
  import opened LiveOpening
  import opened Reconciliation
  import E = ExecutionPlan
  import opened Sizing

  /** What a safe state means for the money at risk: an open trade with a stored stop and an open
      position has a live stop order, the stored one or the break-even one at the entry, for at
      least the whole position. */
  lemma SafeMeansCovered(r: Row, a: Account)
    requires Inv(r, a) && r.status == Open && r.slOrderId.Some? && a.position > 0.0
    ensures exists k :: k in {r.slOrderId.value, BeKey(r.id)} && k in a.orders && a.orders[k].kind == Stop
                        && a.orders[k].qty >= a.position && (k == BeKey(r.id) ==> a.orders[k].price == r.entry)
  {
    hide Sum;
    var k := if Covers(a, r.slOrderId.value) then r.slOrderId.value else BeKey(r.id);
    assert OrderOk(r, a.position, k, a.orders[k]);
  }

  /** What a safe state means for the books: the touched targets are the filled legs, and what the
      database thinks is open is the sum of the unfilled legs and covers the exchange's position. */
  lemma FactsOfSafeRows(r: Row, a: Account)
    requires Inv(r, a)
    ensures r.touched == FilledIndices(r.legs) && a.position <= Remaining(r) <= r.qty
    ensures r.legs != [] ==> Remaining(r) == Sum(UnfilledQuantities(r.legs)) && Sum(Quantities(r.legs)) == r.qty
  {
    hide Sum;
    RemainingCoversPosition(r, a);
    SumNonNegative(FilledQuantities(r.legs));
    if r.legs != [] {
      RemainingIsUnfilled(r);
    }
  }

  lemma SameTradeBackwards(r: Row, s: Row)
    requires SameTrade(r, s)
    ensures SameTrade(s, r)
  {
  }

  /** The steps of the engine that can happen to a stored trade. */
  datatype Step =
    | TimePasses
    | Delivered(e: Event, moveToBreakEven: bool)
    | PriceSeen(symbol: string, mark: MarkPrice, userRoi: Option<real>, defaultRoi: real)
    | ReconcilePass

  // ---------------------------------------------------------------- what an event does

  /** What one delivery of an event makes of the row. */
  ghost predicate EventOutcome(r: Row, e: Event, moveToBreakEven: bool, end: Row)
    requires RowOk(r)
  {
    if IgnoredBy(r, e) then end == r
    else if e.clientId == r.slOrderId then end == ClosedRow(r, StopClosing(r, e), r.touched)
    else exists i :: FillsLeg(r, i, e) && TakeProfitOutcome(r, i, e, moveToBreakEven, end)
  }

  /** An event that is not ignored fills a leg for the first time or is the stored stop. */
  lemma NotIgnored(r: Row, e: Event)
    requires RowOk(r) && !IgnoredBy(r, e) && !(e.calculated && r.status == Open)
    ensures IsFill(e) && r.status != Closed
    ensures e.clientId == r.slOrderId || exists i :: FillsLeg(r, i, e)
  {
    hide Sum, Quantities, FilledIndices;
    if exists i :: 0 <= i < |r.legs| && r.legs[i].tpOrderId == e.clientId {
      var i :| 0 <= i < |r.legs| && r.legs[i].tpOrderId == e.clientId && r.legs[i].status != LegFilled;
      assert FillsLeg(r, i, e);
    }
  }

  /** The clauses of the handler, as one outcome. */
  lemma OutcomeOf(r: Row, e: Event, moveToBreakEven: bool, end: Row)
    requires RowOk(r) && !(e.calculated && r.status == Open)
    requires IgnoredBy(r, e) ==> end == r
    requires IsFill(e) && r.status != Closed && e.clientId == r.slOrderId ==>
               end == ClosedRow(r, StopClosing(r, e), r.touched)
    requires IsFill(e) ==>
               forall i :: 0 <= i < |r.legs| && FillsLeg(r, i, e) ==> TakeProfitOutcome(r, i, e, moveToBreakEven, end)
    ensures EventOutcome(r, e, moveToBreakEven, end)
  {
    hide RowOk, ClosedRow, StopClosing, TakeProfitOutcome;
    if !IgnoredBy(r, e) {
      NotIgnored(r, e);
    }
  }

  /** The events that move the stop: from an open trade still under its original stop, the first
      fill of the first target, with quantity left over. */
  ghost predicate MovesTheStop(r: Row, e: Event, i: nat) {
    && r.status == Open && r.slOrderId == Some(SlKey(r.id)) && IsFill(e) && !e.calculated
    && FillsLeg(r, i, e) && r.legs[i].index == 1
    && !AllFilled(RowWithLegFilled(r, i).legs) && Remaining(RowWithLegFilled(r, i)) > 0.0
  }

  /** Only such an event replaces the stored original stop by the break-even one. */
  lemma MoveMeansFirstFill(r: Row, e: Event, moveToBreakEven: bool, end: Row)
    requires RowOk(r) && EventOutcome(r, e, moveToBreakEven, end) && !e.calculated && r.status == Open
    requires r.slOrderId == Some(SlKey(r.id)) && end.slOrderId == Some(BeKey(r.id))
    ensures moveToBreakEven && exists i :: MovesTheStop(r, e, i)
  {
    hide RowOk, Remaining, StopClosing, AllTpClosing;
    if !IgnoredBy(r, e) {
      NotIgnored(r, e);
      var i :| FillsLeg(r, i, e) && TakeProfitOutcome(r, i, e, moveToBreakEven, end);
      assert MovesTheStop(r, e, i);
    }
  }

  /** The step moves the stop of a trade in this row. */
  ghost predicate StepMovesTheStop(r: Row, step: Step) {
    step.Delivered? && step.moveToBreakEven && exists i :: MovesTheStop(r, step.e, i)
  }

  /** One delivery. The stored stop is as live as before up to history[lost]. */
  method Deliver(t: LiveTrade, ex: Exchange, e: Event, moveToBreakEven: bool) returns (ghost lost: nat)
    requires Ready(t, ex)
    modifies t, ex
    ensures Kept(t, ex) && HeldUntil(t, ex, lost)
    ensures lost < |ex.history| && old(t.status) == Open ==>
              moveToBreakEven && exists i :: MovesTheStop(old(t.View()), e, i)
  {
    hide Inv, Linked, Protected, Covers, Serves, Held, IgnoredBy, ClosedRow, StopClosing, TakeProfitOutcome,
         MovesTheStop, RowWithLegFilled, Remaining, RowOk, EventOutcome;
    CommittedIsLinked(t, ex);
    lost := |ex.history|;
    if Truthful(e, ex.account) {
      ghost var start := t.View();
      var res;
      res, lost := HandleUserStreamEvent(t, ex, e, moveToBreakEven);
      if lost < |ex.history| && start.status == Open {
        LiquidationKeepsStop(start);
        OutcomeOf(start, e, moveToBreakEven, t.View());
        MoveMeansFirstFill(start, e, moveToBreakEven, t.View());
      }
    }
  }

  lemma LiquidationKeepsStop(r: Row)
    ensures ClosedRow(r, Closing(Liquidation, -r.margin, -100.0), r.touched).slOrderId == r.slOrderId
  {
  }

  /** One step, not yet committed. The stored stop is as live as before up to history[lost]. */
  method TakeStep(t: LiveTrade, ex: Exchange, step: Step) returns (ghost lost: nat)
    requires Ready(t, ex)
    modifies t, ex
    ensures Kept(t, ex) && HeldUntil(t, ex, lost)
    ensures lost < |ex.history| && old(t.status) == Open ==> StepMovesTheStop(old(t.View()), step)
  {
    hide Inv, Linked, Protected, Covers, Serves, MovesTheStop;
    CommittedIsLinked(t, ex);
    match step {
      case TimePasses =>
        ex.Elapse();
        ValidAccount(ex);
        lost := |ex.history|;
      case Delivered(e, moveToBreakEven) =>
        lost := Deliver(t, ex, e, moveToBreakEven);
      case PriceSeen(symbol, mark, userRoi, defaultRoi) =>
        LeverageIsPositive(t.View());
        var _ := HandleMarkPriceForModel3(t, ex, symbol, mark, userRoi, defaultRoi);
        lost := |ex.history|;
      case ReconcilePass =>
        if Active(t.status) {
          var _ := ReconcileTrade(t, ex);
        }
        lost := |ex.history|;
    }
  }

  lemma LeverageIsPositive(r: Row)
    requires RowOk(r)
    ensures r.leverage > 0
  {
  }

  /** A step, and the moment of it at which the process stops, if it does; without one it commits. */
  datatype Turn = Turn(step: Step, stop: Option<nat>)

  /** One turn. The stored stop, if it was live, is live afterwards unless the turn was interrupted:
      it moved the stop, with the position open, and the process stopped after the cancellation of
      the old stop took effect. */
  method OneTurn(t: LiveTrade, ex: Exchange, turn: Turn) returns (ghost interrupted: bool)
    requires Ready(t, ex)
    modifies t, ex
    ensures Ready(t, ex) && Inv(t.View(), ex.account) && SameTrade(old(t.View()), t.View())
    ensures old(t.status) == Closed ==> t.View() == old(t.View())
    ensures Held(old(t.View()), old(ex.account)) ==> (interrupted <==> !Held(t.View(), ex.account))
    ensures interrupted ==>
              && turn.stop.Some? && StepMovesTheStop(old(t.View()), turn.step) && ex.account.position != 0.0
              && t.View() == old(t.View()) && SlKey(t.id) !in ex.account.orders && Covers(ex.account, BeKey(t.id))
  {
    hide Inv, SameTrade, RowOk, MovesTheStop, StepMovesTheStop;
    CommittedIsLinked(t, ex);
    var from := |ex.history|;
    ghost var lost := TakeStep(t, ex, turn.step);
    if turn.stop.None? {
      ex.Commit(t.View());
      return false;
    }
    var i := from - 1 + turn.stop.value;
    if i >= |ex.history| {
      i := |ex.history| - 1;
    }
    interrupted := i >= lost && old(t.status) == Open && ex.history[i].position != 0.0;
    ex.CrashAt(i);
    SameTradeBackwards(old(t.View()), t.View());
    t.Reload(ex.committed);
    ValidAccount(ex);
    InvParts(t.View(), ex.account);
  }

  /** A turn that could lose the stop: it stops during a first-target event. */
  predicate Risky(id: int, turn: Turn) {
    && turn.stop.Some? && turn.step.Delivered? && turn.step.moveToBreakEven
    && turn.step.e.clientId == Some(TpKey(id, 1))
  }

  /** Any sequence of turns. At the end, and hence at every point of a run, the stored row and the
      account are safe; the account was safe for the stored row at every moment in between. A
      closed row never changes again. The stored stop is live in every run in which no process
      stopped between the cancellation of the old stop and the commit of the new id. */
  method Continue(t: LiveTrade, ex: Exchange, turns: seq<Turn>) returns (ghost interrupted: bool)
    requires Ready(t, ex)
    modifies t, ex
    ensures Ready(t, ex) && Inv(t.View(), ex.account) && SameTrade(old(t.View()), t.View())
    ensures old(t.status) == Closed ==> t.View() == old(t.View())
    ensures !interrupted && Held(old(t.View()), old(ex.account)) ==> Held(t.View(), ex.account)
    ensures interrupted ==> exists k :: 0 <= k < |turns| && Risky(t.id, turns[k])
    ensures turns == [] ==> t.View() == old(t.View()) && ex.account == old(ex.account)
  {
    hide Inv, Held, SameTrade, Covers, StepMovesTheStop, Risky;
    CommittedIsLinked(t, ex);
    interrupted := false;
    for k := 0 to |turns|
      invariant Ready(t, ex) && Inv(t.View(), ex.account) && SameTrade(old(t.View()), t.View())
      invariant old(t.status) == Closed ==> t.View() == old(t.View())
      invariant !interrupted && Held(old(t.View()), old(ex.account)) ==> Held(t.View(), ex.account)
      invariant interrupted ==> exists j :: 0 <= j < k && Risky(t.id, turns[j])
      invariant k == 0 ==> t.View() == old(t.View()) && ex.account == old(ex.account)
    {
      ghost var before := t.View();
      InvParts(before, ex.account);
      ghost var now := OneTurn(t, ex, turns[k]);
      SameTradeTransitive(old(t.View()), before, t.View());
      if now {
        InterruptedIsRisky(before, turns[k]);
      }
      interrupted := interrupted || now;
    }
  }

  lemma InterruptedIsRisky(r: Row, turn: Turn)
    requires RowOk(r) && turn.stop.Some? && StepMovesTheStop(r, turn.step)
    ensures Risky(r.id, turn)
  {
    hide Sum, Quantities, FilledIndices, AllFilled, Remaining, RowWithLegFilled;
    var i :| MovesTheStop(r, turn.step.e, i);
    OnlyOneLegHasTheKey(r, i, turn.step.e.clientId.value);
  }

  /** The whole life of a trade from its stored plan on. */
  method Live(t: LiveTrade, ex: Exchange, mode: EntryMode, stopPrice: real, turns: seq<Turn>)
    returns (result: OpenResult, failed: bool, ghost interrupted: bool)
    requires Ready(t, ex) && t.status == PendingEntry && ex.account == Account(0.0, map[], {})
    requires t.slOrderId.None?
    requires forall i :: 0 <= i < |t.legs| ==> t.legs[i].tpOrderId.None? && t.legs[i].status == LegOpen
    modifies t, ex
    ensures Ready(t, ex) && Inv(t.View(), ex.account) && SameTrade(old(t.View()), t.View())
    ensures !interrupted ==> Held(t.View(), ex.account)
    ensures interrupted ==> exists k :: 0 <= k < |turns| && Risky(t.id, turns[k])
    ensures result == EmergencyClosed && !failed ==> t.status == Closed && t.closing == Some(ABORTED)
    ensures turns == [] ==> t.status == if failed then Errored else StatusFor(result)
    ensures turns == [] && t.status == Open ==> (t.slOrderId.Some? <==> result.Opened?)
    ensures turns == [] && ex.quiet && result.Opened? ==> AllPlaced(ex.account, old(t.View()), stopPrice)
  {
    hide Inv, Held, SameTrade, Covers, Risky, AllPlaced;
    result, failed := OpenLiveTrade(t, ex, mode, stopPrice);
    ex.Commit(t.View());
    ghost var opening := t.View();
    interrupted := Continue(t, ex, turns);
    SameTradeTransitive(old(t.View()), opening, t.View());
  }

  // ---------------------------------------------------------------- from a plan

  /** The row that is stored for a plan, before any order is placed. */
  function PlannedRow(id: int, r: E.Request, plan: E.Plan): Row {
    Row(id, r.side, plan.leverage, plan.margin, plan.qty, r.entry, r.stopLoss, PendingEntry, None, None,
        seq(|plan.legs|, i requires 0 <= i < |plan.legs| =>
              Leg(plan.legs[i].index, plan.legs[i].target, plan.legs[i].qty, None, LegOpen)), {}, None)
  }

  lemma PlannedRowIsSafe(id: int, r: E.Request, plan: E.Plan)
    requires id > 0 && E.Rejection(r).None? && plan.margin == r.margin && plan.leverage == r.leverage
    requires plan.qty == E.TotalQty(r)
    requires if r.riskModel == 3 then plan.legs == [] else E.LegsCarryPosition(r, plan)
    ensures Inv(PlannedRow(id, r, plan), Account(0.0, map[], {}))
  {
    hide Sum, E.TotalQty, E.EntryPrice, E.FractionsOf, E.RawModel3Exit, E.Notional;
    var row := PlannedRow(id, r, plan);
    assert Quantities(row.legs) == E.Quantities(plan.legs);
    forall i | 0 <= i < |row.legs|
      ensures row.legs[i].qty >= 0.0
    {
      assert E.Sellable(r.filters, plan.legs[i]);
    }
    assert FilledIndices(row.legs) == {};
    assert RowOk(row);
    ZeroSum(FilledOnExchange(row, {}));
  }

  /** Every leg sells at the target of its index, rounded, and is large enough for the exchange. */
  ghost predicate LegsAsRequested(r: E.Request, legs: seq<Leg>) {
    && r.filters.tickSize > 0.0 && legs != []
    && forall i :: 0 <= i < |legs| ==>
         && 1 <= legs[i].index <= |r.targets|
         && legs[i].target == RoundPrice(r.side, r.targets[legs[i].index - 1], r.filters.tickSize)
         && legs[i].qty >= r.filters.minQty
         && legs[i].qty * legs[i].target >= r.filters.minNotional
  }

  /** The position has been bought and its stop is placed at the request's stop price, rounded. */
  ghost predicate OrdersAsRequested(r: E.Request, row: Row, a: Account) {
    && r.filters.tickSize > 0.0 && a.position == row.qty && SlKey(row.id) in a.orders
    && a.orders[SlKey(row.id)] == Order(Stop, row.qty, RoundPrice(r.side, r.stopLoss, r.filters.tickSize))
  }

  lemma PlannedLegs(id: int, r: E.Request, plan: E.Plan, row: Row)
    requires r.filters.tickSize > 0.0 && r.filters.stepSize > 0.0
    requires E.LegsCarryPosition(r, plan) && SameTrade(PlannedRow(id, r, plan), row)
    ensures row.legs != [] && LegsAsRequested(r, row.legs)
  {
    hide RoundPrice, Sum, E.GetsItsShare, WholeSteps;
    forall i | 0 <= i < |row.legs|
      ensures 1 <= row.legs[i].index <= |r.targets|
      ensures row.legs[i].target == RoundPrice(r.side, r.targets[row.legs[i].index - 1], r.filters.tickSize)
      ensures row.legs[i].qty >= r.filters.minQty && row.legs[i].qty * row.legs[i].target >= r.filters.minNotional
    {
      var leg := plan.legs[i];
      assert row.legs[i].index == leg.index && row.legs[i].qty == leg.qty && row.legs[i].target == leg.target;
      assert E.Sellable(r.filters, leg);
    }
  }

  lemma PlannedOrders(id: int, r: E.Request, plan: E.Plan, row: Row, a: Account)
    requires r.filters.tickSize > 0.0 && plan.stopLoss == RoundPrice(r.side, r.stopLoss, r.filters.tickSize)
    requires AllPlaced(a, PlannedRow(id, r, plan), plan.stopLoss) && SameTrade(PlannedRow(id, r, plan), row)
    ensures OrdersAsRequested(r, row, a)
  {
    hide RoundPrice;
  }

  /** The whole life of a trade from an execution request on. Of a model-1 or model-2 trade the
      touched targets are at every point the indices of the filled legs, and what the database
      thinks is open is the sum of the unfilled legs and at least the exchange's position. */
  method LiveFromRequest(id: int, r: E.Request, mode: EntryMode, turns: seq<Turn>, quiet: bool)
    returns (result: Result<(LiveTrade, Exchange), E.PlanError>)
    requires id > 0
    ensures match result
            case Failure(e) => E.Rejection(r) == Some(e)
            case Success((t, ex)) =>
              && E.Rejection(r).None? && fresh(t) && fresh(ex)
              && Ready(t, ex) && Inv(t.View(), ex.account)
              && t.side == r.side && t.entry == r.entry && t.stopLoss == r.stopLoss
              && t.leverage == r.leverage && t.margin == r.margin
              && t.View().touched == FilledIndices(t.legs)
              && ex.account.position <= Remaining(t.View()) <= t.qty == E.TotalQty(r)
              && (r.riskModel != 3 ==>
                    && Remaining(t.View()) == Sum(UnfilledQuantities(t.legs))
                    && Sum(Quantities(t.legs)) == t.qty
                    && LegsAsRequested(r, t.legs))
              && (turns == [] && quiet && t.status == Open && t.slOrderId.Some? ==>
                    OrdersAsRequested(r, t.View(), ex.account))
  {
    hide Inv, Held, Risky, SameTrade, RowOk, Remaining, Sum, AllPlaced, RoundPrice, LegsAsRequested,
         OrdersAsRequested, E.LegsCarryPosition, E.EntryPrice, E.TotalQty, E.RawModel3Exit;
    var planned := E.BuildExecutionPlan(r);
    if planned.Failure? {
      return Failure(planned.error);
    }
    var plan := planned.value;
    PlannedRowIsSafe(id, r, plan);
    var row := PlannedRow(id, r, plan);
    var ex := new Exchange(row, Account(0.0, map[], {}), quiet);
    var t := new LiveTrade(row);
    var outcome, failed, _ := Live(t, ex, mode, plan.stopLoss, turns);
    if r.riskModel != 3 {
      PlannedLegs(id, r, plan, t.View());
    }
    FactsOfSafeRows(t.View(), ex.account);
    if turns == [] && quiet && outcome.Opened? && !failed {
      PlannedOrders(id, r, plan, t.View(), ex.account);
    }
    return Success((t, ex));
  }

  /** The same event delivered twice: row and account are those that the first delivery left and
      committed, and nothing has happened on the exchange since. */
  method HandleTwice(t: LiveTrade, ex: Exchange, e: Event, moveToBreakEven: bool)
    returns (first: HandlerResult, second: HandlerResult, ghost row: Row, ghost account: Account)
    requires Ready(t, ex) && Truthful(e, ex.account) && !e.calculated
    modifies t, ex
    ensures Ready(t, ex) && second in {Ignored, EntryFilled} && RowOk(old(t.View()))
    ensures t.View() == row && ex.account == account && ex.history == [account]
    ensures EventOutcome(old(t.View()), e, moveToBreakEven, row)
    ensures old(IgnoredBy(t.View(), e)) ==> account == old(ex.account)
  {
    hide Inv, IgnoredBy, ClosedRow, StopClosing, TakeProfitOutcome, Held, HeldUntil, Covers, RowWithLegFilled,
         Remaining;
    ghost var start := t.View();
    ghost var lost;
    first, lost := HandleUserStreamEvent(t, ex, e, moveToBreakEven);
    row, account := t.View(), ex.account;
    OutcomeOf(start, e, moveToBreakEven, row);
    ex.Commit(t.View());
    second, lost := HandleUserStreamEvent(t, ex, e, moveToBreakEven);
  }

  // ---------------------------------------------------------------- why interrupted runs are told apart

  /** On every trade with an open position, also when nothing fails and nothing else fills, a
      process that stops after the break-even move and before its commit leaves the database with
      the id of a stop that is gone. The position is covered by a stop whose id is not stored. */
  method CrashAfterMovingTheStop(t: LiveTrade, ex: Exchange, e: Event, ghost i: nat)
    requires Ready(t, ex) && ex.quiet && Truthful(e, ex.account)
    requires MovesTheStop(t.View(), e, i) && ex.account.position != 0.0
    modifies t, ex
    ensures Ready(t, ex) && Inv(t.View(), ex.account) && t.View() == old(t.View())
    ensures ex.account.position == old(ex.account.position)
    ensures !Held(t.View(), ex.account) && Covers(ex.account, BeKey(t.id))
  {
    hide Inv, Linked, Remaining, RowWithLegFilled, IgnoredBy, StopClosing, AllTpClosing, RowOk, ClosedRow, Truthful;
    CommittedIsLinked(t, ex);
    RowWithLegFilledBasics(t.View(), i);
    var _, _ := HandleUserStreamEvent(t, ex, e, true);
    ex.CrashAt(|ex.history| - 1);
    SameTradeBackwards(old(t.View()), t.View());
    t.Reload(ex.committed);
    ValidAccount(ex);
    InvParts(t.View(), ex.account);
  }

  const FIRST := Leg(1, 110.0, 1.0, Some(TpKey(1, 1)), LegOpen)
  const SECOND := Leg(2, 120.0, 1.0, Some(TpKey(1, 2)), LegOpen)

  /** A long of two legs whose first take-profit has filled, unknown to the database. */
  const ROW := Row(1, Long, 10, 100.0, 2.0, 100.0, 95.0, Open, None, Some(SlKey(1)), [FIRST, SECOND], {}, None)
  const ACCOUNT := Account(1.0, map[SlKey(1) := Order(Stop, 2.0, 95.0)], {TpKey(1, 1)})
  const FILL := Event(false, false, true, Some(TpKey(1, 1)), Some(110.0), None)

  lemma TwoTerms(s: seq<real>)
    requires |s| == 2
    ensures Sum(s) == s[0] + s[1]
  {
    assert s[..1][..0] == [];
    assert Sum(s[..1]) == s[0];
  }

  lemma StartIsSafe()
    ensures Inv(ROW, ACCOUNT) && Held(ROW, ACCOUNT)
  {
    TwoTerms(Quantities(ROW.legs));
    TwoTerms(FilledOnExchange(ROW, ACCOUNT.fills));
    assert RowOk(ROW);
    assert Unsold(ROW, ACCOUNT.fills) == 1.0;
  }

  lemma OneLegRemains()
    ensures var r := RowWithLegFilled(ROW, 0);
            Remaining(r) == 1.0 && !AllFilled(r.legs) && r.status == Open
  {
    var r := RowWithLegFilled(ROW, 0);
    assert r.legs == [FIRST.(status := LegFilled), SECOND];
    TwoTerms(FilledQuantities(r.legs));
    assert r.legs[1].status != LegFilled;
  }

  /** Such a trade exists. */
  method CrashWhileMovingTheStop() returns (t: LiveTrade, ex: Exchange)
    ensures fresh(t) && fresh(ex) && Ready(t, ex) && Inv(t.View(), ex.account)
    ensures t.View() == ROW && ex.account.position > 0.0
    ensures !Held(t.View(), ex.account) && Covers(ex.account, BeKey(t.id))
  {
    hide Inv, Linked, Remaining, AllFilled, RowWithLegFilled, RowOk, Held, Covers;
    StartIsSafe();
    ex := new Exchange(ROW, ACCOUNT, true);
    t := new LiveTrade(ROW);
    OneLegRemains();
    assert FillsLeg(t.View(), 0, FILL);
    CrashAfterMovingTheStop(t, ex, FILL, 0);
  }

  // ---------------------------------------------------------------- a leg that can be sold twice

  /** Reconciled before the fill is known, the account gets the filled leg's take-profit again.
      When that order fills too, the position is flat although the second leg was never sold. */
  lemma FilledLegSoldTwice()
    ensures Inv(ROW, ACCOUNT) && Unsold(ROW, ACCOUNT.fills) == 1.0
    ensures TpKey(1, 1) in ACCOUNT.fills && TpKey(1, 1) !in ACCOUNT.orders
    ensures var b := Reconciled(ROW, ACCOUNT).1;
            && TpKey(1, 1) in b.orders && b.orders[TpKey(1, 1)].qty == 1.0 && b.position == 1.0
            && Fill(b, TpKey(1, 1)).position == 0.0
            && Unsold(ROW, Fill(b, TpKey(1, 1)).fills) == 1.0
  {
    hide Remaining;
    StartIsSafe();
    TwoTerms(FilledOnExchange(ROW, ACCOUNT.fills));
    var b := Reconciled(ROW, ACCOUNT).1;
    FilledTakeProfitPlacedAgainIff(ROW, ACCOUNT, 0);
    assert ACCOUNT.fills + {TpKey(1, 1)} == ACCOUNT.fills;
    var ids := ACCOUNT.orders.Keys;
    assert RepairedOrders(1, ROW.legs, ids, ACCOUNT.orders, 1)
           == ACCOUNT.orders[TpKey(1, 1) := Order(TakeProfit, 1.0, 110.0)];
  }
}
