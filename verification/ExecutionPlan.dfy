/** The execution planner: margin, leverage and targets become step-rounded legs, and legs
    below the exchange minimums are merged (services/core_engine/risk.py). */
module ExecutionPlan {
  import opened Common
  import opened Pnl
  import opened Sizing

  datatype LegPlan = LegPlan(index: nat, target: real, fraction: real, qty: real)

  datatype Plan = Plan(margin: real, leverage: int, notional: real, qty: real, entryPrice: real,
                       stopLoss: real, liqPrice: real, legs: seq<LegPlan>, riskModel: int,
                       model3ExitPrice: Option<real>)

  datatype PlanError =
    | BadAmounts | BadLeverage | BadRiskModel | NoTargets | BadFilters | BadMinimums | BadMaintenanceRate
    | StopOnWrongSide | TargetOnWrongSide
    | EntryRoundsToZero
    | BelowMinQty | BelowMinNotional
    | BadExitRoi | BadFractions | PriceNotPositive
    | NoLegMeetsMinimums

  datatype Request = Request(side: Side, entry: real, stopLoss: real, leverage: int, targets: seq<real>,
                             margin: real, riskModel: int, model2Weights: seq<real>, model3ExitRoi: real,
                             filters: SymbolFilters, maintenanceRate: real)

  function ValidateInputs(r: Request): Option<PlanError> {
    if r.entry <= 0.0 || r.stopLoss <= 0.0 || r.margin <= 0.0 then Some(BadAmounts)
    else if r.leverage <= 0 then Some(BadLeverage)
    else if r.riskModel !in {1, 2, 3} then Some(BadRiskModel)
    else if r.riskModel in {1, 2} && r.targets == [] then Some(NoTargets)
    else if r.filters.stepSize <= 0.0 || r.filters.tickSize <= 0.0 then Some(BadFilters)
    else if r.filters.minQty < 0.0 || r.filters.minNotional < 0.0 then Some(BadMinimums)
    else if r.maintenanceRate < 0.0 then Some(BadMaintenanceRate)
    else if r.side.Long? && r.stopLoss >= r.entry then Some(StopOnWrongSide)
    else if r.side.Short? && r.stopLoss <= r.entry then Some(StopOnWrongSide)
    else if r.riskModel in {1, 2} && exists i :: 0 <= i < |r.targets| && !Worse(r.side, r.entry, r.targets[i])
    then Some(TargetOnWrongSide)
    else None
  }

  // ---------------------------------------------------------------- merging tiny legs

  function Notional(qty: real, price: real): real {
    qty * price
  }

  lemma NotionalGrows(a: real, b: real, price: real)
    requires price >= 0.0 && a <= b
    ensures Notional(a, price) <= Notional(b, price)
  {
    ScaleKeepsWeakOrder(a, b, price);
  }

  lemma NotionalGrowsWithPrice(qty: real, p: real, q: real)
    requires qty >= 0.0 && p <= q
    ensures Notional(qty, p) <= Notional(qty, q)
  {
    ScaleKeepsWeakOrder(p, q, qty);
  }

  predicate MeetsMinimums(filters: SymbolFilters, qty: real, price: real) {
    qty >= filters.minQty && Notional(qty, price) >= filters.minNotional
  }

  /** What the merge works on: one fraction, quantity and rounded price for each target. */
  datatype Split = Split(fractions: seq<real>, quantities: seq<real>, prices: seq<real>, filters: SymbolFilters) {

    ghost predicate Valid() {
      && |fractions| == |quantities| == |prices| > 0
      && (forall i :: 0 <= i < |quantities| ==> quantities[i] >= 0.0)
      && (forall i :: 0 <= i < |prices| ==> prices[i] >= 0.0)
    }

    /** The targets start..end together reach the minimums at the price of the first of them. */
    predicate ClosesAt(start: nat, end: nat)
      requires |quantities| == |prices|
    {
      start < end <= |quantities| && MeetsMinimums(filters, Sum(quantities[start..end]), prices[start])
    }

    /** The nearest end, from `end` on, at which the group that begins at `start` closes. */
    function CloseFrom(start: nat, end: nat): (r: Option<nat>)
      requires |quantities| == |prices|
      ensures r.Some? ==> end <= r.value <= |quantities|
      decreases |quantities| - end
    {
      if end > |quantities| then None
      else if ClosesAt(start, end) then Some(end)
      else CloseFrom(start, end + 1)
    }

    /** After the first leg, a target opens a leg of its own exactly when it begins a group
        and meets the minimums alone. */
    function StartsFrom(start: nat): seq<nat>
      requires |quantities| == |prices|
      decreases |quantities| - start
    {
      match CloseFrom(start, start + 1)
      case None => []
      case Some(end) => (if end == start + 1 then [start] else []) + StartsFrom(end)
    }

    /** The positions at which legs start, when the first group closes. */
    function LegStarts(): seq<nat>
      requires |quantities| == |prices| && CloseFrom(0, 1).Some?
    {
      [0] + StartsFrom(CloseFrom(0, 1).value)
    }

    /** A leg carries every target from its start up to the start of the next leg. */
    function Leg(start: nat, end: nat): LegPlan
      requires |fractions| == |quantities| == |prices| && start < end <= |quantities|
    {
      LegPlan(start + 1, prices[start], Sum(fractions[start..end]), Sum(quantities[start..end]))
    }

    function LegsUpTo(starts: seq<nat>, end: nat): (legs: seq<LegPlan>)
      requires |fractions| == |quantities| == |prices| && end <= |quantities|
      requires Increasing(starts) && (starts != [] ==> starts[|starts| - 1] < end)
      ensures |legs| == |starts|
    {
      if starts == [] then []
      else
        var last := starts[|starts| - 1];
        LegsUpTo(starts[..|starts| - 1], last) + [Leg(last, end)]
    }
  }

  lemma {:induction false} CloseFromIsNearest(s: Split, start: nat, end: nat)
    requires s.Valid() && start < end
    ensures var r := s.CloseFrom(start, end);
            && (r.Some? ==> end <= r.value && s.ClosesAt(start, r.value))
            && forall e: nat :: end <= e && (r.Some? ==> e < r.value) ==> !s.ClosesAt(start, e)
    decreases |s.quantities| - end
  {
    if end <= |s.quantities| && !s.ClosesAt(start, end) {
      CloseFromIsNearest(s, start, end + 1);
    }
  }

  lemma {:induction false} LaterStartsMeetMinimumsAlone(s: Split, start: nat)
    requires s.Valid()
    ensures var r := s.StartsFrom(start);
            Increasing(r) && forall i :: 0 <= i < |r| ==> start <= r[i] && s.ClosesAt(r[i], r[i] + 1)
    decreases |s.quantities| - start
  {
    match s.CloseFrom(start, start + 1)
    case None =>
    case Some(end) =>
      CloseFromIsNearest(s, start, start + 1);
      LaterStartsMeetMinimumsAlone(s, end);
  }

  lemma LegStartsIncrease(s: Split)
    requires s.Valid() && s.CloseFrom(0, 1).Some?
    ensures var starts := s.LegStarts();
            Increasing(starts) && starts[|starts| - 1] < |s.quantities|
  {
    LaterStartsMeetMinimumsAlone(s, s.CloseFrom(0, 1).value);
  }

  /** The merged legs, when the first group closes: one leg for each start. */
  function MergedLegs(s: Split): Option<seq<LegPlan>>
    requires s.Valid()
  {
    if s.CloseFrom(0, 1).None? then None
    else
      LegStartsIncrease(s);
      Some(s.LegsUpTo(s.LegStarts(), |s.quantities|))
  }

  lemma SliceExtends(s: seq<real>, i: nat, j: nat)
    requires i <= j < |s|
    ensures Sum(s[i..j + 1]) == Sum(s[i..j]) + s[j]
  {
    assert s[i..j + 1] == s[i..j] + [s[j]];
    SumAppend(s[i..j], s[j]);
  }

  lemma SlicesJoin(s: seq<real>, i: nat, j: nat, k: nat)
    requires i <= j <= k <= |s|
    ensures Sum(s[i..k]) == Sum(s[i..j]) + Sum(s[j..k])
  {
    assert s[i..k] == s[i..j] + s[j..k];
    SumConcat(s[i..j], s[j..k]);
  }

  lemma ReplaceLast<T>(front: seq<T>, a: T, b: T)
    ensures (front + [a])[|front| := b] == front + [b]
  {
  }

  lemma LastLeg(s: Split, starts: seq<nat>, end: nat)
    requires s.Valid() && Increasing(starts) && starts != [] && starts[|starts| - 1] < end <= |s.quantities|
    ensures var k := |starts| - 1;
            && Increasing(starts[..k]) && (k > 0 ==> starts[k - 1] < starts[k])
            && s.LegsUpTo(starts, end) == s.LegsUpTo(starts[..k], starts[k]) + [s.Leg(starts[k], end)]
            && |s.LegsUpTo(starts[..k], starts[k])| == k
  {
  }

  /** Merging the targets end..newEnd into the last leg makes that leg reach newEnd. */
  lemma MergeIntoLast(s: Split, starts: seq<nat>, end: nat, newEnd: nat)
    requires s.Valid() && Increasing(starts) && starts != [] && starts[|starts| - 1] < end <= newEnd <= |s.quantities|
    ensures var legs := s.LegsUpTo(starts, end);
            && |legs| > 0
            && s.LegsUpTo(starts, newEnd)
               == legs[|legs| - 1 := Merged(legs[|legs| - 1], Sum(s.fractions[end..newEnd]),
                                            Sum(s.quantities[end..newEnd]))]
  {
    var k := |starts| - 1;
    LastLeg(s, starts, end);
    LastLeg(s, starts, newEnd);
    LegExtends(s, starts[k], end, newEnd);
    ReplaceLast(s.LegsUpTo(starts[..k], starts[k]), s.Leg(starts[k], end), s.Leg(starts[k], newEnd));
  }

  lemma LegExtends(s: Split, start: nat, end: nat, newEnd: nat)
    requires s.Valid() && start < end <= newEnd <= |s.quantities|
    ensures s.Leg(start, newEnd)
            == Merged(s.Leg(start, end), Sum(s.fractions[end..newEnd]), Sum(s.quantities[end..newEnd]))
  {
    SlicesJoin(s.quantities, start, end, newEnd);
    SlicesJoin(s.fractions, start, end, newEnd);
  }

  lemma AppendLeg(s: Split, starts: seq<nat>, start: nat, end: nat)
    requires s.Valid() && Increasing(starts) && start < end <= |s.quantities|
    requires starts != [] ==> starts[|starts| - 1] < start
    ensures Increasing(starts + [start])
    ensures s.LegsUpTo(starts + [start], end) == s.LegsUpTo(starts, start) + [s.Leg(start, end)]
  {
    LastLeg(s, starts + [start], end);
    assert (starts + [start])[..|starts|] == starts;
  }

  /** The legs so far carry every target before `done`, and the rest of LegStarts is still to come. */
  ghost predicate Progress(s: Split, legs: seq<LegPlan>, starts: seq<nat>, done: nat)
    requires s.Valid()
  {
    && done <= |s.quantities|
    && Increasing(starts) && (starts != [] ==> starts[|starts| - 1] < done)
    && legs == s.LegsUpTo(starts, done)
    && if starts == [] then done == 0
       else s.CloseFrom(0, 1).Some? && starts + s.StartsFrom(done) == s.LegStarts()
  }

  function Merged(previous: LegPlan, fraction: real, qty: real): LegPlan {
    previous.(fraction := previous.fraction + fraction, qty := previous.qty + qty)
  }

  /** How StartsFrom and LegStarts continue past a group that closes. */
  lemma GroupStarts(s: Split, done: nat, end: nat)
    requires s.Valid() && s.CloseFrom(done, done + 1) == Some(end)
    ensures s.StartsFrom(done) == (if end == done + 1 then [done] else []) + s.StartsFrom(end)
    ensures done == 0 ==> s.CloseFrom(0, 1).Some? && s.LegStarts() == [0] + s.StartsFrom(end)
    ensures done < end <= |s.quantities|
  {
  }

  /** A group that took more than one target joins the leg before it. */
  lemma CloseByMerging(s: Split, legs: seq<LegPlan>, starts: seq<nat>, done: nat, end: nat)
    requires s.Valid() && Progress(s, legs, starts, done) && legs != []
    requires s.CloseFrom(done, done + 1) == Some(end) && end != done + 1
    ensures Progress(s, legs[|legs| - 1 := Merged(legs[|legs| - 1], Sum(s.fractions[done..end]),
                                                  Sum(s.quantities[done..end]))], starts, end)
  {
    hide Sum, Split.CloseFrom, Split.StartsFrom, Split.LegsUpTo, Split.LegStarts, Split.ClosesAt, Split.Leg;
    GroupStarts(s, done, end);
    MergeIntoLast(s, starts, done, end);
    assert [] + s.StartsFrom(end) == s.StartsFrom(end);
  }

  /** A single target, or the very first group, becomes a leg. */
  lemma CloseByAppending(s: Split, legs: seq<LegPlan>, starts: seq<nat>, done: nat, end: nat)
    requires s.Valid() && Progress(s, legs, starts, done) && (legs == [] || end == done + 1)
    requires s.CloseFrom(done, done + 1) == Some(end)
    ensures Progress(s, legs + [s.Leg(done, end)], starts + [done], end)
  {
    hide Sum, Split.CloseFrom, Split.StartsFrom, Split.LegsUpTo, Split.LegStarts, Split.ClosesAt, Split.Leg;
    GroupStarts(s, done, end);
    AppendLeg(s, starts, done, end);
    assert starts + ([done] + s.StartsFrom(end)) == (starts + [done]) + s.StartsFrom(end);
  }

  /** Targets left over at the end join the last leg. */
  lemma CloseLeftover(s: Split, legs: seq<LegPlan>, starts: seq<nat>, done: nat)
    requires s.Valid() && Progress(s, legs, starts, done) && legs != []
    requires s.CloseFrom(done, done + 1).None?
    ensures var n := |s.quantities|;
            MergedLegs(s)
            == Some(legs[|legs| - 1 := Merged(legs[|legs| - 1], Sum(s.fractions[done..n]), Sum(s.quantities[done..n]))])
  {
    assert s.StartsFrom(done) == [];
    assert starts + [] == starts;
    MergeIntoLast(s, starts, done, |s.quantities|);
  }

  lemma NothingLeftOver(s: Split, legs: seq<LegPlan>, starts: seq<nat>)
    requires s.Valid() && Progress(s, legs, starts, |s.quantities|)
    ensures MergedLegs(s) == Some(legs)
  {
    assert s.StartsFrom(|s.quantities|) == [];
    assert starts + [] == starts;
  }

  /** The group that begins at `done` has not closed within the targets before `index`. */
  ghost predicate StillOpen(s: Split, done: nat, index: nat)
    requires s.Valid()
  {
    done < index <= |s.quantities| && s.CloseFrom(done, index + 1) == s.CloseFrom(done, done + 1)
  }

  /** What is pending: the sums over the group that begins at `done`. */
  ghost predicate Collected(s: Split, done: nat, index: nat, fraction: real, qty: real)
    requires s.Valid()
  {
    done <= index <= |s.quantities|
    && fraction == Sum(s.fractions[done..index]) && qty == Sum(s.quantities[done..index])
  }

  lemma CollectNext(s: Split, done: nat, index: nat, fraction: real, qty: real)
    requires s.Valid() && Collected(s, done, index, fraction, qty) && index < |s.quantities|
    requires index == done || StillOpen(s, done, index)
    ensures Collected(s, done, index + 1, fraction + s.fractions[index], qty + s.quantities[index])
    ensures var valid := MeetsMinimums(s.filters, qty + s.quantities[index], s.prices[done]);
            && (valid ==> s.CloseFrom(done, done + 1) == Some(index + 1))
            && (!valid ==> StillOpen(s, done, index + 1))
  {
    SliceExtends(s.fractions, done, index);
    SliceExtends(s.quantities, done, index);
  }

  /** Local variables of the merge loop. */
  datatype Loop = Loop(legs: seq<LegPlan>, pending: Option<nat>, target: real, fraction: real, qty: real)

  /** The loop invariant before `index`: closed legs carry the targets before `done`, and the
      group that begins there, if any, is pending. */
  ghost predicate LoopInvariant(s: Split, l: Loop, starts: seq<nat>, done: nat, index: nat)
    requires s.Valid()
  {
    && Progress(s, l.legs, starts, done)
    && Collected(s, done, index, l.fraction, l.qty)
    && match l.pending
       case None => done == index
       case Some(p) => p == done && StillOpen(s, done, index) && l.target == s.prices[done]
  }

  lemma NothingCollected(s: Split)
    requires s.Valid()
    ensures LoopInvariant(s, Loop([], None, 0.0, 0.0, 0.0), [], 0, 0)
  {
  }

  /** The group after one more target: where it began, its price, and its sums. */
  function WithTarget(l: Loop, index: nat, price: real, fraction: real, qty: real): Loop {
    match l.pending
    case None => l.(pending := Some(index), target := price, fraction := l.fraction + fraction, qty := l.qty + qty)
    case Some(_) => l.(fraction := l.fraction + fraction, qty := l.qty + qty)
  }

  lemma TargetCollected(s: Split, l: Loop, starts: seq<nat>, done: nat, index: nat)
    requires s.Valid() && index < |s.quantities| && LoopInvariant(s, l, starts, done, index)
    ensures var g := WithTarget(l, index, s.prices[index], s.fractions[index], s.quantities[index]);
            && g.legs == l.legs && g.pending == Some(done) && g.target == s.prices[done]
            && Progress(s, g.legs, starts, done)
            && Collected(s, done, index + 1, g.fraction, g.qty)
            && (MeetsMinimums(s.filters, g.qty, g.target) ==> s.CloseFrom(done, done + 1) == Some(index + 1))
            && (!MeetsMinimums(s.filters, g.qty, g.target) ==> LoopInvariant(s, g, starts, done, index + 1))
  {
    CollectNext(s, done, index, l.fraction, l.qty);
  }

  lemma EmptyCollection(s: Split, legs: seq<LegPlan>, starts: seq<nat>, index: nat, target: real)
    requires s.Valid() && Progress(s, legs, starts, index)
    ensures LoopInvariant(s, Loop(legs, None, target, 0.0, 0.0), starts, index, index)
  {
  }

  lemma CollectedIsTheGroup(s: Split, done: nat, end: nat, fraction: real, qty: real)
    requires s.Valid() && Collected(s, done, end, fraction, qty) && done < end
    ensures end <= |s.quantities|
    ensures fraction == Sum(s.fractions[done..end]) && qty == Sum(s.quantities[done..end])
    ensures s.Leg(done, end) == LegPlan(done + 1, s.prices[done], fraction, qty)
  {
  }

  /** The loop body: one target is added to the pending group, which may then close. */
  method AddTarget(l: Loop, index: nat, roundedTarget: real, fraction: real, qty: real,
                   filters: SymbolFilters, ghost s: Split, ghost starts: seq<nat>, ghost done: nat)
    returns (next: Loop, ghost newStarts: seq<nat>, ghost newDone: nat)
    requires s.Valid() && index < |s.fractions| == |s.quantities| == |s.prices|
    requires LoopInvariant(s, l, starts, done, index)
    requires roundedTarget == s.prices[index] && fraction == s.fractions[index] && qty == s.quantities[index]
    requires filters == s.filters
    ensures LoopInvariant(s, next, newStarts, newDone, index + 1)
  {
    hide *;
    TargetCollected(s, l, starts, done, index);
    var g := WithTarget(l, index, roundedTarget, fraction, qty);
    if !MeetsMinimums(filters, g.qty, g.target) {
      return g, starts, done;
    }
    CollectedIsTheGroup(s, done, index + 1, g.fraction, g.qty);
    var legs := g.legs;
    newStarts, newDone := starts, index + 1;
    if legs != [] && index != g.pending.value {
      CloseByMerging(s, legs, starts, done, index + 1);
      legs := legs[|legs| - 1 := Merged(legs[|legs| - 1], g.fraction, g.qty)];
    } else {
      CloseByAppending(s, legs, starts, done, index + 1);
      legs := legs + [LegPlan(g.pending.value + 1, g.target, g.fraction, g.qty)];
      newStarts := starts + [done];
    }
    EmptyCollection(s, legs, newStarts, newDone, g.target);
    next := Loop(legs, None, g.target, 0.0, 0.0);
  }

  /** After the loop: a group still pending joins the last leg, and there must be one. */
  method FlushPending(l: Loop, ghost s: Split, ghost starts: seq<nat>, ghost done: nat)
    returns (r: Result<seq<LegPlan>, PlanError>)
    requires s.Valid() && LoopInvariant(s, l, starts, done, |s.quantities|)
    ensures r == match MergedLegs(s)
                 case None => Failure(NoLegMeetsMinimums)
                 case Some(legs) => Success(legs)
  {
    var legs := l.legs;
    if l.pending.Some? {
      if legs == [] {
        return Failure(NoLegMeetsMinimums);
      }
      CloseLeftover(s, legs, starts, done);
      legs := legs[|legs| - 1 := Merged(legs[|legs| - 1], l.fraction, l.qty)];
    } else {
      NothingLeftOver(s, legs, starts);
    }
    return Success(legs);
  }

  /** The merge loop: a target that is not positive cannot be rounded; otherwise the result
      is one leg for each start, and none when even all the targets together are too small. */
  method MergeTinyLegs(side: Side, targets: seq<real>, fractions: seq<real>, quantities: seq<real>,
                       filters: SymbolFilters, ghost s: Split)
    returns (r: Result<seq<LegPlan>, PlanError>)
    requires |targets| == |fractions| == |quantities| && filters.tickSize > 0.0
    requires s.fractions == fractions && s.quantities == quantities && s.filters == filters && s.Valid()
    requires |s.prices| == |targets| && PricesAreRounded(side, targets, filters.tickSize, s.prices)
    ensures r == if exists i :: 0 <= i < |targets| && targets[i] <= 0.0 then Failure(PriceNotPositive)
                 else match MergedLegs(s)
                      case None => Failure(NoLegMeetsMinimums)
                      case Some(legs) => Success(legs)
  {
    hide *;
    var l := Loop([], None, 0.0, 0.0, 0.0);
    ghost var starts: seq<nat>, done := [], 0;
    NothingCollected(s);
    for index := 0 to |targets|
      invariant forall i :: 0 <= i < index ==> targets[i] > 0.0
      invariant LoopInvariant(s, l, starts, done, index)
    {
      if targets[index] <= 0.0 {
        return Failure(PriceNotPositive);
      }
      var roundedTarget := RoundTarget(side, targets, index, filters.tickSize, s.prices);
      l, starts, done := AddTarget(l, index, roundedTarget, fractions[index], quantities[index], filters,
                                   s, starts, done);
    }
    r := FlushPending(l, s, starts, done);
  }

  /** The rounded price of every target that can be rounded. */
  ghost predicate PricesAreRounded(side: Side, targets: seq<real>, tick: real, prices: seq<real>)
    requires tick > 0.0
  {
    && |prices| == |targets|
    && forall i {:trigger RoundPrice(side, targets[i], tick)} :: 0 <= i < |targets| && targets[i] > 0.0 ==>
         prices[i] == RoundPrice(side, targets[i], tick)
  }

  method RoundTarget(side: Side, targets: seq<real>, index: nat, tick: real, ghost prices: seq<real>)
    returns (price: real)
    requires tick > 0.0 && index < |targets| && targets[index] > 0.0
    requires PricesAreRounded(side, targets, tick, prices)
    ensures price == prices[index]
  {
    price := RoundPrice(side, targets[index], tick);
  }

  // ---------------------------------------------------------------- what the merge keeps

  function Quantities(legs: seq<LegPlan>): (r: seq<real>)
    ensures |r| == |legs|
  {
    seq(|legs|, i requires 0 <= i < |legs| => legs[i].qty)
  }

  function Fractions(legs: seq<LegPlan>): (r: seq<real>)
    ensures |r| == |legs|
  {
    seq(|legs|, i requires 0 <= i < |legs| => legs[i].fraction)
  }

  function NextStart(starts: seq<nat>, end: nat, k: nat): nat
    requires k < |starts|
  {
    if k + 1 < |starts| then starts[k + 1] else end
  }

  lemma {:induction false} LegAt(s: Split, starts: seq<nat>, end: nat, k: nat)
    requires s.Valid() && Increasing(starts) && k < |starts| && starts[|starts| - 1] < end <= |s.quantities|
    ensures starts[k] < NextStart(starts, end, k) <= |s.quantities|
    ensures s.LegsUpTo(starts, end)[k] == s.Leg(starts[k], NextStart(starts, end, k))
  {
    hide Split.CloseFrom, Split.StartsFrom, Split.ClosesAt, Split.Leg, Split.LegsUpTo, Sum;
    LastLeg(s, starts, end);
    var last := |starts| - 1;
    if k < last {
      LegAt(s, starts[..last], starts[last], k);
      assert NextStart(starts[..last], starts[last], k) == NextStart(starts, end, k);
    }
  }

  lemma {:induction false} LegsKeepSums(s: Split, starts: seq<nat>, end: nat)
    requires s.Valid() && Increasing(starts) && starts != [] && starts[|starts| - 1] < end <= |s.quantities|
    ensures Sum(Quantities(s.LegsUpTo(starts, end))) == Sum(s.quantities[starts[0]..end])
    ensures Sum(Fractions(s.LegsUpTo(starts, end))) == Sum(s.fractions[starts[0]..end])
  {
    hide Split.CloseFrom, Split.StartsFrom, Split.ClosesAt, Split.LegsUpTo, Sum;
    LastLeg(s, starts, end);
    var k := |starts| - 1;
    var front, last := s.LegsUpTo(starts[..k], starts[k]), s.Leg(starts[k], end);
    assert Quantities(front + [last]) == Quantities(front) + [last.qty];
    assert Fractions(front + [last]) == Fractions(front) + [last.fraction];
    SumAppend(Quantities(front), last.qty);
    SumAppend(Fractions(front), last.fraction);
    if k > 0 {
      LegsKeepSums(s, starts[..k], starts[k]);
      SlicesJoin(s.quantities, starts[0], starts[k], end);
      SlicesJoin(s.fractions, starts[0], starts[k], end);
    } else {
      EmptySum();
      assert Quantities(front) == [] && Fractions(front) == [];
    }
  }

  /** A group that has closed still meets the minimums after it is extended. */
  lemma ExtendedGroupMeetsMinimums(s: Split, start: nat, close: nat, end: nat)
    requires s.Valid() && s.ClosesAt(start, close) && close <= end <= |s.quantities|
    ensures MeetsMinimums(s.filters, s.Leg(start, end).qty, s.Leg(start, end).target)
  {
    SlicesJoin(s.quantities, start, close, end);
    SumNonNegative(s.quantities[close..end]);
    NotionalGrows(Sum(s.quantities[start..close]), Sum(s.quantities[start..end]), s.prices[start]);
  }

  lemma LegMeetsMinimums(s: Split, k: nat)
    requires s.Valid() && s.CloseFrom(0, 1).Some? && k < |s.LegStarts()|
    ensures var starts := s.LegStarts();
            var end := NextStart(starts, |s.quantities|, k);
            && starts[k] < end <= |s.quantities|
            && MeetsMinimums(s.filters, s.Leg(starts[k], end).qty, s.Leg(starts[k], end).target)
  {
    hide Sum, Split.StartsFrom, MeetsMinimums;
    var starts := s.LegStarts();
    var close := s.CloseFrom(0, 1).value;
    var end := NextStart(starts, |s.quantities|, k);
    LegStartsIncrease(s);
    LaterStartsMeetMinimumsAlone(s, close);
    CloseFromIsNearest(s, 0, 1);
    if k == 0 {
      assert |starts| > 1 ==> starts[1] == s.StartsFrom(close)[0];
      ExtendedGroupMeetsMinimums(s, 0, close, end);
    } else {
      assert starts[k] == s.StartsFrom(close)[k - 1];
      ExtendedGroupMeetsMinimums(s, starts[k], starts[k] + 1, end);
    }
  }

  /** What every list of merged legs satisfies. */
  ghost predicate GoodLegs(s: Split, legs: seq<LegPlan>)
    requires s.Valid()
  {
    && legs != [] && legs[0].index == 1
    && (forall i, j :: 0 <= i < j < |legs| ==> legs[i].index < legs[j].index)
    && (forall i :: 0 <= i < |legs| ==>
          && 1 <= legs[i].index <= |s.prices| && legs[i].target == s.prices[legs[i].index - 1]
          && MeetsMinimums(s.filters, legs[i].qty, legs[i].target))
    && Sum(Quantities(legs)) == Sum(s.quantities)
    && Sum(Fractions(legs)) == Sum(s.fractions)
  }

  /** Conservation: merging loses no quantity and no fraction, keeps indices and prices of the
      targets it starts from, and leaves no leg below the exchange minimums. */
  lemma MergedLegsAreGood(s: Split)
    requires s.Valid() && MergedLegs(s).Some?
    ensures GoodLegs(s, MergedLegs(s).value)
  {
    hide Sum, Split.CloseFrom, Split.StartsFrom, Split.ClosesAt, Split.LegsUpTo, MeetsMinimums, Quantities, Fractions;
    LegStartsIncrease(s);
    var starts, n := s.LegStarts(), |s.quantities|;
    var legs := s.LegsUpTo(starts, n);
    LegsKeepSums(s, starts, n);
    assert s.quantities[0..n] == s.quantities && s.fractions[0..n] == s.fractions;
    forall i | 0 <= i < |legs|
      ensures legs[i].index == starts[i] + 1 && starts[i] < n && legs[i].target == s.prices[starts[i]]
      ensures MeetsMinimums(s.filters, legs[i].qty, legs[i].target)
    {
      LegAt(s, starts, n, i);
      LegMeetsMinimums(s, i);
    }
  }

  lemma {:induction false} WholeLegs(s: Split, starts: seq<nat>, end: nat, step: real)
    requires s.Valid() && Increasing(starts) && (starts != [] ==> starts[|starts| - 1] < end) && end <= |s.quantities|
    requires step > 0.0 && forall i :: 0 <= i < |s.quantities| ==> WholeSteps(s.quantities[i], step)
    ensures forall i :: 0 <= i < |starts| ==> WholeSteps(s.LegsUpTo(starts, end)[i].qty, step)
  {
    hide Sum, WholeSteps, Split.CloseFrom, Split.StartsFrom, Split.ClosesAt;
    if starts != [] {
      var k := |starts| - 1;
      LastLeg(s, starts, end);
      WholeLegs(s, starts[..k], starts[k], step);
      WholeStepsSum(s.quantities[starts[k]..end], step);
    }
  }

  /** The merge fails exactly when the whole position is below the minimum notional at the
      first target. */
  lemma MergeFailsIff(s: Split)
    requires s.Valid() && Sum(s.quantities) >= s.filters.minQty
    ensures MergedLegs(s).None? <==> Notional(Sum(s.quantities), s.prices[0]) < s.filters.minNotional
  {
    hide Sum, Notional;
    var n := |s.quantities|;
    CloseFromIsNearest(s, 0, 1);
    assert s.quantities[0..n] == s.quantities;
    if s.CloseFrom(0, 1).None? {
      assert !s.ClosesAt(0, n);
    } else {
      var end := s.CloseFrom(0, 1).value;
      SumBlock(s.quantities, 0, end);
      NotionalGrows(Sum(s.quantities[0..end]), Sum(s.quantities), s.prices[0]);
    }
  }

  // ---------------------------------------------------------------- quantities before the merge

  function FlooredQuantities(qty: real, fractions: seq<real>, step: real): (r: seq<real>)
    requires step > 0.0
    ensures |r| == |fractions|
  {
    seq(|fractions|, i requires 0 <= i < |fractions| => FloorToStep(Notional(qty, fractions[i]), step))
  }

  /** Floored shares, with the rounding residual added to the first. */
  function SplitQuantities(qty: real, fractions: seq<real>, step: real): (r: seq<real>)
    requires step > 0.0 && fractions != []
    ensures |r| == |fractions|
  {
    var floored := FlooredQuantities(qty, fractions, step);
    floored[0 := floored[0] + (qty - Sum(floored))]
  }

  lemma {:induction false} FlooredSharesFit(qty: real, fractions: seq<real>, step: real)
    requires step > 0.0 && qty >= 0.0 && forall i :: 0 <= i < |fractions| ==> fractions[i] > 0.0
    ensures Sum(FlooredQuantities(qty, fractions, step)) <= Notional(qty, Sum(fractions))
    ensures forall i :: 0 <= i < |fractions| ==>
              FlooredQuantities(qty, fractions, step)[i] >= 0.0
              && WholeSteps(FlooredQuantities(qty, fractions, step)[i], step)
  {
    hide FloorToStep, Notional, WholeSteps;
    if fractions == [] {
      NotionalOfSum(qty, 0.0, 0.0);
    } else {
      var front, last := fractions[..|fractions| - 1], fractions[|fractions| - 1];
      FlooredSharesFit(qty, front, step);
      var floored := FlooredQuantities(qty, fractions, step);
      assert floored[..|fractions| - 1] == FlooredQuantities(qty, front, step);
      FloorBounds(Notional(qty, last), step);
      FloorIsWhole(Notional(qty, last), step);
      NotionalOfSum(qty, Sum(front), last);
      FloorOfNonNegative(Notional(qty, last), step);
    }
  }

  lemma NotionalOfSum(qty: real, a: real, b: real)
    ensures Notional(qty, a + b) == Notional(qty, a) + Notional(qty, b)
    ensures Notional(qty, 0.0) == 0.0 && Notional(qty, 1.0) == qty
    ensures qty >= 0.0 && b >= 0.0 ==> Notional(qty, b) >= 0.0
  {
  }

  /** The split conserves the quantity: whole steps, none negative, summing to the total. */
  lemma SplitConserves(qty: real, fractions: seq<real>, step: real)
    requires step > 0.0 && qty >= 0.0 && WholeSteps(qty, step)
    requires PartitionsPosition(fractions, |fractions|)
    ensures var q := SplitQuantities(qty, fractions, step);
            && Sum(q) == qty
            && forall i :: 0 <= i < |q| ==> q[i] >= 0.0 && WholeSteps(q[i], step)
  {
    hide FloorToStep, Notional, WholeSteps, Sum;
    var floored := FlooredQuantities(qty, fractions, step);
    FlooredSharesFit(qty, fractions, step);
    NotionalOfSum(qty, 0.0, 0.0);
    SumUpdate(floored, 0, floored[0] + (qty - Sum(floored)));
    WholeStepsSum(floored, step);
    WholeStepsAdd(qty, Sum(floored), step);
    WholeStepsAdd(floored[0], qty - Sum(floored), step);
  }

  /** Floored shares of neighbouring targets lose less than one step each. */
  lemma {:induction false} FlooredSlice(qty: real, fractions: seq<real>, step: real, i: nat, j: nat)
    requires step > 0.0 && i <= j <= |fractions|
    ensures var share, floored := Notional(qty, Sum(fractions[i..j])),
                                  Sum(FlooredQuantities(qty, fractions, step)[i..j]);
            share - Times(j - i, step) <= floored <= share
  {
    hide FloorToStep, Notional, Sum, Times;
    TimesLaws(j - i - 1, 1, step);
    if i == j {
      assert fractions[i..j] == [] && FlooredQuantities(qty, fractions, step)[i..j] == [];
      EmptySum();
      NotionalOfSum(qty, 0.0, 0.0);
    } else {
      FlooredSlice(qty, fractions, step, i, j - 1);
      SliceExtends(fractions, i, j - 1);
      SliceExtends(FlooredQuantities(qty, fractions, step), i, j - 1);
      NotionalOfSum(qty, Sum(fractions[i..j - 1]), fractions[j - 1]);
      FloorBounds(Notional(qty, fractions[j - 1]), step);
    }
  }

  /** Of n targets, the group from start to end has got its share up to rounding. */
  ghost predicate WithinShare(start: int, end: int, n: int, step: real, got: real, share: real) {
    if start == 0 then share <= got <= share + Times(n - end, step)
    else share - Times(end - start, step) <= got <= share
  }

  /** What a group of targets gets: a group that begins later at most its share of the quantity,
      short by at most a step for each of its targets; the first group at least its share, with
      the steps that the others lack. */
  lemma GroupsGetTheirShares(qty: real, fractions: seq<real>, step: real, start: nat, end: nat)
    requires step > 0.0 && start < end <= |fractions| && PartitionsPosition(fractions, |fractions|)
    ensures WithinShare(start, end, |fractions|, step, Sum(SplitQuantities(qty, fractions, step)[start..end]),
                        Notional(qty, Sum(fractions[start..end])))
  {
    hide FloorToStep, Notional, Sum, Times;
    var n := |fractions|;
    var floored, split := FlooredQuantities(qty, fractions, step), SplitQuantities(qty, fractions, step);
    if start > 0 {
      assert split[start..end] == floored[start..end];
      FlooredSlice(qty, fractions, step, start, end);
    } else {
      SumUpdate(floored, 0, floored[0] + (qty - Sum(floored)));
      assert Sum(split) == qty;
      assert split[end..n] == floored[end..n];
      assert split[0..n] == split && fractions[0..n] == fractions;
      SlicesJoin(split, 0, end, n);
      SlicesJoin(fractions, 0, end, n);
      FlooredSlice(qty, fractions, step, end, n);
      NotionalOfSum(qty, Sum(fractions[0..end]), Sum(fractions[end..n]));
    }
  }

  lemma ShareIsNotional(qty: real, fraction: real)
    ensures qty * fraction == Notional(qty, fraction)
  {
  }

  // ---------------------------------------------------------------- the plan

  function EntryPrice(r: Request): real
    requires r.filters.tickSize > 0.0
  {
    RoundPrice(r.side, r.entry, r.filters.tickSize)
  }

  function TotalQty(r: Request): real
    requires r.filters.tickSize > 0.0 && r.filters.stepSize > 0.0 && EntryPrice(r) > 0.0
  {
    QtyFor(PositionNotional(r), EntryPrice(r), r.filters.stepSize)
  }

  function PositionNotional(r: Request): real {
    r.margin * r.leverage as real
  }

  function QtyFor(notional: real, price: real, step: real): real
    requires step > 0.0 && price > 0.0
  {
    FloorToStep(notional / price, step)
  }

  lemma QtyForIsWhole(notional: real, price: real, step: real)
    requires step > 0.0 && price > 0.0
    ensures WholeSteps(QtyFor(notional, price, step), step)
  {
    FloorIsWhole(notional / price, step);
  }

  /** Why the position as a whole cannot be sized. A LONG entry below one tick rounds to zero,
      and the source then divides by it. */
  function SizeError(r: Request): Option<PlanError>
    requires r.filters.tickSize > 0.0 && r.filters.stepSize > 0.0
  {
    if EntryPrice(r) <= 0.0 then Some(EntryRoundsToZero)
    else if TotalQty(r) < r.filters.minQty || TotalQty(r) <= 0.0 then Some(BelowMinQty)
    else if Notional(TotalQty(r), EntryPrice(r)) < r.filters.minNotional then Some(BelowMinNotional)
    else None
  }

  function FractionsOf(r: Request): Result<seq<real>, string> {
    if r.riskModel == 1 then EqualFractions(|r.targets|) else Model2Fractions(|r.targets|, r.model2Weights)
  }

  function RawModel3Exit(r: Request): real
    requires r.leverage > 0 && r.filters.tickSize > 0.0
  {
    var move := r.model3ExitRoi / (100.0 * r.leverage as real);
    EntryPrice(r) * (if r.side.Long? then 1.0 + move else 1.0 - move)
  }

  /** Why a request is rejected, in closed form; None means that a plan is built. */
  function Rejection(r: Request): Option<PlanError> {
    var inputs := ValidateInputs(r);
    if inputs.Some? then inputs
    else if SizeError(r).Some? then SizeError(r)
    else if r.riskModel == 3 then
      if r.model3ExitRoi <= 0.0 then Some(BadExitRoi)
      else if RawModel3Exit(r) <= 0.0 then Some(PriceNotPositive)
      else None
    else if FractionsOf(r).Failure? then Some(BadFractions)
    else if exists i :: 0 <= i < |r.targets| && r.targets[i] <= 0.0 then Some(PriceNotPositive)
    else if Notional(TotalQty(r), RoundPrice(r.side, r.targets[0], r.filters.tickSize)) < r.filters.minNotional
    then Some(NoLegMeetsMinimums)
    else None
  }

  /** The exchange takes a leg of this size at its own target. */
  ghost predicate Sellable(filters: SymbolFilters, leg: LegPlan) {
    leg.qty >= filters.minQty && leg.qty * leg.target >= filters.minNotional
  }

  /** The legs of an accepted model-1 or model-2 plan. */
  ghost predicate LegsCarryPosition(r: Request, plan: Plan)
    requires r.filters.tickSize > 0.0 && r.filters.stepSize > 0.0
  {
    var legs, n := plan.legs, |r.targets|;
    && legs != [] && legs[0].index == 1
    && (forall i, j :: 0 <= i < j < |legs| ==> legs[i].index < legs[j].index)
    && (forall i :: 0 <= i < |legs| ==>
          && 1 <= legs[i].index <= n
          && legs[i].target == RoundPrice(r.side, r.targets[legs[i].index - 1], r.filters.tickSize)
          && WholeSteps(legs[i].qty, r.filters.stepSize)
          && Sellable(r.filters, legs[i]))
    && Sum(Quantities(legs)) == plan.qty
    && Sum(Fractions(legs)) == 1.0
    && forall k :: 0 <= k < |legs| ==> GetsItsShare(r, plan, k)
  }

  /** Each target's share of the position: equal parts, or the weights of the used targets. */
  ghost function TargetShares(r: Request): (shares: seq<real>)
    requires r.riskModel == 2 ==> |r.targets| <= |r.model2Weights|
    ensures |shares| == |r.targets|
  {
    var n := |r.targets|;
    seq(n, i requires 0 <= i < n =>
          if r.riskModel == 2 then Quotient(r.model2Weights[i], Sum(r.model2Weights[..n])) else 1.0 / n as real)
  }

  /** The target at which the leg after leg k begins. */
  function LegEnd(legs: seq<LegPlan>, n: int, k: nat): int
    requires k < |legs|
  {
    if k + 1 < |legs| then legs[k + 1].index - 1 else n
  }

  /** A leg's fraction is the sum over the targets it carries, and its quantity is that share of
      the position: a later leg is short by at most a step for each of its targets, and the first
      has what the others lack. */
  ghost predicate GetsItsShare(r: Request, plan: Plan, k: nat)
    requires r.filters.stepSize > 0.0 && k < |plan.legs|
  {
    var n, leg, step := |r.targets|, plan.legs[k], r.filters.stepSize;
    var start, end := leg.index - 1, LegEnd(plan.legs, n, k);
    && (r.riskModel == 2 ==> n <= |r.model2Weights|)
    && 0 <= start < end <= n
    && leg.fraction == Sum(TargetShares(r)[start..end])
    && WithinShare(start, end, n, step, leg.qty, plan.qty * leg.fraction)
  }

  lemma SharesAreFractions(r: Request)
    requires r.targets != [] && r.riskModel in {1, 2} && FractionsOf(r).Success?
    ensures r.riskModel == 2 ==> |r.targets| <= |r.model2Weights|
    ensures FractionsOf(r).value == TargetShares(r)
  {
    hide Sum;
    if r.riskModel == 1 {
      EqualFractionsPartition(|r.targets|);
    } else {
      Model2FractionsPartition(|r.targets|, r.model2Weights);
    }
  }

  lemma MergedLegWithinShare(s: Split, qty: real, step: real, legs: seq<LegPlan>, k: nat)
    requires s.Valid() && step > 0.0 && PartitionsPosition(s.fractions, |s.fractions|)
    requires s.quantities == SplitQuantities(qty, s.fractions, step)
    requires MergedLegs(s) == Some(legs) && k < |legs|
    ensures var n, start, end := |s.fractions|, legs[k].index - 1, LegEnd(legs, |s.fractions|, k);
            && 0 <= start < end <= n && legs[k].fraction == Sum(s.fractions[start..end])
            && WithinShare(start, end, n, step, legs[k].qty, Notional(qty, legs[k].fraction))
  {
    hide FloorToStep, Notional, Sum, SplitQuantities, PartitionsPosition, WithinShare, Split.CloseFrom,
         Split.StartsFrom, Split.LegsUpTo, Split.LegStarts;
    LegStartsIncrease(s);
    var starts, n := s.LegStarts(), |s.fractions|;
    LegAt(s, starts, n, k);
    if k + 1 < |starts| {
      LegAt(s, starts, n, k + 1);
    }
    GroupsGetTheirShares(qty, s.fractions, step, starts[k], NextStart(starts, n, k));
  }

  lemma LegsGetTheirShares(r: Request, plan: Plan, k: nat)
    requires ValidateInputs(r).None? && SizeError(r).None? && r.riskModel in {1, 2} && FractionsOf(r).Success?
    requires SplitOf(r).Valid() && plan.qty == TotalQty(r)
    requires MergedLegs(SplitOf(r)) == Some(plan.legs) && k < |plan.legs|
    ensures GetsItsShare(r, plan, k)
  {
    hide RoundPrice, Notional, Sum, SplitQuantities, FractionsOf, EntryPrice, TotalQty, MergedLegs, LegEnd,
         TargetShares, Times;
    FractionsPartition(r);
    SharesAreFractions(r);
    var s, n := SplitOf(r), |r.targets|;
    assert s.fractions == TargetShares(r) && |s.fractions| == n;
    MergedLegWithinShare(s, TotalQty(r), r.filters.stepSize, plan.legs, k);
    var start, end := plan.legs[k].index - 1, LegEnd(plan.legs, n, k);
    assert 0 <= start < end <= n;
    assert plan.legs[k].fraction == Sum(TargetShares(r)[start..end]);
    assert WithinShare(start, end, n, r.filters.stepSize, plan.legs[k].qty, Notional(plan.qty, plan.legs[k].fraction));
    ShareIsNotional(plan.qty, plan.legs[k].fraction);
  }

  ghost function SplitOf(r: Request): Split
    requires r.filters.tickSize > 0.0 && r.filters.stepSize > 0.0 && EntryPrice(r) > 0.0
    requires FractionsOf(r).Success? && FractionsOf(r).value != []
  {
    var prices := seq(|r.targets|, i requires 0 <= i < |r.targets| =>
                        if r.targets[i] > 0.0 then RoundPrice(r.side, r.targets[i], r.filters.tickSize) else 0.0);
    Split(FractionsOf(r).value, SplitQuantities(TotalQty(r), FractionsOf(r).value, r.filters.stepSize),
          prices, r.filters)
  }

  lemma FractionsPartition(r: Request)
    requires r.targets != [] && r.riskModel in {1, 2} && FractionsOf(r).Success?
    ensures PartitionsPosition(FractionsOf(r).value, |r.targets|)
  {
    if r.riskModel == 1 {
      EqualFractionsPartition(|r.targets|);
    } else {
      Model2FractionsPartition(|r.targets|, r.model2Weights);
    }
  }

  lemma SplitOfIsValid(r: Request)
    requires ValidateInputs(r).None? && SizeError(r).None? && r.riskModel in {1, 2} && FractionsOf(r).Success?
    ensures PartitionsPosition(FractionsOf(r).value, |r.targets|)
    ensures SplitOf(r).Valid() && |SplitOf(r).prices| == |r.targets|
    ensures PricesAreRounded(r.side, r.targets, r.filters.tickSize, SplitOf(r).prices)
    ensures Sum(SplitOf(r).quantities) == TotalQty(r)
    ensures forall i :: 0 <= i < |r.targets| ==> WholeSteps(SplitOf(r).quantities[i], r.filters.stepSize)
  {
    hide RoundPrice, FloorToStep, Notional, WholeSteps, Sum, SplitQuantities, EqualFractions, Model2Fractions,
         EntryPrice, QtyFor, PositionNotional;
    FractionsPartition(r);
    QtyForIsWhole(PositionNotional(r), EntryPrice(r), r.filters.stepSize);
    SplitConserves(TotalQty(r), FractionsOf(r).value, r.filters.stepSize);
    forall i | 0 <= i < |r.targets|
      ensures SplitOf(r).prices[i] >= 0.0
    {
      RoundPriceBounds(r.side, r.targets[i], r.filters.tickSize);
    }
  }

  /** The merged legs carry the position, and the merge fails in exactly the case that
      Rejection names. */
  lemma MergeMatchesRejection(r: Request, plan: Plan)
    requires ValidateInputs(r).None? && SizeError(r).None? && r.riskModel in {1, 2} && FractionsOf(r).Success?
    requires forall i :: 0 <= i < |r.targets| ==> r.targets[i] > 0.0
    ensures SplitOf(r).Valid() && (MergedLegs(SplitOf(r)).None? <==> Rejection(r) == Some(NoLegMeetsMinimums))
    ensures MergedLegs(SplitOf(r)).Some? ==> Rejection(r).None?
    ensures MergedLegs(SplitOf(r)).Some? && plan.legs == MergedLegs(SplitOf(r)).value && plan.qty == TotalQty(r) ==>
              LegsCarryPosition(r, plan)
  {
    hide RoundPrice, FloorToStep, Notional, WholeSteps, Sum, SplitQuantities, EqualFractions, Model2Fractions,
         EntryPrice, TotalQty, MeetsMinimums, Split.CloseFrom, Split.LegStarts, Split.LegsUpTo, Quantities, Fractions,
         GetsItsShare, Sellable;
    SplitOfIsValid(r);
    var s := SplitOf(r);
    assert forall i :: 0 <= i < |r.targets| ==> s.prices[i] == RoundPrice(r.side, r.targets[i], r.filters.tickSize);
    MergeFailsIff(s);
    if MergedLegs(s).Some? && plan.legs == MergedLegs(s).value && plan.qty == TotalQty(r) {
      MergedLegsAreGood(s);
      LegStartsIncrease(s);
      WholeLegs(s, s.LegStarts(), |s.quantities|, r.filters.stepSize);
      forall k | 0 <= k < |plan.legs|
        ensures GetsItsShare(r, plan, k) && Sellable(r.filters, plan.legs[k])
      {
        LegsGetTheirShares(r, plan, k);
        SellableIff(r.filters, plan.legs[k]);
      }
    }
  }

  lemma SellableIff(filters: SymbolFilters, leg: LegPlan)
    ensures MeetsMinimums(filters, leg.qty, leg.target) <==> Sellable(filters, leg)
  {
  }

  lemma NotionalInFields(r: Request)
    ensures PositionNotional(r) == r.margin * r.leverage as real
  {
  }

  method BuildExecutionPlan(r: Request) returns (p: Result<Plan, PlanError>)
    ensures match p
            case Failure(e) => Rejection(r) == Some(e)
            case Success(plan) =>
              && Rejection(r).None?
              && plan.margin == r.margin && plan.leverage == r.leverage && plan.riskModel == r.riskModel
              && plan.notional == r.margin * r.leverage as real
              && plan.entryPrice == EntryPrice(r) && plan.qty == TotalQty(r)
              && plan.stopLoss == RoundPrice(r.side, r.stopLoss, r.filters.tickSize)
              && plan.liqPrice == LiquidationPrice(r.side, EntryPrice(r), r.leverage, r.maintenanceRate)
              && (r.riskModel == 3 ==>
                    && plan.legs == []
                    && plan.model3ExitPrice == Some(RoundPrice(r.side, RawModel3Exit(r), r.filters.tickSize)))
              && (r.riskModel != 3 ==> plan.model3ExitPrice.None? && LegsCarryPosition(r, plan))
  {
    hide RoundPrice, QtyFor, Notional, PositionNotional, SplitQuantities, LegsCarryPosition, MergedLegs,
         RawModel3Exit, LiquidationPrice, EqualFractions, Model2Fractions, PricesAreRounded;
    var invalid := ValidateInputs(r);
    if invalid.Some? {
      return Failure(invalid.value);
    }
    var entryPrice := RoundPrice(r.side, r.entry, r.filters.tickSize);
    var stopLoss := RoundPrice(r.side, r.stopLoss, r.filters.tickSize);
    var notional := PositionNotional(r);
    if entryPrice <= 0.0 {
      return Failure(EntryRoundsToZero);
    }
    var qty := QtyFor(notional, entryPrice, r.filters.stepSize);
    if qty < r.filters.minQty || qty <= 0.0 {
      return Failure(BelowMinQty);
    }
    if Notional(qty, entryPrice) < r.filters.minNotional {
      return Failure(BelowMinNotional);
    }
    var liqPrice := LiquidationPrice(r.side, entryPrice, r.leverage, r.maintenanceRate);
    var plan := Plan(r.margin, r.leverage, notional, qty, entryPrice, stopLoss, liqPrice, [], r.riskModel, None);
    if r.riskModel == 3 {
      if r.model3ExitRoi <= 0.0 {
        return Failure(BadExitRoi);
      }
      var rawExit := RawModel3Exit(r);
      if rawExit <= 0.0 {
        return Failure(PriceNotPositive);
      }
      NotionalInFields(r);
      return Success(plan.(model3ExitPrice := Some(RoundPrice(r.side, rawExit, r.filters.tickSize))));
    }
    var fractions := FractionsOf(r);
    if fractions.Failure? {
      return Failure(BadFractions);
    }
    SplitOfIsValid(r);
    var quantities := SplitQuantities(qty, fractions.value, r.filters.stepSize);
    var merged := MergeTinyLegs(r.side, r.targets, fractions.value, quantities, r.filters, SplitOf(r));
    if exists i :: 0 <= i < |r.targets| && r.targets[i] <= 0.0 {
      return Failure(PriceNotPositive);
    }
    if merged.Failure? {
      MergeMatchesRejection(r, plan);
      return Failure(merged.error);
    }
    plan := plan.(legs := merged.value);
    NotionalInFields(r);
    MergeMatchesRejection(r, plan);
    return Success(plan);
  }

  // ---------------------------------------------------------------- consequences

  /** The position is the largest whole number of steps that margin times leverage can buy at the
      rounded entry. */
  lemma TotalQtyIsLargest(r: Request)
    requires r.filters.tickSize > 0.0 && r.filters.stepSize > 0.0 && EntryPrice(r) > 0.0
    ensures var q, step, notional := TotalQty(r), r.filters.stepSize, r.margin * r.leverage as real;
            WholeSteps(q, step) && q * EntryPrice(r) <= notional < (q + step) * EntryPrice(r)
  {
    hide RoundPrice, FloorToStep;
    QtyForIsWhole(PositionNotional(r), EntryPrice(r), r.filters.stepSize);
    LargestAffordable(PositionNotional(r), EntryPrice(r), r.filters.stepSize);
  }

  lemma LargestAffordable(notional: real, price: real, step: real)
    requires step > 0.0 && price > 0.0
    ensures var q := QtyFor(notional, price, step);
            q * price <= notional < (q + step) * price
  {
    hide FloorToStep;
    FloorBounds(notional / price, step);
    var q, x := QtyFor(notional, price, step), notional / price;
    assert x * price == notional;
    ScaleKeepsWeakOrder(q, x, price);
    MultiplyKeepsOrder(x, q + step, price);
  }

  /** At the unrounded model-3 exit the return on margin is the configured one. */
  lemma Model3ExitReturns(r: Request)
    requires r.leverage > 0 && r.filters.tickSize > 0.0 && EntryPrice(r) > 0.0
    ensures Return(r.side, EntryPrice(r), RawModel3Exit(r), r.leverage) == r.model3ExitRoi / 100.0
  {
    hide RoundPrice;
    var l, e := r.leverage as real, EntryPrice(r);
    var move := r.model3ExitRoi / (100.0 * l);
    assert Move(r.side, e, RawModel3Exit(r)) == move by {
      if r.side.Long? {
        assert RawModel3Exit(r) - e == move * e;
      } else {
        assert e - RawModel3Exit(r) == move * e;
      }
      ScaleBound(move, e);
    }
    assert (100.0 * l) * move == r.model3ExitRoi;
  }

  /** The requests that pass the input checks, on one line each. */
  lemma InputsPassIff(r: Request)
    ensures ValidateInputs(r).None? <==>
            && r.entry > 0.0 && r.stopLoss > 0.0 && r.margin > 0.0 && r.leverage > 0
            && 1 <= r.riskModel <= 3 && (r.targets == [] ==> r.riskModel == 3)
            && r.filters.stepSize > 0.0 && r.filters.tickSize > 0.0
            && r.filters.minQty >= 0.0 && r.filters.minNotional >= 0.0 && r.maintenanceRate >= 0.0
            && Worse(r.side, r.stopLoss, r.entry)
            && (r.riskModel != 3 ==> forall i :: 0 <= i < |r.targets| ==> Worse(r.side, r.entry, r.targets[i]))
  {
  }

  /** A LONG position large enough as a whole never fails in the merge: its targets are above
      the entry and rounding keeps order, so the first target's notional is enough too. */
  lemma LongMergeNeverFails(r: Request)
    requires r.side.Long? && r.riskModel in {1, 2}
    requires ValidateInputs(r).None? && SizeError(r).None? && FractionsOf(r).Success?
    ensures Rejection(r).None?
  {
    hide RoundPrice, FloorToStep, Notional;
    RoundPriceKeepsOrder(Long, r.entry, r.targets[0], r.filters.tickSize);
    NotionalGrowsWithPrice(TotalQty(r), EntryPrice(r), RoundPrice(Long, r.targets[0], r.filters.tickSize));
  }

  /** One unit sold at 10, minimum notional 10, its only target at 1. */
  const TINY_SHORT := Request(Short, 10.0, 11.0, 1, [1.0], 10.0, 1, [], 20.0,
                              SymbolFilters(1.0, 1.0, 0.0, 10.0), 0.0)

  lemma WholeNumberAtUnitStep(k: int)
    ensures FloorToStep(k as real, 1.0) == k as real
  {
    MultipleIsWhole(k, 1.0);
    assert Times(k, 1.0) == k as real;
  }

  /** For SHORT the merge can fail although the position as a whole is large enough. */
  lemma ShortMergeCanFail()
    ensures ValidateInputs(TINY_SHORT).None? && SizeError(TINY_SHORT).None?
    ensures FractionsOf(TINY_SHORT).Success? && TINY_SHORT.targets[0] > 0.0
    ensures Rejection(TINY_SHORT) == Some(NoLegMeetsMinimums)
  {
    hide FloorToStep;
    WholeNumberAtUnitStep(-10);
    WholeNumberAtUnitStep(-1);
    WholeNumberAtUnitStep(1);
    assert FloorToStep(-10.0, 1.0) == -10.0 && FloorToStep(-1.0, 1.0) == -1.0;
    assert EntryPrice(TINY_SHORT) == 10.0;
    assert PositionNotional(TINY_SHORT) == 10.0;
    assert TotalQty(TINY_SHORT) == 1.0;
  }

  /** Rounded leg prices of monotone targets keep their order and never cross the rounded entry. */
  lemma LegPricesKeepOrder(r: Request, plan: Plan)
    requires ValidateInputs(r).None? && r.riskModel in {1, 2} && LegsCarryPosition(r, plan)
    requires forall i, j :: 0 <= i < j < |r.targets| ==> Worse(r.side, r.targets[i], r.targets[j])
    ensures forall i, j :: 0 <= i < j < |plan.legs| ==> !Worse(r.side, plan.legs[j].target, plan.legs[i].target)
    ensures forall i :: 0 <= i < |plan.legs| ==> !Worse(r.side, plan.legs[i].target, EntryPrice(r))
  {
    hide RoundPrice, Notional, WholeSteps, Sum, Quantities, Fractions;
    var tick := r.filters.tickSize;
    forall i | 0 <= i < |plan.legs|
      ensures !Worse(r.side, plan.legs[i].target, EntryPrice(r))
    {
      var t := r.targets[plan.legs[i].index - 1];
      RoundPriceKeepsOrder(r.side, if r.side.Long? then r.entry else t, if r.side.Long? then t else r.entry, tick);
    }
    forall i, j | 0 <= i < j < |plan.legs|
      ensures !Worse(r.side, plan.legs[j].target, plan.legs[i].target)
    {
      var a, b := r.targets[plan.legs[i].index - 1], r.targets[plan.legs[j].index - 1];
      assert Worse(r.side, a, b);
      RoundPriceKeepsOrder(r.side, if r.side.Long? then a else b, if r.side.Long? then b else a, tick);
    }
  }

  /** Rounding can put the stop at the rounded entry: it stays on the losing side exactly when
      the unrounded stop is already beyond the rounded entry. */
  lemma RoundedStopOnLosingSideIff(side: Side, entry: real, stopLoss: real, tick: real)
    requires tick > 0.0
    ensures Worse(side, RoundPrice(side, stopLoss, tick), RoundPrice(side, entry, tick))
            <==> Worse(side, stopLoss, RoundPrice(side, entry, tick))
  {
    hide FloorToStep;
    var e := RoundPrice(side, entry, tick);
    RoundPriceBounds(side, stopLoss, tick);
    RoundPriceBounds(side, entry, tick);
    if !Worse(side, stopLoss, e) {
      assert RoundPrice(side, e, tick) == e by { RoundedTwice(side, entry, tick); }
      if side.Long? {
        RoundPriceKeepsOrder(side, e, stopLoss, tick);
      } else {
        RoundPriceKeepsOrder(side, stopLoss, e, tick);
      }
    }
  }

  /** A long at 100.6 with its stop at 100.4 and whole-number ticks has both at 100. */
  lemma RoundedStopCanMeetEntry()
    ensures Worse(Long, 100.4, 100.6) && RoundPrice(Long, 100.4, 1.0) == RoundPrice(Long, 100.6, 1.0) == 100.0
  {
    assert (100.4 as real).Floor == 100 && (100.6 as real).Floor == 100;
    assert 100.4 / 1.0 == 100.4 && 100.6 / 1.0 == 100.6;
    assert Times(100, 1.0) == 100.0;
  }

  lemma BelowOneUnitIff(value: real, step: real)
    requires value > 0.0 && step > 0.0
    ensures FloorToStep(value, step) <= 0.0 <==> value < step
  {
    hide Times;
    TimesLaws(0, 0, step);
    var n := (value / step).Floor;
    BetweenSteps(n as real, value / step, step);
    DivideKeepsOrder(value, step, step);
    assert step / step == 1.0;
    if value < step {
      assert n <= 0;
      TimesKeepsOrder(n, 0, step);
    } else {
      assert n >= 1;
      TimesKeepsOrder(1, n, step);
    }
  }

  /** The rounded entry that the planner divides by is zero exactly for a LONG entry below a tick. */
  lemma EntryRoundsToZeroIff(side: Side, entry: real, tick: real)
    requires entry > 0.0 && tick > 0.0
    ensures RoundPrice(side, entry, tick) <= 0.0 <==> side.Long? && entry < tick
  {
    if side.Long? {
      BelowOneUnitIff(entry, tick);
    } else {
      RoundPriceBounds(side, entry, tick);
    }
  }

  /** Of the requests with valid inputs, exactly those of that kind end in the division by zero. */
  lemma DividesByZeroIff(r: Request)
    ensures Rejection(r) == Some(EntryRoundsToZero)
            <==> ValidateInputs(r).None? && r.side.Long? && r.entry < r.filters.tickSize
  {
    hide RoundPrice, QtyFor, Notional, EqualFractions, Model2Fractions, RawModel3Exit;
    if ValidateInputs(r).None? {
      EntryRoundsToZeroIff(r.side, r.entry, r.filters.tickSize);
    }
  }

  /** Half a tick: entry 0.5, stop 0.4, target 2, whole-number ticks. */
  const HALF_A_TICK := Request(Long, 0.5, 0.4, 1, [2.0], 10.0, 1, [], 20.0, SymbolFilters(1.0, 1.0, 0.0, 0.0), 0.0)

  lemma HalfATickDividesByZero()
    ensures Rejection(HALF_A_TICK) == Some(EntryRoundsToZero)
  {
    DividesByZeroIff(HALF_A_TICK);
  }

  lemma RoundedTwice(side: Side, price: real, tick: real)
    requires tick > 0.0
    ensures RoundPrice(side, RoundPrice(side, price, tick), tick) == RoundPrice(side, price, tick)
  {
    FloorIsWhole(price, tick);
    FloorIsWhole(-price, tick);
  }
}
