/** The live engine's handlers over one trade and its exchange account: repository updates,
    opening with protective orders, fill events, liquidation and the model-3 exit
    (services/core_engine/repository.py, orders.py, lifecycle.py, engine.py). */
module LiveTrade {
  import opened Common
  import opened OrderIds
  import opened LiveExchange
  import opened LivePnl

  const ATTEMPTS := 3

  /** A user-stream event for this trade's symbol. */
  datatype Event = Event(calculated: bool, orderFill: bool, algoFill: bool, clientId: Option<Key>,
                         lastPrice: Option<real>, realizedPnl: Option<real>)

  datatype HandlerResult = Ignored | EntryFilled | OneLegFilled(index: nat) | ClosedNow | Raised

  // ---------------------------------------------------------------- row updates as functions

  function WithLegFilled(legs: seq<Leg>, index: nat): (r: seq<Leg>)
    ensures |r| == |legs|
  {
    seq(|legs|, i requires 0 <= i < |legs| =>
          if legs[i].index == index then legs[i].(status := LegFilled) else legs[i])
  }

  function WithOpenCanceled(legs: seq<Leg>): (r: seq<Leg>)
    ensures |r| == |legs|
  {
    seq(|legs|, i requires 0 <= i < |legs| =>
          if legs[i].status == LegOpen then legs[i].(status := LegCanceled) else legs[i])
  }

  function ClosedRow(r: Row, c: Closing, touched: set<nat>): Row {
    r.(status := Closed, closing := Some(c), touched := touched, legs := WithOpenCanceled(r.legs))
  }

  function RowWithLegFilled(r: Row, i: nat): Row
    requires i < |r.legs|
  {
    r.(legs := WithLegFilled(r.legs, r.legs[i].index), touched := r.touched + {r.legs[i].index})
  }

  lemma FillingALeg(r: Row, i: nat)
    requires RowOk(r) && r.status != Closed && i < |r.legs|
    ensures var s := RowWithLegFilled(r, i);
            && RowOk(s) && SameTrade(r, s)
            && s == r.(legs := s.legs, touched := r.touched + {r.legs[i].index})
            && s.legs[i] == r.legs[i].(status := LegFilled)
            && forall j :: 0 <= j < |s.legs| && j != i ==> s.legs[j] == r.legs[j]
  {
    var index := r.legs[i].index;
    var s := RowWithLegFilled(r, i);
    assert Quantities(s.legs) == Quantities(r.legs);
    forall j | 0 <= j < |s.legs| && j != i
      ensures s.legs[j] == r.legs[j]
    {
    }
    FilledIndicesAfterFill(r.legs, s.legs, i);
  }

  lemma FilledIndicesAfterFill(before: seq<Leg>, after: seq<Leg>, i: nat)
    requires |before| == |after| && i < |before|
    requires after[i] == before[i].(status := LegFilled)
    requires forall j :: 0 <= j < |before| && j != i ==> after[j] == before[j]
    ensures FilledIndices(after) == FilledIndices(before) + {before[i].index}
  {
    forall x | x in FilledIndices(before) + {before[i].index}
      ensures x in FilledIndices(after)
    {
      if x == before[i].index {
        assert after[i] in after;
      } else {
        var j :| 0 <= j < |before| && before[j].status == LegFilled && before[j].index == x;
        assert after[j] in after;
      }
    }
    forall x | x in FilledIndices(after)
      ensures x in FilledIndices(before) + {before[i].index}
    {
      var j :| 0 <= j < |after| && after[j].status == LegFilled && after[j].index == x;
      assert j != i ==> before[j] in before;
    }
  }

  lemma CancelingKeepsFilled(legs: seq<Leg>)
    ensures FilledIndices(WithOpenCanceled(legs)) == FilledIndices(legs)
    ensures Quantities(WithOpenCanceled(legs)) == Quantities(legs)
  {
    var s := WithOpenCanceled(legs);
    forall x | x in FilledIndices(legs)
      ensures x in FilledIndices(s)
    {
      var j :| 0 <= j < |legs| && legs[j].status == LegFilled && legs[j].index == x;
      assert s[j] in s;
    }
    forall x | x in FilledIndices(s)
      ensures x in FilledIndices(legs)
    {
      var j :| 0 <= j < |s| && s[j].status == LegFilled && s[j].index == x;
      assert legs[j] in legs;
    }
  }

  lemma ClosingARow(r: Row, c: Closing)
    requires RowOk(r)
    ensures RowOk(ClosedRow(r, c, r.touched)) && SameTrade(r, ClosedRow(r, c, r.touched))
  {
    hide Sum, FilledIndices, Quantities;
    CancelingKeepsFilled(r.legs);
  }

  /** The closed row in fields: no leg is open any more and nothing else about a leg changes. */
  lemma ClosedInFields(r: Row, c: Closing, touched: set<nat>)
    ensures var s := ClosedRow(r, c, touched);
            && s == r.(status := Closed, closing := Some(c), touched := touched, legs := s.legs)
            && |s.legs| == |r.legs|
            && forall i :: 0 <= i < |r.legs| ==>
                 s.legs[i] == r.legs[i].(status := if r.legs[i].status == LegFilled then LegFilled else LegCanceled)
  {
  }

  /** Once every leg is filled there is nothing left open. */
  lemma AllFilledNothingRemains(r: Row)
    requires RowOk(r) && r.legs != [] && forall i :: 0 <= i < |r.legs| ==> r.legs[i].status == LegFilled
    ensures Remaining(r) == 0.0
  {
    assert FilledQuantities(r.legs) == Quantities(r.legs);
  }

  // ---------------------------------------------------------------- the row object

  class LiveTrade {
    const id: int
    const side: Side
    const leverage: int
    const margin: real
    const qty: real
    const entry: real
    const stopLoss: real
    var status: Status
    var entryOrderId: Option<Key>
    var slOrderId: Option<Key>
    var legs: seq<Leg>
    var touched: set<nat>
    var closing: Option<Closing>

    function View(): Row
      reads this
    {
      Row(id, side, leverage, margin, qty, entry, stopLoss, status, entryOrderId, slOrderId, legs, touched, closing)
    }

    constructor (r: Row)
      ensures View() == r
    {
      id, side, leverage, margin, qty := r.id, r.side, r.leverage, r.margin, r.qty;
      entry, stopLoss := r.entry, r.stopLoss;
      status, entryOrderId, slOrderId, legs, touched, closing :=
        r.status, r.entryOrderId, r.slOrderId, r.legs, r.touched, r.closing;
    }

    method MarkLegFilled(i: nat)
      requires RowOk(View()) && status != Closed && i < |legs|
      modifies this`legs, this`touched
      ensures RowOk(View()) && SameTrade(old(View()), View())
      ensures legs[i].status == LegFilled && forall j :: 0 <= j < |legs| && j != i ==> legs[j] == old(legs)[j]
      ensures View() == RowWithLegFilled(old(View()), i)
    {
      FillingALeg(View(), i);
      if legs[i].status != LegFilled {
        touched := touched + {legs[i].index};
        legs := WithLegFilled(legs, legs[i].index);
      } else {
        assert WithLegFilled(legs, legs[i].index) == legs;
        assert legs[i] in legs;
        assert touched + {legs[i].index} == touched;
      }
    }

    method CloseTrade(c: Closing, touchedTps: set<nat>)
      modifies this`status, this`closing, this`touched, this`legs
      ensures View() == ClosedRow(old(View()), c, touchedTps)
    {
      status, closing, touched := Closed, Some(c), touchedTps;
      legs := WithOpenCanceled(legs);
    }

    method SetSlOrder(k: Key)
      modifies this`slOrderId
      ensures slOrderId == Some(k)
    {
      slOrderId := Some(k);
    }

    method SetLegTpOrder(i: nat, k: Key)
      requires i < |legs|
      modifies this`legs
      ensures legs == old(legs)[i := old(legs)[i].(tpOrderId := Some(k))]
    {
      legs := legs[i := legs[i].(tpOrderId := Some(k))];
    }

    method MarkOpened(sl: Option<Key>)
      modifies this`status, this`slOrderId
      ensures status == Open && slOrderId == sl
    {
      status, slOrderId := Open, sl;
    }

    /** The session rolls back to the committed row. */
    method Reload(r: Row)
      requires SameTrade(View(), r)
      modifies this
      ensures View() == r
    {
      status, entryOrderId, slOrderId, legs, touched, closing :=
        r.status, r.entryOrderId, r.slOrderId, r.legs, r.touched, r.closing;
    }
  }

  // ---------------------------------------------------------------- what a handler keeps

  /** The handler starts on a committed row. */
  ghost predicate Ready(t: LiveTrade, ex: Exchange)
    reads t, ex
  {
    ex.Valid() && ex.committed == t.View()
  }

  /** Midway: the row may have changed in memory but still describes the account. */
  ghost predicate Midway(t: LiveTrade, ex: Exchange)
    reads t, ex
  {
    ex.Valid() && Linked(t.View(), ex.account) && SameTrade(ex.committed, t.View())
  }

  /** What a finished handler has kept: committing its row is safe, every account passed through
      is safe for the row committed before, a stop that was live is live, closed rows stay as
      they are. */
  twostate predicate Kept(t: LiveTrade, ex: Exchange)
    reads t, ex
  {
    && ex.Valid() && ex.committed == old(ex.committed) && old(ex.history) <= ex.history && Inv(t.View(), ex.account)
    && SameTrade(old(t.View()), t.View()) && old(ex.account.fills) <= ex.account.fills
    && (Held(old(t.View()), old(ex.account)) ==> Held(t.View(), ex.account))
    && (old(t.status) == Closed ==> t.View() == old(t.View()))
  }

  /** The stop stored at the start was live at every moment of the handler, so that a crash at any
      point leaves the committed row with its own stop. */
  twostate predicate HeldThroughout(ex: Exchange)
    reads ex
  {
    Held(old(ex.committed), old(ex.account)) ==>
      forall i :: old(|ex.history|) <= i < |ex.history| ==> Held(old(ex.committed), ex.history[i])
  }

  /** The stop stored at the start was live up to history[lost], where its cancellation took effect;
      only a move of the stored id from the original to the break-even stop cancels it. */
  twostate predicate HeldUntil(t: LiveTrade, ex: Exchange, lost: nat)
    reads t, ex
  {
    && old(|ex.history|) <= lost <= |ex.history|
    && (Held(old(ex.committed), old(ex.account)) ==>
          forall i :: old(|ex.history|) <= i < lost ==> Held(old(ex.committed), ex.history[i]))
    && (forall i :: lost <= i < |ex.history| ==> SlKey(t.id) !in ex.history[i].orders)
    && (lost < |ex.history| ==> old(t.slOrderId) == Some(SlKey(t.id)) && t.slOrderId == Some(BeKey(t.id)))
  }

  lemma CommittedIsLinked(t: LiveTrade, ex: Exchange)
    requires Ready(t, ex)
    ensures Inv(t.View(), ex.account) && RowOk(t.View()) && SameTrade(t.View(), t.View())
  {
    assert Inv(ex.committed, ex.history[|ex.history| - 1]);
  }

  lemma ValidAccount(ex: Exchange)
    requires ex.Valid()
    ensures Inv(ex.committed, ex.account)
  {
    assert Inv(ex.committed, ex.history[|ex.history| - 1]);
  }

  /** A later account still fits a row that fitted an earlier one. */
  lemma LinkPersists(r: Row, a: Account, s: Row, b: Account)
    requires Linked(s, b) && RowOk(r) && SameTrade(s, r)
    requires Linked(r, a) && a.fills <= b.fills
    ensures Linked(r, b)
  {
    hide RowOk, Unsold, OrderOk;
    LinkAcrossRows(s, r, b);
  }

  /** Closing a linked row leaves it linked, and nothing needs protecting any more. */
  lemma ClosedIsSafe(r: Row, a: Account, c: Closing)
    requires Linked(r, a)
    ensures Inv(ClosedRow(r, c, r.touched), a) && SameTrade(r, ClosedRow(r, c, r.touched))
  {
    hide Unsold, OrderOk, Sum;
    ClosingARow(r, c);
    LinkAcrossRows(r, ClosedRow(r, c, r.touched), a);
  }

  // ---------------------------------------------------------------- retry loops

  method PlaceStopWithRetry(ex: Exchange, k: Key, qty: real, price: real) returns (ok: bool)
    requires ex.Valid() && k in {SlKey(ex.committed.id), BeKey(ex.committed.id)} && qty >= ex.account.position
    requires k == BeKey(ex.committed.id) ==> price == ex.committed.entry
    modifies ex
    ensures ex.Valid() && ex.Later({})
    ensures ex.quiet ==>
              ok && ex.account == old(ex.account).(orders := old(ex.account).orders[k := Order(Stop, qty, price)])
  {
    hide Inv, Covers, Serves;
    for attempt := 0 to ATTEMPTS
      invariant ex.Valid() && ex.Later({})
      invariant attempt > 0 ==> !ex.quiet
      invariant attempt == 0 ==> ex.account == old(ex.account)
    {
      ok := ex.PlaceStop(k, qty, price);
      if ok {
        return true;
      }
    }
    return false;
  }

  method PlaceTakeProfitWithRetry(ex: Exchange, ghost i: nat, k: Key, qty: real, price: real) returns (ok: bool)
    requires ex.Valid() && i < |ex.committed.legs|
    requires k == TpKey(ex.committed.id, ex.committed.legs[i].index)
    requires qty == ex.committed.legs[i].qty && price == ex.committed.legs[i].target
    modifies ex
    ensures ex.Valid() && ex.Later({}) && (ok ==> Serves(ex.account, k))
    ensures ex.quiet ==>
              ok && ex.account == old(ex.account).(orders := old(ex.account).orders[k := Order(TakeProfit, qty, price)])
  {
    hide Inv, Covers, Serves;
    for attempt := 0 to ATTEMPTS
      invariant ex.Valid() && ex.Later({})
      invariant attempt > 0 ==> !ex.quiet
      invariant attempt == 0 ==> ex.account == old(ex.account)
    {
      ok := ex.PlaceTakeProfit(i, k, qty, price);
      if ok {
        return true;
      }
    }
    return false;
  }

  /** Confirmation means that the order was seen in the open-order list; a stop seen there covers. */
  method ConfirmOpenOrder(ex: Exchange, k: Key) returns (seen: bool)
    requires ex.Valid() && k.purpose != Tp
    modifies ex
    ensures ex.Valid() && ex.Later({}) && (seen ==> Covers(ex.account, k))
    ensures ex.quiet ==> ex.account == old(ex.account) && seen == (k in old(ex.account).orders)
  {
    hide Inv, Covers, Serves;
    for attempt := 0 to ATTEMPTS
      invariant ex.Valid() && ex.Later({})
      invariant ex.quiet ==> ex.account == old(ex.account) && (attempt > 0 ==> k !in old(ex.account).orders)
    {
      var ok, ids := ex.GetOpenAlgoOrders();
      if ok && k in ids {
        return true;
      }
    }
    return false;
  }

  /** A stop that was placed without an error and then seen live. */
  method PlaceAndConfirm(ex: Exchange, k: Key, qty: real, price: real) returns (confirmed: bool)
    requires ex.Valid() && k in {SlKey(ex.committed.id), BeKey(ex.committed.id)} && qty >= ex.account.position
    requires k == BeKey(ex.committed.id) ==> price == ex.committed.entry
    modifies ex
    ensures ex.Valid() && ex.Later({}) && (confirmed ==> Covers(ex.account, k))
    ensures ex.quiet ==>
              && confirmed
              && ex.account == old(ex.account).(orders := old(ex.account).orders[k := Order(Stop, qty, price)])
  {
    hide Inv, Covers, Serves;
    confirmed := PlaceStopWithRetry(ex, k, qty, price);
    if confirmed {
      confirmed := ConfirmOpenOrder(ex, k);
    }
  }

  // ---------------------------------------------------------------- take-profit fills

  /** Moves the stop to the entry: the old stop is cancelled only after the new one was seen live. */
  method MoveStopToBreakEven(t: LiveTrade, ex: Exchange) returns (moved: bool, ghost lost: nat)
    requires Midway(t, ex) && t.slOrderId == ex.committed.slOrderId && t.status == ex.committed.status
    modifies ex, t`slOrderId
    ensures Midway(t, ex) && ex.committed == old(ex.committed) && old(ex.account.fills) <= ex.account.fills
    ensures old(ex.history) <= ex.history
    ensures t.slOrderId == if moved then Some(BeKey(t.id)) else old(t.slOrderId)
    ensures moved ==> Covers(ex.account, BeKey(t.id)) && Remaining(old(t.View())) > 0.0
    ensures !moved ==> ex.Later({})
    ensures old(|ex.history|) <= lost <= |ex.history|
    ensures forall i :: old(|ex.history|) <= i < lost ==> Stays(old(ex.account), ex.history[i], {})
    ensures forall i :: lost <= i < |ex.history| ==> SlKey(t.id) !in ex.history[i].orders
    ensures lost < |ex.history| ==> moved && old(t.slOrderId) == Some(SlKey(t.id))
    ensures ex.quiet && Remaining(old(t.View())) > 0.0 ==>
              && moved && ex.account.position == old(ex.account.position)
              && AtBreakEven(t.View(), ex.account)
              && (old(t.slOrderId) == Some(SlKey(t.id)) ==> SlKey(t.id) !in ex.account.orders)
              && forall k :: k !in {SlKey(t.id), BeKey(t.id)} ==>
                   (k in ex.account.orders <==> k in old(ex.account.orders))
                   && (k in ex.account.orders ==> ex.account.orders[k] == old(ex.account.orders)[k])
  {
    hide Inv, Linked, Covers, Serves, Unsold, Remaining, OpenQty;
    var remaining := Remaining(t.View());
    if remaining <= 0.0 {
      return false, |ex.history|;
    }
    RemainingCoversPosition(t.View(), ex.account);
    LinkedRow(t.View(), ex.account);
    RemainingIsOpenQty(t.View());
    SameOpenQty(t.View(), BeKey(t.id));
    ghost var row, before := t.View(), ex.account;
    var be := BeKey(t.id);
    var confirmed := PlaceAndConfirm(ex, be, remaining, t.entry);
    ValidAccount(ex);
    StillLinked(row, before, ex);
    lost := |ex.history|;
    if !confirmed {
      return false, lost;
    }
    if t.slOrderId.Some? && t.slOrderId.value != be {
      StoredStopKey(row, before);
      var cancelled;
      cancelled, lost := ex.CancelAlgoOrder(t.slOrderId.value);
      StillLinked(row, before, ex);
    }
    t.SetSlOrder(be);
    StoringAStop(row, ex.account, be);
    return true, lost;
  }

  lemma SameOpenQty(r: Row, k: Key)
    ensures OpenQty(r.(slOrderId := Some(k))) == OpenQty(r)
  {
  }

  lemma StoredStopKey(r: Row, a: Account)
    requires Linked(r, a)
    ensures r.slOrderId.Some? ==> r.slOrderId.value in {SlKey(r.id), BeKey(r.id)}
  {
    hide Unsold, OrderOk, Sum;
  }

  lemma LinkedRow(r: Row, a: Account)
    requires Linked(r, a)
    ensures RowOk(r)
  {
  }

  lemma StillLinked(r: Row, a: Account, ex: Exchange)
    requires ex.Valid() && Linked(r, a) && SameTrade(ex.committed, r) && a.fills <= ex.account.fills
    ensures Linked(r, ex.account)
  {
    ValidAccount(ex);
    LinkPersists(r, a, ex.committed, ex.account);
  }

  lemma StoringAStop(r: Row, a: Account, k: Key)
    requires Linked(r, a) && k in {SlKey(r.id), BeKey(r.id)}
    ensures Linked(r.(slOrderId := Some(k)), a) && SameTrade(r, r.(slOrderId := Some(k)))
  {
    hide Sum, OrderOk;
    var s := r.(slOrderId := Some(k));
    assert RowOk(s);
    LinkAcrossRows(r, s, a);
  }

  // ---------------------------------------------------------------- fill events

  /** The result that a close reports: the exchange's own figure, or the blended one. */
  function RealizedPnl(r: Row, e: Event, remainingExit: Option<real>, reported: Option<LegFill>): real
    requires RowOk(r)
  {
    if e.realizedPnl.Some? then e.realizedPnl.value
    else
      BlendedPnlSucceeds(r, remainingExit, reported);
      BlendedPnl(r, remainingExit, reported).value
  }

  function ReportedPrice(e: Event): Option<real> {
    if e.lastPrice.Some? && e.lastPrice.value > 0.0 then e.lastPrice else None
  }

  predicate AllFilled(legs: seq<Leg>) {
    legs != [] && forall i :: 0 <= i < |legs| ==> legs[i].status == LegFilled
  }

  function Roi(r: Row, pnl: real): real {
    Quotient(pnl, r.margin) * 100.0
  }

  /** The closing that a take-profit fill of leg i reports when no leg is left. */
  function AllTpClosing(r: Row, e: Event, index: nat): Closing
    requires RowOk(r)
  {
    var reported := match ReportedPrice(e) case Some(p) => Some(LegFill(index, p)) case None => None;
    var pnl := RealizedPnl(r, e, None, reported);
    Closing(AllTp, pnl, Roi(r, pnl))
  }

  /** The closing that a fill of the stored stop reports. */
  function StopClosing(r: Row, e: Event): Closing
    requires RowOk(r)
  {
    var price := match ReportedPrice(e) case Some(p) => p case None => r.stopLoss;
    var pnl := RealizedPnl(r, e, Some(price), None);
    Closing(if e.clientId == Some(BeKey(r.id)) || price == r.entry then BreakEven else StopLoss, pnl, Roi(r, pnl))
  }

  /** The closings in numbers. Without a figure of the exchange's own, the result is the margin times
      the trade's return: at the reported price if it is positive, and otherwise the stop at the
      signal's stop loss and the last leg at its target. */
  lemma ClosingsInNumbers(r: Row, e: Event, index: nat)
    requires RowOk(r)
    ensures var stop, tp := StopClosing(r, e), AllTpClosing(r, e, index);
            var priced := e.lastPrice.Some? && e.lastPrice.value > 0.0;
            var price := if priced then e.lastPrice.value else r.stopLoss;
            var last := if priced then Some(LegFill(index, price)) else None;
            && stop.roi == stop.pnl / r.margin * 100.0 && tp.roi == tp.pnl / r.margin * 100.0
            && tp.reason == AllTp
            && stop.reason == (if e.clientId == Some(BeKey(r.id)) || price == r.entry then BreakEven else StopLoss)
            && (e.realizedPnl.Some? ==> stop.pnl == tp.pnl == e.realizedPnl.value)
            && (e.realizedPnl.None? ==>
                  && stop.pnl == Max(Product(r.margin, TradeReturn(r, Some(price), None)), -r.margin)
                  && tp.pnl == Max(Product(r.margin, TradeReturn(r, None, last)), -r.margin))
  {
    hide BlendedPnl, TradeReturn, Sum, Quantities, FilledIndices, Product;
    var priced := e.lastPrice.Some? && e.lastPrice.value > 0.0;
    var price := if priced then e.lastPrice.value else r.stopLoss;
    BlendIsTradeReturn(r, Some(price), None);
    BlendIsTradeReturn(r, None, if priced then Some(LegFill(index, price)) else None);
  }

  lemma FilledLegIsLinked(r: Row, a: Account, i: nat)
    requires Linked(r, a) && r.status != Closed && i < |r.legs| && TpKey(r.id, r.legs[i].index) in a.fills
    ensures Linked(RowWithLegFilled(r, i), a) && SameTrade(r, RowWithLegFilled(r, i))
  {
    hide Unsold, OrderOk;
    FillingALeg(r, i);
    LinkAcrossRows(r, RowWithLegFilled(r, i), a);
  }

  lemma FlatWhenAllFilled(r: Row, a: Account)
    requires Linked(r, a) && AllFilled(r.legs)
    ensures a.position == 0.0
  {
    hide Sum, Unsold, OrderOk;
    RemainingCoversPosition(r, a);
    AllFilledNothingRemains(r);
  }

  /** The last leg has filled: the stop is no longer needed and the trade closes. */
  method FinishAllTp(t: LiveTrade, ex: Exchange, e: Event, index: nat)
    requires Midway(t, ex) && AllFilled(t.legs) && t.slOrderId == ex.committed.slOrderId
    modifies t, ex
    ensures ex.Valid() && ex.committed == old(ex.committed) && old(ex.account.fills) <= ex.account.fills
    ensures RowOk(old(t.View()))
    ensures t.View() == ClosedRow(old(t.View()), AllTpClosing(old(t.View()), e, index), old(t.touched))
    ensures Inv(t.View(), ex.account) && SameTrade(old(t.View()), t.View())
    ensures old(ex.history) <= ex.history
    ensures forall i :: old(|ex.history|) <= i < |ex.history| ==> ex.history[i].position == 0.0
    ensures ex.quiet && old(t.slOrderId).Some? ==> old(t.slOrderId.value) !in ex.account.orders
  {
    hide Inv, Linked, Protected, Covers, BlendedPnl, Remaining, Unsold;
    ghost var r, before := t.View(), ex.account;
    LinkedRow(r, before);
    FlatWhenAllFilled(r, before);
    if t.slOrderId.Some? {
      var _, _ := ex.CancelAlgoOrder(t.slOrderId.value);
    }
    StillLinked(r, before, ex);
    var c := AllTpClosing(t.View(), e, index);
    ClosedIsSafe(r, ex.account, c);
    t.CloseTrade(c, t.touched);
  }

  /** What a take-profit fill of leg i makes of the row: the trade closes when it was the last
      leg; otherwise only the leg changes, and possibly the stop moves to break even. */
  ghost predicate TakeProfitOutcome(start: Row, i: nat, e: Event, moveToBreakEven: bool, end: Row)
    requires i < |start.legs|
  {
    var r := RowWithLegFilled(start, i);
    && RowOk(r)
    && if AllFilled(r.legs) then
         end == ClosedRow(r, AllTpClosing(r, e, r.legs[i].index), r.touched)
       else
         || end == r
         || (moveToBreakEven && r.legs[i].index == 1 && Remaining(r) > 0.0 && end == r.(slOrderId := Some(BeKey(r.id))))
  }

  method HandleTakeProfitFill(t: LiveTrade, ex: Exchange, i: nat, e: Event, moveToBreakEven: bool)
    returns (res: HandlerResult, ghost lost: nat)
    requires Ready(t, ex) && i < |t.legs| && t.status != Closed && t.legs[i].status != LegFilled
    requires TpKey(t.id, t.legs[i].index) in ex.account.fills
    modifies t, ex
    ensures Kept(t, ex) && TakeProfitOutcome(old(t.View()), i, e, moveToBreakEven, t.View())
    ensures res == if t.status == Closed then ClosedNow else OneLegFilled(old(t.legs)[i].index)
    ensures t.status == Closed || t.legs == RowWithLegFilled(old(t.View()), i).legs
    ensures HeldUntil(t, ex, lost)
    ensures ex.quiet && moveToBreakEven && old(t.legs)[i].index == 1 && t.status != Closed
            && Remaining(RowWithLegFilled(old(t.View()), i)) > 0.0 ==>
              && t.slOrderId == Some(BeKey(t.id)) && ex.account.position == old(ex.account.position)
              && AtBreakEven(t.View(), ex.account)
              && (old(t.slOrderId).Some? && old(t.slOrderId) != Some(BeKey(t.id)) ==>
                    old(t.slOrderId.value) !in ex.account.orders)
  {
    hide Inv, Linked, Protected, Covers, Held, AtBreakEven, AllTpClosing, ClosedRow, RowWithLegFilled, SameTrade,
         AllFilled;
    CommittedIsLinked(t, ex);
    InvParts(t.View(), ex.account);
    ghost var start, account := t.View(), ex.account;
    FilledLegIsLinked(start, account, i);
    t.MarkLegFilled(i);
    ghost var r := t.View();
    RowWithLegFilledBasics(start, i);
    LinkedRow(r, account);
    var index := t.legs[i].index;
    if AllFilled(t.legs) {
      FinishAllTp(t, ex, e, index);
      ClosedRowIsClosed(r, AllTpClosing(r, e, index), r.touched);
      ClosedIsHeld(t.View(), ex.account);
      SameTradeTransitive(start, r, t.View());
      FlatIsHeld(start, ex.history, old(|ex.history|));
      return ClosedNow, |ex.history|;
    }
    res, lost := OneLegFilled(index), |ex.history|;
    var moved := false;
    if moveToBreakEven && index == 1 {
      moved, lost := MoveStopToBreakEven(t, ex);
      HeldWhileStaying(start, account, ex.history, old(|ex.history|), lost);
    }
    ValidAccount(ex);
    InvParts(start, ex.account);
    KeptAfterMove(start, account, t.View(), ex.account, moved);
    SameTradeTransitive(start, r, t.View());
  }

  lemma HeldWhileStaying(r: Row, a: Account, history: seq<Account>, from: nat, to: nat)
    requires to <= |history| && forall i :: from <= i < to ==> Stays(a, history[i], {})
    ensures Held(r, a) ==> forall i :: from <= i < to ==> Held(r, history[i])
  {
    hide Covers, Serves;
  }

  lemma FlatIsHeld(r: Row, history: seq<Account>, from: nat)
    requires from <= |history| && forall i :: from <= i < |history| ==> history[i].position == 0.0
    ensures forall i :: from <= i < |history| ==> Held(r, history[i])
  {
  }

  lemma RowWithLegFilledBasics(r: Row, i: nat)
    requires i < |r.legs|
    ensures var s := RowWithLegFilled(r, i);
            s == r.(legs := s.legs, touched := s.touched) && |s.legs| == |r.legs| && s.legs[i].index == r.legs[i].index
  {
  }

  lemma SameTradeTransitive(a: Row, b: Row, c: Row)
    requires SameTrade(a, b) && (SameTrade(b, c) || c == b.(slOrderId := c.slOrderId))
    ensures SameTrade(a, c)
  {
  }

  lemma ClosedRowIsClosed(r: Row, c: Closing, touched: set<nat>)
    ensures ClosedRow(r, c, touched).status == Closed
  {
  }

  lemma InvParts(r: Row, a: Account)
    requires Inv(r, a)
    ensures Linked(r, a) && Protected(r, a) && RowOk(r)
  {
  }

  lemma ClosedIsHeld(r: Row, a: Account)
    requires r.status != Open
    ensures Held(r, a) && Protected(r, a)
  {
  }

  function TpKeys(r: Row): set<Key> {
    set leg | leg in r.legs && leg.tpOrderId.Some? :: leg.tpOrderId.value
  }

  lemma StopsAreNotTps(r: Row, a: Account)
    requires RowOk(r)
    ensures r.slOrderId.Some? ==> r.slOrderId.value !in TpKeys(r)
  {
  }

  /** A row whose stored stop is the old one, or a break-even stop seen live, is protected. */
  lemma KeptAfterMove(r: Row, a: Account, s: Row, b: Account, moved: bool)
    requires Linked(s, b) && Protected(r, b) && r.status == s.status && r.id == s.id
    requires s.slOrderId == if moved then Some(BeKey(s.id)) else r.slOrderId
    requires moved ==> Covers(b, BeKey(s.id))
    requires !moved ==> forall k :: Covers(a, k) ==> Covers(b, k)
    ensures Inv(s, b) && (Held(r, a) ==> Held(s, b))
  {
    hide Linked, Covers;
  }

  function OpenTpKeys(legs: seq<Leg>): set<Key> {
    set leg | leg in legs && leg.status == LegOpen && leg.tpOrderId.Some? :: leg.tpOrderId.value
  }

  lemma OneMoreOpenTp(legs: seq<Leg>, i: nat)
    requires i < |legs|
    ensures OpenTpKeys(legs[..i + 1]) ==
            OpenTpKeys(legs[..i]) + if legs[i].status == LegOpen && legs[i].tpOrderId.Some?
                                    then {legs[i].tpOrderId.value} else {}
  {
    assert legs[..i + 1] == legs[..i] + [legs[i]];
  }

  lemma NoOpenTps(legs: seq<Leg>)
    ensures OpenTpKeys(legs[..0]) == {} && OpenTpKeys(legs[..|legs|]) == OpenTpKeys(legs)
  {
    assert legs[..|legs|] == legs;
  }

  method CancelOpenTps(t: LiveTrade, ex: Exchange)
    requires Ready(t, ex)
    modifies ex
    ensures ex.Valid() && ex.Later(TpKeys(t.View()))
    ensures ex.quiet ==> ex.account == old(ex.account).(orders := old(ex.account).orders - OpenTpKeys(t.legs))
  {
    hide Inv, Covers, OpenTpKeys, Linked, Protected;
    CommittedIsLinked(t, ex);
    InvParts(t.View(), ex.account);
    NoOpenTps(t.legs);
    for i := 0 to |t.legs|
      invariant ex.Valid() && ex.Later(TpKeys(t.View()))
      invariant ex.quiet ==>
                  ex.account == old(ex.account).(orders := old(ex.account).orders - OpenTpKeys(t.legs[..i]))
    {
      OneMoreOpenTp(t.legs, i);
      if t.legs[i].status == LegOpen && t.legs[i].tpOrderId.Some? {
        var _, _ := ex.CancelAlgoOrder(t.legs[i].tpOrderId.value);
      }
    }
  }

  method HandleStopFill(t: LiveTrade, ex: Exchange, e: Event)
    requires Ready(t, ex) && t.status != Closed
    modifies t, ex
    ensures Kept(t, ex) && RowOk(old(t.View())) && HeldThroughout(ex) && t.status == Closed
    ensures t.View() == ClosedRow(old(t.View()), StopClosing(old(t.View()), e), old(t.touched))
    ensures ex.quiet ==>
              ex.account == old(ex.account).(orders := old(ex.account).orders - OpenTpKeys(old(t.legs)))
  {
    hide Inv, Linked, Protected, Covers, BlendedPnl, OpenTpKeys;
    CommittedIsLinked(t, ex);
    InvParts(t.View(), ex.account);
    ghost var start := t.View();
    StopsAreNotTps(start, ex.account);
    CancelOpenTps(t, ex);
    ValidAccount(ex);
    InvParts(start, ex.account);
    var c := StopClosing(t.View(), e);
    ClosedIsSafe(start, ex.account, c);
    t.CloseTrade(c, t.touched);
    ClosedIsHeld(t.View(), ex.account);
  }

  /** Liquidation: the loss is one isolated margin. */
  method HandleLiquidationUpdate(t: LiveTrade, ex: Exchange)
    requires Ready(t, ex) && t.status == Open
    modifies t
    ensures Kept(t, ex) && t.status == Closed
    ensures t.View() == ClosedRow(old(t.View()), Closing(Liquidation, -t.margin, -100.0), old(t.touched))
  {
    hide Linked, Protected;
    CommittedIsLinked(t, ex);
    var c := Closing(Liquidation, -t.margin, -100.0);
    ClosedIsSafe(t.View(), ex.account, c);
    t.CloseTrade(c, t.touched);
    ClosedIsHeld(t.View(), ex.account);
  }

  method FindLeg(t: LiveTrade, k: Key) returns (r: Option<nat>)
    ensures match r
            case Some(i) => i < |t.legs| && t.legs[i].tpOrderId == Some(k)
            case None => forall i :: 0 <= i < |t.legs| ==> t.legs[i].tpOrderId != Some(k)
  {
    for i := 0 to |t.legs|
      invariant forall j :: 0 <= j < i ==> t.legs[j].tpOrderId != Some(k)
    {
      if t.legs[i].tpOrderId == Some(k) {
        return Some(i);
      }
    }
    return None;
  }

  /** Events that change nothing: not a fill, not this trade's, or already accounted for. */
  ghost predicate IgnoredBy(r: Row, e: Event) {
    && !(e.calculated && r.status == Open)
    && (e.clientId.None? || !(e.orderFill || e.algoFill) || r.status == Closed
        || if exists i :: 0 <= i < |r.legs| && r.legs[i].tpOrderId == e.clientId
           then forall i :: 0 <= i < |r.legs| && r.legs[i].tpOrderId == e.clientId ==> r.legs[i].status == LegFilled
           else e.clientId == r.entryOrderId || e.clientId != r.slOrderId)
  }

  /** The exchange reports a take-profit as filled only when it has filled. */
  predicate Truthful(e: Event, a: Account) {
    (e.orderFill || e.algoFill) && e.clientId.Some? && e.clientId.value.purpose == Tp ==> e.clientId.value in a.fills
  }

  lemma OnlyOneLegHasTheKey(r: Row, i: nat, k: Key)
    requires RowOk(r) && i < |r.legs| && r.legs[i].tpOrderId == Some(k)
    ensures k == TpKey(r.id, r.legs[i].index)
    ensures forall j :: 0 <= j < |r.legs| && r.legs[j].tpOrderId == Some(k) ==> j == i
  {
    forall j | 0 <= j < |r.legs| && r.legs[j].tpOrderId == Some(k)
      ensures j == i
    {
      assert r.legs[j].index == r.legs[i].index;
    }
  }

  predicate IsFill(e: Event) {
    (e.orderFill || e.algoFill) && e.clientId.Some?
  }

  /** The event is the first fill of leg i. */
  ghost predicate FillsLeg(r: Row, i: nat, e: Event) {
    i < |r.legs| && r.legs[i].tpOrderId == e.clientId && r.legs[i].status != LegFilled && r.status != Closed
  }

  /** An event for leg i's take-profit. */
  method HandleLegEvent(t: LiveTrade, ex: Exchange, i: nat, e: Event, moveToBreakEven: bool)
    returns (res: HandlerResult, ghost lost: nat)
    requires Ready(t, ex) && Truthful(e, ex.account) && IsFill(e) && !(e.calculated && t.status == Open)
    requires i < |t.legs| && t.legs[i].tpOrderId == e.clientId
    modifies t, ex
    ensures Kept(t, ex) && RowOk(old(t.View()))
    ensures !e.calculated ==> IgnoredBy(t.View(), e)
    ensures !FillsLeg(old(t.View()), i, e) ==>
              && res == Ignored
              && t.View() == old(t.View()) && ex.account == old(ex.account) && ex.history == old(ex.history)
    ensures FillsLeg(old(t.View()), i, e) ==>
              && TakeProfitOutcome(old(t.View()), i, e, moveToBreakEven, t.View())
              && res == if t.status == Closed then ClosedNow else OneLegFilled(old(t.legs)[i].index)
    ensures HeldUntil(t, ex, lost)
    ensures ex.quiet && moveToBreakEven && t.status != Closed && old(t.legs)[i].index == 1
            && FillsLeg(old(t.View()), i, e) && Remaining(RowWithLegFilled(old(t.View()), i)) > 0.0 ==>
              && ex.account.position == old(ex.account.position) && AtBreakEven(t.View(), ex.account)
              && (old(t.slOrderId) == Some(SlKey(t.id)) ==> SlKey(t.id) !in ex.account.orders)
  {
    hide Inv, Linked, Protected, Covers, Held, AtBreakEven, TakeProfitOutcome, RowWithLegFilled, AllFilled, Remaining,
         FilledIndices;
    CommittedIsLinked(t, ex);
    InvParts(t.View(), ex.account);
    OnlyOneLegHasTheKey(t.View(), i, e.clientId.value);
    if t.status == Closed || t.legs[i].status == LegFilled {
      return Ignored, |ex.history|;
    }
    ghost var start := t.View();
    res, lost := HandleTakeProfitFill(t, ex, i, e, moveToBreakEven);
    InvParts(t.View(), ex.account);
    if !e.calculated {
      FilledLegIsIgnored(start, RowWithLegFilled(start, i), t.View(), i, e);
    }
  }

  /** Any event. A liquidation or a fill of the stored stop closes an open trade; a first fill of
      a leg has the take-profit outcome; everything else is ignored, and so is a repetition. A
      crash leaves the committed stop live, unless it comes after the cancellation that moves the
      stop to break even. */
  method HandleUserStreamEvent(t: LiveTrade, ex: Exchange, e: Event, moveToBreakEven: bool)
    returns (res: HandlerResult, ghost lost: nat)
    requires Ready(t, ex) && Truthful(e, ex.account)
    modifies t, ex
    ensures Kept(t, ex) && RowOk(old(t.View()))
    ensures res == ClosedNow <==> old(t.status) != Closed && t.status == Closed
    ensures !e.calculated ==> IgnoredBy(t.View(), e)
    ensures old(IgnoredBy(t.View(), e)) ==>
              && res in {Ignored, EntryFilled}
              && t.View() == old(t.View()) && ex.account == old(ex.account) && ex.history == old(ex.history)
    ensures HeldUntil(t, ex, lost)
    ensures e.calculated && old(t.status) == Open ==>
              t.View() == ClosedRow(old(t.View()), Closing(Liquidation, -t.margin, -100.0), old(t.touched))
    ensures !(e.calculated && old(t.status) == Open) && IsFill(e) && old(t.status) != Closed
            && e.clientId == old(t.slOrderId) ==>
              t.View() == ClosedRow(old(t.View()), StopClosing(old(t.View()), e), old(t.touched))
    ensures !(e.calculated && old(t.status) == Open) && IsFill(e) ==>
              forall i :: 0 <= i < |old(t.legs)| && FillsLeg(old(t.View()), i, e) ==>
                && TakeProfitOutcome(old(t.View()), i, e, moveToBreakEven, t.View())
                && (ex.quiet && moveToBreakEven && t.status != Closed && old(t.legs)[i].index == 1
                    && Remaining(RowWithLegFilled(old(t.View()), i)) > 0.0 ==>
                      && ex.account.position == old(ex.account.position) && AtBreakEven(t.View(), ex.account)
                      && (old(t.slOrderId) == Some(SlKey(t.id)) ==> SlKey(t.id) !in ex.account.orders))
  {
    hide Inv, Linked, Protected, Covers, Held, AtBreakEven, ClosedRow, StopClosing, AllTpClosing, RowWithLegFilled,
         FilledIndices, TakeProfitOutcome, AllFilled, Remaining, SameTrade, Quantities, RealizedPnl, Stays, Serves;
    CommittedIsLinked(t, ex);
    InvParts(t.View(), ex.account);
    lost := |ex.history|;
    if e.calculated && t.status == Open {
      HandleLiquidationUpdate(t, ex);
      return ClosedNow, |ex.history|;
    }
    if !IsFill(e) {
      return Ignored, lost;
    }
    var found := FindLeg(t, e.clientId.value);
    if found.Some? {
      OnlyOneLegHasTheKey(t.View(), found.value, e.clientId.value);
      res, lost := HandleLegEvent(t, ex, found.value, e, moveToBreakEven);
      return;
    }
    if t.status == Closed {
      return Ignored, lost;
    }
    if e.clientId == t.entryOrderId {
      return if e.orderFill then EntryFilled else Ignored, lost;
    }
    if e.clientId != t.slOrderId {
      return Ignored, lost;
    }
    StopsAreNotTps(t.View(), ex.account);
    HandleStopFill(t, ex, e);
    return ClosedNow, |ex.history|;
  }

  /** After its fill was handled, the same event is ignored. */
  lemma FilledLegIsIgnored(r: Row, filled: Row, s: Row, i: nat, e: Event)
    requires RowOk(r) && i < |r.legs| && r.legs[i].tpOrderId == e.clientId && e.clientId.Some? && !e.calculated
    requires filled == RowWithLegFilled(r, i) && RowOk(s)
    requires s.status == Closed || s.legs == filled.legs
    ensures IgnoredBy(s, e)
  {
    hide Sum, FilledIndices, Quantities;
    if s.status != Closed {
      assert s.legs[i].tpOrderId == e.clientId && s.legs[i].status == LegFilled;
      OnlyOneLegHasTheKey(s, i, e.clientId.value);
    }
  }
}
