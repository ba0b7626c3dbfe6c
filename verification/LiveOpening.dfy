/** Opening a live trade and closing a model-3 trade (services/core_engine/orders.py, engine.py,
    and handle_mark_price_for_model3 of lifecycle.py). */
module LiveOpening {
  import opened Common
  import opened OrderIds
  import opened LiveExchange
  import opened LiveTrade
  import DemoTrade

  datatype OpenResult =
    | Opened(takeProfits: set<nat>)     // indices of the legs whose take-profit was placed
    | EntrySkipped
    | EmergencyClosed
    | EmergencyCloseFailed
    | UnsupportedEntryMode
    | OpenRaised

  datatype EntryMode = LimitEntry | MarketEntry | OtherEntry

  // ---------------------------------------------------------------- protective orders

  /** Closes at market and then removes the symbol's orders; the clean-up may fail. */
  method EmergencyClose(ex: Exchange) returns (r: OpenResult)
    requires ex.Valid()
    modifies ex
    ensures ex.Valid() && ex.Later({})
    ensures r == EmergencyClosed || r == EmergencyCloseFailed
    ensures r == EmergencyClosed ==> ex.account.position == 0.0
  {
    hide Inv, Covers, Serves;
    for attempt := 0 to ATTEMPTS
      invariant ex.Valid() && ex.Later({})
    {
      var closed := ex.ClosePositionMarket();
      if closed {
        var _ := ex.CancelAllAlgoOrders();
        return EmergencyClosed;
      }
    }
    return EmergencyCloseFailed;
  }

  lemma PositionWithinQty(r: Row, a: Account)
    requires Linked(r, a)
    ensures a.position <= r.qty
  {
    SumNonNegative(FilledOnExchange(r, a.fills));
  }

  /** The orders after the take-profits of the first n legs were placed. */
  function WithTakeProfits(r: Row, orders: map<Key, Order>, n: nat): map<Key, Order>
    requires n <= |r.legs|
  {
    if n == 0 then orders
    else
      var leg := r.legs[n - 1];
      WithTakeProfits(r, orders, n - 1)[TpKey(r.id, leg.index) := Order(TakeProfit, leg.qty, leg.target)]
  }

  function AllIndices(legs: seq<Leg>): set<nat> {
    set i | 0 <= i < |legs| :: legs[i].index
  }

  /** One attempt series per leg; a leg whose take-profit could not be placed is skipped. */
  method PlaceTakeProfits(t: LiveTrade, ex: Exchange) returns (placed: set<nat>)
    requires Ready(t, ex)
    modifies ex
    ensures ex.Valid() && ex.Later({}) && placed <= AllIndices(t.legs)
    ensures ex.quiet ==>
              && placed == AllIndices(t.legs)
              && ex.account == old(ex.account).(orders := WithTakeProfits(t.View(), old(ex.account).orders, |t.legs|))
  {
    hide Inv, Covers, Serves, AllIndices;
    placed := {};
    NoIndexYet(t.legs);
    for i := 0 to |t.legs|
      invariant ex.Valid() && ex.Later({}) && placed <= AllIndices(t.legs[..i])
      invariant ex.quiet ==>
                  && placed == AllIndices(t.legs[..i])
                  && ex.account == old(ex.account).(orders := WithTakeProfits(t.View(), old(ex.account).orders, i))
    {
      OneMoreIndex(t.legs, i);
      var ok := PlaceTakeProfitWithRetry(ex, i, TpKey(t.id, t.legs[i].index), t.legs[i].qty, t.legs[i].target);
      if ok {
        placed := placed + {t.legs[i].index};
      }
    }
  }

  lemma NoIndexYet(legs: seq<Leg>)
    ensures AllIndices(legs[..0]) == {} && legs[..|legs|] == legs
  {
  }

  /** Take-profits are placed only after the stop was seen live. */
  method PlaceProtectiveOrders(t: LiveTrade, ex: Exchange, stopPrice: real) returns (r: OpenResult)
    requires Ready(t, ex)
    modifies ex
    ensures ex.Valid() && ex.Later({})
    ensures r.Opened? || r == EmergencyClosed || r == EmergencyCloseFailed
    ensures r.Opened? ==> Covers(ex.account, SlKey(t.id)) && r.takeProfits <= AllIndices(t.legs)
    ensures r == EmergencyClosed ==> ex.account.position == 0.0
    ensures ex.quiet ==>
              && r == Opened(AllIndices(t.legs))
              && ex.account == old(ex.account).(orders := WithTakeProfits(
                                   t.View(), old(ex.account).orders[SlKey(t.id) := Order(Stop, t.qty, stopPrice)],
                                   |t.legs|))
  {
    hide Inv, Linked, Covers, Serves, AllIndices, WithTakeProfits;
    CommittedIsLinked(t, ex);
    InvParts(t.View(), ex.account);
    PositionWithinQty(t.View(), ex.account);
    var sl := SlKey(t.id);
    var _ := PlaceStopWithRetry(ex, sl, t.qty, stopPrice);
    var confirmed := ConfirmOpenOrder(ex, sl);
    if !confirmed {
      r := EmergencyClose(ex);
      return;
    }
    var placed := PlaceTakeProfits(t, ex);
    return Opened(placed);
  }

  lemma OneMoreIndex(legs: seq<Leg>, i: nat)
    requires i < |legs|
    ensures AllIndices(legs[..i + 1]) == AllIndices(legs[..i]) + {legs[i].index}
  {
    assert legs[..i + 1] == legs[..i] + [legs[i]];
    forall x | x in AllIndices(legs[..i]) + {legs[i].index}
      ensures x in AllIndices(legs[..i + 1])
    {
      if x == legs[i].index {
        assert legs[..i + 1][i].index == x;
      } else {
        var j :| 0 <= j < i && legs[..i][j].index == x;
        assert legs[..i + 1][j].index == x;
      }
    }
    forall x | x in AllIndices(legs[..i + 1])
      ensures x in AllIndices(legs[..i]) + {legs[i].index}
    {
      var j :| 0 <= j < i + 1 && legs[..i + 1][j].index == x;
      assert j < i ==> legs[..i][j].index == x;
    }
  }

  /** Entry first; protective orders once it has filled. The wait for the fill is one
      nondeterministic answer, which may be wrong about an entry that did fill. */
  method PlaceInitialOrders(t: LiveTrade, ex: Exchange, mode: EntryMode, stopPrice: real) returns (r: OpenResult)
    requires Ready(t, ex) && t.status == PendingEntry && ex.account == Account(0.0, map[], {})
    modifies ex
    ensures ex.Valid() && ex.committed == old(ex.committed)
    ensures r.Opened? ==> Covers(ex.account, SlKey(t.id)) && r.takeProfits <= AllIndices(t.legs)
    ensures r == EmergencyClosed ==> ex.account.position == 0.0
    ensures r == UnsupportedEntryMode ==> mode == OtherEntry
    ensures r.Opened? && ex.quiet ==>
              && r.takeProfits == AllIndices(t.legs)
              && AllPlaced(ex.account, t.View(), stopPrice)
  {
    hide Inv, Linked, Covers, Serves, RowOk, WithTakeProfits, AllIndices;
    CommittedIsLinked(t, ex);
    var raised: bool := *;
    if raised {
      return OpenRaised;
    }
    if mode == OtherEntry {
      return UnsupportedEntryMode;
    }
    var filled: bool := *;
    if filled {
      ex.FillEntry(t.qty);
    }
    raised := *;
    if raised {
      return OpenRaised;
    }
    var seenFilled: bool := *;
    if !seenFilled || !filled {
      raised := *;
      return if raised then OpenRaised else EntrySkipped;
    }
    IndicesIncrease(t.View());
    TakeProfitsPlaced(t.View(), map[SlKey(t.id) := Order(Stop, t.qty, stopPrice)], |t.legs|);
    r := PlaceProtectiveOrders(t, ex, stopPrice);
  }

  lemma IndicesIncrease(r: Row)
    requires RowOk(r)
    ensures forall i, j :: 0 <= i < j < |r.legs| ==> r.legs[i].index < r.legs[j].index
  {
  }

  // ---------------------------------------------------------------- from the result to the stored status

  /** A row that is being opened, or has just been given its first status. */
  lemma StatusIsSafe(r: Row, s: Row, a: Account)
    requires Linked(r, a) && r.closing.None? && s.status != Closed
    requires s == r.(status := s.status, slOrderId := s.slOrderId, entryOrderId := s.entryOrderId)
    requires s.slOrderId.None? || s.slOrderId == Some(SlKey(r.id))
    requires s.entryOrderId == r.entryOrderId || s.entryOrderId == Some(EntryKey(r.id))
    ensures Linked(s, a) && SameTrade(r, s)
  {
    hide Sum, Unsold, OrderOk;
    LinkAcrossRows(r, s, a);
  }

  function WithTpOrders(r: Row, placed: set<nat>): (legs: seq<Leg>)
    ensures |legs| == |r.legs|
  {
    seq(|r.legs|, i requires 0 <= i < |r.legs| =>
          if r.legs[i].index in placed then r.legs[i].(tpOrderId := Some(TpKey(r.id, r.legs[i].index))) else r.legs[i])
  }

  lemma TpOrdersAreSafe(r: Row, placed: set<nat>, a: Account)
    requires Linked(r, a)
    ensures Linked(r.(legs := WithTpOrders(r, placed)), a) && SameTrade(r, r.(legs := WithTpOrders(r, placed)))
  {
    hide Sum, Unsold, OrderOk;
    var s := r.(legs := WithTpOrders(r, placed));
    assert Quantities(s.legs) == Quantities(r.legs);
    forall x | x in FilledIndices(r.legs)
      ensures x in FilledIndices(s.legs)
    {
      var j :| 0 <= j < |r.legs| && r.legs[j].status == LegFilled && r.legs[j].index == x;
      assert s.legs[j] in s.legs;
    }
    forall x | x in FilledIndices(s.legs)
      ensures x in FilledIndices(r.legs)
    {
      var j :| 0 <= j < |s.legs| && s.legs[j].status == LegFilled && s.legs[j].index == x;
      assert r.legs[j] in r.legs;
    }
    LinkAcrossRows(r, s, a);
  }

  /** An exception may cut the loop short, with the ids stored so far. */
  method StoreTpOrders(t: LiveTrade, placed: set<nat>) returns (ok: bool, ghost stored: set<nat>)
    requires forall i :: 0 <= i < |t.legs| ==> t.legs[i].tpOrderId.None?
    requires forall i, j :: 0 <= i < j < |t.legs| ==> t.legs[i].index < t.legs[j].index
    modifies t`legs
    ensures t.View() == old(t.View()).(legs := WithTpOrders(old(t.View()), stored))
    ensures stored <= placed && (ok ==> WithTpOrders(old(t.View()), stored) == WithTpOrders(old(t.View()), placed))
  {
    stored := {};
    assert WithTpOrders(old(t.View()), {}) == t.legs;
    for i := 0 to |t.legs|
      invariant |t.legs| == |old(t.legs)| && stored <= placed
      invariant t.legs == WithTpOrders(old(t.View()), stored)
      invariant forall j :: i <= j < |t.legs| ==> old(t.legs)[j].index !in stored
      invariant forall j :: 0 <= j < i ==> (old(t.legs)[j].index in stored <==> old(t.legs)[j].index in placed)
    {
      if t.legs[i].index in placed {
        stored := stored + {t.legs[i].index};
        t.SetLegTpOrder(i, TpKey(t.id, t.legs[i].index));
        var raised: bool := *;
        if raised {
          return false, stored;
        }
      }
    }
    ok := true;
  }

  /** Opens one trade and stores its outcome. An open trade with a stored stop was confirmed; an
      open trade without one is the reported failure of the emergency close; every other outcome
      is not open. Storing the take-profit ids may be cut short by an exception. */
  method StoreOpening(t: LiveTrade, ex: Exchange, mode: EntryMode, stopPrice: real) returns (r: OpenResult, ok: bool)
    requires Ready(t, ex) && t.status == PendingEntry && ex.account == Account(0.0, map[], {})
    requires t.slOrderId.None?
    requires forall i :: 0 <= i < |t.legs| ==> t.legs[i].tpOrderId.None? && t.legs[i].status == LegOpen
    modifies t, ex
    ensures ex.Valid() && ex.committed == old(ex.committed)
    ensures Inv(t.View(), ex.account) && Held(t.View(), ex.account) && SameTrade(old(t.View()), t.View())
    ensures t.status == Open <==> r.Opened? || r == EmergencyCloseFailed
    ensures t.status == Open ==> t.slOrderId == if r.Opened? then Some(SlKey(t.id)) else None
    ensures t.status == Closed <==> r == EmergencyClosed
    ensures t.closing == if r == EmergencyClosed then Some(ABORTED) else None
    ensures r == EmergencyClosed ==> ex.account.position == 0.0
    ensures t.status == Skipped <==> r == EntrySkipped
    ensures t.status == Errored <==> r == OpenRaised || r == UnsupportedEntryMode
    ensures t.entryOrderId == if t.status == Errored then old(t.entryOrderId) else Some(EntryKey(t.id))
    ensures r.Opened? && ex.quiet ==>
              r.takeProfits == AllIndices(old(t.legs)) && AllPlaced(ex.account, old(t.View()), stopPrice)
    ensures r.Opened? && ok ==> t.legs == WithTpOrders(old(t.View()), r.takeProfits)
    ensures !ok ==> r.Opened?
  {
    hide Inv, Linked, Covers, Serves, WithOpenCanceled, FilledIndices, WithTakeProfits, AllIndices, SameTrade,
         Protected, RowOk, WithTpOrders, AllPlaced;
    r := PlaceInitialOrders(t, ex, mode, stopPrice);
    ok := true;
    CommittedIsLinked(t, ex);
    InvParts(t.View(), ex.account);
    ghost var start := t.View();
    FreshRow(start);
    if r != OpenRaised && r != UnsupportedEntryMode {
      t.entryOrderId := Some(EntryKey(t.id));
    }
    match r {
      case EntrySkipped =>
        t.status := Skipped;
        StatusIsSafe(start, t.View(), ex.account);
      case EmergencyClosed =>
        ghost var opening := t.View();
        StatusIsSafe(start, opening, ex.account);
        ClosedIsSafe(opening, ex.account, ABORTED);
        t.CloseTrade(ABORTED, {});
        InvParts(t.View(), ex.account);
        SameTradeTransitive(start, opening, t.View());
      case EmergencyCloseFailed =>
        t.MarkOpened(None);
        StatusIsSafe(start, t.View(), ex.account);
      case Opened(placed) =>
        t.MarkOpened(Some(SlKey(t.id)));
        ghost var opening := t.View();
        StatusIsSafe(start, opening, ex.account);
        ghost var stored;
        ok, stored := StoreTpOrders(t, placed);
        TpOrdersAreSafe(opening, stored, ex.account);
        SameTpOrders(start, opening, placed);
        SameTradeTransitive(start, opening, t.View());
      case _ =>
        ghost var before := ex.account;
        var _ := ex.ClosePositionMarket();
        StillLinked(start, before, ex);
        t.status := Errored;
        StatusIsSafe(start, t.View(), ex.account);
    }
    OpenedIsProtected(t.View(), ex.account);
  }

  const ABORTED := Closing(AbortedNoProtection, 0.0, 0.0)

  /** The entry has filled, the stop is live for all of it, every leg's take-profit is live at its
      target, and nothing else has happened. */
  ghost predicate AllPlaced(a: Account, r: Row, stopPrice: real) {
    && a.position == r.qty && a.fills == {}
    && SlKey(r.id) in a.orders && a.orders[SlKey(r.id)] == Order(Stop, r.qty, stopPrice)
    && (forall i :: 0 <= i < |r.legs| ==>
          var k := TpKey(r.id, r.legs[i].index);
          k in a.orders && a.orders[k] == Order(TakeProfit, r.legs[i].qty, r.legs[i].target))
    && forall k :: k in a.orders ==>
         k == SlKey(r.id) || exists i :: 0 <= i < |r.legs| && k == TpKey(r.id, r.legs[i].index)
  }

  lemma {:induction false} TakeProfitsPlaced(r: Row, orders: map<Key, Order>, n: nat)
    requires n <= |r.legs| && forall i, j :: 0 <= i < j < |r.legs| ==> r.legs[i].index < r.legs[j].index
    ensures var all := WithTakeProfits(r, orders, n);
            && (forall i :: 0 <= i < n ==>
                  var k := TpKey(r.id, r.legs[i].index);
                  k in all && all[k] == Order(TakeProfit, r.legs[i].qty, r.legs[i].target))
            && (forall k :: k in orders && k.purpose != Tp ==> k in all && all[k] == orders[k])
            && forall k :: k in all ==>
                 k in orders || exists i :: 0 <= i < n && k == TpKey(r.id, r.legs[i].index)
  {
    if n > 0 {
      TakeProfitsPlaced(r, orders, n - 1);
    }
  }

  lemma SameTpOrders(r: Row, s: Row, placed: set<nat>)
    requires r.legs == s.legs && r.id == s.id
    ensures WithTpOrders(r, placed) == WithTpOrders(s, placed)
  {
  }

  /** Opens one trade. An exception after the outcome was stored marks the row as errored,
      whatever it was, and closes the position unless the row was open: then the position
      stays, under its stop. */
  method OpenLiveTrade(t: LiveTrade, ex: Exchange, mode: EntryMode, stopPrice: real)
    returns (r: OpenResult, failed: bool)
    requires Ready(t, ex) && t.status == PendingEntry && ex.account == Account(0.0, map[], {})
    requires t.slOrderId.None?
    requires forall i :: 0 <= i < |t.legs| ==> t.legs[i].tpOrderId.None? && t.legs[i].status == LegOpen
    modifies t, ex
    ensures ex.Valid() && ex.committed == old(ex.committed)
    ensures Inv(t.View(), ex.account) && Held(t.View(), ex.account) && SameTrade(old(t.View()), t.View())
    ensures t.status == if failed then Errored else StatusFor(r)
    ensures t.status == Open ==> t.slOrderId == if r.Opened? then Some(SlKey(t.id)) else None
    ensures t.closing == if r == EmergencyClosed then Some(Closing(AbortedNoProtection, 0.0, 0.0)) else None
    ensures r == EmergencyClosed ==> ex.account.position == 0.0
    ensures t.entryOrderId == if r == OpenRaised || r == UnsupportedEntryMode then old(t.entryOrderId)
                              else Some(EntryKey(t.id))
    ensures r.Opened? ==> t.slOrderId == Some(SlKey(t.id)) && Covers(ex.account, SlKey(t.id))
    ensures r.Opened? && ex.quiet ==>
              r.takeProfits == AllIndices(old(t.legs)) && AllPlaced(ex.account, old(t.View()), stopPrice)
    ensures r.Opened? && !failed ==> t.legs == WithTpOrders(old(t.View()), r.takeProfits)
  {
    hide Inv, Linked, Covers, Serves, AllIndices, SameTrade, Protected, RowOk, WithTpOrders, AllPlaced;
    var ok;
    r, ok := StoreOpening(t, ex, mode, stopPrice);
    failed := *;
    failed := failed || !ok;
    if failed {
      ghost var stored, before := t.View(), ex.account;
      InvParts(stored, before);
      CommittedSame(old(t.View()), stored);
      if t.status != Open {
        var _ := ex.ClosePositionMarket();
        StillLinked(stored, before, ex);
      }
      t.status := Errored;
      ErroredIsSafe(stored, ex.account);
      SameTradeTransitive(old(t.View()), stored, t.View());
    }
  }

  function StatusFor(r: OpenResult): Status {
    match r
    case Opened(_) => Open
    case EmergencyCloseFailed => Open
    case EntrySkipped => Skipped
    case EmergencyClosed => Closed
    case _ => Errored
  }

  lemma CommittedSame(r: Row, s: Row)
    requires SameTrade(r, s)
    ensures SameTrade(s, s)
  {
  }

  lemma ErroredIsSafe(r: Row, a: Account)
    requires Linked(r, a)
    ensures Inv(r.(status := Errored), a) && Held(r.(status := Errored), a) && SameTrade(r, r.(status := Errored))
  {
    hide Sum, Unsold, OrderOk;
    LinkAcrossRows(r, r.(status := Errored), a);
  }

  lemma FreshRow(r: Row)
    requires RowOk(r) && r.status == PendingEntry
    requires forall i :: 0 <= i < |r.legs| ==> r.legs[i].status == LegOpen
    ensures r.touched == {} && r.closing.None?
    ensures forall i, j :: 0 <= i < j < |r.legs| ==> r.legs[i].index < r.legs[j].index
  {
    hide Sum, Quantities;
  }

  lemma OpenedIsProtected(r: Row, a: Account)
    requires Linked(r, a) && (r.status == Open && r.slOrderId.Some? ==> Covers(a, r.slOrderId.value))
    ensures Inv(r, a) && Held(r, a)
  {
  }

  // ---------------------------------------------------------------- model 3

  function Model3Pnl(margin: real, exitRoi: real): real {
    margin * exitRoi / 100.0
  }

  datatype MarkPrice = MarkPrice(symbol: string, price: real)

  /** The user's own setting, else the configured one. */
  function ExitRoi(userRoi: Option<real>, defaultRoi: real): real {
    match userRoi case Some(roi) => roi case None => defaultRoi
  }

  /** The price is for this open model-3 trade, and crosses its threshold. */
  predicate ExitsModel3(r: Row, symbol: string, mark: MarkPrice, exitRoi: real)
    requires r.leverage > 0
  {
    && r.status == Open && symbol == mark.symbol && r.legs == []
    && DemoTrade.CrossesTakeProfit(r.side, mark.price,
                                   DemoTrade.Model3Threshold(r.side, r.entry, r.leverage, exitRoi))
  }

  /** A model-3 trade closes at market when its ROI threshold is crossed; an exchange error leaves
      the row as it was. */
  method HandleMarkPriceForModel3(t: LiveTrade, ex: Exchange, symbol: string, mark: MarkPrice, userRoi: Option<real>,
                                  defaultRoi: real) returns (res: HandlerResult)
    requires Ready(t, ex) && t.leverage > 0
    modifies t, ex
    ensures Kept(t, ex) && HeldThroughout(ex)
    ensures res == ClosedNow ==>
              var roi := ExitRoi(userRoi, defaultRoi);
              && ex.account.position == 0.0
              && t.View() == ClosedRow(old(t.View()), Closing(Model3Exited, Model3Pnl(t.margin, roi), roi), {})
    ensures res != ClosedNow ==> t.View() == old(t.View())
    ensures ex.quiet && res == ClosedNow ==>
              && old(ex.account).position != 0.0
              && (old(t.slOrderId).Some? ==> old(t.slOrderId.value) !in ex.account.orders)
    ensures ex.quiet && res == Raised ==> old(ex.account).position == 0.0
    ensures res in {Ignored, ClosedNow, Raised}
    ensures res == Ignored <==> !ExitsModel3(old(t.View()), symbol, mark, ExitRoi(userRoi, defaultRoi))
  {
    hide Inv, Linked, Protected, Covers, Serves, DemoTrade.Model3Threshold, Model3Pnl;
    CommittedIsLinked(t, ex);
    InvParts(t.View(), ex.account);
    if t.status != Open || symbol != mark.symbol || t.legs != [] {
      return Ignored;
    }
    var exitRoi := if userRoi.Some? then userRoi.value else defaultRoi;
    var threshold := DemoTrade.Model3Threshold(t.side, t.entry, t.leverage, exitRoi);
    if !DemoTrade.CrossesTakeProfit(t.side, mark.price, threshold) {
      return Ignored;
    }
    ghost var start, before := t.View(), ex.account;
    var closed := ex.ClosePositionMarket();
    ValidAccount(ex);
    InvParts(start, ex.account);
    if !closed {
      return Raised;
    }
    ghost var closedAt := |ex.history|;
    if t.slOrderId.Some? {
      var _, _ := ex.CancelAlgoOrder(t.slOrderId.value);
      ValidAccount(ex);
      InvParts(start, ex.account);
    }
    FlatIsHeld(start, ex.history, closedAt);
    var c := Closing(Model3Exited, Model3Pnl(t.margin, exitRoi), exitRoi);
    NothingTouched(start);
    ClosedIsSafe(start, ex.account, c);
    t.CloseTrade(c, {});
    ClosedIsHeld(t.View(), ex.account);
    return ClosedNow;
  }

  lemma NothingTouched(r: Row)
    requires RowOk(r) && r.legs == []
    ensures r.touched == {}
  {
  }
}
