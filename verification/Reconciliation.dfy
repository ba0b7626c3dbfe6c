/** Reconciliation of stored trades with the exchange (services/core_engine/reconciliation.py). */
module Reconciliation {
  import opened Common
  import opened OrderIds
  import opened LiveExchange
  import opened LiveTrade

  /** What one trade contributes to the totals of a pass. */
  datatype Pass = Pass(closed: bool, repaired: nat, failed: bool)

  const UNKNOWN := Closing(ReconciledUnknown, 0.0, 0.0)

  predicate Active(s: Status) {
    s == PendingEntry || s == Open
  }

  // ---------------------------------------------------------------- an error-free pass over one trade

  function StopId(r: Row): Key {
    if r.slOrderId.Some? then r.slOrderId.value else SlKey(r.id)
  }

  function TpId(id: int, leg: Leg): Key {
    if leg.tpOrderId.Some? then leg.tpOrderId.value else TpKey(id, leg.index)
  }

  function StopOrder(r: Row): Order {
    Order(Stop, Remaining(r), if StopId(r) == BeKey(r.id) then r.entry else r.stopLoss)
  }

  /** A stop as a repair should place it: for what is open by the legs, at the signal's stop loss
      under the original id and at the entry under the break-even id. */
  ghost predicate RightStop(r: Row, k: Key, o: Order) {
    && o.kind == Stop && o.qty == OpenQty(r)
    && (k == SlKey(r.id) ==> o.price == r.stopLoss) && (k == BeKey(r.id) ==> o.price == r.entry)
    && k == (if r.slOrderId.Some? then r.slOrderId.value else SlKey(r.id))
  }

  lemma StopOrderIsRight(r: Row)
    requires RowOk(r)
    ensures RightStop(r, StopId(r), StopOrder(r))
  {
    hide Sum, OpenQty, Remaining, FilledIndices, Quantities;
    RemainingIsOpenQty(r);
  }

  predicate NeedsStop(r: Row, ids: set<Key>) {
    StopId(r) !in ids && Remaining(r) > 0.0
  }

  predicate NeedsTp(id: int, leg: Leg, ids: set<Key>) {
    leg.status == LegOpen && TpId(id, leg) !in ids
  }

  /** The first n legs with the ids of the take-profits placed for them. */
  function RepairedLegs(id: int, legs: seq<Leg>, ids: set<Key>, n: nat): (repaired: seq<Leg>)
    requires n <= |legs|
    ensures |repaired| == |legs|
  {
    seq(|legs|, i requires 0 <= i < |legs| =>
          if i < n && NeedsTp(id, legs[i], ids) then legs[i].(tpOrderId := Some(TpId(id, legs[i]))) else legs[i])
  }

  function WithTp(id: int, leg: Leg, ids: set<Key>, orders: map<Key, Order>): map<Key, Order> {
    if NeedsTp(id, leg, ids) then orders[TpId(id, leg) := Order(TakeProfit, leg.qty, leg.target)] else orders
  }

  function RepairedOrders(id: int, legs: seq<Leg>, ids: set<Key>, orders: map<Key, Order>, n: nat): map<Key, Order>
    requires n <= |legs|
  {
    if n == 0 then orders
    else WithTp(id, legs[n - 1], ids, RepairedOrders(id, legs, ids, orders, n - 1))
  }

  function RepairedTps(id: int, legs: seq<Leg>, ids: set<Key>, n: nat): nat
    requires n <= |legs|
  {
    if n == 0 then 0 else RepairedTps(id, legs, ids, n - 1) + if NeedsTp(id, legs[n - 1], ids) then 1 else 0
  }

  /** The row, the account and the tally that an error-free pass leaves. */
  function Reconciled(r: Row, a: Account): (Row, Account, Pass) {
    var ids := a.orders.Keys;
    if a.position == 0.0 && a.orders == map[] then
      (ClosedRow(r, UNKNOWN, r.touched), a, Pass(true, 0, false))
    else if a.position == 0.0 then
      (r, a, Pass(false, 0, false))
    else
      var orders := if NeedsStop(r, ids) then a.orders[StopId(r) := StopOrder(r)] else a.orders;
      (r.(slOrderId := if NeedsStop(r, ids) then Some(StopId(r)) else r.slOrderId,
          legs := RepairedLegs(r.id, r.legs, ids, |r.legs|)),
       a.(orders := RepairedOrders(r.id, r.legs, ids, orders, |r.legs|)),
       Pass(false, RepairedTps(r.id, r.legs, ids, |r.legs|) + if NeedsStop(r, ids) then 1 else 0, false))
  }

  // ---------------------------------------------------------------- what the pass achieves

  lemma {:induction false} RepairedOrdersGrow(r: Row, ids: set<Key>, orders: map<Key, Order>, n: nat)
    requires RowOk(r) && n <= |r.legs|
    ensures orders.Keys <= RepairedOrders(r.id, r.legs, ids, orders, n).Keys
    ensures forall k :: k in orders && k.purpose != Tp ==> RepairedOrders(r.id, r.legs, ids, orders, n)[k] == orders[k]
    ensures forall i :: 0 <= i < n && r.legs[i].status == LegOpen ==>
              TpId(r.id, r.legs[i]) in ids || TpId(r.id, r.legs[i]) in RepairedOrders(r.id, r.legs, ids, orders, n)
  {
    hide Sum, FilledIndices, Quantities;
    if n > 0 {
      RepairedOrdersGrow(r, ids, orders, n - 1);
    }
  }

  lemma {:induction false} NothingToRepair(r: Row, ids: set<Key>, orders: map<Key, Order>, n: nat)
    requires n <= |r.legs| && StopId(r) in ids
    requires forall i :: 0 <= i < n && r.legs[i].status == LegOpen ==> TpId(r.id, r.legs[i]) in ids
    ensures RepairedTps(r.id, r.legs, ids, n) == 0 && RepairedOrders(r.id, r.legs, ids, orders, n) == orders
  {
    if n > 0 {
      NothingToRepair(r, ids, orders, n - 1);
    }
  }

  lemma PositionMeansRemaining(r: Row, a: Account)
    requires Linked(r, a) && a.position != 0.0
    ensures Remaining(r) > 0.0
  {
    hide Sum, RowOk, Unsold;
    RemainingCoversPosition(r, a);
  }

  /** After an error-free pass an active trade with a position has its stop live, for everything
      that is open, and a live take-profit for every open leg; the pass closes no such trade. */
  lemma PassProtects(r: Row, a: Account)
    requires Linked(r, a) && Active(r.status)
    ensures var (s, b, pass) := Reconciled(r, a);
            && (pass.closed <==> a.position == 0.0 && a.orders == map[])
            && (a.position == 0.0 ==> b == a)
            && (a.position != 0.0 ==>
                  && s.status == r.status && s.touched == r.touched && b.position == a.position && b.fills == a.fills
                  && StopId(s) in b.orders && (StopId(r) !in a.orders ==> RightStop(r, StopId(s), b.orders[StopId(s)]))
                  && forall i :: 0 <= i < |s.legs| && s.legs[i].status == LegOpen ==> TpId(s.id, s.legs[i]) in b.orders)
  {
    hide Sum, FilledIndices, Quantities, Remaining, RepairedOrders;
    var ids := a.orders.Keys;
    if a.position != 0.0 {
      PositionMeansRemaining(r, a);
      StopOrderIsRight(r);
      var orders := if NeedsStop(r, ids) then a.orders[StopId(r) := StopOrder(r)] else a.orders;
      RepairedOrdersGrow(r, ids, orders, |r.legs|);
    }
  }

  /** With a position, the stored or original stop is live afterwards; if it was missing, it was
      placed as it should be and its id is stored. */
  ghost predicate StopReplaced(r: Row, a: Account, s: Row, b: Account) {
    var k := if r.slOrderId.Some? then r.slOrderId.value else SlKey(r.id);
    a.position != 0.0 ==>
      && k in b.orders
      && (k !in a.orders ==> s.slOrderId == Some(k) && RightStop(r, k, b.orders[k]))
  }

  lemma PassPlacesStop(r: Row, a: Account)
    requires Linked(r, a) && Active(r.status)
    ensures var (s, b, pass) := Reconciled(r, a);
            StopReplaced(r, a, s, b)
  {
    hide Sum, FilledIndices, Quantities, Remaining, RepairedOrders, RepairedLegs, RepairedTps, RightStop, OpenQty,
         Linked;
    PassProtects(r, a);
    if a.position != 0.0 {
      PositionMeansRemaining(r, a);
    }
  }

  /** An immediate second pass repairs nothing, closes nothing and changes nothing. */
  lemma SecondPassIsIdle(r: Row, a: Account)
    requires Linked(r, a) && Active(r.status)
    ensures var (s, b, pass) := Reconciled(r, a);
            Active(s.status) ==> Reconciled(s, b) == (s, b, Pass(false, 0, false))
  {
    hide Sum, FilledIndices, Quantities, Remaining, RepairedOrders, RepairedTps, Linked;
    var (s, b, pass) := Reconciled(r, a);
    PassProtects(r, a);
    if a.position != 0.0 {
      NothingToRepair(s, b.orders.Keys, b.orders, |s.legs|);
      assert RepairedLegs(s.id, s.legs, b.orders.Keys, |s.legs|) == s.legs;
    }
  }

  // ---------------------------------------------------------------- a take-profit that has filled unnoticed

  lemma {:induction false} PlacedIffNeeded(r: Row, ids: set<Key>, orders: map<Key, Order>, n: nat, i: nat)
    requires RowOk(r) && i < |r.legs| && n <= |r.legs|
    requires TpKey(r.id, r.legs[i].index) !in orders
    ensures TpKey(r.id, r.legs[i].index) in RepairedOrders(r.id, r.legs, ids, orders, n)
            <==> i < n && NeedsTp(r.id, r.legs[i], ids)
  {
    hide Sum, FilledIndices, Quantities;
    if n > 0 {
      PlacedIffNeeded(r, ids, orders, n - 1, i);
      assert n - 1 != i ==> r.legs[n - 1].index != r.legs[i].index;
    }
  }

  /** The take-profit of a leg that the exchange has filled is placed again exactly when the
      database does not know of the fill yet and the position is not flat. */
  lemma FilledTakeProfitPlacedAgainIff(r: Row, a: Account, i: nat)
    requires Linked(r, a) && i < |r.legs|
    requires TpKey(r.id, r.legs[i].index) in a.fills && TpKey(r.id, r.legs[i].index) !in a.orders
    ensures TpKey(r.id, r.legs[i].index) in Reconciled(r, a).1.orders
            <==> r.legs[i].status == LegOpen && a.position != 0.0
  {
    hide Sum, FilledIndices, Quantities, Remaining, RepairedOrders, Unsold, OrderOk, RepairedLegs, RepairedTps;
    var ids, key := a.orders.Keys, TpKey(r.id, r.legs[i].index);
    TpIdIsTheKey(r, a, i);
    StopIdIsAStop(r, r, a);
    var orders := if NeedsStop(r, ids) then a.orders[StopId(r) := StopOrder(r)] else a.orders;
    assert key !in orders;
    PlacedIffNeeded(r, ids, orders, |r.legs|, i);
  }

  // ---------------------------------------------------------------- the pass as the engine runs it

  /** The stop is live, and every open leg's take-profit is live or has filled, or nothing is open. */
  ghost predicate Restored(r: Row, a: Account) {
    Covers(a, StopId(r))
    && forall i :: 0 <= i < |r.legs| && r.legs[i].status == LegOpen ==> Serves(a, TpId(r.id, r.legs[i]))
  }

  /** What that means while a position is open: a stop order for at least the whole position, and
      for every open leg not yet filled an order that sells exactly the leg. */
  lemma RestoredMeansLive(r: Row, a: Account)
    requires Linked(r, a) && Restored(r, a) && a.position != 0.0
    ensures StopId(r) in a.orders && a.orders[StopId(r)].kind == Stop && a.orders[StopId(r)].qty >= a.position
    ensures forall i :: 0 <= i < |r.legs| && r.legs[i].status == LegOpen ==>
              var k := TpKey(r.id, r.legs[i].index);
              k in a.fills || (k in a.orders && a.orders[k].kind == TakeProfit && a.orders[k].qty == r.legs[i].qty)
  {
    hide Sum, Unsold, FilledIndices, Quantities;
    assert OrderOk(r, a.position, StopId(r), a.orders[StopId(r)]);
    forall i | 0 <= i < |r.legs| && r.legs[i].status == LegOpen
      ensures var k := TpKey(r.id, r.legs[i].index);
              k in a.fills || (k in a.orders && a.orders[k].kind == TakeProfit && a.orders[k].qty == r.legs[i].qty)
    {
      var k := TpKey(r.id, r.legs[i].index);
      if k in a.orders {
        assert OrderOk(r, a.position, k, a.orders[k]);
      }
    }
  }

  /** An open leg's take-profit has filled, and is not live again, without the database knowing. */
  ghost predicate UnseenFill(r: Row, a: Account) {
    exists i :: 0 <= i < |r.legs| && r.legs[i].status == LegOpen
                && TpKey(r.id, r.legs[i].index) in a.fills && TpKey(r.id, r.legs[i].index) !in a.orders
  }

  /** On whatever a pass without failure has restored, with any fills since, the next error-free
      pass does nothing exactly when there is no unseen fill on an open position, and something
      is left on the exchange. */
  lemma NextPassIsIdleIff(r: Row, a: Account)
    requires Linked(r, a) && Active(r.status) && Restored(r, a)
    ensures Reconciled(r, a) == (r, a, Pass(false, 0, false))
            <==> if a.position == 0.0 then a.orders != map[] else !UnseenFill(r, a)
  {
    hide Sum, FilledIndices, Quantities, Remaining, RepairedOrders, RepairedTps, Linked, RowOk, NeedsStop;
    if a.position != 0.0 {
      if UnseenFill(r, a) {
        var i :| 0 <= i < |r.legs| && r.legs[i].status == LegOpen
                 && TpKey(r.id, r.legs[i].index) in a.fills && TpKey(r.id, r.legs[i].index) !in a.orders;
        FilledTakeProfitPlacedAgainIff(r, a, i);
      } else {
        IdleWhenAllLive(r, a);
      }
    }
  }

  lemma IdleWhenAllLive(r: Row, a: Account)
    requires Linked(r, a) && Restored(r, a) && a.position != 0.0 && !UnseenFill(r, a)
    ensures Reconciled(r, a) == (r, a, Pass(false, 0, false))
  {
    hide Sum, FilledIndices, Quantities, Remaining, RepairedOrders, RepairedTps, Linked, RowOk;
    forall i | 0 <= i < |r.legs| && r.legs[i].status == LegOpen
      ensures TpId(r.id, r.legs[i]) in a.orders
    {
      TpIdIsTheKey(r, a, i);
    }
    NothingToRepair(r, a.orders.Keys, a.orders, |r.legs|);
    assert RepairedLegs(r.id, r.legs, a.orders.Keys, |r.legs|) == r.legs;
  }

  /** What the listing of open orders still means when the repairs begin. */
  ghost predicate Listed(a: Account, ids: set<Key>) {
    forall k :: k in ids ==> Serves(a, k) && (k.purpose != Tp ==> Covers(a, k))
  }

  lemma ListedStays(a: Account, b: Account, ids: set<Key>)
    requires Listed(a, ids) && Stays(a, b, {})
    ensures Listed(b, ids)
  {
    hide Covers, Serves;
  }

  lemma StopNotNeeded(r: Row, a: Account, ids: set<Key>)
    requires Linked(r, a) && Listed(a, ids) && !NeedsStop(r, ids)
    ensures Covers(a, StopId(r))
  {
    hide Sum, Unsold, OrderOk, Serves, Remaining;
    StopIdIsAStop(r, r, a);
    if StopId(r) !in ids {
      RemainingCoversPosition(r, a);
    }
  }

  lemma SettingATpOrder(r: Row, a: Account, i: nat)
    requires Linked(r, a) && i < |r.legs|
    ensures var s := r.(legs := r.legs[i := r.legs[i].(tpOrderId := Some(TpKey(r.id, r.legs[i].index)))]);
            Linked(s, a) && SameTrade(r, s)
  {
    hide Sum, Unsold, OrderOk;
    var leg := r.legs[i].(tpOrderId := Some(TpKey(r.id, r.legs[i].index)));
    var legs := r.legs[i := leg];
    assert Quantities(legs) == Quantities(r.legs);
    SameFilledIndices(r.legs, legs);
    LinkAcrossRows(r, r.(legs := legs), a);
  }

  lemma SameFilledIndices(a: seq<Leg>, b: seq<Leg>)
    requires |a| == |b| && forall i :: 0 <= i < |a| ==> a[i].status == b[i].status && a[i].index == b[i].index
    ensures FilledIndices(a) == FilledIndices(b)
  {
    forall x | x in FilledIndices(a)
      ensures x in FilledIndices(b)
    {
      var i :| 0 <= i < |a| && a[i].status == LegFilled && a[i].index == x;
      assert b[i] in b;
    }
    forall x | x in FilledIndices(b)
      ensures x in FilledIndices(a)
    {
      var i :| 0 <= i < |b| && b[i].status == LegFilled && b[i].index == x;
      assert a[i] in a;
    }
  }

  /** A row whose stop was repaired, or left alone, is as well protected as before. */
  lemma KeptAfterRepair(r: Row, a: Account, s: Row, b: Account)
    requires Linked(s, b) && Protected(r, b) && r.status == s.status && r.id == s.id
    requires s.slOrderId == r.slOrderId || (s.slOrderId == Some(StopId(r)) && Covers(b, StopId(r)))
    requires forall k :: Covers(a, k) ==> Covers(b, k)
    ensures Inv(s, b) && (Held(r, a) ==> Held(s, b))
  {
    hide Linked, Covers;
  }

  predicate SameButTpIds(a: seq<Leg>, b: seq<Leg>) {
    |a| == |b| && forall i :: 0 <= i < |a| ==> b[i] == a[i].(tpOrderId := b[i].tpOrderId)
  }

  /** The take-profit of one open leg is placed when it was not seen live. */
  method RepairTakeProfit(t: LiveTrade, ex: Exchange, i: nat, ids: set<Key>) returns (ok: bool, placed: bool)
    requires Midway(t, ex) && i < |t.legs| && Listed(ex.account, ids)
    modifies ex, t`legs
    ensures Midway(t, ex) && ex.Later({}) && (placed ==> NeedsTp(t.id, old(t.legs)[i], ids))
    ensures placed ==>
              var k := TpKey(t.id, t.legs[i].index);
              && t.legs[i].tpOrderId == Some(k) && k in ex.account.orders
              && ex.account.orders[k] == Order(TakeProfit, t.legs[i].qty, t.legs[i].target)
    ensures ok && old(t.legs)[i].status == LegOpen ==> Serves(ex.account, TpId(t.id, old(t.legs)[i]))
    ensures t.legs == if placed
                      then old(t.legs)[i := old(t.legs)[i].(tpOrderId := Some(TpId(t.id, old(t.legs)[i])))]
                      else old(t.legs)
    ensures ex.quiet ==>
              && ok && placed == NeedsTp(t.id, old(t.legs)[i], ids)
              && ex.account == old(ex.account).(orders := WithTp(t.id, old(t.legs)[i], ids, old(ex.account).orders))
  {
    hide Inv, Linked, Covers;
    var leg := t.legs[i];
    var k := TpId(t.id, leg);
    if leg.status != LegOpen || k in ids {
      return true, false;
    }
    ghost var row, before := t.View(), ex.account;
    TpIdIsTheKey(row, before, i);
    ok := ex.PlaceTakeProfit(i, k, leg.qty, leg.target);
    StillLinked(row, before, ex);
    if !ok {
      return false, false;
    }
    SettingATpOrder(row, ex.account, i);
    SameTradeTransitive(ex.committed, row, row.(legs := row.legs[i := leg.(tpOrderId := Some(k))]));
    t.SetLegTpOrder(i, k);
    placed := true;
  }

  /** Storing a take-profit id does not change which id is meant. */
  ghost predicate SameTps(id: int, a: seq<Leg>, b: seq<Leg>) {
    |a| == |b| && forall i :: 0 <= i < |a| ==> TpId(id, a[i]) == TpId(id, b[i])
  }

  lemma NoRepairsYet(id: int, legs: seq<Leg>, ids: set<Key>)
    ensures RepairedLegs(id, legs, ids, 0) == legs && SameTps(id, legs, legs)
  {
  }

  lemma OneMoreRepair(id: int, legs: seq<Leg>, now: seq<Leg>, ids: set<Key>, i: nat, placed: bool)
    requires SameButTpIds(legs, now) && SameTps(id, legs, now) && i < |legs|
    requires forall j :: i <= j < |legs| ==> now[j] == legs[j]
    ensures var next := if placed then now[i := now[i].(tpOrderId := Some(TpId(id, now[i])))] else now;
            && SameButTpIds(legs, next) && SameTps(id, legs, next)
            && (now == RepairedLegs(id, legs, ids, i) && placed == NeedsTp(id, legs[i], ids) ==>
                  next == RepairedLegs(id, legs, ids, i + 1))
  {
  }

  /** The take-profits of the first n legs, where open, are live or have filled. */
  ghost predicate AllServed(a: Account, id: int, legs: seq<Leg>, n: nat)
    requires n <= |legs|
  {
    forall i :: 0 <= i < n && legs[i].status == LegOpen ==> Serves(a, TpId(id, legs[i]))
  }

  lemma AllServedStays(a: Account, b: Account, id: int, legs: seq<Leg>, n: nat)
    requires n <= |legs| && AllServed(a, id, legs, n) && Stays(a, b, {})
    ensures AllServed(b, id, legs, n)
  {
    hide Covers, Serves;
  }

  /** The legs' take-profits; the first failure ends the trade's pass. */
  method RepairTakeProfits(t: LiveTrade, ex: Exchange, ids: set<Key>) returns (ok: bool, repaired: nat)
    requires Midway(t, ex) && Listed(ex.account, ids)
    modifies ex, t`legs
    ensures Midway(t, ex) && ex.Later({}) && SameButTpIds(old(t.legs), t.legs)
    ensures SameTps(t.id, old(t.legs), t.legs) && (ok ==> AllServed(ex.account, t.id, old(t.legs), |t.legs|))
    ensures ex.quiet ==>
              && ok && t.legs == RepairedLegs(t.id, old(t.legs), ids, |t.legs|)
              && ex.account == old(ex.account).(orders := RepairedOrders(t.id, old(t.legs), ids, old(ex.account).orders,
                                                                         |t.legs|))
              && repaired == RepairedTps(t.id, old(t.legs), ids, |t.legs|)
  {
    hide Inv, Linked, Covers, Serves, NeedsStop, NeedsTp, WithTp, TpId, SameTrade, RepairedLegs, SameButTpIds,
         SameTps, Listed;
    repaired := 0;
    SameTradeAsItself(t.View());
    NoRepairsYet(t.id, t.legs, ids);
    for i := 0 to |t.legs|
      invariant Midway(t, ex) && ex.Later({}) && |t.legs| == |old(t.legs)| && SameButTpIds(old(t.legs), t.legs)
      invariant forall j :: i <= j < |t.legs| ==> t.legs[j] == old(t.legs)[j]
      invariant SameTps(t.id, old(t.legs), t.legs) && AllServed(ex.account, t.id, old(t.legs), i)
      invariant ex.quiet ==>
                  && t.legs == RepairedLegs(t.id, old(t.legs), ids, i)
                  && ex.account == old(ex.account).(orders := RepairedOrders(t.id, old(t.legs), ids,
                                                                             old(ex.account).orders, i))
                  && repaired == RepairedTps(t.id, old(t.legs), ids, i)
    {
      ghost var before, account := t.legs, ex.account;
      ListedStays(old(ex.account), account, ids);
      var placed;
      ok, placed := RepairTakeProfit(t, ex, i, ids);
      AllServedStays(account, ex.account, t.id, old(t.legs), i);
      OneMoreRepair(t.id, old(t.legs), before, ids, i, placed);
      if !ok {
        return;
      }
      repaired := repaired + if placed then 1 else 0;
    }
    ok := true;
  }

  lemma TpIdIsTheKey(r: Row, a: Account, i: nat)
    requires Linked(r, a) && i < |r.legs|
    ensures TpId(r.id, r.legs[i]) == TpKey(r.id, r.legs[i].index)
  {
    hide Sum, Unsold, OrderOk;
  }

  /** The stop of a trade with a position. */
  method RepairStop(t: LiveTrade, ex: Exchange, ids: set<Key>) returns (ok: bool, placed: bool)
    requires Midway(t, ex) && Listed(ex.account, ids)
    modifies ex, t`slOrderId
    ensures Midway(t, ex) && ex.Later({}) && (ok ==> Covers(ex.account, StopId(old(t.View()))))
    ensures t.slOrderId == if placed then Some(StopId(old(t.View()))) else old(t.slOrderId)
    ensures placed ==>
              var k := StopId(old(t.View()));
              && Covers(ex.account, k) && k in ex.account.orders && RightStop(old(t.View()), k, ex.account.orders[k])
              && ex.account.orders[k].qty > 0.0
    ensures ex.quiet ==>
              && ok && placed == NeedsStop(old(t.View()), ids)
              && ex.account == old(ex.account).(orders :=
                   if placed then old(ex.account).orders[StopId(old(t.View())) := StopOrder(old(t.View()))]
                   else old(ex.account).orders)
  {
    hide Inv, Linked, Covers, Serves, Remaining, SameTrade, Listed, OpenQty, RowOk;
    if !NeedsStop(t.View(), ids) {
      StopNotNeeded(t.View(), ex.account, ids);
      return true, false;
    }
    ghost var row, before := t.View(), ex.account;
    RemainingCoversPosition(row, before);
    StopIdIsAStop(ex.committed, row, before);
    LinkedRow(row, before);
    StopOrderIsRight(row);
    ok := ex.PlaceStop(StopId(t.View()), Remaining(t.View()), StopOrder(t.View()).price);
    StillLinked(row, before, ex);
    if !ok {
      return false, false;
    }
    StoringAStop(row, ex.account, StopId(row));
    SameTradeTransitive(ex.committed, row, row.(slOrderId := Some(StopId(row))));
    t.SetSlOrder(StopId(t.View()));
    placed := true;
  }

  lemma StopIdIsAStop(c: Row, r: Row, a: Account)
    requires Linked(r, a) && SameTrade(c, r)
    ensures StopId(r) in {SlKey(r.id), BeKey(r.id)} && c.id == r.id && c.entry == r.entry
  {
    hide Sum, Unsold, OrderOk;
  }

  lemma OpenTradeIsMidway(t: LiveTrade, ex: Exchange)
    requires Ready(t, ex)
    ensures Midway(t, ex) && Inv(t.View(), ex.account)
  {
    CommittedIsLinked(t, ex);
  }

  method LookUp(ex: Exchange) returns (ok: bool, present: bool, ids: set<Key>)
    requires ex.Valid()
    modifies ex
    ensures ex.Valid() && ex.Later({}) && (ok && !present ==> ex.account.position == 0.0)
    ensures ok ==> Listed(ex.account, ids)
    ensures ex.quiet ==>
              && ok && ex.account == old(ex.account)
              && present == (ex.account.position != 0.0) && (ids == {} <==> ex.account.orders == map[])
              && ids == ex.account.orders.Keys
  {
    hide Inv, Covers;
    ids := {};
    var created: bool := *;
    if !created && !ex.quiet {
      return false, false, {};
    }
    ok, present := ex.GetPosition();
    if ok {
      ok, ids := ex.GetOpenAlgoOrders();
    }
    NoKeys(ex.account.orders);
  }

  lemma RepairsRestore(r: Row, s: Row, a: Account)
    requires r.id == s.id && s.slOrderId in {r.slOrderId, Some(StopId(r))} && SameButTpIds(r.legs, s.legs)
    requires SameTps(r.id, r.legs, s.legs)
    requires Covers(a, StopId(r)) && AllServed(a, r.id, r.legs, |r.legs|)
    ensures Restored(s, a)
  {
    hide Covers, Serves;
  }

  /** The stop and then the take-profits of a trade with a position. */
  method RepairOrders(t: LiveTrade, ex: Exchange, ids: set<Key>) returns (pass: Pass)
    requires Midway(t, ex) && Listed(ex.account, ids)
    modifies ex, t`slOrderId, t`legs
    ensures Midway(t, ex) && ex.Later({}) && SameButTpIds(old(t.legs), t.legs) && !pass.closed
    ensures !pass.failed ==> Restored(t.View(), ex.account)
    ensures t.slOrderId == old(t.slOrderId)
            || (t.slOrderId == Some(StopId(old(t.View()))) && Covers(ex.account, StopId(old(t.View()))))
    ensures ex.quiet ==>
              && t.slOrderId == (if NeedsStop(old(t.View()), ids) then Some(StopId(old(t.View())))
                                 else old(t.slOrderId))
              && t.legs == RepairedLegs(t.id, old(t.legs), ids, |t.legs|)
              && pass == Pass(false, RepairedTps(t.id, old(t.legs), ids, |t.legs|)
                                     + (if NeedsStop(old(t.View()), ids) then 1 else 0), false)
              && ex.account == old(ex.account).(orders := RepairedOrders(
                                   t.id, old(t.legs), ids,
                                   if NeedsStop(old(t.View()), ids)
                                   then old(ex.account).orders[StopId(old(t.View())) := StopOrder(old(t.View()))]
                                   else old(ex.account).orders,
                                   |t.legs|))
  {
    hide Midway, Covers, Serves, Inv, Remaining, RepairedLegs, RepairedOrders, NeedsStop, RepairedTps, StopOrder,
         StopId, Listed, AllServed, Restored, SameTps;
    ghost var start := t.View();
    SameTradeAsItself(t.View());
    var stopOk, placed := RepairStop(t, ex, ids);
    ListedStays(old(ex.account), ex.account, ids);
    var legsOk, repaired := stopOk, 0;
    if stopOk {
      legsOk, repaired := RepairTakeProfits(t, ex, ids);
    }
    if legsOk {
      RepairsRestore(start, t.View(), ex.account);
    }
    return Pass(false, repaired + if placed then 1 else 0, !legsOk);
  }

  /** One active trade. It is closed only when the exchange had no position; whatever fails, the
      stored stop stays as live as it was; without failures the result is Reconciled. */
  method ReconcileTrade(t: LiveTrade, ex: Exchange) returns (pass: Pass)
    requires Ready(t, ex) && Active(t.status)
    modifies t, ex
    ensures Kept(t, ex) && HeldThroughout(ex)
    ensures pass.closed <==> t.status == Closed
    ensures pass.closed ==> ex.account.position == 0.0
                            && t.View() == ClosedRow(old(t.View()), Closing(ReconciledUnknown, 0.0, 0.0),
                                                     old(t.touched))
    ensures !pass.closed ==>
              t.View() == old(t.View()).(slOrderId := t.slOrderId, legs := t.legs) && SameButTpIds(old(t.legs), t.legs)
    ensures !pass.failed ==> Restored(t.View(), ex.account)
    ensures ex.quiet ==> (t.View(), ex.account, pass) == Reconciled(old(t.View()), old(ex.account))
    ensures ex.quiet ==> StopReplaced(old(t.View()), old(ex.account), t.View(), ex.account)
  {
    hide StopReplaced, Inv, Linked, Protected, Covers, Serves, Remaining, RepairedLegs, RepairedOrders, NeedsStop,
         RepairedTps, StopOrder, StopId, SameTrade, SameButTpIds, Restored, Listed, ClosedRow;
    OpenTradeIsMidway(t, ex);
    InvParts(t.View(), ex.account);
    ghost var start, account := t.View(), ex.account;
    SameTradeAsItself(start);
    if Active(start.status) {
      PassPlacesStop(start, account);
    }
    var ok, present, ids := LookUp(ex);
    StillLinked(start, account, ex);
    if ex.account.position == 0.0 {
      FlatIsRestored(ex.account);
    }
    if ok && !present && ids == {} {
      CloseAsUnknown(t, ex);
      return Pass(true, 0, false);
    }
    pass := Pass(false, 0, !ok);
    if ok && present {
      pass := RepairOrders(t, ex, ids);
    }
    ValidAccount(ex);
    InvParts(start, ex.account);
    KeptAfterRepair(start, account, t.View(), ex.account);
  }

  method CloseAsUnknown(t: LiveTrade, ex: Exchange)
    requires ex.Valid() && Linked(t.View(), ex.account)
    modifies t`status, t`closing, t`touched, t`legs
    ensures t.View() == ClosedRow(old(t.View()), Closing(ReconciledUnknown, 0.0, 0.0), old(t.touched))
    ensures Inv(t.View(), ex.account) && Held(t.View(), ex.account) && SameTrade(old(t.View()), t.View())
    ensures t.status == Closed
  {
    hide Inv, Linked, Held, SameTrade;
    ClosedIsSafe(t.View(), ex.account, UNKNOWN);
    t.CloseTrade(UNKNOWN, t.touched);
    ClosedIsHeld(t.View(), ex.account);
  }

  lemma FlatIsRestored(a: Account)
    requires a.position == 0.0
    ensures forall r :: Restored(r, a)
  {
  }

  lemma NoKeys(orders: map<Key, Order>)
    ensures orders.Keys == {} <==> orders == map[]
  {
    if orders.Keys == {} {
      assert forall k :: k in orders ==> k in orders.Keys;
      assert orders == map[];
    }
  }

  lemma SameTradeAsItself(r: Row)
    ensures SameTrade(r, r) && SameButTpIds(r.legs, r.legs)
  {
  }

  // ---------------------------------------------------------------- all stored trades

  datatype Problem = PositionMissing(id: int) | PassFailed(id: int)

  datatype Report = Report(checked: nat, closedMissing: nat, repaired: nat, problems: seq<Problem>)

  /** The report of the first passes; trades that are not active are not looked at. */
  function Tally(ids: seq<int>, passes: seq<Option<Pass>>): Report
    requires |ids| == |passes|
  {
    if passes == [] then Report(0, 0, 0, [])
    else
      var n := |passes| - 1;
      AddPass(Tally(ids[..n], passes[..n]), ids[n], passes[n])
  }

  function AddPass(r: Report, id: int, pass: Option<Pass>): Report {
    match pass
    case None => r
    case Some(p) =>
      Report(r.checked + 1, r.closedMissing + (if p.closed then 1 else 0), r.repaired + p.repaired,
             r.problems + if p.closed then [PositionMissing(id)] else if p.failed then [PassFailed(id)] else [])
  }

  function Ids(trades: seq<LiveTrade>): (ids: seq<int>)
    ensures |ids| == |trades|
  {
    seq(|trades|, i requires 0 <= i < |trades| => trades[i].id)
  }

  ghost predicate Separate(trades: seq<LiveTrade>, exchanges: seq<Exchange>) {
    && |trades| == |exchanges|
    && (forall i, j :: 0 <= i < j < |trades| ==> trades[i] != trades[j] && exchanges[i] != exchanges[j])
  }

  /** What a pass has made of the trade that had row r and account a when it started, n accounts
      into the exchange's history. */
  ghost predicate Passed(r: Row, a: Account, n: nat, t: LiveTrade, ex: Exchange, pass: Option<Pass>)
    reads t, ex
  {
    && (pass.Some? <==> r.status == PendingEntry || r.status == Open)
    && ex.Valid() && ex.committed == r && Inv(t.View(), ex.account) && SameTrade(r, t.View())
    && (Held(r, a) ==> Held(t.View(), ex.account) && forall i :: n <= i < |ex.history| ==> Held(r, ex.history[i]))
    && match pass
       case None => t.View() == r && ex.account == a
       case Some(p) =>
         && (p.closed <==> t.status == Closed)
         && (p.closed ==> ex.account.position == 0.0
                          && t.View() == ClosedRow(r, Closing(ReconciledUnknown, 0.0, 0.0), r.touched))
         && (!p.closed ==>
               t.View() == r.(slOrderId := t.slOrderId, legs := t.legs) && SameButTpIds(r.legs, t.legs))
         && (!p.failed ==> Restored(t.View(), ex.account))
         && (ex.quiet ==> (t.View(), ex.account, p) == Reconciled(r, a))
  }

  method ReconcileIfActive(t: LiveTrade, ex: Exchange, report: Report) returns (next: Report, ghost pass: Option<Pass>)
    requires Ready(t, ex)
    modifies t, ex
    ensures Passed(old(t.View()), old(ex.account), old(|ex.history|), t, ex, pass)
    ensures next == AddPass(report, t.id, pass)
  {
    hide Inv, Linked, Protected, Held, SameTrade, SameButTpIds, ClosedRow, Reconciled, Restored, Covers, Serves;
    CommittedIsLinked(t, ex);
    next, pass := report, None;
    if Active(t.status) {
      var p := ReconcileTrade(t, ex);
      next, pass := AddPass(report, t.id, Some(p)), Some(p);
    }
  }

  /** One pass over every active trade, whatever the exchanges do. */
  method ReconcileOpenTrades(trades: seq<LiveTrade>, exchanges: seq<Exchange>)
    returns (report: Report, ghost passes: seq<Option<Pass>>)
    requires Separate(trades, exchanges)
    requires forall i :: 0 <= i < |trades| ==> Ready(trades[i], exchanges[i])
    modifies trades, exchanges
    ensures |passes| == |trades| && report == Tally(Ids(trades), passes)
    ensures forall i :: 0 <= i < |trades| ==>
              Passed(old(trades[i].View()), old(exchanges[i].account), old(|exchanges[i].history|),
                     trades[i], exchanges[i], passes[i])
  {
    hide Passed, Ready, AddPass, Tally;
    NothingTallied(trades);
    report, passes := Report(0, 0, 0, []), [];
    for i := 0 to |trades|
      invariant |passes| == i && report == Tally(Ids(trades[..i]), passes)
      invariant forall j :: 0 <= j < i ==>
                  Passed(old(trades[j].View()), old(exchanges[j].account), old(|exchanges[j].history|),
                         trades[j], exchanges[j], passes[j])
      invariant forall j :: i <= j < |trades| ==> unchanged(trades[j]) && unchanged(exchanges[j])
    {
      ghost var pass;
      report, pass := ReconcileIfActive(trades[i], exchanges[i], report);
      TallyOneMore(trades, passes, pass);
      passes := passes + [pass];
    }
    assert trades[..|trades|] == trades;
  }

  /** The report counts the active trades, those closed and those that failed, names these two
      kinds, and adds up the repairs. */
  lemma {:induction false} TallyCounts(ids: seq<int>, passes: seq<Option<Pass>>)
    requires |ids| == |passes|
    ensures var r := Tally(ids, passes);
            && r.checked == |Where(passes, Looked)|
            && r.closedMissing == |Where(passes, ClosedOne)|
            && |r.problems| == |Where(passes, Reported)|
            && r.repaired as real == Sum(seq(|passes|, i requires 0 <= i < |passes| => RepairsOf(passes[i])))
    ensures forall i :: 0 <= i < |passes| && passes[i].Some? ==>
              && (passes[i].value.closed ==> PositionMissing(ids[i]) in Tally(ids, passes).problems)
              && (passes[i].value.failed && !passes[i].value.closed ==>
                    PassFailed(ids[i]) in Tally(ids, passes).problems)
  {
    var repairs := seq(|passes|, i requires 0 <= i < |passes| => RepairsOf(passes[i]));
    if passes != [] {
      var n := |passes| - 1;
      TallyCounts(ids[..n], passes[..n]);
      assert repairs[..n] == seq(n, i requires 0 <= i < n => RepairsOf(passes[..n][i]));
      OneMoreWhere(passes, Looked);
      OneMoreWhere(passes, ClosedOne);
      OneMoreWhere(passes, Reported);
    }
  }

  ghost function RepairsOf(pass: Option<Pass>): real {
    if pass.Some? then pass.value.repaired as real else 0.0
  }

  datatype PassKind = Looked | ClosedOne | Reported

  predicate IsKind(p: Pass, kind: PassKind) {
    match kind
    case Looked => true
    case ClosedOne => p.closed
    case Reported => p.closed || p.failed
  }

  /** The positions of the passes of a kind. */
  ghost function Where(passes: seq<Option<Pass>>, kind: PassKind): set<nat> {
    set i | 0 <= i < |passes| && passes[i].Some? && IsKind(passes[i].value, kind)
  }

  lemma OneMoreWhere(passes: seq<Option<Pass>>, kind: PassKind)
    requires passes != []
    ensures var n := |passes| - 1;
            |Where(passes, kind)| == |Where(passes[..n], kind)|
                                     + if passes[n].Some? && IsKind(passes[n].value, kind) then 1 else 0
  {
    hide IsKind;
    var n := |passes| - 1;
    var before, after := Where(passes[..n], kind), Where(passes, kind);
    assert n !in before;
    if passes[n].Some? && IsKind(passes[n].value, kind) {
      assert after == before + {n};
    } else {
      assert after == before;
    }
  }

  lemma NothingTallied(trades: seq<LiveTrade>)
    ensures Tally(Ids(trades[..0]), []) == Report(0, 0, 0, [])
  {
  }

  lemma TallyOneMore(trades: seq<LiveTrade>, passes: seq<Option<Pass>>, pass: Option<Pass>)
    requires |passes| < |trades|
    ensures var n := |passes|;
            Tally(Ids(trades[..n + 1]), passes + [pass]) == AddPass(Tally(Ids(trades[..n]), passes), trades[n].id, pass)
  {
    var n := |passes|;
    assert (passes + [pass])[..n] == passes;
    assert Ids(trades[..n + 1])[..n] == Ids(trades[..n]);
  }

  // ---------------------------------------------------------------- two passes in a row

  method CommitAll(trades: seq<LiveTrade>, exchanges: seq<Exchange>)
    requires Separate(trades, exchanges)
    requires forall i :: 0 <= i < |trades| ==> exchanges[i].Valid() && Inv(trades[i].View(), exchanges[i].account)
    modifies exchanges
    ensures forall i :: 0 <= i < |trades| ==>
              Ready(trades[i], exchanges[i]) && exchanges[i].account == old(exchanges[i].account)
  {
    hide Inv;
    for i := 0 to |trades|
      invariant forall j :: 0 <= j < i ==>
                  Ready(trades[j], exchanges[j]) && exchanges[j].account == old(exchanges[j].account)
      invariant forall j :: i <= j < |trades| ==> unchanged(exchanges[j])
    {
      exchanges[i].Commit(trades[i].View());
    }
  }

  /** Two error-free passes leave what one leaves: an active trade with a position has its stop and
      every open leg's take-profit live, and only trades without a position were closed. */
  ghost predicate Settled(r: Row, a: Account, s: Row, b: Account) {
    if !Active(r.status) then s == r && b == a
    else
      && s == Reconciled(r, a).0 && b == Reconciled(r, a).1
      && (s.status == Closed <==> a.position == 0.0 && a.orders == map[])
      && (b.position != 0.0 ==>
            && StopId(s) in b.orders
            && forall i :: 0 <= i < |s.legs| && s.legs[i].status == LegOpen ==> TpId(s.id, s.legs[i]) in b.orders)
  }

  lemma OnePassSettles(r: Row, a: Account)
    requires Linked(r, a) && Active(r.status)
    ensures Settled(r, a, Reconciled(r, a).0, Reconciled(r, a).1)
  {
    hide Linked, RepairedOrders, RepairedLegs, RepairedTps, NeedsStop, StopOrder, StopId, TpId, Remaining;
    PassProtects(r, a);
  }

  /** The row and account that a quiet first pass leaves. */
  ghost predicate AfterOne(r: Row, a: Account, s: Row, b: Account) {
    if Active(r.status) then s == Reconciled(r, a).0 && b == Reconciled(r, a).1 else s == r && b == a
  }

  lemma PassedParts(r: Row, a: Account, n: nat, t: LiveTrade, ex: Exchange, pass: Option<Pass>)
    requires Passed(r, a, n, t, ex, pass)
    ensures ex.Valid() && Inv(t.View(), ex.account) && (ex.quiet ==> AfterOne(r, a, t.View(), ex.account))
  {
    hide Inv, Reconciled, Held, SameTrade, SameButTpIds, ClosedRow;
  }

  lemma IdleAfter(r: Row, a: Account, s: Row, b: Account, n: nat, t: LiveTrade, ex: Exchange, second: Option<Pass>)
    requires Linked(r, a) && ex.quiet && AfterOne(r, a, s, b)
    requires Passed(s, b, n, t, ex, second)
    ensures Settled(r, a, t.View(), ex.account) && (second.Some? ==> second.value == Pass(false, 0, false))
  {
    hide Linked, Reconciled, Settled, StopId, TpId, SameButTpIds, ClosedRow, Inv, Held, SameTrade;
    if Active(r.status) {
      OnePassSettles(r, a);
      SecondPassIsIdle(r, a);
    } else {
      NotActiveIsSettled(r, a);
    }
  }

  lemma NotActiveIsSettled(r: Row, a: Account)
    requires !Active(r.status)
    ensures Settled(r, a, r, a)
  {
  }

  lemma {:induction false} IdleTally(ids: seq<int>, passes: seq<Option<Pass>>)
    requires |ids| == |passes|
    requires forall i :: 0 <= i < |passes| && passes[i].Some? ==> passes[i].value == Pass(false, 0, false)
    ensures Tally(ids, passes) == Report(Tally(ids, passes).checked, 0, 0, [])
  {
    if passes != [] {
      var n := |passes| - 1;
      IdleTally(ids[..n], passes[..n]);
    }
  }

  /** Without failures, an immediate second pass over any stored trades repairs and closes nothing. */
  method ReconcileTwice(trades: seq<LiveTrade>, exchanges: seq<Exchange>) returns (first: Report, second: Report)
    requires Separate(trades, exchanges)
    requires forall i :: 0 <= i < |trades| ==> Ready(trades[i], exchanges[i]) && exchanges[i].quiet
    modifies trades, exchanges
    ensures second.closedMissing == 0 && second.repaired == 0 && second.problems == []
    ensures forall i :: 0 <= i < |trades| ==>
              Settled(old(trades[i].View()), old(exchanges[i].account), trades[i].View(), exchanges[i].account)
  {
    hide Passed, Settled, Tally, AddPass, Linked, AfterOne;
    ghost var passes, passes2;
    forall i | 0 <= i < |trades|
      ensures Linked(trades[i].View(), exchanges[i].account)
    {
      CommittedIsLinked(trades[i], exchanges[i]);
    }
    first, passes := ReconcileOpenTrades(trades, exchanges);
    forall i | 0 <= i < |trades|
      ensures exchanges[i].Valid() && Inv(trades[i].View(), exchanges[i].account)
      ensures AfterOne(old(trades[i].View()), old(exchanges[i].account), trades[i].View(), exchanges[i].account)
    {
      PassedParts(old(trades[i].View()), old(exchanges[i].account), old(|exchanges[i].history|),
                  trades[i], exchanges[i], passes[i]);
    }
    CommitAll(trades, exchanges);
    label again:
    second, passes2 := ReconcileOpenTrades(trades, exchanges);
    forall i | 0 <= i < |trades|
      ensures Settled(old(trades[i].View()), old(exchanges[i].account), trades[i].View(), exchanges[i].account)
      ensures passes2[i].Some? ==> passes2[i].value == Pass(false, 0, false)
    {
      IdleAfter(old(trades[i].View()), old(exchanges[i].account), old@again(trades[i].View()),
                old@again(exchanges[i].account), old@again(|exchanges[i].history|), trades[i], exchanges[i],
                passes2[i]);
    }
    IdleTally(Ids(trades), passes2);
  }
}
