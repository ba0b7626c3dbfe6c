/** A live trade's database row, its exchange account, and the invariant that ties them
    together. The exchange is an adversary: between any two calls conditional orders may fill and
    the position may be liquidated, and a call may raise before or after it takes effect. */
module LiveExchange {
  import opened Common
  import opened OrderIds

  datatype Status = PendingEntry | Open | Closed | Skipped | Errored

  datatype LegStatus = LegOpen | LegFilled | LegCanceled

  datatype Leg = Leg(index: nat, target: real, qty: real, tpOrderId: Option<Key>, status: LegStatus)

  datatype Reason =
    | AllTp | BreakEven | StopLoss | Liquidation | Model3Exited | ReconciledUnknown | AbortedNoProtection

  datatype Closing = Closing(reason: Reason, pnl: real, roi: real)

  /** A row of the trades table with its legs and its signal's entry and stop. */
  datatype Row = Row(id: int, side: Side, leverage: int, margin: real, qty: real, entry: real, stopLoss: real,
                     status: Status, entryOrderId: Option<Key>, slOrderId: Option<Key>, legs: seq<Leg>,
                     touched: set<nat>, closing: Option<Closing>)

  datatype Kind = Stop | TakeProfit

  datatype Order = Order(kind: Kind, qty: real, price: real)

  /** Open quantity, live conditional orders, and the orders that have ever filled. */
  datatype Account = Account(position: real, orders: map<Key, Order>, fills: set<Key>)

  function EntryKey(id: int): Key { Key(id, Entry, None) }
  function SlKey(id: int): Key { Key(id, Sl, None) }
  function BeKey(id: int): Key { Key(id, BeSl, None) }
  function TpKey(id: int, index: nat): Key { Key(id, Tp, Some(index)) }

  // ---------------------------------------------------------------- rows

  function Quantities(legs: seq<Leg>): (r: seq<real>)
    ensures |r| == |legs|
  {
    seq(|legs|, i requires 0 <= i < |legs| => legs[i].qty)
  }

  function FilledIndices(legs: seq<Leg>): set<nat> {
    set leg | leg in legs && leg.status == LegFilled :: leg.index
  }

  /** Every row that the engine stores: legs of distinct index that carry the whole quantity,
      touched targets that are exactly the filled legs, and closing fields when closed, also if an
      error was recorded after the close. */
  ghost predicate RowOk(r: Row) {
    && r.id > 0 && r.leverage > 0 && r.margin > 0.0 && r.qty > 0.0 && r.entry > 0.0
    && (forall i, j :: 0 <= i < j < |r.legs| ==> r.legs[i].index < r.legs[j].index)
    && (forall i :: 0 <= i < |r.legs| ==>
          && r.legs[i].qty >= 0.0 && r.legs[i].index > 0
          && (r.legs[i].tpOrderId.Some? ==> r.legs[i].tpOrderId.value == TpKey(r.id, r.legs[i].index))
          && (r.status == Closed ==> r.legs[i].status != LegOpen))
    && (r.legs != [] ==> Sum(Quantities(r.legs)) == r.qty)
    && (r.slOrderId.Some? ==> r.slOrderId.value in {SlKey(r.id), BeKey(r.id)})
    && (r.entryOrderId.Some? ==> r.entryOrderId.value == EntryKey(r.id))
    && r.touched == FilledIndices(r.legs)
    && (r.status == Closed ==> r.closing.Some?)
    && (r.closing.Some? ==> r.status in {Closed, Errored})
  }

  /** Two rows of one trade: only statuses, order ids, touched targets and closing may differ. */
  ghost predicate SameTrade(a: Row, b: Row) {
    && a.id == b.id && a.side == b.side && a.leverage == b.leverage && a.margin == b.margin && a.qty == b.qty
    && a.entry == b.entry && a.stopLoss == b.stopLoss && |a.legs| == |b.legs|
    && forall i :: 0 <= i < |a.legs| ==>
         a.legs[i].index == b.legs[i].index && a.legs[i].qty == b.legs[i].qty && a.legs[i].target == b.legs[i].target
  }

  function FilledQuantities(legs: seq<Leg>): (r: seq<real>)
    ensures |r| == |legs|
  {
    seq(|legs|, i requires 0 <= i < |legs| => if legs[i].status == LegFilled then legs[i].qty else 0.0)
  }

  /** What the database believes is still open. */
  function Remaining(r: Row): real {
    r.qty - Sum(FilledQuantities(r.legs))
  }

  function UnfilledQuantities(legs: seq<Leg>): (r: seq<real>)
    ensures |r| == |legs|
  {
    seq(|legs|, i requires 0 <= i < |legs| => if legs[i].status == LegFilled then 0.0 else legs[i].qty)
  }

  lemma {:induction false} FilledAndUnfilled(legs: seq<Leg>)
    ensures Sum(FilledQuantities(legs)) + Sum(UnfilledQuantities(legs)) == Sum(Quantities(legs))
  {
    if legs != [] {
      var k := |legs| - 1;
      FilledAndUnfilled(legs[..k]);
      assert FilledQuantities(legs)[..k] == FilledQuantities(legs[..k]);
      assert UnfilledQuantities(legs)[..k] == UnfilledQuantities(legs[..k]);
      assert Quantities(legs)[..k] == Quantities(legs[..k]);
    }
  }

  /** The quantity that a break-even or repaired stop is given is the sum over the unfilled legs. */
  lemma RemainingIsUnfilled(r: Row)
    requires RowOk(r) && r.legs != []
    ensures Remaining(r) == Sum(UnfilledQuantities(r.legs))
  {
    FilledAndUnfilled(r.legs);
  }

  /** What is open by the legs: the sum of the unfilled ones, or everything without legs. */
  function OpenQty(r: Row): real {
    if r.legs == [] then r.qty else Sum(UnfilledQuantities(r.legs))
  }

  lemma RemainingIsOpenQty(r: Row)
    requires RowOk(r)
    ensures Remaining(r) == OpenQty(r)
  {
    if r.legs == [] {
      assert FilledQuantities(r.legs) == [];
    } else {
      RemainingIsUnfilled(r);
    }
  }

  /** The break-even stop is live at the entry for what is open by the legs. */
  ghost predicate AtBreakEven(r: Row, a: Account) {
    BeKey(r.id) in a.orders && a.orders[BeKey(r.id)] == Order(Stop, OpenQty(r), r.entry)
  }

  // ---------------------------------------------------------------- the link between row and account

  function FilledOnExchange(r: Row, fills: set<Key>): (s: seq<real>)
    ensures |s| == |r.legs|
  {
    seq(|r.legs|, i requires 0 <= i < |r.legs| =>
          if TpKey(r.id, r.legs[i].index) in fills then r.legs[i].qty else 0.0)
  }

  /** What the exchange's fills leave of the trade's quantity. */
  function Unsold(r: Row, fills: set<Key>): real {
    r.qty - Sum(FilledOnExchange(r, fills))
  }

  /** A live order is a stop that covers the whole position, at the entry if it is the break-even
      one, or one leg's take-profit at its target. */
  ghost predicate OrderOk(r: Row, position: real, k: Key, o: Order) {
    || (k == SlKey(r.id) && o.kind == Stop && o.qty >= position)
    || (k == BeKey(r.id) && o.kind == Stop && o.qty >= position && o.price == r.entry)
    || exists i :: && 0 <= i < |r.legs| && k == TpKey(r.id, r.legs[i].index)
                   && o == Order(TakeProfit, r.legs[i].qty, r.legs[i].target)
  }

  ghost predicate Linked(r: Row, a: Account) {
    && RowOk(r)
    && 0.0 <= a.position <= Unsold(r, a.fills)
    && (forall i :: 0 <= i < |r.legs| && r.legs[i].status == LegFilled ==> TpKey(r.id, r.legs[i].index) in a.fills)
    && (forall k :: k in a.orders ==> OrderOk(r, a.position, k, a.orders[k]))
  }

  /** Nothing is open, or the stop k is live. */
  predicate Covers(a: Account, k: Key) {
    a.position == 0.0 || (k in a.orders && a.orders[k].kind == Stop)
  }

  /** Nothing is open, or the take-profit k is live or has filled. */
  predicate Serves(a: Account, k: Key) {
    a.position == 0.0 || k in a.orders || k in a.fills
  }

  /** An open trade with a stored stop id has a live stop, the stored one or the break-even one;
      being live and Linked, it covers the whole position. */
  ghost predicate Protected(r: Row, a: Account) {
    r.status == Open && r.slOrderId.Some? ==> Covers(a, r.slOrderId.value) || Covers(a, BeKey(r.id))
  }

  /** The stored stop itself is live. */
  ghost predicate Held(r: Row, a: Account) {
    r.status == Open && r.slOrderId.Some? ==> Covers(a, r.slOrderId.value)
  }

  ghost predicate Inv(r: Row, a: Account) {
    Linked(r, a) && Protected(r, a)
  }

  lemma {:induction false} SumKeepsOrder(a: seq<real>, b: seq<real>)
    requires |a| == |b| && forall i :: 0 <= i < |a| ==> a[i] <= b[i]
    ensures Sum(a) <= Sum(b)
  {
    if a != [] {
      var k := |a| - 1;
      SumKeepsOrder(a[..k], b[..k]);
    }
  }

  lemma UnsoldIsNonNegative(r: Row, fills: set<Key>)
    requires RowOk(r)
    ensures Unsold(r, fills) >= 0.0
  {
    if r.legs != [] {
      SumKeepsOrder(FilledOnExchange(r, fills), Quantities(r.legs));
    } else {
      assert FilledOnExchange(r, fills) == [];
    }
  }

  /** The exchange has filled at least what the database knows of, so the quantity the engine
      gives a new stop is never below the open position. */
  lemma RemainingCoversPosition(r: Row, a: Account)
    requires Linked(r, a)
    ensures Remaining(r) >= a.position
  {
    SumKeepsOrder(FilledQuantities(r.legs), FilledOnExchange(r, a.fills));
  }

  lemma FillOfLeg(r: Row, fills: set<Key>, i: nat)
    requires RowOk(r) && i < |r.legs|
    ensures var k := TpKey(r.id, r.legs[i].index);
            Unsold(r, fills + {k}) >= Unsold(r, fills) - r.legs[i].qty
  {
    hide Sum, Quantities, FilledIndices;
    var k := TpKey(r.id, r.legs[i].index);
    var before, after := FilledOnExchange(r, fills), FilledOnExchange(r, fills + {k});
    forall j | 0 <= j < |r.legs| && j != i
      ensures after[j] == before[j]
    {
    }
    assert after == before[i := r.legs[i].qty];
    SumUpdate(before, i, r.legs[i].qty);
  }

  lemma FillOfStop(r: Row, fills: set<Key>, k: Key)
    requires k.purpose != Tp
    ensures Unsold(r, fills + {k}) == Unsold(r, fills)
  {
    assert FilledOnExchange(r, fills + {k}) == FilledOnExchange(r, fills);
  }

  /** One conditional order fills: the position shrinks by its quantity, not below zero. */
  function Fill(a: Account, k: Key): Account
    requires k in a.orders
  {
    Account(Max(0.0, a.position - a.orders[k].qty), a.orders - {k}, a.fills + {k})
  }

  lemma OrdersAreNonNegative(r: Row, a: Account, k: Key)
    requires Linked(r, a) && k in a.orders
    ensures a.orders[k].qty >= 0.0
  {
    assert OrderOk(r, a.position, k, a.orders[k]);
  }

  /** A fill keeps the link, and a filled stop has closed the position. */
  lemma FillKeepsInv(r: Row, a: Account, k: Key)
    requires Linked(r, a) && k in a.orders
    ensures Linked(r, Fill(a, k))
    ensures forall s :: Covers(a, s) ==> Covers(Fill(a, k), s)
  {
    hide RowOk, Unsold;
    var o := a.orders[k];
    assert o.qty >= 0.0 by { OrdersAreNonNegative(r, a, k); }
    assert OrderOk(r, a.position, k, o);
    assert RowOk(r) && Unsold(r, a.fills + {k}) >= 0.0 by { UnsoldIsNonNegative(r, a.fills + {k}); }
    if o.kind == Stop {
      FillOfStop(r, a.fills, k);
    } else {
      var i :| && 0 <= i < |r.legs| && k == TpKey(r.id, r.legs[i].index)
               && o == Order(TakeProfit, r.legs[i].qty, r.legs[i].target);
      FillOfLeg(r, a.fills, i);
    }
    var b := Fill(a, k);
    forall j | j in b.orders
      ensures OrderOk(r, b.position, j, b.orders[j])
    {
      assert OrderOk(r, a.position, j, a.orders[j]);
    }
  }

  /** The link does not depend on statuses, except that a filled leg must have filled. */
  lemma LinkAcrossRows(r: Row, s: Row, a: Account)
    requires Linked(r, a) && RowOk(s) && SameTrade(r, s)
    requires forall i :: 0 <= i < |s.legs| && s.legs[i].status == LegFilled ==> TpKey(s.id, s.legs[i].index) in a.fills
    ensures Linked(s, a)
  {
    hide RowOk, Sum;
    assert FilledOnExchange(r, a.fills) == FilledOnExchange(s, a.fills);
    forall k | k in a.orders
      ensures OrderOk(s, a.position, k, a.orders[k])
    {
      assert OrderOk(r, a.position, k, a.orders[k]);
    }
  }

  /** A flat account stays flat, stops not cancelled keep covering, and take-profits not cancelled
      stay live or fill. */
  ghost predicate Stays(a: Account, b: Account, cancelled: set<Key>) {
    && (a.position == 0.0 ==> b.position == 0.0)
    && (forall k :: k !in cancelled && Covers(a, k) ==> Covers(b, k))
    && (forall k :: k !in cancelled && Serves(a, k) ==> Serves(b, k))
  }

  // ---------------------------------------------------------------- the exchange

  class Exchange {
    var account: Account
    const quiet: bool               // a quiet exchange fills nothing by itself and never raises
    var committed: Row              // the trade's row as last committed to the database
    var history: seq<Account>       // the accounts passed through since that commit

    /** Whatever happens at any point since the last commit, a process that stops there leaves
        the committed row and the account of that moment in a safe state. */
    ghost predicate Valid()
      reads this
    {
      && history != [] && history[|history| - 1] == account
      && forall i :: 0 <= i < |history| ==> Inv(committed, history[i])
    }

    /** How one or more exchange calls move the account: fills only grow, the position only
        shrinks, and at every point, until the position is closed, a live stop that was not
        cancelled stays live and a live take-profit that was not cancelled stays live or fills. */
    twostate predicate Later(cancelled: set<Key>)
      reads this
    {
      && committed == old(committed) && old(history) <= history
      && old(account.fills) <= account.fills && account.position <= old(account.position)
      && Stays(old(account), account, cancelled)
      && forall i :: old(|history|) <= i < |history| ==> Stays(old(account), history[i], cancelled)
    }

    constructor (r: Row, a: Account, quiet: bool)
      requires Inv(r, a)
      ensures Valid() && account == a && committed == r && history == [a] && this.quiet == quiet
    {
      committed, account, history, this.quiet := r, a, [a], quiet;
    }

    /** Appends the account reached by an effect. */
    method Reach(a: Account)
      requires Valid() && Inv(committed, a)
      modifies this`account, this`history
      ensures Valid() && account == a && history == old(history) + [a]
    {
      account := a;
      history := history + [a];
    }

    /** Fills and liquidation between two calls. */
    method Elapse()
      requires Valid()
      modifies this`account, this`history
      ensures Valid() && Later({})
      ensures quiet ==> account == old(account) && history == old(history)
    {
      hide Inv, Linked, Protected, Covers, Serves;
      if quiet {
        return;
      }
      while account.orders != map[]
        invariant Valid() && Later({})
        decreases |account.orders|
      {
        var more: bool := *;
        if !more {
          break;
        }
        var k :| k in account.orders;
        SafeAfterFill(committed, account, k);
        Reach(Fill(account, k));
      }
      var liquidated: bool := *;
      if liquidated {
        SafeWhenFlat(committed, account);
        Reach(account.(position := 0.0));
      }
    }

    /** Places a stop for at least the open quantity; a live order of that id is rejected or replaced. */
    method PlaceStop(k: Key, qty: real, price: real) returns (ok: bool)
      requires Valid() && k in {SlKey(committed.id), BeKey(committed.id)} && qty >= account.position
      requires k == BeKey(committed.id) ==> price == committed.entry
      modifies this`account, this`history
      ensures Valid() && Later({}) && (ok ==> Covers(account, k))
      ensures ok ==> k in account.orders && account.orders[k] == Order(Stop, qty, price)
      ensures quiet ==> ok && account == old(account).(orders := old(account).orders[k := Order(Stop, qty, price)])
    {
      hide Inv, Linked, Protected;
      Elapse();
      var before: bool := *;
      if before && !quiet {
        return false;
      }
      SafeWithStop(committed, account, k, qty, price);
      Reach(account.(orders := account.orders[k := Order(Stop, qty, price)]));
      var raised: bool := *;
      ok := quiet || !raised;
    }

    method PlaceTakeProfit(ghost i: nat, k: Key, qty: real, price: real) returns (ok: bool)
      requires Valid() && i < |committed.legs|
      requires k == TpKey(committed.id, committed.legs[i].index)
      requires qty == committed.legs[i].qty && price == committed.legs[i].target
      modifies this`account, this`history
      ensures Valid() && Later({}) && (ok ==> Serves(account, k))
      ensures ok ==> k in account.orders && account.orders[k] == Order(TakeProfit, qty, price)
      ensures quiet ==>
                && ok
                && account == old(account).(orders := old(account).orders[k := Order(TakeProfit, qty, price)])
    {
      hide Inv, Linked, Protected;
      Elapse();
      var before: bool := *;
      if before && !quiet {
        return false;
      }
      SafeWithTakeProfit(committed, account, i);
      Reach(account.(orders := account.orders[k := Order(TakeProfit, qty, price)]));
      var raised: bool := *;
      ok := quiet || !raised;
    }

    /** Cancels one order, which the committed row must be able to do without. The cancellation
        takes effect at history[effect], if at all; up to then the order is as live as before. */
    method CancelAlgoOrder(k: Key) returns (ok: bool, ghost effect: nat)
      requires Valid() && MayCancel(committed, account, k)
      modifies this`account, this`history
      ensures Valid() && Later({k}) && old(|history|) <= effect <= |history|
      ensures forall i :: old(|history|) <= i < effect ==> Stays(old(account), history[i], {})
      ensures forall i :: effect <= i < |history| ==> k !in history[i].orders
      ensures quiet ==> effect == old(|history|) == |history| - 1
      ensures quiet ==> ok && account == old(account).(orders := old(account).orders - {k})
    {
      hide Inv, Linked, Protected;
      Elapse();
      effect := |history|;
      var before: bool := *;
      if before && !quiet {
        return false, effect;
      }
      SafeWithout(committed, account, k);
      Reach(account.(orders := account.orders - {k}));
      var raised: bool := *;
      ok := quiet || !raised;
    }

    method GetOpenAlgoOrders() returns (ok: bool, ids: set<Key>)
      requires Valid()
      modifies this`account, this`history
      ensures Valid() && Later({})
      ensures ok ==> ids == account.orders.Keys
      ensures ok ==> forall k :: k in ids ==> Serves(account, k) && (k.purpose != Tp ==> Covers(account, k))
      ensures quiet ==> ok && account == old(account)
    {
      hide Inv, Protected;
      Elapse();
      var raised: bool := *;
      if raised && !quiet {
        return false, {};
      }
      LiveStopsCover(committed, account);
      return true, account.orders.Keys;
    }

    method GetPosition() returns (ok: bool, present: bool)
      requires Valid()
      modifies this`account, this`history
      ensures Valid() && Later({})
      ensures ok && !present ==> account.position == 0.0
      ensures quiet ==> ok && account == old(account) && present == (account.position != 0.0)
    {
      Elapse();
      var raised: bool := *;
      if raised && !quiet {
        return false, false;
      }
      return true, account.position != 0.0;
    }

    /** Closes whatever is open; a missing position is an error. */
    method ClosePositionMarket() returns (ok: bool)
      requires Valid()
      modifies this`account, this`history
      ensures Valid() && Later({}) && (ok ==> account.position == 0.0)
      ensures quiet ==> ok == (old(account).position != 0.0) && account == old(account).(position := 0.0)
    {
      hide Inv, Linked, Protected;
      Elapse();
      var before: bool := *;
      if account.position == 0.0 || (before && !quiet) {
        return false;
      }
      SafeWhenFlat(committed, account);
      Reach(account.(position := 0.0));
      var raised: bool := *;
      ok := quiet || !raised;
    }

    /** Cancels every conditional order of the symbol; only after the position was closed. */
    method CancelAllAlgoOrders() returns (ok: bool)
      requires Valid() && account.position == 0.0
      modifies this`account, this`history
      ensures Valid() && Later({})
    {
      hide Inv, Linked, Protected;
      Elapse();
      var before: bool := *;
      if before && !quiet {
        return false;
      }
      SafeWithoutAny(committed, account);
      Reach(account.(orders := map[]));
      var raised: bool := *;
      ok := quiet || !raised;
    }

    /** The entry order fills in full, from a flat account with no orders. */
    method FillEntry(qty: real)
      requires Valid() && committed.status == PendingEntry && qty == committed.qty
      requires account.orders == map[] && account.fills == {}
      modifies this`account, this`history
      ensures Valid() && committed == old(committed) && old(history) <= history
      ensures account == Account(qty, map[], {})
    {
      SafeAfterEntry(committed, account);
      Reach(Account(qty, map[], {}));
    }

    /** The session commits the handler's row. */
    method Commit(r: Row)
      requires Valid() && Inv(r, account)
      modifies this`committed, this`history
      ensures Valid() && committed == r && history == [account]
    {
      committed, history := r, [account];
    }

    /** The process stopped when the account was history[i]; the session rolled back. */
    method CrashAt(i: nat)
      requires Valid() && i < |history|
      modifies this`account, this`history
      ensures Valid() && account == old(history)[i] && history == [account]
    {
      account := history[i];
      history := [account];
    }
  }

  /** The order k can be cancelled without leaving the row unprotected. */
  ghost predicate MayCancel(r: Row, a: Account, k: Key) {
    || r.status != Open || r.slOrderId.None? || a.position == 0.0 || k.purpose == Tp
    || (k != r.slOrderId.value && Covers(a, r.slOrderId.value))
    || (k != BeKey(r.id) && Covers(a, BeKey(r.id)))
  }

  // ---------------------------------------------------------------- each effect keeps the account safe

  lemma SafeAfterFill(r: Row, a: Account, k: Key)
    requires Inv(r, a) && k in a.orders
    ensures Inv(r, Fill(a, k)) && |Fill(a, k).orders| < |a.orders|
    ensures forall s :: Covers(a, s) ==> Covers(Fill(a, k), s)
    ensures forall s :: Serves(a, s) ==> Serves(Fill(a, k), s)
    ensures Fill(a, k).position <= a.position && a.fills <= Fill(a, k).fills
  {
    hide Unsold, RowOk, OrderOk;
    FillKeepsInv(r, a, k);
    OrdersAreNonNegative(r, a, k);
    assert (a.orders - {k}).Keys == a.orders.Keys - {k};
  }

  lemma SafeWhenFlat(r: Row, a: Account)
    requires Inv(r, a)
    ensures Inv(r, a.(position := 0.0)) && a.position >= 0.0
    ensures forall s :: Covers(a.(position := 0.0), s) && Serves(a.(position := 0.0), s)
  {
    hide Sum;
    var b := a.(position := 0.0);
    forall k | k in b.orders
      ensures OrderOk(r, b.position, k, b.orders[k])
    {
      assert OrderOk(r, a.position, k, a.orders[k]);
    }
  }

  lemma SafeWithStop(r: Row, a: Account, k: Key, qty: real, price: real)
    requires Inv(r, a) && k in {SlKey(r.id), BeKey(r.id)} && qty >= a.position
    requires k == BeKey(r.id) ==> price == r.entry
    ensures var b := a.(orders := a.orders[k := Order(Stop, qty, price)]);
            && Inv(r, b)
            && forall s :: (Covers(a, s) ==> Covers(b, s)) && (Serves(a, s) ==> Serves(b, s))
  {
    hide Sum, RowOk;
    var b := a.(orders := a.orders[k := Order(Stop, qty, price)]);
    forall j | j in b.orders
      ensures OrderOk(r, b.position, j, b.orders[j])
    {
      assert j != k ==> OrderOk(r, a.position, j, a.orders[j]);
    }
  }

  lemma SafeWithTakeProfit(r: Row, a: Account, i: nat)
    requires Inv(r, a) && i < |r.legs|
    ensures var order := Order(TakeProfit, r.legs[i].qty, r.legs[i].target);
            var b := a.(orders := a.orders[TpKey(r.id, r.legs[i].index) := order]);
            && Inv(r, b)
            && forall s :: (Covers(a, s) ==> Covers(b, s)) && (Serves(a, s) ==> Serves(b, s))
  {
    hide Sum, RowOk;
    var key := TpKey(r.id, r.legs[i].index);
    var b := a.(orders := a.orders[key := Order(TakeProfit, r.legs[i].qty, r.legs[i].target)]);
    assert key in a.orders ==> OrderOk(r, a.position, key, a.orders[key]);
    forall j | j in b.orders
      ensures OrderOk(r, b.position, j, b.orders[j])
    {
      assert j != key ==> OrderOk(r, a.position, j, a.orders[j]);
    }
  }

  lemma SafeWithout(r: Row, a: Account, k: Key)
    requires Inv(r, a) && MayCancel(r, a, k)
    ensures var b := a.(orders := a.orders - {k});
            && Inv(r, b)
            && forall s :: s != k ==> (Covers(a, s) ==> Covers(b, s)) && (Serves(a, s) ==> Serves(b, s))
  {
    hide Sum, RowOk;
    var b := a.(orders := a.orders - {k});
    forall j | j in b.orders
      ensures OrderOk(r, b.position, j, b.orders[j])
    {
      assert OrderOk(r, a.position, j, a.orders[j]);
    }
  }

  lemma SafeWithoutAny(r: Row, a: Account)
    requires Inv(r, a) && a.position == 0.0
    ensures Inv(r, a.(orders := map[])) && forall s :: Serves(a.(orders := map[]), s)
  {
  }

  lemma SafeAfterEntry(r: Row, a: Account)
    requires Inv(r, a) && r.status == PendingEntry && a.orders == map[] && a.fills == {}
    ensures Inv(r, Account(r.qty, map[], {}))
  {
    hide Sum;
    ZeroSum(FilledOnExchange(r, {}));
  }

  lemma {:induction false} ZeroSum(s: seq<real>)
    requires forall i :: 0 <= i < |s| ==> s[i] == 0.0
    ensures Sum(s) == 0.0
  {
    if s != [] {
      ZeroSum(s[..|s| - 1]);
    }
  }

  lemma LiveStopsCover(r: Row, a: Account)
    requires Inv(r, a)
    ensures forall k :: k in a.orders && k.purpose != Tp ==> Covers(a, k)
  {
    forall k | k in a.orders && k.purpose != Tp
      ensures Covers(a, k)
    {
      assert OrderOk(r, a.position, k, a.orders[k]);
    }
  }
}
