/** Demo accounts and trades over whole runs: opening on a signal, ticking, closing, resetting,
    and the reported statistics (services/demo_engine/engine.py, repository.py and stats.py,
    services/telegram_bot/repository.py). */
module DemoStore {
  import opened Common
  import opened DemoTrade

  datatype Account = Account(start: real, balance: real)

  datatype Settings = Settings(margin: real, riskModel: int, roiPct: real, capLeverage: bool, leverageCap: Option<int>)

  datatype EngineConfig = EngineConfig(margin: real, riskModel: int, weights: seq<real>, roiPct: real,
                                       moveToBreakEven: bool, maintenanceRate: real)

  datatype StatsRow = StatsRow(signalId: int, closing: Option<Closing>)

  datatype Stats = Stats(startBalance: real, currentBalance: real, signalsTraded: nat, openCount: nat, wins: nat,
                         losses: nat, closedCount: nat, winRatePct: real, netProfit: real, netProfitPct: real)

  class Signal {
    const id: int
    const symbol: string
    const side: Side
    const entry: real
    const stopLoss: real
    const targets: seq<real>
    const accepted: bool
    var leverage: int

    constructor (id: int, symbol: string, side: Side, entry: real, stopLoss: real, leverage: int,
                 targets: seq<real>, accepted: bool)
      ensures this.id == id && this.symbol == symbol && this.side == side && this.entry == entry
      ensures this.stopLoss == stopLoss && this.leverage == leverage && this.targets == targets
      ensures this.accepted == accepted
    {
      this.id, this.symbol, this.side, this.entry, this.stopLoss := id, symbol, side, entry, stopLoss;
      this.leverage, this.targets, this.accepted := leverage, targets, accepted;
    }
  }

  // ---------------------------------------------------------------- history of a user

  /** A user's result in each row: the realized profit of a closed trade of theirs, else zero. */
  function Results(trades: seq<Trade>, user: int): (r: seq<real>)
    ensures |r| == |trades|
  {
    seq(|trades|, i requires 0 <= i < |trades| =>
          if trades[i].userId == user && trades[i].closing.Some? then trades[i].closing.value.pnl else 0.0)
  }

  /** Realized profit of all of a user's closed trades. */
  function ClosedPnl(trades: seq<Trade>, user: int): real {
    Sum(Results(trades, user))
  }

  predicate OpenFor(t: Trade, user: int, signalId: int) {
    t.closing.None? && t.userId == user && t.signalId == signalId
  }

  predicate HasOpen(trades: seq<Trade>, user: int, signalId: int) {
    exists i :: 0 <= i < |trades| && OpenFor(trades[i], user, signalId)
  }

  lemma ClosedPnlAppend(trades: seq<Trade>, t: Trade, user: int)
    ensures ClosedPnl(trades + [t], user)
            == ClosedPnl(trades, user)
               + if t.userId == user && t.closing.Some? then t.closing.value.pnl else 0.0
  {
    var x := if t.userId == user && t.closing.Some? then t.closing.value.pnl else 0.0;
    assert Results(trades + [t], user) == Results(trades, user) + [x];
    SumAppend(Results(trades, user), x);
  }

  /** Closing an open trade adds its profit to its own user's history and to nobody else's. */
  lemma ClosedPnlUpdate(trades: seq<Trade>, k: nat, t: Trade, user: int)
    requires k < |trades| && trades[k].closing.None? && t.userId == trades[k].userId
    ensures ClosedPnl(trades[k := t], user)
            == ClosedPnl(trades, user)
               + if t.userId == user && t.closing.Some? then t.closing.value.pnl else 0.0
  {
    var x := if t.userId == user && t.closing.Some? then t.closing.value.pnl else 0.0;
    assert Results(trades[k := t], user) == Results(trades, user)[k := x];
    SumUpdate(Results(trades, user), k, x);
  }

  lemma {:induction false} NoTradesNoProfit(trades: seq<Trade>, user: int)
    requires forall i :: 0 <= i < |trades| ==> trades[i].userId != user
    ensures ClosedPnl(trades, user) == 0.0
  {
    if trades != [] {
      var k := |trades| - 1;
      NoTradesNoProfit(trades[..k], user);
      assert trades == trades[..k] + [trades[k]];
      ClosedPnlAppend(trades[..k], trades[k], user);
    }
  }

  function WithoutUser(trades: seq<Trade>, user: int): seq<Trade> {
    if trades == [] then []
    else
      var k := |trades| - 1;
      WithoutUser(trades[..k], user) + if trades[k].userId == user then [] else [trades[k]]
  }

  lemma {:induction false} WithoutUserKeepsOthers(trades: seq<Trade>, user: int, other: int)
    requires other != user
    ensures ClosedPnl(WithoutUser(trades, user), other) == ClosedPnl(trades, other)
  {
    if trades != [] {
      var k := |trades| - 1;
      WithoutUserKeepsOthers(trades[..k], user, other);
      assert trades == trades[..k] + [trades[k]];
      ClosedPnlAppend(trades[..k], trades[k], other);
      ClosedPnlAppend(WithoutUser(trades[..k], user), trades[k], other);
      assert WithoutUser(trades[..k], user) + [] == WithoutUser(trades[..k], user);
    }
  }

  /** s lists exactly the positions that hold, in order. */
  ghost predicate ListsPositions(s: seq<nat>, n: nat, holds: set<nat>) {
    Increasing(s) && ToSet(s) == holds && forall i :: 0 <= i < |s| ==> s[i] < n
  }

  ghost function NotOf(trades: seq<Trade>, user: int): set<nat> {
    set i: nat | i < |trades| && trades[i].userId != user
  }

  ghost function RowsOf(trades: seq<Trade>, user: int): set<nat> {
    set i: nat | i < |trades| && trades[i].userId == user
  }

  /** p leads from the kept rows to their places. */
  ghost predicate Places(before: seq<Trade>, user: int, after: seq<Trade>, p: seq<nat>) {
    && ListsPositions(p, |before|, NotOf(before, user)) && |p| == |after|
    && forall i :: 0 <= i < |p| ==> after[i] == before[p[i]]
  }

  /** What is left after deleting a user's trades: the others' rows, all of them, in their order. */
  ghost predicate OthersLeft(before: seq<Trade>, user: int, after: seq<Trade>) {
    exists p: seq<nat> :: Places(before, user, after, p)
  }

  lemma {:induction false} WithoutUserIsOthers(trades: seq<Trade>, user: int)
    ensures OthersLeft(trades, user, WithoutUser(trades, user))
  {
    hide OthersLeft;
    if trades == [] {
      NothingLeft(user);
    } else {
      var k := |trades| - 1;
      WithoutUserIsOthers(trades[..k], user);
      assert trades == trades[..k] + [trades[k]];
      OneMoreTrade(trades[..k], trades[k], user, WithoutUser(trades[..k], user));
    }
  }

  lemma NothingLeft(user: int)
    ensures OthersLeft([], user, [])
  {
    assert Places([], user, [], []);
  }

  lemma OneMoreTrade(front: seq<Trade>, last: Trade, user: int, kept: seq<Trade>)
    requires OthersLeft(front, user, kept)
    ensures OthersLeft(front + [last], user, kept + if last.userId == user then [] else [last])
  {
    hide Places;
    var p: seq<nat> :| Places(front, user, kept, p);
    NotOfOneMore(front, last, user);
    if last.userId == user {
      SamePlaces(front, last, user, kept, p);
      assert kept + [] == kept;
    } else {
      OneMorePlace(front, last, user, kept, p);
    }
  }

  lemma SamePlaces(front: seq<Trade>, last: Trade, user: int, kept: seq<Trade>, p: seq<nat>)
    requires Places(front, user, kept, p) && last.userId == user
    ensures Places(front + [last], user, kept, p)
  {
    NotOfOneMore(front, last, user);
    hide NotOf;
  }

  lemma OneMorePlace(front: seq<Trade>, last: Trade, user: int, kept: seq<Trade>, p: seq<nat>)
    requires Places(front, user, kept, p) && last.userId != user
    ensures Places(front + [last], user, kept + [last], p + [|front|])
  {
    hide NotOf;
    NotOfOneMore(front, last, user);
    OneMorePosition(p, |front|, NotOf(front, user), true);
  }

  lemma NotOfOneMore(front: seq<Trade>, last: Trade, user: int)
    ensures NotOf(front + [last], user) == NotOf(front, user) + if last.userId == user then {} else {|front|}
  {
  }

  lemma OneMorePosition(p: seq<nat>, k: nat, holds: set<nat>, more: bool)
    requires ListsPositions(p, k, holds)
    ensures ListsPositions(if more then p + [k] else p, k + 1, holds + if more then {k} else {})
  {
    assert ToSet(p + [k]) == ToSet(p) + {k};
    assert holds + {} == holds;
  }

  ghost predicate OneOpenEach(trades: seq<Trade>) {
    forall i, j, user, signalId :: 0 <= i < j < |trades| && OpenFor(trades[i], user, signalId) ==>
                                     !OpenFor(trades[j], user, signalId)
  }

  lemma {:induction false} WithoutUserRows(trades: seq<Trade>, user: int)
    ensures var kept := WithoutUser(trades, user);
            && |kept| <= |trades|
            && (forall i :: 0 <= i < |kept| ==> kept[i].userId != user && kept[i] in trades)
            && (OneOpenEach(trades) ==> OneOpenEach(kept))
  {
    if trades != [] {
      var k := |trades| - 1;
      WithoutUserRows(trades[..k], user);
      var kept := WithoutUser(trades[..k], user);
      if OneOpenEach(trades) {
        forall i, u, s | 0 <= i < |kept| && OpenFor(kept[i], u, s)
          ensures !OpenFor(trades[k], u, s)
        {
          var j :| 0 <= j < k && trades[j] == kept[i];
        }
      }
    }
  }

  // ---------------------------------------------------------------- opening terms of one user

  function EffectiveLeverage(signalLeverage: int, settings: Option<Settings>): int {
    match settings
    case Some(s) =>
      if s.capLeverage && s.leverageCap.Some? && s.leverageCap.value < signalLeverage then s.leverageCap.value
      else signalLeverage
    case None => signalLeverage
  }

  function PlanFor(config: EngineConfig, settings: Option<Settings>, side: Side, entry: real, stopLoss: real,
                   signalLeverage: int, targets: seq<real>): Result<OpenPlan, string>
  {
    BuildDemoOpenPlan(side, entry, stopLoss, EffectiveLeverage(signalLeverage, settings), targets,
                      if settings.Some? then settings.value.margin else config.margin,
                      if settings.Some? then settings.value.riskModel else config.riskModel,
                      if settings.Some? then settings.value.roiPct else config.roiPct,
                      config.weights, config.maintenanceRate)
  }

  function SettingsOf(settings: map<int, Settings>, user: int): Option<Settings> {
    if user in settings then Some(settings[user]) else None
  }

  function TickConfig(config: EngineConfig, settings: Option<Settings>): Config {
    Config(if settings.Some? then settings.value.roiPct else config.roiPct, config.moveToBreakEven,
           config.maintenanceRate)
  }

  /** The leverage a user's trade is opened at: the smaller of the signal's and the cap in cap
      mode with a cap, else the signal's. */
  lemma LeverageInFields(signalLeverage: int, settings: Option<Settings>)
    ensures var l := EffectiveLeverage(signalLeverage, settings);
            && l <= signalLeverage
            && (settings.Some? && settings.value.capLeverage && settings.value.leverageCap.Some? ==>
                  && l <= settings.value.leverageCap.value
                  && (l == signalLeverage || l == settings.value.leverageCap.value))
            && (settings.None? || !settings.value.capLeverage || settings.value.leverageCap.None? ==>
                  l == signalLeverage)
  {
  }

  /** A user with settings opens and ticks on their own terms, any other on the engine's. */
  lemma TermsInFields(config: EngineConfig, settings: map<int, Settings>, user: int, side: Side, entry: real,
                      stopLoss: real, leverage: int, targets: seq<real>)
    ensures user in settings ==>
              var own := settings[user];
              && PlanFor(config, SettingsOf(settings, user), side, entry, stopLoss, leverage, targets)
                 == BuildDemoOpenPlan(side, entry, stopLoss,
                                      if own.capLeverage && own.leverageCap.Some?
                                      then if leverage <= own.leverageCap.value then leverage else own.leverageCap.value
                                      else leverage,
                                      targets, own.margin, own.riskModel, own.roiPct, config.weights,
                                      config.maintenanceRate)
              && TickConfig(config, SettingsOf(settings, user))
                 == Config(own.roiPct, config.moveToBreakEven, config.maintenanceRate)
    ensures user !in settings ==>
              && PlanFor(config, SettingsOf(settings, user), side, entry, stopLoss, leverage, targets)
                 == BuildDemoOpenPlan(side, entry, stopLoss, leverage, targets, config.margin, config.riskModel,
                                      config.roiPct, config.weights, config.maintenanceRate)
              && TickConfig(config, SettingsOf(settings, user))
                 == Config(config.roiPct, config.moveToBreakEven, config.maintenanceRate)
  {
    hide BuildDemoOpenPlan;
  }

  // ---------------------------------------------------------------- statistics

  datatype Kind = OpenRow | ClosedRow | WinRow | LossRow

  predicate IsKind(closing: Option<Closing>, kind: Kind) {
    match kind
    case OpenRow => closing.None?
    case ClosedRow => closing.Some?
    case WinRow => closing.Some? && closing.value.pnl > 0.0
    case LossRow => closing.Some? && closing.value.pnl <= 0.0
  }

  function CountRows(rows: seq<StatsRow>, kind: Kind): nat {
    if rows == [] then 0
    else CountRows(rows[..|rows| - 1], kind) + if IsKind(rows[|rows| - 1].closing, kind) then 1 else 0
  }

  function ComputeDemoStats(start: real, balance: real, rows: seq<StatsRow>): Stats {
    var closed, wins := CountRows(rows, ClosedRow), CountRows(rows, WinRow);
    CountsPartition(rows);
    var net := balance - start;
    Stats(start, balance, |rows|, CountRows(rows, OpenRow), wins, closed - wins, closed,
          if closed == 0 then 0.0 else wins as real / closed as real * 100.0,
          net, if start == 0.0 then 0.0 else net / start * 100.0)
  }

  /** Open and closed rows make up all rows; wins and losses make up the closed ones. */
  lemma {:induction false} CountsPartition(rows: seq<StatsRow>)
    ensures CountRows(rows, OpenRow) + CountRows(rows, ClosedRow) == |rows|
    ensures CountRows(rows, WinRow) + CountRows(rows, LossRow) == CountRows(rows, ClosedRow)
  {
    if rows != [] {
      CountsPartition(rows[..|rows| - 1]);
    }
  }

  function UserRows(trades: seq<Trade>, user: int): (rows: seq<StatsRow>)
    ensures |rows| <= |trades|
  {
    if trades == [] then []
    else
      var k := |trades| - 1;
      UserRows(trades[..k], user)
      + if trades[k].userId == user then [StatsRow(trades[k].signalId, trades[k].closing)] else []
  }

  ghost function RowsOfKind(trades: seq<Trade>, user: int, kind: Kind): set<nat> {
    set i: nat | i < |trades| && trades[i].userId == user && IsKind(trades[i].closing, kind)
  }

  ghost function Won(trades: seq<Trade>, user: int): set<nat> {
    set i: nat | i < |trades| && trades[i].userId == user
                 && trades[i].closing.Some? && trades[i].closing.value.pnl > 0.0
  }

  /** The report on a user's trades, counted in the stored rows. The rates are the numbers that
      give back the counts and the profit. */
  ghost predicate Reports(stats: Stats, start: real, balance: real, trades: seq<Trade>, user: int) {
    && stats.startBalance == start && stats.currentBalance == balance
    && stats.signalsTraded == |RowsOf(trades, user)|
    && stats.openCount == |set i: nat | i in RowsOf(trades, user) && trades[i].closing.None?|
    && stats.closedCount == |set i: nat | i in RowsOf(trades, user) && trades[i].closing.Some?|
    && stats.wins == |Won(trades, user)|
    && stats.losses == |set i: nat | i in RowsOf(trades, user) && trades[i].closing.Some? && i !in Won(trades, user)|
    && stats.closedCount == stats.wins + stats.losses
    && (if stats.closedCount == 0 then stats.winRatePct == 0.0
        else stats.winRatePct * stats.closedCount as real == 100.0 * stats.wins as real)
    && stats.netProfit == balance - start
    && (if start == 0.0 then stats.netProfitPct == 0.0 else stats.netProfitPct * start == 100.0 * (balance - start))
  }

  lemma {:induction false} RowsAreCounted(trades: seq<Trade>, user: int, kind: Kind)
    ensures |UserRows(trades, user)| == |RowsOf(trades, user)|
    ensures CountRows(UserRows(trades, user), kind) == |RowsOfKind(trades, user, kind)|
  {
    hide RowsOf, RowsOfKind, CountRows, IsKind;
    if trades == [] {
      NoRows(user, kind);
    } else {
      var k := |trades| - 1;
      var front, last := trades[..k], trades[k];
      RowsAreCounted(front, user, kind);
      RowsOneMore(front, last, user, kind);
      assert trades == front + [last];
      assert UserRows(front, user) + [] == UserRows(front, user);
      CountOneMore(UserRows(front, user), StatsRow(last.signalId, last.closing), kind);
    }
  }

  lemma RowsOneMore(front: seq<Trade>, last: Trade, user: int, kind: Kind)
    ensures |RowsOf(front + [last], user)| == |RowsOf(front, user)| + if last.userId == user then 1 else 0
    ensures |RowsOfKind(front + [last], user, kind)|
            == |RowsOfKind(front, user, kind)| + if last.userId == user && IsKind(last.closing, kind) then 1 else 0
  {
    hide IsKind;
    RowsGrow(front, last, user);
    KindsGrow(front, last, user, kind);
    var k := |front|;
    assert k !in RowsOf(front, user) && k !in RowsOfKind(front, user, kind);
  }

  lemma RowsGrow(front: seq<Trade>, last: Trade, user: int)
    ensures RowsOf(front + [last], user) == RowsOf(front, user) + if last.userId == user then {|front|} else {}
  {
  }

  lemma KindsGrow(front: seq<Trade>, last: Trade, user: int, kind: Kind)
    ensures RowsOfKind(front + [last], user, kind)
            == RowsOfKind(front, user, kind)
               + if last.userId == user && IsKind(last.closing, kind) then {|front|} else {}
  {
    hide IsKind;
  }

  lemma NoRows(user: int, kind: Kind)
    ensures RowsOf([], user) == {} && RowsOfKind([], user, kind) == {} && CountRows([], kind) == 0
  {
  }

  lemma CountOneMore(rows: seq<StatsRow>, row: StatsRow, kind: Kind)
    ensures CountRows(rows + [row], kind) == CountRows(rows, kind) + if IsKind(row.closing, kind) then 1 else 0
  {
    assert (rows + [row])[..|rows|] == rows;
  }

  lemma RateGivesBack(part: real, whole: real)
    requires whole != 0.0
    ensures part / whole * 100.0 * whole == 100.0 * part
  {
    var q := part / whole;
    assert q * whole == part;
    assert q * 100.0 * whole == 100.0 * (q * whole);
  }

  lemma KindsInFields(trades: seq<Trade>, user: int)
    ensures RowsOfKind(trades, user, OpenRow) == set i: nat | i in RowsOf(trades, user) && trades[i].closing.None?
    ensures RowsOfKind(trades, user, ClosedRow) == set i: nat | i in RowsOf(trades, user) && trades[i].closing.Some?
    ensures RowsOfKind(trades, user, WinRow) == Won(trades, user)
    ensures RowsOfKind(trades, user, LossRow)
            == set i: nat | i in RowsOf(trades, user) && trades[i].closing.Some? && i !in Won(trades, user)
  {
  }

  lemma StatsInRows(start: real, balance: real, trades: seq<Trade>, user: int)
    ensures Reports(ComputeDemoStats(start, balance, UserRows(trades, user)), start, balance, trades, user)
  {
    hide UserRows, CountRows, RowsOf, RowsOfKind, Won, IsKind;
    KindsInFields(trades, user);
    var rows := UserRows(trades, user);
    RowsAreCounted(trades, user, OpenRow);
    RowsAreCounted(trades, user, ClosedRow);
    RowsAreCounted(trades, user, WinRow);
    RowsAreCounted(trades, user, LossRow);
    CountsPartition(rows);
    var closed, wins := CountRows(rows, ClosedRow), CountRows(rows, WinRow);
    if closed != 0 {
      RateGivesBack(wins as real, closed as real);
    }
    if start != 0.0 {
      RateGivesBack(balance - start, start);
    }
  }

  // ---------------------------------------------------------------- the store

  datatype HandleStatus = Opened | Ignored | Retry

  datatype IgnoredReason =
    | MissingSignalId | SignalNotFound | SignalNotAccepted | NoDemoAccounts | DuplicateOpenTrade
    | DemoOpenPlanRejected | NoEligibleAccounts

  datatype HandleResult = HandleResult(status: HandleStatus, openedCount: nat, ignoredReason: Option<IgnoredReason>)

  class DemoRepository {
    var accounts: map<int, Account>
    var trades: seq<Trade>

    /** Balances follow the closed-trade history. */
    ghost predicate Books()
      reads this
    {
      && (forall i :: 0 <= i < |trades| ==> trades[i].userId in accounts)
      && (forall user :: user in accounts ==>
            accounts[user].balance == accounts[user].start + ClosedPnl(trades, user))
    }

    /** And no user has two open trades on one signal. */
    ghost predicate Valid()
      reads this
    {
      Books() && OneOpenEach(trades)
    }

    constructor ()
      ensures Valid() && accounts == map[] && trades == []
    {
      accounts, trades := map[], [];
    }

    method GetOrCreateDemoAccount(user: int, start: real) returns (account: Account)
      requires Valid()
      modifies this
      ensures Valid() && trades == old(trades)
      ensures accounts == if user in old(accounts) then old(accounts) else old(accounts)[user := Account(start, start)]
      ensures account == accounts[user]
    {
      if user !in accounts {
        NoTradesNoProfit(trades, user);
        accounts := accounts[user := Account(start, start)];
      }
      account := accounts[user];
    }

    /** Stores a new open trade at the signal's current leverage. It does not look for an open
        trade of that user and signal; only when there is none does each keep at most one. */
    method CreateOpenDemoTrade(user: int, signal: Signal, plan: OpenPlan)
      requires Books() && user in accounts
      modifies this`trades
      ensures Books()
      ensures OneOpenEach(trades) <==> old(OneOpenEach(trades)) && !old(HasOpen(trades, user, signal.id))
      ensures trades == old(trades) + [OpenTrade(user, signal.id, signal.symbol, signal.side, signal.entry,
                                                 signal.stopLoss, signal.leverage, plan)]
      ensures |trades| == |old(trades)| + 1 && trades[|old(trades)|].userId == user
      ensures HasOpen(trades, user, signal.id)
    {
      var t := OpenTrade(user, signal.id, signal.symbol, signal.side, signal.entry, signal.stopLoss,
                         signal.leverage, plan);
      forall u | u in accounts
        ensures ClosedPnl(trades + [t], u) == ClosedPnl(trades, u)
      {
        ClosedPnlAppend(trades, t, u);
      }
      OpenIsFound(trades, t, signal.id);
      OneOpenAfterAppend(trades, t);
      trades := trades + [t];
    }

    /** Opens one trade for each account that has none on this signal and whose plan is accepted.
        The signal's leverage is borrowed for each user and given back. */
    method OpenForAccounts(signal: Signal, config: EngineConfig, settings: map<int, Settings>)
      returns (openedCount: nat, duplicates: nat, rejected: nat)
      requires Valid()
      modifies this`trades, signal`leverage
      ensures Valid() && signal.leverage == old(signal.leverage)
      ensures openedCount + duplicates + rejected == |accounts|
      ensures openedCount > 0 <==>
                exists user :: user in accounts && CanOpen(old(trades), signal, config, settings, user)
      ensures duplicates == |accounts| <==> forall user :: user in accounts ==> HasOpen(old(trades), user, signal.id)
      ensures old(trades) <= trades && |trades| == |old(trades)| + openedCount
      ensures forall i :: |old(trades)| <= i < |trades| ==>
                OpenedOnSignal(old(trades), trades[i], signal, config, settings)
      ensures forall user :: user in accounts && SignalPlan(signal, config, settings, user).Success? ==>
                HasOpen(trades, user, signal.id)
    {
      hide PlanFor, OpenTrade, HasOpen, ClosedPnl, OneOpenEach, EffectiveLeverage, CanOpen;
      openedCount, duplicates, rejected := 0, 0, 0;
      ghost var before, leverage := trades, signal.leverage;
      var todo := accounts.Keys;
      while todo != {}
        invariant Valid() && signal.leverage == leverage && todo <= accounts.Keys
        invariant openedCount + duplicates + rejected + |todo| == |accounts.Keys|
        invariant before <= trades && |trades| == |before| + openedCount
        invariant openedCount > 0 <==> exists user :: user in accounts && user !in todo
                                                      && CanOpen(before, signal, config, settings, user)
        invariant openedCount + rejected == 0 <==>
                    forall user :: user in accounts && user !in todo ==> HasOpen(before, user, signal.id)
        invariant forall i :: |before| <= i < |trades| ==> OpenedOnSignal(before, trades[i], signal, config, settings)
        invariant forall i :: |before| <= i < |trades| ==> trades[i].userId !in todo
        invariant forall user :: user in accounts && user !in todo
                                 && SignalPlan(signal, config, settings, user).Success? ==>
                                   HasOpen(trades, user, signal.id)
        decreases todo
      {
        SomeElement(todo);
        var user :| user in todo;
        todo := todo - {user};
        OpenBefore(before, trades, user, signal.id);
        NothingOpenIff(before, signal, config, settings, user);
        if HasOpen(trades, user, signal.id) {
          duplicates := duplicates + 1;
        } else {
          var plan := PlanFor(config, SettingsOf(settings, user), signal.side, signal.entry, signal.stopLoss,
                              signal.leverage, signal.targets);
          if plan.Failure? {
            rejected := rejected + 1;
          } else {
            var original := signal.leverage;
            signal.leverage := EffectiveLeverage(signal.leverage, SettingsOf(settings, user));
            ghost var previous := trades;
            CreateOpenDemoTrade(user, signal, plan.value);
            signal.leverage := original;
            openedCount := openedCount + 1;
            forall u | HasOpen(previous, u, signal.id)
              ensures HasOpen(trades, u, signal.id)
            {
              StillThere(previous, trades, u, signal.id);
            }
          }
        }
      }
    }

    /** The handler's answer to one payload, whose signal may be missing, unknown or not accepted. */
    method HandleSignalCreated(payloadId: Option<int>, signal: Signal?, config: EngineConfig,
                               settings: map<int, Settings>) returns (r: HandleResult)
      requires Valid()
      modifies this`trades, if signal == null then {} else {signal}
      ensures Valid() && (signal != null ==> signal.leverage == old(signal.leverage))
      ensures old(trades) <= trades && |trades| == |old(trades)| + r.openedCount
      ensures r.status == Opened <==> r.openedCount > 0
      ensures payloadId.None? ==> r == HandleResult(Ignored, 0, Some(MissingSignalId))
      ensures payloadId.Some? && signal == null ==> r == HandleResult(Retry, 0, Some(SignalNotFound))
      ensures payloadId.Some? && signal != null && !signal.accepted ==>
                r == HandleResult(Ignored, 0, Some(SignalNotAccepted))
      ensures payloadId.Some? && signal != null && signal.accepted ==>
                && (accounts == map[] <==> r == HandleResult(Ignored, 0, Some(NoDemoAccounts)))
                && (r.status == Opened <==>
                      exists user :: user in accounts && CanOpen(old(trades), signal, config, settings, user))
                && (r.ignoredReason == Some(DuplicateOpenTrade) <==>
                      accounts != map[] && forall user :: user in accounts ==> HasOpen(old(trades), user, signal.id))
                && r.status != Retry && r.ignoredReason != Some(NoEligibleAccounts)
                && (r.status == Opened ==> r.ignoredReason.None?)
                && (forall i :: |old(trades)| <= i < |trades| ==>
                      OpenedOnSignal(old(trades), trades[i], signal, config, settings))
                && (forall user :: user in accounts && SignalPlan(signal, config, settings, user).Success? ==>
                      HasOpen(trades, user, signal.id))
    {
      hide PlanFor, OpenTrade, HasOpen, ClosedPnl, OneOpenEach, EffectiveLeverage, CanOpen, OpenedOnSignal;
      if payloadId.None? {
        return HandleResult(Ignored, 0, Some(MissingSignalId));
      }
      if signal == null {
        return HandleResult(Retry, 0, Some(SignalNotFound));
      }
      if !signal.accepted {
        return HandleResult(Ignored, 0, Some(SignalNotAccepted));
      }
      if accounts == map[] {
        assert forall user :: user !in accounts;
        return HandleResult(Ignored, 0, Some(NoDemoAccounts));
      }
      var openedCount, duplicates, rejected := OpenForAccounts(signal, config, settings);
      if openedCount > 0 {
        return HandleResult(Opened, openedCount, None);
      }
      var reason := NoEligibleAccounts;
      if duplicates == |accounts| {
        reason := DuplicateOpenTrade;
      } else if rejected > 0 {
        reason := DemoOpenPlanRejected;
      }
      return HandleResult(Ignored, 0, Some(reason));
    }

    /** One tick for one stored trade, with its owner's balance. */
    method TickTrade(i: nat, price: real, config: EngineConfig, settings: map<int, Settings>)
      returns (ok: bool, closed: bool)
      requires Valid() && i < |trades| && trades[i].closing.None?
      modifies this
      ensures Valid() && accounts.Keys == old(accounts.Keys)
      ensures forall user :: user in accounts ==> accounts[user].start == old(accounts)[user].start
      ensures var next := ApplyTick(TickConfig(config, SettingsOf(settings, old(trades[i].userId))), old(trades[i]),
                                    price);
              && ok == next.Success?
              && trades == (if ok then old(trades)[i := next.value] else old(trades))
              && closed == (ok && next.value.closing.Some?)
    {
      hide ApplyTick, ClosedPnl, OneOpenEach, TickConfig;
      var t := trades[i];
      var next := ApplyTick(TickConfig(config, SettingsOf(settings, t.userId)), t, price);
      if next.Failure? {
        return false, false;
      }
      TickKeepsIdentity(TickConfig(config, SettingsOf(settings, t.userId)), t, price);
      forall u | u in accounts
        ensures ClosedPnl(trades[i := next.value], u)
                == ClosedPnl(trades, u)
                   + if t.userId == u && next.value.closing.Some? then next.value.closing.value.pnl else 0.0
      {
        ClosedPnlUpdate(trades, i, next.value, u);
      }
      OneOpenAfterUpdate(trades, i, next.value);
      if next.value.closing.Some? {
        var account := accounts[t.userId];
        accounts := accounts[t.userId := account.(balance := account.balance + next.value.closing.value.pnl)];
      }
      trades := trades[i := next.value];
      return true, next.value.closing.Some?;
    }

    /** One tick for every open trade of the symbol. A ValueError rolls the whole session back. */
    method HandleMarkPrice(symbol: string, price: real, config: EngineConfig, settings: map<int, Settings>)
      returns (ok: bool, closedCount: nat)
      requires Valid()
      modifies this
      ensures Valid() && accounts.Keys == old(accounts.Keys)
      ensures !ok ==> trades == old(trades) && accounts == old(accounts)
      ensures ok ==> |trades| == |old(trades)|
                     && forall i :: 0 <= i < |trades| ==>
                          Ticked(old(trades)[i], trades[i], symbol, price, config, settings)
      ensures ok ==> closedCount == |ClosedNow(old(trades), trades, |trades|)|
      ensures forall user :: user in accounts ==> accounts[user].start == old(accounts)[user].start
    {
      hide ApplyTick, ClosedPnl, OneOpenEach, TickConfig, SettingsOf;
      var savedAccounts, savedTrades := accounts, trades;
      closedCount := 0;
      for i := 0 to |savedTrades|
        invariant Valid() && accounts.Keys == savedAccounts.Keys
        invariant |trades| == |savedTrades|
        invariant forall j :: 0 <= j < i ==> Ticked(savedTrades[j], trades[j], symbol, price, config, settings)
        invariant closedCount == |ClosedNow(savedTrades, trades, i)|
        invariant forall j :: i <= j < |trades| ==> trades[j] == savedTrades[j]
        invariant forall user :: user in accounts ==> accounts[user].start == savedAccounts[user].start
      {
        ghost var before := trades;
        if trades[i].closing.None? && trades[i].symbol == symbol {
          var applied, closed := TickTrade(i, price, config, settings);
          if !applied {
            accounts, trades := savedAccounts, savedTrades;
            return false, 0;
          }
          closedCount := closedCount + if closed then 1 else 0;
        }
        OneMoreClosed(savedTrades, before, trades, i);
      }
      ok := true;
    }

    method ResetDemoForUser(user: int) returns (deleted: nat)
      requires Valid()
      modifies this
      ensures Valid() && OthersLeft(old(trades), user, trades)
      ensures deleted == |old(trades)| - |trades|
      ensures accounts.Keys == old(accounts.Keys)
      ensures forall u :: u in accounts ==>
                accounts[u] == if u == user then Account(old(accounts)[u].start, old(accounts)[u].start)
                               else old(accounts)[u]
    {
      WithoutUserRows(trades, user);
      WithoutUserIsOthers(trades, user);
      forall u | u in accounts && u != user
        ensures ClosedPnl(WithoutUser(trades, user), u) == ClosedPnl(trades, u)
      {
        WithoutUserKeepsOthers(trades, user, u);
      }
      NoTradesNoProfit(WithoutUser(trades, user), user);
      deleted := |trades| - |WithoutUser(trades, user)|;
      trades := WithoutUser(trades, user);
      if user in accounts {
        accounts := accounts[user := accounts[user].(balance := accounts[user].start)];
      }
    }

    /** The reported net profit is the sum over the user's closed trades. */
    method GetDemoStats(user: int) returns (stats: Stats)
      requires Valid()
      ensures user in accounts ==>
                && Reports(stats, accounts[user].start, accounts[user].balance, trades, user)
                && stats.netProfit == ClosedPnl(trades, user)
      ensures user !in accounts ==> stats == Stats(0.0, 0.0, 0, 0, 0, 0, 0, 0.0, 0.0, 0.0)
    {
      hide Reports;
      if user in accounts {
        stats := ComputeDemoStats(accounts[user].start, accounts[user].balance, UserRows(trades, user));
        StatsInRows(accounts[user].start, accounts[user].balance, trades, user);
      } else {
        assert forall i :: 0 <= i < |trades| ==> trades[i].userId != user;
        NoRowsWithoutTrades(trades, user);
        stats := ComputeDemoStats(0.0, 0.0, UserRows(trades, user));
      }
    }
  }

  lemma {:induction false} NoRowsWithoutTrades(trades: seq<Trade>, user: int)
    requires forall i :: 0 <= i < |trades| ==> trades[i].userId != user
    ensures UserRows(trades, user) == []
  {
    if trades != [] {
      NoRowsWithoutTrades(trades[..|trades| - 1], user);
    }
  }

  /** A stored row before and after a tick. */
  ghost predicate Ticked(before: Trade, after: Trade, symbol: string, price: real, config: EngineConfig,
                         settings: map<int, Settings>)
  {
    if before.closing.None? && before.symbol == symbol then
      ApplyTick(TickConfig(config, SettingsOf(settings, before.userId)), before, price) == Success(after)
    else
      after == before
  }

  /** Which of the first n rows have been closed. */
  ghost function ClosedNow(before: seq<Trade>, after: seq<Trade>, n: nat): set<nat>
    requires n <= |before| == |after|
  {
    set i: nat | i < n && before[i].closing.None? && after[i].closing.Some?
  }

  lemma OneMoreClosed(start: seq<Trade>, before: seq<Trade>, after: seq<Trade>, n: nat)
    requires n < |start| == |before| == |after| && forall i :: 0 <= i < n ==> before[i] == after[i]
    ensures |ClosedNow(start, after, n + 1)|
            == |ClosedNow(start, before, n)|
               + if start[n].closing.None? && after[n].closing.Some? then 1 else 0
  {
    var one := if start[n].closing.None? && after[n].closing.Some? then {n} else {};
    assert ClosedNow(start, after, n + 1) == ClosedNow(start, before, n) + one;
  }

  lemma TickKeepsIdentity(cfg: Config, t: Trade, price: real)
    requires ApplyTick(cfg, t, price).Success?
    ensures var next := ApplyTick(cfg, t, price).value;
            && next.userId == t.userId && next.signalId == t.signalId && next.symbol == t.symbol
            && (t.closing.Some? ==> next == t)
  {
    hide EvaluatePriceTick, PlansFromTrade;
  }

  lemma OneOpenAfterAppend(trades: seq<Trade>, t: Trade)
    requires t.closing.None?
    ensures OneOpenEach(trades + [t]) <==> OneOpenEach(trades) && !HasOpen(trades, t.userId, t.signalId)
  {
    var longer := trades + [t];
    assert forall i :: 0 <= i < |trades| ==> longer[i] == trades[i];
    assert OpenFor(longer[|trades|], t.userId, t.signalId);
    if OneOpenEach(longer) {
      forall i, j, user, signalId | 0 <= i < j < |trades| && OpenFor(trades[i], user, signalId)
        ensures !OpenFor(trades[j], user, signalId)
      {
        assert OpenFor(longer[i], user, signalId) ==> !OpenFor(longer[j], user, signalId);
      }
    }
  }

  lemma OneOpenAfterUpdate(trades: seq<Trade>, k: nat, t: Trade)
    requires k < |trades| && OneOpenEach(trades)
    requires trades[k].closing.None? && t.userId == trades[k].userId && t.signalId == trades[k].signalId
    ensures OneOpenEach(trades[k := t])
  {
    var updated := trades[k := t];
    forall i, j, user, signalId | 0 <= i < j < |updated| && OpenFor(updated[i], user, signalId)
      ensures !OpenFor(updated[j], user, signalId)
    {
      assert OpenFor(trades[i], user, signalId);
      assert !OpenFor(trades[j], user, signalId);
    }
  }

  ghost function SignalPlan(signal: Signal, config: EngineConfig, settings: map<int, Settings>, user: int)
    : Result<OpenPlan, string>
    reads signal
  {
    PlanFor(config, SettingsOf(settings, user), signal.side, signal.entry, signal.stopLoss, signal.leverage,
            signal.targets)
  }

  /** The user has no open trade on the signal and their plan is accepted. */
  ghost predicate CanOpen(trades: seq<Trade>, signal: Signal, config: EngineConfig, settings: map<int, Settings>,
                          user: int)
    reads signal
  {
    && (forall i :: 0 <= i < |trades| && trades[i].userId == user && trades[i].signalId == signal.id ==>
          trades[i].closing.Some?)
    && SignalPlan(signal, config, settings, user).Success?
  }

  ghost predicate OpenedOnSignal(before: seq<Trade>, t: Trade, signal: Signal, config: EngineConfig,
                                 settings: map<int, Settings>)
    reads signal
  {
    var plan := SignalPlan(signal, config, settings, t.userId);
    && !HasOpen(before, t.userId, signal.id) && plan.Success?
    && t == OpenTrade(t.userId, signal.id, signal.symbol, signal.side, signal.entry, signal.stopLoss,
                      EffectiveLeverage(signal.leverage, SettingsOf(settings, t.userId)), plan.value)
  }

  lemma SomeElement(s: set<int>)
    requires s != {}
    ensures exists x :: x in s
  {
    assert (forall x :: x !in s) ==> s == {};
  }

  lemma NothingOpenIff(trades: seq<Trade>, signal: Signal, config: EngineConfig, settings: map<int, Settings>,
                       user: int)
    ensures CanOpen(trades, signal, config, settings, user)
            <==> !HasOpen(trades, user, signal.id) && SignalPlan(signal, config, settings, user).Success?
  {
  }

  /** Trades opened for other users do not make this one a duplicate. */
  lemma OpenBefore(before: seq<Trade>, trades: seq<Trade>, user: int, signalId: int)
    requires before <= trades && forall i :: |before| <= i < |trades| ==> trades[i].userId != user
    ensures HasOpen(trades, user, signalId) <==> HasOpen(before, user, signalId)
  {
    assert forall i :: 0 <= i < |before| ==> before[i] == trades[i];
    if HasOpen(trades, user, signalId) {
      var i :| 0 <= i < |trades| && OpenFor(trades[i], user, signalId);
      assert OpenFor(before[i], user, signalId);
    }
  }

  lemma StillThere(before: seq<Trade>, trades: seq<Trade>, user: int, signalId: int)
    requires before <= trades && HasOpen(before, user, signalId)
    ensures HasOpen(trades, user, signalId)
  {
    var i :| 0 <= i < |before| && OpenFor(before[i], user, signalId);
    assert OpenFor(trades[i], user, signalId);
  }

  lemma OpenIsFound(before: seq<Trade>, t: Trade, signalId: int)
    requires t.closing.None? && t.signalId == signalId
    ensures HasOpen(before + [t], t.userId, signalId)
  {
    assert OpenFor((before + [t])[|before|], t.userId, signalId);
  }
}
