/**
 The trade and position ledger. Several writers share one position row per (bot, symbol), and that row is reused
 by the next trade on the same pair. Columns that no writer here depends on (orders, prices of the trade, meta) are
 left out. Amounts and instants are exact reals.
 */
module Ledger {
  import opened Common
  import Lifecycle

  datatype Key = Key(bot: string, symbol: string)

  datatype Trade = Trade(key: Key, status: string, closeReason: Option<string>, fees: Option<real>)

  datatype Monitor = Monitor(best: Option<real>, mfe: Option<real>, mae: Option<real>, runningPnl: real)

  datatype Position = Position(
    tradeId: nat,
    remaining: real,
    slPrice: Option<real>,
    slType: Option<string>,
    monitor: Monitor,
    tpHit: bool,
    trailingActive: bool,
    updatedAt: real)

  /** `nextId` is the sequence behind `trades.id`; a rolled-back insert does not give its number back. */
  datatype Tables = Tables(trades: map<nat, Trade>, positions: map<Key, Position>, nextId: nat)

  // ----- the writers of a position row -----

  /** `tradeId` is the trade the writer has in mind. */
  datatype Write =
    | Fill(tradeId: nat, delta: real, newSlType: Option<string>, at: real)
    | Tick(tradeId: nat, monitor: Monitor, at: real)
    | MoveSl(tradeId: nat, price: real, slType: string, at: real)

  /** A fill is guarded by the trade it belongs to; a tick and a stop-loss move are not. */
  function Apply(row: Position, w: Write): Position {
    match w
    case Fill(id, delta, newSlType, at) =>
      if id != row.tradeId then row
      else row.(remaining := row.remaining - delta,
                slType := if newSlType.Some? then newSlType else row.slType,
                updatedAt := at)
    case Tick(_, monitor, at) => row.(monitor := monitor, updatedAt := at)
    case MoveSl(_, price, slType, at) => row.(slPrice := Some(price), slType := Some(slType), updatedAt := at)
  }

  function ApplyAll(row: Position, ws: seq<Write>): Position {
    if ws == [] then row else Apply(ApplyAll(row, ws[..|ws| - 1]), ws[|ws| - 1])
  }

  /** The writes of one kind, in order. */
  function Fills(ws: seq<Write>): seq<Write> {
    if ws == [] then []
    else
      var before := Fills(ws[..|ws| - 1]);
      if ws[|ws| - 1].Fill? then before + [ws[|ws| - 1]] else before
  }

  function Ticks(ws: seq<Write>): (r: seq<Write>)
    ensures forall w | w in r :: w.Tick?
  {
    if ws == [] then []
    else
      var before := Ticks(ws[..|ws| - 1]);
      if ws[|ws| - 1].Tick? then before + [ws[|ws| - 1]] else before
  }

  function Moves(ws: seq<Write>): (r: seq<Write>)
    ensures forall w | w in r :: w.MoveSl?
  {
    if ws == [] then []
    else
      var before := Moves(ws[..|ws| - 1]);
      if ws[|ws| - 1].MoveSl? then before + [ws[|ws| - 1]] else before
  }

  /** The quantity of the fills that carry this trade. */
  function Filled(tradeId: nat, ws: seq<Write>): real {
    if ws == [] then 0.0
    else
      var w := ws[|ws| - 1];
      Filled(tradeId, ws[..|ws| - 1]) + (if w.Fill? && w.tradeId == tradeId then w.delta else 0.0)
  }

  lemma {:induction false} FilledByFills(tradeId: nat, ws: seq<Write>)
    ensures Filled(tradeId, Fills(ws)) == Filled(tradeId, ws)
  {
    if ws != [] {
      FilledByFills(tradeId, ws[..|ws| - 1]);
      var before := Fills(ws[..|ws| - 1]);
      assert (before + [ws[|ws| - 1]])[..|before|] == before;
    }
  }

  /** Whether the write takes effect on a row of this trade. */
  predicate Counts(tradeId: nat, w: Write) {
    w.Fill? ==> w.tradeId == tradeId
  }

  /** The stop-loss types that the schedule writes to a row of this trade, in order, by fills and moves alike. */
  function SlTypes(tradeId: nat, ws: seq<Write>): seq<string> {
    if ws == [] then []
    else
      var before, w := SlTypes(tradeId, ws[..|ws| - 1]), ws[|ws| - 1];
      match w
      case Fill(id, _, newSlType, _) => if id == tradeId && newSlType.Some? then before + [newSlType.value] else before
      case Tick(_, _, _) => before
      case MoveSl(_, _, slType, _) => before + [slType]
  }

  /** The times of the writes that take effect, in order. */
  function Stamps(tradeId: nat, ws: seq<Write>): seq<real> {
    if ws == [] then []
    else
      var before, w := Stamps(tradeId, ws[..|ws| - 1]), ws[|ws| - 1];
      if Counts(tradeId, w) then before + [w.at] else before
  }

  /**
   Any interleaving of the three writers: the remaining quantity is what was inserted less the counted fills, the
   monitor columns are those of the last tick, the stop price is that of the last move, the stop type is that of the
   last move or of the last counted fill that sets it, whichever is later, and the row is dated by its last write.
   */
  lemma {:induction false} ColumnsByWriter(row: Position, ws: seq<Write>)
    ensures
      var end := ApplyAll(row, ws);
      var types, stamps := SlTypes(row.tradeId, ws), Stamps(row.tradeId, ws);
      && end.tradeId == row.tradeId && end.tpHit == row.tpHit && end.trailingActive == row.trailingActive
      && end.remaining + Filled(row.tradeId, ws) == row.remaining
      && end.monitor == (if Ticks(ws) == [] then row.monitor else Ticks(ws)[|Ticks(ws)| - 1].monitor)
      && end.slPrice == (if Moves(ws) == [] then row.slPrice else Some(Moves(ws)[|Moves(ws)| - 1].price))
      && end.slType == (if types == [] then row.slType else Some(types[|types| - 1]))
      && end.updatedAt == (if stamps == [] then row.updatedAt else stamps[|stamps| - 1])
  {
    OwnColumns(row, ws);
    SharedColumns(row, ws);
  }

  lemma {:induction false} OwnColumns(row: Position, ws: seq<Write>)
    ensures
      var end := ApplyAll(row, ws);
      && end.tradeId == row.tradeId && end.tpHit == row.tpHit && end.trailingActive == row.trailingActive
      && end.remaining + Filled(row.tradeId, ws) == row.remaining
      && end.monitor == (if Ticks(ws) == [] then row.monitor else Ticks(ws)[|Ticks(ws)| - 1].monitor)
      && end.slPrice == (if Moves(ws) == [] then row.slPrice else Some(Moves(ws)[|Moves(ws)| - 1].price))
  {
    if ws != [] {
      OwnColumns(row, ws[..|ws| - 1]);
    }
  }

  lemma {:induction false} SharedColumns(row: Position, ws: seq<Write>)
    ensures
      var end := ApplyAll(row, ws);
      var types, stamps := SlTypes(row.tradeId, ws), Stamps(row.tradeId, ws);
      && end.tradeId == row.tradeId
      && end.slType == (if types == [] then row.slType else Some(types[|types| - 1]))
      && end.updatedAt == (if stamps == [] then row.updatedAt else stamps[|stamps| - 1])
  {
    if ws != [] {
      SharedColumns(row, ws[..|ws| - 1]);
    }
  }

  /** Two schedules with the same fills, the same ticks and the same moves agree on those columns. */
  lemma InterleavingIrrelevant(row: Position, ws: seq<Write>, vs: seq<Write>)
    requires Fills(ws) == Fills(vs) && Ticks(ws) == Ticks(vs) && Moves(ws) == Moves(vs)
    ensures
      var a, b := ApplyAll(row, ws), ApplyAll(row, vs);
      a.remaining == b.remaining && a.monitor == b.monitor && a.slPrice == b.slPrice
  {
    ColumnsByWriter(row, ws);
    ColumnsByWriter(row, vs);
    FilledByFills(row.tradeId, ws);
    FilledByFills(row.tradeId, vs);
  }

  /**
   The stop-loss type is the exception: fills and moves both write it. A counted fill and a move commute on it
   exactly when the fill leaves it alone or writes what the move writes.
   */
  lemma SlTypeCommutes(row: Position, fill: Write, move: Write)
    requires fill.Fill? && move.MoveSl?
    ensures Apply(Apply(row, fill), move).slType == Apply(Apply(row, move), fill).slType
       <==> !(fill.tradeId == row.tradeId && fill.newSlType.Some? && fill.newSlType.value != move.slType)
  {
  }

  // ----- the tables -----

  function InsertTrade(t: Tables, key: Key): Tables {
    t.(trades := t.trades[t.nextId := Trade(key, "open", None, None)], nextId := t.nextId + 1)
  }

  /** UPDATE ... WHERE id; a fee is written only when one is passed. */
  function CloseTrade(t: Tables, id: nat, reason: string, fee: Option<real>): Tables {
    if id !in t.trades then t
    else
      var trade := t.trades[id];
      t.(trades := t.trades[id := trade.(status := "closed", closeReason := Some(reason),
                                       fees := if fee.Some? then fee else trade.fees)])
  }

  function AddFee(t: Tables, id: nat, delta: real): Tables {
    if id !in t.trades then t
    else
      var trade := t.trades[id];
      t.(trades := t.trades[id := trade.(fees := Some((if trade.fees.Some? then trade.fees.value else 0.0) + delta))])
  }

  function WriteRow(t: Tables, key: Key, w: Write): Tables {
    if key !in t.positions then t else t.(positions := t.positions[key := Apply(t.positions[key], w)])
  }

  function NewRow(tradeId: nat, remaining: real, slPrice: Option<real>, slType: Option<string>, at: real): Position {
    Position(tradeId, remaining, slPrice, slType, Monitor(None, None, None, 0.0), false, false, at)
  }

  class LedgerDb {
    var trades: map<nat, Trade>
    var positions: map<Key, Position>
    var nextId: nat

    function Abs(): Tables
      reads this
    {
      Tables(trades, positions, nextId)
    }

    constructor ()
      ensures Abs() == Tables(map[], map[], 0)
    {
      trades, positions, nextId := map[], map[], 0;
    }

    method InsertTradeRow(key: Key) returns (id: nat)
      modifies this
      ensures id == old(nextId) && Abs() == InsertTrade(old(Abs()), key)
      ensures trades == old(trades)[id := Trade(key, "open", None, None)] && nextId == id + 1
    {
      id := nextId;
      trades := trades[id := Trade(key, "open", None, None)];
      nextId := nextId + 1;
    }

    /** The primary key refuses a second row for the pair. */
    method InsertPositionState(key: Key, row: Position) returns (ok: bool)
      modifies this`positions
      ensures ok == (key !in old(positions))
      ensures positions == if ok then old(positions)[key := row] else old(positions)
    {
      ok := key !in positions;
      if ok {
        positions := positions[key := row];
      }
    }

    /** Returns how many rows were updated; zero tells the caller that the row belongs to another trade. */
    method UpdatePositionStateAfterFill(key: Key, tradeId: nat, delta: real, newSlType: Option<string>, at: real)
      returns (updated: nat)
      modifies this`positions
      ensures Abs() == WriteRow(old(Abs()), key, Fill(tradeId, delta, newSlType, at))
      ensures updated == if key in old(positions) && old(positions)[key].tradeId == tradeId then 1 else 0
      ensures updated == 0 ==> positions == old(positions)
      ensures updated == 1 ==>
                positions == old(positions)[key := old(positions)[key].(
                  remaining := old(positions)[key].remaining - delta,
                  slType := if newSlType.None? then old(positions)[key].slType else newSlType,
                  updatedAt := at)]
    {
      if key !in positions || positions[key].tradeId != tradeId {
        assert key in positions ==> positions[key := positions[key]] == positions;
        return 0;
      }
      var row := positions[key];
      if newSlType.None? {
        row := row.(remaining := row.remaining - delta, updatedAt := at);
      } else {
        row := row.(remaining := row.remaining - delta, slType := newSlType, updatedAt := at);
      }
      positions := positions[key := row];
      return 1;
    }

    /** The statement does not mention the trade `meant`. */
    method UpdatePositionStateMonitorTick(key: Key, monitor: Monitor, at: real, ghost meant: nat)
      modifies this`positions
      ensures Abs() == WriteRow(old(Abs()), key, Tick(meant, monitor, at))
      ensures key in old(positions) ==>
                positions == old(positions)[key := old(positions)[key].(monitor := monitor, updatedAt := at)]
    {
      if key in positions {
        positions := positions[key := positions[key].(monitor := monitor, updatedAt := at)];
      }
    }

    /** Nor does this one. */
    method UpdatePositionStateSl(key: Key, price: real, slType: string, at: real, ghost meant: nat)
      modifies this`positions
      ensures Abs() == WriteRow(old(Abs()), key, MoveSl(meant, price, slType, at))
      ensures key in old(positions) ==>
                positions == old(positions)[key := old(positions)[key].(
                  slPrice := Some(price), slType := Some(slType), updatedAt := at)]
    {
      if key in positions {
        positions := positions[key := positions[key].(slPrice := Some(price), slType := Some(slType), updatedAt := at)];
      }
    }

    method UpdateTradeFeesIncremental(id: nat, delta: real)
      modifies this`trades
      ensures Abs() == AddFee(old(Abs()), id, delta)
      ensures id in old(trades) ==>
                trades[id].fees == Some(delta + if old(trades)[id].fees.None? then 0.0 else old(trades)[id].fees.value)
    {
      if id in trades {
        var paid := if trades[id].fees.Some? then trades[id].fees.value else 0.0;
        trades := trades[id := trades[id].(fees := Some(paid + delta))];
      }
    }

    method UpdateTradeClose(id: nat, reason: string, fee: Option<real>)
      modifies this`trades
      ensures Abs() == CloseTrade(old(Abs()), id, reason, fee)
      ensures id in old(trades) ==>
                trades == old(trades)[id := Trade(old(trades)[id].key, "closed", Some(reason),
                                                  if fee.None? then old(trades)[id].fees else fee)]
    {
      if id in trades {
        var trade := trades[id].(status := "closed", closeReason := Some(reason));
        if fee.Some? {
          trade := trade.(fees := fee);
        }
        trades := trades[id := trade];
      }
    }

    method DeletePositionState(key: Key)
      modifies this`positions
      ensures positions == old(positions) - {key}
    {
      positions := positions - {key};
    }

    /** The placement transaction: both rows or neither. */
    method OpenTx(key: Key, remaining: real, slPrice: Option<real>, slType: Option<string>, at: real) returns (ok: bool)
      modifies this
      ensures Abs() == Step(old(Abs()), Open(key, remaining, slPrice, slType, at))
      ensures trades == if ok then old(trades)[old(nextId) := Trade(key, "open", None, None)] else old(trades)
      ensures ok ==>
                positions == old(positions)[key := Position(old(nextId), remaining, slPrice, slType,
                                                            Monitor(None, None, None, 0.0), false, false, at)]
      ensures !ok ==> positions == old(positions)
      ensures ok == (key !in old(positions))
    {
      var saved := trades;
      var id := InsertTradeRow(key);
      ok := InsertPositionState(key, NewRow(id, remaining, slPrice, slType, at));
      if !ok {
        trades := saved;
      }
    }

    /** The close transaction: the trade by id, the row by pair. */
    method CloseTx(id: nat, key: Key, reason: string, fee: Option<real>)
      modifies this
      ensures Abs() == Step(old(Abs()), Close(id, key, reason, fee))
      ensures positions == old(positions) - {key}
      ensures id in old(trades) ==>
                trades == old(trades)[id := Trade(old(trades)[id].key, "closed", Some(reason),
                                                  if fee.None? then old(trades)[id].fees else fee)]
    {
      UpdateTradeClose(id, reason, fee);
      DeletePositionState(key);
    }
  }

  // ----- runs of transactions -----

  datatype Event =
    | Open(key: Key, remaining: real, slPrice: Option<real>, slType: Option<string>, at: real)
    | Emergency(key: Key)
    | Close(id: nat, key: Key, reason: string, fee: Option<real>)
    | Update(key: Key, write: Write)
    | Fee(id: nat, delta: real)

  function Step(t: Tables, e: Event): Tables {
    match e
    case Open(key, remaining, slPrice, slType, at) =>
      if key in t.positions then t.(nextId := t.nextId + 1)
      else
        var placed := InsertTrade(t, key);
        placed.(positions := t.positions[key := NewRow(t.nextId, remaining, slPrice, slType, at)])
    case Emergency(key) =>
      // A placement whose stop could not be set: the trade is born and closed in one transaction, without a row.
      CloseTrade(InsertTrade(t, key), t.nextId, "emergency", Some(0.0))
    case Close(id, key, reason, fee) =>
      var closed := CloseTrade(t, id, reason, fee);
      closed.(positions := closed.positions - {key})
    case Update(key, w) => WriteRow(t, key, w)
    case Fee(id, delta) => AddFee(t, id, delta)
  }

  function RunFrom(t: Tables, es: seq<Event>): Tables {
    if es == [] then t else Step(RunFrom(t, es[..|es| - 1]), es[|es| - 1])
  }

  const EMPTY := Tables(map[], map[], 0)

  function Run(es: seq<Event>): Tables {
    RunFrom(EMPTY, es)
  }

  predicate IsOpen(t: Tables, id: nat) {
    id in t.trades && t.trades[id].status == "open"
  }

  /** Each row points to an open trade of its pair, and each open trade has its row: so one open trade per pair. */
  ghost predicate Consistent(t: Tables) {
    && (forall key | key in t.positions ::
          IsOpen(t, t.positions[key].tradeId) && t.trades[t.positions[key].tradeId].key == key)
    && (forall id | IsOpen(t, id) :: t.trades[id].key in t.positions && t.positions[t.trades[id].key].tradeId == id)
    && (forall id | id in t.trades :: id < t.nextId)
  }

  /** The row of the pair, if there is one, is this trade's; and an open trade is closed under its own pair. */
  predicate CloseMatches(t: Tables, id: nat, key: Key) {
    key in t.positions || IsOpen(t, id) ==> key in t.positions && t.positions[key].tradeId == id
  }

  lemma OpenKeepsConsistent(t: Tables, e: Event)
    requires Consistent(t) && (e.Open? || e.Emergency?)
    ensures Consistent(Step(t, e))
  {
    var u := Step(t, e);
    assert t.nextId !in t.trades;
    assert forall id :: IsOpen(u, id) <==> IsOpen(t, id) || (e.Open? && e.key !in t.positions && id == t.nextId);
  }

  /** Writes that move no trade and no row to another key keep the ledger consistent. */
  lemma SameShape(t: Tables, u: Tables)
    requires Consistent(t) && u.nextId == t.nextId
    requires u.trades.Keys == t.trades.Keys && u.positions.Keys == t.positions.Keys
    requires forall id | id in t.trades ::
               u.trades[id].key == t.trades[id].key && u.trades[id].status == t.trades[id].status
    requires forall key | key in t.positions :: u.positions[key].tradeId == t.positions[key].tradeId
    ensures Consistent(u)
  {
    assert forall id :: IsOpen(u, id) <==> IsOpen(t, id);
  }

  lemma UpdateKeepsConsistent(t: Tables, e: Event)
    requires Consistent(t) && (e.Update? || e.Fee?)
    ensures Consistent(Step(t, e))
  {
    SameShape(t, Step(t, e));
  }

  /** The exact condition under which a close keeps the ledger consistent; other transactions always do. */
  lemma {:induction false} StepConsistentIff(t: Tables, e: Event)
    requires Consistent(t)
    ensures Consistent(Step(t, e)) <==> (e.Close? ==> CloseMatches(t, e.id, e.key))
  {
    if e.Close? {
      CloseConsistentIff(t, e);
    } else if e.Open? || e.Emergency? {
      OpenKeepsConsistent(t, e);
    } else {
      UpdateKeepsConsistent(t, e);
    }
  }

  lemma CloseConsistentIff(t: Tables, e: Event)
    requires Consistent(t) && e.Close?
    ensures Consistent(Step(t, e)) <==> CloseMatches(t, e.id, e.key)
  {
    var u := Step(t, e);
    assert forall id :: IsOpen(u, id) <==> IsOpen(t, id) && id != e.id;
    if CloseMatches(t, e.id, e.key) {
      MatchedCloseKeeps(t, u, e.id, e.key);
    } else if e.key in t.positions {
      assert IsOpen(u, t.positions[e.key].tradeId);
    } else {
      var own := t.trades[e.id].key;
      assert own in u.positions && u.positions[own].tradeId == e.id;
    }
  }

  lemma MatchedCloseKeeps(t: Tables, u: Tables, id: nat, key: Key)
    requires Consistent(t) && CloseMatches(t, id, key)
    requires u.nextId == t.nextId && u.trades.Keys == t.trades.Keys && u.positions == t.positions - {key}
    requires forall x | x in t.trades :: u.trades[x].key == t.trades[x].key
    requires forall x :: IsOpen(u, x) <==> IsOpen(t, x) && x != id
    ensures Consistent(u)
  {
  }

  /** Every close of the run names the trade its row points to, as a caller that has just read the row would. */
  predicate Paired(es: seq<Event>) {
    es == [] || (
      var before, e := es[..|es| - 1], es[|es| - 1];
      Paired(before) && (e.Close? ==> CloseMatches(Run(before), e.id, e.key)))
  }

  /** Consistent now and after every earlier transaction of the run. */
  ghost predicate ConsistentThroughout(es: seq<Event>) {
    Consistent(Run(es)) && (es != [] ==> ConsistentThroughout(es[..|es| - 1]))
  }

  /** The ledger stays consistent throughout a run exactly when the closes of the run are paired. */
  lemma {:induction false} ConsistentIffPaired(es: seq<Event>)
    ensures Paired(es) <==> ConsistentThroughout(es)
  {
    if es != [] {
      var before := es[..|es| - 1];
      ConsistentIffPaired(before);
      if Paired(before) {
        StepConsistentIff(Run(before), es[|es| - 1]);
      }
    }
  }

  /** A stale close deletes the row of the next trade on the pair and orphans it. */
  lemma StaleCloseOrphans(key: Key, at: real)
    ensures
      var es := OpenTwice(key, at);
      var t := Run(es + [Close(0, key, "manual", None)]);
      Paired(es) && IsOpen(t, 1) && key !in t.positions
  {
    OpenedTwice(key, at);
    RunSnoc(OpenTwice(key, at), Close(0, key, "manual", None));
  }

  // ----- lifecycle of the ledger -----

  function ColumnsOf(row: Position): Lifecycle.Columns {
    Lifecycle.Columns(Some(row.tradeId), row.slType, Some(row.tpHit), Some(row.trailingActive))
  }

  /**
   Whether the backfill may give trade `id` the value `v`: it joins on `trade_id`, which no constraint makes unique,
   and an UPDATE with several join rows uses any one of them.
   */
  ghost predicate Backfills(t: Tables, id: nat, v: Option<string>)
    requires id in t.trades
  {
    var trade := t.trades[id];
    if exists key :: key in t.positions && t.positions[key].tradeId == id then
      exists key :: key in t.positions && t.positions[key].tradeId == id
                    && v == Lifecycle.Backfill(trade.status, trade.closeReason, ColumnsOf(t.positions[key]))
    else v == Lifecycle.Backfill(trade.status, trade.closeReason, Lifecycle.NO_ROW)
  }

  /** The lifecycle state of a trade in a consistent ledger: its own row while open, its close reason afterwards. */
  function StateOf(t: Tables, id: nat): Result<Lifecycle.State, string>
    requires id in t.trades
  {
    var trade := t.trades[id];
    if trade.key in t.positions && t.positions[trade.key].tradeId == id then
      var row := t.positions[trade.key];
      Lifecycle.Derive(trade.status, trade.closeReason, Some(row.tpHit), row.slType, Some(row.trailingActive), true)
    else Lifecycle.Derive(trade.status, trade.closeReason, None, None, None, false)
  }

  ghost predicate KnownStatuses(t: Tables) {
    forall id | id in t.trades :: t.trades[id].status in {"open", "closed"}
  }

  lemma {:induction false} RunStatuses(es: seq<Event>)
    ensures KnownStatuses(Run(es))
  {
    if es != [] {
      RunStatuses(es[..|es| - 1]);
    }
  }

  /** In a paired run the join is a function, it agrees with the Python mapping, and it never finds an orphan. */
  lemma {:induction false} BackfillNeverOrphans(es: seq<Event>, id: nat, v: Option<string>)
    requires Paired(es) && id in Run(es).trades
    ensures Backfills(Run(es), id, v)
       <==> StateOf(Run(es), id).Ok? && v == Some(Lifecycle.Name(StateOf(Run(es), id).value))
    ensures StateOf(Run(es), id) != Ok(Lifecycle.Orphaned)
  {
    var t := Run(es);
    ConsistentIffPaired(es);
    RunStatuses(es);
    var trade := t.trades[id];
    Lifecycle.BackfillAgreesWithDerive(trade.status, trade.closeReason, Lifecycle.NO_ROW, id, None, None, None);
    if trade.key in t.positions && t.positions[trade.key].tradeId == id {
      var row := t.positions[trade.key];
      Lifecycle.BackfillAgreesWithDerive(trade.status, trade.closeReason, ColumnsOf(row), id, None, None, None);
      assert forall key | key in t.positions && t.positions[key].tradeId == id :: key == trade.key;
    } else {
      assert forall key | key in t.positions :: t.positions[key].tradeId != id;
    }
  }

  ghost predicate IdsBelow(t: Tables) {
    forall id | id in t.trades :: id < t.nextId
  }

  lemma StepIds(t: Tables, e: Event)
    requires IdsBelow(t)
    ensures IdsBelow(Step(t, e))
  {
  }

  lemma {:induction false} RunIds(es: seq<Event>)
    ensures IdsBelow(Run(es))
  {
    if es != [] {
      RunIds(es[..|es| - 1]);
      StepIds(Run(es[..|es| - 1]), es[|es| - 1]);
    }
  }

  /** Once closed, a trade keeps its state whatever happens next, stale closes included, until it is closed again. */
  lemma {:induction false} ReopeningLeavesHistory(es: seq<Event>, fs: seq<Event>, id: nat)
    requires id in Run(es).trades && !IsOpen(Run(es), id)
    requires forall f | f in fs :: !(f.Close? && f.id == id)
    ensures id in Run(es + fs).trades && !IsOpen(Run(es + fs), id)
    ensures StateOf(Run(es + fs), id) == StateOf(Run(es), id)
  {
    if fs == [] {
      assert es + fs == es;
    } else {
      var init, f := fs[..|fs| - 1], fs[|fs| - 1];
      assert f in fs && (es + fs)[..|es + fs| - 1] == es + init && (es + fs)[|es + fs| - 1] == f;
      ReopeningLeavesHistory(es, init, id);
      RunStatuses(es + init);
      RunIds(es + init);
      StepLeavesHistory(Run(es + init), f, id);
    }
  }

  lemma StepLeavesHistory(t: Tables, e: Event, id: nat)
    requires id in t.trades && id < t.nextId && t.trades[id].status == "closed" && !(e.Close? && e.id == id)
    ensures id in Step(t, e).trades && !IsOpen(Step(t, e), id) && StateOf(Step(t, e), id) == StateOf(t, id)
  {
    var u := Step(t, e);
    assert id in u.trades && u.trades[id].(fees := None) == t.trades[id].(fees := None);
    ClosedState(t, id);
    ClosedState(u, id);
  }

  /** The state of a closed trade is that of its own columns, whatever row its pair has. */
  lemma ClosedState(t: Tables, id: nat)
    requires id in t.trades && t.trades[id].status == "closed"
    ensures StateOf(t, id) == Lifecycle.Derive("closed", t.trades[id].closeReason, None, None, None, false)
  {
  }

  // ----- what closes leave -----

  /** The closes of the run that found trade `id`, in order. */
  function Closes(es: seq<Event>, id: nat): (cs: seq<Event>)
    ensures forall c | c in cs :: c.Close?
  {
    if es == [] then []
    else
      var init, e := es[..|es| - 1], es[|es| - 1];
      Closes(init, id) + if e.Close? && e.id == id && id in Run(init).trades then [e] else []
  }

  /** How a trade stands by its closes: the last one gives the reason; without one it is open, or an emergency. */
  ghost predicate StandsBy(trade: Trade, cs: seq<Event>)
    requires forall c | c in cs :: c.Close?
  {
    if cs != [] then
      trade.status == "closed" && trade.closeReason == Some(cs[|cs| - 1].reason)
    else
      || (trade.status == "open" && trade.closeReason == None)
      || (trade.status == "closed" && trade.closeReason == Some("emergency"))
  }

  lemma {:induction false} ClosedAsLast(es: seq<Event>, id: nat)
    ensures if id in Run(es).trades then StandsBy(Run(es).trades[id], Closes(es, id)) else Closes(es, id) == []
  {
    if es != [] {
      var init, e := es[..|es| - 1], es[|es| - 1];
      ClosedAsLast(init, id);
      RunIds(init);
      StepStands(Run(init), e, id, Closes(init, id));
    }
  }

  lemma StepStands(t: Tables, e: Event, id: nat, cs: seq<Event>)
    requires IdsBelow(t) && forall c | c in cs :: c.Close?
    requires if id in t.trades then StandsBy(t.trades[id], cs) else cs == []
    ensures
      var u := Step(t, e);
      var more := cs + if e.Close? && e.id == id && id in t.trades then [e] else [];
      if id in u.trades then StandsBy(u.trades[id], more) else more == []
  {
    assert cs + [] == cs;
  }

  /** A state that only the columns of the trade decide. */
  lemma ClosedStates(t: Tables, id: nat)
    requires id in t.trades
    ensures StateOf(t, id) == Ok(Lifecycle.Reconciled) <==>
              t.trades[id].status == "closed" && t.trades[id].closeReason == Some("reconcile_gone")
    ensures StateOf(t, id) == Ok(Lifecycle.Closed) <==>
              t.trades[id].status == "closed" && t.trades[id].closeReason != Some("reconcile_gone")
  {
  }

  /** Over every run, a trade is reconciled exactly when the last close of it said so. */
  lemma ReconciledIff(es: seq<Event>, id: nat)
    requires id in Run(es).trades
    ensures StateOf(Run(es), id) == Ok(Lifecycle.Reconciled) <==>
              Closes(es, id) != [] && Closes(es, id)[|Closes(es, id)| - 1].reason == "reconcile_gone"
  {
    ClosedAsLast(es, id);
    ClosedStates(Run(es), id);
  }

  // ----- the row through a run -----

  /** What the events say to the row of `key`. */
  function WritesTo(es: seq<Event>, key: Key): seq<Write> {
    if es == [] then []
    else
      var before, e := WritesTo(es[..|es| - 1], key), es[|es| - 1];
      if e.Update? && e.key == key then before + [e.write] else before
  }

  /** While the pair is not closed, its row is the inserted row under its own writes and nobody else's. */
  lemma {:induction false} RowFollowsWrites(t: Tables, es: seq<Event>, key: Key)
    requires key in t.positions && forall e | e in es :: e.Close? ==> e.key != key
    ensures key in RunFrom(t, es).positions
    ensures RunFrom(t, es).positions[key] == ApplyAll(t.positions[key], WritesTo(es, key))
  {
    if es != [] {
      var before, e := es[..|es| - 1], es[|es| - 1];
      RowFollowsWrites(t, before, key);
      assert e in es;
      var ws := WritesTo(before, key);
      if e.Update? && e.key == key {
        assert (ws + [e.write])[..|ws|] == ws;
      }
    }
  }

  /** A fill that carries another trade than the row does changes nothing at all. */
  lemma LateFillChangesNothing(t: Tables, key: Key, fill: Write)
    requires fill.Fill? && (key in t.positions ==> t.positions[key].tradeId != fill.tradeId)
    ensures Step(t, Update(key, fill)) == t
  {
    if key in t.positions {
      assert t.positions[key := t.positions[key]] == t.positions;
    }
  }

  // ----- late writes -----

  /** The write touches no row but that of its own trade. */
  ghost predicate SparesOthers(t: Tables, key: Key, w: Write) {
    forall k | k in t.positions && t.positions[k].tradeId != w.tradeId ::
      k in Step(t, Update(key, w)).positions && Step(t, Update(key, w)).positions[k] == t.positions[k]
  }

  /** The pair's row, if there is one, is of this trade: what a fill checks. */
  predicate Own(t: Tables, key: Key, tradeId: nat) {
    key in t.positions ==> t.positions[key].tradeId == tradeId
  }

  /**
   Fills always spare the rows of other trades. Ticks and stop-loss moves do, whatever they write, exactly when the
   pair has no row or the row is of their trade.
   */
  lemma LateWrites(t: Tables, key: Key, tradeId: nat)
    ensures forall delta, newSlType, at :: SparesOthers(t, key, Fill(tradeId, delta, newSlType, at))
    ensures (forall monitor, at :: SparesOthers(t, key, Tick(tradeId, monitor, at))) <==> Own(t, key, tradeId)
    ensures (forall price, slType, at :: SparesOthers(t, key, MoveSl(tradeId, price, slType, at)))
       <==> Own(t, key, tradeId)
  {
    if !Own(t, key, tradeId) {
      var row := t.positions[key];
      var tick := Tick(tradeId, row.monitor, row.updatedAt + 1.0);
      var move := MoveSl(tradeId, 0.0, "be", row.updatedAt + 1.0);
      assert Apply(row, tick) != row && Apply(row, move) != row;
      assert !SparesOthers(t, key, tick) && !SparesOthers(t, key, move);
    }
  }

  function OpenTwice(key: Key, at: real): seq<Event> {
    [Open(key, 1.0, None, None, at), Close(0, key, "sl", None), Open(key, 1.0, None, None, at)]
  }

  /** A pair opened, closed and opened again holds the row of its second trade. */
  lemma OpenedTwice(key: Key, at: real)
    ensures Paired(OpenTwice(key, at))
    ensures
      var t := Run(OpenTwice(key, at));
      && t.positions == map[key := NewRow(1, 1.0, None, None, at)]
      && 1 in t.trades && t.trades[1] == Trade(key, "open", None, None)
  {
    var a, b, c := Open(key, 1.0, None, None, at), Close(0, key, "sl", None), Open(key, 1.0, None, None, at);
    assert [a][..0] == [] && [a, b][..1] == [a] && [a, b, c][..2] == [a, b];
    assert Run([]) == EMPTY && Run([a]) == Step(EMPTY, a) && Run([a, b]) == Step(Run([a]), b);
    assert Run([a, b, c]) == Step(Run([a, b]), c);
    assert Paired([]) && Paired([a]) && Paired([a, b]);
  }

  lemma RunSnoc(es: seq<Event>, e: Event)
    ensures Run(es + [e]) == Step(Run(es), e)
  {
    assert (es + [e])[..|es|] == es;
  }

  /**
   After a close and a reopening, a tick and a stop-loss move meant for the closed trade land in the row of the open
   one; the move even changes the open trade's lifecycle state.
   */
  lemma LateWritesLand(key: Key, at: real, monitor: Monitor, price: real)
    ensures
      var es := OpenTwice(key, at);
      var ticked, moved := Run(es + [Update(key, Tick(0, monitor, at))]),
                           Run(es + [Update(key, MoveSl(0, price, "trail", at))]);
      && key in ticked.positions && ticked.positions[key].tradeId == 1 && ticked.positions[key].monitor == monitor
      && key in moved.positions && moved.positions[key].tradeId == 1 && moved.positions[key].slPrice == Some(price)
      && 1 in Run(es).trades && StateOf(Run(es), 1) == Ok(Lifecycle.Open)
      && 1 in moved.trades && StateOf(moved, 1) == Ok(Lifecycle.TrailingActive)
  {
    OpenedTwice(key, at);
    RunSnoc(OpenTwice(key, at), Update(key, Tick(0, monitor, at)));
    RunSnoc(OpenTwice(key, at), Update(key, MoveSl(0, price, "trail", at)));
  }

  // ----- fees -----

  function Deltas(es: seq<Event>, id: nat): seq<real> {
    if es == [] then []
    else
      var before, e := Deltas(es[..|es| - 1], id), es[|es| - 1];
      if e.Fee? && e.id == id then before + [e.delta] else before
  }

  function Sum(xs: seq<real>): real {
    if xs == [] then 0.0 else Sum(xs[..|xs| - 1]) + xs[|xs| - 1]
  }

  /** With closes that pass no fee, a trade's fees are what it had plus the deltas; none at all stays NULL. */
  lemma {:induction false} FeesAreDeltas(t: Tables, es: seq<Event>, id: nat)
    requires id in t.trades && id < t.nextId
    requires forall e | e in es :: e.Close? && e.id == id ==> e.fee.None?
    ensures id in RunFrom(t, es).trades && t.nextId <= RunFrom(t, es).nextId
    ensures
      var paid, ds := t.trades[id].fees, Deltas(es, id);
      RunFrom(t, es).trades[id].fees ==
        if ds == [] then paid else Some((if paid.Some? then paid.value else 0.0) + Sum(ds))
  {
    if es != [] {
      var before, e := es[..|es| - 1], es[|es| - 1];
      assert e in es;
      FeesAreDeltas(t, before, id);
      if e.Fee? && e.id == id {
        var ds := Deltas(before, id);
        assert (ds + [e.delta])[..|ds|] == ds;
      }
    }
  }

  lemma {:induction false} RunFromConcat(t: Tables, es: seq<Event>, fs: seq<Event>)
    ensures RunFrom(t, es + fs) == RunFrom(RunFrom(t, es), fs)
  {
    if fs == [] {
      assert es + fs == es;
    } else {
      assert (es + fs)[..|es + fs| - 1] == es + fs[..|fs| - 1];
      RunFromConcat(t, es, fs[..|fs| - 1]);
    }
  }

  /** A close that passes a fee sets the fees to it; from then on they are that fee and the deltas since. */
  lemma FeesSinceClose(t: Tables, close: Event, fs: seq<Event>, id: nat)
    requires id in t.trades && id < t.nextId && close.Close? && close.id == id && close.fee.Some?
    requires forall e | e in fs :: e.Close? && e.id == id ==> e.fee.None?
    ensures id in RunFrom(t, [close] + fs).trades
    ensures RunFrom(t, [close] + fs).trades[id].fees
         == Some(if Deltas(fs, id) == [] then close.fee.value else close.fee.value + Sum(Deltas(fs, id)))
  {
    RunFromConcat(t, [close], fs);
    assert [close][..0] == [] && RunFrom(t, [close]) == Step(t, close);
    FeesAreDeltas(Step(t, close), fs, id);
  }

  /** A placement whose stop could not be set leaves a closed trade without a fee to add to and without a row. */
  lemma EmergencyLeaves(t: Tables, key: Key)
    ensures
      var u := Step(t, Emergency(key));
      && u.trades == t.trades[t.nextId := Trade(key, "closed", Some("emergency"), Some(0.0))]
      && u.positions == t.positions && u.nextId == t.nextId + 1
  {
  }

  lemma {:induction false} SumRemove(xs: seq<real>, i: nat)
    requires i < |xs|
    ensures Sum(xs) == Sum(xs[..i] + xs[i + 1..]) + xs[i]
  {
    var init, last := xs[..|xs| - 1], xs[|xs| - 1];
    if i == |xs| - 1 {
      assert xs[..i] + xs[i + 1..] == init;
    } else {
      SumRemove(init, i);
      var rest := xs[..i] + xs[i + 1..];
      assert rest[..|rest| - 1] == init[..i] + init[i + 1..];
    }
  }

  lemma DropOne(ys: seq<real>, i: nat)
    requires i < |ys|
    ensures multiset(ys[..i] + ys[i + 1..]) == multiset(ys) - multiset{ys[i]}
  {
    assert ys == ys[..i] + [ys[i]] + ys[i + 1..];
    assert multiset(ys) == multiset(ys[..i] + ys[i + 1..]) + multiset{ys[i]};
  }

  /** The order of the deltas does not matter. */
  lemma {:induction false} SumAnyOrder(xs: seq<real>, ys: seq<real>)
    requires multiset(xs) == multiset(ys)
    ensures Sum(xs) == Sum(ys)
    decreases |xs|
  {
    if xs == [] {
      assert |multiset(ys)| == 0;
    } else {
      var init, x := xs[..|xs| - 1], xs[|xs| - 1];
      assert xs == init + [x];
      assert x in multiset(ys);
      var i :| 0 <= i < |ys| && ys[i] == x;
      DropOne(ys, i);
      assert multiset(xs) == multiset(init) + multiset{x};
      assert multiset(init) == multiset(xs) - multiset{x};
      SumAnyOrder(init, ys[..i] + ys[i + 1..]);
      SumRemove(ys, i);
    }
  }
}
