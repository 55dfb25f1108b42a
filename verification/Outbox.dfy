/**
 The transactional outbox: relay replicas lock disjoint batches of pending rows, publish them one by
 one, mark each row inside the batch transaction, and commit; a cancelled batch rolls its marks back,
 but what it published stays published.

 Instants are exact reals on one clock that never goes back. All replicas share their settings.
 */
module Outbox {
  import opened Common

  datatype Settings = Settings(batchSize: nat, maxAttempts: nat, backoffBase: real, backoffCap: real)

  predicate ValidSettings(st: Settings) {
    st.batchSize > 0 && st.maxAttempts >= 1 && 0.0 < st.backoffBase <= st.backoffCap
  }

  datatype Row = Row(
    service: string,
    createdAt: real,
    publishedAt: Option<real>,
    attemptCount: nat,
    lastAttemptAt: Option<real>,
    failedAt: Option<real>)

  function NewRow(service: string, createdAt: real): Row {
    Row(service, createdAt, None, 0, None, None)
  }

  function MarkPublished(row: Row, at: real): Row {
    row.(publishedAt := Some(at))
  }

  function MarkFailed(st: Settings, row: Row, at: real): Row {
    row.(attemptCount := row.attemptCount + 1,
         lastAttemptAt := Some(at),
         failedAt := if row.attemptCount + 1 >= st.maxAttempts then Some(at) else None)
  }

  function Pow2(n: nat): real {
    if n == 0 then 1.0 else 2.0 * Pow2(n - 1)
  }

  /** Seconds to wait after the `k`th failed attempt. */
  function Backoff(st: Settings, k: nat): real {
    Min(st.backoffBase * Pow2(k), st.backoffCap)
  }

  /** The WHERE clause of the pending query. */
  predicate Pending(st: Settings, row: Row, now: real) {
    && row.publishedAt.None?
    && row.failedAt.None?
    && (row.lastAttemptAt.None? || row.lastAttemptAt.value <= now - Backoff(st, row.attemptCount))
  }

  lemma {:induction false} PowerLaws(a: nat, b: nat)
    ensures Pow2(0) == 1.0 && Pow2(1) == 2.0 && Pow2(a) > 0.0
    ensures Pow2(a + b) == Pow2(a) * Pow2(b)
  {
    assert Pow2(1) == 2.0 * Pow2(0);
    if a > 0 {
      PowerLaws(a - 1, b);
      assert Pow2(a + b) == 2.0 * Pow2(a - 1 + b);
    }
  }

  /** The wait starts at the base and doubles up to the cap; it is min(base * 2^k, cap). */
  lemma BackoffDoubles(st: Settings, k: nat)
    requires ValidSettings(st)
    ensures Backoff(st, 0) == st.backoffBase
    ensures Backoff(st, k + 1) == if 2.0 * Backoff(st, k) <= st.backoffCap then 2.0 * Backoff(st, k) else st.backoffCap
    ensures Backoff(st, k)
         == if st.backoffBase * Pow2(k) <= st.backoffCap then st.backoffBase * Pow2(k) else st.backoffCap
  {
    Doubled(st.backoffBase, Pow2(k));
    assert Pow2(k + 1) == 2.0 * Pow2(k);
  }

  lemma Doubled(base: real, power: real)
    ensures base * (2.0 * power) == 2.0 * (base * power)
  {
  }

  /**
   A row is due at `now` exactly when it is neither published nor failed and was never tried, or its last attempt is at
   least min(base * 2^k, cap) old, `k` being its attempts so far.
   */
  lemma DueIff(st: Settings, row: Row, now: real)
    ensures Pending(st, row, now) <==>
              && row.publishedAt == None && row.failedAt == None
              && (row.lastAttemptAt == None ||
                  now - row.lastAttemptAt.value
                  >= if st.backoffBase * Pow2(row.attemptCount) <= st.backoffCap
                     then st.backoffBase * Pow2(row.attemptCount) else st.backoffCap)
  {
  }

  /** The rows the pending query may return: of this service, due, and not locked by another transaction. */
  predicate Takeable(
    st: Settings, rows: map<nat, Row>, service: string, now: real, locked: set<nat>, id: nat)
  {
    id in rows && rows[id].service == service && Pending(st, rows[id], now) && id !in locked
  }

  /** SELECT ... ORDER BY created_at LIMIT n FOR UPDATE SKIP LOCKED: the oldest such rows, oldest first. */
  ghost predicate Picks(
    st: Settings, rows: map<nat, Row>, service: string, now: real, locked: set<nat>, ids: seq<nat>)
  {
    && |ids| <= st.batchSize
    && NoRepeats(ids)
    && (forall id | id in ids :: Takeable(st, rows, service, now, locked, id))
    && OldestFirst(rows, ids)
    && (forall id | Takeable(st, rows, service, now, locked, id) && id !in ids ::
          |ids| == st.batchSize && forall x | x in ids :: x in rows && rows[x].createdAt <= rows[id].createdAt)
  }

  ghost predicate OldestFirst(rows: map<nat, Row>, ids: seq<nat>) {
    && (forall i | 0 <= i < |ids| :: ids[i] in rows)
    && (forall i, j | 0 <= i < j < |ids| :: rows[ids[i]].createdAt <= rows[ids[j]].createdAt)
  }

  // ----- one replica, run alone -----

  /** How one publish ends: delivered, raised, or the task was cancelled around it. */
  datatype Publish = Delivered(at: real) | Raised(at: real) | Cancelled(delivered: bool)

  function MarkOne(st: Settings, rows: map<nat, Row>, id: nat, w: Publish): map<nat, Row> {
    if id !in rows then rows
    else match w
      case Delivered(at) => rows[id := MarkPublished(rows[id], at)]
      case Raised(at) => rows[id := MarkFailed(st, rows[id], at)]
      case Cancelled(_) => rows
  }

  /** The table after marking `ids` one by one. */
  function MarkAll(st: Settings, rows: map<nat, Row>, ids: seq<nat>, world: seq<Publish>): map<nat, Row>
    requires |ids| == |world|
  {
    if ids == [] then rows
    else MarkOne(st, MarkAll(st, rows, ids[..|ids| - 1], world[..|ids| - 1]), ids[|ids| - 1], world[|ids| - 1])
  }

  /** What reached the bus. */
  function Sent(ids: seq<nat>, world: seq<Publish>): seq<nat>
    requires |ids| == |world|
  {
    if ids == [] then []
    else
      var w := world[|ids| - 1];
      Sent(ids[..|ids| - 1], world[..|ids| - 1])
        + (if w.Delivered? || (w.Cancelled? && w.delivered) then [ids[|ids| - 1]] else [])
  }

  /** How many publishes the batch gets to before (and with) its cancellation. */
  function Reached(world: seq<Publish>): (n: nat)
    ensures n <= |world|
    ensures forall j | 0 <= j < n - 1 :: !world[j].Cancelled?
    ensures n < |world| ==> n > 0 && world[n - 1].Cancelled?
    ensures world == [] ==> n == 0
  {
    if world == [] then 0
    else
      var n := Reached(world[..|world| - 1]);
      if n < |world| - 1 || (n > 0 && world[n - 1].Cancelled?) then n else n + 1
  }

  lemma ReachedCancelled(world: seq<Publish>, i: nat)
    requires i < |world| && world[i].Cancelled? && forall j | 0 <= j < i :: !world[j].Cancelled?
    ensures Reached(world) == i + 1 && exists w :: w in world && w.Cancelled?
  {
    assert world[i] in world;
  }

  lemma ReachedAll(world: seq<Publish>)
    requires forall j | 0 <= j < |world| :: !world[j].Cancelled?
    ensures Reached(world) == |world| && !exists w :: w in world && w.Cancelled?
  {
  }

  lemma OneMoreMark(st: Settings, rows: map<nat, Row>, ids: seq<nat>, world: seq<Publish>, i: nat)
    requires |ids| == |world| && i < |ids|
    ensures MarkAll(st, rows, ids[..i + 1], world[..i + 1])
         == MarkOne(st, MarkAll(st, rows, ids[..i], world[..i]), ids[i], world[i])
  {
    assert ids[..i + 1][..i] == ids[..i] && world[..i + 1][..i] == world[..i];
  }

  lemma OneMoreSent(ids: seq<nat>, world: seq<Publish>, i: nat)
    requires |ids| == |world| && i < |ids|
    ensures Sent(ids[..i + 1], world[..i + 1])
         == Sent(ids[..i], world[..i])
            + (if world[i].Delivered? || (world[i].Cancelled? && world[i].delivered) then [ids[i]] else [])
  {
    assert ids[..i + 1][..i] == ids[..i] && world[..i + 1][..i] == world[..i];
  }

  lemma {:induction false} MarkAllSpares(
      st: Settings, rows: map<nat, Row>, ids: seq<nat>, world: seq<Publish>, id: nat)
    requires |ids| == |world| && id !in ids
    ensures id in MarkAll(st, rows, ids, world) <==> id in rows
    ensures id in rows ==> MarkAll(st, rows, ids, world)[id] == rows[id]
  {
    if ids != [] {
      assert ids[|ids| - 1] in ids;
      MarkAllSpares(st, rows, ids[..|ids| - 1], world[..|ids| - 1], id);
    }
  }

  /** A row of the batch gets exactly the mark of its own publish. */
  lemma {:induction false} MarkAllAt(st: Settings, rows: map<nat, Row>, ids: seq<nat>, world: seq<Publish>, i: nat)
    requires i < |ids| == |world| && NoRepeats(ids) && ids[i] in rows
    ensures ids[i] in MarkAll(st, rows, ids, world)
    ensures MarkAll(st, rows, ids, world)[ids[i]]
         == match world[i]
            case Delivered(at) => rows[ids[i]].(publishedAt := Some(at))
            case Raised(at) =>
              var row := rows[ids[i]];
              Row(row.service, row.createdAt, row.publishedAt, row.attemptCount + 1, Some(at),
                  if row.attemptCount + 1 < st.maxAttempts then None else Some(at))
            case Cancelled(_) => rows[ids[i]]
  {
    var n := |ids| - 1;
    if i < n {
      MarkAllAt(st, rows, ids[..n], world[..n], i);
    } else {
      MarkAllSpares(st, rows, ids[..n], world[..n], ids[i]);
    }
  }

  // ----- the pending query always has an answer -----

  /** `id` put in its place by age. */
  ghost function Placed(rows: map<nat, Row>, ids: seq<nat>, id: nat): seq<nat>
    requires id in rows && forall x | x in ids :: x in rows
  {
    if ids == [] then [id]
    else if rows[id].createdAt <= rows[ids[0]].createdAt then [id] + ids
    else
      assert forall x | x in ids[1..] :: x in ids;
      [ids[0]] + Placed(rows, ids[1..], id)
  }

  lemma {:induction false} PlacedFacts(rows: map<nat, Row>, ids: seq<nat>, id: nat)
    requires id in rows && (forall x | x in ids :: x in rows) && id !in ids && NoRepeats(ids) && OldestFirst(rows, ids)
    ensures NoRepeats(Placed(rows, ids, id)) && OldestFirst(rows, Placed(rows, ids, id))
    ensures forall x :: x in Placed(rows, ids, id) <==> x in ids || x == id
  {
    if ids != [] {
      assert ids == [ids[0]] + ids[1..];
      if rows[id].createdAt > rows[ids[0]].createdAt {
        PlacedFacts(rows, ids[1..], id);
        FirstIsOldest(rows, ids[0], Placed(rows, ids[1..], id));
      } else {
        FirstIsOldest(rows, id, ids);
      }
    }
  }

  lemma FirstIsOldest(rows: map<nat, Row>, first: nat, rest: seq<nat>)
    requires first in rows && first !in rest && NoRepeats(rest) && OldestFirst(rows, rest)
    requires forall x | x in rest :: x in rows && rows[first].createdAt <= rows[x].createdAt
    ensures NoRepeats([first] + rest) && OldestFirst(rows, [first] + rest)
  {
  }

  /** All of `among`, oldest first. */
  lemma {:induction false} ByAge(rows: map<nat, Row>, among: set<nat>) returns (ids: seq<nat>)
    requires among <= rows.Keys
    ensures NoRepeats(ids) && OldestFirst(rows, ids) && forall x :: x in ids <==> x in among
  {
    ids := [];
    if among != {} {
      var id := Pick(among);
      ids := ByAge(rows, among - {id});
      PlacedFacts(rows, ids, id);
      ids := Placed(rows, ids, id);
    }
  }

  /** Whatever the table, the clock and the locks, the query has an answer. */
  lemma SomeBatch(st: Settings, rows: map<nat, Row>, service: string, now: real, locked: set<nat>)
      returns (ids: seq<nat>)
    ensures Picks(st, rows, service, now, locked, ids)
  {
    var due := set id | id in rows && Takeable(st, rows, service, now, locked, id);
    var all := ByAge(rows, due);
    ids := if |all| <= st.batchSize then all else all[..st.batchSize];
    assert forall x | x in ids :: x in all;
    forall id | Takeable(st, rows, service, now, locked, id) && id !in ids
      ensures |ids| == st.batchSize && forall x | x in ids :: x in rows && rows[x].createdAt <= rows[id].createdAt
    {
      assert id in all;
      var k :| 0 <= k < |all| && all[k] == id;
      assert k >= |ids|;
    }
  }

  class OutboxDb {
    var rows: map<nat, Row>
    var nextId: nat
    var bus: seq<nat>

    ghost predicate Valid()
      reads this
    {
      forall id | id in rows :: id < nextId
    }

    constructor ()
      ensures Valid() && rows == map[] && bus == []
    {
      rows, nextId, bus := map[], 0, [];
    }

    method InsertOutboxEvent(service: string, createdAt: real) returns (id: nat)
      requires Valid()
      modifies this`rows, this`nextId
      ensures Valid()
      ensures id !in old(rows) && rows == old(rows)[id := Row(service, createdAt, None, 0, None, None)]
    {
      id := nextId;
      rows := rows[id := NewRow(service, createdAt)];
      nextId := nextId + 1;
    }

    /** UPDATE ... WHERE id: a missing id updates nothing. */
    method MarkOutboxEventPublished(id: nat, at: real)
      requires Valid()
      modifies this`rows
      ensures Valid()
      ensures rows == if id in old(rows) then old(rows)[id := MarkPublished(old(rows)[id], at)] else old(rows)
      ensures id in old(rows) ==> rows[id] == old(rows)[id].(publishedAt := Some(at))
    {
      if id in rows {
        rows := rows[id := MarkPublished(rows[id], at)];
      }
    }

    method MarkOutboxEventFailed(st: Settings, id: nat, at: real)
      requires Valid()
      modifies this`rows
      ensures Valid()
      ensures rows == if id in old(rows) then old(rows)[id := MarkFailed(st, old(rows)[id], at)] else old(rows)
      ensures id in old(rows) ==>
                && rows[id].attemptCount == old(rows)[id].attemptCount + 1 && rows[id].lastAttemptAt == Some(at)
                && rows[id].failedAt == (if old(rows)[id].attemptCount + 1 < st.maxAttempts then None else Some(at))
    {
      if id in rows {
        rows := rows[id := MarkFailed(st, rows[id], at)];
      }
    }

    /**
     One batch over what the pending query returned: all its marks or none, every delivery either way, and no row
     touched that was not due. The query always has an answer (`SomeBatch`).
     */
    method RunOneBatch(
        st: Settings, ghost service: string, ghost now: real, ghost locked: set<nat>, ids: seq<nat>,
        world: seq<Publish>)
      returns (processed: Option<nat>)
      requires Valid() && |ids| == |world| && Picks(st, rows, service, now, locked, ids)
      modifies this`rows, this`bus
      ensures Valid()
      ensures processed == if exists w :: w in world && w.Cancelled? then None else Some(|ids|)
      ensures rows == if processed.Some? then MarkAll(st, old(rows), ids, world) else old(rows)
      ensures forall id | id in old(rows) && !Takeable(st, old(rows), service, now, locked, id) ::
                id in rows && rows[id] == old(rows)[id]
      ensures bus == old(bus) + Sent(ids[..Reached(world)], world[..Reached(world)])
    {
      if ids == [] {
        return Some(0);
      }
      processed := PublishBatch(st, ids, world);
      forall id | id in old(rows) && !Takeable(st, old(rows), service, now, locked, id)
        ensures id in rows && rows[id] == old(rows)[id]
      {
        MarkAllSpares(st, old(rows), ids, world, id);
      }
    }

    /** The serial publish loop inside the batch transaction. */
    method PublishBatch(st: Settings, ids: seq<nat>, world: seq<Publish>) returns (processed: Option<nat>)
      requires Valid() && |ids| == |world|
      modifies this`rows, this`bus
      ensures Valid()
      ensures processed == if exists w :: w in world && w.Cancelled? then None else Some(|ids|)
      ensures rows == if processed.Some? then MarkAll(st, old(rows), ids, world) else old(rows)
      ensures bus == old(bus) + Sent(ids[..Reached(world)], world[..Reached(world)])
    {
      var saved := rows;
      var i := 0;
      while i < |ids|
        invariant 0 <= i <= |ids|
        invariant Valid()
        invariant forall j | 0 <= j < i :: !world[j].Cancelled?
        invariant rows == MarkAll(st, saved, ids[..i], world[..i])
        invariant bus == old(bus) + Sent(ids[..i], world[..i])
      {
        OneMoreMark(st, saved, ids, world, i);
        OneMoreSent(ids, world, i);
        var w := world[i];
        if w.Delivered? || (w.Cancelled? && w.delivered) {
          bus := bus + [ids[i]];
        }
        if w.Cancelled? {
          rows := saved;
          ReachedCancelled(world, i);
          return None;
        } else if w.Raised? {
          MarkOutboxEventFailed(st, ids[i], w.at);
        } else {
          MarkOutboxEventPublished(ids[i], w.at);
        }
        i := i + 1;
      }
      ReachedAll(world);
      assert ids[..|ids|] == ids && world[..|ids|] == world;
      return Some(|ids|);
    }
  }

  // ----- every interleaving of replicas -----

  /**
   A batch transaction in flight: it read the clock at `startedAt`, locks `held`, has `todo` left to publish in
   order, and keeps its uncommitted marks in `view`. `outcome` is the result of a publish that is not marked yet.
   */
  datatype Batch = Batch(
    startedAt: real,
    held: set<nat>,
    todo: seq<nat>,
    outcome: Option<bool>,
    view: map<nat, Row>,
    sent: set<nat>)

  /** `wasted` counts deliveries of rolled-back batches, `attempts` the committed failed attempts of a row. */
  datatype System = System(
    clock: real,
    rows: map<nat, Row>,
    batches: map<nat, Batch>,
    bus: multiset<nat>,
    wasted: multiset<nat>,
    attempts: map<nat, seq<real>>)

  datatype Event =
    | Tick(elapsed: real)
    | Insert(id: nat, service: string, createdAt: real)
    | Begin(replica: nat, service: string, now: real, ids: seq<nat>)
    | Deliver(replica: nat)
    | Raise(replica: nat)
    | Mark(replica: nat)
    | Commit(replica: nat)
    | Rollback(replica: nat)

  ghost predicate Locked(s: System, id: nat) {
    exists r :: r in s.batches && id in s.batches[r].held
  }

  /** The rows that batches in flight hold. */
  ghost function LockedIds(s: System): set<nat> {
    set r, id | r in s.batches && id in s.batches[r].held :: id
  }

  ghost predicate Eligible(st: Settings, s: System, service: string, now: real, id: nat) {
    Takeable(st, s.rows, service, now, LockedIds(s), id)
  }

  /** A replica selects around the locks of the others, by a clock reading `now` that may be old by then. */
  ghost predicate Selects(st: Settings, s: System, service: string, now: real, ids: seq<nat>) {
    now <= s.clock && Picks(st, s.rows, service, now, LockedIds(s), ids)
  }

  lemma EligibleIsFree(st: Settings, s: System, service: string, now: real, id: nat)
    requires Eligible(st, s, service, now, id)
    ensures id in s.rows && Pending(st, s.rows[id], now) && !Locked(s, id)
  {
  }

  /** A batch as it begins. */
  ghost function NewBatch(now: real, ids: seq<nat>): Batch {
    Batch(now, (set id | id in ids), ids, None, map[], {})
  }

  /** Whether a row may go into a batch that reads the clock at `now`. */
  ghost predicate MayGo(st: Settings, s: System, service: string, now: real, id: nat) {
    && id in s.rows && s.rows[id].service == service && s.rows[id].publishedAt == None && s.rows[id].failedAt == None
    && (s.rows[id].lastAttemptAt == None ||
        s.rows[id].lastAttemptAt.value <= now - Backoff(st, s.rows[id].attemptCount))
    && !exists r :: r in s.batches && id in s.batches[r].held
  }

  /**
   When a batch begins: a replica without one takes, oldest first and each once, up to the limit, rows that may go,
   and leaves out only rows that are not older than those it takes, and those only if it is full.
   */
  lemma BeginsIff(st: Settings, s: System, r: nat, service: string, now: real, ids: seq<nat>)
    ensures Step(st, s, Begin(r, service, now, ids)) != s <==>
              && r !in s.batches && 0 < |ids| <= st.batchSize && now <= s.clock
              && (forall i, j | 0 <= i < j < |ids| :: ids[i] != ids[j])
              && (forall i | 0 <= i < |ids| :: MayGo(st, s, service, now, ids[i]))
              && (forall i, j | 0 <= i < j < |ids| :: s.rows[ids[i]].createdAt <= s.rows[ids[j]].createdAt)
              && (forall id | MayGo(st, s, service, now, id) && id !in ids ::
                    |ids| == st.batchSize && forall x | x in ids :: s.rows[x].createdAt <= s.rows[id].createdAt)
  {
    assert forall id :: MayGo(st, s, service, now, id) <==> Takeable(st, s.rows, service, now, LockedIds(s), id);
    if Selects(st, s, service, now, ids) {
      assert forall i | 0 <= i < |ids| :: ids[i] in ids;
    }
    if r !in s.batches {
      assert r in s.batches[r := NewBatch(now, ids)];
    }
  }

  /** Whether replica `r` is about to publish. */
  predicate CanPublish(s: System, r: nat) {
    r in s.batches && s.batches[r].outcome.None? && s.batches[r].todo != []
  }

  /** Whether replica `r` has a publish result to record. */
  predicate CanMark(s: System, r: nat) {
    r in s.batches && s.batches[r].outcome.Some? && s.batches[r].todo != [] && s.batches[r].todo[0] in s.rows
  }

  /** One step; an event that is not possible in `s` leaves it alone. */
  ghost function Step(st: Settings, s: System, e: Event): System {
    match e
    case Tick(d) => if d >= 0.0 then s.(clock := s.clock + d) else s
    case Insert(id, service, createdAt) =>
      if id in s.rows then s
      else s.(rows := s.rows[id := NewRow(service, createdAt)], attempts := s.attempts[id := []])
    case Begin(r, service, now, ids) =>
      if r in s.batches || ids == [] || !Selects(st, s, service, now, ids) then s
      else s.(batches := s.batches[r := NewBatch(now, ids)])
    case Deliver(r) =>
      if !CanPublish(s, r) then s
      else
        var b := s.batches[r];
        s.(batches := s.batches[r := b.(outcome := Some(true), sent := b.sent + {b.todo[0]})],
           bus := s.bus + multiset{b.todo[0]})
    case Raise(r) =>
      if !CanPublish(s, r) then s
      else s.(batches := s.batches[r := s.batches[r].(outcome := Some(false))])
    case Mark(r) =>
      if !CanMark(s, r) then s
      else s.(batches := s.batches[r := AfterMark(st, s, s.batches[r])])
    case Commit(r) =>
      if r !in s.batches || s.batches[r].todo != [] then s
      else
        var b := s.batches[r];
        s.(rows := s.rows + b.view, batches := s.batches - {r}, attempts := Record(s.attempts, b.view))
    case Rollback(r) =>
      if r !in s.batches then s
      else s.(batches := s.batches - {r}, wasted := s.wasted + multiset(s.batches[r].sent))
  }

  function AfterMark(st: Settings, s: System, b: Batch): Batch
    requires b.outcome.Some? && b.todo != [] && b.todo[0] in s.rows
  {
    var row := s.rows[b.todo[0]];
    var marked := if b.outcome.value then MarkPublished(row, s.clock) else MarkFailed(st, row, s.clock);
    b.(todo := b.todo[1..], outcome := None, view := b.view[b.todo[0] := marked])
  }

  /** The failed attempts that a commit makes permanent. */
  function Record(attempts: map<nat, seq<real>>, view: map<nat, Row>): map<nat, seq<real>> {
    map id | id in attempts ::
      if id in view && view[id].publishedAt.None? && view[id].lastAttemptAt.Some?
      then attempts[id] + [view[id].lastAttemptAt.value]
      else attempts[id]
  }

  ghost function RunFrom(st: Settings, s: System, es: seq<Event>): System {
    if es == [] then s else Step(st, RunFrom(st, s, es[..|es| - 1]), es[|es| - 1])
  }

  const START := System(0.0, map[], map[], multiset{}, multiset{}, map[])

  ghost function Run(st: Settings, es: seq<Event>): System {
    RunFrom(st, START, es)
  }

  // ----- the invariant -----

  /** A row against its committed failed attempts. */
  ghost predicate RowInv(st: Settings, row: Row, tries: seq<real>, clock: real) {
    && |tries| == row.attemptCount <= st.maxAttempts
    && row.lastAttemptAt == (if tries == [] then None else Some(tries[|tries| - 1]))
    && (tries != [] ==> tries[|tries| - 1] <= clock)
    && Spread(st, tries)
    && (row.failedAt.Some? <==> row.attemptCount == st.maxAttempts)
    && (row.failedAt.Some? ==> row.publishedAt.None? && row.failedAt == row.lastAttemptAt)
    && (row.publishedAt.Some? && tries != [] ==>
          row.publishedAt.value - tries[|tries| - 1] >= Backoff(st, |tries|))
  }

  /** Attempt `k + 1` comes at least `Backoff(k)` after attempt `k` (attempts are numbered from 1). */
  ghost predicate Spread(st: Settings, tries: seq<real>) {
    forall k | 1 <= k < |tries| :: tries[k] - tries[k - 1] >= Backoff(st, k)
  }

  /** A mark made at an instant of the batch, over the committed row. */
  ghost predicate Marked(st: Settings, row: Row, v: Row, startedAt: real, clock: real) {
    if v.publishedAt.Some? then
      startedAt <= v.publishedAt.value <= clock && v == MarkPublished(row, v.publishedAt.value)
    else
      v.lastAttemptAt.Some? && startedAt <= v.lastAttemptAt.value <= clock
      && v == MarkFailed(st, row, v.lastAttemptAt.value)
  }

  ghost predicate IsSent(b: Batch, id: nat) {
    || (id in b.view && b.view[id].publishedAt.Some?)
    || (b.outcome == Some(true) && b.todo != [] && id == b.todo[0])
  }

  /** The batch by itself. */
  ghost predicate Shape(b: Batch) {
    && (b.outcome.Some? ==> b.todo != [])
    && NoRepeats(b.todo)
    && (forall id | id in b.todo :: id in b.held && id !in b.view)
    && (forall id | id in b.held :: id in b.view || id in b.todo)
    && b.view.Keys <= b.held
    && (forall id | id in b.held :: id in b.sent <==> IsSent(b, id))
    && b.sent <= b.held
  }

  /** One row of the batch against the committed table: untouched since it was locked. */
  ghost predicate Anchored(st: Settings, s: System, b: Batch, id: nat) {
    && id in s.rows
    && Pending(st, s.rows[id], b.startedAt)
    && (id in b.view ==> Marked(st, s.rows[id], b.view[id], b.startedAt, s.clock))
  }

  ghost predicate BatchInv(st: Settings, s: System, b: Batch) {
    b.startedAt <= s.clock && Shape(b) && forall id | id in b.held :: Anchored(st, s, b, id)
  }

  /** No two batches in flight hold the same row. */
  ghost predicate Disjoint(s: System) {
    forall r, q | r in s.batches && q in s.batches && r != q :: s.batches[r].held !! s.batches[q].held
  }

  function Published(s: System, id: nat): nat {
    if id in s.rows && s.rows[id].publishedAt.Some? then 1 else 0
  }

  function Bit(b: bool): nat {
    if b then 1 else 0
  }

  /** Deliveries of a row = one if it is committed as published + rolled-back ones + that of its open batch. */
  ghost predicate Accounted(s: System) {
    && (forall id | !Locked(s, id) :: s.bus[id] == Published(s, id) + s.wasted[id])
    && (forall r, id | r in s.batches && id in s.batches[r].held ::
          s.bus[id] == Bit(id in s.batches[r].sent) + s.wasted[id])
  }

  ghost predicate RowsInv(st: Settings, s: System) {
    s.rows.Keys == s.attempts.Keys && forall id | id in s.rows :: RowInv(st, s.rows[id], s.attempts[id], s.clock)
  }

  ghost predicate BatchesInv(st: Settings, s: System) {
    forall r | r in s.batches :: BatchInv(st, s, s.batches[r])
  }

  ghost predicate Inv(st: Settings, s: System) {
    RowsInv(st, s) && BatchesInv(st, s) && Disjoint(s) && Accounted(s)
  }

  /** A batch does not notice what happens to rows it does not hold. */
  lemma BatchFrame(st: Settings, s: System, t: System, b: Batch)
    requires BatchInv(st, s, b) && s.clock <= t.clock
    requires forall id | id in b.held :: id in t.rows && t.rows[id] == s.rows[id]
    ensures BatchInv(st, t, b)
  {
    forall id | id in b.held
      ensures Anchored(st, t, b, id)
    {
      assert Anchored(st, s, b, id);
    }
  }

  lemma SameLocks(s: System, t: System)
    requires s.batches.Keys == t.batches.Keys
    requires forall r | r in s.batches :: s.batches[r].held == t.batches[r].held
    ensures forall id :: Locked(s, id) == Locked(t, id)
  {
  }

  /** The batches of `s` still stand in `t`, when every row they hold is as it was. */
  lemma BatchesFrame(st: Settings, s: System, t: System, except: set<nat>)
    requires BatchesInv(st, s) && s.clock <= t.clock
    requires forall r | r in t.batches && r !in except :: r in s.batches && t.batches[r] == s.batches[r]
    requires forall r, id | r in t.batches && r !in except && id in t.batches[r].held && id in s.rows ::
               id in t.rows && t.rows[id] == s.rows[id]
    ensures forall r | r in t.batches && r !in except :: BatchInv(st, t, t.batches[r])
  {
    forall r | r in t.batches && r !in except
      ensures BatchInv(st, t, t.batches[r])
    {
      var b := s.batches[r];
      assert BatchInv(st, s, b);
      forall id | id in b.held
        ensures id in t.rows && t.rows[id] == s.rows[id]
      {
        assert Anchored(st, s, b, id);
      }
      BatchFrame(st, s, t, b);
    }
  }

  /** A step that only lets time pass or adds a row keeps locks, batches and accounts. */
  lemma IdleKeepsInv(st: Settings, s: System, t: System)
    requires Inv(st, s) && RowsInv(st, t) && s.clock <= t.clock
    requires t.batches == s.batches && t.bus == s.bus && t.wasted == s.wasted
    requires forall id | id in s.rows :: id in t.rows && t.rows[id] == s.rows[id]
    requires forall id | id in t.rows && id !in s.rows :: t.rows[id].publishedAt.None?
    ensures Inv(st, t)
  {
    assert BatchesInv(st, t) by {
      BatchesFrame(st, s, t, {});
    }
    assert Accounted(t) by {
      SameLocks(s, t);
      assert forall id :: Published(s, id) == Published(t, id);
    }
  }

  lemma TickKeepsRows(st: Settings, s: System, t: System)
    requires RowsInv(st, s) && t.rows == s.rows && t.attempts == s.attempts && s.clock <= t.clock
    ensures RowsInv(st, t)
  {
    forall id | id in t.rows
      ensures RowInv(st, t.rows[id], t.attempts[id], t.clock)
    {
      assert RowInv(st, s.rows[id], s.attempts[id], s.clock);
    }
  }

  lemma TickKeepsInv(st: Settings, s: System, e: Event)
    requires Inv(st, s) && e.Tick?
    ensures Inv(st, Step(st, s, e))
  {
    var t := Step(st, s, e);
    TickKeepsRows(st, s, t);
    IdleKeepsInv(st, s, t);
  }

  lemma InsertKeepsRows(st: Settings, s: System, t: System, id: nat, row: Row)
    requires RowsInv(st, s) && id !in s.rows && t.clock == s.clock && RowInv(st, row, [], s.clock)
    requires t.rows == s.rows[id := row] && t.attempts == s.attempts[id := []]
    ensures RowsInv(st, t)
  {
    forall x | x in t.rows
      ensures RowInv(st, t.rows[x], t.attempts[x], t.clock)
    {
      if x != id {
        assert RowInv(st, s.rows[x], s.attempts[x], s.clock);
      }
    }
  }

  lemma InsertKeepsInv(st: Settings, s: System, e: Event)
    requires Inv(st, s) && ValidSettings(st) && e.Insert?
    ensures Inv(st, Step(st, s, e))
  {
    var t := Step(st, s, e);
    if t != s {
      InsertKeepsRows(st, s, t, e.id, NewRow(e.service, e.createdAt));
      IdleKeepsInv(st, s, t);
    }
  }

  lemma BeginKeepsBatches(st: Settings, s: System, t: System, r: nat, service: string, now: real, ids: seq<nat>)
    requires BatchesInv(st, s) && Disjoint(s) && Selects(st, s, service, now, ids) && r !in s.batches
    requires t == s.(batches := s.batches[r := NewBatch(now, ids)])
    ensures BatchesInv(st, t) && Disjoint(t)
  {
    var b := t.batches[r];
    forall id | id in b.held
      ensures Anchored(st, t, b, id)
    {
      assert Eligible(st, s, service, now, id);
      EligibleIsFree(st, s, service, now, id);
    }
    assert BatchInv(st, t, b);
    BatchesFrame(st, s, t, {r});
    forall p, q | p in t.batches && q in t.batches && p != q
      ensures t.batches[p].held !! t.batches[q].held
    {
      forall id | id in b.held
        ensures forall x | x in s.batches :: id !in s.batches[x].held
      {
        assert Eligible(st, s, service, now, id);
        EligibleIsFree(st, s, service, now, id);
      }
    }
  }

  lemma BeginKeepsAccounts(st: Settings, s: System, t: System, r: nat, service: string, now: real, ids: seq<nat>)
    requires Accounted(s) && Selects(st, s, service, now, ids) && r !in s.batches
    requires t == s.(batches := s.batches[r := NewBatch(now, ids)])
    ensures Accounted(t)
  {
    BeginLocks(s, t, r);
    forall q, id | q in t.batches && id in t.batches[q].held
      ensures t.bus[id] == Bit(id in t.batches[q].sent) + t.wasted[id]
    {
      if q == r {
        assert Eligible(st, s, service, now, id);
        EligibleIsFree(st, s, service, now, id);
      } else {
        assert q in s.batches && id in s.batches[q].held;
      }
    }
  }

  lemma BeginKeepsInv(st: Settings, s: System, e: Event)
    requires Inv(st, s) && e.Begin?
    ensures Inv(st, Step(st, s, e))
  {
    var t := Step(st, s, e);
    if t != s {
      BeginKeepsBatches(st, s, t, e.replica, e.service, e.now, e.ids);
      BeginKeepsAccounts(st, s, t, e.replica, e.service, e.now, e.ids);
      assert RowsInv(st, t);
    }
  }

  lemma BeginLocks(s: System, t: System, r: nat)
    requires r !in s.batches && r in t.batches && t.batches == s.batches[r := t.batches[r]]
    ensures forall id :: Locked(t, id) <==> Locked(s, id) || id in t.batches[r].held
  {
    forall id
      ensures Locked(t, id) <==> Locked(s, id) || id in t.batches[r].held
    {
      if Locked(s, id) {
        var q :| q in s.batches && id in s.batches[q].held;
        assert q in t.batches && id in t.batches[q].held;
      }
    }
  }

  /** A publish result keeps the shape of its batch. */
  lemma PublishKeepsShape(b: Batch, delivered: bool)
    requires Shape(b) && b.outcome.None? && b.todo != []
    ensures Shape(b.(outcome := Some(delivered), sent := if delivered then b.sent + {b.todo[0]} else b.sent))
    ensures b.todo[0] in b.held && b.todo[0] !in b.sent
  {
    assert b.todo[0] in b.todo;
  }

  lemma MarkKeepsBatch(st: Settings, s: System, b: Batch)
    requires BatchInv(st, s, b) && b.outcome.Some? && b.todo != [] && b.todo[0] in s.rows
    ensures BatchInv(st, s, AfterMark(st, s, b))
  {
    var c := AfterMark(st, s, b);
    var id := b.todo[0];
    assert Anchored(st, s, b, id) by {
      assert id in b.todo;
    }
    forall x | x in c.held
      ensures Anchored(st, s, c, x)
    {
      assert Anchored(st, s, b, x);
    }
    MarkKeepsShape(b, c, c.view[id]);
  }

  /** A mark that says what the publish said keeps the shape of its batch. */
  lemma MarkKeepsShape(b: Batch, c: Batch, v: Row)
    requires Shape(b) && b.outcome.Some? && b.todo != [] && v.publishedAt.Some? == b.outcome.value
    requires c == b.(todo := b.todo[1..], outcome := None, view := b.view[b.todo[0] := v])
    ensures Shape(c)
  {
    var id := b.todo[0];
    assert id in b.todo && forall x | x in c.todo :: x in b.todo && x != id;
    assert forall x | x in b.todo :: x == id || x in c.todo;
  }

  /** `t` is `s` after replica `r` moved on inside its transaction. */
  ghost predicate Advances(s: System, t: System, r: nat) {
    && r in s.batches && r in t.batches
    && t == s.(batches := s.batches[r := t.batches[r]], bus := t.bus)
    && t.batches[r].held == s.batches[r].held
    && (forall id :: t.bus[id] + Bit(id in s.batches[r].sent) == s.bus[id] + Bit(id in t.batches[r].sent))
    && (forall id | id !in s.batches[r].held :: t.bus[id] == s.bus[id])
  }

  lemma AdvanceKeepsDisjoint(s: System, t: System, r: nat)
    requires Disjoint(s) && Advances(s, t, r)
    ensures Disjoint(t)
  {
    forall p, q | p in t.batches && q in t.batches && p != q
      ensures t.batches[p].held !! t.batches[q].held
    {
      assert s.batches[p].held !! s.batches[q].held;
    }
  }

  lemma AdvanceKeepsAccounts(s: System, t: System, r: nat)
    requires Disjoint(s) && Accounted(s) && Advances(s, t, r)
    ensures Accounted(t)
  {
    SameLocks(s, t);
    forall id | !Locked(t, id)
      ensures t.bus[id] == Published(t, id) + t.wasted[id]
    {
      assert !Locked(s, id);
      assert id !in s.batches[r].held;
    }
    forall q, id | q in t.batches && id in t.batches[q].held
      ensures t.bus[id] == Bit(id in t.batches[q].sent) + t.wasted[id]
    {
      assert q in s.batches && id in s.batches[q].held;
      if q != r {
        assert s.batches[q].held !! s.batches[r].held;
      }
    }
  }

  lemma AdvanceKeepsInv(st: Settings, s: System, t: System, r: nat)
    requires Inv(st, s) && Advances(s, t, r) && BatchInv(st, t, t.batches[r])
    ensures Inv(st, t)
  {
    AdvanceKeepsDisjoint(s, t, r);
    AdvanceKeepsAccounts(s, t, r);
    assert BatchesInv(st, t) by {
      BatchesFrame(st, s, t, {r});
    }
    assert RowsInv(st, t);
  }

  lemma MarkKeepsInv(st: Settings, s: System, e: Event)
    requires Inv(st, s) && e.Mark?
    ensures Inv(st, Step(st, s, e))
  {
    var t := Step(st, s, e);
    if t != s {
      assert BatchInv(st, s, s.batches[e.replica]);
      MarkKeepsBatch(st, s, s.batches[e.replica]);
      BatchFrame(st, s, t, t.batches[e.replica]);
      AdvanceKeepsInv(st, s, t, e.replica);
    }
  }

  lemma PublishKeepsInv(st: Settings, s: System, e: Event)
    requires Inv(st, s) && (e.Deliver? || e.Raise?)
    ensures Inv(st, Step(st, s, e))
  {
    var t := Step(st, s, e);
    if t != s {
      var b, c := s.batches[e.replica], t.batches[e.replica];
      assert BatchInv(st, s, b);
      PublishKeepsShape(b, e.Deliver?);
      forall id | id in c.held
        ensures Anchored(st, t, c, id)
      {
        assert Anchored(st, s, b, id);
      }
      AdvanceKeepsInv(st, s, t, e.replica);
    }
  }

  lemma UnlockedAfter(s: System, t: System, r: nat)
    requires Disjoint(s) && r in s.batches && t.batches == s.batches - {r}
    ensures forall id :: Locked(t, id) <==> Locked(s, id) && id !in s.batches[r].held
    ensures Disjoint(t)
  {
    forall id
      ensures Locked(t, id) <==> Locked(s, id) && id !in s.batches[r].held
    {
      if Locked(s, id) && id !in s.batches[r].held {
        var q :| q in s.batches && id in s.batches[q].held;
        assert q in t.batches;
      }
      if Locked(t, id) {
        var q :| q in t.batches && id in t.batches[q].held;
        assert q in s.batches && id in s.batches[q].held;
      }
    }
  }

  lemma RollbackKeepsInv(st: Settings, s: System, e: Event)
    requires Inv(st, s) && e.Rollback?
    ensures Inv(st, Step(st, s, e))
  {
    var t := Step(st, s, e);
    if t != s {
      var b := s.batches[e.replica];
      UnlockedAfter(s, t, e.replica);
      assert BatchInv(st, s, b);
      BatchesFrame(st, s, t, {});
      forall id | !Locked(t, id)
        ensures t.bus[id] == Published(t, id) + t.wasted[id]
      {
        if id in b.held {
          assert Anchored(st, s, b, id);
        }
      }
    }
  }

  lemma SpreadSnoc(st: Settings, tries: seq<real>, at: real)
    requires Spread(st, tries) && (tries != [] ==> at - tries[|tries| - 1] >= Backoff(st, |tries|))
    ensures Spread(st, tries + [at])
  {
    var more := tries + [at];
    forall k | 1 <= k < |more|
      ensures more[k] - more[k - 1] >= Backoff(st, k)
    {
      if k < |tries| {
        assert tries[k] - tries[k - 1] >= Backoff(st, k);
      }
    }
  }

  lemma CommitKeepsRow(st: Settings, s: System, b: Batch, id: nat)
    requires RowsInv(st, s) && BatchInv(st, s, b) && id in b.view
    ensures id in s.attempts
    ensures RowInv(st, b.view[id], Record(s.attempts, b.view)[id], s.clock)
  {
    var row, v, tries := s.rows[id], b.view[id], s.attempts[id];
    assert Anchored(st, s, b, id);
    assert RowInv(st, row, tries, s.clock);
    if v.publishedAt.None? {
      SpreadSnoc(st, tries, v.lastAttemptAt.value);
    }
  }

  lemma CommitKeepsRows(st: Settings, s: System, t: System, b: Batch)
    requires RowsInv(st, s) && BatchInv(st, s, b) && b.todo == []
    requires t.rows == s.rows + b.view && t.attempts == Record(s.attempts, b.view) && t.clock == s.clock
    ensures RowsInv(st, t)
  {
    forall id | id in b.view
      ensures id in s.rows
    {
      assert Anchored(st, s, b, id);
    }
    assert t.rows.Keys == s.rows.Keys;
    forall id | id in t.rows
      ensures RowInv(st, t.rows[id], t.attempts[id], t.clock)
    {
      assert RowInv(st, s.rows[id], s.attempts[id], s.clock);
      if id in b.view {
        CommitKeepsRow(st, s, b, id);
      }
    }
  }

  lemma CommitKeepsBatches(st: Settings, s: System, e: Event)
    requires Inv(st, s) && e.Commit? && e.replica in s.batches && s.batches[e.replica].todo == []
    ensures BatchesInv(st, Step(st, s, e)) && Disjoint(Step(st, s, e))
  {
    var t := Step(st, s, e);
    var b := s.batches[e.replica];
    assert BatchInv(st, s, b);
    UnlockedAfter(s, t, e.replica);
    forall r, id | r in t.batches && id in t.batches[r].held
      ensures id !in b.view
    {
      assert s.batches[r].held !! b.held;
    }
    BatchesFrame(st, s, t, {});
  }

  lemma CommitKeepsInv(st: Settings, s: System, e: Event)
    requires Inv(st, s) && e.Commit?
    ensures Inv(st, Step(st, s, e))
  {
    var t := Step(st, s, e);
    if t != s {
      CommitKeepsBatches(st, s, e);
      assert BatchInv(st, s, s.batches[e.replica]);
      CommitKeepsAccounts(s, t, e.replica);
      CommitKeepsRows(st, s, t, s.batches[e.replica]);
    }
  }

  /** A row of the batch that commits: its delivery becomes its publish mark. */
  lemma CommittedRow(s: System, t: System, b: Batch, id: nat)
    requires Shape(b) && b.todo == [] && t.rows == s.rows + b.view && id in b.held
    ensures Published(t, id) == Bit(id in b.sent)
  {
    assert id in b.view && (id in b.sent <==> IsSent(b, id));
  }

  lemma CommitKeepsAccounts(s: System, t: System, r: nat)
    requires Disjoint(s) && Accounted(s) && r in s.batches && Shape(s.batches[r]) && s.batches[r].todo == []
    requires t.rows == s.rows + s.batches[r].view && t.batches == s.batches - {r}
    requires t.bus == s.bus && t.wasted == s.wasted
    ensures Accounted(t)
  {
    var b := s.batches[r];
    UnlockedAfter(s, t, r);
    forall id | !Locked(t, id)
      ensures t.bus[id] == Published(t, id) + t.wasted[id]
    {
      if id in b.held {
        CommittedRow(s, t, b, id);
      } else {
        assert id !in b.view && Published(t, id) == Published(s, id);
      }
    }
    forall q, id | q in t.batches && id in t.batches[q].held
      ensures t.bus[id] == Bit(id in t.batches[q].sent) + t.wasted[id]
    {
      assert q in s.batches && id in s.batches[q].held;
    }
  }

  lemma StepKeepsInv(st: Settings, s: System, e: Event)
    requires Inv(st, s) && ValidSettings(st)
    ensures Inv(st, Step(st, s, e))
  {
    match e
    case Tick(_) => TickKeepsInv(st, s, e);
    case Insert(_, _, _) => InsertKeepsInv(st, s, e);
    case Begin(_, _, _, _) => BeginKeepsInv(st, s, e);
    case Commit(_) => CommitKeepsInv(st, s, e);
    case Rollback(_) => RollbackKeepsInv(st, s, e);
    case Mark(_) => MarkKeepsInv(st, s, e);
    case _ => PublishKeepsInv(st, s, e);
  }

  lemma {:induction false} RunKeepsInv(st: Settings, es: seq<Event>)
    requires ValidSettings(st)
    ensures Inv(st, Run(st, es))
  {
    if es != [] {
      RunKeepsInv(st, es[..|es| - 1]);
      StepKeepsInv(st, Run(st, es[..|es| - 1]), es[|es| - 1]);
    }
  }

  // ----- delivery -----

  /** In-flight batches never share a row, in any run. */
  lemma InFlightDisjoint(st: Settings, es: seq<Event>, r: nat, q: nat, id: nat)
    requires ValidSettings(st)
    requires r in Run(st, es).batches && q in Run(st, es).batches
    requires id in Run(st, es).batches[r].held && id in Run(st, es).batches[q].held
    ensures r == q
  {
    RunKeepsInv(st, es);
  }

  /** What the invariant says about the deliveries of one row. */
  lemma DeliveriesOf(st: Settings, s: System, id: nat)
    requires Inv(st, s)
    ensures !Locked(s, id) ==> s.bus[id] == Published(s, id) + s.wasted[id]
    ensures Locked(s, id) ==> Published(s, id) == 0 && s.wasted[id] <= s.bus[id] <= 1 + s.wasted[id]
  {
    if Locked(s, id) {
      var r :| r in s.batches && id in s.batches[r].held;
      assert BatchInv(st, s, s.batches[r]);
      assert Anchored(st, s, s.batches[r], id);
    }
  }

  /** The delivery ledger of a row that no batch holds; a published row is never held. */
  lemma DeliveryAccounting(st: Settings, es: seq<Event>, id: nat)
    requires ValidSettings(st)
    ensures
      var s := Run(st, es);
      && (!Locked(s, id) ==> s.bus[id] == Published(s, id) + s.wasted[id])
      && (Published(s, id) == 1 ==> !Locked(s, id) && s.bus[id] == 1 + s.wasted[id])
  {
    RunKeepsInv(st, es);
    DeliveriesOf(st, Run(st, es), id);
  }

  lemma {:induction false} NothingWasted(st: Settings, es: seq<Event>)
    requires forall e | e in es :: !e.Rollback?
    ensures Run(st, es).wasted == multiset{}
  {
    if es != [] {
      NothingWasted(st, es[..|es| - 1]);
      assert es[|es| - 1] in es;
    }
  }

  /** With no cancelled batch a row is delivered exactly once when published, and never twice before. */
  lemma ExactlyOnceWithoutRollback(st: Settings, es: seq<Event>, id: nat)
    requires ValidSettings(st)
    requires forall e | e in es :: !e.Rollback?
    ensures
      var s := Run(st, es);
      s.bus[id] <= 1 && (Published(s, id) == 1 ==> s.bus[id] == 1) && (!Locked(s, id) ==> s.bus[id] == Published(s, id))
  {
    NothingWasted(st, es);
    RunKeepsInv(st, es);
    DeliveriesOf(st, Run(st, es), id);
  }

  // ----- exhaustion -----

  function BackoffSum(st: Settings, n: nat): real {
    if n == 0 then 0.0 else BackoffSum(st, n - 1) + Backoff(st, n)
  }

  /** The sum of the waits after attempts 1 to `n`. */
  lemma BackoffSumIs(st: Settings, n: nat)
    ensures BackoffSum(st, 0) == 0.0
    ensures BackoffSum(st, n + 1) == BackoffSum(st, n)
              + if st.backoffBase * Pow2(n + 1) <= st.backoffCap then st.backoffBase * Pow2(n + 1) else st.backoffCap
  {
  }

  lemma {:induction false} SpreadSum(st: Settings, tries: seq<real>, n: nat)
    requires Spread(st, tries) && n < |tries|
    ensures tries[n] - tries[0] >= BackoffSum(st, n)
  {
    if n > 0 {
      SpreadSum(st, tries, n - 1);
      assert tries[n] - tries[n - 1] >= Backoff(st, n);
    }
  }

  /** No row is both published and failed; it is failed iff its attempts ran out; retries keep the back-off. */
  lemma {:induction false} AttemptsRespectBackoff(st: Settings, es: seq<Event>, id: nat)
    requires ValidSettings(st) && id in Run(st, es).rows
    ensures
      var s := Run(st, es);
      var row := s.rows[id];
      && id in s.attempts && |s.attempts[id]| == row.attemptCount
      && !(row.publishedAt.Some? && row.failedAt.Some?)
      && (row.failedAt.Some? <==> row.attemptCount >= st.maxAttempts)
      && SpacedOut(st, s.attempts[id])
      && (row.failedAt.Some? ==> row.failedAt.value - s.attempts[id][0] >= BackoffSum(st, st.maxAttempts - 1))
  {
    RunKeepsInv(st, es);
    var s := Run(st, es);
    assert RowInv(st, s.rows[id], s.attempts[id], s.clock);
    SpreadOut(st, s.attempts[id]);
    if s.rows[id].failedAt.Some? {
      SpreadSum(st, s.attempts[id], st.maxAttempts - 1);
    }
  }

  /** Attempt `k + 1` comes at least min(base * 2^k, cap) after attempt `k`, attempts being numbered from 1. */
  ghost predicate SpacedOut(st: Settings, tries: seq<real>) {
    forall k | 1 <= k < |tries| ::
      tries[k] - tries[k - 1]
      >= if st.backoffBase * Pow2(k) <= st.backoffCap then st.backoffBase * Pow2(k) else st.backoffCap
  }

  lemma SpreadOut(st: Settings, tries: seq<real>)
    requires ValidSettings(st) && Spread(st, tries)
    ensures SpacedOut(st, tries)
  {
    forall k | 1 <= k < |tries|
      ensures tries[k] - tries[k - 1]
           >= if st.backoffBase * Pow2(k) <= st.backoffCap then st.backoffBase * Pow2(k) else st.backoffCap
    {
      assert tries[k] - tries[k - 1] >= Backoff(st, k);
      BackoffDoubles(st, k);
    }
  }
}
