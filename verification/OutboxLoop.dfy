/** The batch loop of one replica against the machine of all replicas: the loop is a run, cancelled or not. */
module OutboxLoop {
  import opened Common
  import opened Outbox

  /** The publishes that end, and are marked, before a cancellation. */
  function Completed(world: seq<Publish>): (n: nat)
    ensures n <= Reached(world) <= n + 1
    ensures n <= |world| && forall i | 0 <= i < n :: !world[i].Cancelled?
    ensures n < |world| ==> world[n].Cancelled? && Reached(world) == n + 1
    ensures n == |world| ==> Reached(world) == n
  {
    var n := Reached(world);
    if n > 0 && world[n - 1].Cancelled? then n - 1 else n
  }

  /** The first `n` publishes end one after the other. */
  predicate Timed(clock: real, world: seq<Publish>, n: nat)
    requires n <= |world| && forall i | 0 <= i < n :: !world[i].Cancelled?
  {
    && (forall i | 0 <= i < n :: clock <= world[i].at)
    && (forall i, j | 0 <= i < j < n :: world[i].at <= world[j].at)
  }

  /** One publish of replica `r` that ends as `w` says: the clock moves on, the publish ends, the row is marked. */
  ghost function AfterPublish(st: Settings, t: System, r: nat, w: Publish): System
    requires !w.Cancelled?
  {
    Step(st, Step(st, Step(st, t, Tick(w.at - t.clock)), if w.Delivered? then Deliver(r) else Raise(r)), Mark(r))
  }

  /** The first `n` publishes of a batch that nobody interrupts. */
  ghost function AfterAll(st: Settings, s: System, r: nat, world: seq<Publish>, n: nat): System
    requires n <= |world| && forall i | 0 <= i < n :: !world[i].Cancelled?
  {
    if n == 0 then s else AfterPublish(st, AfterAll(st, s, r, world, n - 1), r, world[n - 1])
  }

  /** The whole batch: it commits, or the publish in progress is cancelled, delivered or not, and it rolls back. */
  ghost function AfterBatch(st: Settings, s: System, r: nat, world: seq<Publish>): System {
    var n := Completed(world);
    var t := AfterAll(st, s, r, world, n);
    if n == |world| then Step(st, t, Commit(r))
    else Step(st, if world[n].delivered then Step(st, t, Deliver(r)) else t, Rollback(r))
  }

  // ----- the marks -----

  lemma MarkFits(st: Settings, rows: map<nat, Row>, view: map<nat, Row>, id: nat, w: Publish)
    requires !w.Cancelled? && id in rows && id !in view
    ensures rows + view[id := if w.Delivered? then MarkPublished(rows[id], w.at) else MarkFailed(st, rows[id], w.at)]
         == MarkOne(st, rows + view, id, w)
  {
    assert (rows + view)[id] == rows[id];
  }

  /** One more publish: a row not yet marked takes its mark from the committed row. */
  lemma MarksGrow(st: Settings, rows: map<nat, Row>, view: map<nat, Row>, ids: seq<nat>, world: seq<Publish>, n: nat)
    requires |ids| == |world| && n < |ids| && !world[n].Cancelled? && ids[n] in rows && ids[n] !in view
    requires rows + view == MarkAll(st, rows, ids[..n], world[..n])
    ensures
      var id, w := ids[n], world[n];
      rows + view[id := if w.Delivered? then MarkPublished(rows[id], w.at) else MarkFailed(st, rows[id], w.at)]
        == MarkAll(st, rows, ids[..n + 1], world[..n + 1])
  {
    OneMoreMark(st, rows, ids, world, n);
    MarkFits(st, rows, view, ids[n], world[n]);
  }

  // ----- the deliveries -----

  /** What one publish puts on the bus. */
  function Put(id: nat, w: Publish): multiset<nat> {
    if w.Delivered? || (w.Cancelled? && w.delivered) then multiset{id} else multiset{}
  }

  /** What the first `n` publishes put there. */
  function Bag(ids: seq<nat>, world: seq<Publish>, n: nat): multiset<nat>
    requires n <= |ids| == |world|
  {
    if n == 0 then multiset{} else Bag(ids, world, n - 1) + Put(ids[n - 1], world[n - 1])
  }

  lemma {:induction false} BagIsSent(ids: seq<nat>, world: seq<Publish>, n: nat)
    requires n <= |ids| == |world|
    ensures Bag(ids, world, n) == multiset(Sent(ids[..n], world[..n]))
  {
    if n > 0 {
      BagIsSent(ids, world, n - 1);
      var sent := Sent(ids[..n - 1], world[..n - 1]);
      OneMoreSent(ids, world, n - 1);
      BagOfOneMore(sent, ids[n - 1], world[n - 1]);
    }
  }

  lemma BagOfOneMore(sent: seq<nat>, id: nat, w: Publish)
    ensures multiset(sent + (if w.Delivered? || (w.Cancelled? && w.delivered) then [id] else []))
         == multiset(sent) + Put(id, w)
  {
    assert sent + [] == sent;
  }

  // ----- the batch in flight -----

  /** Where replica `r` stands after the first `n` publishes of its batch `ids`, alone from `s`. */
  ghost predicate Halfway(st: Settings, s: System, t: System, r: nat, ids: seq<nat>, world: seq<Publish>, n: nat)
    requires n <= |ids| == |world| && forall i | 0 <= i < n :: !world[i].Cancelled?
  {
    && r in t.batches && t.rows == s.rows && t.clock == (if n == 0 then s.clock else world[n - 1].at)
    && t.batches[r].todo == ids[n..] && t.batches[r].outcome.None?
    && s.rows + t.batches[r].view == MarkAll(st, s.rows, ids[..n], world[..n])
    && (forall id | id in t.batches[r].view :: id in ids[..n])
    && Carried(s, t, r, ids, world, n)
  }

  /** The bus side: what was delivered so far is on the bus and noted in the batch, each row once. */
  ghost predicate Carried(s: System, t: System, r: nat, ids: seq<nat>, world: seq<Publish>, n: nat)
    requires n <= |ids| == |world| && r in t.batches
  {
    && t.bus == s.bus + Bag(ids, world, n) && t.wasted == s.wasted
    && t.batches - {r} == s.batches - {r}
    && multiset(t.batches[r].sent) == Bag(ids, world, n)
    && (forall id | id in t.batches[r].sent :: id in ids[..n])
  }

  /** The step of one publish result, before its mark. */
  lemma ResultEffect(st: Settings, t: System, r: nat, delivered: bool)
    requires CanPublish(t, r)
    ensures
      var b, u := t.batches[r], Step(st, t, if delivered then Deliver(r) else Raise(r));
      var id := b.todo[0];
      && u.rows == t.rows && u.clock == t.clock && u.wasted == t.wasted
      && u.bus == t.bus + (if delivered then multiset{id} else multiset{})
      && r in u.batches && u.batches - {r} == t.batches - {r}
      && u.batches[r] == b.(outcome := Some(delivered), sent := if delivered then b.sent + {id} else b.sent)
  {
    assert t.bus + multiset{} == t.bus;
  }

  lemma PublishEffect(st: Settings, t: System, r: nat, w: Publish)
    requires !w.Cancelled? && t.clock <= w.at
    requires CanPublish(t, r) && t.batches[r].todo[0] in t.rows
    ensures
      var b, u := t.batches[r], AfterPublish(st, t, r, w);
      var id := b.todo[0];
      && u.rows == t.rows && u.clock == w.at && u.wasted == t.wasted && u.bus == t.bus + Put(id, w)
      && r in u.batches && u.batches - {r} == t.batches - {r}
      && u.batches[r].todo == b.todo[1..] && u.batches[r].outcome.None?
      && u.batches[r].sent == (if w.Delivered? then b.sent + {id} else b.sent)
      && u.batches[r].view == b.view[id := if w.Delivered? then MarkPublished(t.rows[id], w.at)
                                           else MarkFailed(st, t.rows[id], w.at)]
  {
    var t1 := t.(clock := w.at);
    assert Step(st, t, Tick(w.at - t.clock)) == t1;
    ResultEffect(st, t1, r, w.Delivered?);
    var t2 := Step(st, t1, if w.Delivered? then Deliver(r) else Raise(r));
    assert CanMark(t2, r);
  }

  lemma NextOf(ids: seq<nat>, n: nat)
    requires n < |ids| && NoRepeats(ids)
    ensures ids[n] in ids && ids[n..][0] == ids[n] && ids[n..][1..] == ids[n + 1..]
    ensures ids[n] !in ids[..n] && ids[..n + 1] == ids[..n] + [ids[n]]
  {
  }

  lemma CarriedOn(s: System, t: System, u: System, r: nat, ids: seq<nat>, world: seq<Publish>, n: nat)
    requires n < |ids| == |world| && NoRepeats(ids) && r in t.batches && r in u.batches
    requires Carried(s, t, r, ids, world, n)
    requires u.bus == t.bus + Put(ids[n], world[n]) && u.wasted == t.wasted && u.batches - {r} == t.batches - {r}
    requires u.batches[r].sent
          == if Put(ids[n], world[n]) == multiset{ids[n]} then t.batches[r].sent + {ids[n]} else t.batches[r].sent
    ensures Carried(s, u, r, ids, world, n + 1)
  {
    NextOf(ids, n);
    if Put(ids[n], world[n]) == multiset{ids[n]} {
      SetGrows(t.batches[r].sent, ids[n]);
    }
  }

  lemma SetGrows(sent: set<nat>, id: nat)
    requires id !in sent
    ensures multiset(sent + {id}) == multiset(sent) + multiset{id}
  {
  }

  lemma OnePublish(st: Settings, s: System, t: System, r: nat, ids: seq<nat>, world: seq<Publish>, n: nat)
    requires n < |ids| == |world| && NoRepeats(ids) && ids[n] in s.rows
    requires forall i | 0 <= i < n + 1 :: !world[i].Cancelled?
    requires Timed(s.clock, world, n + 1) && Halfway(st, s, t, r, ids, world, n)
    ensures Halfway(st, s, AfterPublish(st, t, r, world[n]), r, ids, world, n + 1)
  {
    NextOf(ids, n);
    PublishEffect(st, t, r, world[n]);
    MarksGrow(st, s.rows, t.batches[r].view, ids, world, n);
    CarriedOn(s, t, AfterPublish(st, t, r, world[n]), r, ids, world, n);
  }

  lemma HalfwayStart(st: Settings, s: System, r: nat, now: real, ids: seq<nat>, world: seq<Publish>)
    requires |ids| == |world| && r in s.batches && s.batches[r] == NewBatch(now, ids)
    ensures Halfway(st, s, s, r, ids, world, 0)
  {
    assert ids[0..] == ids && s.rows + map[] == s.rows && s.bus + multiset{} == s.bus;
  }

  lemma TimedSooner(clock: real, world: seq<Publish>, n: nat, m: nat)
    requires m <= n <= |world| && (forall i | 0 <= i < n :: !world[i].Cancelled?) && Timed(clock, world, n)
    ensures Timed(clock, world, m)
  {
  }

  lemma {:induction false} HalfwayThere(
      st: Settings, s: System, r: nat, now: real, ids: seq<nat>, world: seq<Publish>, n: nat, k: nat)
    requires n <= k <= |ids| == |world| && NoRepeats(ids) && forall i | 0 <= i < k :: !world[i].Cancelled?
    requires Timed(s.clock, world, k)
    requires r in s.batches && s.batches[r] == NewBatch(now, ids)
    requires forall i | 0 <= i < |ids| :: ids[i] in s.rows
    ensures Halfway(st, s, AfterAll(st, s, r, world, n), r, ids, world, n)
  {
    if n == 0 {
      HalfwayStart(st, s, r, now, ids, world);
    } else {
      var t := AfterAll(st, s, r, world, n - 1);
      HalfwayThere(st, s, r, now, ids, world, n - 1, k);
      TimedSooner(s.clock, world, k, n);
      OnePublish(st, s, t, r, ids, world, n - 1);
    }
  }

  // ----- the end of the batch -----

  lemma CommitEffect(st: Settings, t: System, r: nat)
    requires r in t.batches && t.batches[r].todo == []
    ensures
      var u := Step(st, t, Commit(r));
      && u.rows == t.rows + t.batches[r].view && u.bus == t.bus && u.wasted == t.wasted
      && u.batches == t.batches - {r}
  {
  }

  lemma RollbackEffect(st: Settings, t: System, r: nat)
    requires r in t.batches
    ensures
      var u := Step(st, t, Rollback(r));
      && u.rows == t.rows && u.bus == t.bus && u.wasted == t.wasted + multiset(t.batches[r].sent)
      && u.batches == t.batches - {r}
  {
  }

  /** What a batch that began in `s` leaves behind. */
  ghost predicate Left(st: Settings, s: System, t: System, r: nat, ids: seq<nat>, world: seq<Publish>)
    requires |ids| == |world|
  {
    var sent := Bag(ids, world, Reached(world));
    && t.bus == s.bus + sent
    && t.batches == s.batches - {r}
    && if Completed(world) == |world|
       then t.rows == MarkAll(st, s.rows, ids, world) && t.wasted == s.wasted
       else t.rows == s.rows && t.wasted == s.wasted + sent
  }

  lemma CommitLeaves(st: Settings, s: System, t: System, r: nat, ids: seq<nat>, world: seq<Publish>)
    requires |ids| == |world| && Completed(world) == |world| && Halfway(st, s, t, r, ids, world, |world|)
    ensures Left(st, s, Step(st, t, Commit(r)), r, ids, world)
  {
    CommitEffect(st, t, r);
    assert world[..|ids|] == world && ids[..|ids|] == ids;
  }

  /** The publish in progress ends, delivered or not, and nobody marks it. */
  lemma CancelledPublish(st: Settings, s: System, t: System, r: nat, ids: seq<nat>, world: seq<Publish>, n: nat)
    requires n < |ids| == |world| && NoRepeats(ids) && world[n].Cancelled?
    requires CanPublish(t, r) && t.batches[r].todo[0] == ids[n] && Carried(s, t, r, ids, world, n)
    ensures
      var u := if world[n].delivered then Step(st, t, Deliver(r)) else t;
      u.rows == t.rows && r in u.batches && Carried(s, u, r, ids, world, n + 1)
  {
    if world[n].delivered {
      ResultEffect(st, t, r, true);
      CarriedOn(s, t, Step(st, t, Deliver(r)), r, ids, world, n);
    } else {
      assert t.bus + multiset{} == t.bus;
      CarriedOn(s, t, t, r, ids, world, n);
    }
  }

  lemma RollbackLeaves(st: Settings, s: System, u: System, r: nat, ids: seq<nat>, world: seq<Publish>)
    requires |ids| == |world| && Completed(world) < |world|
    requires u.rows == s.rows && r in u.batches && Carried(s, u, r, ids, world, Reached(world))
    ensures Left(st, s, Step(st, u, Rollback(r)), r, ids, world)
  {
    RollbackEffect(st, u, r);
  }

  lemma HalfwayCanPublish(st: Settings, s: System, t: System, r: nat, ids: seq<nat>, world: seq<Publish>, n: nat)
    requires n < |ids| == |world| && forall i | 0 <= i < n :: !world[i].Cancelled?
    requires Halfway(st, s, t, r, ids, world, n)
    ensures t.rows == s.rows && CanPublish(t, r) && t.batches[r].todo[0] == ids[n]
  {
  }

  lemma BatchLeaves(st: Settings, s: System, r: nat, now: real, ids: seq<nat>, world: seq<Publish>)
    requires |ids| == |world| && NoRepeats(ids) && Timed(s.clock, world, Completed(world))
    requires r in s.batches && s.batches[r] == NewBatch(now, ids)
    requires forall i | 0 <= i < |ids| :: ids[i] in s.rows
    ensures Left(st, s, AfterBatch(st, s, r, world), r, ids, world)
  {
    var n := Completed(world);
    var t := AfterAll(st, s, r, world, n);
    HalfwayThere(st, s, r, now, ids, world, n, n);
    if n == |world| {
      CommitLeaves(st, s, t, r, ids, world);
    } else {
      HalfwayCanPublish(st, s, t, r, ids, world, n);
      CancelledPublish(st, s, t, r, ids, world, n);
      RollbackLeaves(st, s, if world[n].delivered then Step(st, t, Deliver(r)) else t, r, ids, world);
    }
  }

  lemma BeginEffect(st: Settings, s: System, r: nat, service: string, now: real, ids: seq<nat>)
    requires ids != [] && r !in s.batches && Selects(st, s, service, now, ids)
    ensures Step(st, s, Begin(r, service, now, ids)) == s.(batches := s.batches[r := NewBatch(now, ids)])
    ensures NoRepeats(ids) && forall i | 0 <= i < |ids| :: ids[i] in s.rows
  {
    assert forall i | 0 <= i < |ids| :: Eligible(st, s, service, now, ids[i]);
  }

  predicate HasCancelled(world: seq<Publish>) {
    exists w :: w in world && w.Cancelled?
  }

  lemma CompletedAll(world: seq<Publish>)
    ensures HasCancelled(world) <==> Completed(world) < |world|
  {
    if Completed(world) < |world| {
      ReachedCancelled(world, Completed(world));
    } else {
      ReachedAll(world);
    }
  }

  lemma Removed(batches: map<nat, Batch>, r: nat, b: Batch)
    requires r !in batches
    ensures batches[r := b] - {r} == batches
  {
  }

  /**
   A replica that selects `ids` and runs its batch alone does to table and bus exactly what the loop does: it commits
   every mark, or none if it is cancelled, and what it delivered stays on the bus, wasted if it was cancelled. By
   `BagIsSent` the bag is what the loop sends.
   */
  lemma LoopIsRun(
      st: Settings, s: System, r: nat, service: string, now: real, ids: seq<nat>, world: seq<Publish>)
    requires |ids| == |world| && ids != [] && r !in s.batches && Selects(st, s, service, now, ids)
    requires Timed(s.clock, world, Completed(world))
    ensures
      var t := AfterBatch(st, Step(st, s, Begin(r, service, now, ids)), r, world);
      var sent := Bag(ids, world, Reached(world));
      && t.rows == (if HasCancelled(world) then s.rows else MarkAll(st, s.rows, ids, world))
      && t.bus == s.bus + sent
      && t.wasted == (if HasCancelled(world) then s.wasted + sent else s.wasted)
      && t.batches == s.batches
  {
    BeginEffect(st, s, r, service, now, ids);
    BatchLeaves(st, s.(batches := s.batches[r := NewBatch(now, ids)]), r, now, ids, world);
    CompletedAll(world);
    Removed(s.batches, r, NewBatch(now, ids));
  }
}
