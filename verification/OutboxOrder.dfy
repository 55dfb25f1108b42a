/** The order in which rows reach the bus, and what it takes for that to be the order in which they were created. */
module OutboxOrder {
  import opened Common
  import opened Outbox

  /** Whether the event puts a row on the bus. */
  predicate Delivers(s: System, e: Event) {
    e.Deliver? && CanPublish(s, e.replica)
  }

  /** The deliveries of a run, in order. */
  ghost function Order(st: Settings, es: seq<Event>): seq<nat> {
    if es == [] then []
    else
      var init, e := es[..|es| - 1], es[|es| - 1];
      var s := Run(st, init);
      Order(st, init) + if Delivers(s, e) then [s.batches[e.replica].todo[0]] else []
  }

  lemma StepBus(st: Settings, s: System, e: Event)
    ensures Step(st, s, e).bus == if Delivers(s, e) then s.bus + multiset{s.batches[e.replica].todo[0]} else s.bus
  {
  }

  lemma BagSnoc(order: seq<nat>, id: nat)
    ensures multiset(order + [id]) == multiset(order) + multiset{id}
  {
  }

  /** It is the bus with its order. */
  lemma {:induction false} OrderIsBus(st: Settings, es: seq<Event>)
    ensures multiset(Order(st, es)) == Run(st, es).bus
  {
    if es != [] {
      var init, e := es[..|es| - 1], es[|es| - 1];
      var s := Run(st, init);
      OrderIsBus(st, init);
      StepBus(st, s, e);
      if Delivers(s, e) {
        BagSnoc(Order(st, init), s.batches[e.replica].todo[0]);
      } else {
        assert Order(st, init) + [] == Order(st, init);
      }
    }
  }

  // ----- quiet operation -----

  /** One replica, nothing raised, nothing rolled back, and rows created in order. */
  ghost predicate Quiet(s: System, e: Event, r: nat, service: string) {
    match e
    case Begin(q, sv, _, _) => q == r && sv == service
    case Raise(q) => !CanPublish(s, q)
    case Rollback(q) => q !in s.batches
    case Insert(id, sv, createdAt) =>
      sv == service && id !in s.rows ==>
        forall x | x in s.rows && s.rows[x].service == service :: s.rows[x].createdAt <= createdAt
    case _ => true
  }

  ghost predicate QuietRun(st: Settings, es: seq<Event>, r: nat, service: string) {
    es == [] || (
      var init, e := es[..|es| - 1], es[|es| - 1];
      QuietRun(st, init, r, service) && Quiet(Run(st, init), e, r, service))
  }

  // ----- the invariant -----

  /** A row of the service that was not delivered yet. */
  ghost predicate Waiting(s: System, r: nat, service: string, u: nat) {
    && u in s.rows && s.rows[u].service == service && s.rows[u].publishedAt.None?
    && !(r in s.batches && u in s.batches[r].sent)
  }

  /** What the batch still has to deliver. */
  function Rest(b: Batch): seq<nat> {
    if b.outcome.Some? && b.todo != [] then b.todo[1..] else b.todo
  }

  ghost predicate Precedes(s: System, x: nat, u: nat) {
    x in s.rows && u in s.rows && s.rows[x].createdAt <= s.rows[u].createdAt
  }

  /** No attempt ever failed. */
  ghost predicate Clean(s: System) {
    && (forall id | id in s.rows :: s.rows[id].lastAttemptAt.None? && s.rows[id].failedAt.None?)
    && (forall r | r in s.batches :: s.batches[r].outcome != Some(false))
    && (forall r, id | r in s.batches && id in s.batches[r].view :: s.batches[r].view[id].publishedAt.Some?)
  }

  /** The batch holds the oldest of the rows that wait, oldest first. */
  ghost predicate Front(s: System, r: nat, service: string, rest: seq<nat>) {
    && OldestFirst(s.rows, rest)
    && (forall x | x in rest :: Waiting(s, r, service, x))
    && (forall x, u | x in rest && Waiting(s, r, service, u) && u !in rest :: Precedes(s, x, u))
  }

  /** What was delivered is in order and before all that waits. */
  ghost predicate Ahead(s: System, r: nat, service: string, order: seq<nat>) {
    && OldestFirst(s.rows, order)
    && (forall d | d in order :: d in s.rows && s.rows[d].service == service)
    && (forall d, u | d in order && Waiting(s, r, service, u) :: Precedes(s, d, u))
  }

  ghost predicate Tidy(s: System, r: nat, service: string, order: seq<nat>) {
    && s.batches.Keys <= {r}
    && Clean(s)
    && (r in s.batches ==> Front(s, r, service, Rest(s.batches[r])))
    && Ahead(s, r, service, order)
  }

  /** `t` knows the rows of `s` by the same dates. */
  ghost predicate SameDates(s: System, t: System) {
    forall id | id in s.rows ::
      && id in t.rows && t.rows[id].createdAt == s.rows[id].createdAt && t.rows[id].service == s.rows[id].service
  }

  /** And nothing waits in it that did not. */
  ghost predicate Fewer(s: System, t: System, r: nat, service: string) {
    SameDates(s, t) && forall u | Waiting(t, r, service, u) :: Waiting(s, r, service, u)
  }

  lemma DatesStay(s: System, t: System, ids: seq<nat>)
    requires SameDates(s, t) && OldestFirst(s.rows, ids)
    ensures OldestFirst(t.rows, ids)
  {
    assert forall i | 0 <= i < |ids| :: ids[i] in s.rows && ids[i] in t.rows;
  }

  lemma AheadStays(s: System, t: System, r: nat, service: string, order: seq<nat>)
    requires Ahead(s, r, service, order) && Fewer(s, t, r, service)
    ensures Ahead(t, r, service, order)
  {
    DatesStay(s, t, order);
    forall d, u | d in order && Waiting(t, r, service, u)
      ensures Precedes(t, d, u)
    {
      assert Precedes(s, d, u);
    }
  }

  lemma FrontStays(s: System, t: System, r: nat, service: string, rest: seq<nat>)
    requires Front(s, r, service, rest) && Fewer(s, t, r, service)
    requires forall x | x in rest :: Waiting(t, r, service, x)
    ensures Front(t, r, service, rest)
  {
    DatesStay(s, t, rest);
    forall x, u | x in rest && Waiting(t, r, service, u) && u !in rest
      ensures Precedes(t, x, u)
    {
      assert Precedes(s, x, u);
    }
  }

  lemma TickTidy(st: Settings, s: System, e: Event, r: nat, service: string, order: seq<nat>)
    requires Tidy(s, r, service, order) && e.Tick?
    ensures Tidy(Step(st, s, e), r, service, order)
  {
    var t := Step(st, s, e);
    AheadStays(s, t, r, service, order);
    if r in s.batches {
      FrontStays(s, t, r, service, Rest(s.batches[r]));
    }
  }

  /** `t` is `s` with one more row, not older than the others of its service. */
  ghost predicate Newer(s: System, t: System, r: nat, service: string, id: nat) {
    && SameDates(s, t) && id in t.rows
    && (forall u | Waiting(t, r, service, u) :: u == id || Waiting(s, r, service, u))
    && (Waiting(t, r, service, id) ==> forall x | x in s.rows && s.rows[x].service == service :: Precedes(t, x, id))
  }

  lemma AheadOfNewer(s: System, t: System, r: nat, service: string, id: nat, order: seq<nat>)
    requires Ahead(s, r, service, order) && Newer(s, t, r, service, id)
    ensures Ahead(t, r, service, order)
  {
    DatesStay(s, t, order);
    forall d, u | d in order && Waiting(t, r, service, u)
      ensures Precedes(t, d, u)
    {
      assert u != id ==> Precedes(s, d, u);
    }
  }

  lemma FrontOfNewer(s: System, t: System, r: nat, service: string, id: nat, rest: seq<nat>)
    requires Front(s, r, service, rest) && Newer(s, t, r, service, id)
    requires forall x | x in rest :: Waiting(t, r, service, x)
    ensures Front(t, r, service, rest)
  {
    DatesStay(s, t, rest);
    forall x, u | x in rest && Waiting(t, r, service, u) && u !in rest
      ensures Precedes(t, x, u)
    {
      assert Waiting(s, r, service, x);
      assert u != id ==> Precedes(s, x, u);
    }
  }

  lemma InsertTidy(st: Settings, s: System, e: Event, r: nat, service: string, order: seq<nat>)
    requires Tidy(s, r, service, order) && e.Insert? && Quiet(s, e, r, service)
    ensures Tidy(Step(st, s, e), r, service, order)
  {
    var t := Step(st, s, e);
    if t != s {
      assert t.rows == s.rows[e.id := NewRow(e.service, e.createdAt)] && t.batches == s.batches;
      assert Newer(s, t, r, service, e.id);
      AheadOfNewer(s, t, r, service, e.id, order);
      if r in s.batches {
        FrontOfNewer(s, t, r, service, e.id, Rest(s.batches[r]));
      }
    }
  }

  /** On a clean table a batch takes the oldest rows that wait. */
  lemma BeginTidy(st: Settings, s: System, e: Event, r: nat, service: string, order: seq<nat>)
    requires Inv(st, s) && Tidy(s, r, service, order) && e.Begin? && Quiet(s, e, r, service)
    ensures Tidy(Step(st, s, e), r, service, order)
  {
    var t := Step(st, s, e);
    if t != s {
      assert LockedIds(s) == {};
      forall u | Waiting(s, r, service, u)
        ensures Takeable(st, s.rows, service, e.now, LockedIds(s), u)
      {
      }
      AheadStays(s, t, r, service, order);
      forall x | x in e.ids
        ensures Waiting(t, r, service, x)
      {
        assert Takeable(st, s.rows, service, e.now, LockedIds(s), x);
      }
    }
  }

  /** The first row of the batch waits and is the oldest that does. */
  lemma FirstWaits(st: Settings, s: System, r: nat, service: string, order: seq<nat>)
    requires Inv(st, s) && Tidy(s, r, service, order) && CanPublish(s, r)
    ensures Waiting(s, r, service, s.batches[r].todo[0])
    ensures s.batches[r].todo[0] !in s.batches[r].todo[1..]
    ensures forall u | Waiting(s, r, service, u) :: Precedes(s, s.batches[r].todo[0], u)
  {
    var b := s.batches[r];
    var d := b.todo[0];
    assert BatchInv(st, s, b);
    assert d in Rest(b);
    forall u | Waiting(s, r, service, u)
      ensures Precedes(s, d, u)
    {
      if u in b.todo {
        var i :| 0 <= i < |b.todo| && b.todo[i] == u;
        assert i > 0 ==> s.rows[b.todo[0]].createdAt <= s.rows[b.todo[i]].createdAt;
      }
    }
  }

  /** Delivering the oldest row that waits keeps the order. */
  lemma AheadGrows(s: System, t: System, r: nat, service: string, order: seq<nat>, d: nat)
    requires Ahead(s, r, service, order) && Fewer(s, t, r, service) && Waiting(s, r, service, d)
    requires forall u | Waiting(s, r, service, u) :: Precedes(s, d, u)
    ensures Ahead(t, r, service, order + [d])
  {
    AheadStays(s, t, r, service, order);
    forall x | x in order
      ensures Precedes(t, x, d)
    {
      assert Precedes(s, x, d);
    }
    forall x, u | x in order + [d] && Waiting(t, r, service, u)
      ensures Precedes(t, x, u)
    {
      assert Waiting(s, r, service, u);
      assert x == d ==> Precedes(s, d, u);
    }
    assert forall i | 0 <= i < |order| :: order[i] in order;
  }

  /** The rest of the batch is still the oldest that waits. */
  lemma FrontShrinks(s: System, t: System, r: nat, service: string, todo: seq<nat>)
    requires todo != [] && Front(s, r, service, todo) && Fewer(s, t, r, service) && todo[0] !in todo[1..]
    requires forall u :: Waiting(t, r, service, u) <==> Waiting(s, r, service, u) && u != todo[0]
    ensures Front(t, r, service, todo[1..])
  {
    DatesStay(s, t, todo);
    forall x, u | x in todo[1..] && Waiting(t, r, service, u) && u !in todo[1..]
      ensures Precedes(t, x, u)
    {
      assert x in todo && u !in todo;
      assert Precedes(s, x, u);
    }
  }

  lemma DeliverTidy(st: Settings, s: System, e: Event, r: nat, service: string, order: seq<nat>)
    requires Inv(st, s) && Tidy(s, r, service, order) && Delivers(s, e)
    ensures Tidy(Step(st, s, e), r, service, order + [s.batches[e.replica].todo[0]])
  {
    var t := Step(st, s, e);
    var b := s.batches[r];
    FirstWaits(st, s, r, service, order);
    assert t.rows == s.rows && t.batches == s.batches[r := b.(outcome := Some(true), sent := b.sent + {b.todo[0]})];
    AheadGrows(s, t, r, service, order, b.todo[0]);
    FrontShrinks(s, t, r, service, b.todo);
    assert Rest(t.batches[r]) == b.todo[1..];
  }

  lemma MarkTidy(st: Settings, s: System, e: Event, r: nat, service: string, order: seq<nat>)
    requires Inv(st, s) && Tidy(s, r, service, order) && e.Mark?
    ensures Tidy(Step(st, s, e), r, service, order)
  {
    var t := Step(st, s, e);
    if t != s {
      AheadStays(s, t, r, service, order);
      FrontStays(s, t, r, service, Rest(s.batches[r]));
      assert Rest(t.batches[r]) == Rest(s.batches[r]);
    }
  }

  /** A clean batch publishes all its rows and changes nothing else about them. */
  lemma CommitIsClean(st: Settings, s: System, t: System, r: nat, service: string)
    requires Inv(st, s) && Clean(s) && r in s.batches && s.batches[r].todo == [] && s.batches.Keys <= {r}
    requires t.rows == s.rows + s.batches[r].view && t.batches == s.batches - {r}
    ensures Clean(t) && Fewer(s, t, r, service)
  {
    var b := s.batches[r];
    assert BatchInv(st, s, b);
    forall id | id in b.view
      ensures id in s.rows && b.view[id] == MarkPublished(s.rows[id], b.view[id].publishedAt.value)
    {
      assert Anchored(st, s, b, id);
    }
    assert b.sent <= b.view.Keys;
    PublishedOnly(s, t, b.view);
    assert t.batches == map[];
  }

  lemma PublishedOnly(s: System, t: System, view: map<nat, Row>)
    requires Clean(s) && t.rows == s.rows + view
    requires forall id | id in view ::
               && id in s.rows && view[id].publishedAt.Some?
               && view[id] == MarkPublished(s.rows[id], view[id].publishedAt.value)
    ensures SameDates(s, t)
    ensures forall id | id in t.rows :: t.rows[id].lastAttemptAt.None? && t.rows[id].failedAt.None?
  {
  }

  lemma CommitTidy(st: Settings, s: System, e: Event, r: nat, service: string, order: seq<nat>)
    requires Inv(st, s) && Tidy(s, r, service, order) && e.Commit?
    ensures Tidy(Step(st, s, e), r, service, order)
  {
    var t := Step(st, s, e);
    if t != s {
      CommitIsClean(st, s, t, r, service);
      AheadStays(s, t, r, service, order);
    }
  }

  lemma StepTidy(st: Settings, s: System, e: Event, r: nat, service: string, order: seq<nat>)
    requires Inv(st, s) && Tidy(s, r, service, order) && Quiet(s, e, r, service)
    ensures Tidy(Step(st, s, e), r, service, order + if Delivers(s, e) then [s.batches[e.replica].todo[0]] else [])
  {
    assert order + [] == order;
    match e
    case Tick(_) => TickTidy(st, s, e, r, service, order);
    case Insert(_, _, _) => InsertTidy(st, s, e, r, service, order);
    case Begin(_, _, _, _) => BeginTidy(st, s, e, r, service, order);
    case Deliver(_) => if Delivers(s, e) { DeliverTidy(st, s, e, r, service, order); }
    case Mark(_) => MarkTidy(st, s, e, r, service, order);
    case Commit(_) => CommitTidy(st, s, e, r, service, order);
    case _ =>
  }

  lemma {:induction false} RunTidy(st: Settings, es: seq<Event>, r: nat, service: string)
    requires ValidSettings(st) && QuietRun(st, es, r, service)
    ensures Tidy(Run(st, es), r, service, Order(st, es))
  {
    if es != [] {
      RunTidy(st, es[..|es| - 1], r, service);
      RunKeepsInv(st, es[..|es| - 1]);
      StepTidy(st, Run(st, es[..|es| - 1]), es[|es| - 1], r, service, Order(st, es[..|es| - 1]));
    }
  }

  /** With one replica, nothing raised, nothing rolled back and rows created in order, rows reach the bus in order. */
  lemma FifoWhenQuiet(st: Settings, es: seq<Event>, r: nat, service: string)
    requires ValidSettings(st) && QuietRun(st, es, r, service)
    ensures OldestFirst(Run(st, es).rows, Order(st, es))
  {
    RunTidy(st, es, r, service);
  }

  // ----- what breaks it -----

  lemma Grow(st: Settings, es: seq<Event>, e: Event)
    ensures Run(st, es + [e]) == Step(st, Run(st, es), e)
    ensures
      var s := Run(st, es);
      Order(st, es + [e]) == if Delivers(s, e) then Order(st, es) + [s.batches[e.replica].todo[0]] else Order(st, es)
  {
    assert (es + [e])[..|es|] == es;
    assert Order(st, es) + [] == Order(st, es);
  }

  /** `id` is the only row that may be taken. */
  ghost predicate OnlyDue(st: Settings, s: System, service: string, id: nat) {
    forall x :: Takeable(st, s.rows, service, s.clock, LockedIds(s), x) <==> x == id
  }

  lemma BeginsWith(st: Settings, s: System, r: nat, service: string, id: nat)
    requires ValidSettings(st) && r !in s.batches && OnlyDue(st, s, service, id)
    ensures Step(st, s, Begin(r, service, s.clock, [id])) == s.(batches := s.batches[r := NewBatch(s.clock, [id])])
  {
    assert Takeable(st, s.rows, service, s.clock, LockedIds(s), id);
    assert Picks(st, s.rows, service, s.clock, LockedIds(s), [id]);
  }

  /** The batch of replica `r` is the only one and holds just `id`; `outcome` is its publish result, if any yet. */
  ghost predicate Alone(s: System, r: nat, id: nat, outcome: Option<bool>) {
    && s.batches.Keys == {r} && id in s.rows
    && s.batches[r].todo == [id] && s.batches[r].view == map[] && s.batches[r].outcome == outcome
  }

  lemma AlonePublishes(st: Settings, s: System, r: nat, id: nat, delivered: bool)
    requires Alone(s, r, id, None)
    ensures
      var t := Step(st, s, if delivered then Deliver(r) else Raise(r));
      t.rows == s.rows && t.clock == s.clock && Alone(t, r, id, Some(delivered))
    ensures Delivers(s, if delivered then Deliver(r) else Raise(r)) <==> delivered
  {
  }

  lemma AloneCommits(st: Settings, s: System, r: nat, id: nat, delivered: bool)
    requires Alone(s, r, id, Some(delivered))
    ensures
      var t := Step(st, Step(st, s, Mark(r)), Commit(r));
      && t.clock == s.clock && t.batches == map[]
      && t.rows == s.rows[id := if delivered then MarkPublished(s.rows[id], s.clock)
                                else MarkFailed(st, s.rows[id], s.clock)]
  {
    var m := Step(st, s, Mark(r));
    assert m.batches[r].todo == [] && m.rows == s.rows;
    assert m.batches - {r} == map[];
  }

  /** A batch of one row, delivered or raised, and committed. */
  lemma SoloRun(st: Settings, es: seq<Event>, r: nat, service: string, id: nat, delivered: bool)
      returns (fs: seq<Event>)
    requires ValidSettings(st) && Run(st, es).batches == map[] && OnlyDue(st, Run(st, es), service, id)
    ensures id in Run(st, es).rows
    ensures
      var s, t := Run(st, es), Run(st, fs);
      && t.clock == s.clock && t.batches == map[]
      && t.rows == s.rows[id := if delivered then MarkPublished(s.rows[id], s.clock)
                                else MarkFailed(st, s.rows[id], s.clock)]
    ensures Order(st, fs) == if delivered then Order(st, es) + [id] else Order(st, es)
  {
    var s := Run(st, es);
    assert Takeable(st, s.rows, service, s.clock, LockedIds(s), id);
    BeginsWith(st, s, r, service, id);
    var begun := s.(batches := s.batches[r := NewBatch(s.clock, [id])]);
    assert Alone(begun, r, id, None);
    AlonePublishes(st, begun, r, id, delivered);
    var e := if delivered then Deliver(r) else Raise(r);
    var done := Step(st, begun, e);
    AloneCommits(st, done, r, id, delivered);
    fs := ThreeMore(st, es, Begin(r, service, s.clock, [id]), e, begun, r, id);
  }

  /** The events of that batch after one another. */
  lemma ThreeMore(st: Settings, es: seq<Event>, begin: Event, e: Event, begun: System, r: nat, id: nat)
      returns (fs: seq<Event>)
    requires begin.Begin? && Step(st, Run(st, es), begin) == begun
    requires (e == Deliver(r) || e == Raise(r)) && Alone(begun, r, id, None)
    ensures Run(st, fs) == Step(st, Step(st, Step(st, begun, e), Mark(r)), Commit(r))
    ensures Order(st, fs) == if e.Deliver? then Order(st, es) + [id] else Order(st, es)
  {
    Grow(st, es, begin);
    fs := es + [begin];
    Grow(st, fs, e);
    fs := fs + [e];
    Grow(st, fs, Mark(r));
    fs := fs + [Mark(r)];
    Grow(st, fs, Commit(r));
    fs := fs + [Commit(r)];
  }

  lemma PowerIsPositive(n: nat)
    ensures Pow2(n) > 0.0
  {
  }

  lemma BackoffIsPositive(st: Settings, k: nat)
    requires ValidSettings(st)
    ensures Backoff(st, k) > 0.0
  {
    PowerIsPositive(k);
  }

  /** Without locks, the only pending row is the only one that may be taken. */
  lemma OnePending(st: Settings, s: System, service: string, id: nat)
    requires LockedIds(s) !! {id} && id in s.rows && s.rows[id].service == service && Pending(st, s.rows[id], s.clock)
    requires forall x | x in s.rows && x != id :: x in LockedIds(s) || !Pending(st, s.rows[x], s.clock)
    ensures OnlyDue(st, s, service, id)
  {
  }

  lemma InsertMore(st: Settings, es: seq<Event>, id: nat, service: string, at: real) returns (fs: seq<Event>)
    requires id !in Run(st, es).rows
    ensures
      var s, t := Run(st, es), Run(st, fs);
      t.clock == s.clock && t.batches == s.batches && t.rows == s.rows[id := NewRow(service, at)]
    ensures Order(st, fs) == Order(st, es)
  {
    Grow(st, es, Insert(id, service, at));
    fs := es + [Insert(id, service, at)];
  }

  lemma BeginMore(st: Settings, es: seq<Event>, r: nat, service: string, id: nat) returns (fs: seq<Event>)
    requires ValidSettings(st) && r !in Run(st, es).batches && OnlyDue(st, Run(st, es), service, id)
    ensures
      var s, t := Run(st, es), Run(st, fs);
      t.clock == s.clock && t.rows == s.rows && t.batches == s.batches[r := NewBatch(s.clock, [id])]
    ensures Order(st, fs) == Order(st, es)
  {
    var s := Run(st, es);
    BeginsWith(st, s, r, service, id);
    Grow(st, es, Begin(r, service, s.clock, [id]));
    fs := es + [Begin(r, service, s.clock, [id])];
  }

  /** The two rows while the back-off of the older one lasts. */
  lemma NewerIsDue(st: Settings, s: System, service: string)
    requires ValidSettings(st) && st.maxAttempts >= 2 && s.clock == 0.0 && s.batches == map[]
    requires s.rows == map[0 := RaisedRow(st, service), 1 := NewRow(service, 1.0)]
    ensures OnlyDue(st, s, service, 1)
  {
    BackoffIsPositive(st, 1);
    OnePending(st, s, service, 1);
  }

  /** The two rows while another replica holds the older one. */
  lemma NewerIsFree(st: Settings, s: System, service: string)
    requires s.clock == 0.0 && s.batches == map[0 := NewBatch(0.0, [0])]
    requires s.rows == map[0 := NewRow(service, 0.0), 1 := NewRow(service, 1.0)]
    ensures OnlyDue(st, s, service, 1)
  {
    assert NewBatch(0.0, [0]).held == {0};
    assert 0 in s.batches && 0 in s.batches[0].held;
    assert LockedIds(s) == {0};
    OnePending(st, s, service, 1);
  }

  /** Row 0 after a failed attempt at instant zero. */
  function RaisedRow(st: Settings, service: string): Row {
    MarkFailed(st, NewRow(service, 0.0), 0.0)
  }

  lemma FirstRaised(st: Settings, service: string) returns (es: seq<Event>)
    requires ValidSettings(st)
    ensures
      var s := Run(st, es);
      s.clock == 0.0 && s.batches == map[] && s.rows == map[0 := RaisedRow(st, service)] && Order(st, es) == []
  {
    es := InsertMore(st, [], 0, service, 0.0);
    OnePending(st, Run(st, es), service, 0);
    es := SoloRun(st, es, 0, service, 0, false);
  }

  lemma SecondDelivered(st: Settings, service: string) returns (es: seq<Event>)
    requires ValidSettings(st) && st.maxAttempts >= 2
    ensures
      var s := Run(st, es);
      && s.clock == 0.0 && s.batches == map[] && Order(st, es) == [1]
      && s.rows == map[0 := RaisedRow(st, service), 1 := MarkPublished(NewRow(service, 1.0), 0.0)]
  {
    es := FirstRaised(st, service);
    es := InsertMore(st, es, 1, service, 1.0);
    assert Run(st, es).rows == map[0 := RaisedRow(st, service), 1 := NewRow(service, 1.0)];
    NewerIsDue(st, Run(st, es), service);
    es := SoloRun(st, es, 0, service, 1, true);
  }

  /** One failed publish with attempts left: the row waits out its back-off while a newer one goes first. */
  lemma RaiseReorders(st: Settings, service: string) returns (es: seq<Event>)
    requires ValidSettings(st) && st.maxAttempts >= 2
    ensures Order(st, es) == [1, 0] && !OldestFirst(Run(st, es).rows, Order(st, es))
  {
    BackoffIsPositive(st, 1);
    es := SecondDelivered(st, service);
    Grow(st, es, Tick(Backoff(st, 1)));
    es := es + [Tick(Backoff(st, 1))];
    OnePending(st, Run(st, es), service, 0);
    es := SoloRun(st, es, 0, service, 0, true);
    NotInOrder(Run(st, es).rows, Order(st, es));
  }

  lemma NotInOrder(rows: map<nat, Row>, order: seq<nat>)
    requires order == [1, 0] && 0 in rows && 1 in rows && rows[0].createdAt < rows[1].createdAt
    ensures !OldestFirst(rows, order)
  {
    assert order[0] == 1 && order[1] == 0;
  }

  /** Two replicas with a row each, the newer one's first. */
  lemma TwoHold(st: Settings, service: string) returns (es: seq<Event>)
    requires ValidSettings(st)
    ensures
      var s := Run(st, es);
      && s.batches == map[0 := NewBatch(0.0, [0]), 1 := NewBatch(0.0, [1])] && Order(st, es) == []
      && s.rows == map[0 := NewRow(service, 0.0), 1 := NewRow(service, 1.0)]
  {
    es := InsertMore(st, [], 0, service, 0.0);
    OnePending(st, Run(st, es), service, 0);
    es := BeginMore(st, es, 0, service, 0);
    es := InsertMore(st, es, 1, service, 1.0);
    assert Run(st, es).rows == map[0 := NewRow(service, 0.0), 1 := NewRow(service, 1.0)];
    assert Run(st, es).batches == map[0 := NewBatch(0.0, [0])];
    NewerIsFree(st, Run(st, es), service);
    es := BeginMore(st, es, 1, service, 1);
  }

  /** A second replica skips the locked row and delivers a newer one before it. */
  lemma SecondReplicaReorders(st: Settings, service: string) returns (es: seq<Event>)
    requires ValidSettings(st)
    ensures Order(st, es) == [1, 0] && !OldestFirst(Run(st, es).rows, Order(st, es))
  {
    es := TwoHold(st, service);
    es := DeliverMore(st, es, 1, 1);
    es := DeliverMore(st, es, 0, 0);
    NotInOrder(Run(st, es).rows, Order(st, es));
  }

  lemma DeliverMore(st: Settings, es: seq<Event>, r: nat, id: nat) returns (fs: seq<Event>)
    requires CanPublish(Run(st, es), r) && Run(st, es).batches[r].todo[0] == id
    ensures
      var s, t := Run(st, es), Run(st, fs);
      && t.rows == s.rows && t.batches.Keys == s.batches.Keys
      && (forall q | q in s.batches && q != r :: t.batches[q] == s.batches[q])
    ensures Order(st, fs) == Order(st, es) + [id]
  {
    Grow(st, es, Deliver(r));
    fs := es + [Deliver(r)];
  }
}
