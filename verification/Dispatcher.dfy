/**
 Frames on their way to subscribers: the subscription manager and the feeds of its subscriptions, together. A frame
 is dispatched under the manager lock, so never inside an acquire or a release.
 */
module Dispatcher {
  import opened Common
  import Subscription
  import Feed

  datatype State<F> = State(manager: Subscription.State, feeds: map<nat, Feed.State<F>>)

  datatype Event<F> = Manage(op: Subscription.Event) | Frame(stream: string, frame: F) | Consume(id: nat)

  /** The feeds a frame goes to, in the order of the manager's list. */
  function Targets(m: Subscription.State, stream: string): seq<nat> {
    match Subscription.RouteSymbol(stream)
    case None => []
    case Some(symbol) => if symbol in m.feeds then m.feeds[symbol] else []
  }

  /** The dispatch loop: one enqueue per list entry. */
  function Offered<F>(maxsize: int, feeds: map<nat, Feed.State<F>>, ids: seq<nat>, frame: F): map<nat, Feed.State<F>> {
    if ids == [] then feeds
    else
      var before, id := Offered(maxsize, feeds, ids[..|ids| - 1], frame), ids[|ids| - 1];
      if id in before then before[id := Feed.Step(maxsize, before[id], Feed.Dispatch(frame))] else before
  }

  ghost function Step<F>(maxsize: int, kinds: seq<string>, s: State<F>, e: Event<F>): State<F> {
    match e
    case Manage(op) =>
      var m := Subscription.Step(kinds, s.manager, op);
      State(m,
        if op.Enter? && op.id in m.held && op.id !in s.manager.held then s.feeds[op.id := Feed.Start()]
        else if Leaves(s, e) then s.feeds[op.id := Feed.Step(maxsize, s.feeds[op.id], Feed.Release)]
        else s.feeds)
    case Frame(stream, frame) =>
      if s.manager.pending != [] then s
      else s.(feeds := Offered(maxsize, s.feeds, Targets(s.manager, stream), frame))
    case Consume(id) =>
      if id in s.feeds then s.(feeds := s.feeds[id := Feed.Step(maxsize, s.feeds[id], Feed.Consume)]) else s
  }

  /** Whether the event ends a subscription. */
  predicate Leaves<F>(s: State<F>, e: Event<F>) {
    e.Manage? && e.op.Exit? && s.manager.pending == [] && e.op.id in s.manager.held && e.op.id in s.feeds
  }

  ghost function Run<F>(maxsize: int, kinds: seq<string>, es: seq<Event<F>>): State<F> {
    if es == [] then State(Subscription.START, map[])
    else Step(maxsize, kinds, Run(maxsize, kinds, es[..|es| - 1]), es[|es| - 1])
  }

  /** Whether the event is a frame for the symbol that subscription `id` holds. */
  predicate Concerns<F>(s: State<F>, e: Event<F>, id: nat) {
    && e.Frame? && s.manager.pending == []
    && id in s.manager.held && Subscription.RouteSymbol(e.stream) == Some(s.manager.held[id])
  }

  /** The frames of its symbol that arrived while the subscription was open: no lists, no counts. */
  ghost function Arrived<F>(maxsize: int, kinds: seq<string>, es: seq<Event<F>>, id: nat): seq<F> {
    if es == [] then []
    else
      var init, e := es[..|es| - 1], es[|es| - 1];
      var before := Arrived(maxsize, kinds, init, id);
      if Concerns(Run(maxsize, kinds, init), e, id) then before + [e.frame] else before
  }

  // ----- the invariant -----

  /** Every feed belongs to a subscription that was opened, is released once that ended, and is a valid queue. */
  ghost predicate Inv<F(!new)>(maxsize: int, kinds: seq<string>, s: State<F>) {
    && Subscription.Inv(kinds, s.manager)
    && s.feeds.Keys == s.manager.used
    && forall id | id in s.feeds :: FeedInv(maxsize, s, id)
  }

  ghost predicate FeedInv<F(!new)>(maxsize: int, s: State<F>, id: nat)
    requires id in s.feeds
  {
    Feed.Inv(maxsize, s.feeds[id]) && (s.feeds[id].released <==> id !in s.manager.held)
  }

  lemma CoverNoRepeats(xs: seq<nat>, ids: set<nat>)
    requires |xs| == |ids| && forall id | id in ids :: id in xs
    ensures NoRepeats(xs)
  {
    forall i, j | 0 <= i < j < |xs|
      ensures xs[i] != xs[j]
    {
      if xs[i] == xs[j] {
        var rest := xs[..i] + xs[i + 1..];
        assert rest[j - 1] == xs[j];
        assert forall k | 0 <= k < |xs| && k != i :: xs[k] == rest[if k < i then k else k - 1];
        Subscription.CoverSize(rest, ids);
        assert false;
      }
    }
  }

  /** A frame is for exactly the open subscriptions of its symbol, each listed once. */
  lemma TargetsAreHolders(kinds: seq<string>, m: Subscription.State, stream: string, id: nat)
    requires Subscription.Inv(kinds, m)
    ensures NoRepeats(Targets(m, stream))
    ensures id in Targets(m, stream) <==> id in m.held && Subscription.RouteSymbol(stream) == Some(m.held[id])
  {
    match Subscription.RouteSymbol(stream)
    case None =>
    case Some(symbol) =>
      assert Subscription.Counted(m, symbol);
      if symbol in m.feeds {
        CoverNoRepeats(m.feeds[symbol], Subscription.Holders(m, symbol));
      } else {
        assert id !in Subscription.Holders(m, symbol);
      }
  }

  /** The loop reaches each listed feed once and no other. */
  lemma {:induction false} OfferedOnce<F>(
      maxsize: int, feeds: map<nat, Feed.State<F>>, ids: seq<nat>, frame: F, id: nat)
    requires NoRepeats(ids)
    ensures Offered(maxsize, feeds, ids, frame).Keys == feeds.Keys
    ensures id in feeds ==>
              Offered(maxsize, feeds, ids, frame)[id]
              == if id in ids then Feed.Step(maxsize, feeds[id], Feed.Dispatch(frame)) else feeds[id]
  {
    if ids != [] {
      var init, last := ids[..|ids| - 1], ids[|ids| - 1];
      assert ids == init + [last] && last !in init;
      OfferedOnce(maxsize, feeds, init, frame, id);
    }
  }

  lemma FrameKeepsInv<F(!new)>(maxsize: int, kinds: seq<string>, s: State<F>, e: Event<F>)
    requires Inv(maxsize, kinds, s) && e.Frame? && s.manager.pending == []
    ensures Inv(maxsize, kinds, Step(maxsize, kinds, s, e))
  {
    var t, ids := Step(maxsize, kinds, s, e), Targets(s.manager, e.stream);
    TargetsAreHolders(kinds, s.manager, e.stream, 0);
    OfferedOnce(maxsize, s.feeds, ids, e.frame, 0);
    forall id | id in s.feeds
      ensures FeedInv(maxsize, t, id)
    {
      TargetsAreHolders(kinds, s.manager, e.stream, id);
      OfferedOnce(maxsize, s.feeds, ids, e.frame, id);
      assert FeedInv(maxsize, s, id);
      Feed.DispatchKeepsInv(maxsize, s.feeds[id], e.frame);
    }
  }

  /** What an operation of the manager does to the open subscriptions. */
  lemma ManageHeld(kinds: seq<string>, m: Subscription.State, op: Subscription.Event)
    requires Subscription.Inv(kinds, m)
    ensures
      var n := Subscription.Step(kinds, m, op);
      if op.Enter? && op.id in n.held && op.id !in m.held then
        op.id !in m.used && n.used == m.used + {op.id} && n.held.Keys == m.held.Keys + {op.id}
      else if op.Exit? && m.pending == [] && op.id in m.held then
        n.used == m.used && n.held.Keys == m.held.Keys - {op.id}
      else n.used == m.used && n.held.Keys == m.held.Keys
  {
  }

  lemma ManageKeepsFeed<F(!new)>(maxsize: int, kinds: seq<string>, s: State<F>, e: Event<F>, id: nat)
    requires Inv(maxsize, kinds, s) && e.Manage? && id in Step(maxsize, kinds, s, e).feeds
    ensures FeedInv(maxsize, Step(maxsize, kinds, s, e), id)
    ensures Step(maxsize, kinds, s, e).feeds[id].dispatched == if id in s.feeds then s.feeds[id].dispatched else []
  {
    ManageHeld(kinds, s.manager, e.op);
    if id in s.feeds {
      assert FeedInv(maxsize, s, id);
      Feed.ReleaseKeepsInv(maxsize, s.feeds[id]);
    }
  }

  lemma ManageKeepsInv<F(!new)>(maxsize: int, kinds: seq<string>, s: State<F>, e: Event<F>)
    requires Inv(maxsize, kinds, s) && e.Manage?
    ensures Inv(maxsize, kinds, Step(maxsize, kinds, s, e))
  {
    var t := Step(maxsize, kinds, s, e);
    assert Subscription.Inv(kinds, t.manager) by {
      Subscription.StepKeepsInv(kinds, s.manager, e.op);
    }
    assert t.feeds.Keys == t.manager.used by {
      ManageHeld(kinds, s.manager, e.op);
    }
    forall id | id in t.feeds
      ensures FeedInv(maxsize, t, id)
    {
      ManageKeepsFeed(maxsize, kinds, s, e, id);
    }
  }

  lemma ConsumeKeepsInv<F(!new)>(maxsize: int, kinds: seq<string>, s: State<F>, e: Event<F>)
    requires Inv(maxsize, kinds, s) && e.Consume?
    ensures Inv(maxsize, kinds, Step(maxsize, kinds, s, e))
  {
    var t := Step(maxsize, kinds, s, e);
    forall id | id in t.feeds
      ensures FeedInv(maxsize, t, id)
    {
      assert FeedInv(maxsize, s, id);
      Feed.ConsumeKeepsInv(maxsize, s.feeds[id]);
    }
  }

  lemma {:induction false} RunKeepsInv<F(!new)>(maxsize: int, kinds: seq<string>, es: seq<Event<F>>)
    ensures Inv(maxsize, kinds, Run(maxsize, kinds, es))
  {
    if es == [] {
      Subscription.RunKeepsInv(kinds, []);
      assert Subscription.Run(kinds, []) == Subscription.START;
    } else {
      RunKeepsInv(maxsize, kinds, es[..|es| - 1]);
      var s, e := Run(maxsize, kinds, es[..|es| - 1]), es[|es| - 1];
      match e
      case Manage(_) => ManageKeepsInv(maxsize, kinds, s, e);
      case Frame(_, _) => if s.manager.pending == [] { FrameKeepsInv(maxsize, kinds, s, e); }
      case Consume(_) => ConsumeKeepsInv(maxsize, kinds, s, e);
    }
  }

  lemma {:induction false} DispatchedIsArrived<F(!new)>(maxsize: int, kinds: seq<string>, es: seq<Event<F>>, id: nat)
    ensures
      var s := Run(maxsize, kinds, es);
      Arrived(maxsize, kinds, es, id) == if id in s.feeds then s.feeds[id].dispatched else []
  {
    if es != [] {
      var init, e := es[..|es| - 1], es[|es| - 1];
      var s := Run(maxsize, kinds, init);
      DispatchedIsArrived(maxsize, kinds, init, id);
      RunKeepsInv(maxsize, kinds, init);
      if e.Manage? {
        ManageArrives(maxsize, kinds, s, e, id);
      } else if e.Frame? && s.manager.pending == [] {
        FrameArrives(maxsize, kinds, s, e, id);
      }
    }
  }

  lemma ManageArrives<F(!new)>(maxsize: int, kinds: seq<string>, s: State<F>, e: Event<F>, id: nat)
    requires Inv(maxsize, kinds, s) && e.Manage?
    ensures
      var t := Step(maxsize, kinds, s, e);
      (if id in t.feeds then t.feeds[id].dispatched else []) == if id in s.feeds then s.feeds[id].dispatched else []
  {
    if id in Step(maxsize, kinds, s, e).feeds {
      ManageKeepsFeed(maxsize, kinds, s, e, id);
    }
  }

  lemma FrameArrives<F(!new)>(maxsize: int, kinds: seq<string>, s: State<F>, e: Event<F>, id: nat)
    requires Inv(maxsize, kinds, s) && e.Frame? && s.manager.pending == []
    ensures
      var t := Step(maxsize, kinds, s, e);
      && t.feeds.Keys == s.feeds.Keys
      && (Concerns(s, e, id) ==> id in s.feeds)
      && (id in s.feeds ==>
            t.feeds[id].dispatched == s.feeds[id].dispatched + if Concerns(s, e, id) then [e.frame] else [])
  {
    TargetsAreHolders(kinds, s.manager, e.stream, id);
    OfferedOnce(maxsize, s.feeds, Targets(s.manager, e.stream), e.frame, id);
    assert id in s.feeds ==> FeedInv(maxsize, s, id);
  }

  /**
   End to end, over every schedule of subscribers, connections, frames and consumers: what a subscriber has read is
   an in-order subsequence of exactly the frames of its symbol that arrived while it was subscribed, and each of
   those was read, still waits, or was dropped and counted.
   */
  lemma SubscriberReceives<F(!new)>(maxsize: int, kinds: seq<string>, es: seq<Event<F>>, id: nat)
    requires id in Run(maxsize, kinds, es).feeds
    ensures
      var feed, arrived := Run(maxsize, kinds, es).feeds[id], Arrived(maxsize, kinds, es, id);
      var n, w := |arrived|, Feed.Waiting(feed);
      && w <= n && Subsequence(feed.received, arrived[..n - w])
      && n == |feed.received| + w + feed.overflow + feed.evicted && feed.evicted <= 1
      && Feed.Newest(feed.queue, arrived, w)
      && (feed.released <==> id !in Run(maxsize, kinds, es).manager.held)
  {
    var s := Run(maxsize, kinds, es);
    RunKeepsInv(maxsize, kinds, es);
    DispatchedIsArrived(maxsize, kinds, es, id);
    assert FeedInv(maxsize, s, id);
    FeedReceives(maxsize, s.feeds[id], Arrived(maxsize, kinds, es, id));
  }

  lemma FeedReceives<F(!new)>(maxsize: int, feed: Feed.State<F>, arrived: seq<F>)
    requires Feed.Inv(maxsize, feed) && arrived == feed.dispatched
    ensures
      var n, w := |arrived|, Feed.Waiting(feed);
      && w <= n && Subsequence(feed.received, arrived[..n - w])
      && n == |feed.received| + w + feed.overflow + feed.evicted && feed.evicted <= 1
      && Feed.Newest(feed.queue, arrived, w)
  {
    Feed.InvAccounts(maxsize, feed);
  }
}
