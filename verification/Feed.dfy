/** One subscriber's bounded queue: the oldest frame makes room for a new one, and an end marker closes it. */
module Feed {
  import opened Common

  datatype Item<F> = Data(frame: F) | Eof

  datatype Poll<F> = Waits | Yields(frame: F) | Ends

  /** `asyncio.Queue`: a size of zero or less means unbounded. */
  predicate Full<F>(queue: seq<Item<F>>, maxsize: int) {
    maxsize > 0 && |queue| >= maxsize
  }

  /** Enqueue, evicting the oldest item of a full queue. */
  function Pushed<F>(queue: seq<Item<F>>, maxsize: int, item: Item<F>): seq<Item<F>> {
    (if Full(queue, maxsize) then queue[1..] else queue) + [item]
  }

  class SymbolFeed<F> {
    const maxsize: int
    var queue: seq<Item<F>>

    ghost predicate Valid()
      reads this
    {
      maxsize > 0 ==> |queue| <= maxsize
    }

    constructor (maxsize: int)
      ensures Valid() && this.maxsize == maxsize && queue == []
    {
      this.maxsize, queue := maxsize, [];
    }

    /** `put_nowait`, or one `get_nowait` first on a full queue. Returns whether a frame was dropped. */
    method Put(frame: F) returns (dropped: bool)
      requires Valid()
      modifies this`queue
      ensures Valid()
      ensures queue == Pushed(old(queue), maxsize, Data(frame))
      ensures dropped == Full(old(queue), maxsize)
    {
      dropped := Full(queue, maxsize);
      if dropped {
        queue := queue[1..];
      }
      queue := queue + [Data(frame)];
    }

    method SignalEof()
      requires Valid()
      modifies this`queue
      ensures Valid()
      ensures queue == Pushed(old(queue), maxsize, Eof)
    {
      if Full(queue, maxsize) {
        queue := queue[1..];
      }
      queue := queue + [Eof];
    }

    /** One poll of the iterator: an empty queue makes it wait, the end marker ends it. */
    method Next() returns (poll: Poll<F>)
      requires Valid()
      modifies this`queue
      ensures Valid()
      ensures poll.Waits? <==> old(queue) == []
      ensures queue == if poll.Waits? then old(queue) else old(queue)[1..]
      ensures old(queue) != [] ==> poll == match old(queue)[0] case Data(f) => Yields(f) case Eof => Ends
    {
      if queue == [] {
        return Waits;
      }
      var item := queue[0];
      queue := queue[1..];
      match item {
        case Eof => poll := Ends;
        case Data(f) => poll := Yields(f);
      }
    }
  }

  ghost function Queues<F>(feeds: seq<SymbolFeed<F>>): (qs: seq<seq<Item<F>>>)
    reads set feed | feed in feeds
    ensures |qs| == |feeds|
    ensures forall i | 0 <= i < |feeds| :: qs[i] == feeds[i].queue
  {
    if feeds == [] then []
    else
      var n := |feeds| - 1;
      assert feeds == feeds[..n] + [feeds[n]];
      Queues(feeds[..n]) + [feeds[n].queue]
  }

  /** The dispatch loop over a symbol's feeds: each gets the frame once, and each drop is counted. */
  method DispatchTo<F>(feeds: seq<SymbolFeed<F>>, frame: F) returns (drops: nat)
    requires forall i | 0 <= i < |feeds| :: feeds[i].Valid()
    requires forall i, j | 0 <= i < j < |feeds| :: feeds[i] != feeds[j]
    modifies set feed | feed in feeds
    ensures forall i | 0 <= i < |feeds| ::
              feeds[i].Valid() && feeds[i].queue == Pushed(old(feeds[i].queue), feeds[i].maxsize, Data(frame))
    ensures drops == Overflows(feeds, old(Queues(feeds)))
  {
    ghost var before := Queues(feeds);
    drops := 0;
    for n := 0 to |feeds|
      invariant forall i | 0 <= i < n ::
                  feeds[i].Valid() && feeds[i].queue == Pushed(before[i], feeds[i].maxsize, Data(frame))
      invariant forall i | n <= i < |feeds| :: feeds[i].Valid() && feeds[i].queue == before[i]
      invariant drops == Overflows(feeds[..n], before[..n])
    {
      assert feeds[n] in feeds;
      var dropped := feeds[n].Put(frame);
      OverflowsNext(feeds, before, n);
      drops := drops + if dropped then 1 else 0;
    }
    assert feeds[..|feeds|] == feeds && before[..|feeds|] == before;
  }

  lemma OverflowsNext<F>(feeds: seq<SymbolFeed<F>>, queues: seq<seq<Item<F>>>, n: nat)
    requires n < |feeds| == |queues|
    ensures Overflows(feeds[..n + 1], queues[..n + 1])
         == Overflows(feeds[..n], queues[..n]) + if Full(queues[n], feeds[n].maxsize) then 1 else 0
  {
    assert feeds[..n + 1][..n] == feeds[..n] && queues[..n + 1][..n] == queues[..n];
  }

  /** How many of the feeds were full. */
  function Overflows<F>(feeds: seq<SymbolFeed<F>>, queues: seq<seq<Item<F>>>): nat
    requires |feeds| == |queues|
  {
    if feeds == [] then 0
    else
      var n := |feeds| - 1;
      Overflows(feeds[..n], queues[..n]) + if Full(queues[n], feeds[n].maxsize) then 1 else 0
  }

  // ----- every schedule -----

  /** The queue with the history of what went in, what came out, and what was evicted and why. */
  datatype State<F> = State(
    queue: seq<Item<F>>,
    released: bool,
    dispatched: seq<F>,
    received: seq<F>,
    overflow: nat,
    evicted: nat,
    ended: bool)

  datatype Event<F> = Dispatch(frame: F) | Release | Consume

  function Start<F>(): State<F> {
    State([], false, [], [], 0, 0, false)
  }

  /** A released feed is no longer dispatched to and is released once; a consumer of an empty queue waits. */
  function Step<F>(maxsize: int, s: State<F>, e: Event<F>): State<F> {
    match e
    case Dispatch(f) =>
      if s.released then s
      else s.(queue := Pushed(s.queue, maxsize, Data(f)),
              dispatched := s.dispatched + [f],
              overflow := s.overflow + if Full(s.queue, maxsize) then 1 else 0)
    case Release =>
      if s.released then s
      else s.(queue := Pushed(s.queue, maxsize, Eof),
              released := true,
              evicted := s.evicted + if Full(s.queue, maxsize) then 1 else 0)
    case Consume =>
      if s.queue == [] then s
      else match s.queue[0]
        case Data(f) => s.(queue := s.queue[1..], received := s.received + [f])
        case Eof => s.(queue := s.queue[1..], ended := true)
  }

  function Run<F>(maxsize: int, es: seq<Event<F>>): State<F> {
    if es == [] then Start() else Step(maxsize, Run(maxsize, es[..|es| - 1]), es[|es| - 1])
  }

  /** The frames waiting in the queue, without the end marker. */
  function Waiting<F>(s: State<F>): nat {
    if s.released && !s.ended && s.queue != [] then |s.queue| - 1 else |s.queue|
  }

  /** The first `w` items of the queue are the last `w` frames dispatched. */
  ghost predicate Newest<F>(queue: seq<Item<F>>, dispatched: seq<F>, w: nat) {
    && w <= |queue| && w <= |dispatched|
    && forall i | 0 <= i < w :: queue[i] == Data(dispatched[|dispatched| - w + i])
  }

  lemma NewestPopped<F>(queue: seq<Item<F>>, dispatched: seq<F>, w: nat)
    requires Newest(queue, dispatched, w) && w > 0
    ensures queue[0] == Data(dispatched[|dispatched| - w]) && Newest(queue[1..], dispatched, w - 1)
  {
    assert queue[0] == Data(dispatched[|dispatched| - w + 0]);
    forall i | 0 <= i < w - 1
      ensures queue[1..][i] == Data(dispatched[|dispatched| - (w - 1) + i])
    {
      assert queue[i + 1] == Data(dispatched[|dispatched| - w + (i + 1)]);
    }
  }

  lemma NewestPushed<F>(queue: seq<Item<F>>, dispatched: seq<F>, f: F)
    requires Newest(queue, dispatched, |queue|)
    ensures Newest(queue + [Data(f)], dispatched + [f], |queue| + 1)
  {
  }

  lemma NewestClosed<F>(queue: seq<Item<F>>, dispatched: seq<F>)
    requires Newest(queue, dispatched, |queue|)
    ensures Newest(queue + [Eof], dispatched, |queue|)
  {
  }

  /** What was read was dispatched in that order, before the frames that wait. */
  ghost predicate ReadBefore<F(!new)>(received: seq<F>, dispatched: seq<F>, w: nat) {
    w <= |dispatched| && Subsequence(received, dispatched[..|dispatched| - w])
  }

  lemma ReadPassed<F(!new)>(received: seq<F>, dispatched: seq<F>, w: nat)
    requires ReadBefore(received, dispatched, w) && w > 0
    ensures ReadBefore(received, dispatched, w - 1)
    ensures ReadBefore(received + [dispatched[|dispatched| - w]], dispatched, w - 1)
  {
    var n := |dispatched|;
    SubsequenceSkip(received, dispatched[..n - w], dispatched[n - w]);
    SubsequenceKeep(received, dispatched[..n - w], dispatched[n - w]);
    assert dispatched[..n - (w - 1)] == dispatched[..n - w] + [dispatched[n - w]];
  }

  lemma ReadGrows<F(!new)>(received: seq<F>, dispatched: seq<F>, w: nat, f: F)
    requires ReadBefore(received, dispatched, w)
    ensures ReadBefore(received, dispatched + [f], w + 1)
  {
    assert (dispatched + [f])[..|dispatched| - w] == dispatched[..|dispatched| - w];
  }

  /** The queue holds the newest dispatched frames, then the end marker; what was read came before them. */
  ghost predicate Inv<F(!new)>(maxsize: int, s: State<F>) {
    var w := Waiting(s);
    && Newest(s.queue, s.dispatched, w)
    && ReadBefore(s.received, s.dispatched, w)
    && (maxsize > 0 ==> |s.queue| <= maxsize)
    && (s.released && !s.ended ==> s.queue != [] && s.queue[w] == Eof)
    && (s.ended ==> s.released && s.queue == [])
    && |s.dispatched| == |s.received| + w + s.overflow + s.evicted
    && s.evicted <= (if s.released then 1 else 0)
  }

  lemma DispatchKeepsInv<F(!new)>(maxsize: int, s: State<F>, f: F)
    requires Inv(maxsize, s)
    ensures Inv(maxsize, Step(maxsize, s, Dispatch(f)))
  {
    if !s.released {
      if Full(s.queue, maxsize) {
        DispatchFull(maxsize, s, f);
      } else {
        NewestPushed(s.queue, s.dispatched, f);
        ReadGrows(s.received, s.dispatched, |s.queue|, f);
      }
    }
  }

  lemma DispatchFull<F(!new)>(maxsize: int, s: State<F>, f: F)
    requires Inv(maxsize, s) && !s.released && Full(s.queue, maxsize)
    ensures Inv(maxsize, Step(maxsize, s, Dispatch(f)))
  {
    NewestPopped(s.queue, s.dispatched, |s.queue|);
    ReadPassed(s.received, s.dispatched, |s.queue|);
    NewestPushed(s.queue[1..], s.dispatched, f);
    ReadGrows(s.received, s.dispatched, |s.queue| - 1, f);
  }

  lemma ReleaseKeepsInv<F(!new)>(maxsize: int, s: State<F>)
    requires Inv(maxsize, s)
    ensures Inv(maxsize, Step(maxsize, s, Release))
  {
    if !s.released {
      if Full(s.queue, maxsize) {
        ReleaseFull(maxsize, s);
      } else {
        NewestClosed(s.queue, s.dispatched);
      }
    }
  }

  lemma ReleaseFull<F(!new)>(maxsize: int, s: State<F>)
    requires Inv(maxsize, s) && !s.released && Full(s.queue, maxsize)
    ensures Inv(maxsize, Step(maxsize, s, Release))
  {
    var rest := s.queue[1..];
    NewestPopped(s.queue, s.dispatched, |s.queue|);
    ReadPassed(s.received, s.dispatched, |s.queue|);
    NewestClosed(rest, s.dispatched);
    assert (rest + [Eof])[|rest|] == Eof;
  }

  lemma ConsumeKeepsInv<F(!new)>(maxsize: int, s: State<F>)
    requires Inv(maxsize, s)
    ensures Inv(maxsize, Step(maxsize, s, Consume))
  {
    var w := Waiting(s);
    if w > 0 {
      NewestPopped(s.queue, s.dispatched, w);
      ReadPassed(s.received, s.dispatched, w);
    }
  }

  lemma {:induction false} RunKeepsInv<F(!new)>(maxsize: int, es: seq<Event<F>>)
    ensures Inv(maxsize, Run(maxsize, es))
  {
    if es != [] {
      var s := Run(maxsize, es[..|es| - 1]);
      RunKeepsInv(maxsize, es[..|es| - 1]);
      match es[|es| - 1]
      case Dispatch(f) => DispatchKeepsInv(maxsize, s, f);
      case Release => ReleaseKeepsInv(maxsize, s);
      case Consume => ConsumeKeepsInv(maxsize, s);
    }
  }

  /** What the invariant says about one state, without its own bookkeeping. */
  ghost predicate Accounted<F(!new)>(s: State<F>) {
    var n, w := |s.dispatched|, Waiting(s);
    && w <= n
    && Subsequence(s.received, s.dispatched[..n - w])
    && n == |s.received| + w + s.overflow + s.evicted
    && s.evicted <= 1 && (!s.released ==> s.evicted == 0)
    && |s.queue| == w + (if s.released && !s.ended then 1 else 0)
    && Newest(s.queue, s.dispatched, w)
    && (s.released && !s.ended ==> s.queue[w] == Eof)
  }

  lemma InvAccounts<F(!new)>(maxsize: int, s: State<F>)
    requires Inv(maxsize, s)
    ensures Accounted(s)
  {
  }

  /** While there is room nothing is dropped, by a frame or by the end marker; a queue without a size has room. */
  lemma RoomDropsNothing<F(!new)>(maxsize: int, s: State<F>, f: F)
    requires !s.released && (maxsize <= 0 || |s.queue| < maxsize)
    ensures
      var t, u := Step(maxsize, s, Dispatch(f)), Step(maxsize, s, Release);
      && t.queue == s.queue + [Data(f)] && t.overflow == s.overflow
      && u.queue == s.queue + [Eof] && u.evicted == s.evicted
  {
  }

  /** A full queue drops its oldest item, one for one. */
  lemma FullDropsOldest<F(!new)>(maxsize: int, s: State<F>, f: F)
    requires !s.released && 0 < maxsize == |s.queue|
    ensures
      var t, u := Step(maxsize, s, Dispatch(f)), Step(maxsize, s, Release);
      && t.queue == s.queue[1..] + [Data(f)] && t.overflow == s.overflow + 1
      && u.queue == s.queue[1..] + [Eof] && u.evicted == s.evicted + 1
  {
  }

  /** So over a whole run that never dispatches more than fits, a reader misses nothing. */
  lemma {:induction false} NothingDropped<F(!new)>(maxsize: int, es: seq<Event<F>>)
    requires maxsize <= 0 || |es| <= maxsize
    ensures Run(maxsize, es).overflow == Run(maxsize, es).evicted == 0 && |Run(maxsize, es).queue| <= |es|
  {
    if es != [] {
      NothingDropped(maxsize, es[..|es| - 1]);
    }
  }

  /** Nothing is invented, reordered or lost without being counted, and the queue holds the newest frames. */
  lemma FramesAccountedFor<F(!new)>(maxsize: int, es: seq<Event<F>>)
    ensures Accounted(Run(maxsize, es))
  {
    RunKeepsInv(maxsize, es);
    InvAccounts(maxsize, Run(maxsize, es));
  }

  /** The consumer takes `n` more items while nothing else happens. */
  function Consumed<F>(maxsize: int, s: State<F>, n: nat): State<F> {
    if n == 0 then s else Step(maxsize, Consumed(maxsize, s, n - 1), Consume)
  }

  lemma ConsumeOne<F(!new)>(maxsize: int, s: State<F>)
    requires Inv(maxsize, s) && s.released && !s.ended
    ensures
      var t := Step(maxsize, s, Consume);
      if Waiting(s) > 0 then t.released && !t.ended && Waiting(t) == Waiting(s) - 1 else t.ended
  {
    if Waiting(s) > 0 {
      NewestPopped(s.queue, s.dispatched, Waiting(s));
    }
  }

  lemma {:induction false} ConsumeDown<F(!new)>(maxsize: int, s: State<F>, n: nat)
    requires Inv(maxsize, s) && s.released && !s.ended && n <= Waiting(s)
    ensures Inv(maxsize, Consumed(maxsize, s, n))
    ensures Consumed(maxsize, s, n).released && !Consumed(maxsize, s, n).ended
    ensures Waiting(Consumed(maxsize, s, n)) == Waiting(s) - n
  {
    if n > 0 {
      ConsumeDown(maxsize, s, n - 1);
      ConsumeOne(maxsize, Consumed(maxsize, s, n - 1));
      ConsumeKeepsInv(maxsize, Consumed(maxsize, s, n - 1));
    }
  }

  /** After a release the iteration ends: after exactly the waiting frames, fewer than `maxsize` on a bounded queue. */
  lemma IterationEnds<F(!new)>(maxsize: int, es: seq<Event<F>>)
    requires Run(maxsize, es).released && !Run(maxsize, es).ended
    ensures
      var s := Run(maxsize, es);
      && (maxsize > 0 ==> Waiting(s) < maxsize)
      && !Consumed(maxsize, s, Waiting(s)).ended
      && Consumed(maxsize, s, Waiting(s) + 1).ended
  {
    var s := Run(maxsize, es);
    RunKeepsInv(maxsize, es);
    ConsumeDown(maxsize, s, Waiting(s));
    ConsumeOne(maxsize, Consumed(maxsize, s, Waiting(s)));
  }
}
