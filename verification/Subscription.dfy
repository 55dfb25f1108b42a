/**
 Refcounted market subscriptions over a reconnecting WebSocket: symbol refcounts in the manager, tracked
 streams in the client, and the subscriptions a server infers from the frames of the live connection.

 Sends do not fail, and the client starts without initial streams.
 */
module Subscription {
  import opened Common

  // ----- stream names -----

  function LowerChar(c: char): char {
    if 'A' <= c <= 'Z' then (c as int + 32) as char else c
  }

  function UpperChar(c: char): char {
    if 'a' <= c <= 'z' then (c as int - 32) as char else c
  }

  function Lower(s: string): string {
    seq(|s|, i requires 0 <= i < |s| => LowerChar(s[i]))
  }

  function Upper(s: string): string {
    seq(|s|, i requires 0 <= i < |s| => UpperChar(s[i]))
  }

  /** Uppercase ASCII letters and digits, at least one. */
  predicate ValidSymbol(s: string) {
    s != [] && forall c | c in s :: 'A' <= c <= 'Z' || '0' <= c <= '9'
  }

  function StreamName(symbol: string, kind: string): string {
    Lower(symbol) + ['@'] + kind
  }

  /** The text before the first '@', if there is one. */
  function BeforeAt(s: string): Option<string> {
    if s == [] then None
    else if s[0] == '@' then Some([])
    else match BeforeAt(s[1..]) case None => None case Some(t) => Some([s[0]] + t)
  }

  /** The symbol a frame is routed by. */
  function RouteSymbol(stream: string): Option<string> {
    match BeforeAt(stream) case None => None case Some(t) => Some(Upper(t))
  }

  lemma {:induction false} BeforeAtPrefix(t: string, rest: string)
    requires '@' !in t
    ensures BeforeAt(t + ['@'] + rest) == Some(t)
  {
    if t != [] {
      BeforeAtPrefix(t[1..], rest);
      assert (t + ['@'] + rest)[1..] == t[1..] + ['@'] + rest;
      assert t == [t[0]] + t[1..];
      assert t[0] in t;
    }
  }

  /** Letters and digits of ASCII. */
  predicate IsAlnum(c: char) {
    'A' <= c <= 'Z' || 'a' <= c <= 'z' || '0' <= c <= '9'
  }

  /** The test as it is made: not empty, alphanumeric, and its own upper case. */
  lemma ValidSymbolIff(s: string)
    ensures ValidSymbol(s) <==> s != [] && (forall c | c in s :: IsAlnum(c)) && Upper(s) == s
  {
    if s != [] && (forall c | c in s :: IsAlnum(c)) && Upper(s) == s {
      forall c | c in s
        ensures 'A' <= c <= 'Z' || '0' <= c <= '9'
      {
        var i :| 0 <= i < |s| && s[i] == c;
        assert Upper(s)[i] == UpperChar(s[i]);
      }
    }
    if ValidSymbol(s) {
      forall i | 0 <= i < |s|
        ensures Upper(s)[i] == s[i]
      {
        assert s[i] in s;
      }
      assert Upper(s) == s;
    }
  }

  const UPPERCASE := "ABCDEFGHIJKLMNOPQRSTUVWXYZ"
  const LOWERCASE := "abcdefghijklmnopqrstuvwxyz"

  /** Case mapping is letter by letter on the alphabet, and leaves every other character alone. */
  lemma CaseOfLetters(c: char, i: nat)
    requires i < 26
    ensures LowerChar(UPPERCASE[i]) == LOWERCASE[i] && UpperChar(LOWERCASE[i]) == UPPERCASE[i]
    ensures c !in UPPERCASE ==> LowerChar(c) == c
    ensures c !in LOWERCASE ==> UpperChar(c) == c
  {
    AlphabetAt(i);
    if 'A' <= c <= 'Z' {
      AlphabetAt(c as int - 'A' as int);
      assert UPPERCASE[c as int - 'A' as int] == c;
    }
    if 'a' <= c <= 'z' {
      AlphabetAt(c as int - 'a' as int);
      assert LOWERCASE[c as int - 'a' as int] == c;
    }
  }

  lemma AlphabetAt(i: nat)
    requires i < 26
    ensures |UPPERCASE| == |LOWERCASE| == 26
    ensures UPPERCASE[i] as int == 'A' as int + i && LOWERCASE[i] as int == 'a' as int + i
  {
  }

  /** The text before the first '@' and the text after it. */
  ghost predicate CutsAt(s: string, before: string, after: string) {
    s == before + ['@'] + after && '@' !in before
  }

  /** `BeforeAt` cuts at the first '@' and finds one whenever there is one. */
  lemma {:induction false} BeforeAtCuts(s: string)
    ensures BeforeAt(s).None? <==> '@' !in s
    ensures BeforeAt(s).Some? ==> exists after :: CutsAt(s, BeforeAt(s).value, after)
  {
    if s != [] {
      assert s == [s[0]] + s[1..];
      BeforeAtCuts(s[1..]);
      if s[0] == '@' {
        assert CutsAt(s, [], s[1..]);
      } else if BeforeAt(s[1..]).Some? {
        var t := BeforeAt(s[1..]).value;
        var after :| CutsAt(s[1..], t, after);
        assert s == [s[0]] + t + ['@'] + after;
        assert CutsAt(s, [s[0]] + t, after);
      }
    }
  }

  /** There is only one way to cut. */
  lemma CutOnce(a: string, b: string, x: string, y: string)
    requires '@' !in a && '@' !in x && a + ['@'] + b == x + ['@'] + y
    ensures a == x && b == y
  {
    var s := a + ['@'] + b;
    assert s == x + ['@'] + y;
    assert s[|a|] == '@' && s[|x|] == '@';
    if |a| < |x| {
      assert false;
    }
    if |x| < |a| {
      assert false;
    }
    assert a == s[..|a|] && x == s[..|a|];
    assert b == s[|a| + 1..] && y == s[|a| + 1..];
  }

  /**
   What a stream name says: its kind after the first '@', and before it the symbol letter by letter in lower case,
   with no capital left.
   */
  lemma StreamNameSays(symbol: string, kind: string, before: string, after: string)
    requires ValidSymbol(symbol)
    ensures CutsAt(StreamName(symbol, kind), before, after) <==>
              && after == kind && |before| == |symbol|
              && forall i | 0 <= i < |symbol| :: before[i] == LowerChar(symbol[i]) && !('A' <= before[i] <= 'Z')
  {
    var low := Lower(symbol);
    forall i | 0 <= i < |symbol|
      ensures low[i] == LowerChar(symbol[i]) && low[i] != '@' && !('A' <= low[i] <= 'Z')
    {
      assert symbol[i] in symbol;
    }
    assert CutsAt(StreamName(symbol, kind), low, kind);
    if CutsAt(StreamName(symbol, kind), before, after) {
      CutOnce(low, kind, before, after);
    } else if |before| == |symbol| && forall i | 0 <= i < |symbol| :: before[i] == LowerChar(symbol[i]) {
      assert before == low;
    }
  }

  /** Streams are equal exactly when symbol and kind are. */
  lemma StreamNameInjective(symbol: string, kind: string, other: string, otherKind: string)
    requires ValidSymbol(symbol) && ValidSymbol(other)
    ensures StreamName(symbol, kind) == StreamName(other, otherKind) <==> symbol == other && kind == otherKind
  {
    if StreamName(symbol, kind) == StreamName(other, otherKind) {
      RouteRoundTrip(symbol, kind);
      RouteRoundTrip(other, otherKind);
      StreamNameSays(symbol, kind, Lower(symbol), kind);
      StreamNameSays(other, otherKind, Lower(symbol), kind);
    }
  }

  /** Routing a frame back from its stream name finds the symbol that subscribed to it. */
  lemma RouteRoundTrip(symbol: string, kind: string)
    requires ValidSymbol(symbol)
    ensures RouteSymbol(StreamName(symbol, kind)) == Some(symbol)
  {
    forall i | 0 <= i < |symbol|
      ensures Lower(symbol)[i] != '@' && Upper(Lower(symbol))[i] == symbol[i]
    {
      assert symbol[i] in symbol;
    }
    BeforeAtPrefix(Lower(symbol), kind);
    assert Upper(Lower(symbol)) == symbol;
  }

  // ----- the client -----

  datatype Status = Disconnected | Connecting | Connected | Reconnecting | Closed

  datatype Frame = Frame(subscribe: bool, params: seq<string>, id: nat)

  /** `sock` holds the frames sent on the current socket. It outlives a clean end of the connection. */
  datatype Ws = Ws(streams: set<string>, status: Status, sock: Option<seq<Frame>>, nextId: nat)

  predicate Live(ws: Ws) {
    ws.status == Connected && ws.sock.Some?
  }

  function Send(ws: Ws, subscribe: bool, params: seq<string>): Ws
    requires ws.sock.Some?
  {
    ws.(sock := Some(ws.sock.value + [Frame(subscribe, params, ws.nextId)]), nextId := ws.nextId + 1)
  }

  datatype Op = Add(stream: string) | Remove(stream: string)

  function AddStream(ws: Ws, stream: string): Ws {
    if stream in ws.streams then ws
    else
      var tracked := ws.(streams := ws.streams + {stream});
      if Live(ws) then Send(tracked, true, [stream]) else tracked
  }

  function RemoveStream(ws: Ws, stream: string): Ws {
    if stream !in ws.streams then ws
    else
      var tracked := ws.(streams := ws.streams - {stream});
      if Live(ws) then Send(tracked, false, [stream]) else tracked
  }

  function Apply(ws: Ws, op: Op): Ws {
    if op.Add? then AddStream(ws, op.stream) else RemoveStream(ws, op.stream)
  }

  function ApplyAll(ws: Ws, ops: seq<Op>): Ws {
    if ops == [] then ws else Apply(ApplyAll(ws, ops[..|ops| - 1]), ops[|ops| - 1])
  }

  /** A fresh socket opens and the whole tracked set is subscribed, in the order `order`. */
  function Open(ws: Ws, order: seq<string>): Ws {
    var connected := ws.(status := Connected, sock := Some([]));
    if ws.streams != {} then Send(connected, true, order) else connected
  }

  /** What the server believes after the frames of one connection. */
  function ServerView(frames: seq<Frame>): set<string> {
    if frames == [] then {}
    else
      var before, f := ServerView(frames[..|frames| - 1]), frames[|frames| - 1];
      if f.subscribe then before + (set x | x in f.params) else before - (set x | x in f.params)
  }

  lemma ServerViewSnoc(frames: seq<Frame>, f: Frame)
    ensures ServerView(frames + [f])
         == if f.subscribe then ServerView(frames) + (set x | x in f.params)
            else ServerView(frames) - (set x | x in f.params)
  {
    assert (frames + [f])[..|frames|] == frames;
  }

  /** While connected, the server agrees with the client. */
  ghost predicate InSync(ws: Ws) {
    Live(ws) ==> ServerView(ws.sock.value) == ws.streams
  }

  /** Requests on one socket carry increasing ids, all below the next one. */
  ghost predicate Numbered(ws: Ws) {
    ws.sock.Some? ==>
      && (forall i | 0 <= i < |ws.sock.value| :: ws.sock.value[i].id < ws.nextId)
      && (forall i, j | 0 <= i < j < |ws.sock.value| :: ws.sock.value[i].id < ws.sock.value[j].id)
  }

  lemma ApplyInSync(ws: Ws, op: Op)
    requires InSync(ws) && Numbered(ws)
    ensures InSync(Apply(ws, op)) && Numbered(Apply(ws, op))
    ensures Apply(ws, op).streams == if op.Add? then ws.streams + {op.stream} else ws.streams - {op.stream}
    ensures Apply(ws, op).status == ws.status
  {
    if Live(ws) {
      ServerViewSnoc(ws.sock.value, Frame(op.Add?, [op.stream], ws.nextId));
      assert (set x | x in [op.stream]) == {op.stream};
    }
  }

  lemma OpenInSync(ws: Ws, order: seq<string>)
    requires (set x | x in order) == ws.streams
    ensures InSync(Open(ws, order)) && Numbered(Open(ws, order))
  {
    ServerViewSnoc([], Frame(true, order, ws.nextId));
    assert [] + [Frame(true, order, ws.nextId)] == [Frame(true, order, ws.nextId)];
  }

  /** Whether the operation changes what is tracked. */
  predicate Changes(ws: Ws, op: Op) {
    op.Add? <==> op.stream !in ws.streams
  }

  /** A change on a live connection sends exactly one frame with exactly that stream; nothing else sends anything. */
  lemma ApplyFrames(ws: Ws, op: Op)
    ensures
      var t := Apply(ws, op);
      if !Changes(ws, op) then t == ws
      else if ws.status == Connected && ws.sock.Some? then
        t.sock == Some(ws.sock.value + [Frame(op.Add?, [op.stream], ws.nextId)]) && t.nextId == ws.nextId + 1
      else t.sock == ws.sock && t.nextId == ws.nextId
  {
  }

  /** A fresh connection gets one frame with everything tracked, or none. */
  lemma OpenFrames(ws: Ws, order: seq<string>)
    ensures
      var t := Open(ws, order);
      && t.status == Connected && t.streams == ws.streams
      && t.sock == Some(if ws.streams == {} then [] else [Frame(true, order, ws.nextId)])
      && t.nextId == ws.nextId + (if ws.streams == {} then 0 else 1)
  {
    assert [] + [Frame(true, order, ws.nextId)] == [Frame(true, order, ws.nextId)];
  }

  class BinanceWsClient {
    var streams: set<string>
    var status: Status
    var sock: Option<seq<Frame>>
    var nextId: nat

    function Abs(): Ws
      reads this
    {
      Ws(streams, status, sock, nextId)
    }

    constructor ()
      ensures Abs() == Ws({}, Disconnected, None, 1)
    {
      streams, status, sock, nextId := {}, Disconnected, None, 1;
    }

    method SendSubscription(subscribe: bool, params: seq<string>)
      requires sock.Some?
      modifies this`sock, this`nextId
      ensures Abs() == Send(old(Abs()), subscribe, params)
    {
      sock := Some(sock.value + [Frame(subscribe, params, nextId)]);
      nextId := nextId + 1;
    }

    method AddStreamTo(stream: string)
      modifies this
      ensures Abs() == AddStream(old(Abs()), stream)
    {
      if stream in streams {
        return;
      }
      streams := streams + {stream};
      if status == Connected && sock.Some? {
        SendSubscription(true, [stream]);
      }
    }

    method RemoveStreamFrom(stream: string)
      modifies this
      ensures Abs() == RemoveStream(old(Abs()), stream)
    {
      if stream !in streams {
        return;
      }
      streams := streams - {stream};
      if status == Connected && sock.Some? {
        SendSubscription(false, [stream]);
      }
    }

    /** The resubscribe half of the reconnect loop; `order` stands for the sorted stream set. */
    method OnOpen(order: seq<string>)
      requires (set x | x in order) == streams
      modifies this
      ensures Abs() == Open(old(Abs()), order)
    {
      sock := Some([]);
      status := Connected;
      if streams != {} {
        SendSubscription(true, order);
      }
    }
  }

  // ----- the manager -----

  function AddOps(symbol: string, kinds: seq<string>): seq<Op> {
    seq(|kinds|, i requires 0 <= i < |kinds| => Add(StreamName(symbol, kinds[i])))
  }

  function RemoveOps(symbol: string, kinds: seq<string>): seq<Op> {
    seq(|kinds|, i requires 0 <= i < |kinds| => Remove(StreamName(symbol, kinds[i])))
  }

  /** `list.remove`: the first occurrence, if any. */
  function Without<T(==)>(xs: seq<T>, x: T): seq<T> {
    if xs == [] then [] else if xs[0] == x then xs[1..] else [xs[0]] + Without(xs[1..], x)
  }

  class SubscriptionManager {
    const ws: BinanceWsClient
    const kinds: seq<string>
    var counts: map<string, nat>
    var feeds: map<string, seq<nat>>

    /** A symbol is in the maps exactly while somebody holds it. */
    ghost predicate Valid()
      reads this
    {
      counts.Keys == feeds.Keys && forall symbol | symbol in counts :: counts[symbol] > 0
    }

    constructor (ws: BinanceWsClient, kinds: seq<string>)
      ensures Valid() && this.ws == ws && this.kinds == kinds && counts == map[] && feeds == map[]
    {
      this.ws, this.kinds, counts, feeds := ws, kinds, map[], map[];
    }

    /** Adds one holder; only the first one makes the client subscribe. */
    method Acquire(symbol: string, feed: nat)
      requires Valid()
      modifies this, ws
      ensures Valid()
      ensures counts == old(counts)[symbol := (if symbol in old(counts) then old(counts)[symbol] else 0) + 1]
      ensures feeds == old(feeds)[symbol := (if symbol in old(feeds) then old(feeds)[symbol] else []) + [feed]]
      ensures ws.Abs() == if symbol in old(counts) then old(ws.Abs())
                          else ApplyAll(old(ws.Abs()), AddOps(symbol, kinds))
    {
      var count := if symbol in counts then counts[symbol] else 0;
      counts := counts[symbol := count + 1];
      feeds := feeds[symbol := (if symbol in feeds then feeds[symbol] else []) + [feed]];
      if count == 0 {
        ghost var ops := AddOps(symbol, kinds);
        assert feeds[symbol] == [feed];
        for i := 0 to |kinds|
          invariant counts == old(counts)[symbol := count + 1]
          invariant feeds == old(feeds)[symbol := [feed]]
          invariant ws.Abs() == ApplyAll(old(ws.Abs()), ops[..i])
        {
          assert ops[..i + 1][..i] == ops[..i];
          ws.AddStreamTo(StreamName(symbol, kinds[i]));
        }
        assert ops[..|kinds|] == ops;
      }
    }

    /** Drops one holder; only the last one makes the client unsubscribe. */
    method Release(symbol: string, feed: nat)
      requires Valid()
      modifies this, ws
      ensures Valid()
      ensures symbol !in old(counts) ==> counts == old(counts) && feeds == old(feeds) && ws.Abs() == old(ws.Abs())
      ensures symbol in old(counts) && old(counts)[symbol] > 1 ==>
                && counts == old(counts)[symbol := old(counts)[symbol] - 1]
                && feeds == old(feeds)[symbol := Without(old(feeds)[symbol], feed)]
                && ws.Abs() == old(ws.Abs())
      ensures symbol in old(counts) && old(counts)[symbol] == 1 ==>
                && counts == old(counts) - {symbol} && feeds == old(feeds) - {symbol}
                && ws.Abs() == ApplyAll(old(ws.Abs()), RemoveOps(symbol, kinds))
    {
      if symbol !in counts {
        return;
      }
      var count := counts[symbol];
      feeds := feeds[symbol := Without(feeds[symbol], feed)];
      if count > 1 {
        counts := counts[symbol := count - 1];
        return;
      }
      counts := counts - {symbol};
      feeds := feeds - {symbol};
      ghost var ops := RemoveOps(symbol, kinds);
      for i := 0 to |kinds|
        invariant counts == old(counts) - {symbol} && feeds == old(feeds) - {symbol}
        invariant ws.Abs() == ApplyAll(old(ws.Abs()), ops[..i])
      {
        assert ops[..i + 1][..i] == ops[..i];
        ws.RemoveStreamFrom(StreamName(symbol, kinds[i]));
      }
      assert ops[..|kinds|] == ops;
    }
  }

  // ----- every interleaving of holders and connections -----

  /**
   `pending` is what is left of the add/remove loop of the operation that holds the manager lock; the
   connection may drop and reopen between any two of its steps. `held` maps an open subscription to its symbol.
   */
  datatype State = State(
    counts: map<string, nat>,
    feeds: map<string, seq<nat>>,
    held: map<nat, string>,
    used: set<nat>,
    ws: Ws,
    pending: seq<Op>)

  datatype Event =
    | Enter(id: nat, symbol: string)
    | Exit(id: nat)
    | Work
    | Dial(again: bool)
    | Opened(order: seq<string>)
    | Broken
    | Ended
    | Close

  const START := State(map[], map[], map[], {}, Ws({}, Disconnected, None, 1), [])

  ghost function Step(kinds: seq<string>, s: State, e: Event): State {
    match e
    case Enter(id, symbol) =>
      if s.pending != [] || id in s.used || !ValidSymbol(symbol) then s
      else
        var count := if symbol in s.counts then s.counts[symbol] else 0;
        s.(counts := s.counts[symbol := count + 1],
           feeds := s.feeds[symbol := (if symbol in s.feeds then s.feeds[symbol] else []) + [id]],
           held := s.held[id := symbol],
           used := s.used + {id},
           pending := if count == 0 then AddOps(symbol, kinds) else [])
    case Exit(id) =>
      if s.pending != [] || id !in s.held then s
      else Leave(kinds, s, id, s.held[id])
    case Work =>
      if s.pending == [] then s else s.(ws := Apply(s.ws, s.pending[0]), pending := s.pending[1..])
    case Dial(again) =>
      if s.ws.status == Closed || Live(s.ws) then s
      else s.(ws := s.ws.(status := if again then Reconnecting else Connecting))
    case Opened(order) =>
      if s.ws.status in {Connecting, Reconnecting} && (set x | x in order) == s.ws.streams
      then s.(ws := Open(s.ws, order)) else s
    case Broken =>
      // The error path forgets the socket and leaves the status until the next dial.
      if Live(s.ws) then s.(ws := s.ws.(sock := None)) else s
    case Ended =>
      // A clean end goes straight back to dialling and leaves the socket until the next open.
      if Live(s.ws) then s.(ws := s.ws.(status := Connecting)) else s
    case Close => s.(ws := s.ws.(status := Closed, sock := None))
  }

  ghost function Leave(kinds: seq<string>, s: State, id: nat, symbol: string): State
    requires id in s.held
  {
    if symbol !in s.counts then s.(held := s.held - {id})
    else if s.counts[symbol] > 1 then
      s.(counts := s.counts[symbol := s.counts[symbol] - 1],
         feeds := s.feeds[symbol := Without(if symbol in s.feeds then s.feeds[symbol] else [], id)],
         held := s.held - {id})
    else
      s.(counts := s.counts - {symbol},
         feeds := s.feeds - {symbol},
         held := s.held - {id},
         pending := RemoveOps(symbol, kinds))
  }

  ghost function Run(kinds: seq<string>, es: seq<Event>): State {
    if es == [] then START else Step(kinds, Run(kinds, es[..|es| - 1]), es[|es| - 1])
  }

  // ----- the invariant -----

  ghost function StreamsOf(kinds: seq<string>, symbol: string): set<string> {
    set k | k in kinds :: StreamName(symbol, k)
  }

  /** The streams of the symbols somebody holds. */
  ghost function Wanted(kinds: seq<string>, symbols: set<string>): set<string> {
    set s, k | s in symbols && k in kinds :: StreamName(s, k)
  }

  ghost function Holders(s: State, symbol: string): set<nat> {
    set id | id in s.held && s.held[id] == symbol
  }

  function StreamsAfter(streams: set<string>, ops: seq<Op>): set<string>
    decreases |ops|
  {
    if ops == [] then streams
    else StreamsAfter(if ops[0].Add? then streams + {ops[0].stream} else streams - {ops[0].stream}, ops[1..])
  }

  /** The refcount of a symbol is the number of subscriptions that hold it, and they are its feeds. */
  ghost predicate Counted(s: State, symbol: string) {
    if symbol in s.counts then
      && symbol in s.feeds && ValidSymbol(symbol)
      && s.counts[symbol] == |Holders(s, symbol)| == |s.feeds[symbol]| > 0
      && (forall id :: id in s.feeds[symbol] <==> id in Holders(s, symbol))
    else symbol !in s.feeds && Holders(s, symbol) == {}
  }

  ghost predicate Inv(kinds: seq<string>, s: State) {
    && s.held.Keys <= s.used
    && (forall symbol :: Counted(s, symbol))
    && InSync(s.ws) && Numbered(s.ws)
    && StreamsAfter(s.ws.streams, s.pending) == Wanted(kinds, s.counts.Keys)
  }

  lemma {:induction false} AddOpsAfter(streams: set<string>, symbol: string, kinds: seq<string>)
    ensures StreamsAfter(streams, AddOps(symbol, kinds)) == streams + StreamsOf(kinds, symbol)
    decreases |kinds|
  {
    if kinds == [] {
      assert streams + StreamsOf(kinds, symbol) == streams;
    } else {
      assert AddOps(symbol, kinds)[1..] == AddOps(symbol, kinds[1..]);
      AddOpsAfter(streams + {StreamName(symbol, kinds[0])}, symbol, kinds[1..]);
      assert StreamsOf(kinds, symbol) == {StreamName(symbol, kinds[0])} + StreamsOf(kinds[1..], symbol);
      assert StreamsAfter(streams, AddOps(symbol, kinds))
          == streams + {StreamName(symbol, kinds[0])} + StreamsOf(kinds[1..], symbol);
    }
  }

  lemma {:induction false} RemoveOpsAfter(streams: set<string>, symbol: string, kinds: seq<string>)
    ensures StreamsAfter(streams, RemoveOps(symbol, kinds)) == streams - StreamsOf(kinds, symbol)
    decreases |kinds|
  {
    if kinds == [] {
      assert streams - StreamsOf(kinds, symbol) == streams;
    } else {
      assert RemoveOps(symbol, kinds)[1..] == RemoveOps(symbol, kinds[1..]);
      RemoveOpsAfter(streams - {StreamName(symbol, kinds[0])}, symbol, kinds[1..]);
      assert StreamsOf(kinds, symbol) == {StreamName(symbol, kinds[0])} + StreamsOf(kinds[1..], symbol);
      assert StreamsAfter(streams, RemoveOps(symbol, kinds))
          == streams - {StreamName(symbol, kinds[0])} - StreamsOf(kinds[1..], symbol);
    }
  }

  /** Streams of different symbols never clash, so dropping one symbol leaves the others' streams. */
  lemma WantedWithout(kinds: seq<string>, symbols: set<string>, symbol: string)
    requires ValidSymbol(symbol) && forall s | s in symbols :: ValidSymbol(s)
    ensures Wanted(kinds, symbols) - StreamsOf(kinds, symbol) == Wanted(kinds, symbols - {symbol})
  {
    forall s, k, j | s in symbols && k in kinds && j in kinds && StreamName(s, k) == StreamName(symbol, j)
      ensures s == symbol
    {
      RouteRoundTrip(s, k);
      RouteRoundTrip(symbol, j);
    }
  }

  lemma {:induction false} StreamsOfSize(kinds: set<string>, symbol: string)
    requires ValidSymbol(symbol)
    ensures |set k | k in kinds :: StreamName(symbol, k)| == |kinds|
  {
    var names := set k | k in kinds :: StreamName(symbol, k);
    if kinds == {} {
      assert names == {};
    } else {
      var x := Pick(kinds);
      var rest := kinds - {x};
      StreamsOfSize(rest, symbol);
      var fewer := set k | k in rest :: StreamName(symbol, k);
      forall k | k in rest
        ensures StreamName(symbol, k) != StreamName(symbol, x)
      {
        StreamNameInjective(symbol, k, symbol, x);
      }
      assert names == fewer + {StreamName(symbol, x)};
    }
  }

  function Distinct(kinds: seq<string>): set<string> {
    set k | k in kinds
  }

  /** One stream for each held symbol and distinct kind. */
  lemma {:induction false} WantedSize(kinds: seq<string>, symbols: set<string>)
    requires forall s | s in symbols :: ValidSymbol(s)
    ensures |Wanted(kinds, symbols)| == |symbols| * |Distinct(kinds)|
  {
    if symbols == {} {
      assert Wanted(kinds, symbols) == {};
    } else {
      var x := Pick(symbols);
      var rest := symbols - {x};
      WantedSize(kinds, rest);
      WantedSplit(kinds, symbols, x);
      StreamsOfSize(Distinct(kinds), x);
      assert StreamsOf(kinds, x) == set k | k in Distinct(kinds) :: StreamName(x, k);
      OneMoreRow(|rest|, |Distinct(kinds)|);
    }
  }

  lemma WantedSplit(kinds: seq<string>, symbols: set<string>, x: string)
    requires x in symbols && forall s | s in symbols :: ValidSymbol(s)
    ensures Wanted(kinds, symbols) == Wanted(kinds, symbols - {x}) + StreamsOf(kinds, x)
    ensures |Wanted(kinds, symbols)| == |Wanted(kinds, symbols - {x})| + |StreamsOf(kinds, x)|
  {
    WantedWithout(kinds, symbols, x);
    WantedWith(kinds, symbols - {x}, x);
    assert symbols - {x} + {x} == symbols;
    assert Wanted(kinds, symbols - {x}) !! StreamsOf(kinds, x);
  }

  lemma OneMoreRow(n: nat, k: nat)
    ensures (n + 1) * k == n * k + k
  {
  }

  lemma WantedWith(kinds: seq<string>, symbols: set<string>, symbol: string)
    ensures Wanted(kinds, symbols) + StreamsOf(kinds, symbol) == Wanted(kinds, symbols + {symbol})
  {
  }

  lemma EnterKeepsCounted(kinds: seq<string>, s: State, e: Event, symbol: string)
    requires Inv(kinds, s) && e.Enter?
    ensures Counted(Step(kinds, s, e), symbol)
  {
    var t := Step(kinds, s, e);
    assert Counted(s, symbol);
    if t != s {
      if symbol == e.symbol {
        assert Holders(t, symbol) == Holders(s, symbol) + {e.id};
      } else {
        assert Holders(t, symbol) == Holders(s, symbol);
      }
    }
  }

  lemma {:induction false} CoverSize(xs: seq<nat>, ids: set<nat>)
    requires forall id | id in ids :: id in xs
    ensures |ids| <= |xs|
  {
    if xs == [] {
      assert ids == {};
    } else {
      assert xs == [xs[0]] + xs[1..];
      CoverSize(xs[1..], ids - {xs[0]});
    }
  }

  /** A list with as many entries as members repeats nothing, so removing one entry removes that member. */
  lemma {:induction false} WithoutMember(xs: seq<nat>, ids: set<nat>, x: nat)
    requires |xs| == |ids| && (forall id :: id in xs <==> id in ids) && x in ids
    ensures |Without(xs, x)| == |xs| - 1
    ensures forall id :: id in Without(xs, x) <==> id in ids - {x}
  {
    var y, rest := xs[0], xs[1..];
    assert xs == [y] + rest;
    if y in rest {
      CoverSize(rest, ids);
      assert false;
    }
    assert forall id :: id in rest <==> id in ids - {y};
    if y != x {
      WithoutMember(rest, ids - {y}, x);
      assert Without(xs, x) == [y] + Without(rest, x);
    }
  }

  lemma ExitKeepsCounted(kinds: seq<string>, s: State, e: Event, symbol: string)
    requires Inv(kinds, s) && e.Exit?
    ensures Counted(Step(kinds, s, e), symbol)
  {
    var t := Step(kinds, s, e);
    assert Counted(s, symbol);
    if t != s {
      var mine := s.held[e.id];
      if symbol != mine {
        assert Holders(t, symbol) == Holders(s, symbol);
      } else {
        assert e.id in Holders(s, symbol);
        assert Holders(t, symbol) == Holders(s, symbol) - {e.id};
        WithoutMember(s.feeds[symbol], Holders(s, symbol), e.id);
      }
    }
  }

  lemma EnterKeepsInv(kinds: seq<string>, s: State, e: Event)
    requires Inv(kinds, s) && e.Enter?
    ensures Inv(kinds, Step(kinds, s, e))
  {
    var t := Step(kinds, s, e);
    if t != s {
      forall symbol
        ensures Counted(t, symbol)
      {
        EnterKeepsCounted(kinds, s, e, symbol);
      }
      assert Counted(s, e.symbol);
      AddOpsAfter(s.ws.streams, e.symbol, kinds);
      WantedWith(kinds, s.counts.Keys, e.symbol);
      assert t.counts.Keys == s.counts.Keys + {e.symbol};
    }
  }

  lemma ExitKeepsInv(kinds: seq<string>, s: State, e: Event)
    requires Inv(kinds, s) && e.Exit?
    ensures Inv(kinds, Step(kinds, s, e))
  {
    var t := Step(kinds, s, e);
    if t != s {
      var symbol := s.held[e.id];
      forall x
        ensures Counted(t, x)
      {
        ExitKeepsCounted(kinds, s, e, x);
      }
      assert Counted(s, symbol) && e.id in Holders(s, symbol);
      assert forall x | x in s.counts.Keys :: Counted(s, x);
      RemoveOpsAfter(s.ws.streams, symbol, kinds);
      WantedWithout(kinds, s.counts.Keys, symbol);
      assert t.counts.Keys == if s.counts[symbol] > 1 then s.counts.Keys else s.counts.Keys - {symbol};
    }
  }

  lemma StepKeepsInv(kinds: seq<string>, s: State, e: Event)
    requires Inv(kinds, s)
    ensures Inv(kinds, Step(kinds, s, e))
  {
    match e
    case Enter(_, _) => EnterKeepsInv(kinds, s, e);
    case Exit(_) => ExitKeepsInv(kinds, s, e);
    case _ => ConnectionKeepsInv(kinds, s, e);
  }

  lemma ConnectionKeepsInv(kinds: seq<string>, s: State, e: Event)
    requires Inv(kinds, s) && !e.Enter? && !e.Exit?
    ensures Inv(kinds, Step(kinds, s, e))
  {
    var t := Step(kinds, s, e);
    forall symbol
      ensures Counted(t, symbol)
    {
      assert Counted(s, symbol) && Holders(s, symbol) == Holders(t, symbol);
    }
    if e.Work? && s.pending != [] {
      ApplyInSync(s.ws, s.pending[0]);
    }
    if e.Opened? && t != s {
      OpenInSync(s.ws, e.order);
    }
  }

  lemma {:induction false} RunKeepsInv(kinds: seq<string>, es: seq<Event>)
    ensures Inv(kinds, Run(kinds, es))
  {
    if es == [] {
      assert Wanted(kinds, {}) == {};
      forall symbol
        ensures Counted(START, symbol)
      {
        assert Holders(START, symbol) == {};
      }
    } else {
      RunKeepsInv(kinds, es[..|es| - 1]);
      StepKeepsInv(kinds, Run(kinds, es[..|es| - 1]), es[|es| - 1]);
    }
  }

  // ----- theorems -----

  /** The symbols somebody holds. */
  ghost function Held(s: State): set<string> {
    set id | id in s.held :: s.held[id]
  }

  lemma HeldIsCounted(kinds: seq<string>, s: State)
    requires Inv(kinds, s)
    ensures s.counts.Keys == Held(s) && forall symbol | symbol in Held(s) :: ValidSymbol(symbol)
  {
    forall symbol
      ensures symbol in s.counts <==> symbol in Held(s)
      ensures symbol in s.counts ==> ValidSymbol(symbol)
    {
      assert Counted(s, symbol);
      if symbol in s.counts {
        var id :| id in Holders(s, symbol);
        assert s.held[id] == symbol;
      }
      if symbol in Held(s) {
        var id :| id in s.held && s.held[id] == symbol;
        assert id in Holders(s, symbol);
      }
    }
  }

  /**
   Over every run, the frames of a live connection leave the server with exactly what the client tracks; once the
   manager is at rest that is, for each held symbol and each kind, the lower-case symbol, '@' and the kind: one
   stream for each such pair.
   */
  lemma ServerMatchesHolders(kinds: seq<string>, es: seq<Event>)
    ensures
      var s := Run(kinds, es);
      && (Live(s.ws) ==> ServerView(s.ws.sock.value) == s.ws.streams)
      && Numbered(s.ws)
      && (s.pending == [] ==>
            && s.ws.streams == (set id, k | id in s.held && k in kinds :: Lower(s.held[id]) + ['@'] + k)
            && |s.ws.streams| == |Held(s)| * |Distinct(kinds)|)
  {
    RunKeepsInv(kinds, es);
    var s := Run(kinds, es);
    HeldIsCounted(kinds, s);
    if s.pending == [] {
      WantedSize(kinds, Held(s));
      WantedOfHeld(kinds, s);
    }
  }

  lemma WantedOfHeld(kinds: seq<string>, s: State)
    ensures Wanted(kinds, Held(s)) == set id, k | id in s.held && k in kinds :: Lower(s.held[id]) + ['@'] + k
  {
    forall id, k | id in s.held && k in kinds
      ensures s.held[id] in Held(s) && StreamName(s.held[id], k) == Lower(s.held[id]) + ['@'] + k
    {
    }
  }

  /** Over every run, a symbol's refcount is the number of subscriptions that hold it. */
  lemma {:induction false} RefcountIsHolders(kinds: seq<string>, es: seq<Event>, symbol: string)
    ensures
      var s := Run(kinds, es);
      (if symbol in s.counts then s.counts[symbol] else 0) == |Holders(s, symbol)|
  {
    RunKeepsInv(kinds, es);
    assert Counted(Run(kinds, es), symbol);
  }

  /** A frame of a stream reaches exactly the feeds of the subscriptions that hold its symbol. */
  lemma FrameReachesHolders(kinds: seq<string>, es: seq<Event>, symbol: string, kind: string, id: nat)
    requires ValidSymbol(symbol)
    ensures
      var s := Run(kinds, es);
      var route := RouteSymbol(StreamName(symbol, kind));
      && route.Some?
      && ((route.value in s.feeds && id in s.feeds[route.value]) <==> (id in s.held && s.held[id] == symbol))
  {
    RunKeepsInv(kinds, es);
    RouteRoundTrip(symbol, kind);
    assert Counted(Run(kinds, es), symbol);
  }

  /** While somebody else holds the symbol, leaving changes nothing for anybody else; leaving twice changes nothing. */
  lemma LeavingIsPrivate(kinds: seq<string>, es: seq<Event>, id: nat, other: nat)
    requires var s := Run(kinds, es);
             s.pending == [] && id in s.held && other in s.held && other != id && s.held[other] == s.held[id]
    ensures
      var s := Run(kinds, es);
      var t := Step(kinds, s, Exit(id));
      && t.ws == s.ws && t.pending == []
      && t.held == s.held - {id}
      && s.held[id] in s.feeds && s.held[id] in t.feeds
      && (forall x | x != id && x in s.feeds[s.held[id]] :: x in t.feeds[s.held[id]])
      && (forall symbol | symbol in s.feeds && symbol != s.held[id] ::
            symbol in t.feeds && t.feeds[symbol] == s.feeds[symbol])
      && Step(kinds, t, Exit(id)) == t
  {
    RunKeepsInv(kinds, es);
    var s := Run(kinds, es);
    var t := Step(kinds, s, Exit(id));
    var symbol := s.held[id];
    assert Counted(s, symbol);
    assert {id, other} <= Holders(s, symbol);
    SubsetSize({id, other}, Holders(s, symbol));
    ExitKeepsInv(kinds, s, Exit(id));
    assert Counted(t, symbol);
    assert Holders(t, symbol) == Holders(s, symbol) - {id};
  }

  // ----- the manager's loops are runs of the machine -----

  /** The lock holder runs to completion without the connection moving. */
  ghost function Finish(kinds: seq<string>, s: State): State
    decreases |s.pending|
  {
    if s.pending == [] then s else Finish(kinds, Step(kinds, s, Work))
  }

  lemma {:induction false} ApplyAllCons(ws: Ws, op: Op, ops: seq<Op>)
    ensures ApplyAll(ws, [op] + ops) == ApplyAll(Apply(ws, op), ops)
  {
    if ops == [] {
      assert [op] + ops == [op] && [op][..0] == [];
    } else {
      ApplyAllCons(ws, op, ops[..|ops| - 1]);
      assert ([op] + ops)[..|ops|] == [op] + ops[..|ops| - 1];
    }
  }

  lemma {:induction false} FinishAppliesAll(kinds: seq<string>, s: State)
    ensures Finish(kinds, s) == s.(ws := ApplyAll(s.ws, s.pending), pending := [])
    decreases |s.pending|
  {
    if s.pending != [] {
      FinishAppliesAll(kinds, Step(kinds, s, Work));
      assert s.pending == [s.pending[0]] + s.pending[1..];
      ApplyAllCons(s.ws, s.pending[0], s.pending[1..]);
    }
  }

  /** Undisturbed, an enter or an exit does to the client what the manager's `Acquire` and `Release` do. */
  lemma UndisturbedIsLoop(kinds: seq<string>, es: seq<Event>, id: nat, symbol: string)
    requires Run(kinds, es).pending == []
    ensures
      var s := Run(kinds, es);
      && (id !in s.used && ValidSymbol(symbol) ==>
            Finish(kinds, Step(kinds, s, Enter(id, symbol))).ws
            == if symbol in s.counts then s.ws else ApplyAll(s.ws, AddOps(symbol, kinds)))
      && (id in s.held && s.held[id] == symbol ==>
            && symbol in s.counts
            && Finish(kinds, Step(kinds, s, Exit(id))).ws
               == if s.counts[symbol] > 1 then s.ws else ApplyAll(s.ws, RemoveOps(symbol, kinds)))
  {
    var s := Run(kinds, es);
    RunKeepsInv(kinds, es);
    assert Counted(s, symbol);
    assert id in s.held && s.held[id] == symbol ==> id in Holders(s, symbol);
    FinishAppliesAll(kinds, Step(kinds, s, Enter(id, symbol)));
    FinishAppliesAll(kinds, Step(kinds, s, Exit(id)));
  }
}
