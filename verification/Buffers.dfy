/** The refcounted registry of rolling candle buffers: a bounded deque per key that must read like the full history. */
module Buffers {
  import opened Common

  datatype Key = Key(symbol: string, interval: string)

  /** The registry: pinned capacities, and a buffer and a count per key in use. */
  datatype Registry<C> = Registry(capacity: map<Key, int>, buffers: map<Key, seq<C>>, counts: map<Key, nat>)

  datatype Error = KeyError | ValueError | RuntimeError

  function Count<C>(r: Registry<C>, key: Key): nat {
    if key in r.counts then r.counts[key] else 0
  }

  /** The first acquire allocates; a key without capacity, or with a negative one, is an error. */
  function Acquired<C>(r: Registry<C>, key: Key): Result<Registry<C>, Error> {
    if key !in r.capacity then Err(KeyError)
    else if Count(r, key) == 0 && r.capacity[key] < 0 then Err(ValueError)
    else
      Ok(r.(buffers := if Count(r, key) == 0 then r.buffers[key := []] else r.buffers,
            counts := r.counts[key := Count(r, key) + 1]))
  }

  /** A full deque drops its oldest candle; a key nobody holds takes nothing. */
  function Pushed<C>(r: Registry<C>, key: Key, candle: C): Registry<C> {
    if key !in r.buffers || key !in r.capacity then r
    else r.(buffers := r.buffers[key := LastN(r.buffers[key] + [candle], r.capacity[key])])
  }

  /** The last release frees the buffer. */
  function Released<C>(r: Registry<C>, key: Key): Registry<C> {
    if Count(r, key) == 0 then r
    else if Count(r, key) > 1 then r.(counts := r.counts[key := r.counts[key] - 1])
    else r.(counts := r.counts - {key}, buffers := r.buffers - {key})
  }

  /** A slice from max(0, size - n) to the end. */
  function Tail<C>(r: Registry<C>, key: Key, n: int): seq<C> {
    if key !in r.buffers then []
    else
      var size := |r.buffers[key]|;
      var start := if size - n > 0 then size - n else 0;
      if start >= size then [] else r.buffers[key][start..size]
  }

  class BufferRegistry<C> {
    const capacity: map<Key, int>
    var buffers: map<Key, seq<C>>
    var counts: map<Key, nat>

    function Abs(): Registry<C>
      reads this
    {
      Registry(capacity, buffers, counts)
    }

    /** Only a pinned key ever has a buffer. */
    ghost predicate Valid()
      reads this
    {
      buffers.Keys <= capacity.Keys && forall key | key in counts :: counts[key] > 0
    }

    constructor (capacity: map<Key, int>)
      ensures Valid() && Abs() == Registry(capacity, map[], map[])
    {
      this.capacity, buffers, counts := capacity, map[], map[];
    }

    method Acquire(key: Key) returns (r: Result<BufferHandle<C>, Error>)
      requires Valid()
      modifies this
      ensures Valid()
      ensures r.Err? ==> Acquired(old(Abs()), key) == Err(r.error) && Abs() == old(Abs())
      ensures key !in capacity ==> r == Err(KeyError)
      ensures key in capacity ==> (r.Err? <==> key !in old(counts) && capacity[key] < 0)
      ensures key in capacity && r.Err? ==> r == Err(ValueError)
      ensures r.Ok? ==> counts == old(counts)[key := (if key in old(counts) then old(counts)[key] else 0) + 1]
      ensures r.Ok? ==>
                && Acquired(old(Abs()), key) == Ok(Abs())
                && fresh(r.value) && r.value.registry == this && r.value.key == key && !r.value.released
    {
      if key !in capacity {
        return Err(KeyError);
      }
      var count := if key in counts then counts[key] else 0;
      if count == 0 {
        if capacity[key] < 0 {
          return Err(ValueError);
        }
        buffers := buffers[key := []];
      }
      counts := counts[key := count + 1];
      var handle := new BufferHandle<C>(this, key);
      return Ok(handle);
    }

    method Push(key: Key, candle: C)
      requires Valid()
      modifies this`buffers
      ensures Valid()
      ensures Abs() == Pushed(old(Abs()), key, candle)
    {
      if key in buffers {
        var longer := buffers[key] + [candle];
        var cap := capacity[key];
        if cap <= 0 {
          longer := [];
        } else if |longer| > cap {
          longer := longer[|longer| - cap..];
        }
        buffers := buffers[key := longer];
      }
    }

    method Release(key: Key)
      requires Valid()
      modifies this
      ensures Valid()
      ensures Abs() == Released(old(Abs()), key)
    {
      var count := if key in counts then counts[key] else 0;
      if count == 0 {
        return;
      }
      if count > 1 {
        counts := counts[key := count - 1];
        return;
      }
      counts := counts - {key};
      buffers := buffers - {key};
    }
  }

  class BufferHandle<C> {
    const registry: BufferRegistry<C>
    const key: Key
    var released: bool

    constructor (registry: BufferRegistry<C>, key: Key)
      ensures this.registry == registry && this.key == key && !released
    {
      this.registry, this.key, released := registry, key, false;
    }

    /** Reading a released handle is an error. */
    method TailOf(n: int) returns (r: Result<seq<C>, Error>)
      ensures r == if released then Err(RuntimeError) else Ok(Tail(registry.Abs(), key, n))
    {
      if released {
        return Err(RuntimeError);
      }
      if key !in registry.buffers {
        return Ok([]);
      }
      var buffer := registry.buffers[key];
      var start := if |buffer| - n > 0 then |buffer| - n else 0;
      return Ok(if start >= |buffer| then [] else buffer[start..|buffer|]);
    }

    /** The first exit releases; a second one does nothing. */
    method Exit()
      requires registry.Valid()
      modifies this, registry
      ensures registry.Valid() && released
      ensures registry.Abs() == if old(released) then old(registry.Abs()) else Released(old(registry.Abs()), key)
    {
      if released {
        return;
      }
      released := true;
      registry.Release(key);
    }
  }

  // ----- every run of acquires, pushes and exits -----

  datatype Handle = Handle(key: Key, released: bool)

  datatype World<C> = World(registry: Registry<C>, handles: map<nat, Handle>)

  datatype Event<C> = Acquire(id: nat, key: Key) | Push(key: Key, candle: C) | Exit(id: nat)

  /** Whether this acquire hands out a handle. */
  predicate Grants<C>(w: World<C>, e: Event<C>) {
    e.Acquire? && e.id !in w.handles && Acquired(w.registry, e.key).Ok?
  }

  function Step<C>(w: World<C>, e: Event<C>): World<C> {
    match e
    case Acquire(id, key) =>
      if Grants(w, e) then World(Acquired(w.registry, key).value, w.handles[id := Handle(key, false)]) else w
    case Push(key, candle) => w.(registry := Pushed(w.registry, key, candle))
    case Exit(id) =>
      if id in w.handles && !w.handles[id].released then
        World(Released(w.registry, w.handles[id].key), w.handles[id := w.handles[id].(released := true)])
      else w
  }

  function Run<C>(capacity: map<Key, int>, es: seq<Event<C>>): World<C> {
    if es == [] then World(Registry(capacity, map[], map[]), map[])
    else Step(Run(capacity, es[..|es| - 1]), es[|es| - 1])
  }

  /** The handles on `key` that were not released. */
  ghost function Live<C>(w: World<C>, key: Key): set<nat> {
    set id | id in w.handles && w.handles[id].key == key && !w.handles[id].released
  }

  /** Everything pushed to `key` since the latest acquire that found no live handle on it. */
  ghost function History<C>(capacity: map<Key, int>, es: seq<Event<C>>, key: Key): seq<C> {
    if es == [] then []
    else
      var init, e := es[..|es| - 1], es[|es| - 1];
      var before := History(capacity, init, key);
      match e
      case Push(k, candle) => if k == key then before + [candle] else before
      case Acquire(_, k) =>
        if k == key && Grants(Run(capacity, init), e) && Live(Run(capacity, init), key) == {} then [] else before
      case Exit(_) => before
  }

  ghost predicate KeyInv<C(!new)>(w: World<C>, key: Key, history: seq<C>) {
    && Count(w.registry, key) == |Live(w, key)|
    && (key in w.registry.counts <==> key in w.registry.buffers)
    && (key in w.registry.counts ==>
          && w.registry.counts[key] > 0
          && key in w.registry.capacity && w.registry.capacity[key] >= 0
          && w.registry.buffers[key] == LastN(history, w.registry.capacity[key]))
  }

  lemma AcquireKeepsInv<C(!new)>(w: World<C>, e: Event<C>, key: Key, history: seq<C>)
    requires e.Acquire? && KeyInv(w, key, history)
    ensures KeyInv(Step(w, e), key, if e.key == key && Grants(w, e) && Live(w, key) == {} then [] else history)
  {
    if Grants(w, e) {
      var u := Step(w, e);
      if key == e.key {
        assert Live(u, key) == Live(w, key) + {e.id};
      } else {
        assert Live(u, key) == Live(w, key);
      }
    }
  }

  lemma PushKeepsInv<C(!new)>(w: World<C>, e: Event<C>, key: Key, history: seq<C>)
    requires e.Push? && KeyInv(w, key, history)
    ensures KeyInv(Step(w, e), key, if e.key == key then history + [e.candle] else history)
  {
    assert Live(Step(w, e), key) == Live(w, key);
    if e.key == key && key in w.registry.buffers {
      LastNAppend(history, e.candle, w.registry.capacity[key]);
    }
  }

  lemma ExitKeepsInv<C(!new)>(w: World<C>, e: Event<C>, key: Key, history: seq<C>)
    requires e.Exit? && KeyInv(w, key, history)
    ensures KeyInv(Step(w, e), key, history)
  {
    if e.id in w.handles && !w.handles[e.id].released {
      var u := Step(w, e);
      if w.handles[e.id].key == key {
        assert e.id in Live(w, key) && Live(u, key) == Live(w, key) - {e.id};
      } else {
        assert Live(u, key) == Live(w, key);
      }
    }
  }

  lemma {:induction false} RunKeepsInv<C(!new)>(capacity: map<Key, int>, es: seq<Event<C>>, key: Key)
    ensures Run(capacity, es).registry.capacity == capacity
    ensures KeyInv(Run(capacity, es), key, History(capacity, es, key))
  {
    if es == [] {
      assert Live(Run<C>(capacity, []), key) == {};
    } else {
      var init, e := es[..|es| - 1], es[|es| - 1];
      RunKeepsInv(capacity, init, key);
      var w, h := Run(capacity, init), History(capacity, init, key);
      match e
      case Acquire(_, _) => AcquireKeepsInv(w, e, key, h);
      case Push(_, _) => PushKeepsInv(w, e, key, h);
      case Exit(_) => ExitKeepsInv(w, e, key, h);
    }
  }

  /** Over every run, a key's count is the number of unreleased handles on it. */
  lemma CountIsLiveHandles<C(!new)>(capacity: map<Key, int>, es: seq<Event<C>>, key: Key)
    ensures Count(Run(capacity, es).registry, key) == |Live(Run(capacity, es), key)|
  {
    RunKeepsInv(capacity, es, key);
  }

  lemma TailIsLastN<C>(r: Registry<C>, key: Key, n: int)
    requires key in r.buffers
    ensures Tail(r, key, n) == LastN(r.buffers[key], n)
  {
  }

  /** A live handle reads the last min(n, capacity) candles of the history since the key came into use. */
  lemma TailIsRecentHistory<C(!new)>(capacity: map<Key, int>, es: seq<Event<C>>, id: nat, n: int)
    requires id in Run(capacity, es).handles && !Run(capacity, es).handles[id].released
    ensures
      var key := Run(capacity, es).handles[id].key;
      && key in capacity && capacity[key] >= 0
      && Tail(Run(capacity, es).registry, key, n)
         == LastN(History(capacity, es, key), if n < capacity[key] then n else capacity[key])
  {
    var w := Run(capacity, es);
    var key := w.handles[id].key;
    RunKeepsInv(capacity, es, key);
    assert id in Live(w, key);
    TailIsLastN(w.registry, key, n);
    LastNOfLastN(History(capacity, es, key), capacity[key], n);
  }

  /** A handle that leaves, once or twice, does not disturb what another live handle reads. */
  lemma ExitLeavesOthers<C(!new)>(capacity: map<Key, int>, es: seq<Event<C>>, id: nat, other: nat, n: int)
    requires other != id && other in Run(capacity, es).handles && !Run(capacity, es).handles[other].released
    ensures
      var w, u := Run(capacity, es), Step(Run(capacity, es), Exit(id));
      var key := w.handles[other].key;
      && Tail(u.registry, key, n) == Tail(w.registry, key, n)
      && other in u.handles && !u.handles[other].released
      && Step(u, Exit(id)) == u
  {
    var w := Run(capacity, es);
    var key := w.handles[other].key;
    RunKeepsInv(capacity, es, key);
    ExitKeepsTail(w, id, other, History(capacity, es, key), n);
  }

  lemma ExitKeepsTail<C(!new)>(w: World<C>, id: nat, other: nat, history: seq<C>, n: int)
    requires other != id && other in w.handles && !w.handles[other].released
    requires KeyInv(w, w.handles[other].key, history)
    ensures Tail(Step(w, Exit(id)).registry, w.handles[other].key, n) == Tail(w.registry, w.handles[other].key, n)
  {
    var key := w.handles[other].key;
    if id in w.handles && !w.handles[id].released && w.handles[id].key == key {
      assert {id, other} <= Live(w, key);
      SubsetSize({id, other}, Live(w, key));
    }
  }
}
