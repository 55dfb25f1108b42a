/** Consumer-side deduplication: a ring of the most recent keys, updated under a lock; handlers run outside it. */
module Dedup {
  import opened Common

  class DedupingConsumer<K(==)> {
    const capacity: nat
    var seen: seq<K>

    ghost predicate Valid()
      reads this
    {
      capacity > 0 && |seen| <= capacity && NoRepeats(seen)
    }

    constructor (capacity: nat)
      requires capacity > 0  // ValueError
      ensures Valid() && this.capacity == capacity && seen == []
    {
      this.capacity, seen := capacity, [];
    }

    /** The locked section of `consume`: whether the key is fresh. */
    method Admit(key: K) returns (isFresh: bool)
      requires Valid()
      modifies this`seen
      ensures Valid()
      ensures isFresh == (key !in old(seen))
      ensures seen == if isFresh then LastN(old(seen) + [key], capacity) else old(seen)
    {
      if key in seen {
        return false;
      }
      seen := seen + [key];
      if |seen| > capacity {
        seen := seen[1..];
      }
      return true;
    }
  }

  // ----- any schedule of concurrent calls -----

  datatype Entry<K> = Entry(call: nat, key: K)

  /** The ring, the acceptances in order, and the calls already turned away or handled. */
  datatype State<K> = State(ring: seq<K>, accepted: seq<Entry<K>>, dropped: set<nat>, handled: seq<nat>)

  /** A call looks its key up under the lock, and handles its message at any later time. */
  datatype Event<K> = Lookup(call: nat, key: K) | Handle(call: nat)

  function Calls<K>(accepted: seq<Entry<K>>): set<nat> {
    set i | 0 <= i < |accepted| :: accepted[i].call
  }

  predicate Accepted<K>(s: State<K>, call: nat) {
    call in Calls(s.accepted)
  }

  function Step<K(==)>(capacity: nat, s: State<K>, e: Event<K>): State<K> {
    match e
    case Lookup(call, key) =>
      if Accepted(s, call) || call in s.dropped then s
      else if key in s.ring then s.(dropped := s.dropped + {call})
      else s.(ring := LastN(s.ring + [key], capacity), accepted := s.accepted + [Entry(call, key)])
    case Handle(call) =>
      if Accepted(s, call) && call !in s.handled then s.(handled := s.handled + [call]) else s
  }

  function Run<K(==)>(capacity: nat, es: seq<Event<K>>): State<K> {
    if es == [] then State([], [], {}, []) else Step(capacity, Run(capacity, es[..|es| - 1]), es[|es| - 1])
  }

  function Keys<K>(accepted: seq<Entry<K>>): (ks: seq<K>)
    ensures |ks| == |accepted|
    ensures forall i | 0 <= i < |ks| :: ks[i] == accepted[i].key
  {
    if accepted == [] then [] else Keys(accepted[..|accepted| - 1]) + [accepted[|accepted| - 1].key]
  }

  /** Equal keys are accepted more than `capacity` places apart. */
  ghost predicate Spaced<K>(capacity: nat, accepted: seq<Entry<K>>) {
    forall i, j | 0 <= i < j < |accepted| && accepted[i].key == accepted[j].key :: j - i > capacity
  }

  ghost predicate Inv<K>(capacity: nat, s: State<K>) {
    && s.ring == LastN(Keys(s.accepted), capacity)
    && Spaced(capacity, s.accepted)
    && OncePerCall(s.accepted)
    && (forall call | call in s.handled :: Accepted(s, call) && call !in s.dropped)
    && (forall call | call in s.dropped :: !Accepted(s, call))
    && NoRepeats(s.handled)
  }

  lemma CallsSnoc<K>(accepted: seq<Entry<K>>, x: Entry<K>)
    ensures Calls(accepted + [x]) == Calls(accepted) + {x.call}
  {
    forall call | call in Calls(accepted)
      ensures call in Calls(accepted + [x])
    {
      var i :| 0 <= i < |accepted| && accepted[i].call == call;
      assert (accepted + [x])[i].call == call;
    }
    assert (accepted + [x])[|accepted|].call == x.call;
  }

  /** A key outside the ring was last accepted more than `capacity` places ago. */
  lemma FreshIsFar<K>(capacity: nat, accepted: seq<Entry<K>>, x: Entry<K>)
    requires Spaced(capacity, accepted) && x.key !in LastN(Keys(accepted), capacity)
    ensures Spaced(capacity, accepted + [x])
  {
    var ks := Keys(accepted);
    forall i | 0 <= i < |accepted| && accepted[i].key == x.key
      ensures |accepted| - i > capacity
    {
      OutsideTail(ks, capacity, i);
    }
  }

  lemma AcceptKeepsKeys<K>(capacity: nat, accepted: seq<Entry<K>>, x: Entry<K>)
    requires Spaced(capacity, accepted) && x.key !in LastN(Keys(accepted), capacity)
    ensures Spaced(capacity, accepted + [x])
    ensures LastN(LastN(Keys(accepted), capacity) + [x.key], capacity) == LastN(Keys(accepted + [x]), capacity)
  {
    FreshIsFar(capacity, accepted, x);
    LastNAppend(Keys(accepted), x.key, capacity);
    assert (accepted + [x])[..|accepted|] == accepted;
  }

  /** Each call is accepted at most once. */
  ghost predicate OncePerCall<K>(accepted: seq<Entry<K>>) {
    forall i, j | 0 <= i < j < |accepted| :: accepted[i].call != accepted[j].call
  }

  lemma AcceptOncePerCall<K>(accepted: seq<Entry<K>>, x: Entry<K>)
    requires OncePerCall(accepted) && x.call !in Calls(accepted)
    ensures OncePerCall(accepted + [x])
  {
    forall i | 0 <= i < |accepted|
      ensures accepted[i].call != x.call
    {
      assert accepted[i].call in Calls(accepted);
    }
  }

  lemma LookupKeepsInv<K>(capacity: nat, s: State<K>, e: Event<K>)
    requires Inv(capacity, s) && e.Lookup?
    ensures Inv(capacity, Step(capacity, s, e))
  {
    var t := Step(capacity, s, e);
    if t.accepted != s.accepted {
      var x := Entry(e.call, e.key);
      AcceptKeepsKeys(capacity, s.accepted, x);
      CallsSnoc(s.accepted, x);
      AcceptOncePerCall(s.accepted, x);
    }
  }

  lemma {:induction false} RunKeepsInv<K>(capacity: nat, es: seq<Event<K>>)
    ensures Inv(capacity, Run(capacity, es))
  {
    if es != [] {
      RunKeepsInv(capacity, es[..|es| - 1]);
      var s, e := Run(capacity, es[..|es| - 1]), es[|es| - 1];
      if e.Lookup? {
        LookupKeepsInv(capacity, s, e);
      }
    }
  }

  /** The ring is the last `capacity` accepted keys in order, and a new call is dropped iff its key is among them. */
  lemma {:induction false} RingIsRecentKeys<K>(capacity: nat, es: seq<Event<K>>, call: nat, key: K)
    requires !Accepted(Run(capacity, es), call) && call !in Run(capacity, es).dropped
    ensures
      var s := Run(capacity, es);
      var t := Step(capacity, s, Lookup(call, key));
      && s.ring == LastN(Keys(s.accepted), capacity)
      && (call in t.dropped <==> key in LastN(Keys(s.accepted), capacity))
      && (Accepted(t, call) <==> key !in LastN(Keys(s.accepted), capacity))
  {
    RunKeepsInv(capacity, es);
    var s := Run(capacity, es);
    var t := Step(capacity, s, Lookup(call, key));
    if key !in s.ring {
      CallsSnoc(s.accepted, Entry(call, key));
    }
  }

  /**
   Under any schedule a call is handled at most once and only if it was accepted, and two handled calls with one key
   have at least `capacity` acceptances between theirs.
   */
  lemma HandledFarApart<K>(capacity: nat, es: seq<Event<K>>, i: nat, j: nat)
    requires var s := Run(capacity, es);
             && i < j < |s.accepted| && s.accepted[i].key == s.accepted[j].key
    ensures j - i - 1 >= capacity
    ensures NoRepeats(Run(capacity, es).handled)
    ensures forall call | call in Run(capacity, es).handled :: Accepted(Run(capacity, es), call)
  {
    RunKeepsInv(capacity, es);
  }
}
