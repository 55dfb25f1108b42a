/** How much a bucket holds, stated on the steps of the machine, and that the bound on admissions is met exactly. */
module LimiterRefill {
  import opened Common
  import opened RateLimiter

  /** `full` tokens are what a key gives at instant `u`: the refilled bucket up to its capacity, or a whole capacity. */
  predicate Holds(p: Params, seen: Stored, u: real, full: real) {
    match seen
    case Bucket(x, t) =>
      var grown := x + (u - t) * p.rate;
      full == if grown <= p.capacity then grown else p.capacity
    case _ => full == p.capacity
  }

  /** A call that decides on what it read sleeps iff that is less than one token, for just as long as it takes. */
  lemma DecidesByTokens(p: Params, s: System, c: nat, full: real)
    requires ValidParams(p) && c in s.calls && s.calls[c].Read? && Holds(p, s.calls[c].seen, s.clock, full)
    ensures
      var r, next := s.calls[c], Step(p, s, Think(c)).calls;
      && c in next
      && (full < 1.0 ==> next[c] == Sleeping(r.attempt, s.clock + (1.0 - full) / p.rate))
      && (full >= 1.0 ==>
            next[c] == Armed(r.attempt, full - 1.0, s.clock, if r.seen.Bucket? then Some(r.revision) else None))
  {
  }

  /**
   A write takes effect iff it is not refused on the way and its check, if any, meets a key of the revision it read;
   then it leaves the tokens it was decided with.
   */
  lemma WriteLeaves(p: Params, s: System, c: nat, outcome: Outcome)
    requires ValidParams(p) && c in s.calls && s.calls[c].Armed?
    ensures
      var a, t := s.calls[c], Step(p, s, Put(c, outcome));
      var lands := outcome != Refused
        && (a.expected.None? || (!s.stored.Missing? && a.expected == Some(s.revision)));
      && t.stored == (if lands then Bucket(a.tokens, a.at) else s.stored)
      && t.revision == s.revision + (if lands then 1 else 0)
      && t.debits == s.debits + (if lands then [Debit(c, a.at)] else [])
      && (lands && outcome == Acked <==> t.calls[c] == Debited(a.at))
  {
    assert s.debits + [] == s.debits;
  }

  /** A sleeping call goes on to its next attempt exactly when its time has come, and after three it is let through. */
  lemma WakesIff(p: Params, s: System, c: nat)
    requires ValidParams(p) && c in s.calls && s.calls[c].Sleeping?
    ensures
      var n, next := s.calls[c].attempt, Step(p, s, Wake(c)).calls;
      next == if s.clock < s.calls[c].until then s.calls
              else s.calls[c := if n < 2 then Ready(n + 1) else FailedOpen]
  {
  }

  /** Together: an undisturbed call at instant `u` sleeps iff there is no token, and else leaves one token fewer. */
  lemma OneCall(p: Params, s: System, c: nat, full: real)
    requires ValidParams(p) && c in s.calls && s.calls[c].Ready? && Holds(p, s.stored, s.clock, full)
    ensures
      var read := Step(p, s, Get(c));
      var t := Step(p, Step(p, read, Think(c)), Put(c, Acked));
      && c in t.calls && t.clock == s.clock
      && (full < 1.0 ==> t.calls[c].Sleeping? && t.stored == s.stored && t.debits == s.debits)
      && (full >= 1.0 ==>
            && t.calls == s.calls[c := Debited(s.clock)] && t.stored == Bucket(full - 1.0, s.clock)
            && t.debits == s.debits + [Debit(c, s.clock)])
  {
    var read := Step(p, s, Get(c));
    assert read == s.(calls := s.calls[c := Read(s.calls[c].attempt, s.stored, s.revision)]);
    DecidesByTokens(p, read, c, full);
    var armed := Step(p, read, Think(c));
    if full >= 1.0 {
      WriteLeaves(p, armed, c, Acked);
      assert armed.calls[c := Debited(s.clock)] == s.calls[c := Debited(s.clock)];
    }
  }

  // ----- the bound is met -----

  /** After `n` calls at one instant, on a bucket that held `full` tokens. */
  ghost predicate Served(s0: System, s: System, full: real, n: nat) {
    && s.clock == s0.clock && s.stored == (if n == 0 then s0.stored else Bucket(full - n as real, s0.clock))
    && (forall c | c in s.calls :: c < n)
    && |s.debits| == n && forall i | 0 <= i < n :: s.debits[i].at == s0.clock
  }

  lemma ServedHolds(p: Params, s0: System, s: System, full: real, n: nat)
    requires Served(s0, s, full, n) && s0.stored.Bucket? && Holds(p, s0.stored, s0.clock, full)
    ensures Holds(p, s.stored, s.clock, full - n as real)
  {
    assert (s0.clock - s0.clock) * p.rate == 0.0;
  }

  lemma ServeOne(p: Params, s0: System, s: System, full: real, n: nat)
    requires ValidParams(p) && Served(s0, s, full, n) && s0.stored.Bucket? && Holds(p, s0.stored, s0.clock, full)
    requires (n + 1) as real <= full
    ensures Served(s0, Step(p, Step(p, Step(p, Step(p, s, Start(n)), Get(n)), Think(n)), Put(n, Acked)), full, n + 1)
  {
    ServedHolds(p, s0, s, full, n);
    var begun := Step(p, s, Start(n));
    assert begun == s.(calls := s.calls[n := Ready(0)]);
    OneCall(p, begun, n, full - n as real);
  }

  lemma StaysSnoc(p: Params, s0: System, es: seq<Event>, e: Event)
    requires ValidParams(p) && KeyStays(p, s0, es) && !e.Expire?
    ensures KeyStays(p, s0, es + [e]) && Run(p, s0, es + [e]) == Step(p, Run(p, s0, es), e)
  {
    assert (es + [e])[..|es|] == es;
  }

  /** As many calls as there are whole tokens are admitted in one instant. */
  lemma {:induction false} ServeAll(p: Params, s0: System, full: real, n: nat) returns (es: seq<Event>)
    requires ValidParams(p) && Fresh(s0) && s0.stored.Bucket? && Holds(p, s0.stored, s0.clock, full)
    requires n == 0 || n as real <= full
    ensures KeyStays(p, s0, es) && Served(s0, Run(p, s0, es), full, n)
  {
    es := [];
    if n > 0 {
      es := ServeAll(p, s0, full, n - 1);
      ServeOne(p, s0, Run(p, s0, es), full, n - 1);
      StaysSnoc(p, s0, es, Start(n - 1));
      es := es + [Start(n - 1)];
      StaysSnoc(p, s0, es, Get(n - 1));
      es := es + [Get(n - 1)];
      StaysSnoc(p, s0, es, Think(n - 1));
      es := es + [Think(n - 1)];
      StaysSnoc(p, s0, es, Put(n - 1, Acked));
      es := es + [Put(n - 1, Acked)];
    }
  }

  // ----- and not exceeded -----

  /** What a run may have debited at the instant `u` it began. */
  ghost predicate OnTime(p: Params, s0: System, s: System, full: real) {
    var u, k := s0.clock, Count(s.debits, s0.clock, s0.clock);
    && u <= s.clock && (forall c | c in s.calls && s.calls[c].Armed? :: u <= s.calls[c].at)
    && (k == 0 || k as real <= full)
    && (s.debits == [] ==> s.stored == s0.stored)
    && (s.debits != [] ==> s.stored.Bucket? && u <= s.stored.lastRefillAt)
    && (s.debits != [] && s.stored.lastRefillAt == u ==> s.stored.tokens == full - k as real)
  }

  lemma CountSnoc(ds: seq<Debit>, d: Debit, t0: real, t1: real)
    ensures Count(ds + [d], t0, t1) == Count(ds, t0, t1) + if t0 <= d.at <= t1 then 1 else 0
  {
    assert (ds + [d])[..|ds|] == ds;
  }

  /** The tokens of a write at the first instant. */
  lemma FirstInstant(p: Params, s0: System, s: System, full: real, k: nat)
    requires s0.stored.Bucket? && Holds(p, s0.stored, s0.clock, full)
    requires (s.stored == s0.stored && k == 0) || s.stored == Bucket(full - k as real, s0.clock)
    ensures Refilled(p, s.stored.tokens, s.stored.lastRefillAt, s0.clock) == full - k as real
  {
    HoldsIsRefilled(p, s0.stored, s0.clock, full);
    if s.stored != s0.stored || k > 0 {
      LevelNow(p.rate, full - k as real, s0.clock);
    }
  }

  lemma HoldsIsRefilled(p: Params, b: Stored, u: real, full: real)
    requires b.Bucket? && Holds(p, b, u, full)
    ensures Refilled(p, b.tokens, b.lastRefillAt, u) == full <= p.capacity
  {
  }

  lemma LevelNow(rate: real, tokens: real, t: real)
    ensures Level(rate, tokens, t, t) == tokens
  {
  }

  /** A write decided at the first instant, and still good, leaves what was there less the tokens taken by then. */
  lemma LandingTokens(p: Params, s0: System, s: System, full: real, a: Call)
    requires s.stored.Bucket? && OnTime(p, s0, s, full) && s0.stored.Bucket? && Holds(p, s0.stored, s0.clock, full)
    requires a.Armed? && a.at == s0.clock && a.expected == Some(s.revision) && CallInv(p, s, a)
    requires s.debits != [] ==> s.stored.lastRefillAt == s0.clock
    ensures a.tokens == full - Count(s.debits, s0.clock, s0.clock) as real - 1.0 && a.tokens >= 0.0
  {
    FirstInstant(p, s0, s, full, Count(s.debits, s0.clock, s0.clock));
  }

  lemma LandingKeeps(p: Params, s0: System, s: System, full: real, c: nat, outcome: Outcome)
    requires ValidParams(p) && s.stored.Bucket? && OnTime(p, s0, s, full)
    requires Fresh(s0) && s0.stored.Bucket? && Holds(p, s0.stored, s0.clock, full)
    requires c in s.calls && s.calls[c].Armed? && CallInv(p, s, s.calls[c]) && Lands(s, s.calls[c], outcome)
    ensures OnTime(p, s0, Step(p, s, Put(c, outcome)), full)
  {
    var u, a, t := s0.clock, s.calls[c], Step(p, s, Put(c, outcome));
    if a.at == u {
      LandingTokens(p, s0, s, full, a);
    }
    WriteLeaves(p, s, c, outcome);
    CountSnoc(s.debits, Debit(c, a.at), u, u);
    assert forall x | x in t.calls && t.calls[x].Armed? :: x in s.calls && s.calls[x] == t.calls[x];
  }

  lemma OthersKeep(p: Params, s0: System, s: System, full: real, e: Event)
    requires ValidParams(p) && OnTime(p, s0, s, full) && !Expires(p, s, e)
    requires !(e.Put? && e.call in s.calls && s.calls[e.call].Armed? && Lands(s, s.calls[e.call], e.outcome))
    ensures OnTime(p, s0, Step(p, s, e), full)
  {
    assert Step(p, s, e).debits == s.debits && Step(p, s, e).stored == s.stored;
  }

  lemma {:induction false} RunKeeps(p: Params, s0: System, full: real, es: seq<Event>)
    requires ValidParams(p) && Fresh(s0) && s0.stored.Bucket? && Holds(p, s0.stored, s0.clock, full)
    requires KeyStays(p, s0, es)
    ensures Inv(p, Run(p, s0, es)) && OnTime(p, s0, Run(p, s0, es), full)
  {
    RunKeepsInv(p, s0, es);
    if es != [] {
      var s, e := Run(p, s0, es[..|es| - 1]), es[|es| - 1];
      RunKeeps(p, s0, full, es[..|es| - 1]);
      if e.Put? && e.call in s.calls && s.calls[e.call].Armed? && Lands(s, s.calls[e.call], e.outcome) {
        assert CallInv(p, s, s.calls[e.call]);
        LandingKeeps(p, s0, s, full, e.call, e.outcome);
      } else {
        OthersKeep(p, s0, s, full, e);
      }
    }
  }

  /** Some run in which the key stays takes exactly `n` tokens at the instant it begins. */
  ghost predicate CanTake(p: Params, s0: System, n: nat)
    requires ValidParams(p)
  {
    exists es: seq<Event> :: KeyStays(p, s0, es) && Count(Run(p, s0, es).debits, s0.clock, s0.clock) == n
  }

  /** A bucket of `x` tokens dated `t` gives exactly min(capacity, x + (u - t) * rate) whole tokens at instant `u`. */
  lemma GivesExactly(p: Params, s0: System, full: real, n: nat)
    requires ValidParams(p) && Fresh(s0) && s0.stored.Bucket? && Holds(p, s0.stored, s0.clock, full)
    ensures CanTake(p, s0, n) <==> n == 0 || n as real <= full
  {
    if n == 0 || n as real <= full {
      var es := ServeAll(p, s0, full, n);
      CountAll(Run(p, s0, es).debits, s0.clock);
    }
    if CanTake(p, s0, n) {
      var es: seq<Event> :| KeyStays(p, s0, es) && Count(Run(p, s0, es).debits, s0.clock, s0.clock) == n;
      RunKeeps(p, s0, full, es);
    }
  }

  /** The debits of a window. */
  ghost function InWindow(ds: seq<Debit>, t0: real, t1: real): set<nat> {
    set i: nat | i < |ds| && t0 <= ds[i].at <= t1
  }

  lemma WindowSnoc(ds: seq<Debit>, n: nat, t0: real, t1: real)
    requires |ds| == n + 1
    ensures InWindow(ds, t0, t1)
         == if t0 <= ds[n].at <= t1 then InWindow(ds[..n], t0, t1) + {n} else InWindow(ds[..n], t0, t1)
  {
    forall i: nat
      ensures i in InWindow(ds, t0, t1) <==> i in InWindow(ds[..n], t0, t1) || (i == n && t0 <= ds[n].at <= t1)
    {
      if i < n {
        assert ds[..n][i] == ds[i];
      }
    }
  }

  /** How many debits a window counts is how many there are in it. */
  lemma {:induction false} CountIsSize(ds: seq<Debit>, t0: real, t1: real)
    ensures Count(ds, t0, t1) == |InWindow(ds, t0, t1)|
  {
    if ds == [] {
      assert InWindow(ds, t0, t1) == {};
    } else {
      CountIsSize(ds[..|ds| - 1], t0, t1);
      WindowSnoc(ds, |ds| - 1, t0, t1);
    }
  }
}
