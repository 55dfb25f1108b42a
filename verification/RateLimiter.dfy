/**
 The shared token bucket: any number of `_refill_and_debit` calls, in any number of processes,
 read one revisioned register, refill lazily and write back under a revision check.

 Seconds and tokens are exact reals. One call is one run of the retry loop against one key; all
 calls share a clock that never goes back.
 */
module RateLimiter {
  import opened Common

  const MAX_CAS_RETRIES := 3

  /** `ttl` is the age at which the store drops a key; `None` if it keeps keys for ever. */
  datatype Params = Params(rate: real, capacity: real, ttl: Option<real>)

  /** `rate` divides the wait of an empty bucket; a negative capacity is no bucket. */
  predicate ValidParams(p: Params) {
    p.rate > 0.0 && p.capacity >= 0.0
  }

  /** What the key holds. Undecodable bytes are `Malformed`. */
  datatype Stored = Missing | Malformed | Bucket(tokens: real, lastRefillAt: real)

  function Refilled(p: Params, tokens: real, lastRefillAt: real, now: real): real {
    Min(p.capacity, Level(p.rate, tokens, lastRefillAt, now))
  }

  /** The refill before it is capped. */
  function Level(rate: real, tokens: real, lastRefillAt: real, now: real): real {
    tokens + (now - lastRefillAt) * rate
  }

  /** The decision one attempt takes after its read and its clock reading. */
  datatype Plan = Sleep(seconds: real) | Write(tokens: real, revision: Option<nat>)

  function Decide(p: Params, seen: Stored, revision: nat, now: real): Plan
    requires ValidParams(p)
  {
    // A missing or malformed bucket counts as full and is written without a revision check.
    var (tokens, last, rev) :=
      if seen.Bucket? then (seen.tokens, seen.lastRefillAt, Some(revision)) else (p.capacity, now, None);
    var refilled := Refilled(p, tokens, last, now);
    if refilled < 1.0 then Sleep((1.0 - refilled) / p.rate) else Write(refilled - 1.0, rev)
  }

  /** The sleep of an empty bucket is exact: not a token before it ends, and a token when it ends iff one fits. */
  lemma SleepIsExact(p: Params, tokens: real, last: real, revision: nat, now: real, t: real)
    requires ValidParams(p)
    requires Decide(p, Bucket(tokens, last), revision, now).Sleep?
    requires now <= t
    ensures
      var wake := now + Decide(p, Bucket(tokens, last), revision, now).seconds;
      && (t < wake ==> Refilled(p, tokens, last, t) < 1.0)
      && (t >= wake ==> (Refilled(p, tokens, last, t) >= 1.0 <==> p.capacity >= 1.0))
  {
    if p.capacity >= 1.0 {
      var wake := now + (1.0 - Level(p.rate, tokens, last, now)) / p.rate;
      LevelAtWake(p.rate, tokens, last, now);
      LevelRises(p.rate, tokens, last, t, wake);
    }
  }

  lemma LevelAtWake(rate: real, tokens: real, last: real, now: real)
    requires rate > 0.0
    ensures Level(rate, tokens, last, now + (1.0 - Level(rate, tokens, last, now)) / rate) == 1.0
  {
    var x := Level(rate, tokens, last, now);
    var w := (1.0 - x) / rate;
    assert w * rate == 1.0 - x;
    Distributes(now - last, w, rate);
    assert now + w - last == now - last + w;
  }

  lemma Distributes(a: real, b: real, c: real)
    ensures (a + b) * c == a * c + b * c
  {
  }

  lemma LevelRises(rate: real, tokens: real, last: real, t: real, u: real)
    requires rate > 0.0
    ensures t < u <==> Level(rate, tokens, last, t) < Level(rate, tokens, last, u)
  {
    var d := u - t;
    Distributes(t - last, d, rate);
    assert t - last + d == u - last;
    assert d > 0.0 ==> d * rate > 0.0;
    assert d <= 0.0 ==> d * rate <= 0.0;
  }

  lemma SpanMono(r: real, d: real, e: real)
    requires r > 0.0 && d <= e
    ensures r * d <= r * e
  {
    SpanNonNegative(r, e - d);
    assert r * (e - d) == r * e - r * d;
  }

  lemma SpanNonNegative(r: real, d: real)
    requires r > 0.0 && d >= 0.0
    ensures r * d >= 0.0
  {
  }

  // ----- one call -----

  /** What the world answers to one attempt: the read, the clock, and whether the write was acknowledged. */
  datatype Attempt = Attempt(seen: Stored, revision: nat, now: real, acknowledged: bool)

  predicate Debits(p: Params, a: Attempt)
    requires ValidParams(p)
  {
    Decide(p, a.seen, a.revision, a.now).Write? && a.acknowledged
  }

  /** The loop over the attempts `world` ends at its first debit; without one it lets the caller through. */
  predicate Ends(p: Params, world: seq<Attempt>, debited: Option<nat>)
    requires ValidParams(p) && |world| == MAX_CAS_RETRIES
  {
    match debited
    case None => forall j | 0 <= j < MAX_CAS_RETRIES :: !Debits(p, world[j])
    case Some(k) => k < MAX_CAS_RETRIES && Debits(p, world[k]) && forall j | 0 <= j < k :: !Debits(p, world[j])
  }

  /** The retry loop, on what the world answers to its attempts. */
  method RefillAndDebit(p: Params, world: seq<Attempt>) returns (debited: Option<nat>)
    requires ValidParams(p)
    requires |world| == MAX_CAS_RETRIES
    ensures Ends(p, world, debited)
  {
    for attempt := 0 to MAX_CAS_RETRIES
      invariant forall j | 0 <= j < attempt :: !Debits(p, world[j])
    {
      var a := world[attempt];
      match Decide(p, a.seen, a.revision, a.now) {
        case Sleep(_) =>
          continue;  // an empty bucket spends an attempt too
        case Write(_, _) =>
          if !a.acknowledged {
            continue;  // PublishError
          }
          return Some(attempt);
      }
    }
    return None;
  }

  // ----- every interleaving of calls -----

  datatype Call =
    | Ready(attempt: nat)
    | Read(attempt: nat, seen: Stored, revision: nat)
    | Armed(attempt: nat, tokens: real, at: real, expected: Option<nat>)
    | Sleeping(attempt: nat, until: real)
    | Debited(at: real)
    | FailedOpen

  datatype Debit = Debit(call: nat, at: real)

  /** `writtenAt` dates what the key holds; `debits` is the history of writes that took effect. */
  datatype System = System(
    clock: real,
    stored: Stored,
    revision: nat,
    writtenAt: real,
    calls: map<nat, Call>,
    debits: seq<Debit>)

  /** `Refused` writes nothing; `LostAck` writes but the caller sees an error and goes on. */
  datatype Outcome = Acked | LostAck | Refused

  datatype Event =
    | Tick(elapsed: real)
    | Start(call: nat)
    | Get(call: nat)
    | Think(call: nat)
    | Put(call: nat, outcome: Outcome)
    | Wake(call: nat)
    | Expire

  function Retry(attempt: nat): Call {
    if attempt + 1 < MAX_CAS_RETRIES then Ready(attempt + 1) else FailedOpen
  }

  /** A write meets the register: a stale revision, or that of a dropped key, is refused; a blind put never is. */
  predicate Lands(s: System, c: Call, outcome: Outcome)
    requires c.Armed?
  {
    outcome != Refused && (c.expected.None? || (!s.stored.Missing? && c.expected.value == s.revision))
  }

  /** The key is old enough for the store to drop it. */
  predicate Expires(p: Params, s: System, e: Event) {
    e.Expire? && p.ttl.Some? && !s.stored.Missing? && s.writtenAt + p.ttl.value <= s.clock
  }

  /** One step; an event that is not possible in `s` leaves it alone. */
  function Step(p: Params, s: System, e: Event): System
    requires ValidParams(p)
  {
    match e
    case Tick(d) => if d >= 0.0 then s.(clock := s.clock + d) else s
    case Start(c) => if c !in s.calls then s.(calls := s.calls[c := Ready(0)]) else s
    case Get(c) =>
      if c in s.calls && s.calls[c].Ready? then
        s.(calls := s.calls[c := Read(s.calls[c].attempt, s.stored, s.revision)])
      else s
    case Think(c) =>
      if c in s.calls && s.calls[c].Read? then
        var r := s.calls[c];
        match Decide(p, r.seen, r.revision, s.clock)
        case Sleep(w) => s.(calls := s.calls[c := Sleeping(r.attempt, s.clock + w)])
        case Write(tokens, rev) => s.(calls := s.calls[c := Armed(r.attempt, tokens, s.clock, rev)])
      else s
    case Put(c, outcome) =>
      if c in s.calls && s.calls[c].Armed? then
        var a := s.calls[c];
        var next := if Lands(s, a, outcome) && outcome.Acked? then Debited(a.at) else Retry(a.attempt);
        var told := s.(calls := s.calls[c := next]);
        if Lands(s, a, outcome) then
          told.(stored := Bucket(a.tokens, a.at), revision := s.revision + 1, writtenAt := s.clock,
                debits := s.debits + [Debit(c, a.at)])
        else told
      else s
    case Wake(c) =>
      if c in s.calls && s.calls[c].Sleeping? && s.calls[c].until <= s.clock then
        s.(calls := s.calls[c := Retry(s.calls[c].attempt)])
      else s
    case Expire => if Expires(p, s, e) then s.(stored := Missing) else s
  }

  function Run(p: Params, s: System, es: seq<Event>): System
    requires ValidParams(p)
  {
    if es == [] then s else Step(p, Run(p, s, es[..|es| - 1]), es[|es| - 1])
  }

  /** Nobody called yet; the key may hold anything. */
  predicate Fresh(s: System) {
    s.calls == map[] && s.debits == []
  }

  /** The store never drops the key in this run. */
  predicate KeyStays(p: Params, s: System, es: seq<Event>)
    requires ValidParams(p)
  {
    es == [] || (
      var init, e := es[..|es| - 1], es[|es| - 1];
      KeyStays(p, s, init) && !Expires(p, Run(p, s, init), e))
  }

  // ----- the invariant -----

  /** What a call in flight knows about the register, on the strength of the revision it saw. */
  ghost predicate CallInv(p: Params, s: System, c: Call)
    requires s.stored.Bucket?
  {
    match c
    case Ready(n) => n < MAX_CAS_RETRIES
    case Read(n, seen, rev) =>
      && n < MAX_CAS_RETRIES && seen.Bucket? && rev <= s.revision
      && (rev == s.revision ==> seen == s.stored)
    case Armed(n, tokens, at, expected) =>
      && n < MAX_CAS_RETRIES && expected.Some? && expected.value <= s.revision && at <= s.clock
      && (expected.value == s.revision ==>
            && (s.debits != [] ==> s.stored.lastRefillAt <= at) && 0.0 <= tokens
            && tokens == Refilled(p, s.stored.tokens, s.stored.lastRefillAt, at) - 1.0)
    case Sleeping(n, _) => n < MAX_CAS_RETRIES
    case Debited(_) => true
    case FailedOpen => true
  }

  /** A full bucket plus the refill of [t0, t1]. */
  function Allowance(p: Params, t0: real, t1: real): real {
    p.capacity + p.rate * (t1 - t0)
  }

  lemma AllowanceAt(p: Params, t: real)
    ensures Allowance(p, t, t) == p.capacity
  {
  }

  /** Any run of consecutive debits fits the bucket: `n` of them span at least `(n - capacity) / rate`. */
  ghost predicate Spaced(p: Params, ds: seq<Debit>) {
    forall i, j | 0 <= i <= j < |ds| :: Fits(p, ds, i, j)
  }

  ghost predicate Fits(p: Params, ds: seq<Debit>, i: nat, j: nat)
    requires i <= j < |ds|
  {
    ds[i].at <= ds[j].at && (j - i + 1) as real <= Allowance(p, ds[i].at, ds[j].at)
  }

  /** What the tokens left in the bucket say about the debits since the `i`th. */
  ghost predicate Budget(p: Params, b: Stored, ds: seq<Debit>, i: nat)
    requires b.Bucket? && i < |ds|
  {
    && ds[i].at <= b.lastRefillAt
    && (|ds| - i) as real + b.tokens <= Allowance(p, ds[i].at, b.lastRefillAt)
  }

  /** The bucket against the debits it took. */
  ghost predicate Booked(p: Params, b: Stored, ds: seq<Debit>)
    requires b.Bucket?
  {
    && (ds != [] ==> b.tokens >= 0.0)
    && (forall i | 0 <= i < |ds| :: Budget(p, b, ds, i))
    && Spaced(p, ds)
  }

  ghost predicate Inv(p: Params, s: System) {
    && s.stored.Bucket? && (s.debits != [] ==> s.stored.lastRefillAt <= s.clock)
    && Booked(p, s.stored, s.debits)
    && (forall c | c in s.calls :: CallInv(p, s, s.calls[c]))
    && (forall c | c in s.calls && s.calls[c].Debited? :: Debit(c, s.calls[c].at) in s.debits)
  }

  lemma Additive(r: real, x: real, y: real, z: real)
    ensures r * (y - x) + (z - y) * r == r * (z - x)
  {
  }

  lemma BudgetStep(p: Params, b: Stored, ds: seq<Debit>, d: Debit, i: nat)
    requires b.Bucket? && i < |ds| && Budget(p, b, ds, i) && b.lastRefillAt <= d.at
    ensures Budget(p, Bucket(Refilled(p, b.tokens, b.lastRefillAt, d.at) - 1.0, d.at), ds + [d], i)
  {
    Additive(p.rate, ds[i].at, b.lastRefillAt, d.at);
  }

  /** A debit that lands keeps the books. */
  lemma DebitKeepsBooks(p: Params, b: Stored, ds: seq<Debit>, d: Debit)
    requires b.Bucket? && Booked(p, b, ds) && (ds != [] ==> b.lastRefillAt <= d.at)
    requires Refilled(p, b.tokens, b.lastRefillAt, d.at) >= 1.0
    ensures Booked(p, Bucket(Refilled(p, b.tokens, b.lastRefillAt, d.at) - 1.0, d.at), ds + [d])
  {
    var c, es := Bucket(Refilled(p, b.tokens, b.lastRefillAt, d.at) - 1.0, d.at), ds + [d];
    forall i | 0 <= i < |es|
      ensures Budget(p, c, es, i)
    {
      if i < |ds| {
        BudgetStep(p, b, ds, d, i);
      } else {
        AllowanceAt(p, d.at);
      }
    }
    forall i, j | 0 <= i <= j < |es|
      ensures Fits(p, es, i, j)
    {
      if j < |ds| {
        assert Fits(p, ds, i, j);
      } else {
        assert Budget(p, c, es, i);
      }
    }
  }

  /** A step that leaves the register alone and moves at most call `c`. */
  lemma CalmKeepsInv(p: Params, s: System, t: System, c: nat)
    requires Inv(p, s)
    requires t.stored == s.stored && t.revision == s.revision && t.debits == s.debits && s.clock <= t.clock
    requires forall x | x in t.calls && x != c :: x in s.calls && t.calls[x] == s.calls[x]
    requires c in t.calls ==> CallInv(p, t, t.calls[c])
    requires c in t.calls && t.calls[c].Debited? ==> c in s.calls && s.calls[c] == t.calls[c]
    ensures Inv(p, t)
  {
    forall x | x in t.calls
      ensures CallInv(p, t, t.calls[x])
    {
      if x != c {
        assert CallInv(p, s, s.calls[x]);
      }
    }
  }

  lemma StepKeepsInv(p: Params, s: System, e: Event)
    requires ValidParams(p) && Inv(p, s) && !Expires(p, s, e)
    ensures Inv(p, Step(p, s, e))
  {
    var t := Step(p, s, e);
    if e.Put? && e.call in s.calls && s.calls[e.call].Armed? && Lands(s, s.calls[e.call], e.outcome) {
      DebitKeepsInv(p, s, e);
    } else if e.Tick? {
      assert 0 in s.calls ==> CallInv(p, s, s.calls[0]);
      CalmKeepsInv(p, s, t, 0);
    } else if t != s {
      assert e.call in s.calls ==> CallInv(p, s, s.calls[e.call]);
      CalmKeepsInv(p, s, t, e.call);
    }
  }

  lemma DebitKeepsInv(p: Params, s: System, e: Event)
    requires ValidParams(p) && Inv(p, s)
    requires e.Put? && e.call in s.calls && s.calls[e.call].Armed? && Lands(s, s.calls[e.call], e.outcome)
    ensures Inv(p, Step(p, s, e))
  {
    var a := s.calls[e.call];
    var t := Step(p, s, e);
    assert CallInv(p, s, a);
    DebitKeepsBooks(p, s.stored, s.debits, Debit(e.call, a.at));
    forall x | x in t.calls
      ensures CallInv(p, t, t.calls[x])
    {
      assert CallInv(p, s, s.calls[x]);
    }
  }

  lemma {:induction false} RunKeepsInv(p: Params, s: System, es: seq<Event>)
    requires ValidParams(p) && Inv(p, s) && KeyStays(p, s, es)
    ensures Inv(p, Run(p, s, es))
  {
    if es != [] {
      RunKeepsInv(p, s, es[..|es| - 1]);
      StepKeepsInv(p, Run(p, s, es[..|es| - 1]), es[|es| - 1]);
    }
  }

  // ----- the rate bound -----

  predicate Within(d: Debit, t0: real, t1: real) {
    t0 <= d.at <= t1
  }

  /** How many debits carry a debit time in [t0, t1]. */
  function Count(ds: seq<Debit>, t0: real, t1: real): nat {
    if ds == [] then 0
    else Count(ds[..|ds| - 1], t0, t1) + (if Within(ds[|ds| - 1], t0, t1) then 1 else 0)
  }

  lemma {:induction false} CountFrom(ds: seq<Debit>, t0: real, t1: real, i: nat)
    requires i <= |ds|
    requires forall k | 0 <= k < i :: !Within(ds[k], t0, t1)
    ensures Count(ds, t0, t1) <= |ds| - i
  {
    if |ds| > 0 {
      CountFrom(ds[..|ds| - 1], t0, t1, if i == |ds| then i - 1 else i);
    }
  }

  lemma {:induction false} FirstWithin(ds: seq<Debit>, t0: real, t1: real) returns (i: nat)
    requires ds != [] && Within(ds[|ds| - 1], t0, t1)
    ensures i < |ds| && Within(ds[i], t0, t1)
    ensures forall k | 0 <= k < i :: !Within(ds[k], t0, t1)
  {
    i := 0;
    while !Within(ds[i], t0, t1)
      invariant i < |ds|
      invariant forall k | 0 <= k < i :: !Within(ds[k], t0, t1)
      decreases |ds| - i
    {
      i := i + 1;
    }
  }

  lemma WindowFits(p: Params, ds: seq<Debit>, i: nat, j: nat, count: int, t0: real, t1: real)
    requires ValidParams(p) && i <= j < |ds| && Fits(p, ds, i, j)
    requires t0 <= ds[i].at && ds[j].at <= t1 && count <= j - i + 1
    ensures count as real <= Allowance(p, t0, t1)
  {
    AllowanceMono(p, t0, ds[i].at, ds[j].at, t1);
  }

  lemma AllowanceMono(p: Params, t0: real, t: real, u: real, t1: real)
    requires ValidParams(p) && t0 <= t && u <= t1
    ensures Allowance(p, t, u) <= Allowance(p, t0, t1)
    ensures t0 <= t1 ==> p.capacity <= Allowance(p, t0, t1)
  {
    SpanMono(p.rate, u - t, t1 - t0);
    if t0 <= t1 {
      SpanNonNegative(p.rate, t1 - t0);
    }
  }

  lemma {:induction false} SpacedCount(p: Params, ds: seq<Debit>, t0: real, t1: real)
    requires ValidParams(p) && Spaced(p, ds) && t0 <= t1
    ensures Count(ds, t0, t1) as real <= Allowance(p, t0, t1)
  {
    var n := |ds|;
    if n == 0 {
      AllowanceMono(p, t0, t0, t1, t1);
    } else if !Within(ds[n - 1], t0, t1) {
      var init := ds[..n - 1];
      forall i, j | 0 <= i <= j < n - 1
        ensures Fits(p, init, i, j)
      {
        assert Fits(p, ds, i, j);
      }
      SpacedCount(p, init, t0, t1);
    } else {
      var i := FirstWithin(ds, t0, t1);
      CountFrom(ds, t0, t1, i);
      assert Fits(p, ds, i, n - 1);
      WindowFits(p, ds, i, n - 1, Count(ds, t0, t1), t0, t1);
    }
  }

  /** The bound of the shared limiter, for every interleaving over a bucket that exists and stays. */
  lemma {:induction false} RateBound(p: Params, s0: System, es: seq<Event>, t0: real, t1: real)
    requires ValidParams(p) && t0 <= t1 && Fresh(s0) && s0.stored.Bucket? && KeyStays(p, s0, es)
    ensures Count(Run(p, s0, es).debits, t0, t1) as real <= Allowance(p, t0, t1)
  {
    RunKeepsInv(p, s0, es);
    SpacedCount(p, Run(p, s0, es).debits, t0, t1);
  }

  /** The calls that returned with a token debited at a time in [t0, t1]. */
  ghost function Admitted(s: System, t0: real, t1: real): set<nat> {
    set c | c in s.calls && s.calls[c].Debited? && Within(Debit(c, s.calls[c].at), t0, t1)
  }

  ghost function Payers(ds: seq<Debit>, t0: real, t1: real): set<nat> {
    set d | d in ds && Within(d, t0, t1) :: d.call
  }

  lemma {:induction false} PayersCount(ds: seq<Debit>, t0: real, t1: real)
    ensures |Payers(ds, t0, t1)| <= Count(ds, t0, t1)
  {
    if ds == [] {
      assert Payers(ds, t0, t1) == {};
    } else {
      var init, d := ds[..|ds| - 1], ds[|ds| - 1];
      PayersCount(init, t0, t1);
      assert ds == init + [d];
      assert Payers(ds, t0, t1) == Payers(init, t0, t1) + (if Within(d, t0, t1) then {d.call} else {});
    }
  }

  /** Callers let through with a token obey the same bound; the others were let through by failing open. */
  lemma AdmissionBound(p: Params, s0: System, es: seq<Event>, t0: real, t1: real)
    requires ValidParams(p) && t0 <= t1 && Fresh(s0) && s0.stored.Bucket? && KeyStays(p, s0, es)
    ensures |Admitted(Run(p, s0, es), t0, t1)| as real <= Allowance(p, t0, t1)
  {
    var s := Run(p, s0, es);
    RunKeepsInv(p, s0, es);
    RateBound(p, s0, es, t0, t1);
    PayersCount(s.debits, t0, t1);
    forall c | c in Admitted(s, t0, t1)
      ensures c in Payers(s.debits, t0, t1)
    {
      assert Debit(c, s.calls[c].at) in s.debits;
    }
    SubsetSize(Admitted(s, t0, t1), Payers(s.debits, t0, t1));
  }

  /** A bucket outlives a run that ends before the age limit of what it held at the start. */
  lemma {:induction false} YoungKeyStays(p: Params, s: System, es: seq<Event>)
    requires ValidParams(p) && s.writtenAt <= s.clock
    requires p.ttl.Some? ==> Run(p, s, es).clock < s.writtenAt + p.ttl.value
    ensures KeyStays(p, s, es) && s.writtenAt <= Run(p, s, es).writtenAt <= Run(p, s, es).clock
  {
    if es != [] {
      YoungKeyStays(p, s, es[..|es| - 1]);
    }
  }

  /** A checked write whose revision went stale, or whose key was dropped, debits nothing. */
  lemma LostRaceDebitsNothing(p: Params, s: System, c: nat, outcome: Outcome)
    requires ValidParams(p) && c in s.calls && s.calls[c].Armed? && s.calls[c].expected.Some?
    requires s.calls[c].expected.value != s.revision || s.stored.Missing?
    ensures
      var t := Step(p, s, Put(c, outcome));
      && t.stored == s.stored && t.revision == s.revision && t.debits == s.debits
      && t.calls == s.calls[c := Retry(s.calls[c].attempt)]
  {
  }

  /** How often a call has read the register in a run. */
  function Reads(p: Params, s: System, es: seq<Event>, c: nat): nat
    requires ValidParams(p)
  {
    if es == [] then 0
    else
      var before := Run(p, s, es[..|es| - 1]);
      var e := es[|es| - 1];
      Reads(p, s, es[..|es| - 1], c) + (if e == Get(c) && c in before.calls && before.calls[c].Ready? then 1 else 0)
  }

  /** Three reads is all a call gets, whatever the bucket holds: it fails open exactly after the third. */
  lemma {:induction false} AtMostThreeReads(p: Params, s0: System, es: seq<Event>, c: nat)
    requires ValidParams(p) && Fresh(s0)
    ensures
      var s, count := Run(p, s0, es), Reads(p, s0, es, c);
      if c !in s.calls then count == 0
      else match s.calls[c]
        case Ready(n) => count == n < MAX_CAS_RETRIES
        case Debited(_) => 1 <= count <= MAX_CAS_RETRIES
        case FailedOpen => count == MAX_CAS_RETRIES
        case other => count == other.attempt + 1 <= MAX_CAS_RETRIES
  {
    if es != [] {
      AtMostThreeReads(p, s0, es[..|es| - 1], c);
    }
  }

  // ----- without a bucket there is no bound -----

  function ReadAll(n: nat): seq<Event> {
    if n == 0 then [] else ReadAll(n - 1) + [Start(n - 1)] + [Get(n - 1)] + [Think(n - 1)]
  }

  function WriteAll(n: nat): seq<Event> {
    if n == 0 then [] else WriteAll(n - 1) + [Put(n - 1, Acked)]
  }

  lemma {:induction false} RunConcat(p: Params, s: System, es: seq<Event>, fs: seq<Event>)
    requires ValidParams(p)
    ensures Run(p, s, es + fs) == Run(p, Run(p, s, es), fs)
  {
    if fs == [] {
      assert es + fs == es;
    } else {
      assert (es + fs)[..|es + fs| - 1] == es + fs[..|fs| - 1];
      RunConcat(p, s, es, fs[..|fs| - 1]);
    }
  }

  lemma RunSnoc(p: Params, s: System, es: seq<Event>, e: Event)
    requires ValidParams(p)
    ensures Run(p, s, es + [e]) == Step(p, Run(p, s, es), e)
  {
    assert (es + [e])[..|es|] == es;
  }

  /** `n` calls that all read the absent bucket before anyone wrote. */
  function ArmedCalls(p: Params, clock: real, n: nat): (calls: map<nat, Call>)
    ensures forall c: nat :: c in calls <==> c < n
    ensures forall c: nat | c < n :: calls[c] == Armed(0, p.capacity - 1.0, clock, None)
  {
    if n == 0 then map[] else ArmedCalls(p, clock, n - 1)[n - 1 := Armed(0, p.capacity - 1.0, clock, None)]
  }

  lemma ArmOne(p: Params, s: System, c: nat)
    requires ValidParams(p) && p.capacity >= 1.0 && !s.stored.Bucket? && c !in s.calls
    ensures Step(p, Step(p, Step(p, s, Start(c)), Get(c)), Think(c))
         == s.(calls := s.calls[c := Armed(0, p.capacity - 1.0, s.clock, None)])
  {
    var s1 := s.(calls := s.calls[c := Ready(0)]);
    var s2 := s.(calls := s.calls[c := Read(0, s.stored, s.revision)]);
    assert Step(p, s, Start(c)) == s1;
    assert Step(p, s1, Get(c)).calls == s2.calls;
    assert Refilled(p, p.capacity, s.clock, s.clock) == p.capacity;
    assert Step(p, s2, Think(c)).calls == s.calls[c := Armed(0, p.capacity - 1.0, s.clock, None)];
  }

  lemma ReadOneMore(p: Params, s: System, n: nat, t: System)
    requires ValidParams(p) && Run(p, s, ReadAll(n)) == t
    ensures Run(p, s, ReadAll(n + 1)) == Step(p, Step(p, Step(p, t, Start(n)), Get(n)), Think(n))
  {
    var es := ReadAll(n);
    RunSnoc(p, s, es, Start(n));
    RunSnoc(p, s, es + [Start(n)], Get(n));
    RunSnoc(p, s, es + [Start(n)] + [Get(n)], Think(n));
  }

  /** `s` once `n` calls are armed. */
  function WithArmed(p: Params, s: System, n: nat): System {
    s.(calls := ArmedCalls(p, s.clock, n))
  }

  lemma ArmNext(p: Params, s: System, n: nat)
    requires ValidParams(p) && p.capacity >= 1.0 && !s.stored.Bucket?
    requires Run(p, s, ReadAll(n)) == WithArmed(p, s, n)
    ensures Run(p, s, ReadAll(n + 1)) == WithArmed(p, s, n + 1)
  {
    var t := WithArmed(p, s, n);
    ArmOne(p, t, n);
    var u := WithArmed(p, s, n + 1);
    assert Step(p, Step(p, Step(p, t, Start(n)), Get(n)), Think(n)) == u;
    ReadOneMore(p, s, n, t);
  }

  lemma {:induction false} AllArmed(p: Params, s: System, n: nat)
    requires ValidParams(p) && p.capacity >= 1.0 && !s.stored.Bucket? && s.calls == map[]
    ensures Run(p, s, ReadAll(n)) == WithArmed(p, s, n)
  {
    if n > 0 {
      AllArmed(p, s, n - 1);
      ArmNext(p, s, n - 1);
    }
  }

  lemma {:induction false} AllDebited(p: Params, s: System, clock: real, n: nat)
    requires ValidParams(p) && s.debits == []
    requires forall c: nat | c < n :: c in s.calls && s.calls[c] == Armed(0, p.capacity - 1.0, clock, None)
    ensures
      var t := Run(p, s, WriteAll(n));
      && |t.debits| == n && (forall i | 0 <= i < n :: t.debits[i].at == clock)
      && forall c: nat | c >= n && c in s.calls :: c in t.calls && t.calls[c] == s.calls[c]
  {
    if n > 0 {
      AllDebited(p, s, clock, n - 1);
      assert WriteAll(n)[..|WriteAll(n)| - 1] == WriteAll(n - 1);
    }
  }

  lemma {:induction false} CountAll(ds: seq<Debit>, t: real)
    requires forall i | 0 <= i < |ds| :: ds[i].at == t
    ensures Count(ds, t, t) == |ds|
  {
    if ds != [] {
      CountAll(ds[..|ds| - 1], t);
    }
  }

  /** On a missing or malformed key any number of blind puts debit in the same instant. */
  lemma BlindPutsUnbounded(p: Params, s0: System, n: nat) returns (es: seq<Event>)
    requires ValidParams(p) && p.capacity >= 1.0 && Fresh(s0) && !s0.stored.Bucket?
    ensures Count(Run(p, s0, es).debits, s0.clock, s0.clock) == n
  {
    es := ReadAll(n) + WriteAll(n);
    var s := Run(p, s0, ReadAll(n));
    AllArmed(p, s0, n);
    AllDebited(p, s, s0.clock, n);
    RunConcat(p, s0, ReadAll(n), WriteAll(n));
    CountAll(Run(p, s, WriteAll(n)).debits, s0.clock);
  }

  /** Nobody writes until the store drops the key. */
  lemma Dropped(p: Params, s0: System) returns (es: seq<Event>)
    requires ValidParams(p) && Fresh(s0) && p.ttl.Some?
    ensures Fresh(Run(p, s0, es)) && Run(p, s0, es).stored.Missing?
  {
    var wait := Max(0.0, s0.writtenAt + p.ttl.value - s0.clock);
    RunSnoc(p, s0, [], Tick(wait));
    RunSnoc(p, s0, [] + [Tick(wait)], Expire);
    es := [] + [Tick(wait)] + [Expire];
  }

  /** From any key that is not a bucket for good, some run debits `n` tokens in one instant. */
  lemma SomeRunUnbounded(p: Params, s0: System, n: nat) returns (es: seq<Event>, t: real)
    requires ValidParams(p) && p.capacity >= 1.0 && Fresh(s0) && (s0.stored.Bucket? ==> p.ttl.Some?)
    ensures Count(Run(p, s0, es).debits, t, t) == n
  {
    if s0.stored.Bucket? {
      var fs := Dropped(p, s0);
      var gs := BlindPutsUnbounded(p, Run(p, s0, fs), n);
      RunConcat(p, s0, fs, gs);
      es, t := fs + gs, Run(p, s0, fs).clock;
    } else {
      es := BlindPutsUnbounded(p, s0, n);
      t := s0.clock;
    }
  }

  /** No run from `s` ever exceeds the bound. */
  ghost predicate AlwaysBounded(p: Params, s: System)
    requires ValidParams(p)
  {
    forall es: seq<Event>, t0: real, t1: real | t0 <= t1 ::
      Count(Run(p, s, es).debits, t0, t1) as real <= Allowance(p, t0, t1)
  }

  /** A bucket that never holds a whole token sends every call to sleep. */
  lemma {:induction false} NothingFits(p: Params, s0: System, es: seq<Event>)
    requires ValidParams(p) && p.capacity < 1.0 && Fresh(s0)
    ensures Run(p, s0, es).debits == [] && forall c | c in Run(p, s0, es).calls :: !Run(p, s0, es).calls[c].Armed?
  {
    if es != [] {
      NothingFits(p, s0, es[..|es| - 1]);
    }
  }

  lemma {:induction false} KeptForEver(p: Params, s: System, es: seq<Event>)
    requires ValidParams(p) && p.ttl.None?
    ensures KeyStays(p, s, es)
  {
    if es != [] {
      KeptForEver(p, s, es[..|es| - 1]);
    }
  }

  /**
   The exact condition: the bound holds over every run iff the key already holds a decodable bucket that the store
   keeps for ever, or the capacity has no room for a token at all.
   */
  lemma BoundedIffBucketStays(p: Params, s0: System)
    requires ValidParams(p) && Fresh(s0)
    ensures AlwaysBounded(p, s0) <==> p.capacity < 1.0 || (s0.stored.Bucket? && p.ttl.None?)
  {
    if p.capacity < 1.0 || (s0.stored.Bucket? && p.ttl.None?) {
      forall es: seq<Event>, t0: real, t1: real | t0 <= t1
        ensures Count(Run(p, s0, es).debits, t0, t1) as real <= Allowance(p, t0, t1)
      {
        if p.capacity < 1.0 {
          NothingFits(p, s0, es);
          AllowanceMono(p, t0, t0, t1, t1);
        } else {
          KeptForEver(p, s0, es);
          RateBound(p, s0, es, t0, t1);
        }
      }
    } else {
      var es, t := SomeRunUnbounded(p, s0, p.capacity.Floor + 1);
      AllowanceAt(p, t);
      assert Count(Run(p, s0, es).debits, t, t) as real > Allowance(p, t, t);
    }
  }

  /** So with an age limit on its keys, as the store is set up, no key to start with is good enough. */
  lemma ExpiryUnbounded(p: Params, s0: System)
    requires ValidParams(p) && Fresh(s0) && p.ttl.Some?
    ensures AlwaysBounded(p, s0) <==> p.capacity < 1.0
  {
    BoundedIffBucketStays(p, s0);
  }
}
