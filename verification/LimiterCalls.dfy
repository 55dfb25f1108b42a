/**
 The calls of the shared limiter one by one: what became of their attempts, and how the tokens they took compare with
 the callers let through. Everything here holds whatever the key holds.
 */
module LimiterCalls {
  import opened Common
  import opened RateLimiter

  // ----- what happens to a call -----

  /** `Slept`: a sleep ended. `WriteFailed`: the caller saw an error. `AckLost`: it did, but the write took effect. */
  datatype Kind = Slept | WriteFailed | AckLost

  predicate Happens(kind: Kind, s: System, e: Event, c: nat) {
    c in s.calls &&
    match kind
    case Slept => e == Wake(c) && s.calls[c].Sleeping? && s.calls[c].until <= s.clock
    case WriteFailed =>
      e.Put? && e.call == c && s.calls[c].Armed? && !(Lands(s, s.calls[c], e.outcome) && e.outcome.Acked?)
    case AckLost => e == Put(c, LostAck) && s.calls[c].Armed? && Lands(s, s.calls[c], LostAck)
  }

  /** How often that happened to call `c` in a run. */
  function Times(kind: Kind, p: Params, s: System, es: seq<Event>, c: nat): nat
    requires ValidParams(p)
  {
    if es == [] then 0
    else
      var init, e := es[..|es| - 1], es[|es| - 1];
      Times(kind, p, s, init, c) + (if Happens(kind, Run(p, s, init), e, c) then 1 else 0)
  }

  lemma OneStepMore(p: Params, s: System, es: seq<Event>, e: Event, c: nat)
    requires ValidParams(p)
    ensures Run(p, s, es + [e]) == Step(p, Run(p, s, es), e)
    ensures forall kind: Kind ::
              Times(kind, p, s, es + [e], c)
              == Times(kind, p, s, es, c) + (if Happens(kind, Run(p, s, es), e, c) then 1 else 0)
  {
    assert (es + [e])[..|es|] == es;
  }

  // ----- attempts -----

  /** The attempts that call `c` has behind it. */
  ghost predicate Spent(s: System, c: nat, spent: nat) {
    if c !in s.calls then spent == 0
    else match s.calls[c]
      case Debited(_) => spent < MAX_CAS_RETRIES
      case FailedOpen => spent == MAX_CAS_RETRIES
      case other => spent == other.attempt < MAX_CAS_RETRIES
  }

  lemma StepSpends(p: Params, s: System, e: Event, c: nat, spent: nat)
    requires ValidParams(p) && Spent(s, c, spent)
    ensures Spent(Step(p, s, e), c,
                  spent + (if Happens(Slept, s, e, c) then 1 else 0) + (if Happens(WriteFailed, s, e, c) then 1 else 0))
  {
  }

  lemma {:induction false} RunSpends(p: Params, s: System, es: seq<Event>, c: nat)
    requires ValidParams(p) && c !in s.calls
    ensures Spent(Run(p, s, es), c, Times(Slept, p, s, es, c) + Times(WriteFailed, p, s, es, c))
    ensures Times(AckLost, p, s, es, c) <= Times(WriteFailed, p, s, es, c)
  {
    if es != [] {
      var init, e := es[..|es| - 1], es[|es| - 1];
      RunSpends(p, s, init, c);
      StepSpends(p, Run(p, s, init), e, c, Times(Slept, p, s, init, c) + Times(WriteFailed, p, s, init, c));
    }
  }

  predicate Failed(s: System, c: nat) {
    c in s.calls && s.calls[c].FailedOpen?
  }

  /**
   Over every run, a call fails open exactly when its sleeps and failed writes make three. So it failed on three
   conflicts exactly when it never slept.
   */
  lemma {:induction false} FailsOpenIff(p: Params, s0: System, es: seq<Event>, c: nat)
    requires ValidParams(p) && Fresh(s0)
    ensures
      var slept, failed := Times(Slept, p, s0, es, c), Times(WriteFailed, p, s0, es, c);
      && slept + failed <= MAX_CAS_RETRIES
      && (Failed(Run(p, s0, es), c) <==> slept + failed == MAX_CAS_RETRIES)
      && (Failed(Run(p, s0, es), c) ==> (failed == MAX_CAS_RETRIES <==> slept == 0))
  {
    RunSpends(p, s0, es, c);
  }

  // ----- tokens and admissions -----

  /** The debits made by call `c`. */
  function Taken(ds: seq<Debit>, c: nat): nat {
    if ds == [] then 0 else Taken(ds[..|ds| - 1], c) + (if ds[|ds| - 1].call == c then 1 else 0)
  }

  predicate Admits(s: System, c: nat) {
    c in s.calls && s.calls[c].Debited?
  }

  lemma TakenSnoc(ds: seq<Debit>, d: Debit, c: nat)
    ensures Taken(ds + [d], c) == Taken(ds, c) + (if d.call == c then 1 else 0)
  {
    assert (ds + [d])[..|ds|] == ds;
  }

  function One(b: bool): nat {
    if b then 1 else 0
  }

  lemma StepTakes(p: Params, s: System, e: Event, c: nat)
    requires ValidParams(p)
    ensures Taken(Step(p, s, e).debits, c) + One(Admits(s, c))
         == Taken(s.debits, c) + One(Admits(Step(p, s, e), c)) + One(Happens(AckLost, s, e, c))
  {
    if e.Put? && e.call in s.calls && s.calls[e.call].Armed? {
      PutTakes(p, s, e, c);
    }
  }

  lemma PutTakes(p: Params, s: System, e: Event, c: nat)
    requires ValidParams(p) && e.Put? && e.call in s.calls && s.calls[e.call].Armed?
    ensures Taken(Step(p, s, e).debits, c) + One(Admits(s, c))
         == Taken(s.debits, c) + One(Admits(Step(p, s, e), c)) + One(Happens(AckLost, s, e, c))
  {
    var t := Step(p, s, e);
    PutDebits(p, s, e);
    if Lands(s, s.calls[e.call], e.outcome) {
      TakenSnoc(s.debits, Debit(e.call, s.calls[e.call].at), c);
    }
    if e.call != c {
      assert Admits(t, c) == Admits(s, c) && !Happens(AckLost, s, e, c);
    }
  }

  /** What an answered write does to the history and to its caller. */
  lemma PutDebits(p: Params, s: System, e: Event)
    requires ValidParams(p) && e.Put? && e.call in s.calls && s.calls[e.call].Armed?
    ensures
      var a, t := s.calls[e.call], Step(p, s, e);
      var lands := Lands(s, a, e.outcome);
      && t.debits == (if lands then s.debits + [Debit(e.call, a.at)] else s.debits)
      && t.calls == s.calls[e.call := if lands && e.outcome.Acked? then Debited(a.at) else Retry(a.attempt)]
  {
  }

  lemma {:induction false} RunTakes(p: Params, s: System, es: seq<Event>, c: nat)
    requires ValidParams(p) && s.debits == [] && c !in s.calls
    ensures Taken(Run(p, s, es).debits, c)
         == (if Admits(Run(p, s, es), c) then 1 else 0) + Times(AckLost, p, s, es, c)
  {
    if es != [] {
      RunTakes(p, s, es[..|es| - 1], c);
      StepTakes(p, Run(p, s, es[..|es| - 1]), es[|es| - 1], c);
    }
  }

  /**
   The ledger of a call, over every run: it took one token if it was admitted with one, and one more for each of its
   writes that took effect but whose acknowledgement was lost. So tokens and admission agree exactly when no
   acknowledgement was lost, and three tokens is the most a call can take.
   */
  lemma {:induction false} DebitLedger(p: Params, s0: System, es: seq<Event>, c: nat)
    requires ValidParams(p) && Fresh(s0)
    ensures
      var s, lost := Run(p, s0, es), Times(AckLost, p, s0, es, c);
      var admitted := if Admits(s, c) then 1 else 0;
      && Taken(s.debits, c) == admitted + lost
      && (Taken(s.debits, c) == admitted <==> lost == 0)
      && Taken(s.debits, c) <= MAX_CAS_RETRIES
  {
    RunTakes(p, s0, es, c);
    RunSpends(p, s0, es, c);
  }

  // ----- the attempts of a call are a run of its loop -----

  /** What the world answered to the attempts of call `c`: each is known from its decision on, acknowledged or not. */
  function Attempts(p: Params, s: System, es: seq<Event>, c: nat): seq<Attempt>
    requires ValidParams(p)
  {
    if es == [] then []
    else
      var init, e := es[..|es| - 1], es[|es| - 1];
      Answered(Run(p, s, init), e, c, Attempts(p, s, init, c))
  }

  function Answered(s: System, e: Event, c: nat, before: seq<Attempt>): seq<Attempt> {
    if c !in s.calls then before
    else if e == Think(c) && s.calls[c].Read? then
      before + [Attempt(s.calls[c].seen, s.calls[c].revision, s.clock, false)]
    else if e == Put(c, Acked) && s.calls[c].Armed? && Lands(s, s.calls[c], Acked) && before != [] then
      before[|before| - 1 := before[|before| - 1].(acknowledged := true)]
    else before
  }

  predicate NoDebit(p: Params, world: seq<Attempt>)
    requires ValidParams(p)
  {
    forall j | 0 <= j < |world| :: !Debits(p, world[j])
  }

  /** Where call `c` stands after the attempts `world`. */
  ghost predicate Follows(p: Params, s: System, c: nat, world: seq<Attempt>)
    requires ValidParams(p)
  {
    if c !in s.calls then world == []
    else match s.calls[c]
      case Ready(n) => |world| == n < MAX_CAS_RETRIES && NoDebit(p, world)
      case Read(n, _, _) => |world| == n < MAX_CAS_RETRIES && NoDebit(p, world)
      case Armed(n, _, at, _) =>
        && |world| == n + 1 <= MAX_CAS_RETRIES && NoDebit(p, world)
        && world[n].now == at && Decide(p, world[n].seen, world[n].revision, at).Write?
      case Sleeping(n, _) =>
        && |world| == n + 1 <= MAX_CAS_RETRIES && NoDebit(p, world)
        && Decide(p, world[n].seen, world[n].revision, world[n].now).Sleep?
      case Debited(at) =>
        && 1 <= |world| <= MAX_CAS_RETRIES && NoDebit(p, world[..|world| - 1])
        && Debits(p, world[|world| - 1]) && world[|world| - 1].now == at
      case FailedOpen => |world| == MAX_CAS_RETRIES && NoDebit(p, world)
  }

  lemma StepFollows(p: Params, s: System, e: Event, c: nat, world: seq<Attempt>)
    requires ValidParams(p) && Follows(p, s, c, world)
    ensures Follows(p, Step(p, s, e), c, Answered(s, e, c, world))
  {
    if e == Think(c) {
      ThinkFollows(p, s, c, world);
    } else if e.Put? && e.call == c {
      PutFollows(p, s, e, c, world);
    } else {
      OtherFollows(p, s, e, c, world);
    }
  }

  lemma ThinkFollows(p: Params, s: System, c: nat, world: seq<Attempt>)
    requires ValidParams(p) && Follows(p, s, c, world)
    ensures Follows(p, Step(p, s, Think(c)), c, Answered(s, Think(c), c, world))
  {
  }

  lemma PutFollows(p: Params, s: System, e: Event, c: nat, world: seq<Attempt>)
    requires ValidParams(p) && Follows(p, s, c, world) && e.Put? && e.call == c
    ensures Follows(p, Step(p, s, e), c, Answered(s, e, c, world))
  {
  }

  lemma OtherFollows(p: Params, s: System, e: Event, c: nat, world: seq<Attempt>)
    requires ValidParams(p) && Follows(p, s, c, world) && e != Think(c) && !(e.Put? && e.call == c)
    ensures Follows(p, Step(p, s, e), c, world)
  {
  }

  lemma {:induction false} RunFollows(p: Params, s: System, es: seq<Event>, c: nat)
    requires ValidParams(p) && c !in s.calls
    ensures Follows(p, Run(p, s, es), c, Attempts(p, s, es, c))
  {
    if es != [] {
      RunFollows(p, s, es[..|es| - 1], c);
      StepFollows(p, Run(p, s, es[..|es| - 1]), es[|es| - 1], c, Attempts(p, s, es[..|es| - 1], c));
    }
  }

  /**
   A call that finished in a run, among any others, did what the loop does on the answers it got: it was admitted
   where the loop ends, or failed open because the loop ends without a debit.
   */
  lemma {:induction false} FinishedCallIsLoop(
      p: Params, s0: System, es: seq<Event>, c: nat, world: seq<Attempt>)
    requires ValidParams(p) && Fresh(s0) && |world| == MAX_CAS_RETRIES && Attempts(p, s0, es, c) <= world
    ensures
      var s, last := Run(p, s0, es), |Attempts(p, s0, es, c)| - 1;
      && (Admits(s, c) ==> last >= 0 && Ends(p, world, Some(last)) && world[last].now == s.calls[c].at)
      && (Failed(s, c) ==> last == MAX_CAS_RETRIES - 1 && Ends(p, world, None))
  {
    RunFollows(p, s0, es, c);
    FollowsEnds(p, Run(p, s0, es), c, Attempts(p, s0, es, c), world);
  }

  lemma FollowsEnds(p: Params, s: System, c: nat, answers: seq<Attempt>, world: seq<Attempt>)
    requires ValidParams(p) && |world| == MAX_CAS_RETRIES && answers <= world && Follows(p, s, c, answers)
    ensures Admits(s, c) ==>
              && |answers| > 0 && Ends(p, world, Some(|answers| - 1))
              && world[|answers| - 1].now == s.calls[c].at
    ensures Failed(s, c) ==> |answers| == MAX_CAS_RETRIES && Ends(p, world, None)
  {
    assert forall j | 0 <= j < |answers| :: world[j] == answers[j];
    if Admits(s, c) {
      var init := answers[..|answers| - 1];
      assert forall j | 0 <= j < |init| :: !Debits(p, init[j]) && init[j] == world[j];
    }
  }

  // ----- a call that fails open without a conflict -----

  lemma DecideEmpty(p: Params, t: real, revision: nat)
    requires ValidParams(p) && p.capacity >= 1.0
    ensures Decide(p, Bucket(0.0, t), revision, t) == Sleep(1.0 / p.rate)
    ensures Decide(p, Bucket(0.0, t), revision, t + 1.0 / p.rate) == Write(0.0, Some(revision))
    ensures 1.0 / p.rate >= 0.0
  {
    var d := 1.0 / p.rate;
    assert d * p.rate == 1.0;
    assert Level(p.rate, 0.0, t, t) == 0.0;
    assert Level(p.rate, 0.0, t, t + d) == 1.0;
  }

  /** Call 0 is about to try for the `n`th time on an empty bucket; its rivals so far are 1 to `n`. */
  ghost predicate Starving(s: System, n: nat) {
    && s.stored == Bucket(0.0, s.clock)
    && (forall c | c in s.calls :: c <= n)
    && 0 in s.calls && s.calls[0] == Ready(n)
  }

  /** Call 0 finds the bucket empty and sleeps. */
  lemma FallsAsleep(p: Params, s: System, n: nat)
    requires ValidParams(p) && p.capacity >= 1.0 && Starving(s, n)
    ensures Step(p, Step(p, s, Get(0)), Think(0))
         == s.(calls := s.calls[0 := Sleeping(n, s.clock + 1.0 / p.rate)])
  {
    DecideEmpty(p, s.clock, s.revision);
    var read := s.calls[0 := Read(n, s.stored, s.revision)];
    assert Step(p, s, Get(0)) == s.(calls := read);
    assert read[0 := Sleeping(n, s.clock + 1.0 / p.rate)] == s.calls[0 := Sleeping(n, s.clock + 1.0 / p.rate)];
  }

  /** While it sleeps a rival comes for the token. */
  lemma RivalReads(p: Params, s: System, c: nat)
    requires ValidParams(p) && p.capacity >= 1.0 && s.stored == Bucket(0.0, s.clock) && c !in s.calls
    ensures
      var t := s.(clock := s.clock + 1.0 / p.rate, calls := s.calls[c := Read(0, s.stored, s.revision)]);
      Step(p, Step(p, Step(p, s, Start(c)), Tick(1.0 / p.rate)), Get(c)) == t
  {
    DecideEmpty(p, s.clock, s.revision);
    assert s.calls[c := Ready(0)][c := Read(0, s.stored, s.revision)] == s.calls[c := Read(0, s.stored, s.revision)];
  }

  lemma RivalTakes(p: Params, s: System, c: nat, last: real)
    requires ValidParams(p) && p.capacity >= 1.0 && s.stored == Bucket(0.0, last) && s.clock == last + 1.0 / p.rate
    requires c in s.calls && s.calls[c] == Read(0, s.stored, s.revision)
    ensures
      var t := Step(p, Step(p, s, Think(c)), Put(c, Acked));
      && t.stored == Bucket(0.0, s.clock) && t.clock == s.clock
      && t.calls == s.calls[c := Debited(s.clock)]
  {
    DecideEmpty(p, last, s.revision);
    var armed := s.calls[c := Armed(0, 0.0, s.clock, Some(s.revision))];
    assert Step(p, s, Think(c)) == s.(calls := armed);
    assert armed[c := Debited(s.clock)] == s.calls[c := Debited(s.clock)];
  }

  /** A step that neither wakes call 0 nor answers a write of it. */
  lemma QuietStep(p: Params, s0: System, es: seq<Event>, e: Event, s: System)
    requires ValidParams(p) && Run(p, s0, es) == s && e != Wake(0) && !(e.Put? && e.call == 0)
    ensures Run(p, s0, es + [e]) == Step(p, s, e)
    ensures Times(Slept, p, s0, es + [e], 0) == Times(Slept, p, s0, es, 0)
    ensures Times(WriteFailed, p, s0, es + [e], 0) == Times(WriteFailed, p, s0, es, 0)
  {
    OneStepMore(p, s0, es, e, 0);
  }

  lemma SleepRound(p: Params, s0: System, es: seq<Event>, n: nat) returns (fs: seq<Event>)
    requires ValidParams(p) && p.capacity >= 1.0 && Starving(Run(p, s0, es), n)
    ensures
      var s := Run(p, s0, es);
      Run(p, s0, fs) == s.(calls := s.calls[0 := Sleeping(n, s.clock + 1.0 / p.rate)])
    ensures Times(Slept, p, s0, fs, 0) == Times(Slept, p, s0, es, 0)
    ensures Times(WriteFailed, p, s0, fs, 0) == Times(WriteFailed, p, s0, es, 0)
  {
    var s := Run(p, s0, es);
    FallsAsleep(p, s, n);
    QuietStep(p, s0, es, Get(0), s);
    QuietStep(p, s0, es + [Get(0)], Think(0), Step(p, s, Get(0)));
    fs := es + [Get(0)] + [Think(0)];
  }

  lemma RivalComes(p: Params, s0: System, es: seq<Event>, c: nat) returns (fs: seq<Event>)
    requires ValidParams(p) && p.capacity >= 1.0
    requires var s := Run(p, s0, es); s.stored == Bucket(0.0, s.clock) && c !in s.calls
    ensures
      var s := Run(p, s0, es);
      Run(p, s0, fs)
      == s.(clock := s.clock + 1.0 / p.rate, calls := s.calls[c := Read(0, s.stored, s.revision)])
    ensures Times(Slept, p, s0, fs, 0) == Times(Slept, p, s0, es, 0)
    ensures Times(WriteFailed, p, s0, fs, 0) == Times(WriteFailed, p, s0, es, 0)
  {
    var s := Run(p, s0, es);
    RivalReads(p, s, c);
    QuietStep(p, s0, es, Start(c), s);
    var s1 := Step(p, s, Start(c));
    QuietStep(p, s0, es + [Start(c)], Tick(1.0 / p.rate), s1);
    QuietStep(p, s0, es + [Start(c)] + [Tick(1.0 / p.rate)], Get(c), Step(p, s1, Tick(1.0 / p.rate)));
    fs := es + [Start(c)] + [Tick(1.0 / p.rate)] + [Get(c)];
  }

  lemma RivalWins(p: Params, s0: System, es: seq<Event>, c: nat, last: real) returns (fs: seq<Event>)
    requires ValidParams(p) && p.capacity >= 1.0 && c != 0
    requires var s := Run(p, s0, es);
             && s.stored == Bucket(0.0, last) && s.clock == last + 1.0 / p.rate
             && c in s.calls && s.calls[c] == Read(0, s.stored, s.revision)
    ensures
      var s, t := Run(p, s0, es), Run(p, s0, fs);
      t.stored == Bucket(0.0, s.clock) && t.clock == s.clock && t.calls == s.calls[c := Debited(s.clock)]
    ensures Times(Slept, p, s0, fs, 0) == Times(Slept, p, s0, es, 0)
    ensures Times(WriteFailed, p, s0, fs, 0) == Times(WriteFailed, p, s0, es, 0)
  {
    var s := Run(p, s0, es);
    RivalTakes(p, s, c, last);
    QuietStep(p, s0, es, Think(c), s);
    QuietStep(p, s0, es + [Think(c)], Put(c, Acked), Step(p, s, Think(c)));
    fs := es + [Think(c)] + [Put(c, Acked)];
  }

  /** A round in which call 0 sleeps for the next token and a rival gets it. */
  lemma LoseRound(p: Params, s0: System, es: seq<Event>, n: nat) returns (fs: seq<Event>)
    requires ValidParams(p) && p.capacity >= 1.0 && Starving(Run(p, s0, es), n)
    ensures
      var t := Run(p, s0, fs);
      && t.stored == Bucket(0.0, t.clock) && (forall c | c in t.calls :: c <= n + 1)
      && 0 in t.calls && t.calls[0] == Retry(n)
    ensures Times(Slept, p, s0, fs, 0) == Times(Slept, p, s0, es, 0) + 1
    ensures Times(WriteFailed, p, s0, fs, 0) == Times(WriteFailed, p, s0, es, 0)
  {
    var last := Run(p, s0, es).clock;
    fs := SleepRound(p, s0, es, n);
    fs := RivalComes(p, s0, fs, n + 1);
    fs := RivalWins(p, s0, fs, n + 1, last);
    OneStepMore(p, s0, fs, Wake(0), 0);
    fs := fs + [Wake(0)];
  }

  /** From an empty bucket that can hold a token, some run has a call fail open after three sleeps and no conflict. */
  lemma {:induction false} SleepsAloneFailOpen(p: Params, s0: System) returns (es: seq<Event>)
    requires ValidParams(p) && p.capacity >= 1.0 && Fresh(s0) && s0.stored == Bucket(0.0, s0.clock)
    ensures Failed(Run(p, s0, es), 0)
    ensures Times(Slept, p, s0, es, 0) == MAX_CAS_RETRIES && Times(WriteFailed, p, s0, es, 0) == 0
  {
    QuietStep(p, s0, [], Start(0), s0);
    es := [] + [Start(0)];
    es := LoseRound(p, s0, es, 0);
    es := LoseRound(p, s0, es, 1);
    es := LoseRound(p, s0, es, 2);
  }

  // ----- a call that takes tokens and fails open -----

  lemma DecideHeld(p: Params, tokens: real, t: real, revision: nat)
    requires ValidParams(p) && 1.0 <= tokens <= p.capacity
    ensures Decide(p, Bucket(tokens, t), revision, t) == Write(tokens - 1.0, Some(revision))
  {
    assert Level(p.rate, tokens, t, t) == tokens;
  }

  lemma LoseAck(p: Params, s: System, tokens: real, n: nat)
    requires ValidParams(p) && 1.0 <= tokens <= p.capacity
    requires s.stored == Bucket(tokens, s.clock) && 0 in s.calls && s.calls[0] == Ready(n)
    ensures
      var t := Step(p, Step(p, Step(p, s, Get(0)), Think(0)), Put(0, LostAck));
      && t.stored == Bucket(tokens - 1.0, s.clock) && t.clock == s.clock
      && 0 in t.calls && t.calls[0] == Retry(n) && t.debits == s.debits + [Debit(0, s.clock)]
  {
    DecideHeld(p, tokens, s.clock, s.revision);
    assert Step(p, s, Get(0)) == s.(calls := s.calls[0 := Read(n, s.stored, s.revision)]);
  }

  lemma LoseAckRun(p: Params, s0: System, es: seq<Event>, tokens: real, n: nat) returns (fs: seq<Event>)
    requires ValidParams(p) && 1.0 <= tokens <= p.capacity
    requires var s := Run(p, s0, es);
             s.stored == Bucket(tokens, s.clock) && 0 in s.calls && s.calls[0] == Ready(n)
    ensures
      var s, t := Run(p, s0, es), Run(p, s0, fs);
      && t.stored == Bucket(tokens - 1.0, t.clock) && 0 in t.calls && t.calls[0] == Retry(n)
      && Taken(t.debits, 0) == Taken(s.debits, 0) + 1
  {
    var s := Run(p, s0, es);
    LoseAck(p, s, tokens, n);
    TakenSnoc(s.debits, Debit(0, s.clock), 0);
    RunSnoc(p, s0, es, Get(0));
    RunSnoc(p, s0, es + [Get(0)], Think(0));
    RunSnoc(p, s0, es + [Get(0)] + [Think(0)], Put(0, LostAck));
    fs := es + [Get(0)] + [Think(0)] + [Put(0, LostAck)];
  }

  /** From a full bucket with room for three, a call can take three tokens and still fail open. */
  lemma TakesThriceAndFailsOpen(p: Params, s0: System) returns (es: seq<Event>)
    requires ValidParams(p) && p.capacity >= 3.0 && Fresh(s0) && s0.stored == Bucket(p.capacity, s0.clock)
    ensures
      var s := Run(p, s0, es);
      Taken(s.debits, 0) == MAX_CAS_RETRIES && Failed(s, 0) && !Admits(s, 0)
  {
    RunSnoc(p, s0, [], Start(0));
    es := [] + [Start(0)];
    es := LoseAckRun(p, s0, es, p.capacity, 0);
    es := LoseAckRun(p, s0, es, p.capacity - 1.0, 1);
    es := LoseAckRun(p, s0, es, p.capacity - 2.0, 2);
  }
}
