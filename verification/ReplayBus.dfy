/**
 The in-process replay bus: a priority queue on (timestamp, publish order) whose handlers may publish while
 it drains, with wildcard routing.

 A message is known by its publish number; its envelope beyond timestamp and subject plays no part. What the
 handler of subscription `i` publishes when it gets message `m` is `react(i, m)`: since a pair (i, m) comes up
 at most once in a drain, such a function describes any handler behaviour, raising included. Handlers do not
 change the subscription list or close the bus while it drains.
 */
module ReplayBus {
  import opened Common

  // ----- subject matching -----

  /** `str.split(".")`. */
  function Split(s: string): (tokens: seq<string>)
    ensures |tokens| > 0
  {
    if s == [] then [[]]
    else
      var rest := Split(s[1..]);
      if s[0] == '.' then [[]] + rest else [[s[0]] + rest[0]] + rest[1..]
  }

  function Join(tokens: seq<string>): string
    requires |tokens| > 0
  {
    if |tokens| == 1 then tokens[0] else tokens[0] + ['.'] + Join(tokens[1..])
  }

  /** Splitting cuts at every dot and loses nothing. */
  lemma {:induction false} SplitJoin(s: string)
    ensures Join(Split(s)) == s
    ensures forall t | t in Split(s) :: '.' !in t
  {
    if s != [] {
      var rest := Split(s[1..]);
      SplitJoin(s[1..]);
      if s[0] == '.' {
        assert ([[]] + rest)[1..] == rest;
        assert Join(Split(s)) == [] + ['.'] + Join(rest);
      } else {
        var tokens := [[s[0]] + rest[0]] + rest[1..];
        assert rest[0] in rest;
        if |rest| > 1 {
          assert tokens[1..] == rest[1..];
          assert Join(tokens) == [s[0]] + rest[0] + ['.'] + Join(rest[1..]);
        }
        assert Join(tokens) == [s[0]] + Join(rest);
      }
    }
  }

  /** Token by token: `>` takes whatever is left, even nothing; `*` takes one token. */
  predicate Matches(pattern: seq<string>, subject: seq<string>) {
    if pattern == [] then subject == []
    else if pattern[0] == ">" then true
    else subject != [] && (pattern[0] == "*" || pattern[0] == subject[0]) && Matches(pattern[1..], subject[1..])
  }

  predicate SubjectMatches(pattern: string, subject: string) {
    Matches(Split(pattern), Split(subject))
  }

  predicate TokenFits(pattern: string, token: string) {
    pattern != ">" && (pattern == "*" || pattern == token)
  }

  /** The first `k` tokens fit one to one, and the pattern then ends with the subject or reaches its `>`. */
  ghost predicate FitsUpTo(pattern: seq<string>, subject: seq<string>, k: nat) {
    && k <= |pattern| && k <= |subject|
    && (forall i | 0 <= i < k :: TokenFits(pattern[i], subject[i]))
    && (if k < |pattern| then pattern[k] == ">" else k == |subject|)
  }

  /** Matching in one sentence: some leading stretch fits. */
  lemma {:induction false} MatchesIffFits(pattern: seq<string>, subject: seq<string>)
    ensures Matches(pattern, subject) <==> exists k: nat :: FitsUpTo(pattern, subject, k)
  {
    if pattern == [] || pattern[0] == ">" {
      assert Matches(pattern, subject) ==> FitsUpTo(pattern, subject, 0);
    } else if subject == [] {
    } else {
      MatchesIffFits(pattern[1..], subject[1..]);
      if Matches(pattern, subject) {
        var k: nat :| FitsUpTo(pattern[1..], subject[1..], k);
        forall i | 0 <= i < k + 1
          ensures TokenFits(pattern[i], subject[i])
        {
          if i > 0 {
            assert TokenFits(pattern[1..][i - 1], subject[1..][i - 1]);
          }
        }
        assert FitsUpTo(pattern, subject, k + 1);
      }
      if k: nat :| FitsUpTo(pattern, subject, k) {
        assert TokenFits(pattern[0], subject[0]);
        assert FitsUpTo(pattern[1..], subject[1..], k - 1);
      }
    }
  }

  lemma {:induction false} SplitTail(s: string)
    ensures Split(s + ".>") == Split(s) + [">"]
  {
    if s == [] {
      assert s + ".>" == ".>" && ".>"[1..] == ">" && ">"[1..] == [];
      assert Split([]) == [[]];
      assert ['>'] + Split([])[0] == ">";
      assert Split(">") == [">"];
    } else {
      SplitTail(s[1..]);
      assert (s + ".>")[1..] == s[1..] + ".>";
    }
  }

  lemma {:induction false} MatchesOwnTail(tokens: seq<string>)
    ensures Matches(tokens + [">"], tokens)
  {
    if tokens != [] {
      MatchesOwnTail(tokens[1..]);
      assert (tokens + [">"])[1..] == tokens[1..] + [">"];
    }
  }

  /** A tail wildcard that finds no token left still matches. */
  lemma TailTakesNothing(subject: string)
    ensures SubjectMatches(subject + ".>", subject)
  {
    SplitTail(subject);
    MatchesOwnTail(Split(subject));
  }

  /** NATS: `>` stands last and takes at least one token. */
  predicate NatsMatches(pattern: seq<string>, subject: seq<string>) {
    if pattern == [] then subject == []
    else if pattern[0] == ">" then |pattern| == 1 && subject != []
    else subject != [] && (pattern[0] == "*" || pattern[0] == subject[0]) && NatsMatches(pattern[1..], subject[1..])
  }

  /** The patterns NATS accepts as far as `>` is concerned. */
  predicate TailOnly(pattern: seq<string>) {
    forall i | 0 <= i < |pattern| - 1 :: pattern[i] != ">"
  }

  /** The pattern is one `>` longer than the subject, and the rest of it fits. */
  predicate BareTail(pattern: seq<string>, subject: seq<string>) {
    && |pattern| == |subject| + 1 && pattern[|subject|] == ">"
    && forall i | 0 <= i < |subject| :: TokenFits(pattern[i], subject[i])
  }

  /** The bus agrees with NATS on every accepted pattern and subject, except exactly where a tail finds nothing left. */
  lemma {:induction false} NatsAgreesIff(pattern: seq<string>, subject: seq<string>)
    requires TailOnly(pattern)
    ensures Matches(pattern, subject) == NatsMatches(pattern, subject) <==> !BareTail(pattern, subject)
    ensures BareTail(pattern, subject) ==> Matches(pattern, subject) && !NatsMatches(pattern, subject)
  {
    if pattern != [] && pattern[0] != ">" && subject != [] {
      NatsAgreesIff(pattern[1..], subject[1..]);
      BareTailCons(pattern, subject);
    }
  }

  lemma BareTailCons(pattern: seq<string>, subject: seq<string>)
    requires pattern != [] && subject != []
    ensures BareTail(pattern, subject) <==> TokenFits(pattern[0], subject[0]) && BareTail(pattern[1..], subject[1..])
  {
    if TokenFits(pattern[0], subject[0]) && BareTail(pattern[1..], subject[1..]) {
      forall i | 0 <= i < |subject|
        ensures TokenFits(pattern[i], subject[i])
      {
        assert i > 0 ==> TokenFits(pattern[1..][i - 1], subject[1..][i - 1]);
      }
    }
  }

  /** A `>` before the end, which NATS refuses, is accepted here, and what follows it is not looked at. */
  lemma {:induction false} RestIgnored(before: seq<string>, rest: seq<string>, subject: seq<string>)
    ensures Matches(before + [">"] + rest, subject) == Matches(before + [">"], subject)
  {
    if before != [] && before[0] != ">" && subject != [] {
      RestIgnored(before[1..], rest, subject[1..]);
      assert (before + [">"] + rest)[1..] == before[1..] + [">"] + rest;
      assert (before + [">"])[1..] == before[1..] + [">"];
    }
  }

  /** Matching of whole subjects, by their tokens. */
  ghost predicate Fits(pattern: string, subject: string) {
    exists k: nat :: FitsUpTo(Split(pattern), Split(subject), k)
  }

  lemma SubjectMatchesIffFits(pattern: string, subject: string)
    ensures SubjectMatches(pattern, subject) <==> Fits(pattern, subject)
  {
    MatchesIffFits(Split(pattern), Split(subject));
  }

  method MatchSubject(pattern: string, subject: string) returns (r: bool)
    ensures r == SubjectMatches(pattern, subject)
    ensures r <==> Fits(pattern, subject)
  {
    SubjectMatchesIffFits(pattern, subject);
    var pat, sub := Split(pattern), Split(subject);
    for i := 0 to |pat|
      invariant i <= |sub|
      invariant Matches(pat, sub) == Matches(pat[i..], sub[i..])
    {
      assert pat[i..][1..] == pat[i + 1..];
      if pat[i] == ">" {
        return true;
      }
      if i >= |sub| {
        return false;
      }
      assert sub[i..][1..] == sub[i + 1..];
      if pat[i] == "*" {
        continue;
      }
      if pat[i] != sub[i] {
        return false;
      }
    }
    return |pat| == |sub|;
  }

  // ----- the queue -----

  datatype Entry = Entry(at: real, number: nat, subject: string)

  datatype Sub = Sub(pattern: string, active: bool)

  /** One publication of a handler. */
  datatype Out = Out(at: real, subject: string)

  type React = (nat, Entry) -> seq<Out>

  /** Timestamp first, publish order second. */
  predicate Before(a: Entry, b: Entry) {
    a.at < b.at || (a.at == b.at && a.number < b.number)
  }

  /** The timestamp decides; between equal timestamps the publish number does. */
  lemma BeforeIs(a: Entry, b: Entry)
    ensures a.at < b.at ==> Before(a, b) && !Before(b, a)
    ensures a.at == b.at ==> (Before(a, b) <==> a.number < b.number)
  {
  }

  predicate Sorted(heap: seq<Entry>) {
    forall i, j | 0 <= i < j < |heap| :: Before(heap[i], heap[j])
  }

  /** `heappush` on a queue kept as the ordered list of what it will yield. */
  function Insert(heap: seq<Entry>, e: Entry): seq<Entry> {
    if heap == [] then [e]
    else if Before(e, heap[0]) then [e] + heap
    else [heap[0]] + Insert(heap[1..], e)
  }

  lemma {:induction false} InsertMembers(heap: seq<Entry>, e: Entry)
    ensures forall x :: x in Insert(heap, e) <==> x in heap || x == e
  {
    if heap != [] && !Before(e, heap[0]) {
      InsertMembers(heap[1..], e);
      assert heap == [heap[0]] + heap[1..];
    }
  }

  lemma {:induction false} InsertSorts(heap: seq<Entry>, e: Entry)
    requires Sorted(heap) && forall x | x in heap :: x.number < e.number
    ensures Sorted(Insert(heap, e))
  {
    if heap != [] && !Before(e, heap[0]) {
      assert forall x | x in heap[1..] :: x in heap;
      InsertSorts(heap[1..], e);
      InsertMembers(heap[1..], e);
      assert heap[0] in heap && Before(heap[0], e);
      var rest := Insert(heap[1..], e);
      forall i | 0 <= i < |rest|
        ensures Before(heap[0], rest[i])
      {
        assert rest[i] in rest;
      }
    }
  }

  /** How often message number `q` occurs in `es`. */
  function Occurs(es: seq<Entry>, q: nat): nat {
    if es == [] then 0 else (if es[0].number == q then 1 else 0) + Occurs(es[1..], q)
  }

  datatype Bus = Bus(heap: seq<Entry>, subs: seq<Sub>, next: nat, closed: bool)

  ghost predicate Valid(b: Bus) {
    && Sorted(b.heap)
    && (forall x | x in b.heap :: x.number < b.next)
    && (forall q: nat :: Occurs(b.heap, q) <= 1)
    && (b.closed ==> b.heap == [] && b.subs == [])
  }

  function Publish(b: Bus, o: Out): Bus {
    b.(heap := Insert(b.heap, Entry(o.at, b.next, o.subject)), next := b.next + 1)
  }

  function PublishAll(b: Bus, outs: seq<Out>): Bus {
    if outs == [] then b else Publish(PublishAll(b, outs[..|outs| - 1]), outs[|outs| - 1])
  }

  predicate Fires(s: Sub, m: Entry) {
    s.active && SubjectMatches(s.pattern, m.subject)
  }

  /** An active subscription whose pattern fits the subject. */
  ghost predicate Gets(s: Sub, m: Entry) {
    s.active && Fits(s.pattern, m.subject)
  }

  lemma FiresIffGets(s: Sub, m: Entry)
    ensures Fires(s, m) <==> Gets(s, m)
  {
    SubjectMatchesIffFits(s.pattern, m.subject);
  }

  /** Everything the handlers of the first `n` subscriptions publish on `m`. */
  function Outs(react: React, subs: seq<Sub>, m: Entry, n: nat): seq<Out>
    requires n <= |subs|
  {
    if n == 0 then []
    else
      var before := Outs(react, subs, m, n - 1);
      if Fires(subs[n - 1], m) then before + react(n - 1, m) else before
  }

  /** The bus between taking a message and running its handlers. */
  function Popped(b: Bus): Bus
    requires b.heap != []
  {
    b.(heap := b.heap[1..])
  }

  /** The bus after taking its first message and running its handlers. */
  function After(react: React, b: Bus): Bus
    requires b.heap != []
  {
    PublishAll(Popped(b), Outs(react, b.subs, b.heap[0], |b.subs|))
  }

  /** The messages taken by a drain, in order, and the bus they leave. */
  datatype Drained = Drained(taken: seq<Entry>, bus: Bus)

  /** Up to `n` rounds of the drain loop. */
  function Drain(react: React, b: Bus, n: nat): Drained
    decreases n
  {
    if n == 0 || b.heap == [] then Drained([], b)
    else
      var d := Drain(react, After(react, b), n - 1);
      Drained([b.heap[0]] + d.taken, d.bus)
  }

  // ----- pushing -----

  function Issued(q: nat, lo: nat, hi: nat): nat {
    if lo <= q < hi then 1 else 0
  }

  lemma OccursCons(m: Entry, es: seq<Entry>, q: nat)
    ensures Occurs([m] + es, q) == (if m.number == q then 1 else 0) + Occurs(es, q)
  {
    assert ([m] + es)[1..] == es;
  }

  lemma {:induction false} InsertOccurs(heap: seq<Entry>, e: Entry, q: nat)
    ensures Occurs(Insert(heap, e), q) == Occurs(heap, q) + (if e.number == q then 1 else 0)
  {
    if heap == [] || Before(e, heap[0]) {
      OccursCons(e, heap, q);
    } else {
      InsertOccurs(heap[1..], e, q);
      OccursCons(heap[0], Insert(heap[1..], e), q);
    }
  }

  lemma PublishFacts(b: Bus, o: Out)
    requires Valid(b) && !b.closed
    ensures
      var c := Publish(b, o);
      && Valid(c)
      && (forall x :: x in c.heap <==> x in b.heap || x == Entry(o.at, b.next, o.subject))
  {
    var e := Entry(o.at, b.next, o.subject);
    InsertMembers(b.heap, e);
    InsertSorts(b.heap, e);
    forall q: nat
      ensures Occurs(Insert(b.heap, e), q) <= 1
    {
      InsertOccurs(b.heap, e, q);
      if q == b.next {
        OccursNot(b.heap, q);
      }
    }
  }

  lemma {:induction false} PublishAllValid(b: Bus, outs: seq<Out>)
    requires Valid(b) && !b.closed
    ensures
      var c := PublishAll(b, outs);
      Valid(c) && c.subs == b.subs && !c.closed && c.next == b.next + |outs|
  {
    if outs != [] {
      PublishAllValid(b, outs[..|outs| - 1]);
      PublishFacts(PublishAll(b, outs[..|outs| - 1]), outs[|outs| - 1]);
    }
  }

  lemma {:induction false} PublishAllOccurs(b: Bus, outs: seq<Out>, q: nat)
    ensures PublishAll(b, outs).next == b.next + |outs|
    ensures Occurs(PublishAll(b, outs).heap, q) == Occurs(b.heap, q) + Issued(q, b.next, b.next + |outs|)
  {
    if outs != [] {
      var init, o := outs[..|outs| - 1], outs[|outs| - 1];
      PublishAllOccurs(b, init, q);
      var c := PublishAll(b, init);
      InsertOccurs(c.heap, Entry(o.at, c.next, o.subject), q);
    }
  }

  /** Whether `x` is one of the publications `outs` made on `b`. */
  predicate FromOuts(b: Bus, outs: seq<Out>, x: Entry) {
    x.number >= b.next && Out(x.at, x.subject) in outs
  }

  lemma {:induction false} PublishAllMembers(b: Bus, outs: seq<Out>)
    requires Valid(b) && !b.closed
    ensures
      var c := PublishAll(b, outs);
      && (forall x | x in b.heap :: x in c.heap)
      && (forall x | x in c.heap :: x in b.heap || FromOuts(b, outs, x))
  {
    if outs != [] {
      var init := outs[..|outs| - 1];
      assert outs == init + [outs[|outs| - 1]];
      PublishAllValid(b, init);
      PublishAllMembers(b, init);
      PublishFacts(PublishAll(b, init), outs[|outs| - 1]);
    }
  }

  lemma {:induction false} PublishAllHas(b: Bus, outs: seq<Out>, o: Out) returns (x: Entry)
    requires Valid(b) && !b.closed && o in outs
    ensures x in PublishAll(b, outs).heap && Out(x.at, x.subject) == o
  {
    var init, last := outs[..|outs| - 1], outs[|outs| - 1];
    assert outs == init + [last];
    PublishAllValid(b, init);
    PublishFacts(PublishAll(b, init), last);
    if o == last {
      x := Entry(o.at, PublishAll(b, init).next, o.subject);
    } else {
      x := PublishAllHas(b, init, o);
    }
  }

  lemma PoppedValid(b: Bus)
    requires Valid(b) && b.heap != []
    ensures Valid(Popped(b)) && !Popped(b).closed
  {
    assert forall x | x in Popped(b).heap :: x in b.heap;
    forall q: nat
      ensures Occurs(Popped(b).heap, q) <= 1
    {
      assert Occurs(b.heap, q) <= 1;
    }
  }

  lemma AfterValid(react: React, b: Bus)
    requires Valid(b) && b.heap != []
    ensures
      var c := After(react, b);
      Valid(c) && c.subs == b.subs && !c.closed && b.next <= c.next
  {
    PoppedValid(b);
    PublishAllValid(Popped(b), Outs(react, b.subs, b.heap[0], |b.subs|));
  }

  // ----- conservation: every message is taken exactly once -----

  lemma {:induction false} DrainValid(react: React, b: Bus, n: nat)
    requires Valid(b)
    ensures
      var d := Drain(react, b, n);
      Valid(d.bus) && d.bus.subs == b.subs && b.next <= d.bus.next && d.bus.closed == b.closed
    decreases n
  {
    if n > 0 && b.heap != [] {
      AfterValid(react, b);
      DrainValid(react, After(react, b), n - 1);
    }
  }

  /** One round moves one message from the queue to the taken ones and adds what its handlers published. */
  lemma AfterOccurs(react: React, b: Bus, q: nat)
    requires b.heap != []
    ensures b.next <= After(react, b).next
    ensures Occurs(After(react, b).heap, q) + (if b.heap[0].number == q then 1 else 0)
         == Occurs(b.heap, q) + Issued(q, b.next, After(react, b).next)
  {
    PublishAllOccurs(Popped(b), Outs(react, b.subs, b.heap[0], |b.subs|), q);
  }

  lemma {:induction false} DrainIssues(react: React, b: Bus, n: nat)
    ensures b.next <= Drain(react, b, n).bus.next
    decreases n
  {
    if n > 0 && b.heap != [] {
      AfterOccurs(react, b, 0);
      DrainIssues(react, After(react, b), n - 1);
    }
  }

  /** After any number of rounds: taken + still queued = queued at first + published since, number by number. */
  lemma {:induction false} EveryMessageOnce(react: React, b: Bus, n: nat, q: nat)
    ensures
      var d := Drain(react, b, n);
      Occurs(d.taken, q) + Occurs(d.bus.heap, q) == Occurs(b.heap, q) + Issued(q, b.next, d.bus.next)
    decreases n
  {
    if n > 0 && b.heap != [] {
      var c := After(react, b);
      DrainIssues(react, c, n - 1);
      EveryMessageOnce(react, c, n - 1, q);
      AfterOccurs(react, b, q);
      OccursCons(b.heap[0], Drain(react, c, n - 1).taken, q);
    }
  }

  // ----- order -----

  predicate InOrder(taken: seq<Entry>) {
    forall k | 0 <= k < |taken| - 1 :: Before(taken[k], taken[k + 1])
  }

  /** No handler of a taken message published something dated earlier than that message. */
  predicate NoneBackdated(react: React, subs: seq<Sub>, taken: seq<Entry>) {
    forall m | m in taken :: Timely(react, subs, m)
  }

  predicate Timely(react: React, subs: seq<Sub>, m: Entry) {
    forall o | o in Outs(react, subs, m, |subs|) :: o.at >= m.at
  }

  /** If the handlers of the first message are timely, the next message comes after it; if not, it comes before. */
  lemma NextInOrder(react: React, b: Bus)
    requires Valid(b) && b.heap != []
    ensures
      var m, c := b.heap[0], After(react, b);
      && (Timely(react, b.subs, m) && c.heap != [] ==> Before(m, c.heap[0]))
      && (!Timely(react, b.subs, m) ==> c.heap != [] && !Before(m, c.heap[0]))
  {
    var m, c := b.heap[0], After(react, b);
    var outs := Outs(react, b.subs, m, |b.subs|);
    PoppedValid(b);
    PublishAllMembers(Popped(b), outs);
    AfterValid(react, b);
    if Timely(react, b.subs, m) {
      if c.heap != [] {
        var x := c.heap[0];
        assert x in c.heap && m in b.heap;
        assert x in Popped(b).heap || FromOuts(Popped(b), outs, x);
      }
    } else {
      var o :| o in outs && o.at < m.at;
      var x := PublishAllHas(Popped(b), outs, o);
      var i :| 0 <= i < |c.heap| && c.heap[i] == x;
      assert i == 0 || Before(c.heap[0], c.heap[i]);
    }
  }

  lemma InOrderCons(m: Entry, rest: seq<Entry>)
    ensures InOrder([m] + rest) <==> InOrder(rest) && (rest != [] ==> Before(m, rest[0]))
  {
    var taken := [m] + rest;
    assert forall k | 0 <= k < |rest| :: taken[k + 1] == rest[k];
    if InOrder(taken) {
      forall k | 0 <= k < |rest| - 1
        ensures Before(rest[k], rest[k + 1])
      {
        assert Before(taken[k + 1], taken[k + 1 + 1]);
      }
      assert rest != [] ==> Before(taken[0], taken[0 + 1]);
    }
  }

  lemma BackdatedCons(react: React, subs: seq<Sub>, m: Entry, rest: seq<Entry>)
    ensures NoneBackdated(react, subs, [m] + rest) <==> Timely(react, subs, m) && NoneBackdated(react, subs, rest)
  {
    assert forall x :: x in [m] + rest <==> x == m || x in rest;
  }

  /** The rounds taken so far come in (timestamp, publish order) if no handler backdates; over a whole drain, iff. */
  lemma {:induction false} DeliversInOrder(react: React, b: Bus, n: nat)
    requires Valid(b)
    ensures NoneBackdated(react, b.subs, Drain(react, b, n).taken) ==> InOrder(Drain(react, b, n).taken)
    ensures Drain(react, b, n).bus.heap == [] ==>
              (NoneBackdated(react, b.subs, Drain(react, b, n).taken) <==> InOrder(Drain(react, b, n).taken))
    decreases n
  {
    if n > 0 && b.heap != [] {
      var c := After(react, b);
      AfterValid(react, b);
      NextInOrder(react, b);
      DeliversInOrder(react, c, n - 1);
      var d := Drain(react, c, n - 1);
      InOrderCons(b.heap[0], d.taken);
      BackdatedCons(react, b.subs, b.heap[0], d.taken);
      assert d.taken != [] ==> d.taken[0] == c.heap[0];
    }
  }

  // ----- termination -----

  function Power(base: nat, exp: nat): (p: nat)
    ensures base > 0 ==> p > 0
  {
    if exp == 0 then 1 else base * Power(base, exp - 1)
  }

  type Ranking = string -> nat

  /** Handlers of one message publish at most `bound` messages together, each of smaller rank. */
  ghost predicate Ranked(react: React, subs: seq<Sub>, rank: Ranking, bound: nat) {
    forall m: Entry ::
      var outs := Outs(react, subs, m, |subs|);
      |outs| <= bound && forall o | o in outs :: rank(o.subject) < rank(m.subject)
  }

  function Weight(rank: Ranking, bound: nat, heap: seq<Entry>): nat {
    if heap == [] then 0 else Power(bound + 1, rank(heap[0].subject)) + Weight(rank, bound, heap[1..])
  }

  lemma {:induction false} InsertWeight(rank: Ranking, bound: nat, heap: seq<Entry>, e: Entry)
    ensures Weight(rank, bound, Insert(heap, e)) == Weight(rank, bound, heap) + Power(bound + 1, rank(e.subject))
  {
    if heap == [] || Before(e, heap[0]) {
      assert ([e] + heap)[1..] == heap;
    } else {
      InsertWeight(rank, bound, heap[1..], e);
      assert ([heap[0]] + Insert(heap[1..], e))[1..] == Insert(heap[1..], e);
    }
  }

  lemma {:induction false} PowerMono(base: nat, a: nat, b: nat)
    requires base > 0 && a <= b
    ensures Power(base, a) <= Power(base, b)
  {
    if a < b {
      PowerMono(base, a, b - 1);
      assert Power(base, b) == base * Power(base, b - 1);
    }
  }

  lemma OneMore(k: nat, p: nat)
    ensures (k + 1) * p == k * p + p
  {
  }

  lemma {:induction false} PublishWeight(rank: Ranking, bound: nat, b: Bus, outs: seq<Out>, r: nat)
    requires forall o | o in outs :: rank(o.subject) < r + 1
    ensures Weight(rank, bound, PublishAll(b, outs).heap) <= Weight(rank, bound, b.heap) + |outs| * Power(bound + 1, r)
  {
    if outs != [] {
      var init, o := outs[..|outs| - 1], outs[|outs| - 1];
      assert outs == init + [o] && o in outs;
      PublishWeight(rank, bound, b, init, r);
      var c := PublishAll(b, init);
      InsertWeight(rank, bound, c.heap, Entry(o.at, c.next, o.subject));
      PowerMono(bound + 1, rank(o.subject), r);
      OneMore(|init|, Power(bound + 1, r));
    }
  }

  lemma FewerOuts(k: nat, bound: nat, p: nat)
    requires k <= bound && p > 0
    ensures k * p < (bound + 1) * p
  {
    assert (bound + 1 - k) * p > 0;
    assert (bound + 1) * p == k * p + (bound + 1 - k) * p;
  }

  /** Each round lowers the weight of the queue. */
  lemma RoundLowersWeight(react: React, b: Bus, rank: Ranking, bound: nat)
    requires b.heap != [] && Ranked(react, b.subs, rank, bound)
    ensures Weight(rank, bound, After(react, b).heap) < Weight(rank, bound, b.heap)
  {
    var m := b.heap[0];
    var outs := Outs(react, b.subs, m, |b.subs|);
    var r := rank(m.subject);
    if outs == [] {
      assert After(react, b) == Popped(b);
    } else {
      assert outs[0] in outs;
      PublishWeight(rank, bound, Popped(b), outs, r - 1);
      FewerOuts(|outs|, bound, Power(bound + 1, r - 1));
    }
  }

  /** A drain whose handlers obey a ranking empties the queue within its weight in rounds. */
  lemma {:induction false} DrainTerminates(react: React, b: Bus, rank: Ranking, bound: nat, n: nat)
    requires Valid(b) && Ranked(react, b.subs, rank, bound) && n >= Weight(rank, bound, b.heap)
    ensures Drain(react, b, n).bus.heap == []
    decreases n
  {
    if b.heap != [] {
      AfterValid(react, b);
      RoundLowersWeight(react, b, rank, bound);
      DrainTerminates(react, After(react, b), rank, bound, n - 1);
    }
  }

  // ----- the bus itself -----

  datatype Delivery = Delivery(message: Entry, sub: nat)

  /** The subscriptions among the first `n` that get `m`. */
  function Receivers(subs: seq<Sub>, m: Entry, n: nat): seq<Delivery>
    requires n <= |subs|
  {
    if n == 0 then []
    else
      var before := Receivers(subs, m, n - 1);
      if Fires(subs[n - 1], m) then before + [Delivery(m, n - 1)] else before
  }

  function Log(subs: seq<Sub>, taken: seq<Entry>): seq<Delivery> {
    if taken == [] then [] else Receivers(subs, taken[0], |subs|) + Log(subs, taken[1..])
  }

  lemma {:induction false} ReceiversOnce(subs: seq<Sub>, m: Entry, n: nat, d: Delivery)
    requires n <= |subs|
    ensures multiset(Receivers(subs, m, n))[d] == if d.message == m && d.sub < n && Gets(subs[d.sub], m) then 1 else 0
  {
    if n > 0 {
      ReceiversOnce(subs, m, n - 1, d);
      FiresIffGets(subs[n - 1], m);
    }
  }

  /** Subscriptions below `n`, in order. */
  predicate Ascending(rs: seq<Delivery>, n: nat) {
    && (forall i | 0 <= i < |rs| :: rs[i].sub < n)
    && (forall i, j | 0 <= i < j < |rs| :: rs[i].sub < rs[j].sub)
  }

  lemma AscendingSnoc(rs: seq<Delivery>, d: Delivery, n: nat)
    requires Ascending(rs, n)
    ensures Ascending(rs, n + 1) && (d.sub == n ==> Ascending(rs + [d], n + 1))
  {
  }

  /** Receivers get the message in the order of their subscriptions. */
  lemma {:induction false} ReceiversInOrder(subs: seq<Sub>, m: Entry, n: nat)
    requires n <= |subs|
    ensures Ascending(Receivers(subs, m, n), n)
  {
    if n > 0 {
      ReceiversInOrder(subs, m, n - 1);
      AscendingSnoc(Receivers(subs, m, n - 1), Delivery(m, n - 1), n - 1);
    }
  }

  /** What the handlers publish is the publications of each receiver, one receiver after another. */
  lemma {:induction false} OutsInOrder(react: React, subs: seq<Sub>, m: Entry, n: nat, i: nat)
    requires i < n <= |subs|
    ensures
      var before, all := |Outs(react, subs, m, i)|, Outs(react, subs, m, n);
      var own := if Gets(subs[i], m) then react(i, m) else [];
      && before + |own| <= |all| && all[before..before + |own|] == own
      && (i == n - 1 ==> |all| == before + |own|) && (i == 0 ==> before == 0)
  {
    if i == n - 1 {
      FiresIffGets(subs[i], m);
    } else {
      OutsInOrder(react, subs, m, n - 1, i);
    }
  }

  /** Publications are numbered in the order they are made. */
  lemma {:induction false} NumberedInOrder(b: Bus, outs: seq<Out>, k: nat)
    requires k < |outs|
    ensures Entry(outs[k].at, b.next + k, outs[k].subject) in PublishAll(b, outs).heap
  {
    var init := outs[..|outs| - 1];
    var c := PublishAll(b, init);
    PublishAllOccurs(b, init, 0);
    var o := outs[|outs| - 1];
    InsertMembers(c.heap, Entry(o.at, c.next, o.subject));
    if k < |init| {
      NumberedInOrder(b, init, k);
    }
  }

  /** A taken message goes once to each active matching subscription and to nobody else. */
  lemma {:induction false} LogOnce(subs: seq<Sub>, taken: seq<Entry>, d: Delivery)
    ensures multiset(Log(subs, taken))[d]
         == if d.sub < |subs| && Gets(subs[d.sub], d.message) then multiset(taken)[d.message] else 0
  {
    if taken != [] {
      ReceiversOnce(subs, taken[0], |subs|, d);
      LogOnce(subs, taken[1..], d);
      assert taken == [taken[0]] + taken[1..];
    }
  }

  lemma {:induction false} OccursNot(es: seq<Entry>, q: nat)
    requires forall i | 0 <= i < |es| :: es[i].number != q
    ensures Occurs(es, q) == 0
  {
    if es != [] {
      OccursNot(es[1..], q);
    }
  }

  lemma {:induction false} CountedByNumber(es: seq<Entry>, m: Entry)
    ensures multiset(es)[m] <= Occurs(es, m.number)
  {
    if es != [] {
      CountedByNumber(es[1..], m);
      assert es == [es[0]] + es[1..];
    }
  }

  lemma {:induction false} OccursWitness(es: seq<Entry>, q: nat) returns (m: Entry)
    requires Occurs(es, q) > 0
    ensures m in es && m.number == q
  {
    if es[0].number == q {
      m := es[0];
    } else {
      m := OccursWitness(es[1..], q);
    }
  }

  /**
   Over a whole drain, each message that was queued or got published is taken, and reaches each subscription
   that is active and matches it exactly once, and no other.
   */
  lemma DeliveredExactlyOnce(react: React, b: Bus, n: nat, q: nat) returns (m: Entry)
    requires Valid(b) && Drain(react, b, n).bus.heap == []
    requires (exists x :: x in b.heap && x.number == q) || b.next <= q < Drain(react, b, n).bus.next
    ensures m in Drain(react, b, n).taken && m.number == q
    ensures forall sub: nat :: multiset(Log(b.subs, Drain(react, b, n).taken))[Delivery(m, sub)]
                            == if sub < |b.subs| && Gets(b.subs[sub], m) then 1 else 0
  {
    var d := Drain(react, b, n);
    EveryMessageOnce(react, b, n, q);
    if q >= b.next {
      OccursNot(b.heap, q);
    }
    assert Occurs(b.heap, q) <= 1;
    if x :| x in b.heap && x.number == q {
      OccursSome(b.heap, x);
    }
    m := OccursWitness(d.taken, q);
    CountedByNumber(d.taken, m);
    assert m in multiset(d.taken);
    forall sub: nat
      ensures multiset(Log(b.subs, d.taken))[Delivery(m, sub)]
           == if sub < |b.subs| && Gets(b.subs[sub], m) then 1 else 0
    {
      LogOnce(b.subs, d.taken, Delivery(m, sub));
    }
  }

  lemma {:induction false} OccursSome(es: seq<Entry>, x: Entry)
    requires x in es
    ensures Occurs(es, x.number) > 0
  {
    if es[0] != x {
      OccursSome(es[1..], x);
    }
  }

  class Replay {
    var heap: seq<Entry>
    var subs: seq<Sub>
    var next: nat
    var closed: bool
    var log: seq<Delivery>

    function Abs(): Bus
      reads this
    {
      Bus(heap, subs, next, closed)
    }

    constructor ()
      ensures Valid(Abs()) && Abs() == Bus([], [], 0, false) && log == []
    {
      heap, subs, next, closed, log := [], [], 0, false, [];
    }

    /** RuntimeError on a closed bus. */
    method PublishTo(o: Out) returns (r: Result<(), string>)
      requires Valid(Abs())
      modifies this`heap, this`next
      ensures Valid(Abs())
      ensures closed ==> r.Err? && Abs() == old(Abs())
      ensures !closed ==> r.Ok? && Abs() == Publish(old(Abs()), o)
    {
      if closed {
        return Err("ReplayBus: publish on closed bus");
      }
      PublishFacts(Abs(), o);
      heap := Insert(heap, Entry(o.at, next, o.subject));
      next := next + 1;
      return Ok(());
    }

    method Subscribe(pattern: string) returns (r: Result<nat, string>)
      requires Valid(Abs())
      modifies this`subs
      ensures Valid(Abs())
      ensures closed ==> r.Err? && Abs() == old(Abs())
      ensures !closed ==> r == Ok(|old(subs)|) && Abs() == old(Abs()).(subs := old(subs) + [Sub(pattern, true)])
    {
      if closed {
        return Err("ReplayBus: subscribe on closed bus");
      }
      r := Ok(|subs|);
      subs := subs + [Sub(pattern, true)];
    }

    method Close()
      requires Valid(Abs())
      modifies this
      ensures Valid(Abs()) && closed && log == old(log)
      ensures old(closed) ==> Abs() == old(Abs())
      ensures !old(closed) ==> Abs() == Bus([], [], old(next), true)
    {
      if closed {
        return;
      }
      closed := true;
      subs, heap := [], [];
    }

    /** One handler call: everything it publishes is pushed, in order. */
    method Handle(outs: seq<Out>)
      requires Valid(Abs()) && !closed
      modifies this`heap, this`next
      ensures Valid(Abs()) && Abs() == PublishAll(old(Abs()), outs)
    {
      for i := 0 to |outs|
        invariant Valid(Abs()) && !closed
        invariant Abs() == PublishAll(old(Abs()), outs[..i])
      {
        assert outs[..i + 1][..i] == outs[..i];
        var _ := PublishTo(outs[i]);
      }
      assert outs[..|outs|] == outs;
    }

    /** Offer `m` to subscription `i`. */
    method Offer(react: React, m: Entry, i: nat)
      requires Valid(Abs()) && i < |subs|
      modifies this`heap, this`next, this`log
      ensures Valid(Abs())
      ensures Abs() == if Gets(subs[i], m) then PublishAll(old(Abs()), react(i, m)) else old(Abs())
      ensures log == old(log) + if Gets(subs[i], m) then [Delivery(m, i)] else []
    {
      if !subs[i].active {
        return;
      }
      var matches := MatchSubject(subs[i].pattern, m.subject);
      if matches {
        log := log + [Delivery(m, i)];
        Handle(react(i, m));
      }
    }

    /** A round in progress: `m` was offered to the first `i` subscriptions of the bus `rest` it left behind. */
    ghost predicate Offered(react: React, rest: Bus, first: seq<Delivery>, m: Entry, i: nat)
      reads this
    {
      && Valid(Abs()) && i <= |subs| && rest.subs == subs
      && Abs() == PublishAll(rest, Outs(react, subs, m, i))
      && log == first + Receivers(subs, m, i)
    }

    method OfferNext(react: React, ghost rest: Bus, ghost first: seq<Delivery>, m: Entry, i: nat)
      requires Offered(react, rest, first, m, i) && i < |subs|
      modifies this`heap, this`next, this`log
      ensures Offered(react, rest, first, m, i + 1)
    {
      FiresIffGets(subs[i], m);
      PublishAllConcat(rest, Outs(react, subs, m, i), react(i, m));
      Offer(react, m, i);
    }

    /** Offer the message just taken to each subscription in turn. */
    method OfferAll(react: React, ghost rest: Bus, ghost first: seq<Delivery>, m: Entry)
      requires Valid(Abs()) && Abs() == rest && log == first
      modifies this`heap, this`next, this`log
      ensures Offered(react, rest, first, m, |subs|)
    {
      for i := 0 to |subs|
        invariant Offered(react, rest, first, m, i)
      {
        OfferNext(react, rest, first, m, i);
      }
    }

    /** One round: take the first message and offer it to each subscription in turn. */
    method Round(react: React)
      requires Valid(Abs()) && heap != []
      modifies this`heap, this`next, this`log
      ensures Valid(Abs()) && Abs() == After(react, old(Abs()))
      ensures log == old(log) + Receivers(old(subs), old(heap)[0], |old(subs)|)
    {
      var m := heap[0];
      PoppedValid(Abs());
      ghost var rest, first := Popped(Abs()), log;
      heap := heap[1..];
      OfferAll(react, rest, first, m);
    }

    /** The state of a drain that began at `start` with the log at `first` and took `taken` in `rounds` rounds. */
    ghost predicate Draining(react: React, start: Bus, first: seq<Delivery>, rounds: nat, taken: seq<Entry>)
      reads this
    {
      && Valid(Abs()) && start.subs == subs
      && Drain(react, start, rounds) == Drained(taken, Abs())
      && log == first + Log(subs, taken)
    }

    method RoundOf(
        react: React, ghost start: Bus, ghost first: seq<Delivery>, ghost rounds: nat, ghost taken: seq<Entry>)
      requires Draining(react, start, first, rounds, taken) && heap != []
      modifies this`heap, this`next, this`log
      ensures Draining(react, start, first, rounds + 1, taken + [old(heap)[0]])
      ensures Abs() == After(react, old(Abs()))
    {
      DrainSnoc(react, start, rounds);
      LogSnoc(subs, taken, heap[0]);
      Round(react);
    }

    /**
     The drain. It returns exactly on those buses that some number of rounds empties (`DrainTerminates` gives such a
     number for handlers that obey a ranking), and then every message was taken once, each active matching
     subscription got it once, and the order was that of the timestamps iff nothing was backdated.
     */
    method RunUntilEmpty(react: React, ghost limit: nat) returns (ghost taken: seq<Entry>)
      requires Valid(Abs()) && Drain(react, Abs(), limit).bus.heap == []
      modifies this`heap, this`next, this`log
      ensures Valid(Abs()) && heap == []
      ensures Drain(react, old(Abs()), limit) == Drained(taken, Abs())
      ensures forall q: nat :: Occurs(taken, q) == Occurs(old(heap), q) + Issued(q, old(next), next)
      ensures log == old(log) + Log(subs, taken)
      ensures InOrder(taken) <==> NoneBackdated(react, subs, taken)
    {
      ghost var start, first := Abs(), log;
      ghost var rounds := 0;
      taken := [];
      while heap != []
        invariant rounds <= limit && Draining(react, start, first, rounds, taken)
        decreases limit - rounds
      {
        ghost var m := heap[0];
        RoundOf(react, start, first, rounds, taken);
        taken := taken + [m];
        rounds := rounds + 1;
      }
      WholeDrain(react, start, rounds);
      DrainRests(react, start, rounds, limit);
    }
  }

  /** Once the queue is empty more rounds change nothing. */
  lemma {:induction false} DrainRests(react: React, b: Bus, n: nat, limit: nat)
    requires n <= limit && Drain(react, b, n).bus.heap == []
    ensures Drain(react, b, limit) == Drain(react, b, n)
    decreases n
  {
    if n > 0 && b.heap != [] {
      DrainRests(react, After(react, b), n - 1, limit - 1);
    }
  }

  lemma WholeDrain(react: React, b: Bus, n: nat)
    requires Valid(b) && Drain(react, b, n).bus.heap == []
    ensures
      var d := Drain(react, b, n);
      && (forall q: nat :: Occurs(d.taken, q) == Occurs(b.heap, q) + Issued(q, b.next, d.bus.next))
      && (InOrder(d.taken) <==> NoneBackdated(react, b.subs, d.taken))
  {
    forall q: nat
      ensures Occurs(Drain(react, b, n).taken, q) == Occurs(b.heap, q) + Issued(q, b.next, Drain(react, b, n).bus.next)
    {
      EveryMessageOnce(react, b, n, q);
    }
    DeliversInOrder(react, b, n);
  }

  lemma {:induction false} PublishAllConcat(b: Bus, xs: seq<Out>, ys: seq<Out>)
    ensures PublishAll(b, xs + ys) == PublishAll(PublishAll(b, xs), ys)
  {
    if ys == [] {
      assert xs + ys == xs;
    } else {
      assert (xs + ys)[..|xs + ys| - 1] == xs + ys[..|ys| - 1];
      PublishAllConcat(b, xs, ys[..|ys| - 1]);
    }
  }

  /** One more round at the end. */
  lemma {:induction false} DrainSnoc(react: React, b: Bus, n: nat)
    requires Drain(react, b, n).bus.heap != []
    ensures
      var d := Drain(react, b, n);
      Drain(react, b, n + 1) == Drained(d.taken + [d.bus.heap[0]], After(react, d.bus))
    decreases n
  {
    if n == 0 {
      assert Drain(react, After(react, b), 0) == Drained([], After(react, b));
    } else {
      var c := After(react, b);
      DrainSnoc(react, c, n - 1);
      var d := Drain(react, c, n - 1);
      assert [b.heap[0]] + (d.taken + [d.bus.heap[0]]) == [b.heap[0]] + d.taken + [d.bus.heap[0]];
    }
  }

  lemma {:induction false} LogSnoc(subs: seq<Sub>, taken: seq<Entry>, m: Entry)
    ensures Log(subs, taken + [m]) == Log(subs, taken) + Receivers(subs, m, |subs|)
  {
    if taken == [] {
      assert taken + [m] == [m];
    } else {
      assert (taken + [m])[1..] == taken[1..] + [m];
      LogSnoc(subs, taken[1..], m);
    }
  }
}
