/**
 REST gap-fill of one symbol's 1-minute candles. Instants are minutes. The source is what the exchange holds, the
 table what is stored for the symbol; requests and writes succeed.
 */
module Backfill {
  import opened Common

  /** Candles by bucket start. */
  type Candles<D> = map<int, D>

  /** The first `limit` candles in [cursor, end], both ends included: one REST page. */
  function Page<D>(source: Candles<D>, cursor: int, end: int, limit: nat): seq<int>
    decreases end - cursor + 1
  {
    if cursor > end || limit == 0 then []
    else if cursor in source then [cursor] + Page(source, cursor + 1, end, limit - 1)
    else Page(source, cursor + 1, end, limit)
  }

  /** How many candles lie in [lo, hi]. */
  function CountIn<D>(source: Candles<D>, lo: int, hi: int): nat
    decreases hi - lo + 1
  {
    if lo > hi then 0 else CountIn(source, lo, hi - 1) + (if hi in source then 1 else 0)
  }

  lemma {:induction false} CountSplit<D>(source: Candles<D>, lo: int, mid: int, hi: int)
    requires lo <= mid <= hi + 1
    ensures CountIn(source, lo, hi) == CountIn(source, lo, mid - 1) + CountIn(source, mid, hi)
    decreases hi - mid + 1
  {
    if mid <= hi {
      CountSplit(source, lo, mid, hi - 1);
    }
  }

  lemma {:induction false} CountFirst<D>(source: Candles<D>, lo: int, hi: int)
    requires lo <= hi
    ensures CountIn(source, lo, hi) == (if lo in source then 1 else 0) + CountIn(source, lo + 1, hi)
    decreases hi - lo
  {
    CountSplit(source, lo, lo + 1, hi);
  }

  /** `page` holds exactly the candles from the cursor to its last one; a short page holds all that is left. */
  ghost predicate IsPage<D>(source: Candles<D>, cursor: int, end: int, limit: nat, page: seq<int>) {
    && |page| <= limit
    && (page == [] <==> CountIn(source, cursor, end) == 0)
    && (|page| < limit ==> |page| == CountIn(source, cursor, end))
    && (forall i | 0 <= i < |page| :: page[i] in source)
    && (page != [] ==> Covers(source, cursor, page[|page| - 1], page) && cursor <= page[|page| - 1] <= end)
  }

  /** `page` lists the candles of [lo, hi], each once. */
  ghost predicate Covers<D>(source: Candles<D>, lo: int, hi: int, page: seq<int>) {
    |page| == CountIn(source, lo, hi) && forall t :: t in page <==> lo <= t <= hi && t in source
  }

  lemma CoversSkip<D>(source: Candles<D>, lo: int, hi: int, page: seq<int>)
    requires lo !in source && lo < hi && Covers(source, lo + 1, hi, page)
    ensures Covers(source, lo, hi, page)
  {
    CountFirst(source, lo, hi);
  }

  lemma CoversTake<D>(source: Candles<D>, lo: int, hi: int, page: seq<int>)
    requires lo in source && lo <= hi && Covers(source, lo + 1, hi, page)
    ensures Covers(source, lo, hi, [lo] + page)
  {
    CountFirst(source, lo, hi);
    assert forall t :: t in [lo] + page <==> t == lo || t in page;
  }

  lemma PageSkips<D>(source: Candles<D>, cursor: int, end: int, limit: nat, page: seq<int>)
    requires cursor <= end && cursor !in source && IsPage(source, cursor + 1, end, limit, page)
    ensures IsPage(source, cursor, end, limit, page)
  {
    CountFirst(source, cursor, end);
    if page != [] {
      CoversSkip(source, cursor, page[|page| - 1], page);
    }
  }

  lemma PageTakes<D>(source: Candles<D>, cursor: int, end: int, limit: nat, rest: seq<int>)
    requires cursor <= end && cursor in source && IsPage(source, cursor + 1, end, limit, rest)
    ensures IsPage(source, cursor, end, limit + 1, [cursor] + rest)
  {
    CountFirst(source, cursor, end);
    var page := [cursor] + rest;
    if rest == [] {
      CoversTake(source, cursor, cursor, rest);
      assert page[|page| - 1] == cursor;
    } else {
      CoversTake(source, cursor, rest[|rest| - 1], rest);
      assert page[|page| - 1] == rest[|rest| - 1];
    }
  }

  lemma PageOfOne<D>(source: Candles<D>, cursor: int, end: int)
    requires cursor <= end && cursor in source
    ensures IsPage(source, cursor, end, 1, [cursor])
  {
    CountFirst(source, cursor, end);
    CoversTake(source, cursor, cursor, []);
    assert [cursor] + [] == [cursor];
  }

  lemma {:induction false} PageFacts<D>(source: Candles<D>, cursor: int, end: int, limit: nat)
    requires limit > 0
    ensures IsPage(source, cursor, end, limit, Page(source, cursor, end, limit))
    decreases end - cursor + 1
  {
    if cursor <= end {
      if cursor !in source {
        PageFacts(source, cursor + 1, end, limit);
        PageSkips(source, cursor, end, limit, Page(source, cursor + 1, end, limit));
      } else if limit == 1 {
        assert Page(source, cursor + 1, end, 0) == [];
        assert Page(source, cursor, end, limit) == [cursor];
        PageOfOne(source, cursor, end);
      } else {
        PageFacts(source, cursor + 1, end, limit - 1);
        PageTakes(source, cursor, end, limit - 1, Page(source, cursor + 1, end, limit - 1));
      }
    }
  }

  /** What a run stores: the candles of [start, end), and the one at `end` when a page reaches it. */
  ghost predicate Stores<D>(source: Candles<D>, start: int, end: int, limit: nat, t: int) {
    && t in source && start <= t <= end && start < end
    && (t == end ==> limit > 0 && ReachesEnd(source, start, end, limit))
  }

  /** The candle at `end` is skipped when all pages before it are full and the last of them ends just short of it. */
  predicate ReachesEnd<D>(source: Candles<D>, start: int, end: int, limit: nat)
    requires limit > 0
  {
    !(end - 1 in source && CountIn(source, start, end - 1) % limit == 0)
  }

  /** ON CONFLICT DO UPDATE, one candle after another. */
  function Upsert<D>(table: Candles<D>, source: Candles<D>, page: seq<int>): Candles<D>
    requires forall i | 0 <= i < |page| :: page[i] in source
  {
    if page == [] then table
    else Upsert(table, source, page[..|page| - 1])[page[|page| - 1] := source[page[|page| - 1]]]
  }

  lemma {:induction false} UpsertFacts<D>(table: Candles<D>, source: Candles<D>, page: seq<int>)
    requires forall i | 0 <= i < |page| :: page[i] in source
    ensures
      var out := Upsert(table, source, page);
      && (forall t | t in page :: t in source)
      && (forall t :: t in out <==> t in table || t in page)
      && (forall t | t in out :: out[t] == if t in page then source[t] else table[t])
  {
    if page != [] {
      var init := page[..|page| - 1];
      assert page == init + [page[|page| - 1]];
      UpsertFacts(table, source, init);
    }
  }

  /** The loop state: everything below the cursor is stored, and only whole pages were fetched. */
  ghost predicate Progress<D>(source: Candles<D>, table0: Candles<D>, table: Candles<D>, start: int, cursor: int) {
    && start <= cursor
    && (forall t :: t in table <==> t in table0 || (t in source && start <= t < cursor))
    && (forall t | t in table :: table[t] == if t in source && start <= t < cursor then source[t] else table0[t])
  }

  /**
   The paging loop. It ends because the cursor always moves forward; it stores exactly `Stores`, each candle once; the
   minute after `end` is never touched.
   */
  method BackfillSymbol<D(==)>(source: Candles<D>, table0: Candles<D>, start: int, end: int, limit: nat)
    returns (table: Candles<D>, persisted: nat)
    requires limit > 0
    ensures forall t :: t in table <==> t in table0 || Stores(source, start, end, limit, t)
    ensures forall t | t in table ::
              table[t] == if Stores(source, start, end, limit, t) then source[t] else table0[t]
    ensures persisted == if start >= end then 0
                         else CountIn(source, start, end - 1)
                              + (if Stores(source, start, end, limit, end) then 1 else 0)
  {
    table, persisted := table0, 0;
    if start >= end {
      return;
    }
    var cursor := start;
    while cursor < end
      invariant Progress(source, table0, table, start, cursor)
      invariant persisted == CountIn(source, start, cursor - 1)
      invariant Aligned(source, start, end, limit, cursor)
      decreases end - cursor
    {
      var page := Page(source, cursor, end, limit);
      PageFacts(source, cursor, end, limit);
      if page == [] {
        break;
      }
      var last := page[|page| - 1];
      UpsertFacts(table, source, page);
      CountSplit(source, start, cursor, last);
      PageKeepsAligned(source, start, end, limit, cursor, page);
      table := Upsert(table, source, page);
      persisted := persisted + |page|;
      cursor := last + 1;
    }
    AlignedEnds(source, start, end, limit, cursor);
    StoredAtEnd(source, start, end, limit, cursor);
  }

  /** Either every page so far was full, or a short one took all there was. */
  ghost predicate Aligned<D>(source: Candles<D>, start: int, end: int, limit: nat, cursor: int)
    requires limit > 0
  {
    && start <= cursor <= end + 1
    && (cursor <= end ==> CountIn(source, start, cursor - 1) % limit == 0 || CountIn(source, cursor, end) == 0)
    && (cursor > start ==> cursor - 1 in source)
    && (cursor == end + 1 && start < end ==> ReachesEnd(source, start, end, limit))
  }

  lemma FullPages(count: nat, n: nat, limit: nat)
    requires limit > 0 && count % limit == 0 && n <= limit
    ensures (count + n) % limit == 0 <==> n == 0 || n == limit
  {
    var k := count / limit;
    assert count == k * limit;
    if n < limit {
      assert (k * limit + n) % limit == n by { DivRemainder(k, n, limit); }
    } else {
      assert (k * limit + limit) == (k + 1) * limit;
      DivRemainder(k + 1, 0, limit);
    }
  }

  lemma DivRemainder(k: nat, r: nat, d: nat)
    requires r < d
    ensures (k * d + r) % d == r
  {
    var x := k * d + r;
    SameRemainder(d, x / d, x % d, k, r);
  }

  lemma SameRemainder(d: nat, q: int, m: nat, k: int, r: nat)
    requires q * d + m == k * d + r && m < d && r < d
    ensures m == r
  {
    assert (k - q) * d == m - r;
    if k > q {
      AtLeastOnce(k - q, d);
    } else if k < q {
      assert (q - k) * d == r - m;
      AtLeastOnce(q - k, d);
    }
  }

  lemma AtLeastOnce(n: int, d: nat)
    requires n >= 1
    ensures n * d >= d
  {
    assert n * d == (n - 1) * d + d;
    assert (n - 1) * d >= 0;
  }

  lemma PageKeepsAligned<D>(source: Candles<D>, start: int, end: int, limit: nat, cursor: int, page: seq<int>)
    requires limit > 0 && start <= cursor < end && Aligned(source, start, end, limit, cursor)
    requires page == Page(source, cursor, end, limit) && page != []
    ensures page[|page| - 1] < end + 1 && Aligned(source, start, end, limit, page[|page| - 1] + 1)
  {
    PageFacts(source, cursor, end, limit);
    var last := page[|page| - 1];
    var before := CountIn(source, start, cursor - 1);
    CountSplit(source, start, cursor, last);
    CountSplit(source, cursor, last + 1, end);
    assert before % limit == 0;
    FullPages(before, |page|, limit);
    if last == end && end - 1 in source {
      CountSplit(source, start, cursor, end - 1);
      assert CountIn(source, cursor, end) == CountIn(source, cursor, end - 1) + 1;
      assert CountIn(source, cursor, end - 1) == CountIn(source, cursor, end - 2) + 1;
      FullPages(before, |page| - 1, limit);
    }
  }

  lemma {:induction false} NoneCounted<D>(source: Candles<D>, lo: int, hi: int, t: int)
    requires CountIn(source, lo, hi) == 0 && lo <= t <= hi
    ensures t !in source
    decreases hi - lo
  {
    if t < hi {
      NoneCounted(source, lo, hi - 1, t);
    }
  }

  lemma AlignedEnds<D>(source: Candles<D>, start: int, end: int, limit: nat, cursor: int)
    requires limit > 0 && start < end && Aligned(source, start, end, limit, cursor)
    requires cursor >= end || CountIn(source, cursor, end) == 0
    ensures CountIn(source, start, cursor - 1)
         == CountIn(source, start, end - 1) + (if end in source && cursor == end + 1 then 1 else 0)
    ensures cursor == end && end in source ==> !ReachesEnd(source, start, end, limit)
    ensures cursor < end ==> end !in source
  {
    if cursor <= end && CountIn(source, cursor, end) == 0 {
      NoneCounted(source, cursor, end, end);
      CountSplit(source, start, cursor, end);
    }
    assert CountIn(source, end, end) == CountIn(source, end, end - 1) + (if end in source then 1 else 0);
  }

  /** Below the final cursor is exactly what `Stores` says. */
  lemma StoredAtEnd<D>(source: Candles<D>, start: int, end: int, limit: nat, cursor: int)
    requires limit > 0 && start < end && Aligned(source, start, end, limit, cursor)
    requires cursor >= end || CountIn(source, cursor, end) == 0
    ensures forall t :: Stores(source, start, end, limit, t) <==> t in source && start <= t < cursor
  {
    AlignedEnds(source, start, end, limit, cursor);
    forall t
      ensures Stores(source, start, end, limit, t) <==> t in source && start <= t < cursor
    {
      if cursor <= t < end {
        NoneCounted(source, cursor, end, t);
      }
    }
  }

  // ----- where a run starts and ends -----

  /** The minute before the one in progress. */
  function EndTime(nowSeconds: int): int {
    nowSeconds / 60 - 1
  }

  ghost predicate IsLatest<D>(table: Candles<D>, t: int) {
    t in table && forall u | u in table :: u <= t
  }

  /** One minute after the newest stored candle, or `hours` before the end on a cold start. */
  ghost function ResolveStart<D>(table: Candles<D>, end: int, hours: nat): int {
    if table == map[] then end - hours * 60
    else
      assert exists t :: IsLatest(table, t) by { var t := GreatestOf(table.Keys); assert IsLatest(table, t); }
      var t :| IsLatest(table, t);
      t + 1
  }

  /** The minute after the end is the one in progress. */
  lemma EndIsLastClosed(nowSeconds: int)
    ensures 60 * (EndTime(nowSeconds) + 1) <= nowSeconds < 60 * (EndTime(nowSeconds) + 2)
  {
  }

  /** A cold start goes back `hours` hours. */
  lemma ColdStart<D>(end: int, hours: nat)
    ensures ResolveStart<D>(map[], end, hours) + 60 * hours == end
  {
  }

  /** How many candles are counted is how many there are. */
  lemma {:induction false} CountIsSize<D>(source: Candles<D>, lo: int, hi: int)
    ensures CountIn(source, lo, hi) == |set t | t in source && lo <= t <= hi|
    decreases hi - lo + 1
  {
    var here := set t | t in source && lo <= t <= hi;
    if lo > hi {
      assert here == {};
    } else {
      CountIsSize(source, lo, hi - 1);
      var before := set t | t in source && lo <= t <= hi - 1;
      assert here == if hi in source then before + {hi} else before;
    }
  }

  /** A run never stores the minute in progress or anything after it. */
  lemma NeverUnfinished<D>(source: Candles<D>, nowSeconds: int, start: int, limit: nat, t: int)
    requires Stores(source, start, EndTime(nowSeconds), limit, t)
    ensures t + 1 <= nowSeconds / 60
  {
  }

  lemma {:induction false} CountDense<D>(source: Candles<D>, lo: int, hi: int)
    requires lo <= hi + 1 && forall t | lo <= t <= hi :: t in source
    ensures CountIn(source, lo, hi) == hi - lo + 1
    decreases hi - lo + 1
  {
    if lo <= hi {
      CountDense(source, lo, hi - 1);
    }
  }

  /** Whatever the page limit, a gap of exactly one page leaves the last closed candle out. */
  lemma LastCandleSkipped<D>(limit: nat, source: Candles<D>)
    requires limit > 0 && forall t | 0 <= t <= limit :: t in source
    ensures limit in source && !Stores(source, 0, limit, limit, limit)
  {
    CountDense(source, 0, limit - 1);
  }

  lemma StartIsAfterLatest<D>(table: Candles<D>, t: int, end: int, hours: nat)
    requires IsLatest(table, t)
    ensures ResolveStart(table, end, hours) == t + 1
  {
    assert t in table;
  }

  lemma StartIsAfterAll<D>(table: Candles<D>, u: int, end: int, hours: nat)
    requires u in table
    ensures ResolveStart(table, end, hours) > u
  {
    var t := GreatestOf(table.Keys);
    StartIsAfterLatest(table, t, end, hours);
  }

  /**
   The table may hold anything when the next run begins, live candles included. If the candle at `end` is missing and
   the one before it is not, the next run starts with it exactly when nothing later was stored in between.
   */
  lemma SkippedIsNextIff<D>(table: Candles<D>, end: int, nextEnd: int, hours: nat)
    requires end - 1 in table && end !in table
    ensures ResolveStart(table, nextEnd, hours) == end <==> forall u | u in table :: u <= end
  {
    if forall u | u in table :: u <= end {
      StartIsAfterLatest(table, end - 1, nextEnd, hours);
    } else {
      var u :| u in table && u > end;
      StartIsAfterAll(table, u, nextEnd, hours);
    }
  }

  /** Right after the run that skipped it, before any live candle, nothing later is stored. */
  lemma SkippedCandleIsNext<D>(
      source: Candles<D>, table0: Candles<D>, table: Candles<D>, end: int, nextEnd: int, limit: nat, hours: nat)
    requires limit > 0 && (table0 == map[] ==> hours > 0)
    requires var start := ResolveStart(table0, end, hours);
             && start < end && end in source && !Stores(source, start, end, limit, end)
             && (forall t :: t in table <==> t in table0 || Stores(source, start, end, limit, t))
    ensures end - 1 in table && end !in table && ResolveStart(table, nextEnd, hours) == end
  {
    var start := ResolveStart(table0, end, hours);
    assert Stores(source, start, end, limit, end - 1);
    forall t | t in table
      ensures t <= end - 1
    {
      if t in table0 && !Stores(source, start, end, limit, t) {
        StartIsAfterAll(table0, t, end, hours);
      }
    }
    SkippedIsNextIff(table, end, nextEnd, hours);
  }

  /**
   But once a later candle is stored, and the live pipeline stores one within the minute, no run fetches the missing
   one any more: whatever else the table holds by then, each run starts beyond the later candle.
   */
  lemma MissedForGood<D>(
      source: Candles<D>, table: Candles<D>, missing: int, later: int, end: int, limit: nat, hours: nat)
    requires later in table && missing < later
    ensures
      var start := ResolveStart(table, end, hours);
      start > later && !Stores(source, start, end, limit, missing)
  {
    StartIsAfterAll(table, later, end, hours);
  }

  /**
   When a run leaves no candle of [lo, end) missing: exactly when those before its start, which it never asks for,
   were already stored.
   */
  lemma NoneMissingIff<D>(
      source: Candles<D>, table0: Candles<D>, table: Candles<D>, start: int, lo: int, end: int, limit: nat)
    requires forall t :: t in table <==> t in table0 || Stores(source, start, end, limit, t)
    ensures (forall t | lo <= t < end && t in source :: t in table)
       <==> (forall t | lo <= t < end && t < start && t in source :: t in table0)
  {
    if forall t | lo <= t < end && t in source :: t in table {
      forall t | lo <= t < end && t < start && t in source
        ensures t in table0
      {
        assert t in table && !Stores(source, start, end, limit, t);
      }
    } else {
      var t :| lo <= t < end && t in source && t !in table;
      assert !Stores(source, start, end, limit, t);
    }
  }

  /** With the start the code computes from a table that is not empty: those up to its newest candle. */
  lemma GapFilledIff<D>(
      source: Candles<D>, table0: Candles<D>, table: Candles<D>, latest: int, lo: int, end: int, limit: nat,
      hours: nat)
    requires IsLatest(table0, latest)
    requires var start := ResolveStart(table0, end, hours);
             forall t :: t in table <==> t in table0 || Stores(source, start, end, limit, t)
    ensures (forall t | lo <= t < end && t in source :: t in table)
       <==> (forall t | lo <= t < end && t <= latest && t in source :: t in table0)
  {
    StartIsAfterLatest(table0, latest, end, hours);
    NoneMissingIff(source, table0, table, latest + 1, lo, end, limit);
  }

  /** A run over a dense gap of one page, a live candle just after it, and the skipped one is in no run to come. */
  lemma SkippedThenMissed<D>(
      source: Candles<D>, table0: Candles<D>, table: Candles<D>, live: D, nextEnd: int, limit: nat, hours: nat)
    requires limit > 0 && IsLatest(table0, -1) && forall t | 0 <= t <= limit :: t in source
    requires var start := ResolveStart(table0, limit, hours);
             forall t :: t in table <==> t in table0 || Stores(source, start, limit, limit, t)
    ensures limit in source && limit !in table
    ensures
      var next := table[limit + 1 := live];
      !Stores(source, ResolveStart(next, nextEnd, hours), nextEnd, limit, limit)
  {
    StartIsAfterLatest(table0, -1, limit, hours);
    LastCandleSkipped(limit, source);
    MissedForGood(source, table[limit + 1 := live], limit, limit + 1, nextEnd, limit, hours);
  }

  /** Writing the same page again changes nothing. */
  lemma RepeatIsNoop<D>(table: Candles<D>, source: Candles<D>, page: seq<int>)
    requires forall i | 0 <= i < |page| :: page[i] in source
    ensures Upsert(Upsert(table, source, page), source, page) == Upsert(table, source, page)
  {
    var once := Upsert(table, source, page);
    UpsertFacts(table, source, page);
    UpsertFacts(once, source, page);
    var twice := Upsert(once, source, page);
    forall t
      ensures t in twice <==> t in once
    {
    }
    assert forall t | t in once :: twice[t] == once[t];
  }
}
