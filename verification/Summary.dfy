/** Backtest aggregates over the closed trades in order, and the peak/current query over the same rows. Exact reals. */
module Summary {
  import opened Common

  /** The running total after the first `i` trades. */
  function Prefix(pnls: seq<real>, i: nat): real
    requires i <= |pnls|
  {
    if i == 0 then 0.0 else Prefix(pnls, i - 1) + pnls[i - 1]
  }

  function GrossWins(pnls: seq<real>, i: nat): real
    requires i <= |pnls|
  {
    if i == 0 then 0.0 else GrossWins(pnls, i - 1) + (if pnls[i - 1] > 0.0 then pnls[i - 1] else 0.0)
  }

  function GrossLosses(pnls: seq<real>, i: nat): real
    requires i <= |pnls|
  {
    if i == 0 then 0.0 else GrossLosses(pnls, i - 1) + (if pnls[i - 1] < 0.0 then -pnls[i - 1] else 0.0)
  }

  function Wins(pnls: seq<real>, i: nat): (n: nat)
    requires i <= |pnls|
    ensures n <= i
  {
    if i == 0 then 0 else Wins(pnls, i - 1) + (if pnls[i - 1] > 0.0 then 1 else 0)
  }

  /** The running total of a list and another is that of both. */
  lemma {:induction false} PrefixAdds(a: seq<real>, b: seq<real>)
    ensures Prefix(a + b, |a| + |b|) == Prefix(a, |a|) + Prefix(b, |b|)
    ensures forall x: real :: Prefix([x], 1) == x
  {
    assert forall x: real :: Prefix([x], 0) == 0.0;
    PrefixOfPrefix(a + b, a, |a|);
    if b == [] {
      assert a + b == a;
    } else {
      var init := b[..|b| - 1];
      PrefixAdds(a, init);
      PrefixOfPrefix(a + b, a + init, |a| + |init|);
      PrefixOfPrefix(b, init, |init|);
    }
  }

  lemma {:induction false} PrefixOfPrefix(pnls: seq<real>, init: seq<real>, i: nat)
    requires init <= pnls && i <= |init|
    ensures Prefix(pnls, i) == Prefix(init, i)
  {
    if i > 0 {
      PrefixOfPrefix(pnls, init, i - 1);
    }
  }

  /** The trades of one sign, in order: `sign` is 1 for wins and -1 for losses. */
  function Side(pnls: seq<real>, i: nat, sign: real): (side: seq<real>)
    requires i <= |pnls|
    ensures forall x | x in side :: x > 0.0
  {
    if i == 0 then []
    else
      var before := Side(pnls, i - 1, sign);
      if pnls[i - 1] * sign > 0.0 then before + [pnls[i - 1] * sign] else before
  }

  /** Gross wins are the sum of the winning trades, and the wins are counted; losses likewise, as positive amounts. */
  lemma {:induction false} GrossIsSum(pnls: seq<real>, i: nat)
    requires i <= |pnls|
    ensures var wins := Side(pnls, i, 1.0); GrossWins(pnls, i) == Prefix(wins, |wins|) && Wins(pnls, i) == |wins|
    ensures var losses := Side(pnls, i, -1.0); GrossLosses(pnls, i) == Prefix(losses, |losses|)
  {
    if i > 0 {
      GrossIsSum(pnls, i - 1);
      var p := pnls[i - 1];
      PrefixAdds(Side(pnls, i - 1, 1.0), [p]);
      PrefixAdds(Side(pnls, i - 1, -1.0), [-p]);
    }
  }

  /** The wins are as many as the trades above zero. */
  lemma {:induction false} WinsAreCounted(pnls: seq<real>, i: nat)
    requires i <= |pnls|
    ensures Wins(pnls, i) == |set k | 0 <= k < i && pnls[k] > 0.0|
  {
    var here := set k | 0 <= k < i && pnls[k] > 0.0;
    if i == 0 {
      assert here == {};
    } else {
      WinsAreCounted(pnls, i - 1);
      var before := set k | 0 <= k < i - 1 && pnls[k] > 0.0;
      assert here == if pnls[i - 1] > 0.0 then before + {i - 1} else before;
    }
  }

  /** Wins minus losses is the result: every trade lands on exactly one side. */
  lemma {:induction false} PnlIsWinsMinusLosses(pnls: seq<real>, i: nat)
    requires i <= |pnls|
    ensures Prefix(pnls, i) == GrossWins(pnls, i) - GrossLosses(pnls, i)
    ensures GrossWins(pnls, i) >= 0.0 && GrossLosses(pnls, i) >= 0.0
  {
    if i > 0 {
      PnlIsWinsMinusLosses(pnls, i - 1);
    }
  }

  /** The running totals, from the empty account on. */
  function Curve(pnls: seq<real>): (c: seq<real>)
    ensures |c| == |pnls| + 1
    ensures forall i | 0 <= i <= |pnls| :: c[i] == Prefix(pnls, i)
  {
    seq(|pnls| + 1, i requires 0 <= i <= |pnls| => Prefix(pnls, i))
  }

  /** `m` is the largest fall from an earlier (or equal) point of the curve to a later one. */
  ghost predicate IsMaxDrawdown(c: seq<real>, m: real) {
    && (forall i, j | 0 <= i <= j < |c| :: c[i] - c[j] <= m)
    && (exists i, j :: 0 <= i <= j < |c| && c[i] - c[j] == m)
  }

  /** `m` is the largest point of the curve. */
  ghost predicate IsPeak(c: seq<real>, m: real) {
    (forall i | 0 <= i < |c| :: c[i] <= m) && (exists i :: 0 <= i < |c| && c[i] == m)
  }

  /** `round(x, 4)`: the nearest multiple of 0.0001, the even one of two. */
  function Round4(x: real): real {
    Nearest(x * 10000.0) as real / 10000.0
  }

  function Nearest(y: real): int {
    var k := y.Floor;
    var d := y - k as real;
    if d < 0.5 || (d == 0.5 && k % 2 == 0) then k else k + 1
  }

  /** `Nearest` moves a number by at most a half, and to the one integer closer than that if there is one. */
  lemma NearestIsClosest(y: real, n: int)
    ensures -0.5 <= Nearest(y) as real - y <= 0.5
    ensures -0.5 < n as real - y < 0.5 ==> Nearest(y) == n
    ensures y == n as real + 0.5 ==> Nearest(y) == if n % 2 == 0 then n else n + 1
  {
    var k := y.Floor;
    assert k as real <= y < (k + 1) as real;
    if -0.5 < n as real - y < 0.5 {
      assert n == k || n == k + 1;
    }
  }

  /** So rounding gives a whole number of units of the fourth digit, at most half a unit away. */
  lemma Round4IsClose(x: real) returns (n: int)
    ensures Round4(x) == n as real / 10000.0 && -0.00005 <= Round4(x) - x <= 0.00005
  {
    NearestIsClosest(x * 10000.0, 0);
    Unscaled(Nearest(x * 10000.0) as real, x);
    n := Nearest(x * 10000.0);
  }

  lemma Unscaled(k: real, x: real)
    requires -0.5 <= k - x * 10000.0 <= 0.5
    ensures -0.00005 <= k / 10000.0 - x <= 0.00005
  {
  }

  /** `None` is the undefined ratio. */
  datatype Report = Report(trades: nat, winRate: Option<real>, pnl: real, profitFactor: Option<real>, mdd: real)

  /** Gross wins over gross losses, undefined when either is zero. */
  function ProfitFactor(gains: real, losses: real): (f: Option<real>)
    ensures f.Some? <==> gains != 0.0 && losses != 0.0
    ensures f.Some? ==> f.value * losses == gains
  {
    if gains == 0.0 || losses == 0.0 then None else Some(gains / losses)
  }

  function Rounded(ratio: Option<real>): Option<real> {
    match ratio case None => None case Some(x) => Some(Round4(x))
  }

  method ComputeSummary(pnls: seq<real>) returns (r: Report, ghost peak: real)
    ensures r.trades == |pnls|
    ensures r.pnl == Prefix(pnls, |pnls|)
    ensures r.winRate == if pnls == [] then None else Some(Round4(Wins(pnls, |pnls|) as real / |pnls| as real))
    ensures r.profitFactor == Rounded(ProfitFactor(GrossWins(pnls, |pnls|), GrossLosses(pnls, |pnls|)))
    ensures IsMaxDrawdown(Curve(pnls), r.mdd)
    ensures IsPeak(Curve(pnls), peak)
  {
    if pnls == [] {
      CurveStart(pnls);
      assert Curve(pnls)[..1] == Curve(pnls);
      return Report(0, None, 0.0, None, 0.0), 0.0;
    }
    var n := |pnls|;
    var factor := Rounded(ProfitFactor(GrossWins(pnls, n), GrossLosses(pnls, n)));
    var mdd;
    mdd, peak := MaxDrawdown(pnls);
    r := Report(n, Some(Round4(Wins(pnls, n) as real / n as real)), Prefix(pnls, n), factor, mdd);
  }

  /** The one-pass loop over the running total and its peak. */
  method MaxDrawdown(pnls: seq<real>) returns (mdd: real, peak: real)
    ensures IsMaxDrawdown(Curve(pnls), mdd)
    ensures IsPeak(Curve(pnls), peak)
  {
    var cum := 0.0;
    peak, mdd := 0.0, 0.0;
    ScanStart(pnls);
    for n := 0 to |pnls|
      invariant Scanned(pnls, n, cum, peak, mdd)
    {
      ScanNext(pnls, n, cum, peak, mdd);
      cum := cum + pnls[n];
      if cum > peak {
        peak := cum;
      }
      var drawdown := peak - cum;
      if drawdown > mdd {
        mdd := drawdown;
      }
    }
    ScanDone(pnls, cum, peak, mdd);
  }

  lemma ScanStart(pnls: seq<real>)
    ensures Scanned(pnls, 0, 0.0, 0.0, 0.0)
  {
    CurveStart(pnls);
  }

  lemma ScanDone(pnls: seq<real>, cum: real, peak: real, mdd: real)
    requires Scanned(pnls, |pnls|, cum, peak, mdd)
    ensures IsMaxDrawdown(Curve(pnls), mdd) && IsPeak(Curve(pnls), peak)
  {
    assert Curve(pnls)[..|pnls| + 1] == Curve(pnls);
  }

  /** The loop state after `n` trades. */
  ghost predicate Scanned(pnls: seq<real>, n: nat, cum: real, peak: real, mdd: real) {
    && n <= |pnls| && cum == Prefix(pnls, n)
    && IsPeak(Curve(pnls)[..n + 1], peak)
    && IsMaxDrawdown(Curve(pnls)[..n + 1], mdd)
  }

  lemma ScanNext(pnls: seq<real>, n: nat, cum: real, peak: real, mdd: real)
    requires n < |pnls| && Scanned(pnls, n, cum, peak, mdd)
    ensures
      var cum' := cum + pnls[n];
      var peak' := Max(peak, cum');
      Scanned(pnls, n + 1, cum', peak', Max(mdd, peak' - cum'))
  {
    var c := Curve(pnls);
    PeakStep(c[..n + 1], c[n + 1], peak);
    DrawdownStep(c[..n + 1], c[n + 1], Max(peak, c[n + 1]), mdd);
    assert c[..n + 2] == c[..n + 1] + [c[n + 1]];
  }

  lemma CurveStart(pnls: seq<real>)
    ensures IsPeak(Curve(pnls)[..1], 0.0) && IsMaxDrawdown(Curve(pnls)[..1], 0.0)
  {
    var c := Curve(pnls)[..1];
    assert c[0] == Prefix(pnls, 0) == 0.0;
    assert c[0] - c[0] == 0.0;
  }

  lemma PeakStep(c: seq<real>, x: real, peak: real)
    requires IsPeak(c, peak)
    ensures IsPeak(c + [x], Max(peak, x))
  {
    var i :| 0 <= i < |c| && c[i] == peak;
    assert (c + [x])[if peak >= x then i else |c|] == Max(peak, x);
  }

  lemma DrawdownStep(c: seq<real>, x: real, peak: real, mdd: real)
    requires IsMaxDrawdown(c, mdd) && IsPeak(c + [x], peak)
    ensures IsMaxDrawdown(c + [x], Max(mdd, peak - x))
  {
    var d, m := c + [x], Max(mdd, peak - x);
    forall i, j | 0 <= i <= j < |d|
      ensures d[i] - d[j] <= m
    {
      if j < |c| {
        assert c[i] - c[j] <= mdd;
      } else {
        assert d[i] <= peak;
      }
    }
    if mdd >= peak - x {
      var i, j :| 0 <= i <= j < |c| && c[i] - c[j] == mdd;
      assert d[i] - d[j] == m;
    } else {
      var i :| 0 <= i < |d| && d[i] == peak;
      assert d[i] - d[|c|] == m;
    }
  }

  // ----- the query -----

  /** MAX over the running sums of at least one row. */
  function MaxRunning(pnls: seq<real>, n: nat): (m: real)
    requires 1 <= n <= |pnls|
  {
    if n == 1 then Prefix(pnls, 1) else Max(MaxRunning(pnls, n - 1), Prefix(pnls, n))
  }

  lemma {:induction false} MaxRunningIsPeak(pnls: seq<real>, n: nat)
    requires 1 <= n <= |pnls|
    ensures IsPeak(Curve(pnls)[1..n + 1], MaxRunning(pnls, n))
  {
    var c := Curve(pnls);
    if n == 1 {
      assert c[1..2] == [c[1]] && c[1..2][0] == MaxRunning(pnls, 1);
    } else {
      MaxRunningIsPeak(pnls, n - 1);
      PeakStep(c[1..n], c[n], MaxRunning(pnls, n - 1));
      assert c[1..n + 1] == c[1..n] + [c[n]];
    }
  }

  /** (peak, current) with COALESCE to zero. */
  function PeakAndCurrent(pnls: seq<real>): (real, real) {
    (if pnls == [] then 0.0 else MaxRunning(pnls, |pnls|), Prefix(pnls, |pnls|))
  }

  /**
   The query counts its peak from the first trade, the loop from the empty account: the loop's peak is the larger of
   the query's and zero. So the query's peak - current is the loop's final drawdown exactly when its peak is not
   negative, and then it is at most the maximum drawdown.
   */
  lemma {:induction false} QueryMeetsLoop(pnls: seq<real>, peak: real, mdd: real)
    requires IsPeak(Curve(pnls), peak) && IsMaxDrawdown(Curve(pnls), mdd)
    ensures
      var (top, current) := PeakAndCurrent(pnls);
      && current == Prefix(pnls, |pnls|)
      && peak == (if top >= 0.0 then top else 0.0)
      && (top - current == peak - Prefix(pnls, |pnls|) <==> top >= 0.0)
      && (top >= 0.0 ==> top - current <= mdd)
  {
    var c := Curve(pnls);
    if pnls == [] {
      OnlyStart(c, peak, mdd);
    } else {
      var top := MaxRunning(pnls, |pnls|);
      QueryPeak(pnls, top);
      PeakWithStart(c, top, peak);
      FallFromPeak(c, top, mdd);
    }
  }

  lemma QueryPeak(pnls: seq<real>, top: real)
    requires pnls != [] && top == MaxRunning(pnls, |pnls|)
    ensures IsPeak(Curve(pnls)[1..], top) && Curve(pnls)[0] == 0.0
  {
    MaxRunningIsPeak(pnls, |pnls|);
    assert Curve(pnls)[1..|pnls| + 1] == Curve(pnls)[1..];
  }

  /** Before the first trade. */
  lemma OnlyStart(c: seq<real>, peak: real, mdd: real)
    requires |c| == 1 && IsPeak(c, peak) && IsMaxDrawdown(c, mdd)
    ensures peak == c[0] && 0.0 <= mdd
  {
    assert c[0] - c[0] <= mdd;
  }

  /** The peak of a curve from the empty account is that of the rest, or zero. */
  lemma PeakWithStart(c: seq<real>, top: real, peak: real)
    requires |c| > 1 && c[0] == 0.0 && IsPeak(c[1..], top) && IsPeak(c, peak)
    ensures peak == if top >= 0.0 then top else 0.0
  {
    var k :| 0 <= k < |c| && c[k] == peak;
    var i :| 0 <= i < |c[1..]| && c[1..][i] == top;
    assert c[i + 1] == top;
    assert k > 0 ==> c[1..][k - 1] == peak;
  }

  lemma FallFromPeak(c: seq<real>, top: real, mdd: real)
    requires |c| > 1 && IsPeak(c[1..], top) && IsMaxDrawdown(c, mdd)
    ensures top - c[|c| - 1] <= mdd
  {
    var i :| 0 <= i < |c[1..]| && c[1..][i] == top;
    assert c[i + 1] - c[|c| - 1] <= mdd;
  }
}
