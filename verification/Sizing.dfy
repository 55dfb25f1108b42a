/** Position sizing and quantization in exact arithmetic: no context rounding of the decimals. */
module Sizing {
  import opened Common

  // ----- tiers -----

  datatype Tier = Tier(balanceMin: real, size: real)

  predicate Ascending(tiers: seq<Tier>) {
    forall i, j | 0 <= i < j < |tiers| :: tiers[i].balanceMin < tiers[j].balanceMin
  }

  predicate Qualifies(t: Tier, equity: real) {
    t.balanceMin <= equity
  }

  /** `t` is the highest tier the equity reaches; `None` means that it reaches none. */
  ghost predicate IsTierFor(equity: real, tiers: seq<Tier>, t: Option<Tier>) {
    match t
    case None => forall x | x in tiers :: !Qualifies(x, equity)
    case Some(t) => t in tiers && Qualifies(t, equity)
                    && forall x | x in tiers && Qualifies(x, equity) :: x.balanceMin <= t.balanceMin
  }

  /** The early-break scan of an ascending ladder. */
  method SelectTier(equity: real, tiers: seq<Tier>) returns (selected: Option<Tier>)
    requires Ascending(tiers)
    ensures IsTierFor(equity, tiers, selected)
    ensures selected == TierFor(equity, tiers)
  {
    selected := None;
    for i := 0 to |tiers|
      invariant selected == if i == 0 then None else Some(tiers[i - 1])
      invariant i > 0 ==> Qualifies(tiers[i - 1], equity)
      invariant TierFor(equity, tiers) == if i == |tiers| || !Qualifies(tiers[i], equity)
                                          then selected else TierFrom(equity, tiers, i + 1, Some(tiers[i]))
    {
      if tiers[i].balanceMin <= equity {
        selected := Some(tiers[i]);
      } else {
        break;
      }
    }
    TierForIsHighest(equity, tiers);
  }

  /** The rung the scan ends on, from rung `i` with `best` in hand. */
  function TierFrom(equity: real, tiers: seq<Tier>, i: nat, best: Option<Tier>): Option<Tier>
    requires i <= |tiers|
    decreases |tiers| - i
  {
    if i == |tiers| || !Qualifies(tiers[i], equity) then best else TierFrom(equity, tiers, i + 1, Some(tiers[i]))
  }

  function TierFor(equity: real, tiers: seq<Tier>): Option<Tier> {
    TierFrom(equity, tiers, 0, None)
  }

  lemma {:induction false} TierFromIsHighest(equity: real, tiers: seq<Tier>, i: nat)
    requires Ascending(tiers) && i <= |tiers| && forall j | 0 <= j < i :: Qualifies(tiers[j], equity)
    ensures IsTierFor(equity, tiers, TierFrom(equity, tiers, i, if i == 0 then None else Some(tiers[i - 1])))
    decreases |tiers| - i
  {
    if i < |tiers| && Qualifies(tiers[i], equity) {
      TierFromIsHighest(equity, tiers, i + 1);
    } else {
      forall j | i <= j < |tiers|
        ensures !Qualifies(tiers[j], equity)
      {
        assert j == i || tiers[i].balanceMin < tiers[j].balanceMin;
      }
    }
  }

  lemma TierForIsHighest(equity: real, tiers: seq<Tier>)
    requires Ascending(tiers)
    ensures IsTierFor(equity, tiers, TierFor(equity, tiers))
  {
    TierFromIsHighest(equity, tiers, 0);
  }

  // ----- score multipliers -----

  /** Multipliers by score bucket; a key is the number its digits denote. */
  type Multipliers = map<nat, real>

  ghost function Least(keys: set<nat>): nat
    requires keys != {}
  {
    assert exists k :: k in keys && forall j | j in keys :: k <= j by { var k := LeastOf(keys); }
    var k :| k in keys && forall j | j in keys :: k <= j;
    k
  }

  ghost function Greatest(keys: set<nat>): nat
    requires keys != {}
  {
    assert exists k :: k in keys && forall j | j in keys :: j <= k by { var k := GreatestOf(keys); }
    var k :| k in keys && forall j | j in keys :: j <= k;
    k
  }

  /** The floor of the score clamped into the present keys; a gap between keys, or nothing to go by, means times one. */
  ghost function ApplyScoreMultiplier(notional: real, score: Option<real>, multipliers: Multipliers): real {
    if score.None? || multipliers == map[] then notional
    else
      var low, high := Least(multipliers.Keys), Greatest(multipliers.Keys);
      var bucket := score.value.Floor;
      var raised := if bucket < low then low else bucket;
      var clamped := if raised > high then high else raised;
      if clamped in multipliers then notional * multipliers[clamped] else notional
  }

  /** `k` is the least, or the greatest, key. */
  predicate IsLow(multipliers: Multipliers, k: nat) {
    k in multipliers && forall j | j in multipliers :: k <= j
  }

  predicate IsHigh(multipliers: Multipliers, k: nat) {
    k in multipliers && forall j | j in multipliers :: j <= k
  }

  /**
   All cases: no score or no table leaves the notional alone; a score at or beyond an end of the table uses that end;
   one at a key uses it; one in a gap leaves the notional alone.
   */
  lemma ScoreClamps(notional: real, score: Option<real>, multipliers: Multipliers)
    ensures score.None? || multipliers == map[] ==> ApplyScoreMultiplier(notional, score, multipliers) == notional
    ensures score.Some? ==>
              forall k: nat | k in multipliers ::
                (|| (IsLow(multipliers, k) && score.value.Floor <= k)
                 || (IsHigh(multipliers, k) && score.value.Floor >= k)
                 || score.value.Floor == k) ==>
                ApplyScoreMultiplier(notional, score, multipliers) == notional * multipliers[k]
    ensures score.Some? ==>
              forall low: nat, high: nat | IsLow(multipliers, low) && IsHigh(multipliers, high) ::
                low < score.value.Floor < high && score.value.Floor !in multipliers ==>
                ApplyScoreMultiplier(notional, score, multipliers) == notional
  {
  }

  // ----- caps and quantities -----

  type Caps = map<string, real>

  function CapFor(caps: Caps, symbol: string): real
    requires "default" in caps
  {
    if symbol in caps then caps[symbol] else caps["default"]
  }

  function CapNotional(notional: real, caps: Caps, symbol: string): real
    requires "default" in caps
  {
    Min(notional, CapFor(caps, symbol))
  }

  datatype Error = ValueError | QtyValidationError

  /** Tier sizing: no tier is a skip, and is noticed before a bad price is. */
  ghost function QtyFromSizing(
    equity: real, mark: real, tiers: seq<Tier>, score: Option<real>, multipliers: Multipliers, caps: Caps,
    symbol: string): Result<Option<real>, Error>
    requires "default" in caps
  {
    match TierFor(equity, tiers)
    case None => Ok(None)
    case Some(tier) =>
      if mark <= 0.0 then Err(ValueError)
      else Ok(Some(CapNotional(ApplyScoreMultiplier(tier.size, score, multipliers), caps, symbol) / mark))
  }

  /** Risk sizing: no capital is a skip, and is noticed before bad parameters are. */
  function QtyFromRisk(equity: real, mark: real, slPct: real, riskPct: real, caps: Caps, symbol: string)
    : Result<Option<real>, Error>
    requires "default" in caps
  {
    if equity <= 0.0 then Ok(None)
    else if mark <= 0.0 || slPct <= 0.0 || riskPct <= 0.0 then Err(ValueError)
    else Ok(Some(CapNotional(equity * riskPct / slPct, caps, symbol) / mark))
  }

  /** The cap of a symbol: its own, or the default. */
  predicate IsCap(caps: Caps, symbol: string, cap: real)
    requires "default" in caps
  {
    cap == if symbol in caps then caps[symbol] else caps["default"]
  }

  /** Tier sizing skips exactly below the lowest tier and fails exactly on a bad price above it. */
  lemma TierSizingEnds(
      equity: real, mark: real, tiers: seq<Tier>, score: Option<real>, multipliers: Multipliers, caps: Caps,
      symbol: string)
    requires "default" in caps && Ascending(tiers)
    ensures
      var r := QtyFromSizing(equity, mark, tiers, score, multipliers, caps, symbol);
      var none := forall t | t in tiers :: equity < t.balanceMin;
      && (r == Ok(None) <==> none)
      && (r == Err(ValueError) <==> !none && mark <= 0.0)
      && (r.Err? ==> r.error == ValueError)
  {
    TierForIsHighest(equity, tiers);
  }

  /** The raw quantity is worth the size of the highest tier reached, scaled by the score, or the cap if less. */
  lemma TierQuantityIsWorth(
      equity: real, mark: real, tiers: seq<Tier>, score: Option<real>, multipliers: Multipliers, caps: Caps,
      symbol: string, raw: real, cap: real)
      returns (tier: Tier)
    requires "default" in caps && Ascending(tiers) && IsCap(caps, symbol, cap)
    requires QtyFromSizing(equity, mark, tiers, score, multipliers, caps, symbol) == Ok(Some(raw))
    ensures IsTierFor(equity, tiers, Some(tier))
    ensures
      var scaled := ApplyScoreMultiplier(tier.size, score, multipliers);
      raw * mark == if scaled <= cap then scaled else cap
  {
    TierForIsHighest(equity, tiers);
    tier := TierFor(equity, tiers).value;
    var scaled := ApplyScoreMultiplier(tier.size, score, multipliers);
    WorthBack(if scaled <= cap then scaled else cap, mark);
  }

  lemma WorthBack(notional: real, mark: real)
    requires mark > 0.0
    ensures notional / mark * mark == notional
  {
  }

  /** Risk sizing skips exactly without equity, fails exactly on bad parameters, else is worth the risk or the cap. */
  lemma RiskQuantityIsWorth(
      equity: real, mark: real, slPct: real, riskPct: real, caps: Caps, symbol: string, cap: real)
    requires "default" in caps && IsCap(caps, symbol, cap)
    ensures
      var r := QtyFromRisk(equity, mark, slPct, riskPct, caps, symbol);
      && (r == Ok(None) <==> equity <= 0.0)
      && (r == Err(ValueError) <==> equity > 0.0 && (mark <= 0.0 || slPct <= 0.0 || riskPct <= 0.0))
      && (r.Err? ==> r.error == ValueError)
      && (r.Ok? && r.value.Some? ==>
            r.value.value * mark == if equity * riskPct / slPct <= cap then equity * riskPct / slPct else cap)
  {
    if equity > 0.0 && mark > 0.0 && slPct > 0.0 && riskPct > 0.0 {
      var notional := equity * riskPct / slPct;
      WorthBack(if notional <= cap then notional else cap, mark);
    }
  }

  // ----- quantization -----

  datatype Instrument = Instrument(qtyStep: real, minOrderQty: real)

  /** Decimal `//` truncates toward zero. */
  function TruncDiv(a: real, b: real): int
    requires b > 0.0
  {
    if a >= 0.0 then (a / b).Floor else -((-a / b).Floor)
  }

  function Grid(k: int, step: real): real {
    k as real * step
  }

  function QuantizeQty(qty: real, info: Instrument): Result<real, Error>
    requires info.qtyStep > 0.0
  {
    if qty < info.minOrderQty then Err(QtyValidationError)
    else
      var rounded := Grid(TruncDiv(qty, info.qtyStep), info.qtyStep);
      if rounded < info.minOrderQty then Err(QtyValidationError) else Ok(rounded)
  }

  ghost predicate IsMultiple(x: real, step: real) {
    exists k: int :: x == Grid(k, step)
  }

  lemma ScaleOrder(a: real, b: real, step: real)
    requires step > 0.0
    ensures a <= b ==> a * step <= b * step
    ensures a < b ==> a * step < b * step
  {
    Distributes(b, a, step);
    if a < b {
      Positive(b - a, step);
    }
  }

  lemma GridNext(k: int, step: real)
    ensures Grid(k + 1, step) == Grid(k, step) + step
  {
  }

  lemma GridMono(j: int, k: int, step: real)
    requires step > 0.0
    ensures j <= k <==> Grid(j, step) <= Grid(k, step)
  {
    ScaleOrder(j as real, k as real, step);
    ScaleOrder(k as real, j as real, step);
  }

  lemma QuotientTimes(q: real, step: real)
    requires step > 0.0
    ensures q / step * step == q
  {
  }

  lemma Positive(a: real, b: real)
    requires a > 0.0 && b > 0.0
    ensures a * b > 0.0
  {
  }

  lemma Distributes(a: real, b: real, c: real)
    ensures (a - b) * c == a * c - b * c
  {
  }

  lemma GridBelow(k: int, x: real, step: real)
    requires step > 0.0 && k as real <= x < (k + 1) as real
    ensures Grid(k, step) <= x * step < Grid(k + 1, step)
  {
    ScaleOrder(k as real, x, step);
    ScaleOrder(x, (k + 1) as real, step);
  }

  /** The floor of a quotient picks the grid point at or just below. */
  lemma FloorBrackets(q: real, step: real)
    requires step > 0.0
    ensures Grid((q / step).Floor, step) <= q < Grid((q / step).Floor, step) + step
  {
    var x, k := q / step, (q / step).Floor;
    QuotientTimes(q, step);
    GridBelow(k, x, step);
    GridNext(k, step);
  }

  /**
   An accepted quantity is the grid point reached by truncation: at least the minimum, less than a step away, and not
   above the raw one exactly when that is not negative or on the grid. A quantity that is not negative is refused
   exactly when no grid point lies between the minimum and it, a negative one when it is below the minimum.
   */
  lemma QuantizedQty(qty: real, info: Instrument)
    requires info.qtyStep > 0.0
    ensures QuantizeQty(qty, info).Ok? ==>
              var q := QuantizeQty(qty, info).value;
              && IsMultiple(q, info.qtyStep) && info.minOrderQty <= q
              && qty - info.qtyStep < q < qty + info.qtyStep
              && (q <= qty <==> qty >= 0.0 || IsMultiple(qty, info.qtyStep))
              && (qty < 0.0 ==> q <= 0.0)
    ensures qty >= 0.0 ==>
              (QuantizeQty(qty, info).Err? <==> !exists k: int :: info.minOrderQty <= Grid(k, info.qtyStep) <= qty)
    ensures qty < 0.0 ==> (QuantizeQty(qty, info).Err? <==> qty < info.minOrderQty)
  {
    RoundsDownIff(qty, info.qtyStep);
    TruncBrackets(qty, info.qtyStep);
    if qty >= 0.0 {
      TruncIsLast(qty, info.qtyStep);
    }
  }

  /** Truncation stays within a step, on the side of zero. */
  lemma TruncBrackets(qty: real, step: real)
    requires step > 0.0
    ensures
      var q := Grid(TruncDiv(qty, step), step);
      if qty >= 0.0 then qty - step < q <= qty else qty <= q < qty + step && q <= 0.0
  {
    if qty >= 0.0 {
      FloorBrackets(qty, step);
    } else {
      var f := (-qty / step).Floor;
      FloorBrackets(-qty, step);
      GridNegate(f, step);
      QuotientTimes(-qty, step);
      assert -qty / step >= 0.0 by { QuotientSign(-qty, step); }
      GridMono(0, f, step);
      assert Grid(0, step) == 0.0;
    }
  }

  lemma QuotientSign(x: real, step: real)
    requires x > 0.0 && step > 0.0
    ensures x / step >= 0.0
  {
  }

  /** No later grid point is at most a quantity that is not negative. */
  lemma TruncIsLast(qty: real, step: real)
    requires step > 0.0 && qty >= 0.0
    ensures forall j: int | Grid(j, step) <= qty :: Grid(j, step) <= Grid(TruncDiv(qty, step), step) <= qty
  {
    var k := TruncDiv(qty, step);
    FloorBrackets(qty, step);
    GridNext(k, step);
    forall j: int | Grid(j, step) <= qty
      ensures Grid(j, step) <= Grid(k, step)
    {
      GridMono(k + 1, j, step);
      GridMono(j, k, step);
    }
  }

  /** Truncation rounds down exactly on quantities that are not negative or lie on the grid. */
  lemma RoundsDownIff(qty: real, step: real)
    requires step > 0.0
    ensures Grid(TruncDiv(qty, step), step) <= qty <==> qty >= 0.0 || IsMultiple(qty, step)
  {
    if qty >= 0.0 {
      FloorBrackets(qty, step);
    } else {
      var f := (-qty / step).Floor;
      FloorBrackets(-qty, step);
      GridNegate(f, step);
      if k: int :| qty == Grid(k, step) {
        GridNegate(k, step);
        GridNext(f, step);
        GridMono(f + 1, -k, step);
        GridMono(-k, f, step);
      }
    }
  }

  /** Side-aware price rounding: down for a buy, up for a sell. */
  function QuantizePrice(price: real, buy: bool, tick: real): Result<real, Error> {
    if tick <= 0.0 then Err(ValueError)
    else
      var x := price / tick;
      var n := if buy then x.Floor else -((-x).Floor);
      Ok(Grid(n, tick))
  }

  /** Only a tick that is not positive is refused. */
  lemma PriceRefusedIff(price: real, buy: bool, tick: real)
    ensures QuantizePrice(price, buy, tick).Err? <==> tick <= 0.0
  {
  }

  /** A quantized price is on the grid, less than a tick away, and never on the wrong side. */
  lemma QuantizedPrice(price: real, buy: bool, tick: real)
    requires tick > 0.0
    ensures
      var p := QuantizePrice(price, buy, tick).value;
      && IsMultiple(p, tick)
      && (buy ==> price - tick < p <= price)
      && (!buy ==> price <= p < price + tick)
  {
    FloorBrackets(price, tick);
    FloorBrackets(-price, tick);
    QuotientNegate(price, tick);
    GridNegate((-price / tick).Floor, tick);
  }

  lemma QuotientNegate(x: real, step: real)
    requires step > 0.0
    ensures -x / step == -(x / step)
  {
  }

  lemma GridNegate(k: int, step: real)
    ensures Grid(-k, step) == -Grid(k, step)
  {
  }

  // ----- end to end -----

  lemma NotionalOf(notional: real, mark: real, q: real, cap: real)
    requires mark > 0.0 && q <= notional / mark && notional <= cap
    ensures q * mark <= notional <= cap
  {
    assert notional / mark * mark == notional;
    ScaleOrder(q, notional / mark, mark);
  }

  /** What the order that leaves either sizing method obeys. */
  ghost predicate Sized(raw: real, q: real, mark: real, info: Instrument, cap: real) {
    && IsMultiple(q, info.qtyStep) && info.minOrderQty <= q
    && raw - info.qtyStep < q <= raw
    && q * mark <= cap
  }

  /** Raw quantities that quantization does not round up. */
  ghost predicate RoundsDown(raw: real, info: Instrument) {
    raw >= 0.0 || IsMultiple(raw, info.qtyStep)
  }

  /**
   Tier sizing then quantization, for every configuration: the order is sized as promised exactly when the raw quantity
   is not negative or on the grid; a positive minimum makes sure of that.
   */
  lemma TierOrderIsSized(
      equity: real, mark: real, tiers: seq<Tier>, score: Option<real>, multipliers: Multipliers, caps: Caps,
      symbol: string, info: Instrument, raw: real, q: real)
    requires "default" in caps && Ascending(tiers) && info.qtyStep > 0.0
    requires QtyFromSizing(equity, mark, tiers, score, multipliers, caps, symbol) == Ok(Some(raw))
    requires QuantizeQty(raw, info) == Ok(q)
    ensures Sized(raw, q, mark, info, CapFor(caps, symbol)) <==> RoundsDown(raw, info)
    ensures info.minOrderQty > 0.0 ==> RoundsDown(raw, info)
  {
    QuantizedQty(raw, info);
    var tier := TierFor(equity, tiers).value;
    var notional := CapNotional(ApplyScoreMultiplier(tier.size, score, multipliers), caps, symbol);
    if q <= raw {
      NotionalOf(notional, mark, q, CapFor(caps, symbol));
    }
  }

  /**
   The same for risk sizing; and whatever the configuration the order loses at most the risked share of the equity at
   its stop, exactly that before cap and rounding.
   */
  lemma RiskOrderIsSized(
      equity: real, mark: real, slPct: real, riskPct: real, caps: Caps, symbol: string, info: Instrument,
      raw: real, q: real)
    requires "default" in caps && info.qtyStep > 0.0
    requires QtyFromRisk(equity, mark, slPct, riskPct, caps, symbol) == Ok(Some(raw))
    requires QuantizeQty(raw, info) == Ok(q)
    ensures Sized(raw, q, mark, info, CapFor(caps, symbol)) <==> RoundsDown(raw, info)
    ensures info.minOrderQty > 0.0 ==> RoundsDown(raw, info)
    ensures q * mark * slPct <= equity * riskPct
    ensures equity * riskPct / slPct <= CapFor(caps, symbol) ==> raw * mark * slPct == equity * riskPct
  {
    QuantizedQty(raw, info);
    var risked := equity * riskPct / slPct;
    var capped := CapNotional(risked, caps, symbol);
    if q <= raw {
      NotionalOf(capped, mark, q, CapFor(caps, symbol));
      LossAtStop(equity * riskPct, slPct, q * mark);
    } else {
      NoLoss(q, mark, slPct, equity, riskPct);
    }
    LossAtStop(equity * riskPct, slPct, 0.0);
    QuotientTimes(capped, mark);
  }

  /** A quantity that is not positive loses nothing. */
  lemma NoLoss(q: real, mark: real, slPct: real, equity: real, riskPct: real)
    requires q <= 0.0 && mark > 0.0 && slPct > 0.0 && equity > 0.0 && riskPct > 0.0
    ensures q * mark * slPct <= equity * riskPct
  {
    ScaleOrder(q, 0.0, mark);
    ScaleOrder(q * mark, 0.0, slPct);
    Positive(equity, riskPct);
  }

  /** A notional of at most `amount / slPct` loses at most `amount` at the stop. */
  lemma LossAtStop(amount: real, slPct: real, notional: real)
    requires slPct > 0.0
    ensures amount / slPct * slPct == amount
    ensures notional <= amount / slPct ==> notional * slPct <= amount
  {
    ScaleOrder(notional, amount / slPct, slPct);
  }
}
