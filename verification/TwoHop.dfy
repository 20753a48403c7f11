/**
  Profit of a two-hop cycle (crates/detector/src/opportunity.rs:86-131,
  278-282) and what bounds it: every quote is at most amount x spot price x
  fee fraction, in any mix of V2 and V3 pools.
 */
module TwoHop {
  import opened Wrappers
  import opened Words
  import opened Types
  import opened Amm
  import ConstantProduct

  datatype PartialPath = PartialPath(tokenIn: Address, poolA: PoolState, tokenMid: Address, poolB: PoolState)

  function PathProfit(path: PartialPath, amount: u256): u256 {
    var midOut := PoolOutput(path.tokenIn, amount, path.poolA);
    var finalOut := PoolOutput(path.tokenMid, midOut, path.poolB);
    SaturatingSub(finalOut, amount)
  }

  // ------------------------------------------------------------------------
  // Every wrapping operation is exact
  // ------------------------------------------------------------------------

  /** None of the three checked products of a V3 quote overflows. */
  predicate ChainFits(a: nat, num: nat, den: nat, f: nat)
    requires den > 0
  {
    && a * num < TWO_256
    && Scale(a, num, den) * num < TWO_256
    && Scale(Scale(a, num, den), num, den) * f < TWO_256
  }

  /** The quote over the integers, with the guards that turn it into zero. */
  function ExactOutput(tokenIn: Address, a: nat, pool: PoolState): nat {
    var f := FeeFactor(pool.feeTier);
    if !pool.Contains(tokenIn) then 0
    else if pool.dex.UniswapV3? then
      var num := if tokenIn == pool.token0 then pool.reserve0 else TWO_96;
      var den := if tokenIn == pool.token0 then TWO_96 else pool.reserve0;
      if pool.reserve0 == 0 || !ChainFits(a, num, den, f) then 0 else ExactChain(a, num, den, f)
    else
      var reserveIn := if tokenIn == pool.token0 then pool.reserve0 else pool.reserve1;
      var reserveOut := if tokenIn == pool.token0 then pool.reserve1 else pool.reserve0;
      if a > reserveIn then 0 else ExactV2(a, reserveIn, reserveOut, f)
  }

  /** No U256 operation reached from `scan` wraps, whatever pool the amount came from. */
  lemma NothingWraps(tokenIn: Address, amount: u256, pool: PoolState)
    requires ReservesRanged(pool)
    ensures PoolOutput(tokenIn, amount, pool) == ExactOutput(tokenIn, amount, pool)
  {
    hide PriceChain, ExactChain, ChainFits, ComputeV2;
    var f := FeeFactor(pool.feeTier);
    if pool.Contains(tokenIn) {
      if pool.dex.UniswapV3? {
        if pool.reserve0 > 0 {
          ZeroChain(pool.reserve0, TWO_96, f);
          ZeroChain(TWO_96, pool.reserve0, f);
          if tokenIn == pool.token0 {
            QuoteV3(amount, pool.reserve0, TWO_96, f);
          } else {
            QuoteV3(amount, TWO_96, pool.reserve0, f);
          }
        }
      } else {
        var reserveIn := if tokenIn == pool.token0 then pool.reserve0 else pool.reserve1;
        var reserveOut := if tokenIn == pool.token0 then pool.reserve1 else pool.reserve0;
        if amount <= reserveIn {
          RangedFits(amount, reserveIn, reserveOut, f);
          ComputeV2Exact(amount, reserveIn, reserveOut, pool.feeTier);
        }
      }
    }
  }

  /** `compute_output_v3` is the true floor chain, or None on overflow or a zero result. */
  lemma QuoteV3(a: u256, num: u256, den: u256, f: u32)
    requires den > 0
    ensures PriceChain(a, num, den, f)
         == if ChainFits(a, num, den, f) && ExactChain(a, num, den, f) > 0
            then Some(ExactChain(a, num, den, f)) else None
  {
    hide Scale, MulDiv, Quot, CheckedMul;
    QuoteStep(a, num, den);
    var step1 := Scale(a, num, den);
    if a * num < TWO_256 {
      QuoteStep(step1, num, den);
      if step1 * num < TWO_256 {
        QuoteFeeStep(Scale(step1, num, den), f);
      }
    }
  }

  lemma QuoteStep(a: u256, num: u256, den: u256)
    requires den > 0
    ensures 0 <= a * num
    ensures MulDiv(a, num, den) == if a * num < TWO_256 then Some(Scale(a, num, den)) else None
    ensures a * num < TWO_256 ==> Scale(a, num, den) < TWO_256
  {
    ProductIs(a, num);
  }

  lemma QuoteFeeStep(step2: u256, f: u32)
    ensures 0 <= step2 * f
    ensures CheckedMul(step2, f) == if step2 * f < TWO_256 then Some(step2 * f) else None
    ensures Quot(step2 * f, FEE_SCALE) == Scale(step2, f, FEE_SCALE)
  {
    ProductIs(step2, f);
  }

  lemma ZeroChain(num: nat, den: nat, f: nat)
    requires den > 0
    ensures ExactChain(0, num, den, f) == 0
  {
    assert Scale(0, num, den) == 0 by { assert 0 * num == 0; }
  }

  /** A larger V3 amount never buys less, and if it does not overflow neither does a smaller one. */
  lemma QuoteV3Monotone(a: nat, b: nat, num: nat, den: nat, f: nat)
    requires den > 0 && a <= b
    ensures ExactChain(a, num, den, f) <= ExactChain(b, num, den, f)
    ensures ChainFits(b, num, den, f) ==> ChainFits(a, num, den, f)
  {
    hide Scale;
    ScaleMonotone(a, b, num, den);
    ScaleMonotone(Scale(a, num, den), Scale(b, num, den), num, den);
    ScaleMonotone(Scale(Scale(a, num, den), num, den), Scale(Scale(b, num, den), num, den), f, FEE_SCALE);
  }

  lemma ScaleMonotone(a: nat, b: nat, num: nat, den: nat)
    requires den > 0 && a <= b
    ensures 0 <= a * num <= b * num && Scale(a, num, den) <= Scale(b, num, den)
  {
    MulMono(a, b, num, num);
    ScaleIs(a, num, den);
    ScaleIs(b, num, den);
    hide Scale;
    QuotBounds(a * num, den);
    QuotGreatest(Scale(a, num, den), b * num, den);
  }

  // ------------------------------------------------------------------------
  // Quotes against spot prices
  // ------------------------------------------------------------------------

  /** Spot price of `tokenIn` in the pool's other token is SpotNum / SpotDen. */
  function SpotNum(tokenIn: Address, pool: PoolState): nat {
    if pool.dex.UniswapV3? then
      if tokenIn == pool.token0 then Square(pool.reserve0) else Square(TWO_96)
    else
      if tokenIn == pool.token0 then pool.reserve1 else pool.reserve0
  }

  function SpotDen(tokenIn: Address, pool: PoolState): nat {
    if pool.dex.UniswapV3? then
      if tokenIn == pool.token0 then Square(TWO_96) else Square(pool.reserve0)
    else
      if tokenIn == pool.token0 then pool.reserve0 else pool.reserve1
  }

  function Square(x: nat): (r: nat) ensures x > 0 ==> r > 0 { MulMono(0, x, 0, x); x * x }

  predicate Trades(pool: PoolState, x: Address, y: Address) {
    x != y && ((pool.token0 == x && pool.token1 == y) || (pool.token0 == y && pool.token1 == x))
  }

  /** A quote never beats amount x spot price x fee fraction, floors and guards included. */
  lemma QuoteAtMostSpot(tokenIn: Address, a: u256, pool: PoolState)
    requires ReservesRanged(pool) && pool.Contains(tokenIn) && pool.token0 != pool.token1
    ensures PoolOutput(tokenIn, a, pool) * (SpotDen(tokenIn, pool) * FEE_SCALE)
         <= a * (SpotNum(tokenIn, pool) * FeeFactor(pool.feeTier))
    ensures PoolOutput(tokenIn, a, pool) > 0 ==> SpotDen(tokenIn, pool) > 0 && a > 0
  {
    hide PoolOutput, ExactOutput;
    var f := FeeFactor(pool.feeTier);
    NothingWraps(tokenIn, a, pool);
    MulMono(0, SpotNum(tokenIn, pool), 0, f);
    MulMono(0, a, 0, SpotNum(tokenIn, pool) * f);
    if PoolOutput(tokenIn, a, pool) > 0 {
      if pool.dex.UniswapV3? {
        QuoteV3AtMostSpot(tokenIn, a, pool);
      } else {
        QuoteV2AtMostSpot(tokenIn, a, pool);
      }
    }
  }

  /** So every tier up to 100% is taken out of the quote: what is kept is 10_000 less tier / 100 in 10_000. */
  lemma QuoteTakesFee(tokenIn: Address, a: u256, pool: PoolState)
    requires ReservesRanged(pool) && pool.Contains(tokenIn) && pool.token0 != pool.token1
    requires pool.feeTier / 100 <= 10_000
    ensures PoolOutput(tokenIn, a, pool) * (SpotDen(tokenIn, pool) * 10_000)
         <= a * (SpotNum(tokenIn, pool) * (10_000 - pool.feeTier / 100))
  {
    hide PoolOutput, SpotNum, SpotDen;
    FactorIs(pool.feeTier);
    hide FeeFactor;
    QuoteAtMostSpot(tokenIn, a, pool);
  }

  lemma QuoteV2AtMostSpot(tokenIn: Address, a: nat, pool: PoolState)
    requires !pool.dex.UniswapV3? && ExactOutput(tokenIn, a, pool) > 0
    ensures ExactOutput(tokenIn, a, pool) * (SpotDen(tokenIn, pool) * FEE_SCALE)
         <= a * (SpotNum(tokenIn, pool) * FeeFactor(pool.feeTier))
    ensures SpotDen(tokenIn, pool) > 0 && a > 0
  {
    var f := FeeFactor(pool.feeTier);
    var reserveIn := if tokenIn == pool.token0 then pool.reserve0 else pool.reserve1;
    var reserveOut := if tokenIn == pool.token0 then pool.reserve1 else pool.reserve0;
    ConstantProduct.OutputBound(a, reserveIn, reserveOut, f);
    ProductAtMostSpot(ExactV2(a, reserveIn, reserveOut, f), a, reserveIn, reserveOut, f);
  }

  lemma QuoteV3AtMostSpot(tokenIn: Address, a: nat, pool: PoolState)
    requires pool.dex.UniswapV3? && ExactOutput(tokenIn, a, pool) > 0
    ensures ExactOutput(tokenIn, a, pool) * (SpotDen(tokenIn, pool) * FEE_SCALE)
         <= a * (SpotNum(tokenIn, pool) * FeeFactor(pool.feeTier))
    ensures SpotDen(tokenIn, pool) > 0 && a > 0
  {
    hide ExactChain, ChainFits;
    if tokenIn == pool.token0 {
      ChainAtMostSpot(a, pool.reserve0, TWO_96, FeeFactor(pool.feeTier));
    } else {
      ChainAtMostSpot(a, TWO_96, pool.reserve0, FeeFactor(pool.feeTier));
    }
  }

  lemma ProductAtMostSpot(out: nat, a: nat, r: nat, R: nat, f: nat)
    requires out * (r * FEE_SCALE + a * f) <= a * f * R
    ensures out * (r * FEE_SCALE) <= a * (R * f)
  {
    assert out * (r * FEE_SCALE + a * f) == out * (r * FEE_SCALE) + out * (a * f);
    MulMono(0, out, 0, a * f);
    assert a * f * R == a * (R * f);
  }

  lemma ChainAtMostSpot(a: nat, num: nat, den: nat, f: nat)
    requires den > 0
    ensures ExactChain(a, num, den, f) * (Square(den) * FEE_SCALE) <= a * (Square(num) * f)
    ensures a == 0 ==> ExactChain(a, num, den, f) == 0
  {
    hide Scale;
    var step1 := Scale(a, num, den);
    var step2 := Scale(step1, num, den);
    ScaleBelow(a, num, den);
    ScaleBelow(step1, num, den);
    ScaleBelow(step2, f, FEE_SCALE);
    ThreeSteps(a, num, den, f, step1, step2, ExactChain(a, num, den, f));
    ZeroChain(num, den, f);
  }

  lemma ScaleBelow(a: nat, num: nat, den: nat)
    requires den > 0
    ensures Scale(a, num, den) * den <= a * num
  {
    ScaleIs(a, num, den);
    QuotBounds(a * num, den);
  }

  lemma ThreeSteps(a: nat, num: nat, den: nat, f: nat, s1: nat, s2: nat, out: nat)
    requires s1 * den <= a * num && s2 * den <= s1 * num && out * FEE_SCALE <= s2 * f
    ensures out * (Square(den) * FEE_SCALE) <= a * (Square(num) * f)
  {
    TwoSteps(a, num, den, s1, s2);
    FeeStep(s2, Square(den), a, Square(num), f, out);
  }

  lemma TwoSteps(a: nat, num: nat, den: nat, s1: nat, s2: nat)
    requires s1 * den <= a * num && s2 * den <= s1 * num
    ensures s2 * Square(den) <= a * Square(num)
  {
    MulMono(s2 * den, s1 * num, den, den);
    MulMono(s1 * den, a * num, num, num);
    assert s2 * Square(den) == (s2 * den) * den;
    assert (s1 * num) * den == (s1 * den) * num;
    assert (a * num) * num == a * Square(num);
  }

  lemma FeeStep(s2: nat, d2: nat, a: nat, n2: nat, f: nat, out: nat)
    requires s2 * d2 <= a * n2 && out * FEE_SCALE <= s2 * f
    ensures out * (d2 * FEE_SCALE) <= a * (n2 * f)
  {
    MulMono(out * FEE_SCALE, s2 * f, d2, d2);
    MulMono(s2 * d2, a * n2, f, f);
    assert out * (d2 * FEE_SCALE) == (out * FEE_SCALE) * d2;
    assert (s2 * f) * d2 == (s2 * d2) * f;
    assert (a * n2) * f == a * (n2 * f);
  }

  /** Two quotes in a row: x, y are the denominators and X, Y the numerators of the two legs. */
  lemma Compose(a: nat, mid: nat, out: nat, x: nat, X: nat, y: nat, Y: nat)
    requires mid * x <= a * X && out * y <= mid * Y
    ensures out * (x * y) <= a * (X * Y)
  {
    MulMono(out * y, mid * Y, x, x);
    MulMono(mid * x, a * X, Y, Y);
    assert out * (x * y) == (out * y) * x;
    assert (mid * Y) * x == (mid * x) * Y;
    assert (a * X) * Y == a * (X * Y);
  }

  // ------------------------------------------------------------------------
  // Main results
  // ------------------------------------------------------------------------

  /** Round-trip rate of the cycle at spot prices and fees: Gain over Cost. */
  function Gain(path: PartialPath): nat {
    var gainA := SpotNum(path.tokenIn, path.poolA) * FeeFactor(path.poolA.feeTier);
    var gainB := SpotNum(path.tokenMid, path.poolB) * FeeFactor(path.poolB.feeTier);
    MulMono(0, SpotNum(path.tokenIn, path.poolA), 0, FeeFactor(path.poolA.feeTier));
    MulMono(0, SpotNum(path.tokenMid, path.poolB), 0, FeeFactor(path.poolB.feeTier));
    MulMono(0, gainA, 0, gainB);
    gainA * gainB
  }

  function Cost(path: PartialPath): nat {
    var costA := SpotDen(path.tokenIn, path.poolA) * FEE_SCALE;
    var costB := SpotDen(path.tokenMid, path.poolB) * FEE_SCALE;
    MulMono(0, costA, 0, costB);
    costA * costB
  }

  /** Two chain-ranged pools over the path's two tokens, with any fee tiers. */
  predicate Routable(path: PartialPath) {
    && ReservesRanged(path.poolA) && ReservesRanged(path.poolB)
    && Trades(path.poolA, path.tokenIn, path.tokenMid)
    && Trades(path.poolB, path.tokenIn, path.tokenMid)
  }

  /** Both fees together never pay: the product of the fee fractions is at most one. */
  predicate FeesCost(fA: nat, fB: nat) { Product(fA, fB) <= FEE_SCALE * FEE_SCALE }

  lemma SaneFeesCost(fee: u32, fee': u32)
    requires SaneFee(fee) && SaneFee(fee')
    ensures FeesCost(FeeFactor(fee), FeeFactor(fee'))
  {
    ProductIs(FeeFactor(fee), FeeFactor(fee'));
    MulMono(FeeFactor(fee), FEE_SCALE, FeeFactor(fee'), FEE_SCALE);
  }

  /** A profitable amount needs a round-trip spot rate above one. */
  lemma ProfitNeedsRate(path: PartialPath, amount: u256)
    requires Routable(path) && PathProfit(path, amount) > 0
    ensures Gain(path) > Cost(path) > 0
  {
    hide PoolOutput, SpotNum, SpotDen;
    var mid := PoolOutput(path.tokenIn, amount, path.poolA);
    var out := PoolOutput(path.tokenMid, mid, path.poolB);
    QuoteAtMostSpot(path.tokenIn, amount, path.poolA);
    QuoteAtMostSpot(path.tokenMid, mid, path.poolB);
    var x, y := SpotDen(path.tokenIn, path.poolA) * FEE_SCALE, SpotDen(path.tokenMid, path.poolB) * FEE_SCALE;
    var X := SpotNum(path.tokenIn, path.poolA) * FeeFactor(path.poolA.feeTier);
    var Y := SpotNum(path.tokenMid, path.poolB) * FeeFactor(path.poolB.feeTier);
    MulMono(0, SpotNum(path.tokenIn, path.poolA), 0, FeeFactor(path.poolA.feeTier));
    MulMono(0, SpotNum(path.tokenMid, path.poolB), 0, FeeFactor(path.poolB.feeTier));
    Compose(amount, mid, out, x, X, y, Y);
    MulStrict(0, x, y);
    RateAboveOne(amount, out, Cost(path), Gain(path));
  }

  lemma RateAboveOne(a: nat, out: nat, cost: nat, gain: nat)
    requires out * cost <= a * gain && out > a && cost > 0
    ensures gain > cost
  {
    MulStrict(a, out, cost);
    if gain <= cost {
      MulMono(a, a, gain, cost);
    }
  }

  /** At or below parity no amount is profitable. */
  lemma NoProfitAtParity(path: PartialPath, amount: u256)
    requires Routable(path) && Gain(path) <= Cost(path)
    ensures PathProfit(path, amount) == 0
  {
    hide PathProfit, Gain, Cost;
    if PathProfit(path, amount) > 0 {
      ProfitNeedsRate(path, amount);
    }
  }

  /** The spot prices of the two sides of one pool are reciprocal. */
  lemma Reciprocal(pool: PoolState, x: Address, y: Address)
    requires Trades(pool, x, y)
    ensures SpotNum(x, pool) == SpotDen(y, pool) && SpotDen(x, pool) == SpotNum(y, pool)
  {
  }

  /** Fees aside, profit needs the two pools' spot prices to differ in the path's favour. */
  lemma ProfitNeedsPriceGap(path: PartialPath, amount: u256)
    requires Routable(path) && PathProfit(path, amount) > 0
    requires FeesCost(FeeFactor(path.poolA.feeTier), FeeFactor(path.poolB.feeTier))
    ensures SpotNum(path.tokenIn, path.poolA) * SpotNum(path.tokenMid, path.poolB)
          > SpotDen(path.tokenIn, path.poolA) * SpotDen(path.tokenMid, path.poolB)
  {
    hide PathProfit, Gain, Cost, SpotNum, SpotDen;
    ProfitNeedsRate(path, amount);
    GainAboveCost(path);
  }

  lemma GainAboveCost(path: PartialPath)
    requires FeesCost(FeeFactor(path.poolA.feeTier), FeeFactor(path.poolB.feeTier)) && Gain(path) > Cost(path)
    ensures SpotNum(path.tokenIn, path.poolA) * SpotNum(path.tokenMid, path.poolB)
          > SpotDen(path.tokenIn, path.poolA) * SpotDen(path.tokenMid, path.poolB)
  {
    hide SpotNum, SpotDen;
    var nA, nB := SpotNum(path.tokenIn, path.poolA), SpotNum(path.tokenMid, path.poolB);
    var dA, dB := SpotDen(path.tokenIn, path.poolA), SpotDen(path.tokenMid, path.poolB);
    var fA, fB := FeeFactor(path.poolA.feeTier), FeeFactor(path.poolB.feeTier);
    assert Gain(path) == (nA * fA) * (nB * fB) && Cost(path) == (dA * FEE_SCALE) * (dB * FEE_SCALE);
    FeesOnlyLower(nA, nB, dA, dB, fA, fB);
  }

  /**
    The two orientations `scan` tries for one pair of pools never both show a
    positive profit, whatever loan amounts the two searches settle on.
   */
  lemma OneOrientationOnly(poolA: PoolState, poolB: PoolState, x: Address, y: Address, a: u256, b: u256)
    requires Routable(PartialPath(x, poolA, y, poolB))
    requires FeesCost(FeeFactor(poolA.feeTier), FeeFactor(poolB.feeTier))
    ensures PathProfit(PartialPath(x, poolA, y, poolB), a) == 0
         || PathProfit(PartialPath(y, poolA, x, poolB), b) == 0
  {
    hide PathProfit, SpotNum, SpotDen;
    var there, back := PartialPath(x, poolA, y, poolB), PartialPath(y, poolA, x, poolB);
    if PathProfit(there, a) > 0 && PathProfit(back, b) > 0 {
      Reciprocal(poolA, x, y);
      Reciprocal(poolB, x, y);
      ProfitNeedsPriceGap(there, a);
      ProfitNeedsPriceGap(back, b);
    }
  }

  lemma FeesOnlyLower(nA: nat, nB: nat, dA: nat, dB: nat, fA: nat, fB: nat)
    requires FeesCost(fA, fB)
    requires (nA * fA) * (nB * fB) > (dA * FEE_SCALE) * (dB * FEE_SCALE)
    ensures nA * nB > dA * dB
  {
    ProductIs(fA, fB);
    hide Product;
    Regroup(nA, fA, nB, fB);
    Regroup(dA, FEE_SCALE, dB, FEE_SCALE);
    MulMono(0, nA, 0, nB);
    BelowScale(nA * nB, dA * dB, fA * fB);
  }

  lemma Regroup(x: nat, f: nat, y: nat, g: nat)
    ensures (x * f) * (y * g) == (x * y) * (f * g)
  {
  }

  lemma BelowScale(n: int, d: int, f: nat)
    requires n >= 0 && f <= FEE_SCALE * FEE_SCALE && n * f > d * (FEE_SCALE * FEE_SCALE)
    ensures n > d
  {
    MulMono(n, n, f, FEE_SCALE * FEE_SCALE);
  }

  /** Trading there and back in one pool at its quoted price never gains, V2 or V3. */
  lemma SamePoolNeverGains(pool: PoolState, x: Address, y: Address, a: u256)
    requires ChainRanged(pool) && Trades(pool, x, y)
    ensures PoolOutput(y, PoolOutput(x, a, pool), pool) <= a
  {
    hide PoolOutput, SpotNum, SpotDen;
    Reciprocal(pool, x, y);
    SaneFeesCost(pool.feeTier, pool.feeTier);
    var path := PartialPath(x, pool, y, pool);
    if PathProfit(path, a) > 0 {
      ProfitNeedsPriceGap(path, a);
    }
  }

  /** A pool whose reserves are still the zero stub quotes nothing, so no cycle through it pays. */
  lemma StubNeverPays(path: PartialPath, amount: u256)
    requires (path.poolA.reserve0 == 0 && path.poolA.reserve1 == 0)
          || (path.poolB.reserve0 == 0 && path.poolB.reserve1 == 0)
    ensures PathProfit(path, amount) == 0
  {
    hide PriceChain, ComputeV2;
  }

  /** For all pools with these two fee tiers, never both orientations pay. */
  ghost predicate NeverBoth(feeA: u32, feeB: u32) {
    forall p: PoolState, q: PoolState, x: Address, y: Address, a: u256, b: u256 ::
      p.feeTier == feeA && q.feeTier == feeB && Routable(PartialPath(x, p, y, q)) ==>
        PathProfit(PartialPath(x, p, y, q), a) == 0 || PathProfit(PartialPath(y, p, x, q), b) == 0
  }

  /**
    Exactly when the two fee factors multiply to at most 10_000^2. The code's
    u32 subtraction wraps for a fee tier of 1_000_100 and more, which a uint24
    read from an unknown contract can be; then the condition fails unless the
    other pool keeps everything as its fee.
   */
  lemma NeverBothIff(feeA: u32, feeB: u32)
    ensures NeverBoth(feeA, feeB) <==> FeesCost(FeeFactor(feeA), FeeFactor(feeB))
  {
    hide Routable, PathProfit, FeesCost;
    if FeesCost(FeeFactor(feeA), FeeFactor(feeB)) {
      forall p: PoolState, q: PoolState, x: Address, y: Address, a: u256, b: u256
        | p.feeTier == feeA && q.feeTier == feeB && Routable(PartialPath(x, p, y, q))
        ensures PathProfit(PartialPath(x, p, y, q), a) == 0 || PathProfit(PartialPath(y, p, x, q), b) == 0
      {
        OneOrientationOnly(p, q, x, y, a, b);
      }
    } else {
      BothPay(feeA, feeB, UnitPool(10, feeA), UnitPool(11, feeB));
    }
  }

  /** One fee tier against every sane one: safe exactly if it is sane itself. */
  lemma SafeFeeIff(feeTier: u32)
    ensures (forall other: u32 :: SaneFee(other) ==> NeverBoth(feeTier, other)) <==> SaneFee(feeTier)
  {
    hide NeverBoth, FeeFactor, FeesCost;
    if SaneFee(feeTier) {
      forall other: u32 | SaneFee(other) ensures NeverBoth(feeTier, other) {
        SaneFeesCost(feeTier, other);
        NeverBothIff(feeTier, other);
      }
    } else {
      NeverBothIff(feeTier, 3000);
      WrappedFeePays(feeTier);
      assert SaneFee(3000);
    }
  }

  lemma WrappedFeePays(feeTier: u32)
    requires !SaneFee(feeTier)
    ensures !FeesCost(FeeFactor(feeTier), FeeFactor(3000))
  {
    WrappedFactor(feeTier);
    assert FeeFactor(3000) == 9970;
    hide FeeFactor, SaneFee;
    ProductIs(FeeFactor(feeTier), 9970);
    hide Product;
  }

  /** A V3 pool of two tokens at price one. */
  function UnitPool(address: Address, feeTier: u32): PoolState {
    PoolState(address, 1, 2, TWO_96, 1, feeTier, 1, UniswapV3)
  }

  /** A wrapped fee factor is so large that the product of both exceeds the bound by far. */
  lemma WrappedFeesPayWell(feeA: u32, feeB: u32)
    requires !FeesCost(FeeFactor(feeA), FeeFactor(feeB))
    ensures FeeFactor(feeA) > 0 && Product(FeeFactor(feeA), FeeFactor(feeB)) >= 4_000_000_000
  {
    hide FeeFactor, SaneFee, Product;
    ProductIs(FeeFactor(feeA), FeeFactor(feeB));
    if !SaneFee(feeA) {
      WrappedFactor(feeA);
      PartOfProduct(FeeFactor(feeA), FeeFactor(feeB));
    } else if !SaneFee(feeB) {
      WrappedFactor(feeB);
      PartOfProduct(FeeFactor(feeB), FeeFactor(feeA));
    } else {
      SaneFeesCost(feeA, feeB);
    }
  }

  lemma PartOfProduct(big: nat, other: nat)
    requires big * other > 0
    ensures other > 0 && big * other >= big
  {
    MulMono(big, big, 1, other);
  }

  /** At price one, 10_000 in becomes the first fee factor, and that again more than 10_000. */
  lemma BothPay(feeA: u32, feeB: u32, p: PoolState, q: PoolState)
    requires !FeesCost(FeeFactor(feeA), FeeFactor(feeB)) && p == UnitPool(10, feeA) && q == UnitPool(11, feeB)
    ensures Routable(PartialPath(1, p, 2, q))
    ensures PathProfit(PartialPath(1, p, 2, q), 10_000) > 0 && PathProfit(PartialPath(2, p, 1, q), 10_000) > 0
  {
    hide PoolOutput, FeeFactor, Product, Quot, FeesCost;
    WrappedFeesPayWell(feeA, feeB);
    var mid, factor := FeeFactor(feeA), FeeFactor(feeB);
    ProductIs(mid, factor);
    var out := Quot(Product(mid, factor), FEE_SCALE);
    QuotBounds(Product(mid, factor), FEE_SCALE);
    forall t: Address | t == 1 || t == 2 ensures PoolOutput(t, 10_000, p) == mid && PoolOutput(t, mid, q) == out {
      QuoteOfUnitPool(t, 10_000, p, mid);
      QuoteOfUnitPool(t, mid, q, out);
    }
  }

  /** An instance: the first fee tier that wraps, against an ordinary one. */
  lemma WrappedFeeBreaksOrientation()
    ensures PathProfit(PartialPath(1, UnitPool(10, 1_000_100), 2, UnitPool(11, 3000)), 10_000) > 0
    ensures PathProfit(PartialPath(2, UnitPool(10, 1_000_100), 1, UnitPool(11, 3000)), 10_000) > 0
  {
    hide PathProfit, Product;
    var wrapped, plain := 1_000_100, 3000;
    ProductIs(FeeFactor(wrapped), FeeFactor(plain));
    BothPay(wrapped, plain, UnitPool(10, wrapped), UnitPool(11, plain));
  }

  lemma QuoteOfUnitPool(tokenIn: Address, a: u256, pool: PoolState, out: nat)
    requires pool.dex.UniswapV3? && pool.reserve0 == TWO_96 && pool.Contains(tokenIn)
    requires var f := FeeFactor(pool.feeTier);
             0 < a < TWO_32 && 0 <= a * f && out > 0 && out * FEE_SCALE <= a * f < out * FEE_SCALE + FEE_SCALE
    ensures PoolOutput(tokenIn, a, pool) == out
  {
    QuoteAtUnitPrice(a, FeeFactor(pool.feeTier), out);
  }

  lemma QuoteAtUnitPrice(a: u256, f: u32, out: nat)
    requires a < TWO_32 && 0 <= a * f && out > 0 && out * FEE_SCALE <= a * f < out * FEE_SCALE + FEE_SCALE
    ensures PriceChain(a, TWO_96, TWO_96, f) == Some(out)
  {
    MulMono(a, TWO_32, f, TWO_32);
    ProductIs(a, TWO_96);
    ProductIs(a, f);
    hide Product;
    QuotIs(a, a * TWO_96, TWO_96);
    QuotIs(out, a * f, FEE_SCALE);
    hide Quot;
    assert MulDiv(a, TWO_96, TWO_96) == Some(a);
  }
}
