/**
  Swap output formulas (crates/detector/src/opportunity.rs:33-245): the
  constant-product formula, its guarded per-pool form, the sqrt-price
  approximation and their dispatch. Operations wrap exactly where the U256
  operators do; `ComputeV2Exact` discharges the wrapping of the first.
 */
module Amm {
  import opened Wrappers
  import opened Words
  import opened Types

  const FEE_SCALE: int := 10_000

  /** `10_000u32 - fee_tier / 100`; wraps below zero in a release build. */
  function FeeFactor(feeTier: u32): u32 {
    (FEE_SCALE - feeTier / 100) % TWO_32
  }

  /** The fee tiers for which that subtraction does not underflow. */
  predicate SaneFee(feeTier: u32) {
    feeTier / 100 <= FEE_SCALE
  }

  /** The factor, for the tiers that wrap as well. */
  lemma FactorIs(feeTier: u32)
    ensures FeeFactor(feeTier)
         == if feeTier / 100 <= 10_000 then 10_000 - feeTier / 100 else 0x1_0000_0000 + 10_000 - feeTier / 100
  {
  }

  lemma WrappedFactor(feeTier: u32)
    requires !SaneFee(feeTier)
    ensures FeeFactor(feeTier) >= 4_000_000_000
  {
  }

  function ComputeV2(amountIn: u256, reserveIn: u256, reserveOut: u256, feeTier: u32): u256 {
    if amountIn == 0 || reserveIn == 0 || reserveOut == 0 then 0
    else
      var feeFactor := FeeFactor(feeTier);
      var numerator := MulWrap(MulWrap(amountIn, feeFactor), reserveOut);
      var denominator := AddWrap(MulWrap(reserveIn, FEE_SCALE), MulWrap(amountIn, feeFactor));
      if denominator == 0 then 0
      else Quot(numerator, denominator)
  }

  function ComputeOutputV2(pool: PoolState, tokenIn: Address, amountIn: u256): Option<u256> {
    if amountIn == 0 || !pool.Contains(tokenIn) then None
    else
      var reserveIn := if tokenIn == pool.token0 then pool.reserve0 else pool.reserve1;
      var reserveOut := if tokenIn == pool.token0 then pool.reserve1 else pool.reserve0;
      if reserveIn == 0 || reserveOut == 0 || amountIn > reserveIn then None
      else Some(ComputeV2(amountIn, reserveIn, reserveOut, pool.feeTier))
  }

  /** `amount.checked_mul(num)?.checked_div(den)?` */
  function MulDiv(amount: u256, num: u256, den: u256): Option<u256>
    requires den > 0
  {
    match CheckedMul(amount, num)
    case None => None
    case Some(product) => Some(Quot(product, den))
  }

  /** The same step over the integers. */
  function Scale(amount: nat, num: nat, den: nat): nat
    requires den > 0
  {
    Quot(Product(amount, num), den)
  }

  lemma ScaleIs(amount: nat, num: nat, den: nat)
    requires den > 0
    ensures 0 <= amount * num && Scale(amount, num, den) == Quot(amount * num, den)
  {
    ProductIs(amount, num);
  }

  /** The two price steps and the fee step of one V3 direction. */
  function PriceChain(amount: u256, num: u256, den: u256, feeFactor: u32): Option<u256>
    requires den > 0
  {
    match MulDiv(amount, num, den)
    case None => None
    case Some(step1) =>
      match MulDiv(step1, num, den)
      case None => None
      case Some(step2) =>
        match CheckedMul(step2, feeFactor)
        case None => None
        case Some(scaled) =>
          var out := Quot(scaled, FEE_SCALE);
          if out == 0 then None else Some(out)
  }

  function ComputeOutputV3(pool: PoolState, tokenIn: Address, amountIn: u256): Option<u256> {
    var sqrtPrice := pool.reserve0;
    if amountIn == 0 || sqrtPrice == 0 then None
    else if tokenIn == pool.token0 then PriceChain(amountIn, sqrtPrice, TWO_96, FeeFactor(pool.feeTier))
    else if tokenIn == pool.token1 then PriceChain(amountIn, TWO_96, sqrtPrice, FeeFactor(pool.feeTier))
    else None
  }

  function PoolOutput(tokenIn: Address, amountIn: u256, pool: PoolState): u256 {
    var out := if pool.dex.UniswapV3? then ComputeOutputV3(pool, tokenIn, amountIn)
               else ComputeOutputV2(pool, tokenIn, amountIn);
    match out
    case Some(amount) => amount
    case None => 0
  }

  // ------------------------------------------------------------------------
  // The wrapping operators are exact on chain-ranged pools
  // ------------------------------------------------------------------------

  /** What `getReserves` (uint112) and `slot0` (uint160) can put in a pool record. */
  predicate ReservesRanged(pool: PoolState) {
    if pool.dex.UniswapV3? then pool.reserve0 < TWO_160
    else pool.reserve0 < TWO_112 && pool.reserve1 < TWO_112
  }

  predicate ChainRanged(pool: PoolState) { SaneFee(pool.feeTier) && ReservesRanged(pool) }

  /** The constant-product quotient over the integers, with fee factor f out of 10_000. */
  function ExactV2(a: nat, r: nat, R: nat, f: nat): nat {
    var taken := Product(a, f);
    if a == 0 || r == 0 || R == 0 then 0 else Quot(Product(taken, R), r * FEE_SCALE + taken)
  }

  lemma ExactV2Is(a: nat, r: nat, R: nat, f: nat)
    ensures 0 <= a * f && 0 <= a * f * R
    ensures ExactV2(a, r, R, f) == if a == 0 || r == 0 || R == 0 then 0 else Quot(a * f * R, r * FEE_SCALE + a * f)
  {
    ProductIs(a, f);
    ProductIs(a * f, R);
  }

  /** The numerator and the denominator both fit 256 bits, unless a zero makes them irrelevant. */
  predicate V2Fits(a: nat, r: nat, R: nat, f: nat) {
    a == 0 || r == 0 || R == 0
    || (Product(Product(a, f), R) < TWO_256 && r * FEE_SCALE + Product(a, f) < TWO_256)
  }

  /** Then no operation of the wrapping formula wraps, whatever the fee tier. */
  lemma ComputeV2Exact(amountIn: u256, reserveIn: u256, reserveOut: u256, feeTier: u32)
    requires V2Fits(amountIn, reserveIn, reserveOut, FeeFactor(feeTier))
    ensures ComputeV2(amountIn, reserveIn, reserveOut, feeTier)
         == ExactV2(amountIn, reserveIn, reserveOut, FeeFactor(feeTier))
  {
    hide FeeFactor, MulWrap, AddWrap, Product, Quot;
    if amountIn != 0 && reserveIn != 0 && reserveOut != 0 {
      var f := FeeFactor(feeTier);
      var taken, scaled := Product(amountIn, f), Product(reserveIn, FEE_SCALE);
      FactorsFit(taken, reserveOut);
      ProductIs(reserveIn, FEE_SCALE);
      NothingWrapped(amountIn, f);
      NothingWrapped(taken, reserveOut);
      NothingWrapped(reserveIn, FEE_SCALE);
      SumNotWrapped(scaled, taken);
    }
  }

  lemma FactorsFit(x: nat, y: nat)
    requires y > 0 && Product(x, y) < TWO_256
    ensures x < TWO_256
  {
    ProductIs(x, y);
    MulMono(x, x, 1, y);
  }

  lemma NothingWrapped(x: u256, y: u256)
    requires Product(x, y) < TWO_256
    ensures MulWrap(x, y) == Product(x, y)
  {
  }

  lemma SumNotWrapped(x: u256, y: u256)
    requires x + y < TWO_256
    ensures AddWrap(x, y) == x + y
  {
  }

  /** Everything a quote of a stored pool asks for fits, for any fee factor. */
  lemma RangedFits(a: nat, r: nat, R: nat, f: u32)
    requires a <= r < TWO_112 && R < TWO_112
    ensures V2Fits(a, r, R, f)
  {
    ProductIs(a, f);
    ProductIs(a * f, R);
    MulMono(a, TWO_112 - 1, f, TWO_32 - 1);
    MulMono(a * f, TWO_112 * TWO_32 - 1, R, TWO_112 - 1);
  }

  /** No product of a quote that moves at most x of one token and y of the other leaves 256 bits, either way round. */
  predicate Roomy(x: nat, y: nat, f: nat) {
    && x < TWO_256 && y < TWO_256
    && Product(Product(x, f), y) < TWO_256
    && Product(x, FEE_SCALE + f) < TWO_256 && Product(y, FEE_SCALE + f) < TWO_256
  }

  lemma RoomyFits(a: nat, r: nat, R: nat, x: nat, y: nat, f: nat)
    requires r + a <= x && R <= y && Roomy(x, y, f)
    ensures V2Fits(a, r, R, f)
  {
    ProductIs(x, f);
    ProductIs(x * f, y);
    ProductIs(x, FEE_SCALE + f);
    ProductIs(a, f);
    ProductIs(a * f, R);
    hide Product;
    MulMono(a, x, f, f);
    MulMono(a * f, x * f, R, y);
    assert x * (FEE_SCALE + f) == x * FEE_SCALE + x * f;
  }

  lemma RoomySwaps(x: nat, y: nat, f: nat)
    requires Roomy(x, y, f)
    ensures Roomy(y, x, f)
  {
    ProductIs(x, f);
    ProductIs(y, f);
    ProductIs(x * f, y);
    ProductIs(y * f, x);
    OuterSwap(x, f, y);
    hide Product;
  }

  lemma OuterSwap(x: nat, f: nat, y: nat)
    ensures x * f * y == y * f * x
  {
  }

  /** Chain values are roomy for every fee tier, and with a true fee so are values with eight bits more. */
  lemma ChainIsRoomy(x: nat, y: nat, f: u32)
    requires if f <= FEE_SCALE then x < TWO_120 && y < TWO_120 else x < TWO_112 && y < TWO_112
    ensures Roomy(x, y, f)
  {
    if f <= FEE_SCALE {
      ProductBelow(x, TWO_120, f, FEE_SCALE);
      ProductBelow(Product(x, f), TWO_120 * FEE_SCALE, y, TWO_120);
    } else {
      ProductBelow(x, TWO_112 - 1, f, TWO_32 - 1);
      ProductBelow(Product(x, f), (TWO_112 - 1) * (TWO_32 - 1), y, TWO_112 - 1);
    }
    ProductBelow(x, TWO_120, FEE_SCALE + f, TWO_120);
    ProductBelow(y, TWO_120, FEE_SCALE + f, TWO_120);
    hide Product;
  }

  lemma ProductBelow(x: nat, x': nat, y: nat, y': nat)
    requires x <= x' && y <= y'
    ensures Product(x, y) <= x' * y'
  {
    ProductIs(x, y);
    MulMono(x, x', y, y');
  }

  /** `floor(floor(floor(a * num / den) * num / den) * f / 10_000)` over the integers. */
  function ExactChain(a: nat, num: nat, den: nat, f: nat): nat
    requires den > 0
  {
    Scale(Scale(Scale(a, num, den), num, den), f, FEE_SCALE)
  }
}
