/**
  The un-floored profit of a two-hop path in any mix of V2 and V3 pools, with the
  code's own zero cut-offs (crates/detector/src/opportunity.rs:141-245, 278-282).
  It rises strictly and then never rises, and the code's floored profit lies
  below it by less than a stated loss.
 */
module ClosedForm {
  import opened Words
  import opened Types
  import opened Amm
  import opened TwoHop
  import opened TernarySearch
  import ConstantProduct

  // ------------------------------------------------------------------------
  // Curves a -> K a / (D + E a); a straight line when E = 0
  // ------------------------------------------------------------------------

  datatype Curve = Curve(K: real, D: real, E: real)
  {
    ghost predicate Valid() { K > 0.0 && D > 0.0 && E >= 0.0 }

    ghost function Out(a: real): (r: real)
      requires Valid() && a >= 0.0
      ensures r >= 0.0
    {
      DenPositive(this, a);
      K * a / (D + E * a)
    }
  }

  lemma DenPositive(c: Curve, a: real)
    requires c.Valid() && a >= 0.0
    ensures c.E * a >= 0.0 && c.D + c.E * a > 0.0
  {
  }

  /** One more unit in gains more than one unit out exactly while (D + E a)(D + E (a + 1)) < K D. */
  lemma StepRises(c: Curve, a: real)
    requires c.Valid() && a >= 0.0
    ensures c.Out(a + 1.0) - (a + 1.0) > c.Out(a) - a
       <==> (c.D + c.E * a) * (c.D + c.E * (a + 1.0)) < c.K * c.D
  {
    hide Curve.Out;
    DenPositive(c, a);
    DenPositive(c, a + 1.0);
    OutTimes(c, a);
    OutTimes(c, a + 1.0);
    StepSign(c, a, c.D + c.E * a, c.D + c.E * (a + 1.0), c.Out(a), c.Out(a + 1.0));
  }

  lemma StepSign(c: Curve, a: real, u: real, v: real, p: real, q: real)
    requires u == c.D + c.E * a && v == u + c.E && u > 0.0 && v > 0.0
    requires p * u == c.K * a && q * v == c.K * (a + 1.0)
    ensures q - (a + 1.0) > p - a <==> u * v < c.K * c.D
  {
    StepAlgebra(c, a, u, v, p, q);
    SignOfProduct(q - p - 1.0, u * v);
  }

  lemma StepAlgebra(c: Curve, a: real, u: real, v: real, p: real, q: real)
    requires u == c.D + c.E * a && v == u + c.E && u > 0.0 && v > 0.0
    requires p * u == c.K * a && q * v == c.K * (a + 1.0)
    ensures (q - p - 1.0) * (u * v) == c.K * c.D - u * v && u * v > 0.0
  {
    assert (q * v) * u == c.K * (a + 1.0) * u;
    assert (p * u) * v == c.K * a * v;
    assert c.K * (a + 1.0) * u - c.K * a * v == c.K * (u - a * c.E);
    assert u - a * c.E == c.D;
  }

  lemma SignOfProduct(x: real, y: real)
    requires y > 0.0
    ensures x > 0.0 <==> x * y > 0.0
  {
  }

  /** Positive net output at a means positive net output at every smaller positive amount. */
  lemma ProfitReachesDown(c: Curve, a: real, b: real)
    requires c.Valid() && 0.0 <= a <= b && c.Out(b) - b > 0.0
    ensures c.Out(a) - a >= 0.0 && (a > 0.0 ==> c.Out(a) - a > 0.0)
  {
    DenPositive(c, a);
    DenPositive(c, b);
    NetSign(c, b);
    assert c.E * a <= c.E * b;
    if a > 0.0 {
      NetSign(c, a);
    }
  }

  lemma NetSign(c: Curve, a: real)
    requires c.Valid() && a > 0.0
    ensures c.Out(a) - a > 0.0 <==> c.K > c.D + c.E * a
  {
    hide Curve.Out;
    DenPositive(c, a);
    OutTimes(c, a);
    NetSignAlgebra(c.Out(a), a, c.D + c.E * a, c.K);
  }

  lemma NetSignAlgebra(p: real, a: real, u: real, K: real)
    requires p * u == K * a && u > 0.0 && a > 0.0
    ensures p - a > 0.0 <==> K > u
  {
    assert (p - a) * u == (K - u) * a;
    SameSign(p - a, K - u, u, a);
  }

  lemma SameSign(x: real, y: real, u: real, a: real)
    requires u > 0.0 && a > 0.0 && x * u == y * a
    ensures x > 0.0 <==> y > 0.0
  {
    SignOfProduct(x, u);
    SignOfProduct(y, a);
  }

  // ------------------------------------------------------------------------
  // The profile: clamped at zero, and zero where a leg refuses the amount
  // ------------------------------------------------------------------------

  ghost function Profile(c: Curve, admits: int -> bool, a: int): real
    requires c.Valid()
  {
    if a <= 0 || !admits(a) || c.Out(a as real) - a as real <= 0.0 then 0.0
    else c.Out(a as real) - a as real
  }

  ghost predicate DownwardClosed(admits: int -> bool) {
    forall a: int, b: int :: 0 < a <= b && admits(b) ==> admits(a)
  }

  /** Once the profile fails to rise it never rises again. */
  lemma NeverRisesAgain(c: Curve, admits: int -> bool, a: int)
    requires c.Valid() && DownwardClosed(admits) && a >= 0
    requires Profile(c, admits, a + 1) < Profile(c, admits, a + 2)
    ensures Profile(c, admits, a) < Profile(c, admits, a + 1)
  {
    var x := a as real;
    assert admits(a + 2) && admits(a + 1) && (a > 0 ==> admits(a));
    assert (a + 1) as real == x + 1.0 && (a + 2) as real == x + 2.0;
    ProfitReachesDown(c, x + 1.0, x + 2.0);
    ProfitReachesDown(c, x, x + 2.0);
    NetNeverRisesAgain(c, x);
  }

  lemma NetNeverRisesAgain(c: Curve, x: real)
    requires c.Valid() && x >= 0.0
    requires c.Out(x + 2.0) - (x + 2.0) > c.Out(x + 1.0) - (x + 1.0)
    ensures c.Out(x + 1.0) - (x + 1.0) > c.Out(x) - x
  {
    hide Curve.Out;
    assert (x + 1.0) + 1.0 == x + 2.0;
    StepRises(c, x + 1.0);
    StepRises(c, x);
    SlopeFalls(c, x);
  }

  lemma SlopeFalls(c: Curve, x: real)
    requires c.Valid() && x >= 0.0
    ensures (c.D + c.E * x) * (c.D + c.E * (x + 1.0)) <= (c.D + c.E * (x + 1.0)) * (c.D + c.E * ((x + 1.0) + 1.0))
  {
    DenPositive(c, x);
    var u, v := c.D + c.E * x, c.D + c.E * (x + 1.0);
    assert c.D + c.E * ((x + 1.0) + 1.0) == v + c.E;
    ProductsGrow(u, v, c.E);
  }

  lemma ProductsGrow(u: real, v: real, e: real)
    requires u > 0.0 && e >= 0.0 && v == u + e
    ensures u * v <= v * (v + e)
  {
  }

  /** The comparison the search would make on this profile. */
  ghost function Compare(c: Curve, admits: int -> bool): (int, int) -> bool
    requires c.Valid()
  {
    (x: int, y: int) => Profile(c, admits, x) < Profile(c, admits, y)
  }

  lemma {:induction false} RisesUpTo(c: Curve, admits: int -> bool, lo: int, x: int, y: int)
    requires c.Valid() && DownwardClosed(admits) && 0 <= lo <= x < y
    requires forall a: int :: lo <= a < y ==> Profile(c, admits, a) < Profile(c, admits, a + 1)
    ensures Profile(c, admits, x) < Profile(c, admits, y)
    decreases y - x
  {
    if x + 1 < y {
      RisesUpTo(c, admits, lo, x, y - 1);
    }
    assert Profile(c, admits, y - 1) < Profile(c, admits, (y - 1) + 1);
  }

  lemma {:induction false} FallsFrom(c: Curve, admits: int -> bool, peak: int, x: int, y: int)
    requires c.Valid() && DownwardClosed(admits) && 0 <= peak <= x <= y
    requires Profile(c, admits, peak) >= Profile(c, admits, peak + 1)
    ensures Profile(c, admits, x) >= Profile(c, admits, y)
    ensures Profile(c, admits, y) >= Profile(c, admits, y + 1)
    decreases y
  {
    if y > peak {
      FallsFrom(c, admits, peak, if x < y then x else y - 1, y - 1);
      if Profile(c, admits, y) < Profile(c, admits, y + 1) {
        NeverRisesAgain(c, admits, y - 1);
      }
    }
  }

  /** Such a profile is unimodal on every range: there is a peak to search for. */
  lemma {:induction false} PeakExists(c: Curve, admits: int -> bool, lo: int, from: int, hi: int) returns (peak: int)
    requires c.Valid() && DownwardClosed(admits) && 0 <= lo <= from <= hi
    requires forall a: int :: lo <= a < from ==> Profile(c, admits, a) < Profile(c, admits, a + 1)
    ensures Unimodal(Compare(c, admits), lo, hi, peak)
    decreases hi - from
  {
    if from < hi && Profile(c, admits, from) < Profile(c, admits, from + 1) {
      peak := PeakExists(c, admits, lo, from + 1, hi);
    } else {
      peak := from;
      var less := Compare(c, admits);
      forall x: int, y: int | lo <= x < y <= peak ensures less(x, y) {
        RisesUpTo(c, admits, lo, x, y);
      }
      forall x: int, y: int | peak <= x < y <= hi ensures !less(x, y) {
        FallsFrom(c, admits, peak, x, y);
      }
    }
  }

  lemma OutTimes(c: Curve, a: real)
    requires c.Valid() && a >= 0.0
    ensures c.Out(a) * (c.D + c.E * a) == c.K * a
  {
    DenPositive(c, a);
  }

  lemma EqualQuotients(p: real, q: real, d: real)
    requires d > 0.0 && p * d == q * d
    ensures p == q
  {
    assert (p - q) * d == 0.0;
  }

  lemma OrderedQuotients(p: real, q: real, d: real)
    requires d > 0.0 && p * d <= q * d
    ensures p <= q
  {
    assert (p - q) * d == p * d - q * d;
    SignOfProduct(p - q, d);
  }

  lemma RealMono(x: real, y: real, z: real)
    requires x <= y && z >= 0.0
    ensures x * z <= y * z
  {
  }

  lemma RealPositive(x: real, y: real)
    requires x > 0.0 && y > 0.0
    ensures x * y > 0.0
  {
  }

  // ------------------------------------------------------------------------
  // One leg
  // ------------------------------------------------------------------------

  /** The pool trades the token at a price and a fee that are not zero. */
  predicate Live(tokenIn: Address, pool: PoolState) {
    && ReservesRanged(pool) && pool.Contains(tokenIn) && pool.token0 != pool.token1
    && SpotNum(tokenIn, pool) > 0 && SpotDen(tokenIn, pool) > 0 && FeeFactor(pool.feeTier) > 0
  }

  /** Spot price and fee are the slope at zero; a V3 pool keeps it, a V2 pool is worn down by the amount. */
  ghost function LegOf(tokenIn: Address, pool: PoolState): (c: Curve)
    requires Live(tokenIn, pool)
    ensures c.Valid()
  {
    var f := FeeFactor(pool.feeTier) as real;
    RealPositive(SpotNum(tokenIn, pool) as real, f);
    Curve(SpotNum(tokenIn, pool) as real * f, SpotDen(tokenIn, pool) as real * 10_000.0,
          if pool.dex.UniswapV3? then 0.0 else f)
  }

  function ChainNum(tokenIn: Address, pool: PoolState): nat {
    if tokenIn == pool.token0 then pool.reserve0 else TWO_96
  }

  function ChainDen(tokenIn: Address, pool: PoolState): nat {
    if tokenIn == pool.token0 then TWO_96 else pool.reserve0
  }

  lemma ChainIsSpot(tokenIn: Address, pool: PoolState)
    requires Live(tokenIn, pool) && pool.dex.UniswapV3?
    ensures SpotNum(tokenIn, pool) == Square(ChainNum(tokenIn, pool))
    ensures SpotDen(tokenIn, pool) == Square(ChainDen(tokenIn, pool))
    ensures pool.reserve0 > 0 && ChainNum(tokenIn, pool) > 0 && ChainDen(tokenIn, pool) > 0
  {
  }

  /** The amounts the pool does not refuse: the guards of `compute_output_v2` and `compute_output_v3`. */
  predicate Takes(tokenIn: Address, pool: PoolState, a: nat) {
    if !pool.dex.UniswapV3? then a <= SpotDen(tokenIn, pool)
    else
      ChainDen(tokenIn, pool) > 0
      && ChainFits(a, ChainNum(tokenIn, pool), ChainDen(tokenIn, pool), FeeFactor(pool.feeTier))
  }

  /** The floored quote without those guards. */
  function Quote(tokenIn: Address, pool: PoolState, a: nat): nat {
    if !pool.dex.UniswapV3? then
      ExactV2(a, SpotDen(tokenIn, pool), SpotNum(tokenIn, pool), FeeFactor(pool.feeTier))
    else if ChainDen(tokenIn, pool) == 0 then 0
    else ExactChain(a, ChainNum(tokenIn, pool), ChainDen(tokenIn, pool), FeeFactor(pool.feeTier))
  }

  lemma QuoteIs(tokenIn: Address, a: u256, pool: PoolState)
    requires Live(tokenIn, pool)
    ensures PoolOutput(tokenIn, a, pool) == if Takes(tokenIn, pool, a) then Quote(tokenIn, pool, a) else 0
  {
    hide PoolOutput, ExactChain, ChainFits, ExactV2;
    NothingWraps(tokenIn, a, pool);
    if pool.dex.UniswapV3? {
      ChainIsSpot(tokenIn, pool);
    }
  }

  /** A smaller amount is taken if a larger one is, and pays no more. */
  lemma QuoteMonotone(tokenIn: Address, pool: PoolState, a: nat, b: nat)
    requires Live(tokenIn, pool) && a <= b
    ensures Quote(tokenIn, pool, a) <= Quote(tokenIn, pool, b)
    ensures Takes(tokenIn, pool, b) ==> Takes(tokenIn, pool, a)
  {
    hide ExactChain, ChainFits, ExactV2;
    if pool.dex.UniswapV3? {
      ChainIsSpot(tokenIn, pool);
      QuoteV3Monotone(a, b, ChainNum(tokenIn, pool), ChainDen(tokenIn, pool), FeeFactor(pool.feeTier));
    } else {
      var f := FeeFactor(pool.feeTier);
      ConstantProduct.OutputMonotone(a, b, SpotDen(tokenIn, pool), SpotNum(tokenIn, pool), f, f);
    }
  }

  /** How far the floors of one leg can push its quote below the curve. */
  ghost function FloorError(tokenIn: Address, pool: PoolState): (e: real)
    requires Live(tokenIn, pool)
    ensures e >= 1.0
  {
    if !pool.dex.UniswapV3? then 1.0
    else
      ChainIsSpot(tokenIn, pool);
      ChainError(ChainNum(tokenIn, pool) as real / ChainDen(tokenIn, pool) as real, FeeFactor(pool.feeTier) as real)
  }

  ghost function ChainError(price: real, f: real): (e: real)
    requires price >= 0.0 && f >= 0.0
    ensures e >= 1.0
  {
    assert (price + 1.0) * (f / 10_000.0) >= 0.0;
    1.0 + (price + 1.0) * (f / 10_000.0)
  }

  /** The floored quote lies below the curve, by less than that error. */
  lemma QuoteNearCurve(tokenIn: Address, pool: PoolState, a: nat)
    requires Live(tokenIn, pool)
    ensures var out := LegOf(tokenIn, pool).Out(a as real); var quote := Quote(tokenIn, pool, a) as real;
            quote <= out < quote + FloorError(tokenIn, pool)
  {
    hide Curve.Out, ExactV2, ExactChain, SpotNum, SpotDen, Square;
    var f := FeeFactor(pool.feeTier);
    if pool.dex.UniswapV3? {
      ChainIsSpot(tokenIn, pool);
      ChainNearLine(LegOf(tokenIn, pool), a, ChainNum(tokenIn, pool), ChainDen(tokenIn, pool), f);
    } else {
      V2NearCurve(LegOf(tokenIn, pool), a, SpotDen(tokenIn, pool), SpotNum(tokenIn, pool), f);
    }
  }

  lemma V2NearCurve(c: Curve, a: nat, r: nat, R: nat, f: nat)
    requires r > 0 && R > 0 && f > 0
    requires c == Curve(R as real * f as real, r as real * 10_000.0, f as real) && c.Valid()
    ensures ExactV2(a, r, R, f) as real <= c.Out(a as real) < ExactV2(a, r, R, f) as real + 1.0
  {
    hide Curve.Out, ExactV2;
    V2Bounds(ExactV2(a, r, R, f), a, r, R, f);
    OutTimes(c, a as real);
    DenPositive(c, a as real);
    Between(ExactV2(a, r, R, f) as real, c.Out(a as real), c.D + c.E * a as real, c.K * a as real);
  }

  /** The bounds of the integer quotient, read as real numbers. */
  lemma V2Bounds(q: nat, a: nat, r: nat, R: nat, f: nat)
    requires r > 0 && R > 0 && q == ExactV2(a, r, R, f)
    ensures var den, num := r as real * 10_000.0 + f as real * a as real, R as real * f as real * a as real;
            q as real * den <= num < q as real * den + den
  {
    hide ExactV2;
    ExactV2Is(a, r, R, f);
    if a > 0 {
      QuotBounds(a * f * R, r * FEE_SCALE + a * f);
    }
    hide Quot;
    InReals(q, a, r, R, f, a * f, a * f * R);
  }

  lemma InReals(q: nat, a: nat, r: nat, R: nat, f: nat, x: nat, y: nat)
    requires x == a * f && y == x * R && r > 0
    requires q * (r * FEE_SCALE + x) <= y
    requires if a > 0 then y < q * (r * FEE_SCALE + x) + (r * FEE_SCALE + x) else q == 0
    ensures var den, num := r as real * 10_000.0 + f as real * a as real, R as real * f as real * a as real;
            q as real * den <= num < q as real * den + den
  {
    assert x as real == f as real * a as real;
    assert y as real == x as real * R as real;
    assert y as real == R as real * f as real * a as real;
    assert (q * (r * FEE_SCALE + x)) as real == q as real * (r as real * 10_000.0 + x as real);
  }

  lemma Between(q: real, out: real, den: real, num: real)
    requires den > 0.0 && out * den == num && q * den <= num < q * den + den
    ensures q <= out < q + 1.0
  {
    NotAbove(q, out, den, num, q * den);
    NotOneBelow(q, out, den, num, q * den);
  }

  lemma NotAbove(q: real, out: real, den: real, num: real, x: real)
    requires den > 0.0 && num == out * den && x == q * den && x <= num
    ensures q <= out
  {
    OrderedQuotients(q, out, den);
  }

  lemma NotOneBelow(q: real, out: real, den: real, num: real, x: real)
    requires den > 0.0 && num == out * den && x == q * den && num < x + den
    ensures out < q + 1.0
  {
    assert (out - (q + 1.0)) * den == num - (x + den);
    SignOfProduct((q + 1.0) - out, den);
  }

  lemma ChainNearLine(c: Curve, a: nat, num: nat, den: nat, f: nat)
    requires num > 0 && den > 0 && f > 0
    requires c == Curve(Square(num) as real * f as real, Square(den) as real * 10_000.0, 0.0) && c.Valid()
    ensures ExactChain(a, num, den, f) as real <= c.Out(a as real)
            < ExactChain(a, num, den, f) as real + ChainError(num as real / den as real, f as real)
  {
    hide *;
    var p, w := num as real / den as real, f as real / 10_000.0;
    LineIs(c, a as real, num, den, f, p, w);
    ChainFloors(a, num, den, f, p, w);
    ChainErrorIs(p, f as real, w);
  }

  /** The chain of three floors against the exact product of its rates. */
  lemma ChainFloors(a: nat, num: nat, den: nat, f: nat, p: real, w: real)
    requires den > 0 && p == num as real / den as real && w == f as real / 10_000.0
    ensures p >= 0.0 && w >= 0.0
    ensures var out := ExactChain(a, num, den, f) as real;
            out <= a as real * p * p * w < out + 1.0 + (p + 1.0) * w
  {
    hide *;
    var s1 := Scale(a, num, den);
    var s2 := Scale(s1, num, den);
    var out := ExactChain(a, num, den, f);
    ChainSteps(a, num, den, f);
    StepNear(a, num, den, s1, p);
    StepNear(s1, num, den, s2, p);
    FeeStepNear(s2, f, out, w);
    ThreeFloors(a as real, p, w, s1 as real, s2 as real, out as real);
  }

  lemma ChainSteps(a: nat, num: nat, den: nat, f: nat)
    requires den > 0
    ensures ExactChain(a, num, den, f) == Scale(Scale(Scale(a, num, den), num, den), f, FEE_SCALE)
  {
  }

  lemma ChainErrorIs(price: real, f: real, w: real)
    requires price >= 0.0 && f >= 0.0 && w == f / 10_000.0
    ensures ChainError(price, f) == 1.0 + (price + 1.0) * w
  {
  }

  /** One floored step, against the exact rate. */
  lemma StepNear(x: nat, num: nat, den: nat, y: nat, rate: real)
    requires den > 0 && y == Scale(x, num, den) && rate == num as real / den as real
    ensures y as real <= x as real * rate < y as real + 1.0 && rate >= 0.0
  {
    ScaleIs(x, num, den);
    QuotBounds(x * num, den);
    hide Scale, Quot;
    StepInReals(x * num, x, num, den, y, rate);
  }

  lemma FeeStepNear(x: nat, f: nat, y: nat, rate: real)
    requires y == Scale(x, f, FEE_SCALE) && rate == f as real / 10_000.0
    ensures y as real <= x as real * rate < y as real + 1.0 && rate >= 0.0
  {
    hide Scale;
    StepNear(x, f, FEE_SCALE, y, rate);
  }

  lemma StepInReals(product: nat, x: nat, num: nat, den: nat, y: nat, rate: real)
    requires den > 0 && rate == num as real / den as real && product == x * num
    requires y * den <= product < y * den + den
    ensures y as real <= x as real * rate < y as real + 1.0 && rate >= 0.0
  {
    var n, d := num as real, den as real;
    var taken := y * den;
    assert taken as real == y as real * d && product as real == x as real * n;
    assert rate * d == n;
    RateTimes(x as real, rate, d, n);
    Between(y as real, x as real * rate, d, x as real * n);
    OrderedQuotients(0.0, rate, d);
  }

  lemma RateTimes(x: real, rate: real, d: real, n: real)
    requires rate * d == n
    ensures (x * rate) * d == x * n
  {
  }

  lemma ThreeFloors(a: real, p: real, w: real, s1: real, s2: real, out: real)
    requires p >= 0.0 && w >= 0.0
    requires s1 <= a * p < s1 + 1.0 && s2 <= s1 * p < s2 + 1.0 && out <= s2 * w < out + 1.0
    ensures out <= a * p * p * w < out + 1.0 + (p + 1.0) * w
  {
    var x, y := a * p, a * p * p;
    RealMono(s1, x, p);
    RealMono(x, s1 + 1.0, p);
    assert (s1 + 1.0) * p == s1 * p + p;
    RealMono(s2, y, w);
    RealMono(y, s2 + 1.0 + p, w);
    assert (s2 + 1.0 + p) * w == s2 * w + (p + 1.0) * w;
  }

  lemma LineIs(c: Curve, a: real, num: nat, den: nat, f: nat, p: real, w: real)
    requires den > 0 && a >= 0.0 && p == num as real / den as real && w == f as real / 10_000.0
    requires c == Curve(Square(num) as real * f as real, Square(den) as real * 10_000.0, 0.0) && c.Valid()
    ensures c.Out(a) == a * p * p * w
  {
    var n, d := num as real, den as real;
    assert Square(num) as real == n * n && Square(den) as real == d * d;
    OutTimes(c, a);
    hide Curve.Out, Square;
    assert n == p * d && f as real == w * 10_000.0;
    assert c.K == ((p * d) * (p * d)) * (w * 10_000.0);
    LineAlgebra(a, p, w, d, c.K, c.D);
    EqualQuotients(c.Out(a), a * p * p * w, c.D);
  }

  lemma LineAlgebra(a: real, p: real, w: real, d: real, K: real, D: real)
    requires K == ((p * d) * (p * d)) * (w * 10_000.0) && D == d * d * 10_000.0
    ensures (a * p * p * w) * D == K * a
  {
    assert (p * d) * (p * d) == p * p * (d * d);
    assert K == (p * p * w) * D;
  }

  // ------------------------------------------------------------------------
  // The quotes written out, reserves and fee included
  // ------------------------------------------------------------------------

  /** A V2 pool pays the floor of a k R / (10_000 r + a k) with k = 10_000 - tier / 100, or refuses. */
  lemma V2QuoteIs(tokenIn: Address, a: u256, pool: PoolState)
    requires ReservesRanged(pool) && pool.Contains(tokenIn) && !pool.dex.UniswapV3? && pool.feeTier / 100 <= 10_000
    ensures var r := if tokenIn == pool.token0 then pool.reserve0 else pool.reserve1;
            var R := if tokenIn == pool.token0 then pool.reserve1 else pool.reserve0;
            var k, out := 10_000 - pool.feeTier / 100, PoolOutput(tokenIn, a, pool);
            if a > r || r == 0 || R == 0 then out == 0
            else
              out * (r * 10_000 + a * k) <= a * k * R < out * (r * 10_000 + a * k) + (r * 10_000 + a * k)
  {
    var r := if tokenIn == pool.token0 then pool.reserve0 else pool.reserve1;
    var R := if tokenIn == pool.token0 then pool.reserve1 else pool.reserve0;
    FactorIs(pool.feeTier);
    hide PoolOutput, ExactV2, FeeFactor;
    NothingWraps(tokenIn, a, pool);
    V2QuotientIs(a, r, R, 10_000 - pool.feeTier / 100);
  }

  lemma V2QuotientIs(a: nat, r: nat, R: nat, k: nat)
    ensures var out := ExactV2(a, r, R, k);
            if r == 0 || R == 0 then out == 0
            else out * (r * 10_000 + a * k) <= a * k * R < out * (r * 10_000 + a * k) + (r * 10_000 + a * k)
  {
    ExactV2Is(a, r, R, k);
    hide ExactV2;
    if a > 0 && r > 0 && R > 0 {
      QuotBounds(a * k * R, r * FEE_SCALE + a * k);
    } else if a == 0 {
      assert a * k == 0 && a * k * R == 0;
    }
  }

  /** `compute_v2` itself, for any amount and reserves whose products fit, and for the tiers that wrap as well. */
  lemma ComputeV2Is(a: u256, r: u256, R: u256, feeTier: u32)
    requires var k := if feeTier / 100 <= 10_000 then 10_000 - feeTier / 100
                      else 0x1_0000_0000 + 10_000 - feeTier / 100;
             V2Fits(a, r, R, k)
    ensures var k := if feeTier / 100 <= 10_000 then 10_000 - feeTier / 100
                     else 0x1_0000_0000 + 10_000 - feeTier / 100;
            var out := ComputeV2(a, r, R, feeTier);
            if r == 0 || R == 0 then out == 0
            else out * (r * 10_000 + a * k) <= a * k * R < out * (r * 10_000 + a * k) + (r * 10_000 + a * k)
  {
    FactorIs(feeTier);
    hide FeeFactor, ComputeV2, ExactV2, V2Fits;
    ComputeV2Exact(a, r, R, feeTier);
    V2QuotientIs(a, r, R, FeeFactor(feeTier));
  }

  /** A V3 pool pays price^2 x the kept fraction, less what its three floors take, or refuses. */
  lemma V3QuoteIs(tokenIn: Address, a: u256, pool: PoolState)
    requires ReservesRanged(pool) && pool.Contains(tokenIn) && pool.dex.UniswapV3? && pool.feeTier / 100 <= 10_000
    ensures var k, out := 10_000 - pool.feeTier / 100, PoolOutput(tokenIn, a, pool);
            var num := if tokenIn == pool.token0 then pool.reserve0 else 0x1_0000_0000_0000_0000_0000_0000;
            var den := if tokenIn == pool.token0 then 0x1_0000_0000_0000_0000_0000_0000 else pool.reserve0;
            if pool.reserve0 == 0 || !ChainFits(a, num, den, k) then out == 0
            else
              var p, w := num as real / den as real, k as real / 10_000.0;
              out as real <= a as real * p * p * w < out as real + 1.0 + (p + 1.0) * w
  {
    FactorIs(pool.feeTier);
    hide PoolOutput, ExactChain, ChainFits, FeeFactor;
    NothingWraps(tokenIn, a, pool);
    if pool.reserve0 > 0 {
      var num := if tokenIn == pool.token0 then pool.reserve0 else TWO_96;
      var den := if tokenIn == pool.token0 then TWO_96 else pool.reserve0;
      var k := 10_000 - pool.feeTier / 100;
      ChainFloors(a, num, den, k, num as real / den as real, k as real / 10_000.0);
    }
  }

  // ------------------------------------------------------------------------
  // Two legs
  // ------------------------------------------------------------------------

  /** One leg after the other. */
  ghost function Then(x: Curve, y: Curve): (c: Curve)
    requires x.Valid() && y.Valid()
    ensures c.Valid()
  {
    assert x.K * y.K > 0.0 && x.D * y.D > 0.0 && x.E * y.D >= 0.0 && x.K * y.E >= 0.0;
    Curve(x.K * y.K, x.D * y.D, x.E * y.D + x.K * y.E)
  }

  lemma ThenComposes(x: Curve, y: Curve, a: real)
    requires x.Valid() && y.Valid() && a >= 0.0
    ensures Then(x, y).Out(a) == y.Out(x.Out(a))
  {
    hide Curve.Out, Then;
    var c := Then(x, y);
    ThenIs(x, y);
    OutTimes(x, a);
    OutTimes(y, x.Out(a));
    OutTimes(c, a);
    DenPositive(c, a);
    ThenAlgebra(x, y, c, a, x.Out(a), y.Out(x.Out(a)));
    EqualQuotients(c.Out(a), y.Out(x.Out(a)), c.D + c.E * a);
  }

  lemma ThenIs(x: Curve, y: Curve)
    requires x.Valid() && y.Valid()
    ensures Then(x, y) == Curve(x.K * y.K, x.D * y.D, x.E * y.D + x.K * y.E)
  {
  }

  lemma ThenAlgebra(x: Curve, y: Curve, c: Curve, a: real, mid: real, out: real)
    requires c == Curve(x.K * y.K, x.D * y.D, x.E * y.D + x.K * y.E)
    requires mid * (x.D + x.E * a) == x.K * a && out * (y.D + y.E * mid) == y.K * mid
    ensures out * (c.D + c.E * a) == c.K * a
  {
    var u := x.D + x.E * a;
    assert (y.D + y.E * mid) * u == y.D * u + y.E * (mid * u);
    assert y.D * u + y.E * (x.K * a) == c.D + c.E * a;
    assert (out * (y.D + y.E * mid)) * u == out * (c.D + c.E * a);
    assert (y.K * mid) * u == y.K * (mid * u);
  }

  predicate LivePath(path: PartialPath) {
    Routable(path) && Live(path.tokenIn, path.poolA) && Live(path.tokenMid, path.poolB)
  }

  ghost function CurveOf(path: PartialPath): (c: Curve)
    requires LivePath(path)
    ensures c.Valid()
  {
    Then(LegOf(path.tokenIn, path.poolA), LegOf(path.tokenMid, path.poolB))
  }

  /** The amounts neither leg refuses. */
  ghost function Admits(path: PartialPath): int -> bool {
    (a: int) => 0 <= a && Takes(path.tokenIn, path.poolA, a)
                && Takes(path.tokenMid, path.poolB, Quote(path.tokenIn, path.poolA, a))
  }

  lemma AdmitsDownward(path: PartialPath)
    requires LivePath(path)
    ensures DownwardClosed(Admits(path))
  {
    hide Takes, Quote, Live;
    var admits := Admits(path);
    forall a: int, b: int | 0 < a <= b && admits(b) ensures admits(a) {
      QuoteMonotone(path.tokenIn, path.poolA, a, b);
      QuoteMonotone(path.tokenMid, path.poolB, Quote(path.tokenIn, path.poolA, a), Quote(path.tokenIn, path.poolA, b));
    }
  }

  /** The floored output of a path, and what its floors can lose against the curve. */
  lemma OutputNearCurve(path: PartialPath, a: u256)
    requires LivePath(path)
    ensures var out := PoolOutput(path.tokenMid, PoolOutput(path.tokenIn, a, path.poolA), path.poolB) as real;
            if Admits(path)(a) then out <= CurveOf(path).Out(a as real) < out + FloorLoss(path) else out == 0.0
  {
    hide PoolOutput, Takes, Quote, Live, CurveOf, Curve.Out, FloorLoss;
    var mid := PoolOutput(path.tokenIn, a, path.poolA);
    QuoteIs(path.tokenIn, a, path.poolA);
    QuoteIs(path.tokenMid, mid, path.poolB);
    QuoteOfNothing(path.tokenMid, path.poolB);
    if Admits(path)(a) {
      QuotesNearCurve(path, a, mid);
    }
  }

  lemma QuotesNearCurve(path: PartialPath, a: nat, mid: nat)
    requires LivePath(path) && mid == Quote(path.tokenIn, path.poolA, a)
    ensures var out := Quote(path.tokenMid, path.poolB, mid) as real;
            out <= CurveOf(path).Out(a as real) < out + FloorLoss(path)
  {
    hide Quote, Live, LegOf, Curve.Out, FloorError;
    var x, y := LegOf(path.tokenIn, path.poolA), LegOf(path.tokenMid, path.poolB);
    QuoteNearCurve(path.tokenIn, path.poolA, a);
    QuoteNearCurve(path.tokenMid, path.poolB, mid);
    ThenComposes(x, y, a as real);
    Gentle(y, mid as real, x.Out(a as real), FloorError(path.tokenIn, path.poolA));
  }

  lemma QuoteOfNothing(tokenIn: Address, pool: PoolState)
    requires Live(tokenIn, pool)
    ensures Quote(tokenIn, pool, 0) == 0
  {
    hide ExactV2, ExactChain;
    if pool.dex.UniswapV3? {
      ChainIsSpot(tokenIn, pool);
      ZeroChain(ChainNum(tokenIn, pool), ChainDen(tokenIn, pool), FeeFactor(pool.feeTier));
    } else {
      ConstantProduct.QuoteOfNothing(SpotDen(tokenIn, pool), SpotNum(tokenIn, pool), FeeFactor(pool.feeTier));
    }
  }

  /** What the floors of both legs can lose: the first leg's error at the second leg's price, and the second's. */
  ghost function FloorLoss(path: PartialPath): (loss: real)
    requires LivePath(path)
    ensures loss >= 1.0
  {
    var y := LegOf(path.tokenMid, path.poolB);
    var e := FloorError(path.tokenIn, path.poolA);
    assert y.K / y.D >= 0.0;
    assert (y.K / y.D) * e >= 0.0;
    (y.K / y.D) * e + FloorError(path.tokenMid, path.poolB)
  }

  ghost function Den(c: Curve, a: real): real { c.D + c.E * a }

  lemma OutTimesDen(c: Curve, a: real)
    requires c.Valid() && a >= 0.0
    ensures c.Out(a) * Den(c, a) == c.K * a && Den(c, a) >= c.D > 0.0
  {
    hide Curve.Out;
    OutTimes(c, a);
    DenPositive(c, a);
  }

  /** h more in gain `gap` more out; A and B are the denominators before and after, s is K D. */
  ghost predicate Gains(gap: real, A: real, B: real, s: real, h: real) {
    gap >= 0.0 && A > 0.0 && B > 0.0 && h >= 0.0 && gap * (A * B) == s * h
  }

  lemma GapIs(c: Curve, x: real, y: real)
    requires c.Valid() && 0.0 <= x <= y
    ensures Gains(c.Out(y) - c.Out(x), Den(c, x), Den(c, y), c.K * c.D, y - x)
  {
    RealPositive(c.K, c.D);
    OutTimesDen(c, x);
    OutTimesDen(c, y);
    hide Curve.Out, Gains;
    GapAlgebra(c, x, y, Den(c, x), Den(c, y), c.Out(x), c.Out(y));
    hide *;
    GapPositive(c.Out(y) - c.Out(x), Den(c, x), Den(c, y), c.K * c.D, y - x);
  }

  lemma GapAlgebra(c: Curve, x: real, y: real, A: real, B: real, p: real, q: real)
    requires A == c.D + c.E * x && B == c.D + c.E * y
    requires p * A == c.K * x && q * B == c.K * y
    ensures (q - p) * (A * B) == (c.K * c.D) * (y - x)
  {
    assert (q * B) * A - (p * A) * B == c.K * y * A - c.K * x * B;
    assert c.K * y * A - c.K * x * B == c.K * c.D * (y - x);
    assert (q - p) * (A * B) == (q * B) * A - (p * A) * B;
  }

  lemma GapPositive(gap: real, A: real, B: real, s: real, h: real)
    requires A > 0.0 && B > 0.0 && s > 0.0 && h >= 0.0 && gap * (A * B) == s * h
    ensures Gains(gap, A, B, s, h)
  {
    RealPositive(A, B);
    RealMono(0.0, s, h);
    OrderedQuotients(0.0, gap, A * B);
  }

  /** A curve rises, and nowhere more steeply than at zero. */
  lemma OutGap(c: Curve, x: real, y: real)
    requires c.Valid() && 0.0 <= x <= y
    ensures 0.0 <= c.Out(y) - c.Out(x) <= (c.K / c.D) * (y - x)
  {
    hide Curve.Out, Den, Gains;
    OutTimesDen(c, x);
    OutTimesDen(c, y);
    GapIs(c, x, y);
    SlopeBound(c.Out(y) - c.Out(x), Den(c, x), Den(c, y), c.K, c.D, c.K * c.D, y - x);
  }

  lemma SlopeBound(gap: real, A: real, B: real, K: real, D: real, s: real, h: real)
    requires D > 0.0 && A >= D && B >= D && K > 0.0 && s == K * D && Gains(gap, A, B, s, h)
    ensures 0.0 <= gap <= (K / D) * h
  {
    SquareBelow(D, A, B);
    RealMono(D * D, A * B, gap);
    var slope := K / D;
    assert slope * D == K;
    assert (slope * h) * (D * D) == K * D * h;
    OrderedQuotients(gap, slope * h, D * D);
  }

  lemma SquareBelow(D: real, A: real, B: real)
    requires 0.0 < D <= A && D <= B
    ensures A * B >= D * D > 0.0
  {
    RealPositive(D, D);
    RealMono(0.0, A - D, B);
    RealMono(0.0, B - D, D);
    assert A * B == D * D + (A - D) * B + (B - D) * D;
  }

  lemma Gentle(c: Curve, x: real, y: real, e: real)
    requires c.Valid() && 0.0 <= x <= y < x + e
    ensures c.Out(x) <= c.Out(y) <= c.Out(x) + (c.K / c.D) * e
  {
    OutGap(c, x, y);
    var slope := c.K / c.D;
    assert slope > 0.0;
    assert slope * (y - x) <= slope * e;
  }

  // ------------------------------------------------------------------------
  // Profit against profile
  // ------------------------------------------------------------------------

  /** The code's profit lies below the un-floored profile, by less than the loss, at every amount. */
  lemma ProfitNearProfile(path: PartialPath, a: u256)
    requires LivePath(path)
    ensures var profile := Profile(CurveOf(path), Admits(path), a);
            PathProfit(path, a) as real <= profile < PathProfit(path, a) as real + FloorLoss(path)
  {
    hide PoolOutput, CurveOf, Admits, FloorLoss, LivePath, Curve.Out;
    OutputNearCurve(path, a);
    if a == 0 {
      NothingFromNothing(CurveOf(path));
    }
  }

  lemma NothingFromNothing(c: Curve)
    requires c.Valid()
    ensures c.Out(0.0) == 0.0
  {
  }
}
