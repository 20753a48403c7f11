/**
  The loan-amount search (crates/detector/src/opportunity.rs:249-275): 64
  rounds of ternary search over [1e6, 1e24], for any comparison of amounts.
 */
module TernarySearch {
  import opened Words
  import opened Types
  import opened Amm
  import opened TwoHop

  const ROUNDS: nat := 64
  const LOWEST: u256 := 1_000_000
  const HIGHEST: u256 := 1_000_000_000_000_000_000_000_000

  /** Bracket width once all rounds have run, to within one; half of it, rounded up. */
  const MIN_WIDTH: nat := 5_372_289_657_159
  const HALF_WIDTH: nat := 2_686_144_828_580
  /** No search returns less than this. */
  const LEAST_ANSWER: nat := LOWEST + MIN_WIDTH / 2

  datatype Bracket = Bracket(low: int, high: int)

  const START: Bracket := Bracket(LOWEST, HIGHEST)

  function Third(b: Bracket): nat
    requires b.low <= b.high
  {
    (b.high - b.low) / 3
  }

  /** One round; `less(x, y)` stands for the test `profit(x) < profit(y)`. */
  function Cut(less: (int, int) -> bool, b: Bracket): (r: Bracket)
    requires b.low <= b.high
    ensures b.low <= r.low <= r.high <= b.high
    ensures r.high - r.low == (b.high - b.low) - Third(b)
  {
    if less(b.low + Third(b), b.high - Third(b)) then b.(low := b.low + Third(b))
    else b.(high := b.high - Third(b))
  }

  function Search(less: (int, int) -> bool, b: Bracket, rounds: nat): Bracket
    requires b.low <= b.high
    decreases rounds
  {
    if rounds == 0 || b.low >= b.high || Third(b) == 0 then b
    else Search(less, Cut(less, b), rounds - 1)
  }

  /** Width after n rounds of w' = w - floor(w / 3). */
  function WidthAfter(w: nat, n: nat): nat {
    if n == 0 then w else WidthAfter(w - w / 3, n - 1)
  }

  lemma {:induction false} NarrowWidthStays(w: nat, n: nat)
    requires w < 3
    ensures WidthAfter(w, n) == w
  {
    if n > 0 {
      NarrowWidthStays(w, n - 1);
    }
  }

  /** The bracket shrinks by the same amount whatever the profits are, and never leaves its bounds. */
  lemma {:induction false} WidthIgnoresProfits(less: (int, int) -> bool, b: Bracket, rounds: nat)
    requires b.low <= b.high
    ensures var r := Search(less, b, rounds);
            && b.low <= r.low <= r.high <= b.high
            && r.high - r.low == WidthAfter(b.high - b.low, rounds)
    decreases rounds
  {
    var w := b.high - b.low;
    if rounds == 0 {
    } else if Third(b) == 0 {
      NarrowWidthStays(w, rounds);
    } else {
      WidthIgnoresProfits(less, Cut(less, b), rounds - 1);
    }
  }

  lemma {:induction false} WidthSplits(w: nat, m: nat, n: nat)
    ensures WidthAfter(w, m + n) == WidthAfter(WidthAfter(w, m), n)
  {
    if m > 0 {
      WidthSplits(w - w / 3, m - 1, n);
    }
  }

  lemma {:induction false} WidthFalls(w: nat, n: nat)
    ensures WidthAfter(w, n) <= w
  {
    if n > 0 {
      WidthFalls(w - w / 3, n - 1);
    }
  }

  function Pow2(n: nat): nat { if n == 0 then 1 else 2 * Pow2(n - 1) }

  function Pow3(n: nat): nat { if n == 0 then 1 else 3 * Pow3(n - 1) }

  /** n rounds scale the width by (2/3)^n, up to an error below 2. */
  lemma {:induction false} WidthIsGeometric(w: nat, n: nat)
    ensures Pow2(n) * w <= Pow3(n) * WidthAfter(w, n)
    ensures Pow3(n) * WidthAfter(w, n) <= Pow2(n) * w + 2 * (Pow3(n) - Pow2(n))
  {
    if n > 0 {
      var v := w - w / 3;
      WidthIsGeometric(v, n - 1);
      GeometricStep(w, v, Pow2(n - 1), Pow3(n - 1), WidthAfter(v, n - 1));
    }
  }

  lemma GeometricStep(w: nat, v: nat, two: nat, three: nat, end: nat)
    requires 2 * w <= 3 * v <= 2 * w + 2
    requires two * v <= three * end <= two * v + 2 * (three - two)
    ensures (2 * two) * w <= (3 * three) * end <= (2 * two) * w + 2 * (3 * three - 2 * two)
  {
    MulMono(3 * v - 2 * w, 2, two, two);
    Distribute(two, v, w);
    PullOut(2, two, w);
    PullOut(3, three, end);
  }

  lemma Distribute(two: nat, v: nat, w: nat)
    ensures (3 * v - 2 * w) * two == 3 * (two * v) - 2 * (two * w)
  {
  }

  lemma {:induction false} Pow2Adds(m: nat, n: nat)
    ensures Pow2(m + n) == Pow2(m) * Pow2(n)
  {
    if m > 0 {
      Pow2Adds(m - 1, n);
      assert Pow2(m + n) == 2 * Pow2(m - 1 + n) && Pow2(m) == 2 * Pow2(m - 1);
      hide Pow2;
      PullOut(2, Pow2(m - 1), Pow2(n));
    }
  }

  lemma {:induction false} Pow3Adds(m: nat, n: nat)
    ensures Pow3(m + n) == Pow3(m) * Pow3(n)
  {
    if m > 0 {
      Pow3Adds(m - 1, n);
      assert Pow3(m + n) == 3 * Pow3(m - 1 + n) && Pow3(m) == 3 * Pow3(m - 1);
      hide Pow3;
      PullOut(3, Pow3(m - 1), Pow3(n));
    }
  }

  lemma PullOut(k: nat, x: nat, y: nat)
    ensures k * (x * y) == (k * x) * y
  {
  }

  lemma PowersDouble(n: nat, two: nat, three: nat)
    requires Pow2(n) == two && Pow3(n) == three
    ensures Pow2(n + n) == two * two && Pow3(n + n) == three * three
  {
    Pow2Adds(n, n);
    Pow3Adds(n, n);
  }

  lemma PowersOf64(n: nat)
    requires n == 8
    ensures Pow2(8 * n) == TWO_64 && Pow3(8 * n) == 3433683820292512484657849089281
  {
    var one := n / 8;
    PowersOfOne(one);
    hide Pow2, Pow3;
    PowersDouble(one, 2, 3);
    PowersDouble(2 * one, 4, 9);
    PowersDouble(4 * one, 16, 81);
    PowersDouble(n, 256, 6561);
    PowersDouble(2 * n, 65536, 43046721);
    PowersDouble(4 * n, TWO_32, 1853020188851841);
  }

  lemma PowersOfOne(n: nat)
    requires n == 1
    ensures Pow2(n) == 2 && Pow3(n) == 3
  {
    assert Pow2(n - 1) == 1 && Pow3(n - 1) == 1;
  }

  /** The search always ends with a bracket about 5.4e12 wide. */
  lemma FinalWidth()
    ensures MIN_WIDTH <= WidthAfter(HIGHEST - LOWEST, ROUNDS) <= MIN_WIDTH + 1
  {
    WidthIsGeometric(HIGHEST - LOWEST, ROUNDS);
    PowersOf64(8);
  }

  /** Neither `break` of the loop ever fires: every round still has a third to cut. */
  lemma EveryRoundCuts(n: nat)
    requires n <= ROUNDS
    ensures WidthAfter(HIGHEST - LOWEST, n) / 3 > 0
  {
    FinalWidth();
    WidthSplits(HIGHEST - LOWEST, n, ROUNDS - n);
    WidthFalls(WidthAfter(HIGHEST - LOWEST, n), ROUNDS - n);
  }

  // ------------------------------------------------------------------------
  // Profiles that rise strictly and then never rise
  // ------------------------------------------------------------------------

  ghost predicate Unimodal(less: (int, int) -> bool, lo: int, hi: int, peak: int) {
    && lo <= peak <= hi
    && (forall x: int, y: int :: lo <= x < y <= peak ==> less(x, y))
    && (forall x: int, y: int :: peak <= x < y <= hi ==> !less(x, y))
  }

  /** The bracket always contains the peak. */
  lemma {:induction false} PeakStaysInside(less: (int, int) -> bool, b: Bracket, rounds: nat, peak: int)
    requires Unimodal(less, b.low, b.high, peak)
    ensures var r := Search(less, b, rounds); r.low <= peak <= r.high
    decreases rounds
  {
    if rounds > 0 && Third(b) > 0 {
      CutKeepsPeak(less, b, peak);
      PeakStaysInside(less, Cut(less, b), rounds - 1, peak);
    }
  }

  lemma CutKeepsPeak(less: (int, int) -> bool, b: Bracket, peak: int)
    requires Unimodal(less, b.low, b.high, peak) && Third(b) > 0
    ensures var r := Cut(less, b); Unimodal(less, r.low, r.high, peak)
  {
    var m1, m2 := b.low + Third(b), b.high - Third(b);
    assert m1 < m2;
    if less(m1, m2) {
      assert peak > m1;
    } else {
      assert peak <= m2;
    }
  }

  /** The peak is a maximiser of a unimodal profile. */
  lemma PeakIsBest(profit: int -> real, lo: int, hi: int, peak: int, x: int)
    requires Unimodal((x: int, y: int) => profit(x) < profit(y), lo, hi, peak) && lo <= x <= hi
    ensures profit(x) <= profit(peak)
  {
    var less := (x: int, y: int) => profit(x) < profit(y);
    if x < peak {
      assert less(x, peak);
    } else if peak < x {
      assert !less(peak, x);
    }
  }

  function Midpoint(less: (int, int) -> bool, rounds: nat): u256 {
    WidthIgnoresProfits(less, START, rounds);
    var b := Search(less, START, rounds);
    (b.low + b.high) / 2
  }

  /** The returned amount is in range, and half a bracket away from either end, whatever the profits. */
  lemma MidpointRange(less: (int, int) -> bool)
    ensures LEAST_ANSWER <= Midpoint(less, ROUNDS) <= HIGHEST - MIN_WIDTH / 2
  {
    hide Search, WidthAfter;
    WidthIgnoresProfits(less, START, ROUNDS);
    FinalWidth();
  }

  /** On a unimodal profile the returned amount is within the half-width of the maximiser. */
  lemma MidpointNearPeak(less: (int, int) -> bool, peak: int)
    requires Unimodal(less, LOWEST, HIGHEST, peak)
    ensures Midpoint(less, ROUNDS) <= peak + HALF_WIDTH && peak <= Midpoint(less, ROUNDS) + HALF_WIDTH
  {
    hide Search, WidthAfter;
    WidthIgnoresProfits(less, START, ROUNDS);
    FinalWidth();
    PeakStaysInside(less, START, ROUNDS, peak);
  }

  // ------------------------------------------------------------------------
  // The search on a path's floored profit
  // ------------------------------------------------------------------------

  function Rises(path: PartialPath): (int, int) -> bool {
    (x: int, y: int) => 0 <= x < TWO_256 && 0 <= y < TWO_256 && PathProfit(path, x) < PathProfit(path, y)
  }

  function OptimalAmount(path: PartialPath): u256 { Midpoint(Rises(path), ROUNDS) }

  /** Every sum and difference below fits in 256 bits: the types of `low` to `m2` say so. */
  method Converge(less: (int, int) -> bool, rounds: nat) returns (amount: u256)
    ensures amount == Midpoint(less, rounds)
  {
    var low: u256 := LOWEST;
    var high: u256 := HIGHEST;
    hide Search;
    ghost var goal := Search(less, START, rounds);
    for i := 0 to rounds
      invariant LOWEST <= low <= high <= HIGHEST
      invariant Search(less, Bracket(low, high), rounds - i) == goal
    {
      SearchStep(less, Bracket(low, high), rounds - i);
      if low >= high {
        break;
      }
      var third: u256 := (high - low) / 3;
      if third == 0 {
        break;
      }
      var m1: u256 := low + third;
      var m2: u256 := high - third;
      ghost var next := Cut(less, Bracket(low, high));
      if less(m1, m2) {
        low := m1;
      } else {
        high := m2;
      }
      assert Bracket(low, high) == next;
    }
    SearchStep(less, Bracket(low, high), 0);
    assert Bracket(low, high) == goal;
    amount := (low + high) / 2;
  }

  lemma SearchStep(less: (int, int) -> bool, b: Bracket, rounds: nat)
    requires b.low <= b.high
    ensures Search(less, b, rounds)
         == if rounds == 0 || b.low >= b.high || Third(b) == 0 then b else Search(less, Cut(less, b), rounds - 1)
  {
  }

  method OptimalFlashLoanAmount(path: PartialPath) returns (amount: u256)
    ensures amount == OptimalAmount(path)
  {
    amount := Converge(Rises(path), ROUNDS);
  }

  function InputReserve(path: PartialPath): u256 {
    if path.tokenIn == path.poolA.token0 then path.poolA.reserve0 else path.poolA.reserve1
  }

  /**
    The search has a blind spot. 64 rounds leave a bracket about 5.4e12 wide,
    so the amount it returns is never below LEAST_ANSWER (about 2.7e12); a V2 first pool
    holding less than that refuses the amount, and the estimate is zero
    whatever the second pool pays.
   */
  lemma BlindToSmallPools(path: PartialPath)
    requires !path.poolA.dex.UniswapV3? && InputReserve(path) < LEAST_ANSWER
    ensures PathProfit(path, OptimalAmount(path)) == 0
  {
    hide Midpoint, PriceChain, ComputeV2;
    MidpointRange(Rises(path));
    assert PoolOutput(path.tokenIn, OptimalAmount(path), path.poolA) == 0;
  }

  const SMALL_CHEAP: PoolState := PoolState(10, 1, 2, 1_000_000_000, 2_000_000_000, 3000, 1, CamelotV2)
  const SMALL_DEAR: PoolState := PoolState(11, 1, 2, 1_000_000_000, 1_000_000_000, 3000, 1, SushiSwap)

  lemma SmallPoolsPay()
    ensures PathProfit(PartialPath(1, SMALL_CHEAP, 2, SMALL_DEAR), LOWEST) > 0
  {
    hide PoolOutput;
    QuoteV2(1, LOWEST, SMALL_CHEAP, 1_992_013);
    QuoteV2(2, 1_992_013, SMALL_DEAR, 1_982_100);
    TwoQuotes(PartialPath(1, SMALL_CHEAP, 2, SMALL_DEAR), LOWEST, 1_992_013, 1_982_100);
  }

  /** So the search does not reach the global maximum its comment promises. */
  lemma MaximumMissed()
    ensures PathProfit(PartialPath(1, SMALL_CHEAP, 2, SMALL_DEAR), LOWEST) > 0
    ensures PathProfit(PartialPath(1, SMALL_CHEAP, 2, SMALL_DEAR),
                       OptimalAmount(PartialPath(1, SMALL_CHEAP, 2, SMALL_DEAR))) == 0
  {
    hide PathProfit, OptimalAmount;
    SmallPoolsPay();
    BlindToSmallPools(PartialPath(1, SMALL_CHEAP, 2, SMALL_DEAR));
  }

  lemma TwoQuotes(path: PartialPath, a: u256, mid: u256, out: u256)
    requires PoolOutput(path.tokenIn, a, path.poolA) == mid && PoolOutput(path.tokenMid, mid, path.poolB) == out
    ensures PathProfit(path, a) == SaturatingSub(out, a)
  {
    hide PoolOutput;
  }

  lemma QuoteV2(tokenIn: Address, a: u256, pool: PoolState, out: nat)
    requires ReservesRanged(pool) && !pool.dex.UniswapV3? && pool.Contains(tokenIn) && pool.feeTier == 3000
    requires var r, R := SpotDen(tokenIn, pool), SpotNum(tokenIn, pool);
             && 0 < a <= r && R > 0 && 0 < a * R
             && out * (r * 10_000 + a * 9970) <= a * 9970 * R < out * (r * 10_000 + a * 9970) + (r * 10_000 + a * 9970)
    ensures PoolOutput(tokenIn, a, pool) == out
  {
    hide PoolOutput, SpotNum, SpotDen, ExactV2;
    NothingWraps(tokenIn, a, pool);
    PlainQuote(a, SpotDen(tokenIn, pool), SpotNum(tokenIn, pool), out);
    assert FeeFactor(pool.feeTier) == 9970;
    QuoteOfV2(tokenIn, a, pool);
  }

  lemma QuoteOfV2(tokenIn: Address, a: u256, pool: PoolState)
    requires !pool.dex.UniswapV3? && pool.Contains(tokenIn) && a <= SpotDen(tokenIn, pool)
    ensures ExactOutput(tokenIn, a, pool)
         == ExactV2(a, SpotDen(tokenIn, pool), SpotNum(tokenIn, pool), FeeFactor(pool.feeTier))
  {
    hide ExactV2;
  }

  lemma PlainQuote(a: nat, r: nat, R: nat, out: nat)
    requires 0 < a <= r && R > 0 && 0 < a * R
    requires out * (r * 10_000 + a * 9970) <= a * 9970 * R < out * (r * 10_000 + a * 9970) + (r * 10_000 + a * 9970)
    ensures ExactV2(a, r, R, 9970) == out
  {
    ExactV2Is(a, r, R, 9970);
    hide ExactV2, Quot;
    QuotIs(out, a * 9970 * R, r * 10_000 + a * 9970);
  }
}
