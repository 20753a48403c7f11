/**
  What a constant-product pool can and cannot be made to pay, floors and fee
  included (crates/detector/src/opportunity.rs:33-45; the scenarios are those
  of tests/property/mod.rs:66-193): first over unbounded integers, then of the
  wrapping formula.
 */
module ConstantProduct {
  import opened Words
  import opened Amm

  /** The quotient never overshoots its own fraction, and never drains the pool. */
  lemma OutputBound(a: nat, r: nat, R: nat, f: nat)
    ensures ExactV2(a, r, R, f) * (r * FEE_SCALE + a * f) <= a * f * R
    ensures R > 0 ==> ExactV2(a, r, R, f) < R
    ensures ExactV2(a, r, R, f) <= R
  {
    ExactV2Is(a, r, R, f);
    hide ExactV2;
    if a != 0 && r != 0 && R != 0 {
      QuotBounds(a * f * R, r * FEE_SCALE + a * f);
      QuotientBound(a * f, r * FEE_SCALE, R, Quot(a * f * R, r * FEE_SCALE + a * f));
    }
  }

  lemma QuotientBound(x: nat, c: nat, R: nat, q: nat)
    requires c > 0 && R > 0 && q * (c + x) <= x * R
    ensures q < R
  {
    assert R * (c + x) == R * c + x * R;
    MulMono(1, R, c, c);
    if q >= R {
      MulMono(R, q, c + x, c + x);
    }
  }

  /** What is paid out never exceeds the fee-free share: out / (R - out) <= a / r. */
  lemma FeeFreeShare(a: nat, r: nat, R: nat, f: nat)
    requires f <= FEE_SCALE
    ensures ExactV2(a, r, R, f) <= R
    ensures ExactV2(a, r, R, f) * r <= a * (R - ExactV2(a, r, R, f))
  {
    hide ExactV2;
    OutputBound(a, r, R, f);
    FeeFreeArithmetic(a, r, R, f, ExactV2(a, r, R, f));
  }

  lemma FeeFreeArithmetic(a: nat, r: nat, R: nat, f: nat, out: nat)
    requires f <= FEE_SCALE && out <= R && out * (r * FEE_SCALE + a * f) <= a * f * R
    ensures out * r <= a * (R - out)
  {
    var paid, kept, back := out * r, a * out, a * (R - out);
    assert out * (r * FEE_SCALE + a * f) == FEE_SCALE * paid + f * kept;
    assert a * f * R == f * back + f * kept;
    MulMono(0, a, 0, R - out);
    MulMono(f, FEE_SCALE, back, back);
  }

  /** Property test 5: more in, never less out. Also in the fee factor (test 6). */
  lemma OutputMonotone(a: nat, b: nat, r: nat, R: nat, f: nat, g: nat)
    requires a <= b && f <= g
    ensures ExactV2(a, r, R, f) <= ExactV2(b, r, R, g)
  {
    if a != 0 && r != 0 && R != 0 {
      var q := ExactV2(a, r, R, f);
      OutputBound(a, r, R, f);
      hide ExactV2;
      MulMono(a, b, f, g);
      MonotoneArithmetic(q, a * f, b * g, r * FEE_SCALE, R);
      QuoteGreatest(q, b, r, R, g);
    }
  }

  lemma MonotoneArithmetic(q: nat, x: nat, y: nat, c: nat, R: nat)
    requires x <= y && q <= R && q * (c + x) <= x * R
    ensures q * (c + y) <= y * R
  {
    assert q * (c + y) == q * (c + x) + q * (y - x);
    MulMono(q, R, y - x, y - x);
    assert x * R + R * (y - x) == y * R;
  }

  /** A trade never lowers the product of the reserves. */
  lemma ProductNeverFalls(a: nat, r: nat, R: nat, f: nat)
    requires f <= FEE_SCALE
    ensures ExactV2(a, r, R, f) <= R
    ensures (r + a) * (R - ExactV2(a, r, R, f)) >= r * R
  {
    hide ExactV2;
    FeeFreeShare(a, r, R, f);
    var out := ExactV2(a, r, R, f);
    assert (r + a) * (R - out) == r * R + (a * (R - out) - out * r);
  }

  /** Property test 8 for every pool, amount and fee: trading there and back never gains. */
  lemma ThereAndBackNeverGains(a: nat, r: nat, R: nat, f: nat)
    requires f <= FEE_SCALE
    ensures ExactV2(a, r, R, f) <= R
    ensures ExactV2(ExactV2(a, r, R, f), R - ExactV2(a, r, R, f), r + a, f) <= a
  {
    FeeFreeShare(a, r, R, f);
    var out := ExactV2(a, r, R, f);
    hide ExactV2;
    FeeFreeShare(out, R - out, r + a, f);
    BackBound(a, r, R, out, ExactV2(out, R - out, r + a, f));
  }

  lemma BackBound(a: nat, r: nat, R: nat, out: nat, back: nat)
    requires out <= R && out * r <= a * (R - out)
    requires back <= r + a && back * (R - out) <= out * (r + a - back)
    requires R == 0 ==> back == 0
    ensures back <= a
  {
    assert back * R == back * (R - out) + back * out;
    assert out * (r + a - back) == out * r + out * a - out * back;
    assert a * (R - out) == a * R - a * out;
    if R > 0 {
      MulCancel(back, a, R);
    }
  }

  /** What two successive trades of a and b pay through the updated reserves. */
  function SplitPays(a: nat, b: nat, r: nat, R: nat, f: nat): nat
  {
    OutputBound(a, r, R, f);
    var first := ExactV2(a, r, R, f);
    first + ExactV2(b, r + a, R - first, f)
  }

  ghost predicate SplittingNeverGains(r: nat, R: nat, f: nat) {
    forall a: nat, b: nat :: SplitPays(a, b, r, R, f) <= ExactV2(a + b, r, R, f)
  }

  lemma SplitBeatenByOneTrade(a: nat, b: nat, r: nat, R: nat, f: nat)
    requires f <= FEE_SCALE && r > 0
    ensures SplitPays(a, b, r, R, f) <= ExactV2(a + b, r, R, f)
  {
    hide ExactV2;
    OutputBound(a, r, R, f);
    var o1 := ExactV2(a, r, R, f);
    OutputBound(b, r + a, R - o1, f);
    var o2 := ExactV2(b, r + a, R - o1, f);
    SplitArithmetic(a, b, r, R, f, o1, o2);
    if a + b == 0 {
      QuoteOfNothing(r, R, f);
      QuoteOfNothing(r + a, R - o1, f);
    } else if R > 0 {
      QuoteGreatest(o1 + o2, a + b, r, R, f);
    }
  }

  lemma QuoteOfNothing(r: nat, R: nat, f: nat)
    ensures ExactV2(0, r, R, f) == 0
  {
  }

  lemma QuoteGreatest(q: nat, a: nat, r: nat, R: nat, f: nat)
    requires a > 0 && r > 0 && R > 0 && q * (r * FEE_SCALE + a * f) <= a * f * R
    ensures q <= ExactV2(a, r, R, f)
  {
    ExactV2Is(a, r, R, f);
    hide ExactV2;
    QuotGreatest(q, a * f * R, r * FEE_SCALE + a * f);
  }

  lemma SplitArithmetic(a: nat, b: nat, r: nat, R: nat, f: nat, o1: nat, o2: nat)
    requires f <= FEE_SCALE && o1 <= R
    requires o1 * (r * FEE_SCALE + a * f) <= a * f * R
    requires o2 * ((r + a) * FEE_SCALE + b * f) <= b * f * (R - o1)
    ensures (o1 + o2) * (r * FEE_SCALE + (a + b) * f) <= (a + b) * f * R
  {
    var x, y, c := a * f, b * f, r * FEE_SCALE;
    MulMono(f, FEE_SCALE, a, a);
    SplitBound(o1, o2, x, y, c, a * FEE_SCALE, R);
    assert (a + b) * f == x + y;
  }

  /**
    Splitting a trade in two never beats doing it in one, exactly when the
    input side is funded. An empty input side is the failing family: the first
    half is quoted zero yet fills the pool, and the second half is then paid.
   */
  lemma SplittingNeverGainsIff(r: nat, R: nat, f: nat)
    requires f <= FEE_SCALE
    ensures SplittingNeverGains(r, R, f) <==> r > 0 || R <= 1 || f == 0
  {
    if r > 0 {
      forall a: nat, b: nat ensures SplitPays(a, b, r, R, f) <= ExactV2(a + b, r, R, f) {
        SplitBeatenByOneTrade(a, b, r, R, f);
      }
    } else if R <= 1 || f == 0 {
      forall a: nat, b: nat ensures SplitPays(a, b, r, R, f) <= ExactV2(a + b, r, R, f) {
        SmallQuoteIsZero(b, a, R, f);
      }
    } else {
      EmptySideGains(R, f);
    }
  }

  lemma SmallQuoteIsZero(a: nat, r: nat, R: nat, f: nat)
    requires R <= 1 || f == 0
    ensures ExactV2(a, r, R, f) == 0
  {
    OutputBound(a, r, R, f);
    ExactV2Is(a, r, R, f);
    hide ExactV2;
    if f == 0 {
      assert a * f == 0 && a * f * R == 0;
    }
  }

  /** The failing family: one unit into an empty side, then 10_000 more. */
  lemma EmptySideGains(R: nat, f: nat)
    requires R > 1 && 0 < f <= FEE_SCALE
    ensures SplitPays(1, FEE_SCALE, 0, R, f) > ExactV2(1 + FEE_SCALE, 0, R, f)
  {
    var b := FEE_SCALE;
    MulMono(1, f, FEE_SCALE, FEE_SCALE);
    assert b * f * R == b * f * (R - 1) + b * f;
    MulMono(FEE_SCALE, b * f, 1, R - 1);
    QuoteGreatest(1, b, 1, R, f);
    hide Quot, Product;
  }

  lemma SplitBound(o1: nat, o2: nat, x: nat, y: nat, c: nat, w: nat, R: nat)
    requires x <= w && o1 <= R
    requires o1 * (c + x) <= x * R && o2 * (c + w + y) <= y * (R - o1)
    ensures (o1 + o2) * (c + (x + y)) <= (x + y) * R
  {
    MulMono(o2, o2, c + x + y, c + w + y);
    assert (o1 + o2) * (c + (x + y)) == o1 * (c + x) + o1 * y + o2 * (c + x + y);
    assert y * (R - o1) == y * R - o1 * y;
  }

  // ------------------------------------------------------------------------
  // The same of the wrapping formula
  // ------------------------------------------------------------------------

  /** Property test 8 of `compute_v2` itself: there and back through the updated reserves never gains. */
  lemma ComputeV2ThereAndBack(a: u256, r: u256, R: u256, feeTier: u32)
    requires Roomy(r + a, R, FeeFactor(feeTier)) && SaneFee(feeTier)
    ensures ComputeV2(a, r, R, feeTier) <= R
    ensures ComputeV2(ComputeV2(a, r, R, feeTier), R - ComputeV2(a, r, R, feeTier), r + a, feeTier) <= a
  {
    hide ComputeV2, ExactV2, V2Fits, Roomy, Product;
    var f := FeeFactor(feeTier);
    ComputeV2Fits(a, r, R, r + a, R, feeTier);
    ThereAndBackNeverGains(a, r, R, f);
    RoomySwaps(r + a, R, f);
    var out := ExactV2(a, r, R, f);
    RoomyIsWord(r + a, R, f);
    ComputeV2Fits(out, R - out, r + a, R, r + a, feeTier);
  }

  lemma OutputWithin(a: nat, r: nat, R: nat, f: nat)
    ensures ExactV2(a, r, R, f) <= R
  {
    OutputBound(a, r, R, f);
  }

  lemma FairFactor(feeTier: u32)
    requires SaneFee(feeTier)
    ensures FeeFactor(feeTier) <= FEE_SCALE
  {
  }

  lemma RoomyIsWord(x: nat, y: nat, f: nat)
    requires Roomy(x, y, f)
    ensures x < TWO_256 && y < TWO_256
  {
  }

  lemma ComputeV2Fits(a: u256, r: u256, R: u256, x: nat, y: nat, feeTier: u32)
    requires r + a <= x && R <= y && Roomy(x, y, FeeFactor(feeTier))
    ensures ComputeV2(a, r, R, feeTier) == ExactV2(a, r, R, FeeFactor(feeTier))
  {
    hide ComputeV2, ExactV2, V2Fits, Roomy, Product;
    RoomyFits(a, r, R, x, y, FeeFactor(feeTier));
    ComputeV2Exact(a, r, R, feeTier);
  }

  /** Nor does splitting a trade of `compute_v2` beat doing it in one, on a funded input side. */
  lemma ComputeV2SplitNeverGains(a: u256, b: u256, r: u256, R: u256, feeTier: u32)
    requires Roomy(r + a + b, R, FeeFactor(feeTier)) && SaneFee(feeTier) && r > 0
    ensures ComputeV2(a, r, R, feeTier) <= R && r + a + b < TWO_256
    ensures ComputeV2(a, r, R, feeTier) + ComputeV2(b, r + a, R - ComputeV2(a, r, R, feeTier), feeTier)
         <= ComputeV2(a + b, r, R, feeTier)
  {
    hide ComputeV2, ExactV2, V2Fits, Roomy, Product, FeeFactor;
    var f := FeeFactor(feeTier);
    FairFactor(feeTier);
    RoomyIsWord(r + a + b, R, f);
    ComputeV2Fits(a, r, R, r + a + b, R, feeTier);
    ComputeV2Fits(a + b, r, R, r + a + b, R, feeTier);
    OutputWithin(a, r, R, f);
    ComputeV2Fits(b, r + a, R - ExactV2(a, r, R, f), r + a + b, R, feeTier);
    SplitBeatenByOneTrade(a, b, r, R, f);
  }

  /** And it never lowers the product of the reserves. */
  lemma ComputeV2KeepsProduct(a: u256, r: u256, R: u256, feeTier: u32)
    requires Roomy(r + a, R, FeeFactor(feeTier)) && SaneFee(feeTier)
    ensures ComputeV2(a, r, R, feeTier) <= R
    ensures (r + a) * (R - ComputeV2(a, r, R, feeTier)) >= r * R
  {
    hide ComputeV2, ExactV2, V2Fits, Roomy, Product;
    ComputeV2Fits(a, r, R, r + a, R, feeTier);
    ProductNeverFalls(a, r, R, FeeFactor(feeTier));
  }

  predicate NoGainBack(a: u256, r: u256, R: u256, feeTier: u32) {
    Roomy(r + a, R, FeeFactor(feeTier)) ==>
      var out := ComputeV2(a, r, R, feeTier);
      out <= R && ComputeV2(out, R - out, r + a, feeTier) <= a
  }

  predicate NoGainSplit(a: u256, b: u256, r: u256, R: u256, feeTier: u32) {
    r > 0 && Roomy(r + a + b, R, FeeFactor(feeTier)) ==>
      var first := ComputeV2(a, r, R, feeTier);
      first <= R && first + ComputeV2(b, r + a, R - first, feeTier) <= ComputeV2(a + b, r, R, feeTier)
  }

  predicate ProductKept(a: u256, r: u256, R: u256, feeTier: u32) {
    Roomy(r + a, R, FeeFactor(feeTier)) ==>
      var out := ComputeV2(a, r, R, feeTier);
      out <= R && (r + a) * (R - out) >= r * R
  }

  /** Exactly the fee tiers whose factor does not wrap keep each of the three laws at all amounts and reserves. */
  lemma NoGainBackIff(feeTier: u32)
    ensures (forall a: u256, r: u256, R: u256 :: NoGainBack(a, r, R, feeTier)) <==> SaneFee(feeTier)
  {
    hide ComputeV2, FeeFactor, SaneFee, Product;
    if SaneFee(feeTier) {
      forall a: u256, r: u256, R: u256 ensures NoGainBack(a, r, R, feeTier) {
        if Roomy(r + a, R, FeeFactor(feeTier)) {
          ComputeV2ThereAndBack(a, r, R, feeTier);
        }
      }
    } else {
      WrappedFeeGainsBack(feeTier, 1_000, 1_000_000, 1_000_000);
      hide Roomy;
      assert !NoGainBack(1_000, 1_000_000, 1_000_000, feeTier);
    }
  }

  lemma NoGainSplitIff(feeTier: u32)
    ensures (forall a: u256, b: u256, r: u256, R: u256 :: NoGainSplit(a, b, r, R, feeTier)) <==> SaneFee(feeTier)
  {
    hide ComputeV2, FeeFactor, SaneFee, Product;
    if SaneFee(feeTier) {
      forall a: u256, b: u256, r: u256, R: u256 ensures NoGainSplit(a, b, r, R, feeTier) {
        if r > 0 && Roomy(r + a + b, R, FeeFactor(feeTier)) {
          ComputeV2SplitNeverGains(a, b, r, R, feeTier);
        }
      }
    } else {
      WrappedFeeGainsSplit(feeTier, 1, 1_000_000);
      hide Roomy;
      assert !NoGainSplit(1, 1, 1, 1_000_000, feeTier);
    }
  }

  lemma ProductKeptIff(feeTier: u32)
    ensures (forall a: u256, r: u256, R: u256 :: ProductKept(a, r, R, feeTier)) <==> SaneFee(feeTier)
  {
    hide ComputeV2, FeeFactor, SaneFee, Product;
    if SaneFee(feeTier) {
      forall a: u256, r: u256, R: u256 ensures ProductKept(a, r, R, feeTier) {
        if Roomy(r + a, R, FeeFactor(feeTier)) {
          ComputeV2KeepsProduct(a, r, R, feeTier);
        }
      }
    } else {
      WrappedFeeGainsSplit(feeTier, 1, 1_000_000);
      hide Roomy;
      assert !ProductKept(1, 1, 1_000_000, feeTier);
    }
  }

  /** A wrapped factor buys almost the whole pool with little, and then all of it back. */
  lemma WrappedFeeGainsBack(feeTier: u32, a: u256, r: u256, R: u256)
    requires !SaneFee(feeTier) && a == 1_000 && r == 1_000_000 && R == 1_000_000
    ensures Roomy(r + a, R, FeeFactor(feeTier))
    ensures var out := ComputeV2(a, r, R, feeTier); out <= R && ComputeV2(out, R - out, r + a, feeTier) > a
  {
    hide ComputeV2, ExactV2, Roomy, Product, FeeFactor, SaneFee;
    var f := FeeFactor(feeTier);
    WrappedFactor(feeTier);
    ChainIsRoomy(r + a, R, f);
    ChainIsRoomy(R, r + a, f);
    ComputeV2Fits(a, r, R, r + a, R, feeTier);
    OutputBound(a, r, R, f);
    var out := ExactV2(a, r, R, f);
    ComputeV2Fits(out, R - out, r + a, R, r + a, feeTier);
    QuoteGreatest(997_000, a, r, R, f);
    BuysBack(out, f, out * f);
    QuoteGreatest(1_001, out, R - out, r + a, f);
  }

  lemma BuysBack(out: nat, f: nat, p: nat)
    requires p == out * f && 997_000 <= out <= 1_000_000 && f >= 4_000_000_000
    ensures 1_001 * ((1_000_000 - out) * FEE_SCALE + p) <= p * 1_001_000
  {
    MulMono(997_000, out, 4_000_000_000, f);
  }

  /** Or buys all but three units with one, and two of those with one more. */
  lemma WrappedFeeGainsSplit(feeTier: u32, a: u256, R: u256)
    requires !SaneFee(feeTier) && a == 1 && R == 1_000_000
    ensures Roomy(a + a + a, R, FeeFactor(feeTier)) && Roomy(a + a, R, FeeFactor(feeTier))
    ensures var first := ComputeV2(a, a, R, feeTier);
      && first <= R && (a + a) * (R - first) < a * R
      && first + ComputeV2(a, a + a, R - first, feeTier) > ComputeV2(a + a, a, R, feeTier)
  {
    hide ComputeV2, ExactV2, Roomy, Product, FeeFactor, SaneFee, Quot;
    var f := FeeFactor(feeTier);
    WrappedFactor(feeTier);
    ChainIsRoomy(3, R, f);
    ChainIsRoomy(2, R, f);
    ComputeV2Fits(1, 1, R, 3, R, feeTier);
    ComputeV2Fits(1, 2, 3, 3, R, feeTier);
    ComputeV2Fits(2, 1, R, 3, R, feeTier);
    ExactV2Is(1, 1, R, f);
    QuotIs(999_997, f * R, FEE_SCALE + f);
    QuoteGreatest(2, 1, 2, 3, f);
    ExactV2Is(2, 1, R, f);
    QuotIs(999_998, 2 * f * R, FEE_SCALE + 2 * f);
  }

  // ------------------------------------------------------------------------
  // Any number of trades against one pool
  // ------------------------------------------------------------------------

  datatype Reserves = Reserves(x: nat, y: nat)

  /** One trade: `amount` of token X (or Y) in, the quoted amount of the other out. */
  datatype Trade = Trade(sellX: bool, amount: nat)

  function Settle(s: Reserves, t: Trade, f: nat): Reserves
    requires f <= FEE_SCALE
  {
    FeeFreeShare(t.amount, s.x, s.y, f);
    FeeFreeShare(t.amount, s.y, s.x, f);
    if t.sellX then Reserves(s.x + t.amount, s.y - ExactV2(t.amount, s.x, s.y, f))
    else Reserves(s.x - ExactV2(t.amount, s.y, s.x, f), s.y + t.amount)
  }

  function SettleAll(s: Reserves, trades: seq<Trade>, f: nat): Reserves
    requires f <= FEE_SCALE
    decreases |trades|
  {
    if trades == [] then s else SettleAll(Settle(s, trades[0], f), trades[1..], f)
  }

  lemma {:induction false} ProductNeverFallsOverRuns(s: Reserves, trades: seq<Trade>, f: nat)
    requires f <= FEE_SCALE
    ensures var end := SettleAll(s, trades, f); end.x * end.y >= s.x * s.y
    decreases |trades|
  {
    hide ExactV2;
    if trades != [] {
      SettleKeepsProduct(s, trades[0], f);
      ProductNeverFallsOverRuns(Settle(s, trades[0], f), trades[1..], f);
    }
  }

  lemma SettleKeepsProduct(s: Reserves, t: Trade, f: nat)
    requires f <= FEE_SCALE
    ensures var next := Settle(s, t, f); next.x * next.y >= s.x * s.y
  {
    hide ExactV2;
    if t.sellX {
      ProductNeverFalls(t.amount, s.x, s.y, f);
    } else {
      ProductNeverFalls(t.amount, s.y, s.x, f);
    }
  }

  /** No sequence of trades leaves a funded pool with less of one token and no more of the other. */
  lemma NoMoneyPump(s: Reserves, trades: seq<Trade>, f: nat)
    requires f <= FEE_SCALE && s.x > 0 && s.y > 0
    ensures var end := SettleAll(s, trades, f);
            end.x <= s.x && end.y <= s.y ==> end == s
  {
    hide SettleAll;
    ProductNeverFallsOverRuns(s, trades, f);
    var end := SettleAll(s, trades, f);
    if end.x <= s.x && end.y <= s.y {
      MulMono(end.x, s.x, end.y, end.y);
      if end.y < s.y {
        MulStrict(end.y, s.y, s.x);
      } else if end.x < s.x {
        MulStrict(end.x, s.x, s.y);
      }
    }
  }
}
