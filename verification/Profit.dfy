/**
  The profit threshold (crates/detector/src/profit.rs). The buffer multiplier is an
  integer in billionths and the USD floor an integer in wei, as the source scales them.
 */
module Profit {
  import opened Wrappers
  import opened Words
  import opened Types
  import opened TwoHop
  import opened PoolStore
  import opened PathScanner
  import opened Amm
  import TernarySearch

  const BILLION: nat := 1_000_000_000

  /** The four answers `estimate_gas` asks for, in its order; `None` is a failed call. */
  datatype Quotes = Quotes(l2Units: Option<u64>, l2Price: Option<u128>, l1Units: Option<u64>, l1Base: Option<u128>)

  datatype GasError = L2UnitsFailed | L2PriceFailed | L1UnitsFailed | L1BaseFailed

  datatype GasEstimate = GasEstimate(l2CostWei: u256, l1CostWei: u256, totalCostWei: u256)

  /** The products are taken in u128, where they wrap. */
  function CostWei(units: u64, price: u128): u128 { Rem(Product(units, price), TWO_128) }

  function EstimateGas(q: Quotes): (r: Result<GasEstimate, GasError>)
    ensures r.Ok? <==> q.l2Units.Some? && q.l2Price.Some? && q.l1Units.Some? && q.l1Base.Some?
    ensures r == Err(L2UnitsFailed) <==> q.l2Units.None?
    ensures r == Err(L2PriceFailed) <==> q.l2Units.Some? && q.l2Price.None?
    ensures r == Err(L1UnitsFailed) <==> q.l2Units.Some? && q.l2Price.Some? && q.l1Units.None?
    ensures r == Err(L1BaseFailed) <==> q.l2Units.Some? && q.l2Price.Some? && q.l1Units.Some? && q.l1Base.None?
  {
    if q.l2Units.None? then Err(L2UnitsFailed)
    else if q.l2Price.None? then Err(L2PriceFailed)
    else if q.l1Units.None? then Err(L1UnitsFailed)
    else if q.l1Base.None? then Err(L1BaseFailed)
    else
      var l2 := CostWei(q.l2Units.value, q.l2Price.value);
      var l1 := CostWei(q.l1Units.value, q.l1Base.value);
      Ok(GasEstimate(l2, l1, AddWrap(l2, l1)))
  }

  function MinProfit(totalCostWei: u256, bufferNum: u128, floorWei: u128): u256 {
    AddWrap(Quot(MulWrap(totalCostWei, bufferNum), BILLION), floorWei)
  }

  /** The strategy parameters of one run. */
  datatype Strategy = Strategy(bufferNum: u128, floorWei: u128)

  function Filter(path: ArbPath, q: Quotes, strategy: Strategy, nowMs: u64): Result<Option<Opportunity>, GasError> {
    match EstimateGas(q)
    case Err(e) => Err(e)
    case Ok(gas) =>
      var minProfit := MinProfit(gas.totalCostWei, strategy.bufferNum, strategy.floorWei);
      if path.estimatedProfitWei <= minProfit then Ok(None)
      else
        var net := SaturatingSub(path.estimatedProfitWei, gas.totalCostWei);
        Ok(Some(Opportunity(path, path.estimatedProfitWei, gas.l2CostWei, gas.l1CostWei, net, nowMs)))
  }

  predicate Clears(path: ArbPath, q: Quotes, strategy: Strategy, nowMs: u64) {
    Filter(path, q, strategy, nowMs).Ok? && Filter(path, q, strategy, nowMs).value.Some?
  }

  // ------------------------------------------------------------------------
  // The threshold
  // ------------------------------------------------------------------------

  /** The buffered cost never overflows the final addition; it is exact iff the buffer product fits. */
  lemma MinProfitExactIff(cost: u256, bufferNum: u128, floorWei: u128)
    ensures MinProfit(cost, bufferNum, floorWei) == Quot(MulWrap(cost, bufferNum), BILLION) + floorWei
    ensures MinProfit(cost, bufferNum, floorWei) == Quot(Product(cost, bufferNum), BILLION) + floorWei
       <==> cost * bufferNum < TWO_256
  {
    ProductIs(cost, bufferNum);
    WrapLoses(cost, bufferNum);
    hide MulWrap, Product, Quot;
    ThresholdFits(MulWrap(cost, bufferNum), floorWei);
    if cost * bufferNum >= TWO_256 {
      QuotKeepsGap(MulWrap(cost, bufferNum), Product(cost, bufferNum));
    }
  }

  lemma ThresholdFits(wrapped: u256, floorWei: u128)
    ensures AddWrap(Quot(wrapped, BILLION), floorWei) == Quot(wrapped, BILLION) + floorWei
  {
    hide Quot;
    QuotBounds(wrapped, BILLION);
  }

  lemma QuotKeepsGap(small: nat, big: nat)
    requires small + BILLION <= big
    ensures Quot(small, BILLION) < Quot(big, BILLION)
  {
    hide Quot;
    QuotBounds(small, BILLION);
    QuotGreatest(Quot(small, BILLION) + 1, big, BILLION);
  }

  /** A product that does not fit loses at least 2^256. */
  lemma WrapLoses(x: u256, y: u128)
    requires x * y >= 0
    ensures x * y < TWO_256 ==> MulWrap(x, y) == x * y
    ensures x * y >= TWO_256 ==> MulWrap(x, y) <= x * y - TWO_256
  {
    ProductIs(x, y);
  }

  /** With a buffer of at least one and a product that fits, the threshold covers the cost and the floor. */
  lemma ThresholdCoversCost(cost: u256, bufferNum: u128, floorWei: u128)
    requires bufferNum >= BILLION && cost * bufferNum < TWO_256
    ensures MinProfit(cost, bufferNum, floorWei) >= cost + floorWei
  {
    ProductIs(cost, bufferNum);
    MinProfitExactIff(cost, bufferNum, floorWei);
    hide MinProfit, Product;
    MulMono(cost, cost, BILLION, bufferNum);
    QuotGreatest(cost, cost * bufferNum, BILLION);
  }

  /** Two costs below 2^128 never wrap when added. */
  lemma EstimateAddsUp(q: Quotes)
    requires EstimateGas(q).Ok?
    ensures var gas := EstimateGas(q).value; gas.totalCostWei == gas.l2CostWei + gas.l1CostWei
  {
    hide CostWei;
  }

  /**
    What clears the threshold is accounted for exactly: gross = net + l2 + l1, with
    nothing saturated, and the net profit exceeds the floor.
   */
  lemma ClearedIsAccounted(path: ArbPath, q: Quotes, strategy: Strategy, nowMs: u64)
    requires Clears(path, q, strategy, nowMs) && strategy.bufferNum >= BILLION
    requires EstimateGas(q).value.totalCostWei * strategy.bufferNum < TWO_256
    ensures var opp := Filter(path, q, strategy, nowMs).value.value;
      && opp.path == path && opp.grossProfitWei == path.estimatedProfitWei
      && opp.l2GasCostWei == EstimateGas(q).value.l2CostWei && opp.l1GasCostWei == EstimateGas(q).value.l1CostWei
      && opp.grossProfitWei == opp.netProfitWei + opp.l2GasCostWei + opp.l1GasCostWei
      && opp.netProfitWei > strategy.floorWei && opp.detectedAtMs == nowMs
  {
    hide MinProfit, CostWei;
    EstimateAddsUp(q);
    hide EstimateGas;
    ThresholdCoversCost(EstimateGas(q).value.totalCostWei, strategy.bufferNum, strategy.floorWei);
  }

  /**
    The filter is the exact test "what the profit leaves above the floor, times
    10^9, exceeds the cost times the buffer", whenever that last product fits.
   */
  lemma ClearsIff(path: ArbPath, q: Quotes, strategy: Strategy, nowMs: u64)
    requires EstimateGas(q).Ok? && EstimateGas(q).value.totalCostWei * strategy.bufferNum < TWO_256
    ensures Clears(path, q, strategy, nowMs)
       <==> (path.estimatedProfitWei - strategy.floorWei) * 1_000_000_000
            > EstimateGas(q).value.totalCostWei * strategy.bufferNum
  {
    hide EstimateGas, MinProfit, Quot;
    var cost := EstimateGas(q).value.totalCostWei;
    ProductIs(cost, strategy.bufferNum);
    MinProfitExactIff(cost, strategy.bufferNum, strategy.floorWei);
    hide Product;
    AboveFloorIff(path.estimatedProfitWei - strategy.floorWei, Product(cost, strategy.bufferNum));
  }

  /** The same from the node's answers alone, when neither cost leaves 128 bits. */
  lemma ClearsFromQuotesIff(path: ArbPath, q: Quotes, strategy: Strategy, nowMs: u64)
    requires EstimateGas(q).Ok?
    requires q.l2Units.value * q.l2Price.value < TWO_128 && q.l1Units.value * q.l1Base.value < TWO_128
    requires (q.l2Units.value * q.l2Price.value + q.l1Units.value * q.l1Base.value) * strategy.bufferNum < TWO_256
    ensures Clears(path, q, strategy, nowMs)
       <==> (path.estimatedProfitWei - strategy.floorWei) * 1_000_000_000
            > (q.l2Units.value * q.l2Price.value + q.l1Units.value * q.l1Base.value) * strategy.bufferNum
  {
    EstimateExactIff(q);
    EstimateAddsUp(q);
    hide EstimateGas, Filter;
    ClearsIff(path, q, strategy, nowMs);
  }

  /** The filter fails exactly when the estimate does, with its error. */
  lemma FilterFailsIff(path: ArbPath, q: Quotes, strategy: Strategy, nowMs: u64, e: GasError)
    ensures Filter(path, q, strategy, nowMs) == Err(e) <==> EstimateGas(q) == Err(e)
  {
    hide EstimateGas, MinProfit;
  }

  /** An integer exceeds a floored quotient iff it exceeds the quotient. */
  lemma AboveFloorIff(k: int, n: nat)
    ensures k > Quot(n, BILLION) <==> k * BILLION > n
  {
    hide Quot;
    QuotBounds(n, BILLION);
  }

  /** Whatever these quotes and this strategy let through satisfies gross = net + l2 + l1. */
  ghost predicate AccountsForAll(q: Quotes, strategy: Strategy) {
    forall path: ArbPath, nowMs: u64 :: Clears(path, q, strategy, nowMs) ==>
      Accounted(Filter(path, q, strategy, nowMs).value.value)
  }

  predicate Accounted(opp: Opportunity) {
    opp.grossProfitWei == opp.netProfitWei + opp.l2GasCostWei + opp.l1GasCostWei
  }

  /** What of the cost lies above floor + 1 wei, times 10^9, is covered by the (wrapping) buffer product. */
  predicate BufferCovers(cost: u256, strategy: Strategy) {
    (cost - strategy.floorWei - 1) * 1_000_000_000 <= Rem(Product(cost, strategy.bufferNum), TWO_256)
  }

  /** Exactly when the buffer product, taken modulo 2^256, covers the cost above the floor. */
  lemma AccountsForAllIff(q: Quotes, strategy: Strategy)
    requires EstimateGas(q).Ok?
    ensures AccountsForAll(q, strategy) <==> BufferCovers(EstimateGas(q).value.totalCostWei, strategy)
  {
    var cost := EstimateGas(q).value.totalCostWei;
    var least := MinProfit(cost, strategy.bufferNum, strategy.floorWei) + 1;
    LeastClearedCovers(cost, strategy);
    hide BufferCovers, MinProfit, EstimateGas;
    if least >= cost {
      forall path: ArbPath, nowMs: u64 | Clears(path, q, strategy, nowMs)
        ensures Accounted(Filter(path, q, strategy, nowMs).value.value)
      {
        ClearedOpportunity(path, q, strategy, nowMs);
      }
    } else {
      var path := ArbPath(0, 0, 0, 0, 0, least, 0);
      ClearedOpportunity(path, q, strategy, 0);
      assert Clears(path, q, strategy, 0);
    }
  }

  /** A path clears iff its profit exceeds the threshold, and is accounted for iff it covers the cost. */
  lemma ClearedOpportunity(path: ArbPath, q: Quotes, strategy: Strategy, nowMs: u64)
    requires EstimateGas(q).Ok?
    ensures var cost := EstimateGas(q).value.totalCostWei;
      && (Clears(path, q, strategy, nowMs)
          <==> path.estimatedProfitWei > MinProfit(cost, strategy.bufferNum, strategy.floorWei))
      && (Clears(path, q, strategy, nowMs) ==>
            (Accounted(Filter(path, q, strategy, nowMs).value.value) <==> path.estimatedProfitWei >= cost))
  {
    EstimateAddsUp(q);
    hide EstimateGas, MinProfit;
  }

  /** The least profit that clears covers the cost exactly when the buffer does. */
  lemma LeastClearedCovers(cost: u256, strategy: Strategy)
    ensures var least := MinProfit(cost, strategy.bufferNum, strategy.floorWei) + 1;
      least < TWO_256 && (least >= cost <==> BufferCovers(cost, strategy))
  {
    MinProfitExactIff(cost, strategy.bufferNum, strategy.floorWei);
    var wrapped := MulWrap(cost, strategy.bufferNum);
    assert wrapped == Rem(Product(cost, strategy.bufferNum), TWO_256);
    hide MinProfit, MulWrap, Rem, Product, Quot;
    ThresholdFits(wrapped, strategy.floorWei);
    QuotBounds(wrapped, BILLION);
    AboveFloorIff(cost - strategy.floorWei - 1, wrapped);
  }

  /** The guard the configuration intends, a buffer of at least one that does not overflow, is one way to cover it. */
  lemma SoundBufferCovers(cost: u256, strategy: Strategy)
    requires strategy.bufferNum >= BILLION && cost * strategy.bufferNum < TWO_256
    ensures BufferCovers(cost, strategy)
  {
    ProductIs(cost, strategy.bufferNum);
    MulMono(cost, cost, BILLION, strategy.bufferNum);
    hide Product;
  }

  const HUGE_BUFFER: u128 := TWO_128 - 1

  /** A gas bill of 2^128 + 2 wei. */
  const HUGE_QUOTES: Quotes := Quotes(Some(1), Some(TWO_128 - 1), Some(1), Some(3))

  /** When the buffer product wraps, the filter passes paths that do not pay for their gas. */
  lemma WrappedThresholdUndercharges(path: ArbPath, nowMs: u64)
    requires path.estimatedProfitWei == TWO_128 + 1
    ensures EstimateGas(HUGE_QUOTES).Ok? && EstimateGas(HUGE_QUOTES).value.totalCostWei == TWO_128 + 2
    ensures Clears(path, HUGE_QUOTES, Strategy(HUGE_BUFFER, 0), nowMs)
    ensures var opp := Filter(path, HUGE_QUOTES, Strategy(HUGE_BUFFER, 0), nowMs).value.value;
      opp.netProfitWei == 0 && opp.grossProfitWei < opp.l2GasCostWei + opp.l1GasCostWei
  {
    hide Quot, Product;
    ProductIs(1, TWO_128 - 1);
    ProductIs(1, 3);
    ProductIs(TWO_128 + 2, HUGE_BUFFER);
    RemIsMod((TWO_128 + 2) * HUGE_BUFFER, TWO_256);
    assert MulWrap(TWO_128 + 2, HUGE_BUFFER) == TWO_128 - 2;
    QuotIs(0, 0, BILLION);
    var m := Quot(TWO_128 - 2, BILLION);
    assert MinProfit(TWO_128 + 2, HUGE_BUFFER, 0) == m;
  }

  /** The estimate is exact iff neither product leaves u128. */
  lemma EstimateExactIff(q: Quotes)
    requires EstimateGas(q).Ok?
    ensures var gas := EstimateGas(q).value;
      gas.l2CostWei == q.l2Units.value * q.l2Price.value && gas.l1CostWei == q.l1Units.value * q.l1Base.value
      <==> q.l2Units.value * q.l2Price.value < TWO_128 && q.l1Units.value * q.l1Base.value < TWO_128
  {
    CostExactIff(q.l2Units.value, q.l2Price.value);
    CostExactIff(q.l1Units.value, q.l1Base.value);
    hide CostWei, AddWrap;
  }

  lemma CostExactIff(units: u64, price: u128)
    ensures CostWei(units, price) == units * price <==> units * price < TWO_128
  {
    ProductIs(units, price);
  }

  // ------------------------------------------------------------------------
  // Together with the scan
  // ------------------------------------------------------------------------

  lemma NothingToClear(path: ArbPath, q: Quotes, strategy: Strategy, nowMs: u64)
    requires path.estimatedProfitWei == 0
    ensures !Clears(path, q, strategy, nowMs)
  {
    hide MinProfit, EstimateGas;
  }

  /** Pools whose fee-adjusted prices leave no gap yield no opportunity, whatever the loan and the gas. */
  lemma ParityYieldsNothing(poolA: PoolState, tokenIn: Address, tokenMid: Address, poolB: PoolState, q: Quotes,
                            strategy: Strategy, nowMs: u64)
    requires var path := PartialPath(tokenIn, poolA, tokenMid, poolB);
      Routable(path) && Gain(path) <= Cost(path)
    ensures !Clears(PathFor(poolA, tokenIn, tokenMid, poolB), q, strategy, nowMs)
  {
    hide PathProfit, Gain, Cost, TernarySearch.OptimalAmount, Filter;
    var path := PartialPath(tokenIn, poolA, tokenMid, poolB);
    NoProfitAtParity(path, TernarySearch.OptimalAmount(path));
    NothingToClear(PathFor(poolA, tokenIn, tokenMid, poolB), q, strategy, nowMs);
  }

  /** Of the two paths a scan reports for one unchanged partner, at most one clears. */
  lemma AtMostOneOrientationClears(there: seq<ArbPath>, back: seq<ArbPath>, pools: Pools, later: Pools,
                                   poolA: PoolState, i: nat, j: nat, q: Quotes, r: Quotes,
                                   strategy: Strategy, nowMs: u64)
    requires poolA.token0 != poolA.token1 && ReservesRanged(poolA)
    requires Covers(there, pools, poolA, poolA.token0, poolA.token1)
    requires Covers(back, later, poolA, poolA.token1, poolA.token0)
    requires i < |there| && j < |back| && there[i].poolB == back[j].poolB
    requires pools[there[i].poolB] == later[back[j].poolB] && ReservesRanged(pools[there[i].poolB])
    requires FeesCost(FeeFactor(poolA.feeTier), FeeFactor(pools[there[i].poolB].feeTier))
    ensures !Clears(there[i], q, strategy, nowMs) || !Clears(back[j], r, strategy, nowMs)
  {
    hide Covers, ReservesRanged, FeesCost, Filter;
    AtMostOneOrientationPays(there, back, pools, later, poolA, i, j);
    if there[i].estimatedProfitWei == 0 {
      NothingToClear(there[i], q, strategy, nowMs);
    } else {
      NothingToClear(back[j], r, strategy, nowMs);
    }
  }
}
