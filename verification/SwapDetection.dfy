/**
  Swap detection twice over: on the sequencer feed (crates/ingestion/src/sequencer_feed.rs)
  and inside the block poller (crates/ingestion/src/block_poller.rs).
 */
module SwapDetection {
  import opened Wrappers
  import opened Words
  import opened BigEndian
  import opened Types
  import opened PoolStore
  import PoolRun

  const UNISWAP_V3_SWAP: Bytes := [0x12, 0x8a, 0xcb, 0x08]
  const UNIV2_SWAP: Bytes := [0x02, 0x2c, 0x0d, 0x9f]
  const KNOWN_SELECTORS: seq<Bytes> := [UNISWAP_V3_SWAP, UNIV2_SWAP]

  const LARGE_SWAP_THRESHOLD_BPS: nat := 10
  const BPS_SCALE: nat := 10_000

  datatype TxInfo = TxInfo(hash: u256, to: Option<Address>, input: Bytes)

  datatype DetectedSwap = DetectedSwap(
    txHash: u256,
    poolAddress: Address,
    selector: Bytes,
    calldata: Bytes,
    isLarge: bool)

  // ------------------------------------------------------------------------
  // The two implementations
  // ------------------------------------------------------------------------

  /** `amount * 10_000 > total * 10` on U256, where both products wrap. */
  predicate ExceedsThreshold(amount: u256, total: u256) {
    MulWrap(amount, BPS_SCALE) > MulWrap(total, LARGE_SWAP_THRESHOLD_BPS)
  }

  /** `U256::MAX - raw + 1`, which is taken when the top bit is set. */
  function TwosComplement(raw: u256): u256 { AddWrap(TWO_256 - 1 - raw, 1) }

  /** `compute_is_large` (crates/ingestion/src/sequencer_feed.rs:474-507). */
  predicate ComputeIsLarge(input: Bytes, pool: PoolState, selector: Bytes) {
    var totalReserves := SaturatingAdd(pool.reserve0, pool.reserve1);
    if totalReserves == 0 then false
    else if selector == UNISWAP_V3_SWAP then
      if |input| < 100 then false
      else
        var raw := Word(input, 68);
        ExceedsThreshold(if input[68] >= 0x80 then TwosComplement(raw) else raw, totalReserves)
    else if |input| < 68 then false
    else ExceedsThreshold(Max(Word(input, 4), Word(input, 36)), totalReserves)
  }

  function Max(x: u256, y: u256): u256 { if x < y then y else x }

  /** `process_transaction` (crates/ingestion/src/sequencer_feed.rs:378-407). */
  function ProcessTransaction(pools: Pools, tx: TxInfo): Option<DetectedSwap> {
    if tx.to.None? then None
    else if tx.to.value !in pools then None
    else if |tx.input| < 4 then None
    else
      var selector := tx.input[..4];
      if selector !in KNOWN_SELECTORS then None
      else
        var isLarge := ComputeIsLarge(tx.input, pools[tx.to.value], selector);
        Some(DetectedSwap(tx.hash, tx.to.value, selector, tx.input, isLarge))
  }

  /** The amount the block poller reads from calldata, zero when it is too short. */
  function PolledAmount(input: Bytes, selector: Bytes): u256 {
    if selector == UNISWAP_V3_SWAP then
      if |input| >= 100 then
        var v := Word(input, 68);
        if input[68] >= 0x80 then TwosComplement(v) else v
      else 0
    else if |input| >= 68 then Max(Word(input, 4), Word(input, 36))
    else 0
  }

  /** The body of `process_block`'s loop (crates/ingestion/src/block_poller.rs:126-194). */
  function PollTransaction(pools: Pools, tx: TxInfo): Option<DetectedSwap> {
    if tx.to.None? || |tx.input| < 4 then None
    else
      var selector := tx.input[..4];
      if selector !in [UNISWAP_V3_SWAP, UNIV2_SWAP] || tx.to.value !in pools then None
      else
        var pool := pools[tx.to.value];
        var total := SaturatingAdd(pool.reserve0, pool.reserve1);
        var isLarge := total != 0 && ExceedsThreshold(PolledAmount(tx.input, selector), total);
        Some(DetectedSwap(tx.hash, tx.to.value, selector, tx.input, isLarge))
  }

  /** On every transaction and store, both accept the same swaps with the same flag. */
  lemma TwoDetectorsAgree(pools: Pools, tx: TxInfo)
    ensures ProcessTransaction(pools, tx) == PollTransaction(pools, tx)
  {
    hide Word, SaturatingAdd;
    if tx.to.Some? && tx.to.value in pools && |tx.input| >= 4 {
      var pool := pools[tx.to.value];
      NothingIsNeverLarge(SaturatingAdd(pool.reserve0, pool.reserve1));
    }
  }

  /** A swap is reported exactly for a call of a stored pool with one of the two selectors, and as that call. */
  lemma DetectsIff(pools: Pools, tx: TxInfo)
    ensures ProcessTransaction(pools, tx).Some?
       <==> tx.to.Some? && tx.to.value in pools && |tx.input| >= 4
            && (tx.input[..4] == [0x12, 0x8a, 0xcb, 0x08] || tx.input[..4] == [0x02, 0x2c, 0x0d, 0x9f])
    ensures ProcessTransaction(pools, tx).Some? ==>
              var swap := ProcessTransaction(pools, tx).value;
              && swap.txHash == tx.hash && swap.poolAddress == tx.to.value
              && swap.selector == tx.input[..4] && swap.calldata == tx.input
              && (swap.isLarge <==> ComputeIsLarge(tx.input, pools[tx.to.value], tx.input[..4]))
  {
    hide ComputeIsLarge;
  }

  /** A swap in a pool that has not been reconciled yet is never flagged. */
  lemma StubIsNeverLarge(input: Bytes, pool: PoolState, selector: Bytes)
    requires pool.IsStub()
    ensures !ComputeIsLarge(input, pool, selector)
  {
  }

  lemma NothingIsNeverLarge(total: u256)
    ensures !ExceedsThreshold(0, total)
  {
    assert MulWrap(0, BPS_SCALE) == 0;
  }

  // ------------------------------------------------------------------------
  // What the flag means
  // ------------------------------------------------------------------------

  /** The size of a swap: |amountSpecified| as an int256 for V3, the larger output for V2. */
  function SwapSize(input: Bytes, selector: Bytes): nat {
    if selector == UNISWAP_V3_SWAP then
      if |input| < 100 then 0
      else
        var signed := SignedWrap(Word(input, 68));
        if signed < 0 then 0 - signed else signed
    else if |input| < 68 then 0
    else if Word(input, 4) < Word(input, 36) then Word(input, 36) else Word(input, 4)
  }

  /** Calldata of `swap(recipient, zeroForOne, amountSpecified, ...)` on a V3 pool. */
  function V3Call(recipient: Address, zeroForOne: bool, amountSpecified: i256, rest: Bytes): Bytes {
    UNISWAP_V3_SWAP + ToBigEndian(recipient, 32) + ToBigEndian(if zeroForOne then 1 else 0, 32)
    + ToBigEndian(amountSpecified % TWO_256, 32) + rest
  }

  /** Calldata of `swap(amount0Out, amount1Out, ...)` on a V2 pair. */
  function V2Call(amount0Out: u256, amount1Out: u256, rest: Bytes): Bytes {
    UNIV2_SWAP + ToBigEndian(amount0Out, 32) + ToBigEndian(amount1Out, 32) + rest
  }

  /** The size read from the calldata of a V3 swap is its amount, in either direction. */
  lemma SizeOfV3Call(recipient: Address, zeroForOne: bool, amountSpecified: i256, rest: Bytes)
    ensures SwapSize(V3Call(recipient, zeroForOne, amountSpecified, rest), UNISWAP_V3_SWAP)
         == if amountSpecified < 0 then 0 - amountSpecified else amountSpecified
  {
    hide Word, ToBigEndian, SignedWrap;
    var raw := amountSpecified % TWO_256;
    var before := UNISWAP_V3_SWAP + ToBigEndian(recipient, 32) + ToBigEndian(if zeroForOne then 1 else 0, 32);
    WordReadsBack(before, raw, rest, 68);
    SignedReadsBack(amountSpecified);
  }

  lemma SignedReadsBack(x: i256)
    ensures SignedWrap(x % TWO_256) == x
  {
  }

  lemma SizeOfV2Call(amount0Out: u256, amount1Out: u256, rest: Bytes)
    ensures SwapSize(V2Call(amount0Out, amount1Out, rest), UNIV2_SWAP)
         == if amount0Out < amount1Out then amount1Out else amount0Out
  {
    hide Word, ToBigEndian;
    var input := V2Call(amount0Out, amount1Out, rest);
    assert UNIV2_SWAP[0] != UNISWAP_V3_SWAP[0];
    WordReadsBack(UNIV2_SWAP, amount0Out, ToBigEndian(amount1Out, 32) + rest, 4);
    assert input == UNIV2_SWAP + ToBigEndian(amount0Out, 32) + (ToBigEndian(amount1Out, 32) + rest);
    WordReadsBack(UNIV2_SWAP + ToBigEndian(amount0Out, 32), amount1Out, rest, 36);
  }

  lemma PolledAmountIsSize(input: Bytes, selector: Bytes)
    ensures PolledAmount(input, selector) == SwapSize(input, selector)
  {
    hide Word, TwosComplement, SignedWrap;
    if selector == UNISWAP_V3_SWAP && |input| >= 100 {
      MagnitudeOfWord(Word(input, 68));
    }
  }

  lemma MagnitudeOfWord(w: u256)
    ensures w < TWO_255 ==> SignedWrap(w) == w
    ensures w >= TWO_255 ==> SignedWrap(w) == w - TWO_256 && TwosComplement(w) == TWO_256 - w
  {
  }

  /** For this size the flag is the mathematical test, whatever the reserves. */
  ghost predicate FlagIsExact(size: u256) {
    forall total: u256 :: 0 < total && total * 10 < TWO_256 ==>
      (ExceedsThreshold(size, total) <==> size * 10_000 > total * 10)
  }

  /** Exactly the sizes whose product with 10_000 fits 256 bits. */
  lemma FlagIsExactIff(size: u256)
    ensures FlagIsExact(size) <==> size * 10_000 < TWO_256
  {
    if size * BPS_SCALE < TWO_256 {
      forall total: u256 | 0 < total && total * LARGE_SWAP_THRESHOLD_BPS < TWO_256
        ensures ExceedsThreshold(size, total) <==> size * BPS_SCALE > total * LARGE_SWAP_THRESHOLD_BPS
      {
        ScaledExactly(size, BPS_SCALE);
        ScaledExactly(total, LARGE_SWAP_THRESHOLD_BPS);
      }
    } else {
      var most: u256 := (TWO_256 - 6) / LARGE_SWAP_THRESHOLD_BPS;
      ScaledExactly(most, LARGE_SWAP_THRESHOLD_BPS);
      WrapsToMultiple(size);
      assert !ExceedsThreshold(size, most);
    }
  }

  lemma ScaledExactly(x: u256, scale: u256)
    requires x * scale < TWO_256 && (scale == BPS_SCALE || scale == LARGE_SWAP_THRESHOLD_BPS)
    ensures MulWrap(x, scale) == x * scale
  {
    hide MulWrap;
    MulWrapExact(x, scale);
  }

  /** The scaled size wraps to a multiple of 16, so it stays below the largest threshold that fits. */
  lemma WrapsToMultiple(size: u256)
    ensures MulWrap(size, BPS_SCALE) <= TWO_256 - 16
  {
    ProductIs(size, BPS_SCALE);
    var k := Quot(Product(size, BPS_SCALE), TWO_256);
    assert MulWrap(size, BPS_SCALE) == Product(size, BPS_SCALE) - k * TWO_256;
    hide MulWrap, Product, Quot, Rem;
    MultipleOf16(size, k, MulWrap(size, BPS_SCALE));
  }

  lemma MultipleOf16(size: int, k: int, w: int)
    requires w == size * BPS_SCALE - k * TWO_256 && w < TWO_256
    ensures w <= TWO_256 - 16
  {
    var m := size * 625 - k * (TWO_256 / 16);
    assert w == 16 * m;
    LargestMultiple(m, w);
  }

  lemma LargestMultiple(m: int, w: int)
    requires w == 16 * m && w < TWO_256
    ensures w <= TWO_256 - 16
  {
    assert m < TWO_256 / 16;
  }

  /** One pool: the flag is the test if the scaled size fits, or is still large after wrapping. */
  lemma OverflowingFlag(input: Bytes, pool: PoolState, selector: Bytes)
    requires 0 < pool.reserve0 + pool.reserve1
    requires (pool.reserve0 + pool.reserve1) * LARGE_SWAP_THRESHOLD_BPS < TWO_256
    ensures var size := SwapSize(input, selector);
            var threshold := (pool.reserve0 + pool.reserve1) * LARGE_SWAP_THRESHOLD_BPS;
            (ComputeIsLarge(input, pool, selector) == (size * BPS_SCALE > threshold))
            <==> size * BPS_SCALE < TWO_256 || (size * BPS_SCALE) % TWO_256 > threshold
  {
    hide Word, TwosComplement, SignedWrap;
    PolledAmountIsSize(input, selector);
    var total := SaturatingAdd(pool.reserve0, pool.reserve1);
    NothingIsNeverLarge(total);
    assert ComputeIsLarge(input, pool, selector) == ExceedsThreshold(PolledAmount(input, selector), total);
    hide SwapSize, PolledAmount, ComputeIsLarge;
    ProductIs(SwapSize(input, selector), BPS_SCALE);
    ProductIs(total, LARGE_SWAP_THRESHOLD_BPS);
    RemIsMod(SwapSize(input, selector) * BPS_SCALE, TWO_256);
    assert total == pool.reserve0 + pool.reserve1;
  }

  /** So `is_large` is that test for every pool and every calldata whose size fits. */
  lemma LargeIsExact(input: Bytes, pool: PoolState, selector: Bytes)
    requires 0 < pool.reserve0 + pool.reserve1
    requires (pool.reserve0 + pool.reserve1) * 10 < TWO_256
    requires SwapSize(input, selector) * 10_000 < TWO_256
    ensures ComputeIsLarge(input, pool, selector)
       <==> SwapSize(input, selector) * 10_000 > (pool.reserve0 + pool.reserve1) * 10
  {
    hide SwapSize, ComputeIsLarge;
    OverflowingFlag(input, pool, selector);
  }

  /** Calldata of a V3 swap whose amount is the smallest int256. */
  function SmallestAmount(): Bytes {
    UNISWAP_V3_SWAP + seq(64, _ => 0) + [0x80] + seq(31, _ => 0)
  }

  /** The largest possible swap wraps to nothing and is never flagged. */
  lemma SmallestAmountIsNeverLarge(pool: PoolState)
    ensures SwapSize(SmallestAmount(), UNISWAP_V3_SWAP) == TWO_255
    ensures !ComputeIsLarge(SmallestAmount(), pool, UNISWAP_V3_SWAP)
  {
    var input := SmallestAmount();
    var b := input[68..100];
    ZeroIff(b[1..]);
    FirstByteLeads(b);
    WordSize(|b|);
    assert Word(input, 68) == TWO_255;
    hide Word;
    MagnitudeOfWord(TWO_255);
    ProductIs(TWO_255, BPS_SCALE);
    RemIsMod(TWO_255 * BPS_SCALE, TWO_256);
    assert MulWrap(TWO_255, BPS_SCALE) == 0;
    assert input[68] == 0x80;
  }

  // ------------------------------------------------------------------------
  // Feed-first discovery
  // ------------------------------------------------------------------------

  datatype Probe = Probe(token0: Address, token1: Address, fee: u32)

  function V3Stub(a: Address, p: Probe): PoolState {
    PoolState(a, p.token0, p.token1, 0, 0, p.fee, 0, UniswapV3)
  }

  function V2Stub(a: Address, p: Probe): PoolState {
    PoolState(a, p.token0, p.token1, 0, 0, 300, 0, CamelotV2)
  }

  /** A call with a known selector to an address that is neither stored nor probed before. */
  predicate Probes(pools: Pools, probed: set<Address>, tx: TxInfo) {
    && tx.to.Some? && |tx.input| >= 4 && tx.input[..4] in KNOWN_SELECTORS
    && tx.to.value !in pools && tx.to.value !in probed
  }

  /** What a probe of `a` registers, if anything: V3 is tried before V2. */
  function Registered(a: Address, v3: Option<Probe>, v2: Option<Probe>): Option<PoolState> {
    if v3.Some? then Some(V3Stub(a, v3.value)) else if v2.Some? then Some(V2Stub(a, v2.value)) else None
  }

  /** The registered record is a stub with the tokens and the order of the answer, and its fee, or 300 for V2. */
  lemma RegistersTheAnswer(a: Address, v3: Option<Probe>, v2: Option<Probe>)
    ensures Registered(a, v3, v2).None? <==> v3.None? && v2.None?
    ensures Registered(a, v3, v2).Some? ==>
              var stub, p := Registered(a, v3, v2).value, if v3.Some? then v3.value else v2.value;
              && stub.IsStub() && stub.address == a && stub.token0 == p.token0 && stub.token1 == p.token1
              && stub.feeTier == (if v3.Some? then p.fee else 300)
              && stub.dex == (if v3.Some? then UniswapV3 else CamelotV2)
  {
  }

  /**
    The method's effect is that of three discovery steps of a run, each of them
    enabled: checked absent, entered as probed, and registered or given up.
   */
  lemma ProbeIsDiscovery(s: PoolRun.State, tx: TxInfo, a: Address, v3: Option<Probe>, v2: Option<Probe>, limit: nat)
    requires s.probing <= s.probed && tx.to == Some(a)
    ensures Probes(s.store, s.probed, tx)
       <==> a !in s.store && a !in s.probed && |tx.input| >= 4
            && (tx.input[..4] == [0x12, 0x8a, 0xcb, 0x08] || tx.input[..4] == [0x02, 0x2c, 0x0d, 0x9f])
    ensures Probes(s.store, s.probed, tx) ==> DiscoveredBySteps(s, a, Registered(a, v3, v2), limit)
  {
  }

  /** The three steps are enabled in turn, and store the record if there is one. */
  ghost predicate DiscoveredBySteps(s: PoolRun.State, a: Address, stub: Option<PoolState>, limit: nat) {
    && PoolRun.Enabled(s, PoolRun.Check(a))
    && var t := PoolRun.Next(s, PoolRun.Check(a), limit);
       && PoolRun.Enabled(t, PoolRun.Mark(a))
       && var u := PoolRun.Next(t, PoolRun.Mark(a), limit);
          var last := if stub.Some? then PoolRun.Register(stub.value) else PoolRun.GiveUp(a);
          && PoolRun.Enabled(u, last)
          && var end := PoolRun.Next(u, last, limit);
             && end.probed == s.probed + {a} && end.probing == s.probing
             && end.store == if stub.Some? then s.store[a := stub.value] else s.store
  }

  class SequencerFeed {
    const poolStore: PoolStateStore
    var probed: set<Address>

    constructor (poolStore: PoolStateStore)
      ensures this.poolStore == poolStore && probed == {}
    {
      this.poolStore := poolStore;
      probed := {};
    }

    /** `v3` and `v2` are what the two on-chain probes would answer. */
    method MaybeProbeAndRegister(tx: TxInfo, v3: Option<Probe>, v2: Option<Probe>)
      requires poolStore.Valid()
      modifies this`probed, poolStore
      ensures poolStore.Valid()
      ensures !Probes(old(poolStore.inner), old(probed), tx) ==>
                poolStore.inner == old(poolStore.inner) && probed == old(probed)
      ensures Probes(old(poolStore.inner), old(probed), tx) ==>
                var a := tx.to.value;
                && probed == old(probed) + {a}
                && poolStore.inner == (match Registered(a, v3, v2)
                                       case Some(stub) => old(poolStore.inner)[a := stub]
                                       case None => old(poolStore.inner))
    {
      if tx.to.None? || |tx.input| < 4 {
        return;
      }
      var to, selector := tx.to.value, tx.input[..4];
      if selector !in KNOWN_SELECTORS {
        return;
      }
      var found := poolStore.Get(to);
      if found.Some? {
        return;
      }
      if to in probed {
        return;
      }
      probed := probed + {to};
      if v3.Some? {
        poolStore.Upsert(V3Stub(to, v3.value));
        return;
      }
      if v2.Some? {
        poolStore.Upsert(V2Stub(to, v2.value));
      }
    }
  }
}
