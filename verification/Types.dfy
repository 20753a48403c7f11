/** Values that cross component boundaries (crates/common/src/types.rs). */
module Types {
  import opened Words

  type Address = x: int | 0 <= x < TWO_160

  datatype DexKind = UniswapV3 | CamelotV2 | SushiSwap | TraderJoeV1

  datatype PoolState = PoolState(
    address: Address,
    token0: Address,
    token1: Address,
    reserve0: u256,
    reserve1: u256,
    feeTier: u32,
    lastUpdatedBlock: u64,
    dex: DexKind)
  {
    predicate Contains(token: Address) {
      token0 == token || token1 == token
    }

    /** A record fresh from discovery, before its first reconciliation. */
    predicate IsStub() {
      reserve0 == 0 && reserve1 == 0 && lastUpdatedBlock == 0
    }

    /** Everything except what `update_reserves` writes. */
    predicate SameIdentity(that: PoolState) {
      && address == that.address && token0 == that.token0 && token1 == that.token1
      && feeTier == that.feeTier && dex == that.dex
    }
  }

  datatype ArbPath = ArbPath(
    tokenIn: Address,
    poolA: Address,
    tokenMid: Address,
    poolB: Address,
    tokenOut: Address,
    estimatedProfitWei: u256,
    flashLoanAmountWei: u256)

  datatype Opportunity = Opportunity(
    path: ArbPath,
    grossProfitWei: u256,
    l2GasCostWei: u256,
    l1GasCostWei: u256,
    netProfitWei: u256,
    detectedAtMs: u64)

  datatype SubmissionResult = SubmissionResult(
    success: bool,
    gasUsed: u64,
    l2GasCostWei: u256,
    l1GasCostWei: u256,
    netPnlWei: i256)
}
