/**
  The block reconciler (crates/ingestion/src/reconciler.rs): one pool, one pass,
  and the loop over observed heads. Fetched values and observed heads come from
  the RPC node, so they are parameters; `None` is a failed call.
 */
module Reconciler {
  import opened Wrappers
  import opened Words
  import opened Types
  import opened PoolStore

  /** (reserve0, reserve1) of a V2 pool, (sqrtPriceX96, liquidity) of a V3 pool. */
  datatype Reserves = Reserves(reserve0: u256, reserve1: u256)

  datatype FetchError = FetchFailed

  datatype ReconcileStats = ReconcileStats(poolsChecked: nat, poolsUpdated: nat, poolsFailed: nat, block: u64)

  predicate Differs(pool: PoolState, r: Reserves) {
    r.reserve0 != pool.reserve0 || r.reserve1 != pool.reserve1
  }

  /** The early return of `reconcile_pool`. */
  predicate Skips(pool: PoolState, r: Reserves, block: u64) {
    !Differs(pool, r) && pool.lastUpdatedBlock == block
  }

  /** `reconcile_pool` on the map, for the record `pool` its task captured earlier. */
  function Reconciled(pools: Pools, pool: PoolState, answer: Option<Reserves>, block: u64): Pools {
    if answer.None? || Skips(pool, answer.value, block) then pools
    else ReservesUpdated(pools, pool.address, answer.value.reserve0, answer.value.reserve1, block)
  }

  /** The outcome `reconcile_pool` returns. */
  function Verdict(pool: PoolState, answer: Option<Reserves>): Result<bool, FetchError> {
    if answer.None? then Err(FetchFailed) else Ok(Differs(pool, answer.value))
  }

  /** The same write without an early return. */
  function AlwaysWritten(pools: Pools, a: Address, answer: Option<Reserves>, block: u64): Pools {
    if answer.None? then pools
    else ReservesUpdated(pools, a, answer.value.reserve0, answer.value.reserve1, block)
  }

  /**
    The early return can be seen exactly when somebody else rewrote the pool
    after the task captured its record.
   */
  lemma SkipIsInvisibleIff(pools: Pools, pool: PoolState, answer: Option<Reserves>, block: u64)
    ensures Reconciled(pools, pool, answer, block) == AlwaysWritten(pools, pool.address, answer, block)
       <==> !(&& answer.Some? && Skips(pool, answer.value, block) && pool.address in pools
              && (Differs(pools[pool.address], answer.value) || pools[pool.address].lastUpdatedBlock != block))
  {
    if answer.Some? && Skips(pool, answer.value, block) && pool.address in pools {
      var now := pools[pool.address];
      var written := AlwaysWritten(pools, pool.address, answer, block);
      assert written[pool.address] == Refreshed(now, answer.value.reserve0, answer.value.reserve1, block);
      if Refreshed(now, answer.value.reserve0, answer.value.reserve1, block) == now {
        assert written == pools;
      }
    }
  }

  // ------------------------------------------------------------------------
  // One pass
  // ------------------------------------------------------------------------

  /** What an answer makes of one record. */
  function Settled(pool: PoolState, answer: Option<Reserves>, block: u64): PoolState {
    if answer.None? then pool else Refreshed(pool, answer.value.reserve0, answer.value.reserve1, block)
  }

  /** The store after a pass: every answered pool agrees with its answer, the others are untouched. */
  function PassResult(pools: Pools, answers: Address -> Option<Reserves>, block: u64): Pools {
    map a | a in pools :: Settled(pools[a], answers(a), block)
  }

  /** The same when only the pools in `done` have been visited. */
  function PassSoFar(pools: Pools, done: set<Address>, answers: Address -> Option<Reserves>, block: u64): Pools {
    map a | a in pools :: if a in done then Settled(pools[a], answers(a), block) else pools[a]
  }

  lemma PassOneMore(pools: Pools, done: set<Address>, a: Address, answers: Address -> Option<Reserves>, block: u64)
    requires Keyed(pools) && a in pools && a !in done
    ensures Reconciled(PassSoFar(pools, done, answers, block), pools[a], answers(a), block)
         == PassSoFar(pools, done + {a}, answers, block)
  {
    var so := PassSoFar(pools, done, answers, block);
    assert so[a] == pools[a];
    SkipIsInvisibleIff(so, pools[a], answers(a), block);
  }

  lemma PassStart(pools: Pools, answers: Address -> Option<Reserves>, block: u64)
    ensures PassSoFar(pools, {}, answers, block) == pools
  {
  }

  lemma NotYetVisited(pools: Pools, done: set<Address>, a: Address, answers: Address -> Option<Reserves>, block: u64)
    requires a in pools && a !in done
    ensures a in PassSoFar(pools, done, answers, block) && PassSoFar(pools, done, answers, block)[a] == pools[a]
  {
  }

  lemma PassEnd(pools: Pools, answers: Address -> Option<Reserves>, block: u64)
    ensures PassSoFar(pools, pools.Keys, answers, block) == PassResult(pools, answers, block)
  {
  }

  function UpdatedPools(pools: Pools, answers: Address -> Option<Reserves>): set<Address> {
    set a | a in pools && Verdict(pools[a], answers(a)) == Ok(true)
  }

  function UnchangedPools(pools: Pools, answers: Address -> Option<Reserves>): set<Address> {
    set a | a in pools && Verdict(pools[a], answers(a)) == Ok(false)
  }

  function FailedPools(pools: Pools, answers: Address -> Option<Reserves>): set<Address> {
    set a | a in pools && answers(a).None?
  }

  lemma EveryPoolIsCountedOnce(pools: Pools, answers: Address -> Option<Reserves>)
    ensures |pools| == |UpdatedPools(pools, answers)| + |UnchangedPools(pools, answers)| + |FailedPools(pools, answers)|
  {
    var u, n, f := UpdatedPools(pools, answers), UnchangedPools(pools, answers), FailedPools(pools, answers);
    assert pools.Keys == u + n + f && u !! n && (u + n) !! f;
  }

  /** The pools whose reserves the second store holds otherwise than the first. */
  function Moved(before: Pools, after: Pools): set<Address> {
    set a | a in before && a in after
            && (before[a].reserve0 != after[a].reserve0 || before[a].reserve1 != after[a].reserve1)
  }

  /** A pool counts as updated iff the pass changed its reserves, as unchanged iff it was answered and did not. */
  lemma CountedAsMovedIff(pools: Pools, answers: Address -> Option<Reserves>, block: u64, a: Address)
    ensures var after := PassResult(pools, answers, block);
      && (a in UpdatedPools(pools, answers)
          <==> a in pools && (after[a].reserve0 != pools[a].reserve0 || after[a].reserve1 != pools[a].reserve1))
      && (a in UnchangedPools(pools, answers)
          <==> a in pools && answers(a).Some?
               && after[a].reserve0 == pools[a].reserve0 && after[a].reserve1 == pools[a].reserve1)
      && (a in pools && answers(a).Some? ==>
            && after[a].reserve0 == answers(a).value.reserve0 && after[a].reserve1 == answers(a).value.reserve1
            && after[a].lastUpdatedBlock == block)
      && (a in pools && answers(a).None? ==> after[a] == pools[a])
  {
  }

  lemma UpdatedAreMoved(pools: Pools, answers: Address -> Option<Reserves>, block: u64)
    ensures UpdatedPools(pools, answers) == Moved(pools, PassResult(pools, answers, block))
  {
    hide UpdatedPools, PassResult;
    forall a ensures a in UpdatedPools(pools, answers) <==> a in Moved(pools, PassResult(pools, answers, block)) {
      CountedAsMovedIff(pools, answers, block, a);
      SameAddresses(pools, answers, block);
    }
  }

  lemma SameAddresses(pools: Pools, answers: Address -> Option<Reserves>, block: u64)
    ensures PassResult(pools, answers, block).Keys == pools.Keys
  {
  }

  lemma VerdictCases(pools: Pools, answers: Address -> Option<Reserves>, a: Address)
    requires a in pools
    ensures Verdict(pools[a], answers(a)) == Ok(true) <==> a in UpdatedPools(pools, answers)
    ensures Verdict(pools[a], answers(a)).Err? <==> a in FailedPools(pools, answers)
  {
  }

  ghost function Where(listing: seq<Address>, keep: set<Address>): set<Address> {
    set a | a in listing && a in keep
  }

  lemma WhereStart(keep: set<Address>)
    ensures Where([], keep) == {}
  {
  }

  lemma WhereSnoc(seen: seq<Address>, a: Address, keep: set<Address>)
    requires a !in seen
    ensures |Where(seen + [a], keep)| == |Where(seen, keep)| + if a in keep then 1 else 0
  {
    if a in keep {
      assert Where(seen + [a], keep) == Where(seen, keep) + {a};
    } else {
      assert Where(seen + [a], keep) == Where(seen, keep);
    }
  }

  /** The next element of a listing without repetition has not been seen. */
  lemma NextIsNew(listing: seq<Address>, i: nat)
    requires i < |listing| && (forall i, j :: 0 <= i < j < |listing| ==> listing[i] != listing[j])
    ensures listing[..i + 1] == listing[..i] + [listing[i]] && listing[i] !in listing[..i]
  {
  }

  lemma WhereAll(listing: seq<Address>, keep: set<Address>)
    requires forall a :: a in keep ==> a in listing
    ensures Where(listing, keep) == keep
  {
  }

  // ------------------------------------------------------------------------
  // The loop over heads
  // ------------------------------------------------------------------------

  /** The blocks at which a pass runs: each observed head that exceeds all earlier ones. */
  function Passes(heads: seq<Option<u64>>, last: u64): seq<u64> {
    if heads == [] then []
    else if heads[0].None? || heads[0].value <= last then Passes(heads[1..], last)
    else [heads[0].value] + Passes(heads[1..], heads[0].value)
  }

  /** `last_block` after the given observations. */
  function LastPass(heads: seq<Option<u64>>, last: u64): u64 {
    var p := Passes(heads, last);
    if p == [] then last else p[|p| - 1]
  }

  lemma {:induction false} PassesSnoc(heads: seq<Option<u64>>, head: Option<u64>, last: u64)
    ensures Passes(heads + [head], last)
         == if head.None? || head.value <= LastPass(heads, last) then Passes(heads, last)
            else Passes(heads, last) + [head.value]
  {
    if heads == [] {
      assert heads + [head] == [head];
    } else {
      assert (heads + [head])[1..] == heads[1..] + [head];
      if heads[0].None? || heads[0].value <= last {
        PassesSnoc(heads[1..], head, last);
      } else {
        PassesSnoc(heads[1..], head, heads[0].value);
      }
    }
  }

  /** Passes run at strictly increasing blocks, and exactly at the records of the observed heads. */
  lemma {:induction false} PassesAreRecords(heads: seq<Option<u64>>, last: u64)
    ensures var p := Passes(heads, last);
            && (forall i :: 0 <= i < |p| ==> last < p[i])
            && (forall i, j :: 0 <= i < j < |p| ==> p[i] < p[j])
            && (forall b: u64 :: b in p <==> last < b && Record(heads, b))
  {
    if heads != [] {
      var rest := heads[1..];
      var here := heads[0];
      var from := if here.None? || here.value <= last then last else here.value;
      PassesAreRecords(rest, from);
      forall b: u64 | last < b
        ensures Record(heads, b) <==> here == Some(b) || (from < b && Record(rest, b))
      {
        RecordsOfRest(heads, last, b);
      }
    }
  }

  /** A record of the heads is the first of them, if it exceeds `last`, or a record of the rest above it. */
  lemma RecordsOfRest(heads: seq<Option<u64>>, last: u64, b: u64)
    requires heads != [] && last < b
    ensures var here := heads[0];
            var from := if here.None? || here.value <= last then last else here.value;
            Record(heads, b) <==> here == Some(b) || (from < b && Record(heads[1..], b))
  {
    var rest, here := heads[1..], heads[0];
    if Record(heads, b) {
      var i: nat :| i < |heads| && heads[i] == Some(b) && NoneReaches(heads[..i], b);
      if i > 0 {
        assert heads[..i][0] == here && rest[i - 1] == Some(b) && rest[..i - 1] == heads[..i][1..];
      }
    }
    if here == Some(b) {
      assert heads[..0] == [];
    }
    if (here.None? || here.value < b) && Record(rest, b) {
      var i: nat :| i < |rest| && rest[i] == Some(b) && NoneReaches(rest[..i], b);
      assert heads[i + 1] == Some(b) && heads[..i + 1] == [here] + rest[..i];
    }
  }

  ghost predicate NoneReaches(heads: seq<Option<u64>>, b: u64) {
    forall k :: 0 <= k < |heads| && heads[k].Some? ==> heads[k].value < b
  }

  /** b was observed, and nothing before it was as high. */
  ghost predicate Record(heads: seq<Option<u64>>, b: u64) {
    exists i: nat :: i < |heads| && heads[i] == Some(b) && NoneReaches(heads[..i], b)
  }

  /** The store after a series of passes; `answers(b)` is what the node says during the pass at b. */
  function RunResult(pools: Pools, passes: seq<u64>, answers: u64 -> Address -> Option<Reserves>): Pools {
    if passes == [] then pools
    else
      var last := |passes| - 1;
      PassResult(RunResult(pools, passes[..last], answers), answers(passes[last]), passes[last])
  }

  lemma NoPassYet(pools: Pools, answers: u64 -> Address -> Option<Reserves>)
    ensures Passes([], 0) == [] && RunResult(pools, [], answers) == pools
  {
  }

  lemma RunOneMore(pools: Pools, passes: seq<u64>, block: u64, answers: u64 -> Address -> Option<Reserves>)
    ensures RunResult(pools, passes + [block], answers)
         == PassResult(RunResult(pools, passes, answers), answers(block), block)
  {
    assert (passes + [block])[..|passes|] == passes;
  }

  // ------------------------------------------------------------------------
  // The component
  // ------------------------------------------------------------------------

  class BlockReconciler {
    const poolStore: PoolStateStore

    constructor (poolStore: PoolStateStore)
      ensures this.poolStore == poolStore
    {
      this.poolStore := poolStore;
    }

    method ReconcilePool(pool: PoolState, answer: Option<Reserves>, block: u64)
      returns (r: Result<bool, FetchError>)
      requires poolStore.Valid()
      modifies poolStore
      ensures poolStore.Valid() && poolStore.inner == Reconciled(old(poolStore.inner), pool, answer, block)
      ensures r == Verdict(pool, answer)
      ensures r.Err? <==> answer.None?
      ensures r == Ok(true) <==>
                answer.Some? && (answer.value.reserve0 != pool.reserve0 || answer.value.reserve1 != pool.reserve1)
      ensures pool.address in old(poolStore.inner) && old(poolStore.inner)[pool.address] == pool ==>
                (r == Ok(true) <==> pool.address in Moved(old(poolStore.inner), poolStore.inner))
    {
      if answer.None? {
        return Err(FetchFailed);
      }
      var Reserves(reserve0, reserve1) := answer.value;
      if reserve0 == pool.reserve0 && reserve1 == pool.reserve1 && pool.lastUpdatedBlock == block {
        return Ok(false);
      }
      var changed := reserve0 != pool.reserve0 || reserve1 != pool.reserve1;
      var _ := poolStore.UpdateReserves(pool.address, reserve0, reserve1, block);
      return Ok(changed);
    }

    /** One pass, its tasks taken one after the other; PoolRun covers every interleaving. */
    method ReconcileAll(block: u64, answers: Address -> Option<Reserves>) returns (stats: ReconcileStats)
      requires poolStore.Valid()
      modifies poolStore
      ensures poolStore.Valid() && poolStore.inner == PassResult(old(poolStore.inner), answers, block)
      ensures stats == ReconcileStats(|old(poolStore.inner)|, |UpdatedPools(old(poolStore.inner), answers)|,
                                      |FailedPools(old(poolStore.inner), answers)|, block)
      ensures stats.poolsUpdated == |Moved(old(poolStore.inner), poolStore.inner)|
    {
      hide Moved, Verdict, Reconciled, Settled, UpdatedPools, FailedPools, PassSoFar, PassResult;
      ghost var pools := poolStore.inner;
      var addresses := poolStore.AllAddresses();
      var results: seq<Result<bool, FetchError>> := [];
      PassStart(pools, answers, block);
      ghost var done: set<Address> := {};
      for i := 0 to |addresses|
        invariant poolStore.Valid() && poolStore.inner == PassSoFar(pools, done, answers, block)
        invariant forall a :: a in done <==> a in addresses[..i]
        invariant |results| == i
        invariant forall k :: 0 <= k < i ==> results[k] == Verdict(pools[addresses[k]], answers(addresses[k]))
      {
        var a := addresses[i];
        NextIsNew(addresses, i);
        var pool := poolStore.Get(a);
        NotYetVisited(pools, done, a, answers, block);
        PassOneMore(pools, done, a, answers, block);
        var r := ReconcilePool(pool.value, answers(a), block);
        results := results + [r];
        done := done + {a};
      }
      assert addresses[..|addresses|] == addresses;
      assert done == pools.Keys;
      PassEnd(pools, answers, block);
      UpdatedAreMoved(pools, answers, block);
      stats := Tally(addresses, results, pools, answers, block);
    }

    /** Collects the results of one pass. */
    method Tally(addresses: seq<Address>, results: seq<Result<bool, FetchError>>, ghost pools: Pools,
                 ghost answers: Address -> Option<Reserves>, block: u64) returns (stats: ReconcileStats)
      requires forall a :: a in addresses <==> a in pools
      requires forall i, j :: 0 <= i < j < |addresses| ==> addresses[i] != addresses[j]
      requires |addresses| == |pools| == |results|
      requires forall k :: 0 <= k < |results| ==> results[k] == Verdict(pools[addresses[k]], answers(addresses[k]))
      ensures stats == ReconcileStats(|pools|, |UpdatedPools(pools, answers)|, |FailedPools(pools, answers)|, block)
    {
      hide Verdict, Where;
      var updated, failed := 0, 0;
      ghost var u := UpdatedPools(pools, answers);
      ghost var f := FailedPools(pools, answers);
      WhereStart(u);
      WhereStart(f);
      assert addresses[..0] == [];
      for i := 0 to |results|
        invariant updated == |Where(addresses[..i], u)| && failed == |Where(addresses[..i], f)|
      {
        NextIsNew(addresses, i);
        WhereSnoc(addresses[..i], addresses[i], u);
        WhereSnoc(addresses[..i], addresses[i], f);
        VerdictCases(pools, answers, addresses[i]);
        if results[i] == Ok(true) {
          updated := updated + 1;
        } else if results[i].Err? {
          failed := failed + 1;
        }
      }
      assert addresses[..|addresses|] == addresses;
      WhereAll(addresses, u);
      WhereAll(addresses, f);
      stats := ReconcileStats(|addresses|, updated, failed, block);
    }

    /** The polling loop over any finite series of observed heads, failures included. */
    method Run(heads: seq<Option<u64>>, answers: u64 -> Address -> Option<Reserves>) returns (lastBlock: u64)
      requires poolStore.Valid()
      modifies poolStore
      ensures poolStore.Valid()
      ensures poolStore.inner == RunResult(old(poolStore.inner), Passes(heads, 0), answers)
      ensures lastBlock == LastPass(heads, 0)
    {
      hide Passes, PassResult, RunResult;
      lastBlock := 0;
      ghost var pools := poolStore.inner;
      NoPassYet(pools, answers);
      assert heads[..0] == [];
      for i := 0 to |heads|
        invariant poolStore.Valid()
        invariant poolStore.inner == RunResult(pools, Passes(heads[..i], 0), answers)
        invariant lastBlock == LastPass(heads[..i], 0)
      {
        ghost var before := Passes(heads[..i], 0);
        assert heads[..i + 1] == heads[..i] + [heads[i]];
        PassesSnoc(heads[..i], heads[i], 0);
        if heads[i].None? {
        } else if heads[i].value <= lastBlock {
        } else {
          var block := heads[i].value;
          var _ := ReconcileAll(block, answers(block));
          lastBlock := block;
          RunOneMore(pools, before, block, answers);
        }
      }
      assert heads[..|heads|] == heads;
    }
  }
}
