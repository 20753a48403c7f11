/** The two-hop path scan (crates/detector/src/opportunity.rs:78-136). */
module PathScanner {
  import opened Wrappers
  import opened Words
  import opened Types
  import opened Amm
  import opened TwoHop
  import opened TernarySearch
  import opened PoolStore
  import ClosedForm
  import NearOptimal

  /** The path `scan` reports for one orientation and one second pool. */
  function PathFor(poolA: PoolState, tokenIn: Address, tokenMid: Address, poolB: PoolState): ArbPath {
    var partial := PartialPath(tokenIn, poolA, tokenMid, poolB);
    var amount := OptimalAmount(partial);
    ArbPath(tokenIn, poolA.address, tokenMid, poolB.address, tokenIn, PathProfit(partial, amount), amount)
  }

  /** b is another stored pool over the same token pair. */
  predicate Partner(pools: Pools, poolA: PoolState, tokenIn: Address, tokenMid: Address, b: Address) {
    b in pools && b != poolA.address && pools[b].Contains(tokenMid) && pools[b].Contains(tokenIn)
  }

  /** `paths` holds exactly one path per partner of `poolA` in this orientation, and nothing else. */
  ghost predicate Covers(paths: seq<ArbPath>, pools: Pools, poolA: PoolState, tokenIn: Address, tokenMid: Address) {
    && (forall i :: 0 <= i < |paths| ==>
          && Partner(pools, poolA, tokenIn, tokenMid, paths[i].poolB)
          && paths[i] == PathFor(poolA, tokenIn, tokenMid, pools[paths[i].poolB]))
    && (forall b :: Partner(pools, poolA, tokenIn, tokenMid, b) ==>
          exists i :: 0 <= i < |paths| && paths[i].poolB == b)
    && (forall i, j :: 0 <= i < j < |paths| ==> paths[i].poolB != paths[j].poolB)
  }

  /** The same, counting only partners among the candidates already visited. */
  ghost predicate CoversFirst(paths: seq<ArbPath>, pools: Pools, poolA: PoolState, tokenIn: Address, tokenMid: Address,
                              visited: seq<PoolState>) {
    && (forall i :: 0 <= i < |paths| ==>
          && Partner(pools, poolA, tokenIn, tokenMid, paths[i].poolB)
          && paths[i] == PathFor(poolA, tokenIn, tokenMid, pools[paths[i].poolB])
          && pools[paths[i].poolB] in visited)
    && (forall b :: Partner(pools, poolA, tokenIn, tokenMid, b) && pools[b] in visited ==>
          exists i :: 0 <= i < |paths| && paths[i].poolB == b)
    && (forall i, j :: 0 <= i < j < |paths| ==> paths[i].poolB != paths[j].poolB)
  }

  lemma CoverOneMore(paths: seq<ArbPath>, path: ArbPath, pools: Pools, poolA: PoolState, tokenIn: Address,
                     tokenMid: Address, visited: seq<PoolState>, next: PoolState)
    requires Keyed(pools) && CoversFirst(paths, pools, poolA, tokenIn, tokenMid, visited)
    requires Partner(pools, poolA, tokenIn, tokenMid, next.address) && pools[next.address] == next
    requires next !in visited && path == PathFor(poolA, tokenIn, tokenMid, next) && path.poolB == next.address
    ensures CoversFirst(paths + [path], pools, poolA, tokenIn, tokenMid, visited + [next])
  {
    hide PathFor;
    var longer := paths + [path];
    forall b | Partner(pools, poolA, tokenIn, tokenMid, b) && pools[b] in visited + [next]
      ensures exists i :: 0 <= i < |longer| && longer[i].poolB == b
    {
      if pools[b] in visited {
        var i :| 0 <= i < |paths| && paths[i].poolB == b;
        assert longer[i].poolB == b;
      } else {
        assert longer[|paths|].poolB == b;
      }
    }
  }

  class PathScanner {
    const store: PoolStateStore

    constructor (store: PoolStateStore)
      ensures this.store == store
    {
      this.store := store;
    }

    /**
      Sound and complete: the first `split` paths cover the orientation
      token0 -> token1, the rest cover token1 -> token0. An unknown pool has none.
      `view` is what the other tasks have made of the store at each of the three lookups.
     */
    method Scan(affected: Address, view: nat -> Pools) returns (paths: seq<ArbPath>, ghost split: nat)
      requires Keyed(view(0)) && Keyed(view(1)) && Keyed(view(2))
      modifies store
      ensures affected !in view(0) ==> paths == []
      ensures affected in view(0) ==>
                var a := view(0)[affected];
                && split <= |paths|
                && Covers(paths[..split], view(1), a, a.token0, a.token1)
                && Covers(paths[split..], view(2), a, a.token1, a.token0)
    {
      split := 0;
      store.inner := view(0);
      var found := store.Get(affected);
      if found.None? {
        return [], 0;
      }
      var poolA := found.value;
      var orientations := [(poolA.token0, poolA.token1), (poolA.token1, poolA.token0)];
      paths := [];
      for k := 0 to 2
        invariant split <= |paths|
        invariant k == 0 ==> paths == []
        invariant k == 1 ==> split == |paths| && Covers(paths, view(1), poolA, poolA.token0, poolA.token1)
        invariant k == 2 ==> Covers(paths[..split], view(1), poolA, poolA.token0, poolA.token1)
        invariant k == 2 ==> Covers(paths[split..], view(2), poolA, poolA.token1, poolA.token0)
      {
        ghost var before := paths;
        store.inner := view(k + 1);
        var more := ScanOrientation(poolA, orientations[k].0, orientations[k].1);
        paths := paths + more;
        if k == 0 {
          split := |paths|;
          assert paths == more;
        } else {
          assert paths[..split] == before && paths[split..] == more;
        }
      }
    }

    method ScanOrientation(poolA: PoolState, tokenIn: Address, tokenMid: Address) returns (paths: seq<ArbPath>)
      requires store.Valid()
      ensures Covers(paths, store.inner, poolA, tokenIn, tokenMid)
    {
      hide PathFor, Midpoint, Rises;
      var candidates := store.PoolsContainingToken(tokenMid);
      paths := [];
      for i := 0 to |candidates|
        invariant CoversFirst(paths, store.inner, poolA, tokenIn, tokenMid, candidates[..i])
      {
        var poolB := candidates[i];
        assert candidates[..i + 1] == candidates[..i] + [poolB];
        if poolB.address != poolA.address && poolB.Contains(tokenIn) {
          var path := Evaluate(poolA, tokenIn, tokenMid, poolB);
          CoverOneMore(paths, path, store.inner, poolA, tokenIn, tokenMid, candidates[..i], poolB);
          paths := paths + [path];
        }
      }
      assert candidates[..|candidates|] == candidates;
      forall b | Partner(store.inner, poolA, tokenIn, tokenMid, b)
        ensures exists j :: 0 <= j < |paths| && paths[j].poolB == b
      {
        assert store.inner[b] in candidates;
      }
    }

    method Evaluate(poolA: PoolState, tokenIn: Address, tokenMid: Address, poolB: PoolState) returns (path: ArbPath)
      ensures path == PathFor(poolA, tokenIn, tokenMid, poolB) && path.poolB == poolB.address
      ensures path.flashLoanAmountWei == Midpoint(Rises(PartialPath(tokenIn, poolA, tokenMid, poolB)), 64)
    {
      hide PoolOutput, Midpoint, Rises;
      var partial := PartialPath(tokenIn, poolA, tokenMid, poolB);
      var flashAmount := OptimalFlashLoanAmount(partial);
      var midOut := PoolOutput(tokenIn, flashAmount, poolA);
      var finalOut := PoolOutput(tokenMid, midOut, poolB);
      var estimatedProfit := SaturatingSub(finalOut, flashAmount);
      path := ArbPath(tokenIn, poolA.address, tokenMid, poolB.address, tokenIn, estimatedProfit, flashAmount);
    }
  }

  // ------------------------------------------------------------------------
  // What a scan result tells its reader
  // ------------------------------------------------------------------------

  /** Every path is circular, uses two different pools, and carries its own profit. */
  lemma PathsAreCycles(paths: seq<ArbPath>, pools: Pools, poolA: PoolState, tokenIn: Address, tokenMid: Address, i: nat)
    requires Keyed(pools) && Covers(paths, pools, poolA, tokenIn, tokenMid) && i < |paths|
    ensures var p := paths[i];
            && p.tokenOut == p.tokenIn == tokenIn && p.tokenMid == tokenMid
            && p.poolA == poolA.address != p.poolB && p.poolB in pools
            && pools[p.poolB].Contains(tokenIn) && pools[p.poolB].Contains(tokenMid)
            && p.estimatedProfitWei
            == PathProfit(PartialPath(p.tokenIn, poolA, p.tokenMid, pools[p.poolB]), p.flashLoanAmountWei)
  {
    hide PathProfit, OptimalAmount;
    assert Partner(pools, poolA, tokenIn, tokenMid, paths[i].poolB);
  }

  /** And every other stored pool over the two tokens, in either order, is reported exactly once. */
  lemma EveryPairIsReported(paths: seq<ArbPath>, pools: Pools, poolA: PoolState, tokenIn: Address, tokenMid: Address,
                            b: Address) returns (i: nat)
    requires Covers(paths, pools, poolA, tokenIn, tokenMid) && b in pools && b != poolA.address
    requires (pools[b].token0 == tokenIn && pools[b].token1 == tokenMid)
          || (pools[b].token0 == tokenMid && pools[b].token1 == tokenIn)
    ensures i < |paths| && paths[i].poolB == b
    ensures forall j :: 0 <= j < |paths| && paths[j].poolB == b ==> j == i
  {
    hide PathFor;
    assert Partner(pools, poolA, tokenIn, tokenMid, b);
    i :| 0 <= i < |paths| && paths[i].poolB == b;
  }

  /**
    The reported loan is what 64 rounds of the search over [10^6, 10^24] settle on,
    at least half a final bracket from either end.
   */
  lemma LoanIsSearched(paths: seq<ArbPath>, pools: Pools, poolA: PoolState, tokenIn: Address, tokenMid: Address, i: nat)
    requires Covers(paths, pools, poolA, tokenIn, tokenMid) && i < |paths|
    ensures paths[i].poolB in pools
    ensures paths[i].flashLoanAmountWei
         == Midpoint(Rises(PartialPath(tokenIn, poolA, tokenMid, pools[paths[i].poolB])), 64)
    ensures LEAST_ANSWER <= paths[i].flashLoanAmountWei <= HIGHEST - MIN_WIDTH / 2
  {
    hide PathProfit, Midpoint, Rises;
    assert Partner(pools, poolA, tokenIn, tokenMid, paths[i].poolB);
    MidpointRange(Rises(PartialPath(tokenIn, poolA, tokenMid, pools[paths[i].poolB])));
  }

  /**
    No amount of the range pays more than a scan reports, plus the slack: whenever
    the pools take the top of the range, or the profit turns before they refuse.
   */
  lemma ReportedProfitNearOptimal(paths: seq<ArbPath>, pools: Pools, poolA: PoolState, tokenIn: Address,
                                  tokenMid: Address, i: nat, p: u256, t: u256, a: u256)
    requires Keyed(pools) && Covers(paths, pools, poolA, tokenIn, tokenMid) && i < |paths|
    requires paths[i].poolB in pools && LOWEST <= a <= HIGHEST
    requires var path := PartialPath(tokenIn, poolA, tokenMid, pools[paths[i].poolB]);
             ClosedForm.LivePath(path)
             && (ClosedForm.Admits(path)(HIGHEST) || NearOptimal.TurnsBefore(path, p, t))
    ensures var path := PartialPath(tokenIn, poolA, tokenMid, pools[paths[i].poolB]);
            PathProfit(path, a) as real <= paths[i].estimatedProfitWei as real + NearOptimal.Slack(path)
  {
    hide PathProfit, OptimalAmount, ClosedForm.LivePath, ClosedForm.Admits, NearOptimal.TurnsBefore, NearOptimal.Slack;
    NearOptimal.SearchNearOptimal(PartialPath(tokenIn, poolA, tokenMid, pools[paths[i].poolB]), p, t, a);
  }

  /** Nothing is removed and no pool changes its tokens, as in every run of the tasks that write the store. */
  ghost predicate Grows(pools: Pools, later: Pools) {
    forall b :: b in pools ==> b in later && pools[b].SameIdentity(later[b])
  }

  /** The second orientation lists every partner of the first; they list the same ones if none was added. */
  lemma OrientationsMatch(there: seq<ArbPath>, back: seq<ArbPath>, pools: Pools, later: Pools, poolA: PoolState)
    requires Keyed(pools) && Keyed(later) && Grows(pools, later)
    requires Covers(there, pools, poolA, poolA.token0, poolA.token1)
    requires Covers(back, later, poolA, poolA.token1, poolA.token0)
    ensures |there| <= |back|
    ensures later.Keys == pools.Keys ==> |there| == |back|
    ensures poolA.token0 != poolA.token1 ==>
              forall i, j :: 0 <= i < |there| && 0 <= j < |back| ==> there[i] != back[j]
  {
    hide PathProfit, OptimalAmount;
    OneWay(there, back, pools, later, poolA, poolA.token0, poolA.token1);
    if later.Keys == pools.Keys {
      OneWay(back, there, later, pools, poolA, poolA.token1, poolA.token0);
    }
  }

  lemma OneWay(there: seq<ArbPath>, back: seq<ArbPath>, pools: Pools, later: Pools, poolA: PoolState,
               x: Address, y: Address)
    requires Covers(there, pools, poolA, x, y) && Covers(back, later, poolA, y, x)
    requires Grows(pools, later)
    ensures |there| <= |back|
  {
    hide PathFor;
    var s, t := Seconds(there), Seconds(back);
    forall i | 0 <= i < |s| ensures s[i] in t {
      assert Partner(later, poolA, y, x, there[i].poolB);
      var j :| 0 <= j < |back| && back[j].poolB == there[i].poolB;
      assert t[j] == s[i];
    }
    Pigeonhole(s, t);
  }

  function Seconds(paths: seq<ArbPath>): seq<Address> {
    seq(|paths|, i requires 0 <= i < |paths| => paths[i].poolB)
  }

  lemma {:induction false} Pigeonhole(s: seq<Address>, t: seq<Address>)
    requires forall i, j :: 0 <= i < j < |s| ==> s[i] != s[j]
    requires forall i :: 0 <= i < |s| ==> s[i] in t
    ensures |s| <= |t|
    decreases |s|
  {
    if s != [] {
      var j :| 0 <= j < |t| && t[j] == s[0];
      var rest := t[..j] + t[j + 1..];
      forall i | 0 <= i < |s[1..]| ensures s[1..][i] in rest {
        var l :| 0 <= l < |t| && t[l] == s[i + 1];
        assert if l < j then rest[l] == t[l] else rest[l - 1] == t[l];
      }
      Pigeonhole(s[1..], rest);
    }
  }

  /** Of the two paths reported for one partner whose record stayed the same, at most one shows a profit. */
  lemma AtMostOneOrientationPays(there: seq<ArbPath>, back: seq<ArbPath>, pools: Pools, later: Pools,
                                 poolA: PoolState, i: nat, j: nat)
    requires poolA.token0 != poolA.token1 && ReservesRanged(poolA)
    requires Covers(there, pools, poolA, poolA.token0, poolA.token1)
    requires Covers(back, later, poolA, poolA.token1, poolA.token0)
    requires i < |there| && j < |back| && there[i].poolB == back[j].poolB
    requires pools[there[i].poolB] == later[back[j].poolB] && ReservesRanged(pools[there[i].poolB])
    requires FeesCost(FeeFactor(poolA.feeTier), FeeFactor(pools[there[i].poolB].feeTier))
    ensures there[i].estimatedProfitWei == 0 || back[j].estimatedProfitWei == 0
  {
    hide PathProfit, OptimalAmount;
    var b := pools[there[i].poolB];
    OneOrientationOnly(poolA, b, poolA.token0, poolA.token1, there[i].flashLoanAmountWei, back[j].flashLoanAmountWei);
  }
}
