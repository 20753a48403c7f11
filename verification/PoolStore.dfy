/** The in-memory pool store (crates/ingestion/src/pool_state.rs). */
module PoolStore {
  import opened Wrappers
  import opened Words
  import opened Types

  type Pools = map<Address, PoolState>

  /** Every record is stored under its own address. */
  ghost predicate Keyed(pools: Pools) {
    forall a :: a in pools ==> pools[a].address == a
  }

  function Refreshed(pool: PoolState, reserve0: u256, reserve1: u256, block: u64): PoolState {
    pool.(reserve0 := reserve0, reserve1 := reserve1, lastUpdatedBlock := block)
  }

  /** `update_reserves` as a function of the map: unknown addresses are ignored. */
  function ReservesUpdated(pools: Pools, a: Address, reserve0: u256, reserve1: u256, block: u64): Pools {
    if a in pools then pools[a := Refreshed(pools[a], reserve0, reserve1, block)] else pools
  }

  /** `listing` holds exactly the stored pools accepted by `keep`, each once, in some order. */
  ghost predicate Lists(listing: seq<PoolState>, pools: Pools, keep: PoolState -> bool) {
    && (forall i :: 0 <= i < |listing| ==>
          var p := listing[i]; p.address in pools && pools[p.address] == p && keep(p))
    && (forall a :: a in pools && keep(pools[a]) ==> pools[a] in listing)
    && (forall i, j :: 0 <= i < j < |listing| ==> listing[i].address != listing[j].address)
  }

  class PoolStateStore {
    var inner: Pools

    ghost predicate Valid() reads this { Keyed(inner) }

    constructor ()
      ensures Valid() && inner == map[]
    {
      inner := map[];
    }

    method Upsert(state: PoolState)
      requires Valid()
      modifies this
      ensures Valid() && inner == old(inner)[state.address := state]
    {
      inner := inner[state.address := state];
    }

    method Get(address: Address) returns (r: Option<PoolState>)
      ensures r == if address in inner then Some(inner[address]) else None
    {
      if address in inner {
        return Some(inner[address]);
      }
      return None;
    }

    method UpdateReserves(address: Address, reserve0: u256, reserve1: u256, block: u64) returns (found: bool)
      requires Valid()
      modifies this
      ensures Valid() && inner == ReservesUpdated(old(inner), address, reserve0, reserve1, block)
      ensures found <==> address in old(inner)
    {
      if address in inner {
        inner := inner[address := Refreshed(inner[address], reserve0, reserve1, block)];
        return true;
      }
      return false;
    }

    /** All addresses, in arbitrary order. */
    method AllAddresses() returns (r: seq<Address>)
      ensures forall a :: a in r <==> a in inner
      ensures forall i, j :: 0 <= i < j < |r| ==> r[i] != r[j]
      ensures |r| == |inner|
    {
      r := [];
      var left := inner.Keys;
      while left != {}
        invariant left <= inner.Keys && |r| + |left| == |inner.Keys|
        invariant forall a :: a in r <==> a in inner.Keys - left
        invariant forall i, j :: 0 <= i < j < |r| ==> r[i] != r[j]
        decreases |left|
      {
        var a :| a in left;
        r := r + [a];
        left := left - {a};
      }
    }

    /** The shared filter-and-clone chain of `by_dex` and `pools_containing_token`. */
    method Select(keep: PoolState -> bool) returns (r: seq<PoolState>)
      requires Valid()
      ensures Lists(r, inner, keep)
    {
      r := [];
      var left := inner.Keys;
      while left != {}
        invariant left <= inner.Keys
        invariant forall i :: 0 <= i < |r| ==>
          var p := r[i]; p.address in inner.Keys - left && inner[p.address] == p && keep(p)
        invariant forall a :: a in inner.Keys - left && keep(inner[a]) ==> inner[a] in r
        invariant forall i, j :: 0 <= i < j < |r| ==> r[i].address != r[j].address
        decreases |left|
      {
        var a :| a in left;
        if keep(inner[a]) {
          r := r + [inner[a]];
        }
        left := left - {a};
      }
    }

    method ByDex(dex: DexKind) returns (r: seq<PoolState>)
      requires Valid()
      ensures Lists(r, inner, (p: PoolState) => p.dex == dex)
    {
      r := Select((p: PoolState) => p.dex == dex);
    }

    method PoolsContainingToken(token: Address) returns (r: seq<PoolState>)
      requires Valid()
      ensures Lists(r, inner, (p: PoolState) => p.Contains(token))
    {
      r := Select((p: PoolState) => p.Contains(token));
    }
  }
}
