/** The budget watchdog (bin/arbx.rs:650-682). */
module Watchdog {
  import opened Wrappers
  import opened Ledger

  function Flat(batches: seq<seq<Entry>>): seq<Entry> {
    if batches == [] then [] else Flat(batches[..|batches| - 1]) + batches[|batches| - 1]
  }

  /** The ledger after these batches of records. */
  function After(st: PnlState, batches: seq<seq<Entry>>, budgetUsd: real): PnlState {
    Replay(st, Flat(batches), budgetUsd)
  }

  /** Tick k, which follows batch k, finds the budget exhausted. */
  predicate ExhaustedAtTick(st: PnlState, batches: seq<seq<Entry>>, k: nat, budgetUsd: real, killAtUsd: real) {
    k < |batches| && Exhausted(After(st, batches[..k + 1], budgetUsd), killAtUsd)
  }

  method RecordBatch(pnl: PnlTracker, batch: seq<Entry>)
    modifies pnl`state
    ensures pnl.state == Replay(old(pnl.state), batch, pnl.initialBudgetUsd)
  {
    hide Step;
    ghost var st := pnl.state;
    assert batch[..0] == [];
    for i := 0 to |batch|
      invariant pnl.state == Replay(st, batch[..i], pnl.initialBudgetUsd)
    {
      assert batch[..i + 1][..i] == batch[..i];
      var _ := pnl.RecordSubmission(batch[i]);
    }
    assert batch[..|batch|] == batch;
  }

  /**
    `batches[k]` are the records made before tick k. The watchdog returns its
    error at the first tick that finds the budget exhausted, and at no other.
   */
  method BudgetWatchdog(pnl: PnlTracker, batches: seq<seq<Entry>>) returns (fired: Option<nat>)
    modifies pnl`state
    ensures fired.None? ==>
              forall k :: 0 <= k < |batches| ==>
                !ExhaustedAtTick(old(pnl.state), batches, k, pnl.initialBudgetUsd, pnl.killAtUsd)
    ensures fired.Some? ==>
              && ExhaustedAtTick(old(pnl.state), batches, fired.value, pnl.initialBudgetUsd, pnl.killAtUsd)
              && forall k :: 0 <= k < fired.value ==>
                !ExhaustedAtTick(old(pnl.state), batches, k, pnl.initialBudgetUsd, pnl.killAtUsd)
  {
    hide Replay, Exhausted;
    ghost var st := pnl.state;
    assert batches[..0] == [] && Flat([]) == [];
    ReplayNothing(st, pnl.initialBudgetUsd);
    for i := 0 to |batches|
      invariant pnl.state == After(st, batches[..i], pnl.initialBudgetUsd)
      invariant forall k :: 0 <= k < i ==> !ExhaustedAtTick(st, batches, k, pnl.initialBudgetUsd, pnl.killAtUsd)
    {
      assert batches[..i + 1][..i] == batches[..i];
      ReplaySplits(st, Flat(batches[..i]), batches[i], pnl.initialBudgetUsd);
      RecordBatch(pnl, batches[i]);
      var exhausted := pnl.IsBudgetExhausted();
      if exhausted {
        return Some(i);
      }
    }
    return None;
  }

  lemma ReplayNothing(st: PnlState, budgetUsd: real)
    ensures Replay(st, [], budgetUsd) == st
  {
  }

  /**
    Exhaustion at any record, even in the middle of a batch, is still there at the
    tick that ends the batch, and at every later one.
   */
  lemma CrossingIsCaught(st: PnlState, batches: seq<seq<Entry>>, k: nat, n: nat, budgetUsd: real, killAtUsd: real)
    requires WellKept(st, budgetUsd) && PricesNonNegative(Flat(batches)) && k < |batches|
    requires n <= |Flat(batches[..k + 1])|
    requires Exhausted(Replay(st, Flat(batches[..k + 1])[..n], budgetUsd), killAtUsd)
    ensures forall j :: k <= j < |batches| ==> ExhaustedAtTick(st, batches, j, budgetUsd, killAtUsd)
  {
    hide WellKept, Replay, Exhausted;
    forall j | k <= j < |batches| ensures ExhaustedAtTick(st, batches, j, budgetUsd, killAtUsd) {
      FlatPrefix(batches, k + 1, j + 1);
      FlatPrefix(batches, j + 1, |batches|);
      assert batches[..|batches|] == batches;
      var until, whole := Flat(batches[..k + 1])[..n], Flat(batches[..j + 1]);
      assert until + whole[n..] == whole;
      forall i | 0 <= i < |whole| ensures whole[i].ethPriceUsd >= 0.0 {
        assert whole[i] == Flat(batches)[i];
      }
      ReplayPosts(st, until, budgetUsd);
      ReplaySplits(st, until, whole[n..], budgetUsd);
      ExhaustionIsPermanent(Replay(st, until, budgetUsd), whole[n..], budgetUsd, killAtUsd, killAtUsd);
    }
  }

  lemma {:induction false} FlatPrefix(batches: seq<seq<Entry>>, i: nat, j: nat)
    requires i <= j <= |batches|
    ensures Flat(batches[..i]) <= Flat(batches[..j])
    decreases j
  {
    if i < j {
      FlatPrefix(batches, i, j - 1);
      assert batches[..j][..j - 1] == batches[..j - 1];
    }
  }
}
