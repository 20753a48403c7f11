/** The block poller for local forks (crates/ingestion/src/block_poller.rs). */
module BlockPoller {
  import opened Wrappers
  import opened Words
  import opened PoolStore
  import opened SwapDetection

  /** The swap channel: its receiver closes it after `capacity` messages. */
  class SwapChannel {
    var sent: seq<DetectedSwap>
    const capacity: nat

    constructor (capacity: nat)
      ensures sent == [] && this.capacity == capacity
    {
      sent := [];
      this.capacity := capacity;
    }

    method Send(swap: DetectedSwap) returns (ok: bool)
      modifies this`sent
      ensures ok <==> |old(sent)| < capacity
      ensures sent == if ok then old(sent) + [swap] else old(sent)
    {
      ok := |sent| < capacity;
      if ok {
        sent := sent + [swap];
      }
    }
  }

  /** What the other tasks have made of the pool store by the time each transaction is looked up. */
  type View = nat -> Pools

  /** The swaps of a block, in the order of its transactions. */
  function SwapsOf(view: View, txs: seq<TxInfo>): seq<DetectedSwap> {
    if txs == [] then []
    else
      var last := ProcessTransaction(view(|txs| - 1), txs[|txs| - 1]);
      SwapsOf(view, txs[..|txs| - 1]) + if last.Some? then [last.value] else []
  }

  lemma SwapsOfOneMore(view: View, txs: seq<TxInfo>, i: nat)
    requires i < |txs|
    ensures var swap := PollTransaction(view(i), txs[i]);
      SwapsOf(view, txs[..i + 1]) == if swap.None? then SwapsOf(view, txs[..i])
                                     else SwapsOf(view, txs[..i]) + [swap.value]
  {
    hide PollTransaction, ProcessTransaction;
    TwoDetectorsAgree(view(i), txs[i]);
    assert txs[..i + 1][..i] == txs[..i];
  }

  /** What an observer of the channel sees of a series of messages. */
  function Delivered(swaps: seq<DetectedSwap>, capacity: nat): seq<DetectedSwap> {
    if |swaps| <= capacity then swaps else swaps[..capacity]
  }

  /** Blocks first+1 .. last, in order. */
  function BlocksAfter(first: u64, last: u64): (r: seq<u64>)
    ensures |r| == if first < last then last - first else 0
    ensures forall i :: 0 <= i < |r| ==> r[i] == first + 1 + i
    decreases last - first
  {
    if last <= first then [] else BlocksAfter(first, last - 1) + [last]
  }

  /** The highest head seen, counting the one at the start. */
  function Highest(start: u64, heads: seq<Option<u64>>): u64 {
    if heads == [] then start
    else
      var before, head := Highest(start, heads[..|heads| - 1]), heads[|heads| - 1];
      if head.Some? && head.value > before then head.value else before
  }

  lemma {:induction false} HighestIsMaximum(start: u64, heads: seq<Option<u64>>)
    ensures start <= Highest(start, heads)
    ensures forall i :: 0 <= i < |heads| && heads[i].Some? ==> heads[i].value <= Highest(start, heads)
    ensures Highest(start, heads) == start || Some(Highest(start, heads)) in heads
  {
    if heads != [] {
      HighestIsMaximum(start, heads[..|heads| - 1]);
    }
  }

  /** The swaps the poller finds in one answer of the node. */
  function Found(view: View, block: Option<seq<TxInfo>>): seq<DetectedSwap> {
    if block.Some? then SwapsOf(view, block.value) else []
  }

  /** The node's answer about a block, None if it is missing or fails, and the store while it is processed. */
  datatype Visit = Visit(answer: Option<seq<TxInfo>>, view: View)

  /** The swaps of a series of blocks. */
  function SwapsOfBlocks(blocks: seq<u64>, visit: u64 -> Visit): seq<DetectedSwap> {
    if blocks == [] then []
    else
      var last := visit(blocks[|blocks| - 1]);
      SwapsOfBlocks(blocks[..|blocks| - 1], visit) + Found(last.view, last.answer)
  }

  lemma OneMoreBlock(before: seq<DetectedSwap>, seen: seq<u64>, b: u64, visit: u64 -> Visit, capacity: nat)
    ensures var found := Found(visit(b).view, visit(b).answer);
            Delivered(Delivered(before + SwapsOfBlocks(seen, visit), capacity) + found, capacity)
            == Delivered(before + SwapsOfBlocks(seen + [b], visit), capacity)
  {
    hide Found, Delivered;
    assert (seen + [b])[..|seen|] == seen;
    var x, y := before + SwapsOfBlocks(seen, visit), Found(visit(b).view, visit(b).answer);
    assert before + SwapsOfBlocks(seen + [b], visit) == x + y;
    DeliveredTwice(x, y, capacity);
  }

  class BlockPoller {
    const poolStore: PoolStateStore
    const swapTx: SwapChannel
    var visited: seq<u64>

    constructor (poolStore: PoolStateStore, swapTx: SwapChannel)
      ensures this.poolStore == poolStore && this.swapTx == swapTx && visited == []
    {
      this.poolStore := poolStore;
      this.swapTx := swapTx;
      visited := [];
    }

    /** Stops early only when the channel has closed; other tasks write the store between two lookups. */
    method ProcessBlock(block: Option<seq<TxInfo>>, view: View)
      requires |swapTx.sent| <= swapTx.capacity
      modifies swapTx, poolStore
      ensures |swapTx.sent| <= swapTx.capacity
      ensures swapTx.sent == Delivered(old(swapTx.sent) + Found(view, block), swapTx.capacity)
    {
      hide PollTransaction, SwapsOf;
      ghost var before := swapTx.sent;
      if block.None? {
        assert before + [] == before;
        return;
      }
      var txs := block.value;
      NoSwapsYet(view, before, txs);
      for i := 0 to |txs|
        invariant |swapTx.sent| <= swapTx.capacity
        invariant swapTx.sent == before + SwapsOf(view, txs[..i])
      {
        SwapsOfOneMore(view, txs, i);
        poolStore.inner := view(i);
        var swap := PollTransaction(poolStore.inner, txs[i]);
        if swap.Some? {
          var ok := swapTx.Send(swap.value);
          if !ok {
            SwapsOfPrefix(view, txs, i);
            SwapsOfPrefix(view, txs, i + 1);
            return;
          }
        }
      }
      assert txs[..|txs|] == txs;
    }

    /**
      Any finite stretch of the polling loop, with failed polls and heads that step
      back: every block after the start up to the highest head is visited once, in
      order, and their swaps are delivered in that order.
     */
    method Run(start: Option<u64>, heads: seq<Option<u64>>, visit: u64 -> Visit) returns (lastBlock: u64)
      requires visited == [] && |swapTx.sent| <= swapTx.capacity
      modifies this`visited, swapTx, poolStore
      ensures var first := if start.Some? then start.value else 0;
        && lastBlock == Highest(first, heads)
        && visited == BlocksAfter(first, lastBlock)
        && swapTx.sent == Delivered(old(swapTx.sent) + SwapsOfBlocks(visited, visit), swapTx.capacity)
    {
      hide BlocksAfter, SwapsOfBlocks, Delivered, Found;
      var first := if start.Some? then start.value else 0;
      ghost var before := swapTx.sent;
      lastBlock := first;
      NothingVisited(before, first, visit, swapTx.capacity);
      assert heads[..0] == [];
      for i := 0 to |heads|
        invariant |swapTx.sent| <= swapTx.capacity
        invariant first <= lastBlock == Highest(first, heads[..i])
        invariant visited == BlocksAfter(first, lastBlock)
        invariant swapTx.sent == Delivered(before + SwapsOfBlocks(visited, visit), swapTx.capacity)
      {
        assert heads[..i + 1][..i] == heads[..i];
        if heads[i].Some? && heads[i].value > lastBlock {
          VisitTo(first, lastBlock, heads[i].value, visit, before);
          lastBlock := heads[i].value;
        }
      }
      assert heads[..|heads|] == heads;
    }

    /** Processes each new block in order. */
    method VisitTo(ghost first: u64, lastBlock: u64, head: u64, visit: u64 -> Visit,
                   ghost before: seq<DetectedSwap>)
      requires first <= lastBlock < head && |swapTx.sent| <= swapTx.capacity
      requires visited == BlocksAfter(first, lastBlock)
      requires swapTx.sent == Delivered(before + SwapsOfBlocks(visited, visit), swapTx.capacity)
      modifies this`visited, swapTx, poolStore
      ensures |swapTx.sent| <= swapTx.capacity
      ensures visited == BlocksAfter(first, head)
      ensures swapTx.sent == Delivered(before + SwapsOfBlocks(visited, visit), swapTx.capacity)
    {
      hide SwapsOfBlocks, Delivered, Found;
      for blockNum := lastBlock + 1 to head + 1
        invariant |swapTx.sent| <= swapTx.capacity
        invariant visited == BlocksAfter(first, blockNum - 1)
        invariant swapTx.sent == Delivered(before + SwapsOfBlocks(visited, visit), swapTx.capacity)
      {
        OneMoreBlock(before, visited, blockNum, visit, swapTx.capacity);
        ProcessBlock(visit(blockNum).answer, visit(blockNum).view);
        visited := visited + [blockNum];
      }
    }
  }

  lemma NothingVisited(before: seq<DetectedSwap>, first: u64, visit: u64 -> Visit, capacity: nat)
    requires |before| <= capacity
    ensures BlocksAfter(first, first) == []
    ensures before == Delivered(before + SwapsOfBlocks([], visit), capacity)
  {
    assert before + [] == before;
  }

  lemma NoSwapsYet(view: View, before: seq<DetectedSwap>, txs: seq<TxInfo>)
    ensures before == before + SwapsOf(view, txs[..0])
  {
  }

  lemma {:induction false} SwapsOfPrefix(view: View, txs: seq<TxInfo>, i: nat)
    requires i <= |txs|
    ensures SwapsOf(view, txs[..i]) <= SwapsOf(view, txs)
    decreases |txs|
  {
    if i < |txs| {
      SwapsOfPrefix(view, txs[..|txs| - 1], i);
      assert txs[..|txs| - 1][..i] == txs[..i];
    } else {
      assert txs[..i] == txs;
    }
  }

  /** A closed channel stays closed. */
  lemma DeliveredTwice(x: seq<DetectedSwap>, y: seq<DetectedSwap>, capacity: nat)
    ensures Delivered(Delivered(x, capacity) + y, capacity) == Delivered(x + y, capacity)
  {
  }

  /** Exactly once: a block is visited iff it lies after the start and up to the highest head, at one position. */
  lemma EachBlockOnce(first: u64, last: u64, b: u64)
    ensures b in BlocksAfter(first, last) <==> first < b <= last
    ensures forall i, j :: 0 <= i < j < |BlocksAfter(first, last)| ==>
              BlocksAfter(first, last)[i] < BlocksAfter(first, last)[j]
  {
    if first < b <= last {
      assert BlocksAfter(first, last)[b - first - 1] == b;
    }
  }

  /** Transaction i of block k is reported, judged by the store as it was at that lookup. */
  predicate Reports(blocks: seq<u64>, visit: u64 -> Visit, k: int, i: int, swap: DetectedSwap) {
    && 0 <= k < |blocks| && visit(blocks[k]).answer.Some? && 0 <= i < |visit(blocks[k]).answer.value|
    && ProcessTransaction(visit(blocks[k]).view(i), visit(blocks[k]).answer.value[i]) == Some(swap)
  }

  /** The swaps of the visited blocks are exactly those of their transactions. */
  lemma {:induction false} FoundIff(blocks: seq<u64>, visit: u64 -> Visit, swap: DetectedSwap)
    ensures swap in SwapsOfBlocks(blocks, visit) <==> exists k, i :: Reports(blocks, visit, k, i, swap)
  {
    hide ProcessTransaction, SwapsOf;
    if blocks != [] {
      var n := |blocks| - 1;
      var before, last := blocks[..n], visit(blocks[n]);
      FoundIff(before, visit, swap);
      if last.answer.Some? {
        SwapOfIff(last.view, last.answer.value, swap);
      }
      if k, i :| Reports(before, visit, k, i, swap) {
        assert Reports(blocks, visit, k, i, swap);
      }
      if last.answer.Some? && swap in SwapsOf(last.view, last.answer.value) {
        var i :| 0 <= i < |last.answer.value| && ProcessTransaction(last.view(i), last.answer.value[i]) == Some(swap);
        assert Reports(blocks, visit, n, i, swap);
      }
      if k, i :| Reports(blocks, visit, k, i, swap) {
        assert k < n ==> Reports(before, visit, k, i, swap);
      }
    }
  }

  lemma {:induction false} SwapOfIff(view: View, txs: seq<TxInfo>, swap: DetectedSwap)
    ensures swap in SwapsOf(view, txs)
       <==> exists i :: 0 <= i < |txs| && ProcessTransaction(view(i), txs[i]) == Some(swap)
  {
    hide ProcessTransaction;
    if txs != [] {
      var n := |txs| - 1;
      SwapOfIff(view, txs[..n], swap);
      if i :| 0 <= i < n && ProcessTransaction(view(i), txs[..n][i]) == Some(swap) {
        assert txs[i] == txs[..n][i];
      }
      if i :| 0 <= i < |txs| && ProcessTransaction(view(i), txs[i]) == Some(swap) {
        assert i < n ==> txs[..n][i] == txs[i];
      }
    }
  }
}
