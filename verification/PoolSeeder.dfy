/** Start-up discovery from factory logs (crates/ingestion/src/pool_seeder.rs). */
module PoolSeeder {
  import opened Wrappers
  import opened Words
  import opened BigEndian
  import opened Types
  import opened PoolStore
  import PoolRun

  datatype Log = Log(topics: seq<u256>, data: Bytes)

  datatype SeedError = GetLogsFailed

  // ------------------------------------------------------------------------
  // Decoding one log
  // ------------------------------------------------------------------------

  /** `Address::from_word`: the low 20 bytes. */
  function AddressOfWord(w: u256): Address { w % TWO_160 }

  function AddressAt(data: Bytes, at: nat): Address
    requires at + 20 <= |data|
  {
    var b := data[at..at + 20];
    BigEndianBound(b);
    AddressSize(|b|);
    FromBigEndian(b)
  }

  function Fee(topics: seq<u256>): u32 {
    if |topics| <= 3 then 3000
    else
      var v := topics[3] % (TWO_64 - 1);
      if v < TWO_32 then v else 3000
  }

  function Decode(dex: DexKind, log: Log): Option<PoolState> {
    var least, at := if dex.UniswapV3? then 64 else 32, if dex.UniswapV3? then 44 else 12;
    if |log.topics| <= 2 || |log.data| < least || AddressAt(log.data, at) == 0 then None
    else
      var fee := if dex.UniswapV3? then Fee(log.topics) else 3000;
      var token0, token1 := AddressOfWord(log.topics[1]), AddressOfWord(log.topics[2]);
      Some(PoolState(AddressAt(log.data, at), token0, token1, 0, 0, fee, 0, dex))
  }

  function DecodeAll(dex: DexKind, logs: seq<Log>): seq<PoolState> {
    if logs == [] then []
    else
      var pool := Decode(dex, logs[|logs| - 1]);
      DecodeAll(dex, logs[..|logs| - 1]) + if pool.Some? then [pool.value] else []
  }

  /** The documentation says the lower 24 bits of the topic are the fee; for such topics the code agrees. */
  lemma FeeIsTopic(topics: seq<u256>)
    requires |topics| > 3 && topics[3] < 0x100_0000
    ensures Fee(topics) == topics[3]
  {
  }

  /** The log a factory emits for a new pool: indexed tokens and fee, then
      the pool's address in the data, beside the tick spacing (V3) or the pair count (V2). */
  function Emitted(dex: DexKind, signature: u256, a: Address, token0: Address, token1: Address, fee: u32, spacing: u256)
    : Log
  {
    if dex.UniswapV3? then
      Log([signature, token0, token1, fee], ToBigEndian(spacing, 32) + ToBigEndian(0, 12) + ToBigEndian(a, 20))
    else Log([signature, token0, token1], ToBigEndian(0, 12) + ToBigEndian(a, 20) + ToBigEndian(spacing, 32))
  }

  /** A factory's log decodes to the pool it announces, with its own fee for V3 and 3000 for V2. */
  lemma DecodesWhatFactoriesEmit(dex: DexKind, signature: u256, a: Address, token0: Address, token1: Address, fee: u32,
                                 spacing: u256)
    requires a != 0
    ensures Decode(dex, Emitted(dex, signature, a, token0, token1, fee, spacing))
         == Some(PoolState(a, token0, token1, 0, 0, if dex.UniswapV3? then fee else 3000, 0, dex))
  {
    hide ToBigEndian, FromBigEndian;
    var log := Emitted(dex, signature, a, token0, token1, fee, spacing);
    var at := if dex.UniswapV3? then 44 else 12;
    assert log.data[at..at + 20] == ToBigEndian(a, 20);
    AddressSize(|ToBigEndian(a, 20)|);
    ReadsBack(a, 20);
  }

  /**
    Which logs are dropped: those without both token topics, with too little data,
    or with the zero address where the pool's is expected. Any other gives a stub.
   */
  lemma DecodesIff(dex: DexKind, log: Log)
    ensures Decode(dex, log).Some?
       <==> |log.topics| >= 3 && |log.data| >= (if dex.UniswapV3? then 64 else 32)
            && exists i :: (if dex.UniswapV3? then 44 <= i < 64 else 12 <= i < 32) && log.data[i] != 0
    ensures Decode(dex, log).Some? ==>
              var pool := Decode(dex, log).value;
              && pool.IsStub() && pool.dex == dex
              && pool.token0 == log.topics[1] % TWO_160 && pool.token1 == log.topics[2] % TWO_160
  {
    hide FromBigEndian;
    var least, at := if dex.UniswapV3? then 64 else 32, if dex.UniswapV3? then 44 else 12;
    if |log.data| >= least {
      var b := log.data[at..at + 20];
      ZeroIff(b);
      assert forall i :: at <= i < at + 20 ==> log.data[i] == b[i - at];
      assert forall i :: 0 <= i < 20 ==> b[i] == log.data[at + i];
    }
  }

  // ------------------------------------------------------------------------
  // The chunked scan
  // ------------------------------------------------------------------------

  /** The last block of the window that starts at `start`; the sum wraps at 2^64. */
  function WindowEnd(start: u64, last: u64, chunk: u64): u64 {
    var end := (start + chunk - 1) % TWO_64;
    if end < last then end else last
  }

  /** The scan moves forward exactly when the window's sum does not wrap, or wraps from block 0 with chunk 0. */
  lemma AdvancesIff(start: u64, last: u64, chunk: u64)
    requires start <= last
    ensures WindowEnd(start, last, chunk) + 1 > start
       <==> (if chunk == 0 then start == 0 else start + chunk - 1 < TWO_64)
    ensures chunk == 0 && start > 0 ==> WindowEnd(start, last, chunk) + 1 == start
  {
    var sum := start + chunk - 1;
    assert sum % TWO_64 == if sum < 0 then sum + TWO_64 else if sum < TWO_64 then sum else sum - TWO_64;
  }

  datatype Window = Window(start: u64, end: u64)

  /** The scan goes straight through: every window moves it forward, and `end + 1` never wraps. */
  predicate RunsThrough(start: u64, last: u64, chunk: u64)
    decreases last - start + 1
  {
    start > last
    || (var next := WindowEnd(start, last, chunk) + 1; start < next < TWO_64 && RunsThrough(next, last, chunk))
  }

  /** The sum of the last window fits 64 bits. */
  predicate LastWindowFits(start: u64, last: u64, chunk: u64)
    requires start <= last && chunk > 0
  {
    start + Quot(last - start, chunk) * chunk + chunk <= TWO_64
  }

  /**
    Which ranges and chunk sizes run straight through. On any other the source
    jumps back to blocks it has scanned, or stays where it is.
   */
  lemma RunsThroughIff(start: u64, last: u64, chunk: u64)
    ensures RunsThrough(start, last, chunk)
       <==> start > last
            || (last < TWO_64 - 1
                && if chunk == 0 then start == 0 else start + (last - start) / chunk * chunk + chunk <= TWO_64)
  {
    hide RunsThrough, LastWindowFits;
    RunsThroughIfFits(start, last, chunk);
    if start <= last && chunk > 0 {
      LastWindowFitsIs(start, last, chunk);
    }
  }

  lemma {:induction false} RunsThroughIfFits(start: u64, last: u64, chunk: u64)
    ensures RunsThrough(start, last, chunk)
       <==> start > last
            || (last < TWO_64 - 1 && (if chunk == 0 then start == 0 else LastWindowFits(start, last, chunk)))
    decreases last - start + 1
  {
    RunsStep(start, last, chunk);
    hide LastWindowFits, RunsThrough, WindowEnd;
    if start <= last {
      AdvancesIff(start, last, chunk);
      if chunk > 0 {
        OneWindowLess(start, last, chunk);
      }
      if chunk > 0 && last - start >= chunk {
        RunsThroughIfFits(start + chunk, last, chunk);
      } else if if chunk == 0 then start == 0 else start + chunk <= TWO_64 {
        LastWindow(start, last, chunk);
      }
    }
  }

  lemma RunsStep(start: u64, last: u64, chunk: u64)
    ensures start > last ==> RunsThrough(start, last, chunk)
    ensures start <= last ==>
              var next := WindowEnd(start, last, chunk) + 1;
              RunsThrough(start, last, chunk) <==> start < next < TWO_64 && RunsThrough(next, last, chunk)
    ensures last < TWO_64 - 1 ==> RunsThrough(last + 1, last, chunk)
  {
  }

  lemma LastWindow(start: u64, last: u64, chunk: u64)
    requires start <= last
    requires if chunk == 0 then start == 0 else last < start + chunk <= TWO_64
    ensures WindowEnd(start, last, chunk) == last
  {
  }

  /** Either this window is the last one, or dropping it leaves the same last window. */
  lemma OneWindowLess(start: u64, last: u64, chunk: u64)
    requires start <= last && chunk > 0
    ensures LastWindowFits(start, last, chunk) ==> start + chunk <= TWO_64
    ensures last - start < chunk ==>
              (LastWindowFits(start, last, chunk) <==> start + chunk <= TWO_64)
    ensures last - start >= chunk ==>
              && WindowEnd(start, last, chunk) + 1 == start + chunk
              && (LastWindowFits(start, last, chunk) <==> LastWindowFits(start + chunk, last, chunk))
  {
    var n := last - start;
    AdvancesIff(start, last, chunk);
    MulMono(0, Quot(n, chunk), 0, chunk);
    if n >= chunk {
      NextMultiple(n, chunk);
      NextWindow(start, last, chunk);
    } else {
      NoMultiple(n, chunk);
    }
  }

  lemma NextMultiple(n: nat, chunk: nat)
    requires 0 < chunk <= n
    ensures Quot(n, chunk) * chunk == Quot(n - chunk, chunk) * chunk + chunk
    ensures Quot(n - chunk, chunk) * chunk >= 0
  {
    var q := Quot(n - chunk, chunk);
    assert Quot(n, chunk) == q + 1;
    hide Quot;
    MulMono(0, q, 0, chunk);
    assert (q + 1) * chunk == q * chunk + chunk;
  }

  lemma NoMultiple(n: nat, chunk: nat)
    requires n < chunk
    ensures Quot(n, chunk) * chunk == 0
  {
  }

  lemma NextWindow(start: u64, last: u64, chunk: u64)
    requires start <= last && chunk > 0 && last - start >= chunk
    ensures WindowEnd(start, last, chunk) + 1 == start + chunk
  {
  }

  /** `LastWindowFits` in terms of the built-in division. */
  lemma LastWindowFitsIs(start: u64, last: u64, chunk: u64)
    requires start <= last && chunk > 0
    ensures LastWindowFits(start, last, chunk) <==> start + (last - start) / chunk * chunk + chunk <= TWO_64
  {
    QuotIsFloor(last - start, chunk);
  }

  function Windows(start: u64, last: u64, chunk: u64): seq<Window>
    requires RunsThrough(start, last, chunk)
    decreases last - start + 1
  {
    if start > last then []
    else
      var end := WindowEnd(start, last, chunk);
      [Window(start, end)] + Windows(end + 1, last, chunk)
  }

  ghost predicate Partitions(w: seq<Window>, start: u64, last: u64, chunk: u64) {
    && w != [] && w[0].start == start && w[|w| - 1].end == last
    && (forall i :: 0 <= i < |w| ==> w[i].start <= w[i].end && (chunk > 0 ==> w[i].end < w[i].start + chunk))
    && (forall i :: 0 <= i < |w| - 1 ==> w[i + 1].start == w[i].end + 1)
  }

  /** The windows cut [start, last] into consecutive pieces of at most `chunk` blocks. */
  lemma {:induction false} WindowsPartition(start: u64, last: u64, chunk: u64)
    requires RunsThrough(start, last, chunk) && start <= last
    ensures Partitions(Windows(start, last, chunk), start, last, chunk)
    decreases last - start
  {
    WindowBounds(start, last, chunk);
    var end := WindowEnd(start, last, chunk);
    var w, rest := Windows(start, last, chunk), Windows(end + 1, last, chunk);
    assert w == [Window(start, end)] + rest;
    hide WindowEnd, Windows;
    if end < last {
      WindowsPartition(end + 1, last, chunk);
      OneMoreInFront(start, end, last, chunk, rest);
    } else {
      NoWindows(end + 1, last, chunk);
    }
  }

  lemma WindowBounds(start: u64, last: u64, chunk: u64)
    requires RunsThrough(start, last, chunk) && start <= last
    ensures start <= WindowEnd(start, last, chunk) <= last
    ensures chunk > 0 ==> WindowEnd(start, last, chunk) < start + chunk
  {
    AdvancesIff(start, last, chunk);
  }

  lemma NoWindows(start: u64, last: u64, chunk: u64)
    requires RunsThrough(start, last, chunk) && start > last
    ensures Windows(start, last, chunk) == []
  {
  }

  lemma OneMoreInFront(start: u64, end: u64, last: u64, chunk: u64, rest: seq<Window>)
    requires start <= end < last && (chunk > 0 ==> end < start + chunk) && Partitions(rest, end + 1, last, chunk)
    ensures Partitions([Window(start, end)] + rest, start, last, chunk)
  {
    var w := [Window(start, end)] + rest;
    forall i | 0 <= i < |w| - 1 ensures w[i + 1].start == w[i].end + 1 {
      assert w[i + 1] == rest[i] && (i > 0 ==> w[i] == rest[i - 1]);
    }
  }

  /** How many windows hold block b. */
  function Holding(w: seq<Window>, b: int): nat {
    if w == [] then 0 else (if w[0].start <= b <= w[0].end then 1 else 0) + Holding(w[1..], b)
  }

  /** Every block of the range lies in exactly one window, every other block in none. */
  lemma {:induction false} EachBlockInOneWindow(start: u64, last: u64, chunk: u64, b: int)
    requires RunsThrough(start, last, chunk)
    ensures Holding(Windows(start, last, chunk), b) == if start <= b <= last then 1 else 0
    decreases last - start + 1
  {
    if start <= last {
      var end := WindowEnd(start, last, chunk);
      EachBlockInOneWindow(end + 1, last, chunk, b);
      assert Windows(start, last, chunk)[1..] == Windows(end + 1, last, chunk);
    }
  }

  /** What one query over the whole range would return: the logs of its blocks, in order. */
  function LogsIn(chain: int -> seq<Log>, start: int, last: int): seq<Log>
    decreases last - start + 1
  {
    if start > last then [] else LogsIn(chain, start, last - 1) + chain(last)
  }

  lemma {:induction false} LogsJoin(chain: int -> seq<Log>, start: int, mid: int, last: int)
    requires start <= mid + 1 && mid <= last
    ensures LogsIn(chain, start, mid) + LogsIn(chain, mid + 1, last) == LogsIn(chain, start, last)
    decreases last - mid
  {
    if mid == last {
      assert LogsIn(chain, mid + 1, last) == [];
    } else {
      LogsJoin(chain, start, mid, last - 1);
      LastBlock(chain, start, last);
      LastBlock(chain, mid + 1, last);
      hide LogsIn;
    }
  }

  lemma LastBlock(chain: int -> seq<Log>, start: int, last: int)
    requires start <= last
    ensures LogsIn(chain, start, last) == LogsIn(chain, start, last - 1) + chain(last)
  {
  }

  /** Where the next window starts; `end + 1` wraps as well. */
  function NextStart(start: u64, last: u64, chunk: u64): u64 { (WindowEnd(start, last, chunk) + 1) % TWO_64 }

  /** The windows of the first n rounds; one whose sum wrapped ends before it starts. */
  function Scanned(start: u64, last: u64, chunk: u64, n: nat): seq<Window>
    decreases n
  {
    if start > last || n == 0 then []
    else
      [Window(start, WindowEnd(start, last, chunk))] + Scanned(NextStart(start, last, chunk), last, chunk, n - 1)
  }

  /** What the queries for these windows return, one after the other. */
  function LogsOf(chain: int -> seq<Log>, w: seq<Window>): seq<Log> {
    if w == [] then []
    else
      var n := |w| - 1;
      LogsOf(chain, w[..n]) + LogsIn(chain, w[n].start, w[n].end)
  }

  /** Decoding a window onto what earlier windows gave is decoding the longer range. */
  lemma {:induction false} DecodeJoins(dex: DexKind, x: seq<Log>, y: seq<Log>)
    ensures DecodeAll(dex, x + y) == DecodeAll(dex, x) + DecodeAll(dex, y)
    decreases |y|
  {
    hide Decode;
    if y == [] {
      assert x + y == x;
    } else {
      var l := |y| - 1;
      DecodeJoins(dex, x, y[..l]);
      assert (x + y)[..|x + y| - 1] == x + y[..l] && (x + y)[|x + y| - 1] == y[l];
    }
  }

  /** The loop over the logs of one answer. */
  method DecodeLogs(dex: DexKind, logs: seq<Log>) returns (pools: seq<PoolState>)
    ensures pools == DecodeAll(dex, logs)
  {
    hide Decode;
    pools := [];
    assert logs[..0] == [];
    for i := 0 to |logs|
      invariant pools == DecodeAll(dex, logs[..i])
    {
      assert logs[..i + 1][..i] == logs[..i];
      var pool := Decode(dex, logs[i]);
      if pool.Some? {
        pools := pools + [pool.value];
      }
    }
    assert logs[..|logs|] == logs;
  }

  ghost predicate SomeFails(w: seq<Window>, fails: Window -> bool) {
    exists i :: 0 <= i < |w| && fails(w[i])
  }

  /** The loop leaves within n rounds: past the range, or at a query that fails. */
  predicate Leaves(start: u64, last: u64, chunk: u64, fails: Window -> bool, n: nat)
    decreases n
  {
    start > last
    || (n > 0 && (fails(Window(start, WindowEnd(start, last, chunk)))
                  || Leaves(NextStart(start, last, chunk), last, chunk, fails, n - 1)))
  }

  lemma OneMoreRound(start: u64, last: u64, chunk: u64, fails: Window -> bool, n: nat)
    requires start <= last
    ensures var w, next := Window(start, WindowEnd(start, last, chunk)), NextStart(start, last, chunk);
      && (Leaves(start, last, chunk, fails, n) <==> n > 0 && (fails(w) || Leaves(next, last, chunk, fails, n - 1)))
      && (n > 0 ==> Scanned(start, last, chunk, n) == [w] + Scanned(next, last, chunk, n - 1))
  {
  }

  lemma NothingScanned(start: u64, last: u64, chunk: u64, n: nat)
    requires start > last
    ensures Scanned(start, last, chunk, n) == []
  {
  }

  lemma NothingFetched(dex: DexKind, chain: int -> seq<Log>)
    ensures DecodeAll(dex, LogsOf(chain, [])) == []
  {
  }

  lemma LogsOfOneMore(chain: int -> seq<Log>, done: seq<Window>, w: Window)
    ensures LogsOf(chain, done + [w]) == LogsOf(chain, done) + LogsIn(chain, w.start, w.end)
  {
    assert (done + [w])[..|done|] == done;
  }

  /**
    `fetch_v3_pools` and `fetch_v2_pools`, wherever the loop ends. The node answers a
    query with the logs of its window in block order, or fails. The scan fails iff one
    of its windows does; otherwise it finds what they hold, one after the other.
   */
  method FetchPools(dex: DexKind, from: u64, last: u64, chunk: u64, chain: int -> seq<Log>, fails: Window -> bool,
                    ghost n: nat)
    returns (r: Result<seq<PoolState>, SeedError>)
    requires Leaves(from, last, chunk, fails, n)
    ensures r.Err? <==> SomeFails(Scanned(from, last, chunk, n), fails)
    ensures r.Ok? ==> r.value == DecodeAll(dex, LogsOf(chain, Scanned(from, last, chunk, n)))
  {
    hide DecodeAll, WindowEnd, NextStart, Leaves, Scanned, LogsIn, LogsOf;
    var pools: seq<PoolState> := [];
    var start: u64 := from;
    ghost var done: seq<Window>, left := [], n;
    NothingFetched(dex, chain);
    assert done + Scanned(start, last, chunk, left) == Scanned(from, last, chunk, n);
    while start <= last
      invariant Leaves(start, last, chunk, fails, left)
      invariant done + Scanned(start, last, chunk, left) == Scanned(from, last, chunk, n)
      invariant pools == DecodeAll(dex, LogsOf(chain, done)) && !SomeFails(done, fails)
      decreases left
    {
      OneMoreRound(start, last, chunk, fails, left);
      var end := WindowEnd(start, last, chunk);
      ghost var w := Window(start, end);
      if fails(Window(start, end)) {
        assert Scanned(from, last, chunk, n)[|done|] == w;
        return Err(GetLogsFailed);
      }
      var more := DecodeLogs(dex, LogsIn(chain, start, end));
      DecodeJoins(dex, LogsOf(chain, done), LogsIn(chain, start, end));
      LogsOfOneMore(chain, done, w);
      pools := pools + more;
      start := NextStart(start, last, chunk);
      ghost var rest := Scanned(start, last, chunk, left - 1);
      assert done + ([w] + rest) == (done + [w]) + rest;
      done, left := done + [w], left - 1;
    }
    NothingScanned(start, last, chunk, left);
    assert done == Scanned(from, last, chunk, n);
    return Ok(pools);
  }

  // ------------------------------------------------------------------------
  // When the scan is one query over the range, and when it ends at all
  // ------------------------------------------------------------------------

  /** A scan that runs straight through ends, and finds what a single query over the whole range would, in order. */
  lemma {:induction false} OneQuery(start: u64, last: u64, chunk: u64, chain: int -> seq<Log>, fails: Window -> bool,
                                    n: nat)
    requires RunsThrough(start, last, chunk) && n > last - start
    ensures Leaves(start, last, chunk, fails, n)
    ensures Scanned(start, last, chunk, n) == Windows(start, last, chunk)
    ensures LogsOf(chain, Scanned(start, last, chunk, n)) == LogsIn(chain, start, last)
    decreases n
  {
    hide RunsThrough, Windows, WindowEnd, NextStart, Leaves, Scanned, LogsOf, LogsIn;
    if start > last {
      NothingLeft(start, last, chunk, chain, fails, n);
    } else {
      RunsOn(start, last, chunk);
      var end := WindowEnd(start, last, chunk);
      OneMoreRound(start, last, chunk, fails, n);
      OneQuery(end + 1, last, chunk, chain, fails, n - 1);
      LogsOfFirst(chain, Window(start, end), Windows(end + 1, last, chunk));
      LogsJoin(chain, start, end, last);
    }
  }

  lemma NothingLeft(start: u64, last: u64, chunk: u64, chain: int -> seq<Log>, fails: Window -> bool, n: nat)
    requires start > last
    ensures RunsThrough(start, last, chunk) && Leaves(start, last, chunk, fails, n)
    ensures Scanned(start, last, chunk, n) == Windows(start, last, chunk) == []
    ensures LogsOf(chain, []) == LogsIn(chain, start, last) == []
  {
  }

  /** A scan that runs straight through goes on at the next block. */
  lemma RunsOn(start: u64, last: u64, chunk: u64)
    requires RunsThrough(start, last, chunk) && start <= last
    ensures var end := WindowEnd(start, last, chunk);
      && start <= end <= last && end + 1 < TWO_64 && NextStart(start, last, chunk) == end + 1
      && RunsThrough(end + 1, last, chunk)
      && Windows(start, last, chunk) == [Window(start, end)] + Windows(end + 1, last, chunk)
  {
  }

  lemma {:induction false} LogsOfFirst(chain: int -> seq<Log>, w: Window, rest: seq<Window>)
    ensures LogsOf(chain, [w] + rest) == LogsIn(chain, w.start, w.end) + LogsOf(chain, rest)
    decreases |rest|
  {
    hide LogsIn;
    if rest == [] {
      assert [w] + rest == [w] && [w][..0] == [];
    } else {
      hide LogsOf;
      var init, x := rest[..|rest| - 1], rest[|rest| - 1];
      LogsOfFirst(chain, w, init);
      LogsOfOneMore(chain, init, x);
      LogsOfOneMore(chain, [w] + init, x);
      assert rest == init + [x] && [w] + rest == ([w] + init) + [x];
    }
  }

  /** Start of the k-th window, were none the last: every sum wraps at 2^64. */
  function WindowStart(start: u64, chunk: u64, k: nat): u64
    decreases k
  {
    if k == 0 then start else WindowStart((start + chunk) % TWO_64, chunk, k - 1)
  }

  lemma {:induction false} WindowStartIs(start: u64, chunk: u64, k: nat, q: int)
    requires q == k * chunk
    ensures q >= 0 && WindowStart(start, chunk, k) == (start + q) % TWO_64
    decreases k
  {
    if k > 0 {
      OneTimesMore(k, chunk);
      WindowStartIs((start + chunk) % TWO_64, chunk, k - 1, q - chunk);
      hide WindowStart;
      WrapsLater(start, chunk, q - chunk, q);
    }
  }

  lemma OneTimesMore(k: int, chunk: nat)
    requires k > 0
    ensures k * chunk == (k - 1) * chunk + chunk && (k - 1) * chunk >= 0
  {
    MulMono(0, k - 1, 0, chunk);
  }

  lemma WrapsLater(start: u64, chunk: u64, p: nat, q: nat)
    requires q == p + chunk
    ensures ((start + chunk) % TWO_64 + p) % TWO_64 == (start + q) % TWO_64
  {
    SumOfWords(start + chunk);
    if start + chunk >= TWO_64 {
      OnceAroundIsNothing(start + chunk - TWO_64 + p);
    }
  }

  lemma SumOfWords(x: nat)
    requires x < 2 * TWO_64
    ensures x % TWO_64 == if x < TWO_64 then x else x - TWO_64
  {
  }

  lemma OnceAroundIsNothing(y: nat)
    ensures (y + TWO_64) % TWO_64 == y % TWO_64
  {
    var q, m := y / TWO_64, y % TWO_64;
    assert y + TWO_64 == (q + 1) * TWO_64 + m;
  }

  /** A window that starts at `at` reaches the last block without wrapping. */
  predicate EndsThere(at: u64, last: u64, chunk: u64) { at <= last < at + chunk && at + chunk <= TWO_64 }

  /** The k-th window, counted modulo 2^64, does. */
  predicate ReachesLast(start: u64, last: u64, chunk: u64, k: nat) {
    EndsThere((start + k * chunk) % TWO_64, last, chunk)
  }

  lemma ReachesLastIs(start: u64, last: u64, chunk: u64, k: nat)
    ensures ReachesLast(start, last, chunk, k) <==> EndsThere(WindowStart(start, chunk, k), last, chunk)
  {
    WindowStartIs(start, chunk, k, k * chunk);
    hide EndsThere, WindowStart;
  }

  predicate NeverFails(w: Window) { false }

  /**
    Exactly when the loop ends although no query fails: some window, counted
    modulo 2^64, reaches the last block, and `end + 1` does not wrap there.
   */
  lemma ScanEndsIff(start: u64, last: u64, chunk: u64)
    ensures (exists n :: Leaves(start, last, chunk, NeverFails, n))
       <==> start > last
            || (last < TWO_64 - 1
                && if chunk == 0 then start == 0 else exists k :: ReachesLast(start, last, chunk, k))
  {
    hide Leaves, EndsThere, ReachesLast;
    if exists n :: Leaves(start, last, chunk, NeverFails, n) {
      var n :| Leaves(start, last, chunk, NeverFails, n);
      if start <= last {
        var k := EndsAtWindow(start, last, chunk, n);
        ReachesLastIs(start, last, chunk, k);
        assert chunk > 0 ==> ReachesLast(start, last, chunk, k);
      }
    }
    if start > last {
      NothingLeft(start, last, chunk, _ => [], NeverFails, 0);
      assert Leaves(start, last, chunk, NeverFails, 0);
    } else if last < TWO_64 - 1 {
      if chunk == 0 && start == 0 {
        OneMoreRound(start, last, chunk, NeverFails, 1);
        LastWindow(start, last, chunk);
        NothingLeft(last + 1, last, chunk, _ => [], NeverFails, 0);
        assert Leaves(start, last, chunk, NeverFails, 1);
      } else if chunk > 0 && exists k :: ReachesLast(start, last, chunk, k) {
        var k :| ReachesLast(start, last, chunk, k);
        ReachesLastIs(start, last, chunk, k);
        WindowEndsScan(start, last, chunk, k);
      }
    }
  }

  /** One round: the last window, or on to the next start. */
  lemma Round(start: u64, last: u64, chunk: u64)
    requires start <= last && chunk > 0
    ensures var next := NextStart(start, last, chunk);
            if last < start + chunk <= TWO_64 then next == (last + 1) % TWO_64
            else next == (start + chunk) % TWO_64 && next <= last
  {
    SumOfWords(start + chunk - 1);
    SumOfWords(start + chunk);
    SumOfWords(WindowEnd(start, last, chunk) + 1);
  }

  lemma {:induction false} EndsAtWindow(start: u64, last: u64, chunk: u64, n: nat) returns (k: nat)
    requires Leaves(start, last, chunk, NeverFails, n) && start <= last
    ensures last < TWO_64 - 1
    ensures if chunk == 0 then start == 0 else EndsThere(WindowStart(start, chunk, k), last, chunk)
    decreases n
  {
    k := 0;
    var next := NextStart(start, last, chunk);
    if next <= last {
      k := EndsAtWindow(next, last, chunk, n - 1);
    }
    if chunk == 0 {
      AdvancesIff(start, last, chunk);
    } else {
      Round(start, last, chunk);
      if !(last < start + chunk <= TWO_64) {
        k := k + 1;
      } else {
        k := 0;
      }
    }
  }

  lemma {:induction false} WindowEndsScan(start: u64, last: u64, chunk: u64, k: nat)
    requires start <= last < TWO_64 - 1 && chunk > 0 && EndsThere(WindowStart(start, chunk, k), last, chunk)
    ensures Leaves(start, last, chunk, NeverFails, k + 1)
    decreases k
  {
    hide WindowEnd;
    Round(start, last, chunk);
    if last < start + chunk <= TWO_64 {
      hide NextStart;
      assert Leaves(last + 1, last, chunk, NeverFails, k);
    } else {
      WindowEndsScan((start + chunk) % TWO_64, last, chunk, k - 1);
      hide NextStart;
    }
  }

  // ------------------------------------------------------------------------
  // Seeding the store
  // ------------------------------------------------------------------------

  function Upserted(pools: Pools, more: seq<PoolState>): Pools {
    if more == [] then pools
    else Upserted(pools, more[..|more| - 1])[more[|more| - 1].address := more[|more| - 1]]
  }

  /** One factory of the configuration; `valid` says whether its address parses. */
  datatype Factory = Factory(valid: bool, dex: DexKind, chain: int -> seq<Log>, fails: Window -> bool)

  /** The pools one factory contributes: none when its address is bad or its scan fails. */
  ghost function Contribution(f: Factory, from: u64, last: u64, chunk: u64, n: nat): seq<PoolState> {
    if !f.valid || SomeFails(Scanned(from, last, chunk, n), f.fails) then []
    else DecodeAll(f.dex, LogsOf(f.chain, Scanned(from, last, chunk, n)))
  }

  ghost function Contributions(factories: seq<Factory>, from: u64, last: u64, chunk: u64, n: nat): seq<PoolState> {
    if factories == [] then []
    else
      var before, f := factories[..|factories| - 1], factories[|factories| - 1];
      Contributions(before, from, last, chunk, n) + Contribution(f, from, last, chunk, n)
  }

  /** Every scan of a usable factory leaves within n rounds. */
  predicate AllLeave(factories: seq<Factory>, from: u64, last: u64, chunk: u64, n: nat) {
    forall i :: 0 <= i < |factories| && factories[i].valid ==> Leaves(from, last, chunk, factories[i].fails, n)
  }

  method UpsertAll(store: PoolStateStore, more: seq<PoolState>)
    requires store.Valid()
    modifies store
    ensures store.Valid() && store.inner == Upserted(old(store.inner), more)
  {
    ghost var before := store.inner;
    assert more[..0] == [];
    for i := 0 to |more|
      invariant store.Valid() && store.inner == Upserted(before, more[..i])
    {
      assert more[..i + 1][..i] == more[..i];
      store.Upsert(more[i]);
    }
    assert more[..|more|] == more;
  }

  lemma {:induction false} UpsertedJoins(pools: Pools, x: seq<PoolState>, y: seq<PoolState>)
    ensures Upserted(pools, x + y) == Upserted(Upserted(pools, x), y)
    decreases |y|
  {
    if y == [] {
      assert x + y == x;
    } else {
      var l := |y| - 1;
      UpsertedJoins(pools, x, y[..l]);
      assert (x + y)[..|x + y| - 1] == x + y[..l] && (x + y)[|x + y| - 1] == y[l];
    }
  }

  /** The factories are scanned one after the other; a bad or failing one is skipped, not fatal. */
  method SeedPoolsFromFactories(store: PoolStateStore, head: Option<u64>, factories: seq<Factory>, from: u64,
                                chunk: u64, ghost n: nat)
    returns (total: nat)
    requires store.Valid() && (head.Some? ==> AllLeave(factories, from, head.value, chunk, n))
    modifies store
    ensures store.Valid()
    ensures head.None? || head.value < from ==> total == 0 && store.inner == old(store.inner)
    ensures head.Some? && from <= head.value ==>
              && total == |Contributions(factories, from, head.value, chunk, n)|
              && store.inner == Upserted(old(store.inner), Contributions(factories, from, head.value, chunk, n))
  {
    hide DecodeAll, SomeFails, LogsOf, Scanned, Upserted, Leaves;
    total := 0;
    if head.None? || head.value < from {
      return;
    }
    var last := head.value;
    ghost var before := store.inner;
    NothingUpserted(before);
    assert factories[..0] == [];
    for i := 0 to |factories|
      invariant store.Valid() && total == |Contributions(factories[..i], from, last, chunk, n)|
      invariant store.inner == Upserted(before, Contributions(factories[..i], from, last, chunk, n))
    {
      var f := factories[i];
      assert factories[..i + 1][..i] == factories[..i];
      UpsertedJoins(before, Contributions(factories[..i], from, last, chunk, n), Contribution(f, from, last, chunk, n));
      NothingUpserted(store.inner);
      if f.valid {
        var found := FetchPools(f.dex, from, last, chunk, f.chain, f.fails, n);
        if found.Ok? {
          UpsertAll(store, found.value);
          total := total + |found.value|;
        }
      }
    }
    assert factories[..|factories|] == factories;
  }

  lemma NothingUpserted(pools: Pools)
    ensures Upserted(pools, []) == pools
  {
  }

  ghost predicate AllStubs(found: seq<PoolState>) {
    forall i :: 0 <= i < |found| ==> found[i].IsStub()
  }

  lemma {:induction false} SeededAreStubs(pools: Pools, more: seq<PoolState>)
    requires (forall a :: a in pools ==> pools[a].IsStub()) && AllStubs(more)
    ensures forall a :: a in Upserted(pools, more) ==> Upserted(pools, more)[a].IsStub()
  {
    if more != [] {
      SeededAreStubs(pools, more[..|more| - 1]);
    }
  }

  lemma {:induction false} DecodedAreStubs(dex: DexKind, logs: seq<Log>)
    ensures AllStubs(DecodeAll(dex, logs))
  {
    if logs != [] {
      DecodedAreStubs(dex, logs[..|logs| - 1]);
    }
  }

  lemma {:induction false} ContributionsAreStubs(factories: seq<Factory>, from: u64, last: u64, chunk: u64, n: nat)
    ensures AllStubs(Contributions(factories, from, last, chunk, n))
  {
    hide DecodeAll, LogsOf, SomeFails, Scanned;
    if factories != [] {
      var before, f := factories[..|factories| - 1], factories[|factories| - 1];
      ContributionsAreStubs(before, from, last, chunk, n);
      DecodedAreStubs(f.dex, LogsOf(f.chain, Scanned(from, last, chunk, n)));
    }
  }

  lemma {:induction false} UpsertedIsKeyed(pools: Pools, more: seq<PoolState>)
    requires Keyed(pools)
    ensures Keyed(Upserted(pools, more))
  {
    if more != [] {
      UpsertedIsKeyed(pools, more[..|more| - 1]);
    }
  }

  /** Start-up from an empty store leaves a state in which a run of discovery and reconciliation begins. */
  lemma SeedingStartsARun(factories: seq<Factory>, from: u64, last: u64, chunk: u64, n: nat, permits: nat)
    returns (s: PoolRun.State)
    ensures s.store == Upserted(map[], Contributions(factories, from, last, chunk, n))
    ensures PoolRun.Init(s, permits)
  {
    hide Contributions, Upserted, AllStubs;
    var found := Contributions(factories, from, last, chunk, n);
    ContributionsAreStubs(factories, from, last, chunk, n);
    SeededAreStubs(map[], found);
    UpsertedIsKeyed(map[], found);
    s := PoolRun.State(Upserted(map[], found), {}, {}, {}, multiset{}, 0, {}, map[], map[], permits);
  }

  // ------------------------------------------------------------------------
  // Which pools are seeded
  // ------------------------------------------------------------------------

  lemma {:induction false} UpsertedIff(pools: Pools, more: seq<PoolState>, a: Address)
    ensures a in Upserted(pools, more) <==> a in pools || exists k :: 0 <= k < |more| && more[k].address == a
  {
    if more != [] {
      var n := |more| - 1;
      UpsertedIff(pools, more[..n], a);
      assert forall k :: 0 <= k < n ==> more[..n][k] == more[k];
      if k :| 0 <= k < n && more[..n][k].address == a {
        assert more[k].address == a;
      }
      if k :| 0 <= k < |more| && more[k].address == a {
        assert k < n ==> more[..n][k].address == a;
      }
    }
  }

  lemma {:induction false} LogsInIff(chain: int -> seq<Log>, start: int, last: int, log: Log)
    ensures log in LogsIn(chain, start, last) <==> exists b :: start <= b <= last && log in chain(b)
    decreases last - start + 1
  {
    if start <= last {
      LogsInIff(chain, start, last - 1, log);
    }
  }

  lemma {:induction false} DecodeAllIff(dex: DexKind, logs: seq<Log>, pool: PoolState)
    ensures pool in DecodeAll(dex, logs) <==> exists log :: log in logs && Decode(dex, log) == Some(pool)
  {
    hide Decode;
    if logs != [] {
      var n := |logs| - 1;
      DecodeAllIff(dex, logs[..n], pool);
      assert forall log :: log in logs <==> log in logs[..n] || log == logs[n];
    }
  }

  lemma {:induction false} ContributionsIff(factories: seq<Factory>, from: u64, last: u64, chunk: u64, n: nat,
                                            pool: PoolState)
    ensures pool in Contributions(factories, from, last, chunk, n)
       <==> exists f :: f in factories && pool in Contribution(f, from, last, chunk, n)
  {
    hide Contribution;
    if factories != [] {
      var before, f := factories[..|factories| - 1], factories[|factories| - 1];
      ContributionsIff(before, from, last, chunk, n, pool);
      assert forall g :: g in factories <==> g in before || g == f;
    }
  }

  /** Some block of the range holds a log of a usable factory that decodes to a pool at this address. */
  ghost predicate Announced(factories: seq<Factory>, from: u64, last: u64, chunk: u64, a: Address) {
    exists f, b, log ::
      && f in factories && Scans(f, from, last, chunk) && from <= b <= last && log in f.chain(b)
      && Decode(f.dex, log).Some? && Decode(f.dex, log).value.address == a
  }

  /** The factory's address parses and none of its queries fails. */
  ghost predicate Scans(f: Factory, from: u64, last: u64, chunk: u64) {
    f.valid && (RunsThrough(from, last, chunk) ==> !SomeFails(Windows(from, last, chunk), f.fails))
  }

  /** Exactly the announced pools are stored, when the scan runs straight through. */
  lemma SeededIff(factories: seq<Factory>, from: u64, last: u64, chunk: u64, n: nat, a: Address)
    requires RunsThrough(from, last, chunk) && n > last - from
    ensures a in Upserted(map[], Contributions(factories, from, last, chunk, n))
       <==> Announced(factories, from, last, chunk, a)
  {
    hide Decode, Upserted, Contributions, Contribution;
    var found := Contributions(factories, from, last, chunk, n);
    UpsertedIff(map[], found, a);
    if a in Upserted(map[], found) {
      var k :| 0 <= k < |found| && found[k].address == a;
      ContributionsIff(factories, from, last, chunk, n, found[k]);
      var f :| f in factories && found[k] in Contribution(f, from, last, chunk, n);
      ContributedIff(f, from, last, chunk, n, found[k]);
    }
    if f, b, log :|
      && f in factories && Scans(f, from, last, chunk) && from <= b <= last && log in f.chain(b)
      && Decode(f.dex, log).Some? && Decode(f.dex, log).value.address == a {
      var pool := Decode(f.dex, log).value;
      ContributedIff(f, from, last, chunk, n, pool);
      ContributionsIff(factories, from, last, chunk, n, pool);
      var k :| 0 <= k < |found| && found[k] == pool;
    }
  }

  lemma ContributedIff(f: Factory, from: u64, last: u64, chunk: u64, n: nat, pool: PoolState)
    requires RunsThrough(from, last, chunk) && n > last - from
    ensures pool in Contribution(f, from, last, chunk, n)
       <==> Scans(f, from, last, chunk)
            && exists b, log :: from <= b <= last && log in f.chain(b) && Decode(f.dex, log) == Some(pool)
  {
    hide Decode, DecodeAll, LogsIn, LogsOf, Scanned, Windows, RunsThrough, SomeFails;
    OneQuery(from, last, chunk, f.chain, f.fails, n);
    DecodeAllIff(f.dex, LogsIn(f.chain, from, last), pool);
    forall log ensures log in LogsIn(f.chain, from, last) <==> exists b :: from <= b <= last && log in f.chain(b) {
      LogsInIff(f.chain, from, last, log);
    }
  }
}
