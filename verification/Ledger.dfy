/**
  The profit-and-loss ledger (crates/common/src/pnl.rs). USD amounts are exact
  reals here; wei totals live in decimal strings, as in the source.
 */
module Ledger {
  import opened Wrappers
  import opened Words
  import opened Types
  import opened Decimal
  import opened Submitter

  datatype PnlState = PnlState(
    totalGasSpentWei: string,
    totalGasSpentUsd: real,
    totalProfitWei: string,
    totalProfitUsd: real,
    netPnlUsd: real,
    successfulArbs: u64,
    revertedArbs: u64,
    totalSubmissions: u64,
    budgetRemainingUsd: real,
    sessionStartMs: u64,
    lastUpdatedMs: u64)

  /** One call of `record_submission`. */
  datatype Entry = Entry(result: SubmissionResult, ethPriceUsd: real, nowMs: u64)

  const WEI_PER_ETH: real := 1000000000000000000.0

  const USD_SLACK: real := 0.000001

  function GasWei(e: Entry): u256 { AddWrap(e.result.l2GasCostWei, e.result.l1GasCostWei) }

  function Usd(wei: nat, price: real): real { wei as real / WEI_PER_ETH * price }

  function GasUsd(e: Entry): real { Usd(GasWei(e), e.ethPriceUsd) }

  function PnlUsd(e: Entry): real {
    var usd := Usd(Magnitude(e.result.netPnlWei), e.ethPriceUsd);
    if e.result.netPnlWei < 0 then 0.0 - usd else usd
  }

  lemma PnlUsdIs(e: Entry)
    ensures PnlUsd(e) == e.result.netPnlWei as real / WEI_PER_ETH * e.ethPriceUsd
  {
    var pnl := e.result.netPnlWei;
    if pnl < 0 {
      var eth := pnl as real / WEI_PER_ETH;
      assert Magnitude(pnl) as real / WEI_PER_ETH == -eth;
      assert -(eth * e.ethPriceUsd) == -eth * e.ethPriceUsd;
    }
  }

  /** The conversions to u128 run before the lock is taken, so a panic leaves the state alone. */
  predicate Panics(e: Entry) { !FitsU128(GasWei(e)) || !FitsU128(Magnitude(e.result.netPnlWei)) }

  function OrZero(parsed: Option<int>): int { if parsed.Some? then parsed.value else 0 }

  function Increment(x: u64): u64 { (x + 1) % TWO_64 }

  /** The mutex section of `record_submission`. */
  function Recorded(st: PnlState, e: Entry, budgetUsd: real): PnlState {
    var prevGas: u256 := OrZero(Parse(st.totalGasSpentWei));
    var prevPnl: i256 := OrZero(ParseSigned(st.totalProfitWei));
    var gasUsd := st.totalGasSpentUsd + GasUsd(e);
    var profitUsd := st.totalProfitUsd + PnlUsd(e);
    PnlState(
      Print(AddWrap(prevGas, GasWei(e))),
      gasUsd,
      PrintSigned(SignedWrap(prevPnl + e.result.netPnlWei)),
      profitUsd,
      profitUsd,
      if e.result.success then Increment(st.successfulArbs) else st.successfulArbs,
      if e.result.success then st.revertedArbs else Increment(st.revertedArbs),
      Increment(st.totalSubmissions),
      budgetUsd - gasUsd,
      st.sessionStartMs,
      e.nowMs)
  }

  function Step(st: PnlState, e: Entry, budgetUsd: real): PnlState {
    if Panics(e) then st else Recorded(st, e, budgetUsd)
  }

  /** The state `with_thresholds` starts from. */
  function Opened(saved: Option<PnlState>, budgetUsd: real, nowMs: u64): PnlState {
    if saved.Some? then saved.value
    else PnlState(Print(0), 0.0, PrintSigned(0), 0.0, 0.0, 0, 0, 0, budgetUsd, nowMs, nowMs)
  }

  /** A series of records; the mutex serialises concurrent ones into some such series. */
  function Replay(st: PnlState, log: seq<Entry>, budgetUsd: real): PnlState {
    if log == [] then st
    else
      var last := |log| - 1;
      Step(Replay(st, log[..last], budgetUsd), log[last], budgetUsd)
  }

  predicate Exhausted(st: PnlState, killAtUsd: real) { st.budgetRemainingUsd <= killAtUsd + USD_SLACK }

  predicate Low(st: PnlState, warnAtUsd: real) { st.budgetRemainingUsd <= warnAtUsd + USD_SLACK }

  class PnlTracker {
    var state: PnlState
    const initialBudgetUsd: real
    const warnAtUsd: real
    const killAtUsd: real

    constructor WithThresholds(saved: Option<PnlState>, budgetUsd: real, warnAtUsd: real, killAtUsd: real, nowMs: u64)
      ensures state == Opened(saved, budgetUsd, nowMs) && initialBudgetUsd == budgetUsd
      ensures this.warnAtUsd == warnAtUsd && this.killAtUsd == killAtUsd
      ensures saved.None? ==> state.sessionStartMs == state.lastUpdatedMs == nowMs
    {
      if saved.Some? {
        state := saved.value;
      } else {
        state := PnlState(Print(0), 0.0, PrintSigned(0), 0.0, 0.0, 0, 0, 0, budgetUsd, nowMs, nowMs);
      }
      initialBudgetUsd := budgetUsd;
      this.warnAtUsd := warnAtUsd;
      this.killAtUsd := killAtUsd;
    }

    method RecordSubmission(e: Entry) returns (panicked: bool)
      modifies this`state
      ensures state == Step(old(state), e, initialBudgetUsd)
      ensures panicked == Panics(e)
    {
      hide Print, PrintSigned, Parse, ParseSigned, SignedWrap, AddWrap;
      var gasCostWei := AddWrap(e.result.l2GasCostWei, e.result.l1GasCostWei);
      if !FitsU128(gasCostWei) || !FitsU128(Magnitude(e.result.netPnlWei)) {
        return true;
      }
      var gasCostUsd := gasCostWei as real / WEI_PER_ETH * e.ethPriceUsd;
      var netPnlUsdDelta := e.result.netPnlWei as real / WEI_PER_ETH * e.ethPriceUsd;
      PnlUsdIs(e);

      var prevGas: u256 := OrZero(Parse(state.totalGasSpentWei));
      state := state.(totalGasSpentWei := Print(AddWrap(prevGas, gasCostWei)),
                      totalGasSpentUsd := state.totalGasSpentUsd + gasCostUsd);
      var prevPnl: i256 := OrZero(ParseSigned(state.totalProfitWei));
      state := state.(totalProfitWei := PrintSigned(SignedWrap(prevPnl + e.result.netPnlWei)),
                      totalProfitUsd := state.totalProfitUsd + netPnlUsdDelta,
                      totalSubmissions := Increment(state.totalSubmissions));
      if e.result.success {
        state := state.(successfulArbs := Increment(state.successfulArbs));
      } else {
        state := state.(revertedArbs := Increment(state.revertedArbs));
      }
      state := state.(netPnlUsd := state.totalProfitUsd,
                      budgetRemainingUsd := initialBudgetUsd - state.totalGasSpentUsd,
                      lastUpdatedMs := e.nowMs);
      return false;
    }

    method IsBudgetExhausted() returns (b: bool)
      ensures b == Exhausted(state, killAtUsd)
    {
      return state.budgetRemainingUsd <= killAtUsd + 0.000001;
    }

    method IsBudgetLow() returns (b: bool)
      ensures b == Low(state, warnAtUsd)
    {
      return state.budgetRemainingUsd <= warnAtUsd + 0.000001;
    }
  }

  // ------------------------------------------------------------------------
  // States that occur
  // ------------------------------------------------------------------------

  /** Both strings are what printing their own value produces, and the derived fields agree. */
  predicate WellKept(st: PnlState, budgetUsd: real) {
    && Parse(st.totalGasSpentWei).Some? && Print(Gas(st)) == st.totalGasSpentWei
    && ParseSigned(st.totalProfitWei).Some? && PrintSigned(Profit(st)) == st.totalProfitWei
    && st.netPnlUsd == st.totalProfitUsd
    && st.budgetRemainingUsd == budgetUsd - st.totalGasSpentUsd
  }

  function Gas(st: PnlState): u256 { OrZero(Parse(st.totalGasSpentWei)) }

  function Profit(st: PnlState): i256 { OrZero(ParseSigned(st.totalProfitWei)) }

  /** What a series of records adds up to, before any wrapping. */
  datatype Delta = Delta(gas: int, pnl: int, gasUsd: real, pnlUsd: real, ok: nat, rev: nat)

  function Plus(x: Delta, y: Delta): Delta {
    Delta(x.gas + y.gas, x.pnl + y.pnl, x.gasUsd + y.gasUsd, x.pnlUsd + y.pnlUsd, x.ok + y.ok, x.rev + y.rev)
  }

  const NOTHING: Delta := Delta(0, 0, 0.0, 0.0, 0, 0)

  function Effect(e: Entry): Delta {
    if Panics(e) then NOTHING
    else Delta(GasWei(e), e.result.netPnlWei, GasUsd(e), PnlUsd(e),
               if e.result.success then 1 else 0, if e.result.success then 0 else 1)
  }

  function Total(log: seq<Entry>): Delta {
    if log == [] then NOTHING else Plus(Total(log[..|log| - 1]), Effect(log[|log| - 1]))
  }

  /** The state that a total turns `st` into. */
  function Posted(st: PnlState, d: Delta, budgetUsd: real, ms: u64): PnlState {
    PnlState(
      Print((Gas(st) + d.gas) % TWO_256),
      st.totalGasSpentUsd + d.gasUsd,
      PrintSigned(SignedWrap(Profit(st) + d.pnl)),
      st.totalProfitUsd + d.pnlUsd,
      st.totalProfitUsd + d.pnlUsd,
      (st.successfulArbs + d.ok) % TWO_64,
      (st.revertedArbs + d.rev) % TWO_64,
      (st.totalSubmissions + d.ok + d.rev) % TWO_64,
      budgetUsd - (st.totalGasSpentUsd + d.gasUsd),
      st.sessionStartMs,
      ms)
  }

  lemma OpenedIsWellKept(budgetUsd: real, nowMs: u64)
    ensures WellKept(Opened(None, budgetUsd, nowMs), budgetUsd)
    ensures Gas(Opened(None, budgetUsd, nowMs)) == 0 && Profit(Opened(None, budgetUsd, nowMs)) == 0
  {
    ParsePrint(0);
    ParsePrintSigned(0);
  }

  /** One record posts its effect and leaves a well-kept state, so `unwrap_or(ZERO)` never fires. */
  lemma StepPosts(st: PnlState, e: Entry, budgetUsd: real)
    requires WellKept(st, budgetUsd)
    ensures Step(st, e, budgetUsd) == Posted(st, Effect(e), budgetUsd, Step(st, e, budgetUsd).lastUpdatedMs)
    ensures WellKept(Step(st, e, budgetUsd), budgetUsd)
    ensures !Panics(e) ==> Step(st, e, budgetUsd).lastUpdatedMs == e.nowMs
  {
    hide WellKept, Posted, Recorded;
    if Panics(e) {
      NothingPosted(st, budgetUsd);
    } else {
      RecordedPosts(st, e, budgetUsd);
    }
  }

  lemma RecordedPosts(st: PnlState, e: Entry, budgetUsd: real)
    requires WellKept(st, budgetUsd) && !Panics(e)
    ensures Recorded(st, e, budgetUsd) == Posted(st, Effect(e), budgetUsd, e.nowMs)
    ensures Recorded(st, e, budgetUsd).lastUpdatedMs == e.nowMs
    ensures WellKept(Recorded(st, e, budgetUsd), budgetUsd)
  {
    hide Print, PrintSigned, Parse, ParseSigned, SignedWrap, GasUsd, PnlUsd, GasWei;
    ParsePrint(AddWrap(Gas(st), GasWei(e)));
    ParsePrintSigned(SignedWrap(Profit(st) + e.result.netPnlWei));
  }

  lemma NothingPosted(st: PnlState, budgetUsd: real)
    requires WellKept(st, budgetUsd)
    ensures Posted(st, NOTHING, budgetUsd, st.lastUpdatedMs) == st
  {
    hide Print, PrintSigned, Parse, ParseSigned, SignedWrap;
    SignedWrapIs(Profit(st));
  }

  lemma PostedIsWellKept(st: PnlState, d: Delta, budgetUsd: real, ms: u64)
    ensures WellKept(Posted(st, d, budgetUsd, ms), budgetUsd)
    ensures Gas(Posted(st, d, budgetUsd, ms)) == (Gas(st) + d.gas) % TWO_256
    ensures Profit(Posted(st, d, budgetUsd, ms)) == SignedWrap(Profit(st) + d.pnl)
  {
    hide Print, PrintSigned, Parse, ParseSigned, SignedWrap;
    ParsePrint((Gas(st) + d.gas) % TWO_256);
    ParsePrintSigned(SignedWrap(Profit(st) + d.pnl));
  }

  lemma PostedTwice(st: PnlState, x: Delta, y: Delta, budgetUsd: real, ms: u64, ms': u64)
    ensures Posted(Posted(st, x, budgetUsd, ms), y, budgetUsd, ms') == Posted(st, Plus(x, y), budgetUsd, ms')
  {
    hide Print, PrintSigned, Gas, Profit, SignedWrap;
    PostedIsWellKept(st, x, budgetUsd, ms);
    SignedWrapAdds(Profit(st) + x.pnl, y.pnl);
    WrapAdds(Gas(st) + x.gas, y.gas);
    CounterWrapAdds(st.successfulArbs + x.ok, y.ok);
    CounterWrapAdds(st.revertedArbs + x.rev, y.rev);
    CounterWrapAdds(st.totalSubmissions + x.ok + x.rev, y.ok + y.rev);
  }

  lemma WrapAdds(x: int, y: int)
    ensures (x % TWO_256 + y) % TWO_256 == (x + y) % TWO_256
  {
  }

  lemma CounterWrapAdds(x: int, y: int)
    ensures (x % TWO_64 + y) % TWO_64 == (x + y) % TWO_64
  {
  }

  lemma SignedWrapAdds(x: int, y: int)
    ensures SignedWrap(SignedWrap(x) + y) == SignedWrap(x + y)
  {
    assert (SignedWrap(x) + y) % TWO_256 == (x + y) % TWO_256;
  }

  /** After any series of records the whole state is the posting of its total. */
  lemma {:induction false} ReplayPosts(st: PnlState, log: seq<Entry>, budgetUsd: real)
    requires WellKept(st, budgetUsd)
    ensures WellKept(Replay(st, log, budgetUsd), budgetUsd)
    ensures Replay(st, log, budgetUsd)
         == Posted(st, Total(log), budgetUsd, Replay(st, log, budgetUsd).lastUpdatedMs)
  {
    hide WellKept, Posted, Step, Effect, Plus;
    if log == [] {
      NothingPosted(st, budgetUsd);
    } else {
      var before, last := log[..|log| - 1], log[|log| - 1];
      ReplayPosts(st, before, budgetUsd);
      var mid := Replay(st, before, budgetUsd);
      StepPosts(mid, last, budgetUsd);
      PostedTwice(st, Total(before), Effect(last), budgetUsd, mid.lastUpdatedMs,
                  Step(mid, last, budgetUsd).lastUpdatedMs);
    }
  }

  /** Two postings of one total differ in their time stamp only. */
  lemma PostedTime(st: PnlState, d: Delta, budgetUsd: real, ms: u64, ms': u64)
    ensures Posted(st, d, budgetUsd, ms) == Posted(st, d, budgetUsd, ms').(lastUpdatedMs := ms)
  {
    hide Print, PrintSigned, Gas, Profit, SignedWrap;
  }

  /** The mutex makes totals independent of the order in which tasks reach it. */
  lemma OrderIsIrrelevant(st: PnlState, xs: seq<Entry>, ys: seq<Entry>, budgetUsd: real)
    requires WellKept(st, budgetUsd) && multiset(xs) == multiset(ys)
    ensures Replay(st, xs, budgetUsd)
         == Replay(st, ys, budgetUsd).(lastUpdatedMs := Replay(st, xs, budgetUsd).lastUpdatedMs)
  {
    hide *;
    ReplayPosts(st, xs, budgetUsd);
    ReplayPosts(st, ys, budgetUsd);
    TotalOfPermutation(xs, ys);
    PostedTime(st, Total(xs), budgetUsd, Replay(st, xs, budgetUsd).lastUpdatedMs,
               Replay(st, ys, budgetUsd).lastUpdatedMs);
  }

  lemma {:induction false} TotalOfPermutation(xs: seq<Entry>, ys: seq<Entry>)
    requires multiset(xs) == multiset(ys)
    ensures Total(xs) == Total(ys)
    decreases |xs|
  {
    hide Effect;
    if xs == [] {
      assert |multiset(ys)| == 0;
    } else {
      var l := |xs| - 1;
      var x := xs[l];
      assert xs == xs[..l] + [x];
      assert x in multiset(ys);
      var k :| 0 <= k < |ys| && ys[k] == x;
      assert ys == ys[..k] + [x] + ys[k + 1..];
      assert multiset(xs[..l]) == multiset(xs) - multiset{x};
      assert multiset(ys[..k] + ys[k + 1..]) == multiset(ys) - multiset{x};
      TotalOfPermutation(xs[..l], ys[..k] + ys[k + 1..]);
      TotalPullOut(ys[..k], x, ys[k + 1..]);
    }
  }

  lemma {:induction false} TotalPullOut(xs: seq<Entry>, x: Entry, ys: seq<Entry>)
    ensures Total(xs + [x] + ys) == Plus(Total(xs + ys), Effect(x))
    decreases |ys|
  {
    hide Effect;
    if ys == [] {
      assert xs + [x] + ys == xs + [x] && xs + ys == xs;
      assert (xs + [x])[..|xs|] == xs;
    } else {
      var l := |ys| - 1;
      TotalPullOut(xs, x, ys[..l]);
      var whole, rest := xs + [x] + ys, xs + ys;
      assert whole[..|whole| - 1] == xs + [x] + ys[..l] && whole[|whole| - 1] == ys[l];
      assert rest[..|rest| - 1] == xs + ys[..l] && rest[|rest| - 1] == ys[l];
    }
  }

  // ------------------------------------------------------------------------
  // What a series of records books, told from the results alone
  // ------------------------------------------------------------------------

  /** The gas of a result; the sum wraps on U256. */
  function Bills(e: Entry): nat { (e.result.l2GasCostWei + e.result.l1GasCostWei) % TWO_256 }

  /** Neither the gas nor the profit leaves 128 bits. */
  predicate Counts(e: Entry) { Bills(e) < TWO_128 && -TWO_128 < e.result.netPnlWei < TWO_128 }

  function GasBooked(log: seq<Entry>): nat {
    if log == [] then 0
    else GasBooked(log[..|log| - 1]) + if Counts(log[|log| - 1]) then Bills(log[|log| - 1]) else 0
  }

  function ProfitBooked(log: seq<Entry>): int {
    if log == [] then 0
    else ProfitBooked(log[..|log| - 1]) + if Counts(log[|log| - 1]) then log[|log| - 1].result.netPnlWei else 0
  }

  /** How many of the records that count were successes, or were not. */
  function HowMany(log: seq<Entry>, success: bool): nat {
    if log == [] then 0
    else
      var last := log[|log| - 1];
      HowMany(log[..|log| - 1], success) + if Counts(last) && last.result.success == success then 1 else 0
  }

  ghost predicate AllAtPrice(log: seq<Entry>, price: real) {
    forall i :: 0 <= i < |log| ==> log[i].ethPriceUsd == price
  }

  lemma EffectIs(e: Entry)
    ensures Panics(e) <==> !Counts(e)
    ensures var d, wei, pnl := Effect(e), Bills(e), e.result.netPnlWei;
      if !Counts(e) then d == NOTHING
      else
        && d.gas == wei && d.pnl == pnl
        && d.gasUsd == wei as real / 1000000000000000000.0 * e.ethPriceUsd
        && d.pnlUsd == pnl as real / 1000000000000000000.0 * e.ethPriceUsd
        && d.ok == (if e.result.success then 1 else 0) && d.rev == 1 - d.ok
  {
    PnlUsdIs(e);
    hide PnlUsd;
  }

  /** Totals are the sums of what was booked; at one price the USD totals are those sums in ether, times the price. */
  lemma {:induction false} TotalIs(log: seq<Entry>)
    ensures Total(log).gas == GasBooked(log) && Total(log).pnl == ProfitBooked(log)
    ensures Total(log).ok == HowMany(log, true) && Total(log).rev == HowMany(log, false)
  {
    hide Effect, Bills, Counts;
    if log != [] {
      TotalIs(log[..|log| - 1]);
      EffectIs(log[|log| - 1]);
    }
  }

  /** The value of some wei, with the constant written out. */
  function Worth(wei: int, price: real): real { wei as real / 1000000000000000000.0 * price }

  lemma {:induction false} TotalUsdIs(log: seq<Entry>, price: real)
    requires AllAtPrice(log, price)
    ensures Total(log).gasUsd == Worth(GasBooked(log), price)
    ensures Total(log).pnlUsd == Worth(ProfitBooked(log), price)
  {
    hide Effect, Bills, Counts, Worth;
    WorthAdds(0, 0, price);
    if log != [] {
      var before, last := log[..|log| - 1], log[|log| - 1];
      TotalUsdIs(before, price);
      EffectWorth(last);
      WorthAdds(GasBooked(before), Bills(last), price);
      WorthAdds(ProfitBooked(before), last.result.netPnlWei, price);
    }
  }

  lemma EffectWorth(e: Entry)
    ensures var d := Effect(e);
      if !Counts(e) then d == NOTHING
      else d.gasUsd == Worth(Bills(e), e.ethPriceUsd) && d.pnlUsd == Worth(e.result.netPnlWei, e.ethPriceUsd)
  {
    EffectIs(e);
    hide Effect;
  }

  lemma WorthAdds(x: int, y: int, price: real)
    ensures Worth(x + y, price) == Worth(x, price) + Worth(y, price)
    ensures Worth(0, price) == 0.0
  {
    var eth, eth' := x as real / 1000000000000000000.0, y as real / 1000000000000000000.0;
    assert (x + y) as real / 1000000000000000000.0 == eth + eth';
    assert (eth + eth') * price == eth * price + eth' * price;
  }

  /**
    Over any run the wei totals and the counters move by what the records say, the
    results that do not fit 128 bits aside. At one price the USD totals move by the
    same sums, and the budget falls by the gas.
   */
  lemma RunBooks(st: PnlState, log: seq<Entry>, budgetUsd: real)
    requires WellKept(st, budgetUsd)
    ensures var end := Replay(st, log, budgetUsd);
      && Gas(end) == (Gas(st) + GasBooked(log)) % TWO_256
      && Profit(end) == SignedWrap(Profit(st) + ProfitBooked(log))
      && end.successfulArbs == (st.successfulArbs + HowMany(log, true)) % TWO_64
      && end.revertedArbs == (st.revertedArbs + HowMany(log, false)) % TWO_64
      && end.totalSubmissions == (st.totalSubmissions + HowMany(log, true) + HowMany(log, false)) % TWO_64
  {
    hide WellKept, Replay, Total, GasBooked, ProfitBooked, HowMany, Gas, Profit, SignedWrap, Print, PrintSigned;
    TotalIs(log);
    PostedTotals(st, log, budgetUsd);
  }

  lemma UsdAgreesWithWei(st: PnlState, log: seq<Entry>, price: real, budgetUsd: real)
    requires WellKept(st, budgetUsd) && AllAtPrice(log, price)
    ensures var end := Replay(st, log, budgetUsd);
      && end.totalGasSpentUsd - st.totalGasSpentUsd == GasBooked(log) as real / 1000000000000000000.0 * price
      && st.budgetRemainingUsd - end.budgetRemainingUsd == GasBooked(log) as real / 1000000000000000000.0 * price
      && end.totalProfitUsd - st.totalProfitUsd == ProfitBooked(log) as real / 1000000000000000000.0 * price
      && end.netPnlUsd == end.totalProfitUsd
  {
    hide Replay, Total, GasBooked, ProfitBooked, Gas, Profit, SignedWrap, Print, PrintSigned, Parse, ParseSigned;
    TotalUsdIs(log, price);
    PostedTotals(st, log, budgetUsd);
  }

  /** Starting from nothing, the budget is exhausted, or low, exactly when the gas is worth it down to the threshold. */
  lemma ExhaustedIff(log: seq<Entry>, price: real, budgetUsd: real, killAtUsd: real, warnAtUsd: real, startMs: u64)
    requires AllAtPrice(log, price)
    ensures Exhausted(Replay(Opened(None, budgetUsd, startMs), log, budgetUsd), killAtUsd)
       <==> GasBooked(log) as real / 1000000000000000000.0 * price >= budgetUsd - killAtUsd - 0.000001
    ensures Low(Replay(Opened(None, budgetUsd, startMs), log, budgetUsd), warnAtUsd)
       <==> GasBooked(log) as real / 1000000000000000000.0 * price >= budgetUsd - warnAtUsd - 0.000001
  {
    hide Replay, GasBooked, WellKept, Print, PrintSigned, AllAtPrice;
    OpenedIsWellKept(budgetUsd, startMs);
    UsdAgreesWithWei(Opened(None, budgetUsd, startMs), log, price, budgetUsd);
  }

  // ------------------------------------------------------------------------
  // Restart
  // ------------------------------------------------------------------------

  lemma {:induction false} ReplaySplits(st: PnlState, xs: seq<Entry>, ys: seq<Entry>, budgetUsd: real)
    ensures Replay(Replay(st, xs, budgetUsd), ys, budgetUsd) == Replay(st, xs + ys, budgetUsd)
    decreases |ys|
  {
    hide Step;
    if ys == [] {
      assert xs + ys == xs;
    } else {
      var l := |ys| - 1;
      ReplaySplits(st, xs, ys[..l], budgetUsd);
      assert (xs + ys)[..|xs + ys| - 1] == xs + ys[..l] && (xs + ys)[|xs + ys| - 1] == ys[l];
    }
  }

  /** Saving, restarting with the same budget and going on is the same as never stopping. */
  lemma RestartIsTransparent(xs: seq<Entry>, ys: seq<Entry>, budgetUsd: real, startMs: u64, restartMs: u64)
    ensures var first := Opened(None, budgetUsd, startMs);
            var saved := Replay(first, xs, budgetUsd);
            && WellKept(saved, budgetUsd)
            && Replay(Opened(Some(saved), budgetUsd, restartMs), ys, budgetUsd) == Replay(first, xs + ys, budgetUsd)
  {
    hide *;
    var first := Opened(None, budgetUsd, startMs);
    OpenedIsWellKept(budgetUsd, startMs);
    ReplayPosts(first, xs, budgetUsd);
    ReopenedIsSaved(Replay(first, xs, budgetUsd), budgetUsd, restartMs);
    ReplaySplits(first, xs, ys, budgetUsd);
  }

  /** So the two sessions' totals add up. */
  lemma SessionsAddUp(xs: seq<Entry>, ys: seq<Entry>, budgetUsd: real, startMs: u64)
    ensures var end := Replay(Opened(None, budgetUsd, startMs), xs + ys, budgetUsd);
            && Gas(end) == (Total(xs).gas + Total(ys).gas) % TWO_256
            && Profit(end) == SignedWrap(Total(xs).pnl + Total(ys).pnl)
  {
    hide Opened, WellKept, Replay, Total, Posted, Gas, Profit, SignedWrap;
    OpenedIsWellKept(budgetUsd, startMs);
    PostedTotals(Opened(None, budgetUsd, startMs), xs + ys, budgetUsd);
    TotalSplits(xs, ys);
  }

  lemma ReopenedIsSaved(saved: PnlState, budgetUsd: real, nowMs: u64)
    ensures Opened(Some(saved), budgetUsd, nowMs) == saved
  {
  }

  lemma {:induction false} TotalSplits(xs: seq<Entry>, ys: seq<Entry>)
    ensures Total(xs + ys) == Plus(Total(xs), Total(ys))
    decreases |ys|
  {
    hide *;
    if ys == [] {
      assert xs + ys == xs;
      TotalOfNone(ys);
      PlusNothing(Total(xs));
    } else {
      var before, last := ys[..|ys| - 1], ys[|ys| - 1];
      assert ys == before + [last];
      TotalSplits(xs, before);
      OneMoreSplits(xs, before, last);
    }
  }

  lemma OneMoreSplits(xs: seq<Entry>, before: seq<Entry>, last: Entry)
    requires Total(xs + before) == Plus(Total(xs), Total(before))
    ensures Total(xs + (before + [last])) == Plus(Total(xs), Total(before + [last]))
  {
    hide *;
    assert xs + (before + [last]) == (xs + before) + [last];
    TotalSnoc(xs + before, last);
    TotalSnoc(before, last);
    PlusAssociates(Total(xs), Total(before), Effect(last));
  }

  lemma TotalOfNone(log: seq<Entry>)
    requires log == []
    ensures Total(log) == NOTHING
  {
  }

  lemma PlusNothing(x: Delta)
    ensures Plus(x, NOTHING) == x
  {
  }

  lemma TotalSnoc(log: seq<Entry>, e: Entry)
    ensures Total(log + [e]) == Plus(Total(log), Effect(e))
  {
    hide Effect, Plus;
    assert (log + [e])[..|log|] == log;
  }

  lemma PlusAssociates(x: Delta, y: Delta, z: Delta)
    ensures Plus(Plus(x, y), z) == Plus(x, Plus(y, z))
  {
  }

  /**
    A restart with another budget keeps the old remaining budget until the first
    record that counts: the two agree only if the budgets are equal.
   */
  lemma NewBudgetWaitsForARecord(saved: PnlState, oldBudget: real, newBudget: real, nowMs: u64, e: Entry)
    requires WellKept(saved, oldBudget)
    ensures var st := Opened(Some(saved), newBudget, nowMs);
      && (WellKept(st, newBudget) <==> newBudget == oldBudget)
      && (!Panics(e) ==> WellKept(Step(st, e, newBudget), newBudget))
  {
    hide Print, PrintSigned, Parse, ParseSigned;
    ParsePrint(AddWrap(Gas(saved), GasWei(e)));
    ParsePrintSigned(SignedWrap(Profit(saved) + e.result.netPnlWei));
  }

  // ------------------------------------------------------------------------
  // Conservation
  // ------------------------------------------------------------------------

  /** The record of a live submission, with what it earned before gas. */
  datatype Earning = Earning(entry: Entry, earned: u256)

  predicate Honest(x: Earning) { Balanced(x.entry.result, x.earned) }

  function LogOf(run: seq<Earning>): (log: seq<Entry>)
    ensures |log| == |run|
  {
    if run == [] then [] else LogOf(run[..|run| - 1]) + [run[|run| - 1].entry]
  }

  /** What the submissions of a run earned in all. */
  function GrossWon(run: seq<Earning>): nat {
    if run == [] then 0 else GrossWon(run[..|run| - 1]) + run[|run| - 1].earned
  }

  function Successes(run: seq<Earning>): nat {
    if run == [] then 0
    else Successes(run[..|run| - 1]) + if run[|run| - 1].entry.result.success then 1 else 0
  }

  predicate GrossFits(x: Earning) { x.earned < TWO_255 }

  /** What the submitter returns never makes the ledger panic, and its effect balances. */
  lemma EntryBalances(x: Earning)
    requires Honest(x)
    ensures !Panics(x.entry)
    ensures var d := Effect(x.entry);
      && (d.gas + d.pnl - x.earned) % TWO_256 == 0
      && (GrossFits(x) ==> d.gas + d.pnl == x.earned)
      && d.ok + d.rev == 1 && (d.ok == 1 <==> x.entry.result.success)
  {
    hide Usd;
  }

  lemma {:induction false} TotalBalances(run: seq<Earning>)
    requires forall x :: x in run ==> Honest(x)
    ensures var d := Total(LogOf(run));
      && (d.gas + d.pnl - GrossWon(run)) % TWO_256 == 0
      && ((forall x :: x in run ==> GrossFits(x)) ==> d.gas + d.pnl == GrossWon(run))
      && d.ok + d.rev == |run| && d.ok == Successes(run)
  {
    hide Honest, Effect, GrossFits;
    if run != [] {
      var l := |run| - 1;
      var before, last := run[..l], run[l];
      TotalBalances(before);
      EntryBalances(last);
      var log := LogOf(run);
      assert log[..l] == LogOf(before) && log[l] == last.entry;
      MultiplesAdd(Total(LogOf(before)).gas + Total(LogOf(before)).pnl - GrossWon(before),
                   Effect(last.entry).gas + Effect(last.entry).pnl - last.earned);
    }
  }

  lemma MultiplesAdd(x: int, y: int)
    requires x % TWO_256 == 0 && y % TWO_256 == 0
    ensures (x + y) % TWO_256 == 0
  {
  }

  /**
    Conservation: over a live run, recorded profit plus recorded gas moves by what
    the submissions earned, modulo 2^256; and every submission is counted once, as
    a success or as a revert.
   */
  lemma LiveRunConserves(st: PnlState, run: seq<Earning>, budgetUsd: real)
    requires WellKept(st, budgetUsd) && (forall x :: x in run ==> Honest(x))
    ensures var end := Replay(st, LogOf(run), budgetUsd);
      && (Profit(end) + Gas(end) - Profit(st) - Gas(st) - GrossWon(run)) % TWO_256 == 0
      && end.successfulArbs == (st.successfulArbs + Successes(run)) % TWO_64
      && end.revertedArbs == (st.revertedArbs + (|run| - Successes(run))) % TWO_64
      && end.totalSubmissions == (st.totalSubmissions + |run|) % TWO_64
  {
    hide WellKept, Replay, LogOf, Total, GrossWon, Successes, Honest, Gas, Profit, SignedWrap;
    hide Print, PrintSigned;
    var d := Total(LogOf(run));
    TotalBalances(run);
    PostedTotals(st, LogOf(run), budgetUsd);
    SignedWrapIsCongruent(Profit(st) + d.pnl);
    Congruence(Profit(st) + d.pnl, SignedWrap(Profit(st) + d.pnl), Gas(st) + d.gas,
               d.gas + d.pnl - GrossWon(run), Profit(st) + Gas(st) + GrossWon(run));
  }

  /** The same as an equation of integers, as long as neither total leaves its type. */
  lemma LiveRunConservesExactly(st: PnlState, run: seq<Earning>, budgetUsd: real)
    requires WellKept(st, budgetUsd) && (forall x :: x in run ==> Honest(x) && GrossFits(x))
    requires Gas(st) + Total(LogOf(run)).gas < TWO_256
    requires -TWO_255 <= Profit(st) + Total(LogOf(run)).pnl < TWO_255
    ensures var end := Replay(st, LogOf(run), budgetUsd);
      Profit(end) + Gas(end) == Profit(st) + Gas(st) + GrossWon(run)
  {
    hide WellKept, Replay, LogOf, Total, GrossWon, Honest, Gas, Profit, SignedWrap, Posted;
    TotalBalances(run);
    PostedTotals(st, LogOf(run), budgetUsd);
    GasTotalIsNatural(LogOf(run));
    SignedWrapIs(Profit(st) + Total(LogOf(run)).pnl);
  }

  lemma {:induction false} GasTotalIsNatural(log: seq<Entry>)
    ensures Total(log).gas >= 0
  {
    if log != [] {
      GasTotalIsNatural(log[..|log| - 1]);
    }
  }

  /** The two wei totals after a series of records. */
  lemma PostedTotals(st: PnlState, log: seq<Entry>, budgetUsd: real)
    requires WellKept(st, budgetUsd)
    ensures var end := Replay(st, log, budgetUsd);
      && Gas(end) == (Gas(st) + Total(log).gas) % TWO_256
      && Profit(end) == SignedWrap(Profit(st) + Total(log).pnl)
      && end == Posted(st, Total(log), budgetUsd, end.lastUpdatedMs)
  {
    hide *;
    ReplayPosts(st, log, budgetUsd);
    PostedIsWellKept(st, Total(log), budgetUsd, Replay(st, log, budgetUsd).lastUpdatedMs);
  }

  lemma SignedWrapIsCongruent(x: int)
    ensures (x - SignedWrap(x)) % TWO_256 == 0
  {
  }

  lemma Congruence(p: int, p': int, g: int, z: int, start: int)
    requires (p - p') % TWO_256 == 0 && z % TWO_256 == 0 && p + g == start + z
    ensures (p' + g % TWO_256 - start) % TWO_256 == 0
  {
    assert (g - g % TWO_256) % TWO_256 == 0;
    var i, j, k := (p - p') / TWO_256, (g - g % TWO_256) / TWO_256, z / TWO_256;
    assert p' + g % TWO_256 - start == TWO_256 * (k - i - j);
  }

  // ------------------------------------------------------------------------
  // Dry runs
  // ------------------------------------------------------------------------

  /** `make_dry_run_result`: the estimated gas of an opportunity, no profit, counted as a revert. */
  function DryRunResult(opportunity: Opportunity, gasUsed: u64): SubmissionResult {
    SubmissionResult(false, gasUsed, opportunity.l2GasCostWei, opportunity.l1GasCostWei, 0)
  }

  /** A dry-run record conserves only if it carries no gas: nothing was earned, yet gas is booked. */
  lemma DryRunConservesIff(st: PnlState, opportunity: Opportunity, gasUsed: u64, price: real, nowMs: u64,
                           budgetUsd: real)
    requires WellKept(st, budgetUsd)
    ensures var e := Entry(DryRunResult(opportunity, gasUsed), price, nowMs);
            var end := Step(st, e, budgetUsd);
            (Profit(end) + Gas(end) - Profit(st) - Gas(st)) % TWO_256 == 0 <==> GasWei(e) == 0 || Panics(e)
  {
    var e := Entry(DryRunResult(opportunity, gasUsed), price, nowMs);
    hide WellKept, Posted, Step, Gas, Profit, SignedWrap, GasUsd, PnlUsd, GasWei, FitsU128;
    StepPosts(st, e, budgetUsd);
    PostedIsWellKept(st, Effect(e), budgetUsd, Step(st, e, budgetUsd).lastUpdatedMs);
    SignedWrapIs(Profit(st));
    assert Effect(e).pnl == 0;
  }

  // ------------------------------------------------------------------------
  // Budget
  // ------------------------------------------------------------------------

  ghost predicate PricesNonNegative(log: seq<Entry>) {
    forall i :: 0 <= i < |log| ==> log[i].ethPriceUsd >= 0.0
  }

  /** Remaining budget is the budget less the gas spent, and further records never raise it. */
  lemma {:induction false} RemainingNeverRises(st: PnlState, log: seq<Entry>, budgetUsd: real)
    requires WellKept(st, budgetUsd) && PricesNonNegative(log)
    ensures var end := Replay(st, log, budgetUsd);
      && end.budgetRemainingUsd == budgetUsd - end.totalGasSpentUsd
      && end.budgetRemainingUsd <= st.budgetRemainingUsd
  {
    hide Parse, ParseSigned, Print, PrintSigned;
    if log != [] {
      var before, last := log[..|log| - 1], log[|log| - 1];
      RemainingNeverRises(st, before, budgetUsd);
      GasUsdNonNegative(last);
    }
  }

  lemma GasUsdNonNegative(e: Entry)
    requires e.ethPriceUsd >= 0.0
    ensures GasUsd(e) >= 0.0
  {
    hide GasWei;
    assert GasWei(e) as real / WEI_PER_ETH >= 0.0;
  }

  /** Exhaustion, once reached, is permanent; and with warn >= kill it is always also low. */
  lemma ExhaustionIsPermanent(st: PnlState, log: seq<Entry>, budgetUsd: real, warnAtUsd: real, killAtUsd: real)
    requires WellKept(st, budgetUsd) && PricesNonNegative(log) && Exhausted(st, killAtUsd)
    ensures Exhausted(Replay(st, log, budgetUsd), killAtUsd)
    ensures warnAtUsd >= killAtUsd ==> Low(Replay(st, log, budgetUsd), warnAtUsd)
  {
    hide WellKept, Replay;
    RemainingNeverRises(st, log, budgetUsd);
  }
}
