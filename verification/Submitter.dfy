/**
  Submission of one opportunity (crates/executor/src/submitter.rs:227-345). The
  node's answers are parameters; `Panicked` is an unwinding task, which leaves no result.
 */
module Submitter {
  import opened Wrappers
  import opened Words
  import opened Types
  import opened Decimal

  datatype Receipt = Receipt(status: bool, gasUsed: u64, effectiveGasPrice: u128)

  /** One poll for the receipt. */
  datatype Poll = Pending | Mined(receipt: Receipt) | PollFailed

  datatype SubmitError =
    L1GasFailed | L2GasFailed | GasPriceFailed | SendFailed | ReceiptFailed | ReceiptTimeout | Panicked

  /** What the node answers; `polls` are the polls made before the receipt deadline. */
  datatype Node = Node(
    l1Gas: Option<u64>,
    l2Gas: Option<u64>,
    gasPriceWei: Option<u128>,
    sent: bool,
    polls: seq<Poll>)

  /** `U256::to::<u128>()` and the f64 conversion of an I256 panic beyond 128 bits. */
  predicate FitsU128(x: nat) { x < TWO_128 }

  function L2Cost(receipt: Receipt): u256 { MulWrap(receipt.gasUsed, receipt.effectiveGasPrice) }

  function L1Cost(l1Gas: u64, gasPriceWei: u128): u256 { MulWrap(l1Gas, gasPriceWei) }

  /** Steps 5 and 6: costs, signed profit and loss, and the result. */
  function Settle(opportunity: Opportunity, l1Gas: u64, gasPriceWei: u128, receipt: Receipt)
    : Result<SubmissionResult, SubmitError>
  {
    var l2Cost := L2Cost(receipt);
    var l1Cost := L1Cost(l1Gas, gasPriceWei);
    var cost := SaturatingAdd(l2Cost, l1Cost);
    if !FitsU128(cost) then Err(Panicked)
    else
      var net := if receipt.status then SignedWrap(SignedWrap(opportunity.grossProfitWei) - SignedWrap(cost))
                 else SignedWrap(0 - SignedWrap(cost));
      if !FitsU128(Magnitude(net)) then Err(Panicked)
      else Ok(SubmissionResult(receipt.status, receipt.gasUsed, l2Cost, l1Cost, net))
  }

  /** The first poll that is not pending. */
  function FirstAnswer(polls: seq<Poll>): Result<Receipt, SubmitError> {
    if polls == [] then Err(ReceiptTimeout)
    else match polls[0]
         case Pending => FirstAnswer(polls[1..])
         case Mined(receipt) => Ok(receipt)
         case PollFailed => Err(ReceiptFailed)
  }

  function Submitted(opportunity: Opportunity, node: Node): Result<SubmissionResult, SubmitError> {
    if node.l1Gas.None? then Err(L1GasFailed)
    else if node.l2Gas.None? then Err(L2GasFailed)
    else if node.gasPriceWei.None? then Err(GasPriceFailed)
    else if !node.sent then Err(SendFailed)
    else match FirstAnswer(node.polls)
         case Err(e) => Err(e)
         case Ok(receipt) => Settle(opportunity, node.l1Gas.value, node.gasPriceWei.value, receipt)
  }

  method Submit(opportunity: Opportunity, node: Node) returns (r: Result<SubmissionResult, SubmitError>)
    ensures r == Submitted(opportunity, node)
  {
    hide Settle;
    if node.l1Gas.None? {
      return Err(L1GasFailed);
    }
    if node.l2Gas.None? {
      return Err(L2GasFailed);
    }
    if node.gasPriceWei.None? {
      return Err(GasPriceFailed);
    }
    if !node.sent {
      return Err(SendFailed);
    }
    var k := 0;
    while k < |node.polls|
      invariant k <= |node.polls|
      invariant FirstAnswer(node.polls[k..]) == FirstAnswer(node.polls)
    {
      assert node.polls[k..][1..] == node.polls[k + 1..];
      match node.polls[k] {
        case Pending => k := k + 1;
        case Mined(receipt) => return Settle(opportunity, node.l1Gas.value, node.gasPriceWei.value, receipt);
        case PollFailed => return Err(ReceiptFailed);
      }
    }
    return Err(ReceiptTimeout);
  }

  // ------------------------------------------------------------------------
  // What a result means
  // ------------------------------------------------------------------------

  lemma ReceiptCostFits(gas: u64, price: u128)
    ensures 0 <= gas * price < TWO_64 * TWO_128
  {
    MulMono(gas, TWO_64 - 1, price, TWO_128 - 1);
  }

  /** The mathematical gas bill of a submission. */
  function Bill(l1Gas: u64, gasPriceWei: u128, receipt: Receipt): int {
    receipt.gasUsed * receipt.effectiveGasPrice + l1Gas * gasPriceWei
  }

  /** No cost wraps or saturates, and the recorded costs add up to the bill. */
  lemma CostsAreExact(opportunity: Opportunity, l1Gas: u64, gasPriceWei: u128, receipt: Receipt)
    ensures L2Cost(receipt) == receipt.gasUsed * receipt.effectiveGasPrice
    ensures L1Cost(l1Gas, gasPriceWei) == l1Gas * gasPriceWei
    ensures L2Cost(receipt) + L1Cost(l1Gas, gasPriceWei) == Bill(l1Gas, gasPriceWei, receipt)
    ensures SaturatingAdd(L2Cost(receipt), L1Cost(l1Gas, gasPriceWei)) == Bill(l1Gas, gasPriceWei, receipt)
    ensures AddWrap(L2Cost(receipt), L1Cost(l1Gas, gasPriceWei)) == Bill(l1Gas, gasPriceWei, receipt)
  {
    hide MulWrap;
    ReceiptCostFits(receipt.gasUsed, receipt.effectiveGasPrice);
    ReceiptCostFits(l1Gas, gasPriceWei);
    MulWrapExact(receipt.gasUsed, receipt.effectiveGasPrice);
    MulWrapExact(l1Gas, gasPriceWei);
    BillFits(L2Cost(receipt), L1Cost(l1Gas, gasPriceWei));
    hide AddWrap, SaturatingAdd;
  }

  lemma BillFits(x: u256, y: u256)
    requires x < TWO_64 * TWO_128 && y < TWO_64 * TWO_128
    ensures SaturatingAdd(x, y) == x + y && AddWrap(x, y) == x + y
  {
  }

  /** What a submission earns before gas: a reverted one earns nothing. */
  function Earned(opportunity: Opportunity, receipt: Receipt): u256 {
    if receipt.status then opportunity.grossProfitWei else 0
  }

  /** A result books what was earned: no panic ahead, and profit plus gas make up the earnings. */
  predicate Balanced(r: SubmissionResult, earned: u256) {
    var bill := r.l2GasCostWei + r.l1GasCostWei;
    && FitsU128(bill) && FitsU128(Magnitude(r.netPnlWei))
    && (r.netPnlWei + bill - earned) % TWO_256 == 0
    && (r.netPnlWei + bill == earned <==> earned < TWO_255)
  }

  /**
    A result's profit plus its gas is what the submission earned, modulo 2^256;
    it is so exactly iff the earnings are below 2^255.
   */
  lemma ResultBalances(opportunity: Opportunity, l1Gas: u64, gasPriceWei: u128, receipt: Receipt)
    requires Settle(opportunity, l1Gas, gasPriceWei, receipt).Ok?
    ensures var r := Settle(opportunity, l1Gas, gasPriceWei, receipt).value;
      && r.success == receipt.status
      && r.gasUsed == receipt.gasUsed
      && r.l2GasCostWei == receipt.gasUsed * receipt.effectiveGasPrice && r.l1GasCostWei == l1Gas * gasPriceWei
      && Balanced(r, Earned(opportunity, receipt))
  {
    CostsAreExact(opportunity, l1Gas, gasPriceWei, receipt);
    hide Bill, L1Cost, L2Cost, SignedWrap, SaturatingAdd, AddWrap;
    SignedDifference(opportunity.grossProfitWei, Bill(l1Gas, gasPriceWei, receipt));
    SignedNegation(Bill(l1Gas, gasPriceWei, receipt));
  }

  /** Signed subtraction of two raw words. */
  lemma SignedDifference(x: u256, y: u128)
    ensures var d := SignedWrap(SignedWrap(x) - SignedWrap(y));
      && (d + y - x) % TWO_256 == 0
      && (x < TWO_255 ==> d == x - y)
      && (x >= TWO_255 ==> d == x - y - TWO_256 || d >= TWO_128)
  {
    SignedWrapIs(x);
    SignedWrapIs(y);
    hide SignedWrap;
    SignedWrapIs(SignedWrap(x) - SignedWrap(y));
  }

  lemma SignedNegation(y: u128)
    ensures SignedWrap(0 - SignedWrap(y)) == 0 - y
  {
    SignedWrapIs(y);
    SignedWrapIs(0 - y);
  }

  /** Two's complement moves a value by a multiple of 2^256; within two periods the multiple is known. */
  lemma SignedWrapIs(x: int)
    requires -TWO_256 <= x < TWO_256
    ensures SignedWrap(x)
         == if x < -TWO_255 then x + TWO_256 else if x < TWO_255 then x else x - TWO_256
  {
    assert x % TWO_256 == if x < 0 then x + TWO_256 else x;
  }

  /** The bill, or the signed difference of the earnings and the bill, does not fit 128 bits. */
  predicate TooLarge(bill: int, earned: u256) {
    bill >= TWO_128
    || (if earned < TWO_255 then earned >= TWO_128 + bill else TWO_256 - earned + bill >= TWO_128)
  }

  /** A submission panics exactly then; earnings of 2^255 and more count as negative. */
  lemma SettlePanicsIff(opportunity: Opportunity, l1Gas: u64, gasPriceWei: u128, receipt: Receipt)
    ensures Settle(opportunity, l1Gas, gasPriceWei, receipt).Err?
       <==> TooLarge(Bill(l1Gas, gasPriceWei, receipt), Earned(opportunity, receipt))
  {
    CostsAreExact(opportunity, l1Gas, gasPriceWei, receipt);
    hide Bill, L1Cost, L2Cost, SignedWrap, SaturatingAdd, AddWrap;
    var bill := Bill(l1Gas, gasPriceWei, receipt);
    if FitsU128(bill) {
      SignedDifference(opportunity.grossProfitWei, bill);
      SignedNegation(bill);
    }
  }

  // ------------------------------------------------------------------------
  // When a submission succeeds
  // ------------------------------------------------------------------------

  /** Poll k is the first that is not pending. */
  predicate AnsweredAt(polls: seq<Poll>, k: int) {
    0 <= k < |polls| && !polls[k].Pending? && forall i :: 0 <= i < k ==> polls[i].Pending?
  }

  /** That poll decides. */
  lemma {:induction false} FirstAnswerAt(polls: seq<Poll>, k: int)
    requires AnsweredAt(polls, k)
    ensures FirstAnswer(polls) == if polls[k].Mined? then Ok(polls[k].receipt) else Err(ReceiptFailed)
    decreases k
  {
    if k > 0 {
      FirstAnswerAt(polls[1..], k - 1);
    }
  }

  /** Without one the submission times out. */
  lemma {:induction false} TimesOutIff(polls: seq<Poll>) returns (k: int)
    ensures if FirstAnswer(polls) == Err(ReceiptTimeout) then forall i :: 0 <= i < |polls| ==> polls[i].Pending?
            else AnsweredAt(polls, k)
  {
    k := 0;
    if polls != [] && polls[0].Pending? {
      var rest := TimesOutIff(polls[1..]);
      k := rest + 1;
      assert forall i :: 0 < i < |polls| ==> polls[i] == polls[1..][i - 1];
    }
  }

  /** The calls before the receipt all succeed. */
  predicate Sent(node: Node) { node.l1Gas.Some? && node.l2Gas.Some? && node.gasPriceWei.Some? && node.sent }

  /** Poll k brings the receipt, and neither the bill nor the profit is too large to be booked. */
  predicate SettlesAt(opportunity: Opportunity, node: Node, k: int) {
    && Sent(node) && AnsweredAt(node.polls, k) && node.polls[k].Mined?
    && var receipt := node.polls[k].receipt;
       !TooLarge(Bill(node.l1Gas.value, node.gasPriceWei.value, receipt), Earned(opportunity, receipt))
  }

  /** A submission yields a result exactly when some poll settles it. */
  lemma SubmittedOkIff(opportunity: Opportunity, node: Node)
    ensures Submitted(opportunity, node).Ok? <==> exists k :: SettlesAt(opportunity, node, k)
  {
    hide Settle, FirstAnswer, TooLarge, Bill, Earned;
    if Submitted(opportunity, node).Ok? {
      var k := TimesOutIff(node.polls);
      FirstAnswerAt(node.polls, k);
      SettlePanicsIff(opportunity, node.l1Gas.value, node.gasPriceWei.value, node.polls[k].receipt);
      assert SettlesAt(opportunity, node, k);
    }
    if k :| SettlesAt(opportunity, node, k) {
      SubmittedBalances(opportunity, node, k);
    }
  }

  /** Otherwise the error is that of the first step that fails. */
  lemma SubmitErrorIs(opportunity: Opportunity, node: Node) returns (k: int)
    ensures var r := Submitted(opportunity, node);
      && (r == Err(L1GasFailed) <==> node.l1Gas.None?)
      && (r == Err(L2GasFailed) <==> node.l1Gas.Some? && node.l2Gas.None?)
      && (r == Err(GasPriceFailed) <==> node.l1Gas.Some? && node.l2Gas.Some? && node.gasPriceWei.None?)
      && (r == Err(SendFailed)
          <==> node.l1Gas.Some? && node.l2Gas.Some? && node.gasPriceWei.Some? && !node.sent)
      && (r == Err(ReceiptTimeout) <==> Sent(node) && forall i :: 0 <= i < |node.polls| ==> node.polls[i].Pending?)
      && (r == Err(ReceiptFailed) <==> Sent(node) && AnsweredAt(node.polls, k) && node.polls[k].PollFailed?)
      && (r == Err(Panicked)
          <==> Sent(node) && AnsweredAt(node.polls, k) && node.polls[k].Mined? && !SettlesAt(opportunity, node, k))
  {
    hide FirstAnswer, TooLarge, Bill, Earned;
    k := TimesOutIff(node.polls);
    if AnsweredAt(node.polls, k) {
      FirstAnswerAt(node.polls, k);
      if Sent(node) && node.polls[k].Mined? {
        SettlePanicsIff(opportunity, node.l1Gas.value, node.gasPriceWei.value, node.polls[k].receipt);
        OnlyPanics(opportunity, node.l1Gas.value, node.gasPriceWei.value, node.polls[k].receipt);
      }
    }
    hide Settle;
  }

  lemma OnlyPanics(opportunity: Opportunity, l1Gas: u64, gasPriceWei: u128, receipt: Receipt)
    ensures var r := Settle(opportunity, l1Gas, gasPriceWei, receipt); r.Err? ==> r == Err(Panicked)
  {
    hide L1Cost, L2Cost, SignedWrap;
  }

  /** The result is then that of this receipt, and balances. */
  lemma SubmittedBalances(opportunity: Opportunity, node: Node, k: int)
    requires SettlesAt(opportunity, node, k)
    ensures Submitted(opportunity, node).Ok?
    ensures var r, receipt := Submitted(opportunity, node).value, node.polls[k].receipt;
      && r.success == receipt.status && r.gasUsed == receipt.gasUsed
      && r.l2GasCostWei + r.l1GasCostWei == Bill(node.l1Gas.value, node.gasPriceWei.value, receipt)
      && Balanced(r, Earned(opportunity, receipt))
  {
    hide Settle, FirstAnswer, TooLarge, Earned, Balanced;
    FirstAnswerAt(node.polls, k);
    SettlePanicsIff(opportunity, node.l1Gas.value, node.gasPriceWei.value, node.polls[k].receipt);
    ResultBalances(opportunity, node.l1Gas.value, node.gasPriceWei.value, node.polls[k].receipt);
  }
}
