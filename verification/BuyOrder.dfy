/** The buy card's order: what a click freezes, and what "Try again" rebuilds from a fresh quote. */
module BuyOrder {
  import opened Wrappers
  import opened TxTypes
  import opened BestRoute
  import opened FlowTimeline

  const BUY_SLIPPAGE_BPS: nat := 50

  function WithSlippage(quoted: nat): nat { quoted * (10_000 - BUY_SLIPPAGE_BPS) / 10_000 }

  datatype Pay = USDG | ETH

  datatype Directory = Directory(router: Address, usdg: Address, weth: Address, dca: Address, symbol: string)

  datatype Order = Order(
    id: nat, pay: Pay, flow: seq<FlowStep>, steps: seq<TxStep>, amountIn: nat, quoted: nat, minOut: nat,
    tokens: seq<Address>, requoting: bool, repriced: Option<nat>)

  /** What a handler does to the sequence. */
  datatype SeqCall = NoCall | CallRun(steps: seq<TxStep>) | CallRetry(remaining: Option<seq<TxStep>>) | CallReset

  const WRAP_LABEL: string := "Wrap ETH"

  function PayToken(dir: Directory, p: Pay): Address { if p == ETH then dir.weth else dir.usdg }

  function ApproveLabel(p: Pay): string { if p == ETH then "Approve WETH" else "Approve USDG" }

  function BuyLabel(dir: Directory): string { "Buy " + dir.symbol }

  function BuyStep(dir: Directory, p: Pay, amountIn: nat, min: nat, path: seq<RouteHop>, recipient: Address): TxStep {
    TxStep(BuyLabel(dir), dir.router, SwapWithRoute(PayToken(dir, p), dir.dca, amountIn, min, recipient, path))
  }

  /** Approve (when the allowance falls short), wrap (when paying in ETH), buy. */
  function SubmitSteps(dir: Directory, p: Pay, amount: nat, needsApproval: bool, min: nat, path: seq<RouteHop>,
                       recipient: Address): seq<TxStep>
  {
    (if needsApproval then [TxStep(ApproveLabel(p), PayToken(dir, p), Approve(dir.router, amount))] else [])
    + (if p == ETH then [TxStep(WRAP_LABEL, dir.weth, WrapEth(amount))] else [])
    + [BuyStep(dir, p, amount, min, path, recipient)]
  }

  /** Every row is always listed; an approval that is not needed is skipped. */
  function SubmitFlow(dir: Directory, p: Pay, needsApproval: bool): seq<FlowStep> {
    [FlowStep(ApproveLabel(p), !needsApproval, false)]
    + (if p == ETH then [SentRow(WRAP_LABEL)] else [])
    + [SentRow(BuyLabel(dir))]
  }

  function Submitted(dir: Directory, id: nat, p: Pay, amount: nat, needsApproval: bool, best: Candidate,
                     recipient: Address): Order {
    var min := WithSlippage(best.amountOut);
    Order(id, p, SubmitFlow(dir, p, needsApproval),
          SubmitSteps(dir, p, amount, needsApproval, min, best.path, recipient),
          amount, best.amountOut, min, best.tokens, false, None)
  }

  predicate Reachable(o: Order, answer: Candidate) { answer.amountOut >= o.minOut }

  /** The floor the rebuilt buy carries: never below the one on screen while the fresh quote still reaches that one. */
  function FloorAfter(o: Order, answer: Candidate): nat {
    var floor := WithSlippage(answer.amountOut);
    if Reachable(o, answer) && floor < o.minOut then o.minOut else floor
  }

  function DropLast<T>(s: seq<T>): seq<T> { if s == [] then [] else s[..|s| - 1] }

  function From<T>(s: seq<T>, k: nat): seq<T> { if k <= |s| then s[k..] else [] }

  /** The steps from the `k`-th on. */
  predicate IsTail<T(==)>(s: seq<T>, k: nat, tail: seq<T>) {
    |tail| == (if k <= |s| then |s| - k else 0) && forall j :: 0 <= j < |tail| ==> tail[j] == s[k + j]
  }

  function Requoted(dir: Directory, o: Order, answer: Option<Candidate>, recipient: Address): Order {
    match answer
    case None => o.(requoting := false, repriced := None)
    case Some(f) =>
      var min := FloorAfter(o, f);
      o.(requoting := false, quoted := f.amountOut, minOut := min, tokens := f.tokens,
         steps := DropLast(o.steps) + [BuyStep(dir, o.pay, o.amountIn, min, f.path, recipient)],
         flow := DropLast(o.flow) + [SentRow(BuyLabel(dir))],
         repriced := if Reachable(o, f) then None else Some(o.minOut))
  }

  function AfterRequote(dir: Directory, o: Order, failedAt: nat, answer: Option<Candidate>,
                        recipient: Address): SeqCall {
    if answer.Some? && !Reachable(o, answer.value) then NoCall
    else CallRetry(Some(From(Requoted(dir, o, answer, recipient).steps, failedAt)))
  }

  // ---------------------------------------------------------------- what an order always says of itself

  /** The last step is the buy on screen: this amount, this floor, along these tokens. */
  predicate IsTheBuy(dir: Directory, o: Order, t: TxStep) {
    && t.title == BuyLabel(dir) && t.target == dir.router && t.call.SwapWithRoute?
    && t.call.payToken == PayToken(dir, o.pay) && t.call.buyToken == dir.dca
    && t.call.amountIn == o.amountIn && t.call.minOut == o.minOut
    && t.call.path != [] && PathTokens(t.call.path) == o.tokens
  }

  predicate Agrees(dir: Directory, o: Order) {
    && o.steps != [] && IsTheBuy(dir, o, o.steps[|o.steps| - 1])
    && o.flow != [] && o.flow[|o.flow| - 1] == SentRow(BuyLabel(dir))
    && Aligned(o.flow, o.steps)
    && o.minOut <= o.quoted
  }

  predicate CandidateOk(c: Candidate) { c.path != [] && c.tokens == PathTokens(c.path) }

  lemma SlippageIsBelowTheQuote(q: nat)
    ensures WithSlippage(q) <= q
  {
  }

  /** The floor is the quote less 50 basis points, rounded down. */
  predicate IsFloorOf(floor: nat, quoted: nat) { floor * 10_000 <= quoted * 9_950 < (floor + 1) * 10_000 }

  lemma SlippageIsTheFloor(q: nat)
    ensures IsFloorOf(WithSlippage(q), q)
  {
  }

  /** A new order, written out: what each of its calls does, to whom, and what the screen says of it. */
  ghost predicate IsNewOrder(dir: Directory, o: Order, id: nat, p: Pay, amount: nat, needsApproval: bool,
                             best: Candidate, recipient: Address) {
    var token, n := if p == ETH then dir.weth else dir.usdg, |o.steps|;
    && o.id == id && o.pay == p && o.amountIn == amount && o.quoted == best.amountOut && o.tokens == best.tokens
    && IsFloorOf(o.minOut, best.amountOut) && !o.requoting && o.repriced.None?
    && n == 1 + (if needsApproval then 1 else 0) + (if p == ETH then 1 else 0)
    && (needsApproval ==> o.steps[0] == TxStep(if p == ETH then "Approve WETH" else "Approve USDG", token,
                                               Approve(dir.router, amount)))
    && (p == ETH ==> o.steps[n - 2] == TxStep("Wrap ETH", dir.weth, WrapEth(amount)))
    && o.steps[n - 1] == TxStep("Buy " + dir.symbol, dir.router,
                                SwapWithRoute(token, dir.dca, amount, o.minOut, recipient, best.path))
    && o.flow == [FlowStep(if p == ETH then "Approve WETH" else "Approve USDG", !needsApproval, false)]
                 + (if p == ETH then [SentRow("Wrap ETH")] else []) + [SentRow("Buy " + dir.symbol)]
  }

  lemma SubmittedIs(dir: Directory, id: nat, p: Pay, amount: nat, needsApproval: bool, best: Candidate,
                    recipient: Address)
    ensures IsNewOrder(dir, Submitted(dir, id, p, amount, needsApproval, best, recipient), id, p, amount, needsApproval,
                       best, recipient)
  {
    SlippageIsTheFloor(best.amountOut);
  }

  /**
   * A rebuilt order, written out. Without an answer it is the order as it was; with one its buy, and nothing else, goes
   * for the same amount along the fresh path to the account now connected, at the fresh floor or, while the fresh quote
   * still reaches it, the one on screen if that is higher; where it does not, the old floor is kept to show.
   */
  ghost predicate IsRequoted(dir: Directory, o: Order, answer: Option<Candidate>, recipient: Address, o': Order) {
    match answer
    case None => o' == o.(requoting := false, repriced := None)
    case Some(f) =>
      var n := |o.steps|;
      && o'.id == o.id && o'.pay == o.pay && o'.amountIn == o.amountIn && !o'.requoting
      && o'.quoted == f.amountOut && o'.tokens == f.tokens
      && (exists floor :: IsFloorOf(floor, f.amountOut) &&
                          o'.minOut == if f.amountOut >= o.minOut > floor then o.minOut else floor)
      && o'.repriced == (if f.amountOut >= o.minOut then None else Some(o.minOut))
      && n == |o'.steps| && n > 0 && o'.steps[..n - 1] == o.steps[..n - 1]
      && o'.steps[n - 1] == TxStep("Buy " + dir.symbol, dir.router,
                                   SwapWithRoute(if o.pay == ETH then dir.weth else dir.usdg, dir.dca, o.amountIn,
                                                 o'.minOut, recipient, f.path))
      && |o'.flow| == |o.flow| > 0 && o'.flow[..|o.flow| - 1] == o.flow[..|o.flow| - 1]
      && o'.flow[|o.flow| - 1] == SentRow("Buy " + dir.symbol)
  }

  lemma RequotedIs(dir: Directory, o: Order, answer: Option<Candidate>, recipient: Address)
    requires o.steps != [] && o.flow != []
    ensures IsRequoted(dir, o, answer, recipient, Requoted(dir, o, answer, recipient))
  {
    if answer.Some? {
      SlippageIsTheFloor(answer.value.amountOut);
    }
  }

  /** What is sent on the answer: nothing below the floor on screen, else the rebuilt order from the failed step on. */
  lemma AnswerSends(dir: Directory, o: Order, failedAt: nat, answer: Option<Candidate>, recipient: Address)
    ensures var call := AfterRequote(dir, o, failedAt, answer, recipient);
            if answer.Some? && answer.value.amountOut < o.minOut then call == NoCall
            else call.CallRetry? && call.remaining.Some? &&
                 IsTail(Requoted(dir, o, answer, recipient).steps, failedAt, call.remaining.value)
  {
  }

  lemma SubmittedAgrees(dir: Directory, id: nat, p: Pay, amount: nat, needsApproval: bool, best: Candidate,
                        recipient: Address)
    requires CandidateOk(best)
    ensures Agrees(dir, Submitted(dir, id, p, amount, needsApproval, best, recipient))
  {
    var o := Submitted(dir, id, p, amount, needsApproval, best, recipient);
    SlippageIsBelowTheQuote(best.amountOut);
    var head := [FlowStep(ApproveLabel(p), !needsApproval, false)];
    var wrap := if p == ETH then [SentRow(WRAP_LABEL)] else [];
    var buy := [SentRow(BuyLabel(dir))];
    SentTitlesConcat(head + wrap, buy);
    SentTitlesConcat(head, wrap);
    assert SentTitles(head) == if needsApproval then [ApproveLabel(p)] else [];
    assert SentTitles(wrap) == if p == ETH then [WRAP_LABEL] else [];
    assert SentTitles(buy) == [BuyLabel(dir)];
    assert Titles(o.steps) == SentTitles(o.flow);
  }

  /** Replacing the buy and its row keeps every row in step with its step. */
  lemma RequotedAgrees(dir: Directory, o: Order, answer: Option<Candidate>, recipient: Address)
    requires Agrees(dir, o) && (answer.Some? ==> CandidateOk(answer.value))
    ensures Agrees(dir, Requoted(dir, o, answer, recipient))
    ensures DropLast(Requoted(dir, o, answer, recipient).steps) == DropLast(o.steps)
    ensures |Requoted(dir, o, answer, recipient).steps| == |o.steps|
  {
    if answer.Some? {
      SlippageIsBelowTheQuote(answer.value.amountOut);
      var o' := Requoted(dir, o, answer, recipient);
      var last := [SentRow(BuyLabel(dir))];
      assert o.flow == DropLast(o.flow) + last;
      SentTitlesConcat(DropLast(o.flow), last);
      assert o'.flow == DropLast(o.flow) + last;
      assert forall i :: 0 <= i < |o.steps| ==> Titles(o'.steps)[i] == Titles(o.steps)[i];
      assert Titles(o'.steps) == Titles(o.steps);
    }
  }

  /**
   * One "Try again": with the floor on screen still reachable, the rebuilt floor lies between it and the fresh quote
   * and is the highest of the two floors; otherwise nothing is sent and the old floor is kept to show what changed.
   */
  lemma FloorHoldsAcrossARequote(dir: Directory, o: Order, failedAt: nat, answer: Candidate, recipient: Address)
    requires Agrees(dir, o) && failedAt < |o.steps|
    ensures var o' := Requoted(dir, o, Some(answer), recipient);
            var c := AfterRequote(dir, o, failedAt, Some(answer), recipient);
            if answer.amountOut >= o.minOut then
              o.minOut <= o'.minOut <= answer.amountOut && WithSlippage(answer.amountOut) <= o'.minOut &&
              o'.repriced == None
              && c.CallRetry? && c.remaining.Some? && c.remaining.value != []
              && c.remaining.value[|c.remaining.value| - 1].call ==
                 SwapWithRoute(PayToken(dir, o.pay), dir.dca, o.amountIn, o'.minOut, recipient, answer.path)
            else c == NoCall && o'.minOut < o.minOut && o'.repriced == Some(o.minOut)
  {
    SlippageIsBelowTheQuote(answer.amountOut);
  }

  // ---------------------------------------------------------------- the card as the source has it

  class BuyDcaCard {
    const dir: Directory
    var orderRef: Option<Order>
    var orderIds: nat

    constructor (dir: Directory)
      ensures this.dir == dir && orderRef == None && orderIds == 0
    {
      this.dir := dir;
      orderRef := None;
      orderIds := 0;
    }

    method Submit(p: Pay, amount: nat, needsApproval: bool, best: Candidate, recipient: Address) returns (call: SeqCall)
      requires amount > 0
      modifies this
      ensures orderIds == old(orderIds) + 1
      ensures orderRef == Some(Submitted(dir, orderIds, p, amount, needsApproval, best, recipient))
      ensures orderRef.Some? &&
              IsNewOrder(dir, orderRef.value, orderIds, p, amount, needsApproval, best, recipient)
      ensures call == CallRun(orderRef.value.steps)
    {
      var minOut := WithSlippage(best.amountOut);
      var steps := [];
      if needsApproval {
        steps := steps + [TxStep(ApproveLabel(p), PayToken(dir, p), Approve(dir.router, amount))];
      }
      if p == ETH {
        steps := steps + [TxStep(WRAP_LABEL, dir.weth, WrapEth(amount))];
      }
      steps := steps + [BuyStep(dir, p, amount, minOut, best.path, recipient)];
      assert steps == SubmitSteps(dir, p, amount, needsApproval, minOut, best.path, recipient);
      orderIds := orderIds + 1;
      orderRef := Some(Order(orderIds, p, SubmitFlow(dir, p, needsApproval), steps, amount, best.amountOut, minOut,
                             best.tokens, false, None));
      call := CallRun(steps);
      SubmittedIs(dir, orderIds, p, amount, needsApproval, best, recipient);
    }

    /** A click on "Try again". `reading` when it sends for a fresh quote; `failedAt` is -1 when no step failed. */
    method RetryClicked(failedAt: int, connected: bool) returns (call: SeqCall, reading: bool)
      modifies this`orderRef
      ensures call == if orderRef.None? || !connected || failedAt < 0 then CallRetry(None) else NoCall
      ensures reading <==> old(orderRef).Some? && connected && failedAt >= 0 && !old(orderRef).value.requoting
      ensures orderRef == if reading then Some(old(orderRef).value.(requoting := true)) else old(orderRef)
    {
      if orderRef.None? || !connected || failedAt < 0 {
        return CallRetry(None), false;
      }
      if orderRef.value.requoting {
        return NoCall, false;
      }
      orderRef := Some(orderRef.value.(requoting := true));
      return NoCall, true;
    }

    /** The read a click sent for order `id` is back. */
    method QuoteBack(id: nat, failedAt: nat, answer: Option<Candidate>, recipient: Address) returns (call: SeqCall)
      modifies this`orderRef
      ensures if old(orderRef).None? || old(orderRef).value.id != id then call == NoCall && orderRef == old(orderRef)
              else orderRef == Some(Requoted(dir, old(orderRef).value, answer, recipient))
                   && call == AfterRequote(dir, old(orderRef).value, failedAt, answer, recipient)
      ensures old(orderRef).Some? && old(orderRef).value.id == id &&
              old(orderRef).value.steps != [] && old(orderRef).value.flow != [] ==>
                && orderRef.Some? && IsRequoted(dir, old(orderRef).value, answer, recipient, orderRef.value)
                && (if answer.Some? && answer.value.amountOut < old(orderRef).value.minOut then call == NoCall
                    else call.CallRetry? && call.remaining.Some? &&
                         IsTail(orderRef.value.steps, failedAt, call.remaining.value))
    {
      if orderRef.None? || orderRef.value.id != id {
        return NoCall;
      }
      var cur := orderRef.value;
      if cur.steps != [] && cur.flow != [] {
        RequotedIs(dir, cur, answer, recipient);
      }
      if answer.None? {
        orderRef := Some(cur.(requoting := false, repriced := None));
        return CallRetry(Some(From(cur.steps, failedAt)));
      }
      var reachable := answer.value.amountOut >= cur.minOut;
      var floor := WithSlippage(answer.value.amountOut);
      var min := if reachable && floor < cur.minOut then cur.minOut else floor;
      var steps := DropLast(cur.steps) + [BuyStep(dir, cur.pay, cur.amountIn, min, answer.value.path, recipient)];
      orderRef := Some(cur.(requoting := false, quoted := answer.value.amountOut, minOut := min,
                            tokens := answer.value.tokens,
                            steps := steps, flow := DropLast(cur.flow) + [SentRow(BuyLabel(dir))],
                            repriced := if reachable then None else Some(cur.minOut)));
      if reachable {
        return CallRetry(Some(From(steps, failedAt)));
      }
      return NoCall;
    }

    /** Closing resets the sequence; after a success, read before the reset, the amount is cleared too. */
    method CloseFlow(done: bool) returns (call: SeqCall, clearAmount: bool)
      modifies this`orderRef
      ensures orderRef == None && call == CallReset && (clearAmount <==> done)
    {
      orderRef := None;
      call, clearAmount := CallReset, done;
    }
  }
}
