/**
 * Runs of the card in which a late answer breaks a promise. In all three the wallet and the network go while a quote is
 * out, and a write started offline waits for the network. Then the answer finds the run at another step, at a step that
 * may have been sent and has mined, or at work with a lower floor; each time one of the conditions is not met.
 */
module LateTail {
  import opened Wrappers
  import opened TxTypes
  import opened UseTx
  import opened TxFlow
  import opened BestRoute
  import opened BuyOrder
  import opened BuyFlow
  import BuyFloor
  import BuyOnline

  const SHOP: Directory := Directory("router", "usdg", "weth", "dca", "DCA")
  const DEAL: Candidate := Candidate(1000, [RouteHop(0, "weth", "dca", 0, "")], ["weth", "dca"])

  const THE_WRAP: TxStep := TxStep(WRAP_LABEL, "weth", WrapEth(1))

  function Then(b: Buy, e: BuyEvent): Buy { BuyStepped(SHOP, b, e) }

  /** An ETH buy is pressed and its wrap is refused in the wallet. */
  function WrapRefused(b: Buy): Buy {
    var b1 := Then(Then(b, WalletBack), PressBuy(ETH, 1, false, DEAL, "me", false));
    Then(Then(b1, Flow(PreparationIn(None))), Flow(WalletRefuses(None, None)))
  }

  /**
   * "Try again" sends for a quote; the wallet and the network go; "Try again" is now a plain retry, its prompt held.
   */
  function AskedThenRetried(b: Buy): Buy {
    Then(Then(Then(Then(b, PressTryAgain("me", false)), WalletGone), NetworkGone), PressTryAgain("me", false))
  }

  /** The wallet is back, then the network: the held prompt is shown, and the wrap is sent and mines. */
  function WrapMined(b: Buy): Buy {
    var b2 := Then(Then(Then(b, WalletBack), NetworkBack), Flow(WalletSends(7)));
    Then(Then(b2, Flow(Lands(0, 0, true))), Flow(ReceiptArrives(7, false)))
  }

  /** The buy is refused, and only then is the quote in (no route: the order's own steps go as they are). */
  function RefusedThenHeard(b: Buy): Buy {
    Then(Then(Then(b, Flow(PreparationIn(None))), Flow(WalletRefuses(None, None))), QuoteBack(0, None, false))
  }

  /**
   * What the story needs of a state: the order's two steps, the quote out for it if any, and where the sequence stands.
   */
  predicate Stands(b: Buy, loop: Loop, asked: bool, executed: seq<TxStep>) {
    && b.order.Some? && |b.order.value.steps| == 2 && b.order.value.steps[0] == THE_WRAP &&
       b.order.value.requoting == asked
    && (if asked then |b.out| == 1 && b.out[0].id == b.order.value.id && b.out[0].failedAt == 0 else b.out == [])
    && b.sys.hook.loop == loop && b.sys.open == Some(0) && b.sys.owner == 0 && |b.sys.orders| == 1
    && b.sys.orders[0].steps == b.order.value.steps && b.sys.orders[0].executed == executed
    && |b.sys.hook.state.steps| == 2
  }

  predicate FailedAtStep(b: Buy, i: nat) {
    && b.order.Some? && b.sys.hook.run == Some(RunRec(b.order.value.steps, i, None))
    && b.sys.hook.state.failed && !b.sys.hook.state.done && !MaybeSent(b.sys.hook.state)
    && FailedAt(b.sys.hook.state.steps) == i
  }

  predicate Lines(b: Buy, connected: bool, online: bool, held: bool) {
    b.connected == connected && b.online == online && b.held == held
  }

  predicate Sent(b: Buy, fate: Fate) {
    |b.sys.orders| == 1 && b.sys.orders[0].flights == [Flight(0, THE_WRAP, 7, true, fate)]
  }

  predicate NothingSent(b: Buy) { |b.sys.orders| == 1 && b.sys.orders[0].flights == [] }

  function TheSteps(b: Buy): seq<TxStep> { if b.order.Some? then b.order.value.steps else [] }

  /** A held retry: its prompt is due, the quote still out. */
  predicate RetryHeld(b: Buy) {
    && Stands(b, Prompted(TheSteps(b), 0, None), true, []) && NothingSent(b) && Lines(b, false, false, true)
    && b.sys.hook.run == Some(RunRec(TheSteps(b), -1, None))
  }

  lemma TheBuyIsPressed()
    ensures var b := Then(Then(FRESH_CARD, WalletBack), PressBuy(ETH, 1, false, DEAL, "me", false));
            Stands(b, Preparing(TheSteps(b), 0, false, false), false, []) && NothingSent(b) &&
                Lines(b, true, true, false) &&
            b.sys.hook.run == Some(RunRec(TheSteps(b), -1, None))
  {
    assert SubmitSteps(SHOP, ETH, 1, false, WithSlippage(1000), DEAL.path, "me")[0] == THE_WRAP;
  }

  lemma TheWrapIsPrompted(b: Buy)
    requires Stands(b, Preparing(TheSteps(b), 0, false, false), false, []) && NothingSent(b) &&
             Lines(b, true, true, false)
    requires b.sys.hook.run == Some(RunRec(TheSteps(b), -1, None)) && Inv(b.sys)
    ensures var b' := Then(b, Flow(PreparationIn(None)));
            Stands(b', Prompted(TheSteps(b'), 0, None), false, []) && NothingSent(b') && Lines(b', true, true, false) &&
            Inv(b'.sys)
  {
    PreparedKeeps(b.sys, None);
  }

  lemma TheWrapIsRefused(b: Buy)
    requires Stands(b, Prompted(TheSteps(b), 0, None), false, []) && NothingSent(b) && Lines(b, true, true, false)
    requires Inv(b.sys)
    ensures var b' := Then(b, Flow(WalletRefuses(None, None)));
            Stands(b', Off, false, []) && FailedAtStep(b', 0) && NothingSent(b') && Lines(b', true, true, false)
  {
    OwnerIsKnown(b.sys);
    BuyOnline.RefusalFailsThere(b.sys, TheSteps(b), 0);
  }

  lemma TheQuoteIsOut(b: Buy)
    requires Stands(b, Off, false, []) && FailedAtStep(b, 0) && NothingSent(b) && Lines(b, true, true, false)
    ensures var b' := Then(Then(Then(b, PressTryAgain("me", false)), WalletGone), NetworkGone);
            Stands(b', Off, true, []) && FailedAtStep(b', 0) && NothingSent(b') && Lines(b', false, false, false)
  {
  }

  lemma ThePlainRetryIsHeld(b: Buy)
    requires Stands(b, Off, true, []) && FailedAtStep(b, 0) && NothingSent(b) && Lines(b, false, false, false)
    ensures var b' := Then(b, PressTryAgain("me", false));
            RetryHeld(b')
  {
    var s := Retried(b.sys, None, false);
    assert s.hook.loop == Preparing(TheSteps(b), 0, false, false);
  }

  lemma TheWrapIsSent(b: Buy)
    requires Stands(b, Prompted(TheSteps(b), 0, None), true, []) && NothingSent(b) && Lines(b, false, false, true)
    ensures var b' := Then(Then(Then(b, WalletBack), NetworkBack), Flow(WalletSends(7)));
            Stands(b', AwaitReceipt(TheSteps(b'), 0, 7), true, []) && Sent(b', Pending) && Lines(b', true, true, false)
  {
  }

  lemma TheWrapLands(b: Buy)
    requires Stands(b, AwaitReceipt(TheSteps(b), 0, 7), true, []) && Sent(b, Pending) && Lines(b, true, true, false)
    ensures var b' := Then(b, Flow(Lands(0, 0, true)));
            Stands(b', AwaitReceipt(TheSteps(b'), 0, 7), true, [THE_WRAP]) && Sent(b', Executed) &&
                Lines(b', true, true, false)
  {
    assert [] + [THE_WRAP] == [THE_WRAP];
  }

  lemma TheReceiptIsIn(b: Buy)
    requires Stands(b, AwaitReceipt(TheSteps(b), 0, 7), true, [THE_WRAP]) && Sent(b, Executed) &&
             Lines(b, true, true, false)
    ensures var b' := Then(b, Flow(ReceiptArrives(7, false)));
            Stands(b', Preparing(TheSteps(b'), 1, false, false), true, [THE_WRAP]) && Lines(b', true, true, false)
  {
  }

  /** The wrap stands twice in the list, the second time as the step being prepared, and has executed once already. */
  predicate PreparesASecondWrap(b: Buy) {
    && b.sys.hook.loop.Preparing? && b.sys.hook.loop.i == 1 && |b.sys.hook.loop.steps| == 3
    && b.sys.hook.loop.steps[0] == b.sys.hook.loop.steps[1] == THE_WRAP
    && |b.sys.orders| == 1 && b.sys.orders[0].executed == [THE_WRAP]
  }

  lemma TheTailIsLate(b: Buy)
    requires Stands(b, Preparing(TheSteps(b), 1, false, false), true, [THE_WRAP]) && Lines(b, true, true, false)
    ensures PreparesASecondWrap(RefusedThenHeard(b))
  {
    var b1 := Then(b, Flow(PreparationIn(None)));
    assert Stands(b1, Prompted(TheSteps(b), 1, None), true, [THE_WRAP]) && Lines(b1, true, true, false);
    TheBuyIsRefused(b1);
    TheQuoteIsIn(Then(b1, Flow(WalletRefuses(None, None))));
  }

  lemma TheBuyIsRefused(b: Buy)
    requires Stands(b, Prompted(TheSteps(b), 1, None), true, [THE_WRAP]) && Lines(b, true, true, false)
    ensures var b' := Then(b, Flow(WalletRefuses(None, None)));
            Stands(b', Off, true, [THE_WRAP]) && b'.sys.hook.run == Some(RunRec(TheSteps(b'), 1, None))
  {
  }

  lemma TheQuoteIsIn(b: Buy)
    requires Stands(b, Off, true, [THE_WRAP]) && b.sys.hook.run == Some(RunRec(TheSteps(b), 1, None))
    ensures PreparesASecondWrap(Then(b, QuoteBack(0, None, false)))
  {
    var steps := TheSteps(b);
    assert From(steps, 0) == steps && (steps[..1] + steps)[0] == (steps[..1] + steps)[1] == THE_WRAP;
  }

  lemma AskedIsHeld(b: Buy)
    requires Stands(b, Off, false, []) && FailedAtStep(b, 0) && NothingSent(b) && Lines(b, true, true, false)
    ensures RetryHeld(AskedThenRetried(b))
  {
    var asked := Then(Then(Then(b, PressTryAgain("me", false)), WalletGone), NetworkGone);
    TheQuoteIsOut(b);
    ThePlainRetryIsHeld(asked);
  }

  lemma TheRetryIsHeld()
    ensures RetryHeld(AskedThenRetried(WrapRefused(FRESH_CARD)))
  {
    var b1 := Then(Then(FRESH_CARD, WalletBack), PressBuy(ETH, 1, false, DEAL, "me", false));
    TheBuyIsPressed();
    PressedIsInOrder();
    TheWrapIsPrompted(b1);
    TheWrapIsRefused(Then(b1, Flow(PreparationIn(None))));
    AskedIsHeld(WrapRefused(FRESH_CARD));
  }

  lemma PressedIsInOrder()
    ensures Inv(Then(Then(FRESH_CARD, WalletBack), PressBuy(ETH, 1, false, DEAL, "me", false)).sys)
  {
    var o := Submitted(SHOP, 1, ETH, 1, false, DEAL, "me");
    PressBuyIs(SHOP, Then(FRESH_CARD, WalletBack), PressBuy(ETH, 1, false, DEAL, "me", false), o);
    StartTakesAnOrder(o.steps);
  }

  lemma StartTakesAnOrder(steps: seq<TxStep>)
    ensures Inv(Step(START, Submit(steps, false)))
  {
    if steps != [] {
      SubmitKeeps(START, steps, false);
    }
  }

  // ---------------------------------------------------------------- the run stands at another step

  lemma TheWrapMines(b: Buy)
    requires RetryHeld(b)
    ensures Stands(WrapMined(b), Preparing(TheSteps(WrapMined(b)), 1, false, false), true, [THE_WRAP]) &&
            Lines(WrapMined(b), true, true, false)
  {
    var sent := Then(Then(Then(b, WalletBack), NetworkBack), Flow(WalletSends(7)));
    TheWrapIsSent(b);
    TheWrapLands(sent);
    TheReceiptIsIn(Then(sent, Flow(Lands(0, 0, true))));
  }

  /**
   * The card remembers the failed step the quote was asked for, not the one the run stands at when it comes back. Here
   * the held retry mined the wrap meanwhile, and the late tail prepares a second wrap of the same order.
   */
  lemma LateTailWrapsTwice()
    ensures PreparesASecondWrap(RefusedThenHeard(WrapMined(AskedThenRetried(WrapRefused(FRESH_CARD)))))
  {
    TheRetryIsHeld();
    TheWrapMines(AskedThenRetried(WrapRefused(FRESH_CARD)));
    TheTailIsLate(WrapMined(AskedThenRetried(WrapRefused(FRESH_CARD))));
  }

  // ---------------------------------------------------------------- the step may have been sent

  /**
   * Wallet and network are back; the wallet refuses the held prompt over its nonce although the wrap went out, so the
   * step is marked as maybe sent; and the wrap mines.
   */
  function WrapMaybeSent(b: Buy): Buy {
    Then(Then(Then(b, WalletBack), NetworkBack), Flow(WalletRefuses(Some(NonceInUse), Some(7))))
  }

  /** The failed step of the order is the wrap, marked as maybe sent. */
  predicate Marked(b: Buy, executed: seq<TxStep>) {
    && Stands(b, Off, true, executed) && Lines(b, true, true, false)
    && b.sys.hook.run == Some(RunRec(TheSteps(b), 0, None)) && MaybeSent(b.sys.hook.state)
  }

  lemma TheWrapIsMaybeSent(b: Buy)
    requires RetryHeld(b)
    ensures Marked(WrapMaybeSent(b), []) &&
            WrapMaybeSent(b).sys.orders[0].flights == [Flight(0, THE_WRAP, 7, false, Pending)]
  {
    var b2 := Then(Then(b, WalletBack), NetworkBack);
    assert b2 == b.(connected := true, online := true, held := false);
    var h := FailStep(b.sys.hook, TheSteps(b), 0, Some(NonceInUse), true);
    assert WrapMaybeSent(b).sys.hook == h;
    assert h.state.steps[0].phase == Error && h.state.steps[0].maybeSent;
  }

  lemma TheMaybeSentWrapLands(b: Buy)
    requires Marked(b, []) && b.sys.orders[0].flights == [Flight(0, THE_WRAP, 7, false, Pending)]
    ensures Marked(Then(b, Flow(Lands(0, 0, true))), [THE_WRAP])
  {
    assert [] + [THE_WRAP] == [THE_WRAP];
  }

  /** The list is the order's, and the step being prepared is its wrap, which has executed. */
  predicate PreparesTheMinedWrap(b: Buy) {
    && b.order.Some? && b.sys.hook.loop == Preparing(b.order.value.steps, 0, false, false)
    && b.order.value.steps != [] && b.order.value.steps[0] == THE_WRAP
    && |b.sys.orders| == 1 && b.sys.orders[0].executed == [THE_WRAP]
  }

  lemma TheMarkedWrapIsTakenUp(b: Buy)
    requires Marked(b, [THE_WRAP])
    ensures PreparesTheMinedWrap(Then(b, QuoteBack(0, None, false)))
  {
    var steps := TheSteps(b);
    assert From(steps, 0) == steps && steps[..0] + steps == steps;
  }

  /**
   * The dialog offers no retry of a step that may have been sent; the late answer's retry does not look. Here the run
   * stands at the very step the quote was asked for, and the wrap that mined is prepared again.
   */
  lemma LateTailResendsAMinedStep()
    ensures var b := WrapMaybeSent(AskedThenRetried(WrapRefused(FRESH_CARD)));
            PreparesTheMinedWrap(Then(Then(b, Flow(Lands(0, 0, true))), QuoteBack(0, None, false)))
  {
    var b := WrapMaybeSent(AskedThenRetried(WrapRefused(FRESH_CARD)));
    TheRetryIsHeld();
    TheWrapIsMaybeSent(AskedThenRetried(WrapRefused(FRESH_CARD)));
    TheMaybeSentWrapLands(b);
    TheMarkedWrapIsTakenUp(Then(b, Flow(Lands(0, 0, true))));
  }

  // ---------------------------------------------------------------- the floor on screen rises under a busy sequence

  const BETTER_DEAL: Candidate := Candidate(2000, DEAL.path, DEAL.tokens)

  /** The floor the order and its steps carry. */
  predicate HasFloor(b: Buy, floor: nat) {
    b.order.Some? && b.order.value.minOut == floor && BuyFloor.ListFloor(TheSteps(b)) == floor
  }

  lemma PressedHasFloor()
    ensures HasFloor(Then(Then(FRESH_CARD, WalletBack), PressBuy(ETH, 1, false, DEAL, "me", false)), 995)
  {
    var o := Submitted(SHOP, 1, ETH, 1, false, DEAL, "me");
    PressBuyIs(SHOP, Then(FRESH_CARD, WalletBack), PressBuy(ETH, 1, false, DEAL, "me", false), o);
    assert o.steps[1] == BuyStep(SHOP, ETH, 1, 995, DEAL.path, "me");
  }

  lemma FloorStays(b: Buy, e: BuyEvent, floor: nat)
    requires HasFloor(b, floor) && !e.PressBuy? && !e.QuoteBack? && !e.PressClose?
    ensures HasFloor(Then(b, e), floor)
  {
    if e.PressTryAgain? {
      TriedAgainIs(b, e.recipient, e.hasPrev);
    }
  }

  lemma TheHeldRetryHasTheFloor()
    ensures HasFloor(AskedThenRetried(WrapRefused(FRESH_CARD)), 995)
  {
    var b1 := Then(Then(FRESH_CARD, WalletBack), PressBuy(ETH, 1, false, DEAL, "me", false));
    PressedHasFloor();
    FloorStays(b1, Flow(PreparationIn(None)), 995);
    FloorStays(Then(b1, Flow(PreparationIn(None))), Flow(WalletRefuses(None, None)), 995);
    AskingHasTheFloor(WrapRefused(FRESH_CARD));
  }

  lemma AskingHasTheFloor(b: Buy)
    requires HasFloor(b, 995)
    ensures HasFloor(AskedThenRetried(b), 995)
  {
    var b1 := Then(b, PressTryAgain("me", false));
    FloorStays(b, PressTryAgain("me", false), 995);
    FloorStays(b1, WalletGone, 995);
    FloorStays(Then(b1, WalletGone), NetworkGone, 995);
    FloorStays(Then(Then(b1, WalletGone), NetworkGone), PressTryAgain("me", false), 995);
  }

  lemma TheQuoteRaisesTheFloor(b: Buy)
    requires RetryHeld(b) && HasFloor(b, 995)
    ensures var b' := Then(b, QuoteBack(0, Some(BETTER_DEAL), false));
            b'.order.Some? && b'.order.value.minOut == 1990 && b'.sys.hook == b.sys.hook
  {
    var o := b.order.value;
    LiveAnswerIs(SHOP, b, 0, Some(BETTER_DEAL), false);
    assert FloorAfter(o, BETTER_DEAL) == 1990;
  }

  /**
   * A better quote comes back while the held retry is due its prompt: the card shows a floor of 1990, and the list
   * being sent buys for 995.
   */
  lemma LateAnswerRaisesTheFloorOnScreen()
    ensures var b := Then(AskedThenRetried(WrapRefused(FRESH_CARD)), QuoteBack(0, Some(BETTER_DEAL), false));
            b.order.Some? && b.order.value.minOut == 1990 && b.sys.hook.loop.Prompted? &&
            BuyFloor.ListFloor(b.sys.hook.loop.steps) == 995 && !BuyFloor.FloorHolds(b)
  {
    TheRetryIsHeld();
    TheHeldRetryHasTheFloor();
    TheQuoteRaisesTheFloor(AskedThenRetried(WrapRefused(FRESH_CARD)));
  }
}
