/** The floor on screen: exactly which answers, over all runs of the card, leave it below what is being sent. */
module BuyFloor {
  import opened Wrappers
  import opened TxTypes
  import opened UseTx
  import opened TxFlow
  import opened BestRoute
  import opened BuyOrder
  import opened BuyFlow

  /** The floor the list's buy carries. */
  function ListFloor(steps: seq<TxStep>): nat {
    if steps != [] && steps[|steps| - 1].call.SwapWithRoute? then steps[|steps| - 1].call.minOut else 0
  }

  /** The list ends in a buy that keeps the order's floor. */
  predicate KeepsFloor(o: Order, steps: seq<TxStep>) {
    steps != [] && steps[|steps| - 1].call.SwapWithRoute? && o.minOut <= ListFloor(steps)
  }

  /** What the sequence sends, waits in or would take up again buys for at least the floor on screen. */
  predicate FloorHolds(b: Buy) {
    Unfinished(b.sys.hook) ==> b.order.Some? && KeepsFloor(b.order.value, b.sys.hook.run.value.steps)
  }

  /**
   * What an answer has to be for that, where the card can look before it shows it: if the list stays what it is, at
   * work, waiting or failed, a fresh floor no higher than the list's. Where the tail is taken up anything will do.
   */
  predicate FloorSafe(b: Buy, e: BuyEvent) {
    BuyEnabled(b, e) && e.QuoteBack? && IsLive(b, e.k) && e.answer.Some? && Unfinished(b.sys.hook) &&
    !Resends(b, e.k, e.answer) ==>
      WithSlippage(e.answer.value.amountOut) <= ListFloor(b.sys.hook.run.value.steps)
  }

  lemma NewFloor(dir: Directory, o: Order, answer: Option<Candidate>, recipient: Address, steps: seq<TxStep>)
    requires KeepsFloor(o, steps)
    ensures KeepsFloor(Requoted(dir, o, answer, recipient), steps) <==>
              answer.None? || WithSlippage(answer.value.amountOut) <= ListFloor(steps)
  {
  }

  lemma BelowTheFloorIsSafe(o: Order, answer: Candidate, steps: seq<TxStep>)
    requires KeepsFloor(o, steps) && !Reachable(o, answer)
    ensures WithSlippage(answer.amountOut) <= ListFloor(steps)
  {
    SlippageIsBelowTheQuote(answer.amountOut);
  }

  /** A tail taken up ends in the rebuilt buy, at the rebuilt floor. */
  lemma TakenUpKeepsFloor(dir: Directory, h: Hook, o: Order, failedAt: nat, hasPrev: bool)
    requires HookOk(h) && Resumes(h) && Agrees(dir, o)
    ensures var h' := OnRetry(h, Some(From(o.steps, failedAt)), hasPrev);
            Unfinished(h') ==> KeepsFloor(o, h'.run.value.steps)
  {
    var tail := From(o.steps, failedAt);
    ResumeMoves(h, Some(tail), hasPrev);
    if tail != [] {
      var steps := Spliced(h.run.value, Some(tail));
      assert steps[|steps| - 1] == tail[|tail| - 1] == o.steps[|o.steps| - 1];
    }
  }

  lemma LiveAnswerFloor(dir: Directory, b: Buy, k: nat, answer: Option<Candidate>, hasPrev: bool)
    requires CardOk(dir, b) && FloorHolds(b) && BuyEnabled(b, QuoteBack(k, answer, hasPrev)) && IsLive(b, k)
    ensures FloorHolds(Answered(dir, b, k, answer, hasPrev)) <==> FloorSafe(b, QuoteBack(k, answer, hasPrev))
  {
    var p, o, h := b.out[k], b.order.value, b.sys.hook;
    var o' := Requoted(dir, o, answer, p.recipient);
    LiveAnswerIs(dir, b, k, answer, hasPrev);
    RequotedAgrees(dir, o, answer, p.recipient);
    if Resends(b, k, answer) {
      TakenUpKeepsFloor(dir, h, o', p.failedAt, hasPrev);
    } else {
      if !Resumes(h) {
        OtherRetryMoves(h, Some(From(o'.steps, p.failedAt)), hasPrev);
      }
      if Unfinished(h) {
        NewFloor(dir, o, answer, p.recipient, h.run.value.steps);
        if answer.Some? && !Reachable(o, answer.value) {
          BelowTheFloorIsSafe(o, answer.value, h.run.value.steps);
        }
      }
    }
  }

  /** A list carried on under the same floor. */
  lemma FloorStays(b: Buy, b': Buy)
    requires FloorHolds(b) && Carries(b.sys.hook, b'.sys.hook)
    requires b.order.Some? ==> b'.order.Some? && b'.order.value.minOut == b.order.value.minOut
    ensures FloorHolds(b')
  {
  }

  lemma PressBuyFloor(dir: Directory, b: Buy, e: BuyEvent)
    requires CardOk(dir, b) && BuyEnabled(b, e) && e.PressBuy?
    ensures FloorHolds(BuyEffect(dir, b, e))
  {
    PressBuyKeeps(dir, b, e);
  }

  lemma TryAgainFloor(dir: Directory, b: Buy, e: BuyEvent)
    requires CardOk(dir, b) && FloorHolds(b) && BuyEnabled(b, e) && e.PressTryAgain?
    ensures FloorHolds(BuyEffect(dir, b, e))
  {
    TriedAgainIs(b, e.recipient, e.hasPrev);
    TriedAgainMoves(b, e.recipient, e.hasPrev);
    FloorStays(b, TriedAgain(b, e.recipient, e.hasPrev));
  }

  lemma OtherEventsFloor(dir: Directory, b: Buy, e: BuyEvent)
    requires CardOk(dir, b) && FloorHolds(b) && BuyEnabled(b, e)
    requires e.PressClose? || e.Flow? || e.WalletGone? || e.WalletBack? || e.NetworkGone? || e.NetworkBack?
    ensures FloorHolds(BuyEffect(dir, b, e))
  {
    OthersMove(dir, b, e);
    if !e.PressClose? {
      FloorStays(b, BuyEffect(dir, b, e));
    }
  }

  /** In any state the card can be in with its floor kept, an answer keeps the floor exactly when it is safe. */
  lemma AnswerKeepsTheFloorExactly(dir: Directory, b: Buy, e: BuyEvent)
    requires CardOk(dir, b) && FloorHolds(b)
    ensures FloorHolds(BuyStepped(dir, b, e)) <==> FloorSafe(b, e)
  {
    if BuyEnabled(b, e) {
      if e.QuoteBack? {
        if IsLive(b, e.k) {
          LiveAnswerFloor(dir, b, e.k, e.answer, e.hasPrev);
        }
      } else if e.PressBuy? {
        PressBuyFloor(dir, b, e);
      } else if e.PressTryAgain? {
        TryAgainFloor(dir, b, e);
      } else {
        OtherEventsFloor(dir, b, e);
      }
    }
  }

  predicate FloorThroughout(dir: Directory, b: Buy, es: seq<BuyEvent>)
    decreases |es|
  {
    FloorHolds(b) && (es == [] || FloorThroughout(dir, BuyStepped(dir, b, es[0]), es[1..]))
  }

  predicate AllFloorSafe(dir: Directory, b: Buy, es: seq<BuyEvent>)
    decreases |es|
  {
    es == [] || (FloorSafe(b, es[0]) && AllFloorSafe(dir, BuyStepped(dir, b, es[0]), es[1..]))
  }

  lemma {:induction false} RunKeepsTheFloorExactly(dir: Directory, b: Buy, es: seq<BuyEvent>)
    requires CardOk(dir, b) && FloorHolds(b)
    ensures FloorThroughout(dir, b, es) <==> AllFloorSafe(dir, b, es)
    decreases |es|
  {
    if es != [] {
      AnswerKeepsTheFloorExactly(dir, b, es[0]);
      BuyStepKeeps(dir, b, es[0]);
      if FloorSafe(b, es[0]) {
        RunKeepsTheFloorExactly(dir, BuyStepped(dir, b, es[0]), es[1..]);
      }
    }
  }

  /**
   * Over every run of clicks, quotes however late, wallets and networks that come and go, wallet answers and blocks:
   * the floor on screen is what is being sent, all the way, if and only if every answer is safe when it comes.
   */
  lemma EveryBuyKeepsTheFloor(dir: Directory, es: seq<BuyEvent>)
    ensures FloorThroughout(dir, FRESH_CARD, es) <==> AllFloorSafe(dir, FRESH_CARD, es)
  {
    RunKeepsTheFloorExactly(dir, FRESH_CARD, es);
  }
}
