/**
 * While the network stays, every answer is safe and at its step: a disconnected wallet alone never lets the run move
 * under a quote. So the card keeps all its promises in such runs, and what is sent is the order on screen.
 */
module BuyOnline {
  import opened Wrappers
  import opened TxTypes
  import opened UseTx
  import opened TxFlow
  import BestRoute
  import opened BuyOrder
  import opened BuyFlow
  import opened BuyFloor
  import opened BuyRows
  import opened BuySafety

  /** The dialog offers "Try again", at this step. */
  predicate StandsAt(s: Sys, i: nat) { Enabled(s, TryAgain(None, false)) && FailedAt(s.hook.state.steps) == i }

  /** A quote is out for the open order only while its failed step waits for it, or the sequence was reset meanwhile. */
  predicate Awaited(b: Buy, k: nat)
    requires k < |b.out|
  {
    IsLive(b, k) ==> b.sys.hook == INITIAL || StandsAt(b.sys, b.out[k].failedAt)
  }

  predicate AllAwaited(b: Buy) { forall k :: 0 <= k < |b.out| ==> Awaited(b, k) }

  /** The list is the order on screen, unless the user was since shown a quote below its floor. */
  predicate OnScreen(b: Buy) {
    b.order.Some? && b.order.value.repriced.None? && b.sys.hook.run.Some? ==>
      b.sys.hook.run.value.steps == b.order.value.steps
  }

  predicate OnlineInv(dir: Directory, b: Buy) {
    && RowsOk(dir, b) && Inv(b.sys) && FloorHolds(b)
    && b.online && !b.held && AllAwaited(b) && OnScreen(b)
  }

  // ---------------------------------------------------------------- a retry without a wallet

  lemma {:induction false} OneErrorIsNotMaybeSent(steps: seq<StepState>, i: nat)
    requires i < |steps| && steps[i].phase == Error && !steps[i].maybeSent
    requires forall j :: 0 <= j < |steps| && j != i ==> steps[j].phase != Error
    ensures FailedAt(steps) == i && forall j :: 0 <= j < |steps| && steps[j].phase == Error ==> !steps[j].maybeSent
  {
    FailedAtIs(steps, i);
  }

  /** What a retry without a wallet has in hand when its prompt is due. */
  lemma DueAtOnceIs(s: Sys)
    requires Inv(s) && HookOk(s.hook) && Enabled(s, TryAgain(None, false))
    ensures s.hook.run.Some? && s.hook.run.value.failedAt >= 0 && DueAtOnce(s).open == s.open && Inv(DueAtOnce(s))
    ensures DueAtOnce(s).hook.loop == Prompted(s.hook.run.value.steps, s.hook.run.value.failedAt, None)
  {
    ErrorStateHasAFailedRun(s);
    ResumeMoves(s.hook, None, false);
    DueAtOnceLeads(s);
    RunKeeps(s, [TryAgain(None, false)] + [PreparationIn(None)]);
    assert Spliced(s.hook.run.value, None) == s.hook.run.value.steps;
    FlowKeepsOpen(Retried(s, None, false), PreparationIn(None));
  }

  lemma RefusalFailsThere(s: Sys, steps: seq<TxStep>, i: nat)
    requires Inv(s) && s.hook.loop == Prompted(steps, i, None) && s.open.Some?
    ensures StandsAt(RefusedAtOnce(s), i)
  {
    OwnerIsKnown(s);
    var h := FailStep(s.hook, steps, i, None, false);
    assert RefusedAtOnce(s) == s.(hook := h);
    OneErrorIsNotMaybeSent(h.state.steps, i);
    WalletRefusesKeeps(s, None);
  }

  /** It fails again at its own step, with nothing sent. */
  lemma RetryWithoutWalletStands(s: Sys, i: nat)
    requires Inv(s) && HookOk(s.hook) && StandsAt(s, i)
    ensures StandsAt(RefusedAtOnce(DueAtOnce(s)), i)
  {
    ErrorStateHasAFailedRun(s);
    DueAtOnceIs(s);
    RefusalFailsThere(DueAtOnce(s), s.hook.run.value.steps, i);
  }

  /** What a click on "Try again" is without a wallet: with the network there the step fails anew, nothing sent. */
  lemma TryAgainWithoutAWallet(b: Buy, recipient: Address, hasPrev: bool)
    requires Inv(b.sys) && HookOk(b.sys.hook) && b.order.Some? && Enabled(b.sys, TryAgain(None, false))
    requires !b.connected && b.online
    ensures var b', i := TriedAgain(b, recipient, hasPrev), FailedAt(b.sys.hook.state.steps);
            && 0 <= i < |b'.sys.hook.state.steps| && b'.sys.hook.state.steps[i].conflict.None?
            && b'.order == b.order && b'.out == b.out && StandsAt(b'.sys, i)
            && b'.sys.orders == b.sys.orders && b'.sys.count == b.sys.count
  {
    var s := b.sys;
    ErrorStateHasAFailedRun(s);
    DueAtOnceIs(s);
    RetryWithoutWalletStands(s, FailedAt(s.hook.state.steps));
    RefusedLeaves(s);
  }

  lemma RefusedLeaves(s: Sys)
    requires Inv(s) && HookOk(s.hook) && Enabled(s, TryAgain(None, false))
    ensures var s', i := RefusedAtOnce(DueAtOnce(s)), FailedAt(s.hook.state.steps);
            && s'.orders == s.orders && s'.count == s.count
            && 0 <= i < |s'.hook.state.steps| && s'.hook.state.steps[i].conflict.None?
  {
    ErrorStateHasAFailedRun(s);
    DueAtOnceIs(s);
    var s1 := Retried(s, None, false);
    OwnerIsKnown(s);
    assert s1.orders == s.orders;
    var due := DueAtOnce(s);
    OwnerIsKnown(due);
    assert due.orders == s.orders;
  }

  /** With the network gone too its prompt is due, and held until the network is back. */
  lemma TryAgainOffline(b: Buy, recipient: Address, hasPrev: bool)
    requires Inv(b.sys) && HookOk(b.sys.hook) && b.order.Some? && Enabled(b.sys, TryAgain(None, false))
    requires !b.connected && !b.online
    ensures var b' := TriedAgain(b, recipient, hasPrev);
            && b'.order == b.order && b'.out == b.out && b'.held
            && b'.sys.hook.loop == Prompted(b.sys.hook.run.value.steps, b.sys.hook.run.value.failedAt, None)
  {
    ErrorStateHasAFailedRun(b.sys);
    DueAtOnceIs(b.sys);
  }

  // ---------------------------------------------------------------- awaited answers are fine

  lemma AwaitedAnswerIsFine(dir: Directory, b: Buy, e: BuyEvent)
    requires OnlineInv(dir, b)
    ensures AtItsStep(b, e) && Sure(b, e)
  {
    if BuyEnabled(b, e) && e.QuoteBack? && Resends(b, e.k, e.answer) {
      assert Awaited(b, e.k);
      ErrorStateHasAFailedRun(b.sys);
    }
  }

  lemma AwaitedAnswerKeepsTheFloor(dir: Directory, b: Buy, e: BuyEvent)
    requires OnlineInv(dir, b)
    ensures FloorSafe(b, e)
  {
    if BuyEnabled(b, e) && e.QuoteBack? && IsLive(b, e.k) && e.answer.Some? && Unfinished(b.sys.hook) &&
       !Resends(b, e.k, e.answer) {
      assert Awaited(b, e.k);
      ErrorStateHasAFailedRun(b.sys);
      BelowTheFloorIsSafe(b.order.value, e.answer.value, b.sys.hook.run.value.steps);
    }
  }

  // ---------------------------------------------------------------- and stay awaited

  /** A failed run waits: nothing but a change of input touches the hook. */
  lemma FlowLeavesFailedRunAlone(s: Sys, ev: Event)
    requires HookOk(s.hook) && IsFlow(ev) && (s.hook == INITIAL || Enabled(s, TryAgain(None, false)))
    ensures Step(s, ev).hook == s.hook || Step(s, ev).hook == INITIAL
  {
    if s.hook != INITIAL {
      ErrorStateHasAFailedRun(s);
    }
  }

  lemma FlowKeepsAwaited(dir: Directory, b: Buy, ev: Event)
    requires OnlineInv(dir, b) && IsFlow(ev)
    ensures AllAwaited(b.(sys := Step(b.sys, ev)))
  {
    var b' := b.(sys := Step(b.sys, ev));
    FlowKeepsOpen(b.sys, ev);
    forall k | 0 <= k < |b.out| ensures Awaited(b', k) {
      assert Awaited(b, k);
      if IsLive(b, k) {
        FlowLeavesFailedRunAlone(b.sys, ev);
      }
    }
  }

  lemma RefusedRetryKeepsAwaited(b: Buy, s: Sys)
    requires Inv(b.sys) && HookOk(b.sys.hook) && AllAwaited(b) && Enabled(b.sys, TryAgain(None, false))
    requires s == RefusedAtOnce(DueAtOnce(b.sys))
    ensures AllAwaited(b.(sys := s))
  {
    ErrorStateHasAFailedRun(b.sys);
    RetryWithoutWalletStands(b.sys, FailedAt(b.sys.hook.state.steps));
    forall k | 0 <= k < |b.out| ensures Awaited(b.(sys := s), k) {
      assert Awaited(b, k);
    }
  }

  lemma AskingKeepsAwaited(b: Buy, o: Order, recipient: Address)
    requires HookOk(b.sys.hook) && AllAwaited(b) && Enabled(b.sys, TryAgain(None, false))
    requires b.order.Some? && o.id == b.order.value.id && FailedAt(b.sys.hook.state.steps) >= 0
    ensures AllAwaited(b.(order := Some(o),
                          out := b.out + [Asked(o.id, FailedAt(b.sys.hook.state.steps), recipient)]))
  {
    var b' := b.(order := Some(o), out := b.out + [Asked(o.id, FailedAt(b.sys.hook.state.steps), recipient)]);
    forall k | 0 <= k < |b'.out| ensures Awaited(b', k) {
      assert k < |b.out| ==> Awaited(b, k);
    }
  }

  lemma TryAgainKeepsAwaited(dir: Directory, b: Buy, e: BuyEvent)
    requires OnlineInv(dir, b) && BuyEnabled(b, e) && e.PressTryAgain?
    ensures AllAwaited(BuyEffect(dir, b, e))
  {
    ErrorStateHasAFailedRun(b.sys);
    if !b.connected {
      RefusedRetryKeepsAwaited(b, RefusedAtOnce(DueAtOnce(b.sys)));
    } else if !b.order.value.requoting {
      AskingKeepsAwaited(b, b.order.value.(requoting := true), e.recipient);
    }
  }

  lemma AnswerKeepsAwaited(dir: Directory, b: Buy, k: nat, answer: Option<BestRoute.Candidate>, hasPrev: bool)
    requires OnlineInv(dir, b) && k < |b.out|
    ensures AllAwaited(Answered(dir, b, k, answer, hasPrev))
  {
    var b' := Answered(dir, b, k, answer, hasPrev);
    WithoutKeeps(b.out, k, if b.order.Some? then b.order.value.id else b.ids + 1, b.ids);
    forall j | 0 <= j < |b'.out| ensures Awaited(b', j) {
      assert Awaited(b, if j < k then j else j + 1);
    }
  }

  lemma OthersKeepAwaited(dir: Directory, b: Buy, e: BuyEvent)
    requires OnlineInv(dir, b) && BuyEnabled(b, e)
    requires e.PressBuy? || e.PressClose? || e.WalletGone? || e.WalletBack?
    ensures AllAwaited(BuyEffect(dir, b, e))
  {
    var b' := BuyEffect(dir, b, e);
    forall k | 0 <= k < |b'.out| ensures Awaited(b', k) {
      assert Awaited(b, k);
    }
  }

  // ---------------------------------------------------------------- and the list stays the order's

  lemma CarriedOnScreen(b: Buy, b': Buy)
    requires OnScreen(b) && Carries(b.sys.hook, b'.sys.hook)
    requires b'.order.Some? ==> b.order.Some? && b'.order.value.steps == b.order.value.steps &&
                                b'.order.value.repriced == b.order.value.repriced
    ensures OnScreen(b')
  {
  }

  lemma AwaitedIs(b: Buy, k: nat)
    requires HookOk(b.sys.hook) && k < |b.out| && Awaited(b, k) && IsLive(b, k)
    ensures b.sys.hook == INITIAL ||
            (Resumes(b.sys.hook) && b.sys.hook.run.value.failedAt == b.out[k].failedAt)
  {
    if b.sys.hook != INITIAL {
      ErrorStateHasAFailedRun(b.sys);
    }
  }

  lemma LiveAnswerOnScreen(dir: Directory, b: Buy, k: nat, answer: Option<BestRoute.Candidate>, hasPrev: bool)
    requires RowsOk(dir, b) && BuyEnabled(b, QuoteBack(k, answer, hasPrev)) && IsLive(b, k) && Awaited(b, k)
    ensures OnScreen(Answered(dir, b, k, answer, hasPrev))
  {
    var o, h := b.order.value, b.sys.hook;
    var o' := Requoted(dir, o, answer, b.out[k].recipient);
    AwaitedIs(b, k);
    LiveAnswerIs(dir, b, k, answer, hasPrev);
    if Resends(b, k, answer) {
      RequotedAgrees(dir, o, answer, b.out[k].recipient);
      TakenUpAtItsStep(dir, h, o, o', hasPrev);
    }
  }

  lemma TriedAgainStaysOnScreen(b: Buy, recipient: Address, hasPrev: bool)
    requires HookOk(b.sys.hook) && OnScreen(b) && b.order.Some?
    ensures OnScreen(TriedAgain(b, recipient, hasPrev))
  {
    TriedAgainIs(b, recipient, hasPrev);
    TriedAgainMoves(b, recipient, hasPrev);
    CarriedOnScreen(b, TriedAgain(b, recipient, hasPrev));
  }

  lemma StepStaysOnScreen(dir: Directory, b: Buy, e: BuyEvent)
    requires OnlineInv(dir, b) && BuyEnabled(b, e)
    ensures OnScreen(BuyEffect(dir, b, e))
  {
    if e.QuoteBack? {
      if IsLive(b, e.k) {
        assert Awaited(b, e.k);
        LiveAnswerOnScreen(dir, b, e.k, e.answer, e.hasPrev);
      }
    } else if e.PressBuy? {
      PressBuyKeeps(dir, b, e);
    } else if e.PressTryAgain? {
      TriedAgainStaysOnScreen(b, e.recipient, e.hasPrev);
    } else {
      OthersMove(dir, b, e);
      if !e.PressClose? {
        CarriedOnScreen(b, BuyEffect(dir, b, e));
      }
    }
  }

  lemma StepKeepsAwaited(dir: Directory, b: Buy, e: BuyEvent)
    requires OnlineInv(dir, b) && BuyEnabled(b, e) && !e.NetworkGone?
    ensures AllAwaited(BuyEffect(dir, b, e)) && BuyEffect(dir, b, e).online && !BuyEffect(dir, b, e).held
  {
    if e.PressTryAgain? {
      TryAgainKeepsAwaited(dir, b, e);
    } else if e.QuoteBack? {
      AnswerKeepsAwaited(dir, b, e.k, e.answer, e.hasPrev);
    } else if e.Flow? {
      FlowKeepsAwaited(dir, b, e.event);
    } else {
      OthersKeepAwaited(dir, b, e);
    }
  }

  lemma OnlineStepKeeps(dir: Directory, b: Buy, e: BuyEvent)
    requires OnlineInv(dir, b) && !e.NetworkGone? && AtItsStep(b, e) && Sure(b, e) && FloorSafe(b, e)
    ensures OnlineInv(dir, BuyStepped(dir, b, e))
  {
    StepFits(dir, b, e);
    AnswerKeepsTheFloorExactly(dir, b, e);
    var fs := StepLeads(dir, b, e);
    RunKeeps(b.sys, fs);
    if BuyEnabled(b, e) {
      StepKeepsAwaited(dir, b, e);
      StepStaysOnScreen(dir, b, e);
    }
  }

  lemma {:induction false} OnlineRunKeeps(dir: Directory, b: Buy, es: seq<BuyEvent>)
    requires OnlineInv(dir, b) && NetworkGone !in es
    ensures AllAtTheirStep(dir, b, es) && AllSure(dir, b, es) && AllFloorSafe(dir, b, es)
    ensures OnlineInv(dir, BuyExec(dir, b, es))
    decreases |es|
  {
    if es != [] {
      AwaitedAnswerIsFine(dir, b, es[0]);
      AwaitedAnswerKeepsTheFloor(dir, b, es[0]);
      OnlineStepKeeps(dir, b, es[0]);
      OnlineRunKeeps(dir, BuyStepped(dir, b, es[0]), es[1..]);
    }
  }

  /**
   * In every run in which the network stays, wallets coming and going as they like, every answer is safe for the floor,
   * at its step and sure; so the theorems of the buy hold of all such runs.
   */
  lemma OnlineRunsFit(dir: Directory, es: seq<BuyEvent>)
    requires NetworkGone !in es
    ensures AllAtTheirStep(dir, FRESH_CARD, es) && AllSure(dir, FRESH_CARD, es) && AllFloorSafe(dir, FRESH_CARD, es)
  {
    OnlineRunKeeps(dir, FRESH_CARD, es);
  }

  /**
   * And whenever a list is worked through it is the one on screen: the same steps, the buy at no lower floor, and
   * exactly the buy on screen unless the user was meanwhile shown a quote below the floor.
   */
  lemma OnlineRunsSendTheOrderOnScreen(dir: Directory, es: seq<BuyEvent>)
    requires NetworkGone !in es && Unfinished(BuyExec(dir, FRESH_CARD, es).sys.hook)
    ensures var b := BuyExec(dir, FRESH_CARD, es);
            var steps := b.sys.hook.run.value.steps;
            b.order.Some? && Agrees(dir, b.order.value) && ListFits(dir, b.order.value, steps) &&
            KeepsFloor(b.order.value, steps) && (b.order.value.repriced.None? ==> steps == b.order.value.steps)
  {
    OnlineRunKeeps(dir, FRESH_CARD, es);
  }
}
