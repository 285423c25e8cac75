/**
 * What the sequence's state says of each step, in every reachable state: its number, its hash, its note, its conflict
 * and its mark; which failures may be tried again; and what cancelling a preparation comes to.
 */
module TxShown {
  import opened Wrappers
  import opened TxTypes
  import opened UseTx
  import opened TxFlow

  /** A mark belongs to a conflict, both to a failed step; what is done has a hash, what is not sent yet has none. */
  predicate StepTold(x: StepState) {
    && (x.maybeSent ==> x.conflict.Some?) && (x.conflict.Some? ==> x.phase == Error)
    && (x.phase == Done || x.phase == Mining ==> x.hash.Some?)
    && (x.phase == Todo || x.phase == Signing ==> x.hash.None?)
  }

  predicate StepsTold(s: SeqState) { forall j :: 0 <= j < |s.steps| ==> StepTold(s.steps[j]) }

  /** The step the state names is the one in hand, or failed, or the number of steps when all are done. */
  predicate Numbered(h: Hook) {
    && h.state.total == |h.state.steps|
    && (h.state.done ==> h.state.step == h.state.total)
    && (if h.loop.Off? then h.run.Some? && h.run.value.failedAt >= 0 ==> h.state.step == h.run.value.failedAt
        else !(h.loop.Preparing? && h.loop.aborted) ==> h.state.step == h.loop.i)
  }

  /** The hash waited for, in the loop or held, is the one shown. */
  predicate HashShown(h: Hook) {
    && (h.loop.AwaitReceipt? ==>
          h.loop.i < |h.state.steps| && h.state.steps[h.loop.i].hash == Some(h.loop.hash))
    && (h.loop.Off? && h.run.Some? && h.run.value.waitingHash.Some? ==>
          0 <= h.run.value.failedAt < |h.state.steps| &&
          h.state.steps[h.run.value.failedAt].hash == h.run.value.waitingHash)
  }

  /** The wait for the wallet is noted on the step in hand, while it lasts; a step that failed in it keeps the note. */
  predicate NoteShown(h: Hook) {
    && (h.state.syncing ==> h.loop.Preparing? && h.loop.i < |h.state.steps| && h.state.steps[h.loop.i].note)
    && (forall j :: 0 <= j < |h.state.steps| && h.state.steps[j].note ==>
          h.state.steps[j].phase == Error || (h.state.syncing && h.loop.Preparing? && j == h.loop.i))
  }

  predicate Shown(h: Hook) { StepsTold(h.state) && Numbered(h) && HashShown(h) && NoteShown(h) }

  lemma TakenUpShown(h: Hook, steps: seq<TxStep>, from: nat, hasPrev: bool)
    requires Shown(h) && h.loop.Off? && from < |steps|
    ensures Shown(RunFrom(h, steps, from, None, hasPrev))
  {
  }

  lemma ClicksWhileIdle(s: Sys, e: Event)
    requires Inv(s) && Shown(s.hook) && Enabled(s, e) && (e.Submit? || e.Close? || e.InputChanged?)
    ensures s.hook.loop.Off? || s.hook.loop.Preparing?
    ensures e.Submit? && s.hook.loop.Preparing? ==> s.hook.loop.aborted
  {
    if s.hook != INITIAL {
      OwnerIsKnown(s);
    }
  }

  lemma ClickShown(s: Sys, e: Event)
    requires Inv(s) && Shown(s.hook) && Enabled(s, e) && (e.Submit? || e.Close? || e.InputChanged?)
    ensures Shown(Effect(s, e).hook)
  {
    ClicksWhileIdle(s, e);
    if e.Submit? && s.hook.loop.Off? {
      TakenUpShown(s.hook, e.steps, 0, e.hasPrev);
    }
  }

  lemma KeepWaitingShown(s: Sys)
    requires Inv(s) && Shown(s.hook) && Enabled(s, PressKeepWaiting)
    ensures Shown(Effect(s, PressKeepWaiting).hook)
  {
    OwnerIsKnown(s);
  }

  lemma FailedRunIs(s: Sys)
    requires Inv(s) && StatusOf(s.hook.state) == IsError
    ensures Resumes(s.hook) && s.hook.run.value.failedAt < |s.hook.run.value.steps| == |s.hook.state.steps|
  {
    OwnerIsKnown(s);
  }

  lemma RetryShown(s: Sys, e: Event)
    requires Inv(s) && Shown(s.hook) && Enabled(s, e) && e.TryAgain?
    ensures Shown(Effect(s, e).hook)
  {
    FailedRunIs(s);
    var r := s.hook.run.value;
    if r.failedAt < |Spliced(r, e.remaining)| {
      TakenUpShown(s.hook, Spliced(r, e.remaining), r.failedAt, e.hasPrev);
    }
  }

  lemma PreparationShown(s: Sys, e: Event)
    requires Inv(s) && Shown(s.hook) && Enabled(s, e) && IsPreparation(e)
    ensures Shown(Effect(s, e).hook)
  {
    OwnerIsKnown(s);
  }

  /** The list on show has as many states as the run has steps, the one in hand among them. */
  predicate InHand(h: Hook) { !h.loop.Off? && h.loop.i < |h.loop.steps| == |h.state.steps| }

  predicate NoneFailed(s: SeqState) { forall j :: 0 <= j < |s.steps| ==> s.steps[j].phase != Error }

  predicate NextToDo(h: Hook)
    requires !h.loop.Off?
  {
    h.loop.i + 1 < |h.state.steps| ==> h.state.steps[h.loop.i + 1].phase == Todo
  }

  lemma InHandAtWork(s: Sys)
    requires Inv(s) && (s.hook.loop.Prompted? || s.hook.loop.AwaitCount? || s.hook.loop.AwaitReceipt?)
    ensures InHand(s.hook) && InProgress(s.hook.state) && !s.hook.state.syncing
    ensures s.hook.run == Some(RunRec(s.hook.loop.steps, -1, None))
    ensures NoneFailed(s.hook.state) && NextToDo(s.hook)
  {
    OwnerIsKnown(s);
  }

  lemma FailShown(h: Hook, conflict: Option<SendConflict>, maybeSent: bool)
    requires Shown(h) && InHand(h) && !h.state.done && (maybeSent ==> conflict.Some?)
    requires !(h.loop.Preparing? && h.loop.aborted)
    ensures Shown(FailStep(h, h.loop.steps, h.loop.i, conflict, maybeSent))
  {
  }

  lemma SentShown(h: Hook, hash: Hash)
    requires Shown(h) && InHand(h) && h.loop.Prompted? && !h.state.syncing && !h.state.done && NoneFailed(h.state)
    ensures Shown(OnWalletSends(h, hash))
  {
  }

  lemma WalletShown(s: Sys, e: Event)
    requires Inv(s) && Shown(s.hook) && Enabled(s, e) && IsWallets(e)
    ensures Shown(Effect(s, e).hook)
  {
    InHandAtWork(s);
    if e.WalletRefuses? {
      FailShown(s.hook, e.conflict, e.conflict.Some?);
    } else {
      SentShown(s.hook, e.hash);
    }
  }

  lemma MinedShown(h: Hook, mined: Hash, hasPrev: bool)
    requires Shown(h) && InHand(h) && h.loop.AwaitReceipt? && !h.state.syncing && !h.state.done
    requires h.run == Some(RunRec(h.loop.steps, -1, None)) && NoneFailed(h.state) && NextToDo(h)
    ensures Shown(OnReceiptOk(h, mined, hasPrev))
  {
  }

  lemma ReceiptShown(s: Sys, e: Event)
    requires Inv(s) && Shown(s.hook) && Enabled(s, e) && (e.ReceiptArrives? || e.ReceiptLost?)
    ensures Shown(Effect(s, e).hook)
  {
    InHandAtWork(s);
    FailShown(s.hook, None, false);
    if e.ReceiptArrives? {
      MinedShown(s.hook, e.mined, e.hasPrev);
    }
  }

  lemma CountShown(s: Sys, e: Event)
    requires Inv(s) && Shown(s.hook) && Enabled(s, e) && e.CountAnswers?
    ensures Shown(Effect(s, e).hook)
  {
    InHandAtWork(s);
    var after := if e.readable then Some(s.count) else None;
    FailShown(s.hook, Some(s.hook.loop.conflict), after != Some(s.hook.loop.before));
  }

  lemma ChainShown(s: Sys, e: Event)
    requires Shown(s.hook) && Enabled(s, e) && (e.Lands? || e.OtherTransaction?)
    ensures Shown(Effect(s, e).hook)
  {
  }

  lemma AnyClickShown(s: Sys, e: Event)
    requires Inv(s) && Shown(s.hook) && Enabled(s, e) && IsClick(e)
    ensures Shown(Effect(s, e).hook)
  {
    if e.TryAgain? {
      RetryShown(s, e);
    } else if e.PressKeepWaiting? {
      KeepWaitingShown(s);
    } else {
      ClickShown(s, e);
    }
  }

  lemma StepShown(s: Sys, e: Event)
    requires Inv(s) && Shown(s.hook)
    ensures Shown(Step(s, e).hook)
  {
    if Enabled(s, e) {
      if IsClick(e) {
        AnyClickShown(s, e);
      } else if IsPreparation(e) {
        PreparationShown(s, e);
      } else if IsWallets(e) {
        WalletShown(s, e);
      } else if e.ReceiptArrives? || e.ReceiptLost? {
        ReceiptShown(s, e);
      } else if e.CountAnswers? {
        CountShown(s, e);
      } else {
        ChainShown(s, e);
      }
    }
  }

  lemma {:induction false} RunShown(s: Sys, es: seq<Event>)
    requires Inv(s) && Shown(s.hook)
    ensures Shown(Exec(s, es).hook)
    decreases |es|
  {
    if es != [] {
      StepShown(s, es[0]);
      StepKeeps(s, es[0]);
      RunShown(Step(s, es[0]), es[1..]);
    }
  }

  /**
   * In every reachable state: marks go with conflicts and both with a failed step, what is done has a hash, the hash
   * waited for is on its step, the step named is the one in hand, and the wait for the wallet is noted there.
   */
  lemma StateTellsTheRun(es: seq<Event>)
    ensures Shown(Exec(START, es).hook)
  {
    RunShown(START, es);
  }

  // ---------------------------------------------------------------- what a failure says

  /** What ends the step in hand without a hash to wait for. */
  predicate Fails(s: Sys, e: Event) {
    && Enabled(s, e)
    && (|| e.EstimateReverts?
        || (e.WalletRefuses? && (e.conflict.None? || e.conflict == Some(AlreadySent) || s.hook.loop.countBefore.None?))
        || e.CountAnswers?
        || (e.ReceiptArrives? && LastFate(s.orders[s.owner]) == Failed))
  }

  /** Something of this step may have gone out: over its nonce, with the count not there to tell, or moved. */
  predicate MayHaveGoneOut(s: Sys, e: Event)
    requires Enabled(s, e)
  {
    (e.WalletRefuses? && e.conflict.Some?) || (e.CountAnswers? && (!e.readable || s.count != s.hook.loop.before))
  }

  /** The nonce conflict it failed over, if any. */
  function ConflictOf(s: Sys, e: Event): Option<SendConflict>
    requires Enabled(s, e)
  {
    match e
    case WalletRefuses(conflict, _) => conflict
    case CountAnswers(_) => Some(s.hook.loop.conflict)
    case _ => None
  }

  predicate FailsAt(h: Hook, steps: seq<TxStep>, i: nat, conflict: Option<SendConflict>, marked: bool) {
    && h.loop.Off? && h.run == Some(RunRec(steps, i, None)) && i < |h.state.steps| && h.state.failed && !h.state.running
    && h.state.steps[i].phase == Error && h.state.steps[i].conflict == conflict
    && (h.state.steps[i].maybeSent <==> marked)
  }

  lemma FailStepFails(h: Hook, conflict: Option<SendConflict>, maybeSent: bool)
    requires InHand(h)
    ensures FailsAt(FailStep(h, h.loop.steps, h.loop.i, conflict, maybeSent), h.loop.steps, h.loop.i, conflict,
                    maybeSent)
  {
  }

  lemma EstimateInHand(s: Sys)
    requires Inv(s) && Enabled(s, EstimateReverts)
    ensures InHand(s.hook)
  {
    OwnerIsKnown(s);
  }

  lemma FailureIsMarkedExactly(s: Sys, e: Event)
    requires Inv(s) && Fails(s, e)
    ensures FailsAt(Step(s, e).hook, s.hook.loop.steps, s.hook.loop.i, ConflictOf(s, e), MayHaveGoneOut(s, e))
  {
    if e.EstimateReverts? {
      EstimateInHand(s);
    } else {
      InHandAtWork(s);
    }
    FailStepFails(s.hook, ConflictOf(s, e), MayHaveGoneOut(s, e));
  }

  /** The receipt of a step that ran shows it as done under the hash it mined under, its own or a repriced copy's. */
  lemma MinedHashIsShown(s: Sys, mined: Hash, hasPrev: bool)
    requires Inv(s) && Enabled(s, ReceiptArrives(mined, hasPrev)) && LastFate(s.orders[s.owner]) == Executed
    ensures var before, after := s.hook.state.steps, Step(s, ReceiptArrives(mined, hasPrev)).hook.state.steps;
            && s.hook.loop.i < |before| == |after| && after[s.hook.loop.i].phase == Done
            && after[s.hook.loop.i].hash == Some(mined)
            && forall j :: 0 <= j < |before| && j != s.hook.loop.i && j != s.hook.loop.i + 1 ==> after[j] == before[j]
  {
    InHandAtWork(s);
  }

  /** A conflict the account's count can judge is not judged before the count is in. */
  lemma ConflictAwaitsTheCount(s: Sys, e: Event)
    requires Inv(s) && Enabled(s, e) && e.WalletRefuses? && !Fails(s, e)
    ensures Step(s, e).hook.loop ==
            AwaitCount(s.hook.loop.steps, s.hook.loop.i, s.hook.loop.countBefore.value, e.conflict.value)
  {
  }

  // ---------------------------------------------------------------- what the dialog offers

  /** A run stopped with a hash in hand. */
  predicate HoldsHash(h: Hook) {
    h.loop.Off? && h.run.Some? && h.run.value.failedAt >= 0 && h.run.value.waitingHash.Some?
  }

  /** A run stopped at a step that surely did not go through. */
  predicate StoppedUnsent(h: Hook) {
    Resumes(h) && h.run.value.failedAt < |h.state.steps| && !h.state.steps[h.run.value.failedAt].maybeSent
  }

  lemma OneFailedStep(s: Sys)
    requires Inv(s) && Resumes(s.hook)
    ensures MaybeSent(s.hook.state) <==> s.hook.state.steps[s.hook.run.value.failedAt].maybeSent
    ensures StatusOf(s.hook.state) == IsError && s.open.Some?
  {
    OwnerIsKnown(s);
  }

  lemma ErrorIsAFailedRun(s: Sys)
    requires Inv(s)
    ensures StatusOf(s.hook.state) == IsError <==> Resumes(s.hook)
    ensures StatusOf(s.hook.state) == IsWaiting <==> HoldsHash(s.hook)
  {
    if s.hook != INITIAL {
      OwnerIsKnown(s);
    }
  }

  lemma OffersExactly(s: Sys, remaining: Option<seq<TxStep>>, hasPrev: bool)
    requires Inv(s)
    ensures Enabled(s, TryAgain(remaining, hasPrev)) <==> StoppedUnsent(s.hook)
    ensures Enabled(s, PressKeepWaiting) <==> HoldsHash(s.hook)
  {
    ErrorIsAFailedRun(s);
    if Resumes(s.hook) {
      OneFailedStep(s);
    }
    if s.hook != INITIAL {
      OwnerIsKnown(s);
    }
  }

  /**
   * What the dialog offers in every reachable state: "Try again" exactly at a failed step that is not marked as maybe
   * sent, "Keep waiting" exactly while a hash is held.
   */
  lemma DialogOffersExactly(es: seq<Event>, remaining: Option<seq<TxStep>>, hasPrev: bool)
    ensures var s := Exec(START, es);
            && (Enabled(s, TryAgain(remaining, hasPrev)) <==> StoppedUnsent(s.hook))
            && (Enabled(s, PressKeepWaiting) <==> HoldsHash(s.hook))
  {
    RunKeeps(START, es);
    OffersExactly(Exec(START, es), remaining, hasPrev);
  }

  /**
   * Over every run: a step that fails without a nonce conflict (its estimate or its receipt reverts, the wallet
   * refuses), or with one over which the count stayed where it was, may be tried again, with any tail; any other may
   * not.
   */
  lemma NotSentIsOfferedAgain(es: seq<Event>, e: Event, remaining: Option<seq<TxStep>>, hasPrev: bool)
    requires Fails(Exec(START, es), e)
    ensures var s := Exec(START, es);
            && FailsAt(Step(s, e).hook, s.hook.loop.steps, s.hook.loop.i, ConflictOf(s, e), MayHaveGoneOut(s, e))
            && (Enabled(Step(s, e), TryAgain(remaining, hasPrev)) <==> !MayHaveGoneOut(s, e))
  {
    var s := Exec(START, es);
    RunKeeps(START, es);
    StepKeeps(s, e);
    FailureIsMarkedExactly(s, e);
    OffersExactly(Step(s, e), remaining, hasPrev);
  }

  // ---------------------------------------------------------------- closing

  lemma ClosableAtRest(s: Sys, closableWhileWaiting: bool)
    requires Inv(s) && Shown(s.hook) && s.open.Some? && s.hook.loop.Off?
    ensures Enabled(s, Close(closableWhileWaiting)) <==>
              (HoldsHash(s.hook) ==> closableWhileWaiting)
  {
    if s.hook != INITIAL {
      OwnerIsKnown(s);
    }
  }

  lemma ClosableAtWork(s: Sys, closableWhileWaiting: bool)
    requires Inv(s) && Shown(s.hook) && s.open.Some? && !s.hook.loop.Off?
    ensures Enabled(s, Close(closableWhileWaiting)) <==>
              s.hook.loop.Preparing? && (s.hook.loop.aborted || s.hook.state.syncing)
  {
    OwnerIsKnown(s);
  }

  /**
   * When an open dialog can be closed, in every reachable state: at rest, though with a hash held only where the flow
   * allows it, and in a preparation held back for the wallet; never while a step is in the wallet's hands.
   */
  lemma ClosableExactly(es: seq<Event>, closableWhileWaiting: bool)
    requires Exec(START, es).open.Some?
    ensures var s := Exec(START, es);
            Enabled(s, Close(closableWhileWaiting)) <==>
              if s.hook.loop.Off? then HoldsHash(s.hook) ==> closableWhileWaiting
              else s.hook.loop.Preparing? && (s.hook.loop.aborted || s.hook.state.syncing)
  {
    RunKeeps(START, es);
    RunShown(START, es);
    var s := Exec(START, es);
    if s.hook.loop.Off? {
      ClosableAtRest(s, closableWhileWaiting);
    } else {
      ClosableAtWork(s, closableWhileWaiting);
    }
  }

  predicate Ending(h: Hook) { h == INITIAL || (h.loop.Preparing? && h.loop.aborted && h.run.None? && h.state == IDLE) }

  lemma EndingGoesOn(s: Sys, e: Event)
    requires Ending(s.hook) && !e.Submit?
    ensures Ending(Step(s, e).hook) && (e.AbortLands? ==> Step(s, e).hook == INITIAL)
    ensures |Step(s, e).orders| == |s.orders|
    ensures forall k :: 0 <= k < |s.orders| ==> |Step(s, e).orders[k].flights| == |s.orders[k].flights|
  {
  }

  lemma {:induction false} EndingSendsNothing(s: Sys, es: seq<Event>)
    requires Ending(s.hook) && forall j :: 0 <= j < |es| ==> !es[j].Submit?
    ensures Ending(Exec(s, es).hook) && !Exec(s, es).hook.loop.Prompted? && |Exec(s, es).orders| == |s.orders|
    ensures forall k :: 0 <= k < |s.orders| ==> |Exec(s, es).orders[k].flights| == |s.orders[k].flights|
    decreases |es|
  {
    if es != [] {
      EndingGoesOn(s, es[0]);
      EndingSendsNothing(Step(s, es[0]), es[1..]);
    }
  }

  /**
   * A preparation the wallet is behind for can always be closed, and then nothing more is prompted or sent for any
   * order, whatever happens, until a new one is submitted.
   */
  lemma CancelledMeansNothingSent(es: seq<Event>, more: seq<Event>)
    requires Enabled(Exec(START, es), WalletIsBehind) && Exec(START, es).open.Some?
    requires forall j :: 0 <= j < |more| ==> !more[j].Submit?
    ensures var behind := Step(Exec(START, es), WalletIsBehind);
            && behind.hook.state.syncing && Enabled(behind, Close(false))
            && var end := Exec(Step(behind, Close(false)), more);
            && end.open.None? && !end.hook.loop.Prompted? && |end.orders| == |behind.orders|
            && forall k :: 0 <= k < |end.orders| ==> |end.orders[k].flights| == |behind.orders[k].flights|
  {
    var s := Exec(START, es);
    RunKeeps(START, es);
    OwnerIsKnown(s);
    var behind := Step(s, WalletIsBehind);
    EndingSendsNothing(Step(behind, Close(false)), more);
    StaysClosed(Step(behind, Close(false)), more);
  }

  lemma {:induction false} StaysClosed(s: Sys, es: seq<Event>)
    requires s.open.None? && forall j :: 0 <= j < |es| ==> !es[j].Submit?
    ensures Exec(s, es).open.None?
    decreases |es|
  {
    if es != [] {
      StaysClosed(Step(s, es[0]), es[1..]);
    }
  }

  // ---------------------------------------------------------------- a run nothing goes wrong in

  /** Step after step: prepared, sent under its hash, landed, its receipt in. */
  function SmoothStep(order: nat, k: nat, hash: Hash, hasPrev: bool): seq<Event> {
    [PreparationIn(None), WalletSends(hash), Lands(order, k, true), ReceiptArrives(hash, hasPrev)]
  }

  function SmoothRest(order: nat, k: nat, hashes: seq<Hash>): seq<Event>
    decreases |hashes|
  {
    if hashes == [] then [] else SmoothStep(order, k, hashes[0], true) + SmoothRest(order, k + 1, hashes[1..])
  }

  /** The order about to send step `k`, after the steps before it each went out once. */
  predicate AboutToSend(s: Sys, order: nat, steps: seq<TxStep>, k: nat) {
    && Inv(s) && s.owner == order < |s.orders| && s.open == Some(order) && k < |steps|
    && s.hook.loop.Preparing? && !s.hook.loop.aborted && s.hook.loop.steps == steps && s.hook.loop.i == k
    && s.orders[order].steps == steps && |s.orders[order].flights| == k
  }

  predicate AllThrough(s: Sys, order: nat, steps: seq<TxStep>) {
    && Inv(s) && order < |s.orders| && s.hook.loop.Off? && StatusOf(s.hook.state) == IsDone
    && s.orders[order].executed == steps && |s.orders[order].flights| == |steps|
  }

  lemma ExecFour(s: Sys, a: Event, b: Event, c: Event, d: Event)
    ensures Exec(s, [a, b, c, d]) == Step(Step(Step(Step(s, a), b), c), d)
  {
    assert [a, b, c, d][1..] == [b, c, d] && [b, c, d][1..] == [c, d] && [c, d][1..] == [d] && [d][1..] == [];
    assert Exec(s, [a, b, c, d]) == Exec(Step(s, a), [b, c, d]);
    assert Exec(Step(s, a), [b, c, d]) == Exec(Step(Step(s, a), b), [c, d]);
    assert Exec(Step(Step(s, a), b), [c, d]) == Exec(Step(Step(Step(s, a), b), c), [d]);
    assert Exec(Step(Step(Step(s, a), b), c), [d]) == Exec(Step(Step(Step(Step(s, a), b), c), d), []);
  }

  predicate OnItsWay(s: Sys, order: nat, steps: seq<TxStep>, k: nat, hash: Hash, fate: Fate) {
    && Inv(s) && s.owner == order < |s.orders| && s.open == Some(order) && k < |steps|
    && s.hook.loop == AwaitReceipt(steps, k, hash) && s.orders[order].steps == steps
    && |s.orders[order].flights| == k + 1 && s.orders[order].flights[k].fate == fate
  }

  lemma SmoothSend(s: Sys, order: nat, steps: seq<TxStep>, k: nat, hash: Hash)
    requires AboutToSend(s, order, steps, k)
    ensures OnItsWay(Step(Step(s, PreparationIn(None)), WalletSends(hash)), order, steps, k, hash, Pending)
  {
    var s1 := Step(s, PreparationIn(None));
    StepKeeps(s, PreparationIn(None));
    assert s1.hook.loop == Prompted(steps, k, None);
    StepKeeps(s1, WalletSends(hash));
  }

  lemma SmoothLanding(s: Sys, order: nat, steps: seq<TxStep>, k: nat, hash: Hash)
    requires OnItsWay(s, order, steps, k, hash, Pending)
    ensures OnItsWay(Step(s, Lands(order, k, true)), order, steps, k, hash, Executed)
  {
    StepKeeps(s, Lands(order, k, true));
  }

  lemma SettledIsInOrder(s: Sys, order: nat, steps: seq<TxStep>, k: nat, hash: Hash, hasPrev: bool)
    requires OnItsWay(s, order, steps, k, hash, Executed)
    ensures var s' := Step(s, ReceiptArrives(hash, hasPrev));
            Inv(s') && s'.orders == s.orders && s'.owner == s.owner && s'.open == s.open &&
            s.orders[order].executed == steps[..k + 1]
  {
    OwnerIsKnown(s);
    StepKeeps(s, ReceiptArrives(hash, hasPrev));
  }

  lemma SmoothReceipt(s: Sys, order: nat, steps: seq<TxStep>, k: nat, hash: Hash, hasPrev: bool)
    requires OnItsWay(s, order, steps, k, hash, Executed)
    ensures var s' := Step(s, ReceiptArrives(hash, hasPrev));
            if k + 1 < |steps| then AboutToSend(s', order, steps, k + 1) else AllThrough(s', order, steps)
  {
    SettledIsInOrder(s, order, steps, k, hash, hasPrev);
    ReceiptSettlesTheWait(s, steps, k, hash, hash, hasPrev);
    assert steps[..|steps|] == steps;
  }

  lemma {:induction false} SmoothRestCompletes(s: Sys, order: nat, steps: seq<TxStep>, k: nat, hashes: seq<Hash>)
    requires AboutToSend(s, order, steps, k) && |hashes| == |steps| - k
    ensures AllThrough(Exec(s, SmoothRest(order, k, hashes)), order, steps)
    decreases |hashes|
  {
    var first, rest := SmoothStep(order, k, hashes[0], true), SmoothRest(order, k + 1, hashes[1..]);
    var sent := Step(Step(s, PreparationIn(None)), WalletSends(hashes[0]));
    var s' := Exec(s, first);
    SmoothSend(s, order, steps, k, hashes[0]);
    SmoothLanding(sent, order, steps, k, hashes[0]);
    SmoothReceipt(Step(sent, Lands(order, k, true)), order, steps, k, hashes[0], true);
    ExecFour(s, PreparationIn(None), WalletSends(hashes[0]), Lands(order, k, true), ReceiptArrives(hashes[0], true));
    ExecConcat(s, first, rest);
    if k + 1 < |steps| {
      SmoothRestCompletes(s', order, steps, k + 1, hashes[1..]);
    } else {
      assert rest == [] && first + rest == first;
    }
  }

  /**
   * From any reachable state a new order can start from, every list of steps whose sends all land is sent through, each
   * step once and in order, and the dialog says done.
   */
  lemma SmoothRunCompletes(es: seq<Event>, steps: seq<TxStep>, hashes: seq<Hash>, hasPrev: bool)
    requires Exec(START, es).hook.loop.Off? && Enabled(Exec(START, es), Submit(steps, hasPrev)) && |hashes| == |steps|
    ensures var s := Exec(START, es);
            AllThrough(Exec(Step(s, Submit(steps, hasPrev)), SmoothRest(|s.orders|, 0, hashes)), |s.orders|, steps)
  {
    var s := Exec(START, es);
    RunKeeps(START, es);
    StepKeeps(s, Submit(steps, hasPrev));
    SmoothRestCompletes(Step(s, Submit(steps, hasPrev)), |s.orders|, steps, 0, hashes);
  }
}
