/** "Try again" on a removal: the sequencer, the rebuilt legs and the vault's rules together. */
module RemoveFlow {
  import opened Wrappers
  import opened TxTypes
  import opened UseTx
  import opened TxFlow
  import opened FlowTimeline
  import opened RemovePlan
  import opened PlanVault

  /** A run that ends well ends the same from wherever its first `k` steps left off. */
  lemma RestExecutes(h: Held, steps: seq<TxStep>, k: nat, epochPending: bool, final: Held)
    requires k <= |steps| && Execute(h, steps, epochPending) == PlanVault.Done(final)
    ensures Execute(h, steps[..k], epochPending).Done?
    ensures Execute(Execute(h, steps[..k], epochPending).held, steps[k..], epochPending) == PlanVault.Done(final)
  {
    ExecuteConcat(h, steps[..k], steps[k..], epochPending);
    assert steps[..k] + steps[k..] == steps;
  }

  /**
   * After any unfinished part of a removal, the legs rebuilt from the plan as it then is are the rest, and finish the
   * job.
   */
  lemma RestFinishesTheJob(vault: Address, planId: nat, symbol: string, h: Held, epochPending: bool, k: nat)
    requires Consistent(h.plan) && h.indexed && k < |RemoveSteps(InputOf(vault, planId, symbol, h, epochPending))|
    ensures var steps := RemoveSteps(InputOf(vault, planId, symbol, h, epochPending));
            var now := Execute(h, steps[..k], epochPending);
            now.Done? && RemoveSteps(InputOf(vault, planId, symbol, now.held, epochPending)) == steps[k..] &&
            Execute(now.held, steps[k..], epochPending) == PlanVault.Done(Removed(h, epochPending))
  {
    var steps := RemoveSteps(InputOf(vault, planId, symbol, h, epochPending));
    RebuildDropsMinedLegsExactly(vault, planId, symbol, h, epochPending, k);
    RemovalNeverReverts(vault, planId, symbol, h, epochPending);
    RestExecutes(h, steps, k, epochPending, Removed(h, epochPending));
  }

  lemma RestSplicesBack(r: RunRec)
    requires 0 <= r.failedAt < |r.steps|
    ensures Spliced(r, Some(r.steps[r.failedAt..])) == r.steps
  {
    assert r.steps[..r.failedAt] + r.steps[r.failedAt..] == r.steps;
  }

  lemma RetryPrepares(h: Hook, rest: seq<TxStep>, hasPrev: bool)
    requires WellFormed(h) && h.loop.Off? && h.run.Some? && h.run.value.waitingHash.None?
    requires 0 <= h.run.value.failedAt < |h.run.value.steps| && rest != []
    ensures OnRetry(h, Some(rest), hasPrev).loop
         == Preparing(Spliced(h.run.value, Some(rest)), h.run.value.failedAt, hasPrev, false)
  {
  }

  /** What a reachable retry finds: the run failed with no hash held, every step before the failed one executed. */
  lemma RetryFinds(es: seq<Event>)
    requires Enabled(Exec(START, es), TryAgain(None, false)) && Exec(START, es).hook.run.Some?
    ensures var s := Exec(START, es);
            var r := s.hook.run.value;
            && 0 <= r.failedAt < |r.steps| && r.waitingHash.None? && WellFormed(s.hook) && s.hook.loop.Off?
            && s.owner < |s.orders| && s.orders[s.owner].executed == r.steps[..r.failedAt]
  {
    var s := Exec(START, es);
    RunKeeps(START, es);
    OwnerIsKnown(s);
    FailedHookFits(s.hook, s.orders[s.owner], s.count);
  }

  lemma FailedHookFits(h: Hook, o: OrderRec, count: nat)
    requires HookFits(h, o, count) && OrderOk(o) && h.run.Some? && StatusOf(h.state) == IsError && !MaybeSent(h.state)
    ensures h.loop.Off? && 0 <= h.run.value.failedAt < |h.run.value.steps| && h.run.value.waitingHash.None?
    ensures o.executed == h.run.value.steps[..h.run.value.failedAt]
  {
    var r := h.run.value;
    assert h.loop.Off? && 0 <= r.failedAt && r.waitingHash.None?;
    assert !h.state.steps[r.failedAt].maybeSent;
  }

  lemma RetryEffect(s: Sys, rest: seq<TxStep>, hasPrev: bool)
    requires Enabled(s, TryAgain(None, false)) && s.hook.run.Some? && s.owner < |s.orders|
    requires 0 <= s.hook.run.value.failedAt < |s.hook.run.value.steps|
    ensures var s' := Effect(s, TryAgain(Some(rest), hasPrev));
            && |s'.orders| == |s.orders| && s'.orders[s.owner].steps == Spliced(s.hook.run.value, Some(rest))
            && s'.hook == OnRetry(s.hook, Some(rest), hasPrev)
  {
  }

  /** A retry given exactly the steps not yet done leaves the list as it was and resumes at the failed step. */
  lemma RetryWithTheRest(es: seq<Event>, hasPrev: bool)
    requires Enabled(Exec(START, es), TryAgain(None, false)) && Exec(START, es).hook.run.Some?
    ensures var s := Exec(START, es);
            var r := s.hook.run.value;
            0 <= r.failedAt < |r.steps| && s.owner < |s.orders| &&
            s.orders[s.owner].executed == r.steps[..r.failedAt] &&
            var s' := Effect(s, TryAgain(Some(r.steps[r.failedAt..]), hasPrev));
            s.owner < |s'.orders| && s'.orders[s.owner].steps == r.steps &&
            s'.hook.loop == Preparing(r.steps, r.failedAt, hasPrev, false)
  {
    var s := Exec(START, es);
    RetryFinds(es);
    var rest := s.hook.run.value.steps[s.hook.run.value.failedAt..];
    RestSplicesBack(s.hook.run.value);
    RetryPrepares(s.hook, rest, hasPrev);
    RetryEffect(s, rest, hasPrev);
  }

  /**
   * Whenever a removal stops on a failed step and is retried with the legs rebuilt from what the vault then holds (the
   * calls that executed, and nothing else, having moved it there), the run resumes at that step of the very same list,
   * and carrying the rest out removes the plan completely.
   */
  lemma RetryResumesTheRemoval(es: seq<Event>, vault: Address, planId: nat, symbol: string, h: Held, epochPending: bool,
                               hasPrev: bool)
    requires Consistent(h.plan) && h.indexed
    requires var s := Exec(START, es);
             Enabled(s, TryAgain(None, false)) && s.hook.run.Some? && s.owner < |s.orders| &&
             s.hook.run.value.steps == RemoveSteps(InputOf(vault, planId, symbol, h, epochPending))
    ensures var s := Exec(START, es);
            var now := Execute(h, s.orders[s.owner].executed, epochPending);
            now.Done? && s.hook.run.value.failedAt >= 0 &&
            var rest := RemoveSteps(InputOf(vault, planId, symbol, now.held, epochPending));
            var s' := Effect(s, TryAgain(Some(rest), hasPrev));
            s'.orders[s.owner].steps == s.hook.run.value.steps &&
            s'.hook.loop == Preparing(s.hook.run.value.steps, s.hook.run.value.failedAt, hasPrev, false) &&
            Execute(now.held, rest, epochPending) == PlanVault.Done(Removed(h, epochPending))
  {
    RetryWithTheRest(es, hasPrev);
    RestFinishesTheJob(vault, planId, symbol, h, epochPending, Exec(START, es).hook.run.value.failedAt);
  }

  // ---------------------------------------------------------------- a fresh read that comes back late

  lemma SpliceFitsExactlyThere(steps: seq<TxStep>, j: nat, k: nat)
    requires j < |steps| && k < |steps|
    ensures Spliced(RunRec(steps, k, None), Some(steps[j..])) == steps <==> j == k
    ensures Spliced(RunRec(steps, k, None), Some(steps[j..]))[k] == steps[j]
  {
    var spliced := steps[..k] + steps[j..];
    assert |spliced| == k + |steps| - j;
    assert spliced[k] == steps[j..][0];
    if j == k {
      RestSplicesBack(RunRec(steps, k, None));
    }
  }

  /** The tail rebuilt from a read that saw only the first `j` legs mined, spliced into a run that stands at `k`. */
  lemma LateTailFitsExactlyAtItsStep(vault: Address, planId: nat, symbol: string, h: Held, epochPending: bool, j: nat,
                                     k: nat)
    requires Consistent(h.plan)
    requires var steps := RemoveSteps(InputOf(vault, planId, symbol, h, epochPending)); j < |steps| && k < |steps|
    ensures var steps := RemoveSteps(InputOf(vault, planId, symbol, h, epochPending));
            var read := Execute(h, steps[..j], epochPending);
            read.Done? &&
            var rebuilt := RemoveSteps(InputOf(vault, planId, symbol, read.held, epochPending));
            var spliced := Spliced(RunRec(steps, k, None), Some(rebuilt));
            (spliced == steps <==> j == k) && k < |spliced| && spliced[k] == steps[j]
  {
    RebuildDropsMinedLegsExactly(vault, planId, symbol, h, epochPending, j);
    SpliceFitsExactlyThere(RemoveSteps(InputOf(vault, planId, symbol, h, epochPending)), j, k);
  }

  /** What a failed run's order has executed: the steps before the failed one, and that one only if it is marked. */
  lemma FailedOrder(h: Hook, o: OrderRec, count: nat)
    requires HookFits(h, o, count) && OrderOk(o) && Resumes(h)
    ensures var r := h.run.value;
            && r.failedAt < |r.steps| == |h.state.steps| && r.failedAt <= |o.executed| <= |r.steps|
            && o.executed == r.steps[..|o.executed|]
            && (!h.state.steps[r.failedAt].maybeSent ==> |o.executed| == r.failedAt)
  {
  }

  /** What had executed by the time of the read is the front of what has executed by the time of the retry. */
  lemma ReadIsBehind(es: seq<Event>, more: seq<Event>)
    requires Resumes(Exec(START, es + more).hook) && Exec(START, es + more).owner < |Exec(START, es).orders|
    ensures var s := Exec(START, es + more);
            var r, read, now := s.hook.run.value, ExecutedOf(Exec(START, es), s.owner), ExecutedOf(s, s.owner);
            && WellFormed(s.hook) && OwnerKnown(s) && r.failedAt < |r.steps| == |s.hook.state.steps|
            && |read| <= |now| <= |r.steps| && r.failedAt <= |now|
            && read == r.steps[..|read|] && now == r.steps[..|now|]
            && (!s.hook.state.steps[r.failedAt].maybeSent ==> |now| == r.failedAt)
  {
    var s := Exec(START, es + more);
    RunKeeps(START, es + more);
    OwnerIsKnown(s);
    FailedOrder(s.hook, s.orders[s.owner], s.count);
    ExecConcat(START, es, more);
    ExecutedOnlyGrows(Exec(START, es), more, s.owner);
  }

  /** The list of the order the run is for, and what has executed of order `k`. */
  function ListOf(s: Sys): seq<TxStep> { if OwnerKnown(s) then s.orders[s.owner].steps else [] }

  function ExecutedOf(s: Sys, k: nat): seq<TxStep> { if k < |s.orders| then s.orders[k].executed else [] }

  /** The tail `Try again` sends after reading the plan as these calls have left it. */
  function TailAfter(vault: Address, planId: nat, symbol: string, h: Held, executed: seq<TxStep>,
                     epochPending: bool): seq<TxStep> {
    match Execute(h, executed, epochPending)
    case Done(held) => RemoveSteps(InputOf(vault, planId, symbol, held, epochPending))
    case Reverted(_) => []
  }

  /**
   * The form reads the plan when "Try again" is pressed and retries when the read is back, looking at nothing again; a
   * second click can move the run on in between, or leave its step maybe sent. Over every run: the late tail leaves the
   * list as it was exactly when the read had seen the steps before the failed one and no more, and the step it goes on
   * with has not executed exactly when nothing has executed since the read.
   */
  lemma LateRetryFitsExactlyWhenNothingMined(es: seq<Event>, more: seq<Event>, vault: Address, planId: nat,
                                             symbol: string, h: Held, epochPending: bool, hasPrev: bool)
    requires Consistent(h.plan)
    requires var s := Exec(START, es + more);
             Resumes(s.hook) && s.owner < |Exec(START, es).orders| &&
             s.hook.run.value.steps == RemoveSteps(InputOf(vault, planId, symbol, h, epochPending))
    ensures var s := Exec(START, es + more);
            var r, read, now := s.hook.run.value, ExecutedOf(Exec(START, es), s.owner), ExecutedOf(s, s.owner);
            var s' := Retried(s, Some(TailAfter(vault, planId, symbol, h, read, epochPending)), hasPrev);
            && |read| <= |now| <= |r.steps| && r.failedAt <= |now|
            && (|read| < |r.steps| ==>
                  && r.failedAt < |ListOf(s')| && s'.hook.loop == Preparing(ListOf(s'), r.failedAt, hasPrev, false)
                  && (ListOf(s') == r.steps <==> |read| == r.failedAt)
                  && (ListOf(s')[r.failedAt] !in now <==> |read| == |now|))
  {
    var s := Exec(START, es + more);
    var r, read, now := s.hook.run.value, ExecutedOf(Exec(START, es), s.owner), ExecutedOf(s, s.owner);
    ReadIsBehind(es, more);
    if |read| < |r.steps| {
      LateTailFitsExactlyAtItsStep(vault, planId, symbol, h, epochPending, |read|, r.failedAt);
      LateTailIsTaken(s, TailAfter(vault, planId, symbol, h, read, epochPending), hasPrev);
      ExecutedMeans(InputOf(vault, planId, symbol, h, epochPending), |read|, |now|);
    }
  }

  lemma ExecutedMeans(i: RemoveInput, j: nat, n: nat)
    requires j < |RemoveSteps(i)| && j <= n <= |RemoveSteps(i)|
    ensures RemoveSteps(i)[j] in RemoveSteps(i)[..n] <==> j < n
  {
    if j == n && RemoveSteps(i)[j] in RemoveSteps(i)[..n] {
      var k :| 0 <= k < n && RemoveSteps(i)[..n][k] == RemoveSteps(i)[j];
      NoLegTwice(i, k, j);
      assert false;
    }
    if j < n {
      assert RemoveSteps(i)[..n][j] == RemoveSteps(i)[j];
    }
  }

  lemma LateTailIsTaken(s: Sys, tail: seq<TxStep>, hasPrev: bool)
    requires WellFormed(s.hook) && Resumes(s.hook) && OwnerKnown(s)
    requires var r := s.hook.run.value; r.failedAt < |Spliced(RunRec(r.steps, r.failedAt, None), Some(tail))|
    ensures var s' := Retried(s, Some(tail), hasPrev);
            var r := s.hook.run.value;
            && ListOf(s') == Spliced(RunRec(r.steps, r.failedAt, None), Some(tail))
            && s'.hook.loop == Preparing(ListOf(s'), r.failedAt, hasPrev, false)
  {
    assert tail != [];
    RetryPrepares(s.hook, tail, hasPrev);
  }

  /** If the step the hook goes on with has executed, sending it once more reverts or changes nothing. */
  ghost predicate GoesOnHarmlessly(hook: Hook, h: Held, executed: seq<TxStep>, epochPending: bool) {
    Execute(h, executed, epochPending).Done? &&
    (hook.loop.Preparing? && hook.loop.i < |hook.loop.steps| && hook.loop.steps[hook.loop.i] in executed ==>
       MovesNothing(Execute(h, executed, epochPending).held, hook.loop.steps[hook.loop.i].call, epochPending))
  }

  /** A tail rebuilt after `j` legs, taken up when `n` have executed. */
  lemma LateLegMovesNothing(s: Sys, vault: Address, planId: nat, symbol: string, h: Held, epochPending: bool,
                            hasPrev: bool, j: nat, n: nat)
    requires Consistent(h.plan) && WellFormed(s.hook) && Resumes(s.hook) && OwnerKnown(s)
    requires s.hook.run.value.steps == RemoveSteps(InputOf(vault, planId, symbol, h, epochPending))
    requires j < |s.hook.run.value.steps| && j <= n <= |s.hook.run.value.steps|
    ensures var steps := s.hook.run.value.steps;
            var tail := TailAfter(vault, planId, symbol, h, steps[..j], epochPending);
            GoesOnHarmlessly(Retried(s, Some(tail), hasPrev).hook, h, steps[..n], epochPending)
  {
    var r := s.hook.run.value;
    LateTailFitsExactlyAtItsStep(vault, planId, symbol, h, epochPending, j, r.failedAt);
    LateTailIsTaken(s, TailAfter(vault, planId, symbol, h, r.steps[..j], epochPending), hasPrev);
    RebuildDropsMinedLegsExactly(vault, planId, symbol, h, epochPending, n);
    ExecutedMeans(InputOf(vault, planId, symbol, h, epochPending), j, n);
    if j < n {
      MinedLegMovesNothing(vault, planId, symbol, h, epochPending, j, n);
    }
  }

  /** A tail rebuilt after all legs: nothing, or the prune once more. */
  lemma LatePruneMovesNothing(s: Sys, vault: Address, planId: nat, symbol: string, h: Held, epochPending: bool,
                              hasPrev: bool)
    requires Consistent(h.plan) && WellFormed(s.hook) && Resumes(s.hook) && OwnerKnown(s)
    requires s.hook.run.value.steps == RemoveSteps(InputOf(vault, planId, symbol, h, epochPending))
    ensures var steps := s.hook.run.value.steps;
            var tail := TailAfter(vault, planId, symbol, h, steps, epochPending);
            GoesOnHarmlessly(Retried(s, Some(tail), hasPrev).hook, h, steps, epochPending)
  {
    var i := InputOf(vault, planId, symbol, h, epochPending);
    var steps := s.hook.run.value.steps;
    assert steps[..|steps|] == steps;
    RebuildDropsMinedLegsExactly(vault, planId, symbol, h, epochPending, |steps|);
    if !epochPending {
      var r := s.hook.run.value;
      assert (r.steps[..r.failedAt] + [PruneStep(i)])[r.failedAt] == PruneStep(i);
      LateTailIsTaken(s, [PruneStep(i)], hasPrev);
      PruneAgainMovesNothing(i, h);
      PruneIsLast(i);
      assert steps[|steps| - 1] == steps[|steps| - 1..][0];
    }
  }

  lemma LateTailMovesNothing(s: Sys, vault: Address, planId: nat, symbol: string, h: Held, epochPending: bool,
                             hasPrev: bool, read: seq<TxStep>, now: seq<TxStep>)
    requires Consistent(h.plan) && WellFormed(s.hook) && Resumes(s.hook) && OwnerKnown(s)
    requires s.hook.run.value.steps == RemoveSteps(InputOf(vault, planId, symbol, h, epochPending))
    requires |read| <= |now| <= |s.hook.run.value.steps|
    requires read == s.hook.run.value.steps[..|read|] && now == s.hook.run.value.steps[..|now|]
    ensures var tail := TailAfter(vault, planId, symbol, h, read, epochPending);
            GoesOnHarmlessly(Retried(s, Some(tail), hasPrev).hook, h, now, epochPending)
  {
    if |read| < |s.hook.run.value.steps| {
      LateLegMovesNothing(s, vault, planId, symbol, h, epochPending, hasPrev, |read|, |now|);
    } else {
      assert read == now == s.hook.run.value.steps;
      LatePruneMovesNothing(s, vault, planId, symbol, h, epochPending, hasPrev);
    }
  }

  /** The hook once the read that had seen the calls of `es` is back, after `more` has happened. */
  function LateHook(es: seq<Event>, more: seq<Event>, vault: Address, planId: nat, symbol: string, h: Held,
                    epochPending: bool, hasPrev: bool): Hook
  {
    var s := Exec(START, es + more);
    var tail := TailAfter(vault, planId, symbol, h, ExecutedOf(Exec(START, es), s.owner), epochPending);
    Retried(s, Some(tail), hasPrev).hook
  }

  /**
   * Whatever a late tail goes on with, also when all of the removal had executed by the time of the read: if that call
   * has executed already, sending it once more reverts or changes nothing. No money moves twice.
   */
  lemma LateStepMovesNothing(es: seq<Event>, more: seq<Event>, vault: Address, planId: nat, symbol: string, h: Held,
                             epochPending: bool, hasPrev: bool)
    requires Consistent(h.plan)
    requires var s := Exec(START, es + more);
             Resumes(s.hook) && s.owner < |Exec(START, es).orders| &&
             s.hook.run.value.steps == RemoveSteps(InputOf(vault, planId, symbol, h, epochPending))
    ensures var s := Exec(START, es + more);
            GoesOnHarmlessly(LateHook(es, more, vault, planId, symbol, h, epochPending, hasPrev), h,
                             ExecutedOf(s, s.owner), epochPending)
  {
    var s := Exec(START, es + more);
    ReadIsBehind(es, more);
    LateTailMovesNothing(s, vault, planId, symbol, h, epochPending, hasPrev, ExecutedOf(Exec(START, es), s.owner),
                         ExecutedOf(s, s.owner));
  }

  /** A late answer that finds the run under way, waiting for a hash, done or gone changes no order's list. */
  lemma LateRetryElsewhereChangesNothing(es: seq<Event>, tail: seq<TxStep>, hasPrev: bool)
    requires var s := Exec(START, es);
             s.hook.run.None? || s.hook.run.value.failedAt == -1 || s.hook.run.value.waitingHash.Some?
    ensures Retried(Exec(START, es), Some(tail), hasPrev).orders == Exec(START, es).orders
  {
    var s := Exec(START, es);
    RunKeeps(START, es);
    if s.hook.run.Some? {
      OwnerIsKnown(s);
      WaitingHookFits(s.hook, s.orders[s.owner], s.count);
    }
  }

  lemma WaitingHookFits(h: Hook, o: OrderRec, count: nat)
    requires HookFits(h, o, count) && h.run.Some?
    ensures h.run.value.failedAt >= 0 ==> h.run.value.steps == o.steps
  {
  }

  /**
   * The rows keep up to the failed step the form saw when the button was pressed, the list up to the one the run stands
   * at: the dialog's rows are in step with the spliced list exactly when the two are the same.
   */
  lemma RowsAlignedExactlyAtTheirStep(flow: seq<FlowStep>, steps: seq<TxStep>, seen: nat, k: nat, flow': seq<FlowStep>,
                                      steps': seq<TxStep>)
    requires Aligned(flow, steps) && Aligned(flow', steps') && k <= |steps| <= |flow| && seen <= |steps|
    requires forall r :: 0 <= r < |steps| ==> IsSent(flow[r])
    ensures Aligned(flow[..seen] + flow', steps[..k] + steps') <==> seen == k
  {
    if seen == k {
      SpliceStaysAligned(flow, steps, k, flow', steps');
    } else {
      SentTitlesConcat(flow[..seen], flow');
      AllSent(flow[..seen]);
      assert |Titles(steps[..k] + steps')| == k + |steps'|;
    }
  }
}
