/**
 * `useTxSequence`: the hook that sends several writes one after another and can be resumed. The asynchronous loop of
 * `runFrom` is cut at its awaits: `Loop` says which await it is suspended on, and one operation below is one stretch of
 * code between two awaits (or one call from the UI). The operations on values are the specification; class
 * `TxSequence` updates the hook's refs and state in place, as the source does, and is proved equal to them.
 */
module UseTx {
  import opened Wrappers
  import opened TxTypes

  type Hash = nat

  datatype Phase = Todo | Signing | Mining | Done | Error
  datatype SendConflict = StaleNonce | NonceInUse | AlreadySent

  datatype StepState = StepState(
    title: string, phase: Phase, hash: Option<Hash>, conflict: Option<SendConflict>, maybeSent: bool, note: bool)

  datatype SeqState = SeqState(
    running: bool, step: nat, total: nat, failed: bool, done: bool, steps: seq<StepState>, waiting: bool, syncing: bool)

  const IDLE: SeqState := SeqState(false, 0, 0, false, false, [], false, false)

  /** `runRef`: the steps of the current run and where it stopped (-1 while it runs, or once it has finished). */
  datatype RunRec = RunRec(steps: seq<TxStep>, failedAt: int, waitingHash: Option<Hash>)

  /** The await the loop is suspended on; `Off` is `activeRef.current == false`. */
  datatype Loop =
    | Off
    | Preparing(steps: seq<TxStep>, i: nat, hasPrev: bool, aborted: bool)
    | Prompted(steps: seq<TxStep>, i: nat, countBefore: Option<nat>)
    | AwaitCount(steps: seq<TxStep>, i: nat, before: nat, conflict: SendConflict)
    | AwaitReceipt(steps: seq<TxStep>, i: nat, hash: Hash)

  datatype Hook = Hook(state: SeqState, run: Option<RunRec>, loop: Loop)

  const INITIAL: Hook := Hook(IDLE, None, Off)

  predicate WellFormed(h: Hook) {
    && (h.run.Some? ==> -1 <= h.run.value.failedAt < |h.run.value.steps|)
    && (!h.loop.Off? ==> h.loop.i < |h.loop.steps|)
  }

  // ---------------------------------------------------------------- state patches

  function Fresh(title: string): StepState {
    StepState(title, Todo, None, None, false, false)
  }

  /** A step as a new run from `from` starts with it: mined ones and the one whose wait resumes are kept. */
  function StartStep(prev: seq<StepState>, steps: seq<TxStep>, from: nat, resume: Option<Hash>, j: nat): StepState
    requires j < |steps|
  {
    if j < |prev| && ((j < from && prev[j].phase == Done) || (j == from && resume.Some?)) then prev[j]
    else Fresh(steps[j].title)
  }

  function StartState(s: SeqState, steps: seq<TxStep>, from: nat, resume: Option<Hash>): SeqState {
    SeqState(true, from, |steps|, false, false,
             seq(|steps|, j requires 0 <= j < |steps| => StartStep(s.steps, steps, from, resume, j)), false, false)
  }

  function PatchPhase(s: SeqState, i: nat, phase: Phase, hash: Option<Hash>): SeqState {
    s.(step := i,
       steps := if i < |s.steps|
                then s.steps[i := s.steps[i].(phase := phase, hash := if hash.Some? then hash else s.steps[i].hash)]
                else s.steps)
  }

  function PatchSyncing(s: SeqState, i: nat, on: bool): SeqState {
    s.(syncing := on, steps := if i < |s.steps| then s.steps[i := s.steps[i].(note := on)] else s.steps)
  }

  function PatchError(s: SeqState, i: nat, conflict: Option<SendConflict>, maybeSent: bool): SeqState {
    s.(step := i, running := false, waiting := false, syncing := false, failed := true,
       steps := if i < |s.steps|
                then s.steps[i := s.steps[i].(phase := Error, conflict := conflict, maybeSent := maybeSent)]
                else s.steps)
  }

  // ---------------------------------------------------------------- the loop

  /** Top of the for-loop for a step without a hash: the step is being signed, its estimate and wallet check are out. */
  function BeginStep(h: Hook, steps: seq<TxStep>, i: nat, hasPrev: bool): Hook {
    h.(state := PatchPhase(h.state, i, Signing, None), loop := Preparing(steps, i, hasPrev, false))
  }

  function RunFrom(h: Hook, steps: seq<TxStep>, from: nat, resume: Option<Hash>, hasPrev: bool): Hook
    requires steps == [] || from < |steps|
  {
    if steps == [] || !h.loop.Off? then h
    else
      var h' := Hook(StartState(h.state, steps, from, resume), Some(RunRec(steps, -1, None)), h.loop);
      match resume
      case Some(hash) => h'.(loop := AwaitReceipt(steps, from, hash))
      case None => BeginStep(h', steps, from, hasPrev)
  }

  function FailStep(h: Hook, steps: seq<TxStep>, i: nat, conflict: Option<SendConflict>, maybeSent: bool): Hook {
    Hook(PatchError(h.state, i, conflict, maybeSent), Some(RunRec(steps, i, None)), Off)
  }

  /** The first wallet check found the wallet behind: the UI mentions the wait. */
  function OnSlow(h: Hook): Hook
    requires h.loop.Preparing? && !h.loop.aborted
  {
    h.(state := PatchSyncing(h.state, h.loop.i, true))
  }

  /** Estimate, pending count and wallet check are in: `syncRef` is cleared and the wallet is prompted. */
  function OnPrepared(h: Hook, countBefore: Option<nat>): Hook
    requires h.loop.Preparing? && !h.loop.aborted
  {
    h.(state := if h.loop.hasPrev then PatchSyncing(h.state, h.loop.i, false) else h.state,
       loop := Prompted(h.loop.steps, h.loop.i, countBefore))
  }

  /** The estimate named a revert: the step fails with nothing sent. */
  function OnPrepareFailed(h: Hook): Hook
    requires h.loop.Preparing? && !h.loop.aborted
  {
    FailStep(h, h.loop.steps, h.loop.i, None, false)
  }

  /** The preparation was aborted: the run ends as if reset. */
  function OnPrepareAborted(h: Hook): Hook
    requires h.loop.Preparing? && h.loop.aborted
  {
    INITIAL
  }

  function OnWalletSends(h: Hook, hash: Hash): Hook
    requires h.loop.Prompted?
  {
    h.(state := PatchPhase(h.state, h.loop.i, Mining, Some(hash)), loop := AwaitReceipt(h.loop.steps, h.loop.i, hash))
  }

  /** The wallet returned no hash. Over a nonce conflict the node's count decides whether anything may have gone out. */
  function OnWalletRefuses(h: Hook, conflict: Option<SendConflict>): Hook
    requires h.loop.Prompted?
  {
    match (conflict, h.loop.countBefore)
    case (Some(c), Some(before)) =>
      if c == AlreadySent then FailStep(h, h.loop.steps, h.loop.i, conflict, true)
      else h.(loop := AwaitCount(h.loop.steps, h.loop.i, before, c))
    case (_, _) => FailStep(h, h.loop.steps, h.loop.i, conflict, conflict.Some?)
  }

  function OnCount(h: Hook, after: Option<nat>): Hook
    requires h.loop.AwaitCount?
  {
    FailStep(h, h.loop.steps, h.loop.i, Some(h.loop.conflict), after != Some(h.loop.before))
  }

  /** No receipt could be had: hold here with the hash, send nothing. */
  function OnReceiptLost(h: Hook): Hook
    requires h.loop.AwaitReceipt?
  {
    Hook(h.state.(step := h.loop.i, waiting := true), Some(RunRec(h.loop.steps, h.loop.i, Some(h.loop.hash))), Off)
  }

  /** The mined transaction reverted, or the wallet cancelled or replaced it: the step did not run. */
  function OnReceiptBad(h: Hook): Hook
    requires h.loop.AwaitReceipt?
  {
    FailStep(h, h.loop.steps, h.loop.i, None, false)
  }

  /** A successful receipt (of the step or of a repriced copy, under `mined`): on to the next step, or done. */
  function OnReceiptOk(h: Hook, mined: Hash, hasPrev: bool): Hook
    requires h.loop.AwaitReceipt?
  {
    var i, steps := h.loop.i, h.loop.steps;
    var s := PatchPhase(h.state, i, Done, Some(mined));
    if i + 1 < |steps| then BeginStep(h.(state := s), steps, i + 1, hasPrev)
    else h.(state := s.(running := false, waiting := false, done := true, step := |steps|), loop := Off)
  }

  // ---------------------------------------------------------------- what the UI calls

  function OnRun(h: Hook, steps: seq<TxStep>, hasPrev: bool): Hook { RunFrom(h, steps, 0, None, hasPrev) }

  function OnKeepWaiting(h: Hook): Hook
    requires WellFormed(h)
  {
    if h.run.Some? && h.run.value.failedAt >= 0 && h.run.value.waitingHash.Some?
    then RunFrom(h, h.run.value.steps, h.run.value.failedAt, h.run.value.waitingHash, false)
    else h
  }

  /** The step list a retry leaves the run with: `remaining` replaces the steps from the failed one onward. */
  function Spliced(r: RunRec, remaining: Option<seq<TxStep>>): seq<TxStep>
    requires 0 <= r.failedAt < |r.steps|
  {
    if remaining.Some? && r.waitingHash.None? then r.steps[..r.failedAt] + remaining.value else r.steps
  }

  function OnRetry(h: Hook, remaining: Option<seq<TxStep>>, hasPrev: bool): Hook
    requires WellFormed(h)
  {
    if h.run.None? || h.run.value.failedAt < 0 then h
    else
      var r := h.run.value;
      var steps := Spliced(r, remaining);
      if r.waitingHash.None? && remaining == Some([]) then
        h.(run := None,
           state := h.state.(running := false, waiting := false, failed := false, done := true,
                             step := |steps|, total := |steps|,
                             steps := if |steps| <= |h.state.steps| then h.state.steps[..|steps|] else h.state.steps))
      else RunFrom(h, steps, r.failedAt, r.waitingHash, hasPrev)
  }

  /** Aborts a preparation that is out; once the wallet is prompted it no longer applies. */
  function OnCancel(h: Hook): Hook {
    if h.loop.Preparing? then h.(loop := h.loop.(aborted := true)) else h
  }

  function OnReset(h: Hook): Hook { OnCancel(h).(run := None, state := IDLE) }

  // ---------------------------------------------------------------- the hook as the source has it

  /**
   * The hook's refs and state, updated in place. `suspended` is the continuation of the asynchronous loop: the
   * locals `steps`, `i`, `hash`, `countBefore` it holds across its current await.
   */
  class TxSequence {
    var state: SeqState
    var runRef: Option<RunRec>
    var activeRef: bool
    var suspended: Loop

    ghost predicate Valid()
      reads this
    {
      activeRef == !suspended.Off? && WellFormed(Model())
    }

    ghost function Model(): Hook
      reads this
    {
      Hook(state, runRef, suspended)
    }

    constructor ()
      ensures Valid() && Model() == INITIAL
    {
      state := IDLE;
      runRef := None;
      activeRef := false;
      suspended := Off;
    }

    method Run(steps: seq<TxStep>, hasPrev: bool)
      requires Valid()
      modifies this
      ensures Valid() && Model() == OnRun(old(Model()), steps, hasPrev)
    {
      Start(steps, 0, None, hasPrev);
    }

    method Start(steps: seq<TxStep>, from: nat, resume: Option<Hash>, hasPrev: bool)
      requires Valid() && (steps == [] || from < |steps|)
      modifies this
      ensures Valid() && Model() == RunFrom(old(Model()), steps, from, resume, hasPrev)
    {
      if steps == [] || activeRef {
        return;
      }
      activeRef := true;
      runRef := Some(RunRec(steps, -1, None));
      state := StartState(state, steps, from, resume);
      if resume.Some? {
        suspended := AwaitReceipt(steps, from, resume.value);
      } else {
        Prompting(steps, from, hasPrev);
      }
    }

    method Prompting(steps: seq<TxStep>, i: nat, hasPrev: bool)
      requires activeRef && i < |steps|
      requires WellFormed(Model().(loop := Off))
      modifies this`state, this`suspended
      ensures Valid() && Model() == BeginStep(old(Model()), steps, i, hasPrev)
    {
      state := PatchPhase(state, i, Signing, None);
      suspended := Preparing(steps, i, hasPrev, false);
    }

    method Fail(steps: seq<TxStep>, i: nat, conflict: Option<SendConflict>, maybeSent: bool)
      requires i < |steps|
      modifies this
      ensures Valid() && Model() == FailStep(old(Model()), steps, i, conflict, maybeSent)
    {
      runRef := Some(RunRec(steps, i, None));
      state := PatchError(state, i, conflict, maybeSent);
      activeRef := false;
      suspended := Off;
    }

    method WalletBehind()
      requires Valid() && suspended.Preparing? && !suspended.aborted
      modifies this`state
      ensures Valid() && Model() == OnSlow(old(Model()))
    {
      state := PatchSyncing(state, suspended.i, true);
    }

    method Prepared(countBefore: Option<nat>)
      requires Valid() && suspended.Preparing? && !suspended.aborted
      modifies this`state, this`suspended
      ensures Valid() && Model() == OnPrepared(old(Model()), countBefore)
    {
      if suspended.hasPrev {
        state := PatchSyncing(state, suspended.i, false);
      }
      suspended := Prompted(suspended.steps, suspended.i, countBefore);
    }

    method PrepareFailed()
      requires Valid() && suspended.Preparing? && !suspended.aborted
      modifies this
      ensures Valid() && Model() == OnPrepareFailed(old(Model()))
    {
      Fail(suspended.steps, suspended.i, None, false);
    }

    method PrepareAborted()
      requires Valid() && suspended.Preparing? && suspended.aborted
      modifies this
      ensures Valid() && Model() == OnPrepareAborted(old(Model()))
    {
      runRef := None;
      state := IDLE;
      activeRef := false;
      suspended := Off;
    }

    method WalletSends(hash: Hash)
      requires Valid() && suspended.Prompted?
      modifies this`state, this`suspended
      ensures Valid() && Model() == OnWalletSends(old(Model()), hash)
    {
      state := PatchPhase(state, suspended.i, Mining, Some(hash));
      suspended := AwaitReceipt(suspended.steps, suspended.i, hash);
    }

    method WalletRefuses(conflict: Option<SendConflict>)
      requires Valid() && suspended.Prompted?
      modifies this
      ensures Valid() && Model() == OnWalletRefuses(old(Model()), conflict)
    {
      if conflict.Some? && conflict.value != AlreadySent && suspended.countBefore.Some? {
        suspended := AwaitCount(suspended.steps, suspended.i, suspended.countBefore.value, conflict.value);
      } else {
        Fail(suspended.steps, suspended.i, conflict, conflict.Some?);
      }
    }

    method CountRead(after: Option<nat>)
      requires Valid() && suspended.AwaitCount?
      modifies this
      ensures Valid() && Model() == OnCount(old(Model()), after)
    {
      Fail(suspended.steps, suspended.i, Some(suspended.conflict), after != Some(suspended.before));
    }

    method ReceiptLost()
      requires Valid() && suspended.AwaitReceipt?
      modifies this
      ensures Valid() && Model() == OnReceiptLost(old(Model()))
    {
      runRef := Some(RunRec(suspended.steps, suspended.i, Some(suspended.hash)));
      state := state.(step := suspended.i, waiting := true);
      activeRef := false;
      suspended := Off;
    }

    method ReceiptBad()
      requires Valid() && suspended.AwaitReceipt?
      modifies this
      ensures Valid() && Model() == OnReceiptBad(old(Model()))
    {
      Fail(suspended.steps, suspended.i, None, false);
    }

    /** `finished` is the call of `onDone`. */
    method ReceiptOk(mined: Hash, hasPrev: bool) returns (finished: bool)
      requires Valid() && suspended.AwaitReceipt?
      modifies this
      ensures Valid() && Model() == OnReceiptOk(old(Model()), mined, hasPrev)
      ensures finished <==> !activeRef
    {
      var i, steps := suspended.i, suspended.steps;
      state := PatchPhase(state, i, Done, Some(mined));
      if i + 1 < |steps| {
        Prompting(steps, i + 1, hasPrev);
        finished := false;
      } else {
        state := state.(running := false, waiting := false, done := true, step := |steps|);
        activeRef := false;
        suspended := Off;
        finished := true;
      }
    }

    method KeepWaiting()
      requires Valid()
      modifies this
      ensures Valid() && Model() == OnKeepWaiting(old(Model()))
    {
      if runRef.Some? && runRef.value.failedAt >= 0 && runRef.value.waitingHash.Some? {
        Start(runRef.value.steps, runRef.value.failedAt, runRef.value.waitingHash, false);
      }
    }

    method Retry(remaining: Option<seq<TxStep>>, hasPrev: bool) returns (finished: bool)
      requires Valid()
      modifies this
      ensures Valid() && Model() == OnRetry(old(Model()), remaining, hasPrev)
      ensures finished ==> runRef.None? && state.done
    {
      finished := false;
      if runRef.None? || runRef.value.failedAt < 0 {
        return;
      }
      var r := runRef.value;
      if r.waitingHash.Some? {
        Start(r.steps, r.failedAt, r.waitingHash, hasPrev);
        return;
      }
      if remaining.None? {
        Start(r.steps, r.failedAt, None, hasPrev);
        return;
      }
      var steps := r.steps[..r.failedAt] + remaining.value;
      if remaining.value == [] {
        runRef := None;
        state := state.(running := false, waiting := false, failed := false, done := true,
                        step := |steps|, total := |steps|,
                        steps := if |steps| <= |state.steps| then state.steps[..|steps|] else state.steps);
        finished := true;
      } else {
        Start(steps, r.failedAt, None, hasPrev);
      }
    }

    method Cancel()
      requires Valid()
      modifies this`suspended
      ensures Valid() && Model() == OnCancel(old(Model()))
    {
      if suspended.Preparing? {
        suspended := suspended.(aborted := true);
      }
    }

    method Reset()
      requires Valid()
      modifies this
      ensures Valid() && Model() == OnReset(old(Model()))
    {
      Cancel();
      runRef := None;
      state := IDLE;
    }
  }
}
