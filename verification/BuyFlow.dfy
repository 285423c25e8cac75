/**
 * The buy card, its dialog and the sequencer together, against the same wallet and chain, with quotes that come back
 * whenever they like, a wallet that may disconnect and a network that may go: the system, and what holds in every run.
 */
module BuyFlow {
  import opened Wrappers
  import opened TxTypes
  import opened UseTx
  import opened TxFlow
  import opened BestRoute
  import opened FlowTimeline
  import opened BuyOrder

  /** A quote that is out: the order it was asked for, the step that had failed, who would receive. */
  datatype Asked = Asked(id: nat, failedAt: nat, recipient: Address)

  /** `held` is a prompt that was due while the network was gone: the write waits for it to be back. */
  datatype Buy = Buy(order: Option<Order>, ids: nat, out: seq<Asked>, sys: Sys, connected: bool, online: bool,
                     held: bool)

  const FRESH_CARD: Buy := Buy(None, 0, [], START, false, true, false)

  datatype BuyEvent =
    | PressBuy(pay: Pay, amount: nat, needsApproval: bool, best: Candidate, recipient: Address, hasPrev: bool)
    | PressTryAgain(recipient: Address, hasPrev: bool)
    | QuoteBack(k: nat, answer: Option<Candidate>, hasPrev: bool)
    | PressClose
    | Flow(event: Event)
    | WalletGone
    | WalletBack
    | NetworkGone
    | NetworkBack

  function FailedAt(steps: seq<StepState>): int {
    if steps == [] then -1
    else if steps[0].phase == Error then 0
    else if FailedAt(steps[1..]) < 0 then -1 else FailedAt(steps[1..]) + 1
  }

  /**
   * A plain retry with no account to estimate or count for: nothing in its preparation waits for anything, so its
   * prompt is due at once.
   */
  function DueAtOnce(s: Sys): Sys { Step(Retried(s, None, false), PreparationIn(None)) }

  /** The prompt itself is refused without a wallet. */
  function RefusedAtOnce(s: Sys): Sys { Step(s, WalletRefuses(None, None)) }

  /**
   * The gates: the button is off while a run is on; "Try again" and close are the dialog's. All go through the card.
   */
  predicate BuyEnabled(b: Buy, e: BuyEvent) {
    match e
    case PressBuy(_, amount, _, best, _, _) =>
      b.connected && amount > 0 && CandidateOk(best) && !b.sys.hook.state.running
    case PressTryAgain(_, _) => b.order.Some? && Enabled(b.sys, TryAgain(None, false))
    case QuoteBack(k, answer, _) => k < |b.out| && (answer.Some? ==> CandidateOk(answer.value))
    case PressClose => b.order.Some? && Closable(b.sys.hook.state, false)
    case Flow(ev) =>
      !ev.Submit? && !ev.TryAgain? && !ev.Close? && (b.held ==> !ev.WalletSends? && !ev.WalletRefuses?)
    case WalletGone => b.connected
    case WalletBack => !b.connected
    case NetworkGone => b.online
    case NetworkBack => !b.online
  }

  function Without(out: seq<Asked>, k: nat): seq<Asked>
    requires k < |out|
  {
    out[..k] + out[k + 1..]
  }

  /** A click on "Try again" in the dialog. */
  function TriedAgain(b: Buy, recipient: Address, hasPrev: bool): Buy
    requires b.order.Some?
  {
    var failedAt := FailedAt(b.sys.hook.state.steps);
    if !b.connected then
      if b.online then b.(sys := RefusedAtOnce(DueAtOnce(b.sys))) else b.(sys := DueAtOnce(b.sys), held := true)
    else if failedAt < 0 then b.(sys := Retried(b.sys, None, hasPrev))
    else if b.order.value.requoting then b
    else b.(order := Some(b.order.value.(requoting := true)),
            out := b.out + [Asked(b.order.value.id, failedAt, recipient)])
  }

  /** The read a click sent for is back. */
  function Answered(dir: Directory, b: Buy, k: nat, answer: Option<Candidate>, hasPrev: bool): Buy
    requires k < |b.out|
  {
    var p := b.out[k];
    var b' := b.(out := Without(b.out, k));
    if !IsLive(b, k) then b'
    else
      var o := b.order.value;
      var call := AfterRequote(dir, o, p.failedAt, answer, p.recipient);
      b'.(order := Some(Requoted(dir, o, answer, p.recipient)),
          sys := if call.CallRetry? then Retried(b.sys, call.remaining, hasPrev) else b.sys)
  }

  /** The quote is the open order's. */
  predicate IsLive(b: Buy, k: nat)
    requires k < |b.out|
  {
    b.order.Some? && b.order.value.id == b.out[k].id
  }

  function BuyEffect(dir: Directory, b: Buy, e: BuyEvent): Buy
    requires BuyEnabled(b, e)
  {
    match e
    case PressBuy(pay, amount, needsApproval, best, recipient, hasPrev) =>
      var o := Submitted(dir, b.ids + 1, pay, amount, needsApproval, best, recipient);
      b.(order := Some(o), ids := b.ids + 1, sys := Step(b.sys, Submit(o.steps, hasPrev)))
    case PressTryAgain(recipient, hasPrev) => TriedAgain(b, recipient, hasPrev)
    case QuoteBack(k, answer, hasPrev) => Answered(dir, b, k, answer, hasPrev)
    case PressClose => b.(order := None, sys := Step(b.sys, Close(false)))
    case Flow(ev) => b.(sys := Step(b.sys, ev))
    case WalletGone => b.(connected := false)
    case WalletBack => b.(connected := true)
    case NetworkGone => b.(online := false)
    case NetworkBack =>
      b.(online := true, held := false, sys := if b.held && !b.connected then RefusedAtOnce(b.sys) else b.sys)
  }

  function BuyStepped(dir: Directory, b: Buy, e: BuyEvent): Buy {
    if BuyEnabled(b, e) then BuyEffect(dir, b, e) else b
  }

  function BuyExec(dir: Directory, b: Buy, es: seq<BuyEvent>): Buy
    decreases |es|
  {
    if es == [] then b else BuyExec(dir, BuyStepped(dir, b, es[0]), es[1..])
  }

  // ---------------------------------------------------------------- what a late answer can do

  /** There is a list the hook sends, waits in or could take up again; a finished run no longer counts. */
  predicate Unfinished(h: Hook) { h.run.Some? && !(h.loop.Off? && h.run.value.failedAt == -1) }

  /**
   * The answer is the open order's, reaches its floor, and finds a failed run that the rebuilt tail is spliced into.
   */
  predicate Resends(b: Buy, k: nat, answer: Option<Candidate>)
    requires k < |b.out|
  {
    IsLive(b, k) && (answer.Some? ==> Reachable(b.order.value, answer.value)) && Resumes(b.sys.hook)
  }

  // ---------------------------------------------------------------- the hook in every run

  predicate NoError(steps: seq<StepState>) { forall j :: 0 <= j < |steps| ==> steps[j].phase != Error }

  predicate ErrorOnlyAt(steps: seq<StepState>, i: int) {
    0 <= i < |steps| && steps[i].phase == Error && forall j :: 0 <= j < |steps| && j != i ==> steps[j].phase != Error
  }

  /** The hook at rest: nothing, a finished run, one that waits for a hash, or one that failed at the step shown. */
  predicate AtRest(h: Hook) {
    if h.run.None? then !h.state.running && !h.state.waiting && !h.state.failed
    else if h.run.value.failedAt < 0 then h.state.done && !h.state.running && !h.state.waiting && !h.state.failed
    else if h.run.value.waitingHash.Some? then
      h.state.running && h.state.waiting && !h.state.failed && !h.state.done && NoError(h.state.steps)
    else
      h.state.failed && !h.state.running && !h.state.done && !h.state.waiting &&
      ErrorOnlyAt(h.state.steps, h.run.value.failedAt)
  }

  predicate AtWork(h: Hook) {
    if h.loop.Preparing? && h.loop.aborted then h.run.None? && h.state == IDLE
    else
      !h.loop.Off? && InProgress(h.state) && h.run == Some(RunRec(h.loop.steps, -1, None)) && NoError(h.state.steps)
  }

  /** What the hook keeps to whatever is called on it and whenever, on no assumption about the chain. */
  predicate HookOk(h: Hook) {
    && WellFormed(h)
    && (h.state.syncing ==> h.loop.Preparing? && !h.loop.aborted && h.loop.hasPrev)
    && (h.run.Some? ==> h.run.value.steps != [] && CarryTitles(h.state.steps, h.run.value.steps))
    && (if h.loop.Off? then AtRest(h) else AtWork(h))
  }

  /**
   * The run, if there is one, works through the same list as before, and is not taken up from a finished one; a run
   * that is gone leaves no steps on show.
   */
  predicate Carries(h: Hook, h': Hook) {
    && (h'.run.Some? ==> h.run.Some? && h'.run.value.steps == h.run.value.steps)
    && (h'.run.None? ==> h'.state.steps == [] || h' == h)
    && (Unfinished(h') ==> Unfinished(h))
  }

  predicate IsFlow(ev: Event) { !ev.Submit? && !ev.TryAgain? && !ev.Close? }

  predicate Moves(h: Hook, h': Hook) { HookOk(h') && Carries(h, h') }

  lemma ClickMoves(s: Sys, ev: Event)
    requires HookOk(s.hook) && Enabled(s, ev) && (ev.PressKeepWaiting? || ev.InputChanged?)
    ensures Moves(s.hook, Effect(s, ev).hook)
  {
  }

  lemma PreparationMoves(s: Sys, ev: Event)
    requires HookOk(s.hook) && Enabled(s, ev) && IsPreparation(ev)
    ensures Moves(s.hook, Effect(s, ev).hook)
  {
  }

  lemma SendMoves(s: Sys, hash: Hash)
    requires HookOk(s.hook) && Enabled(s, WalletSends(hash))
    ensures Moves(s.hook, OnWalletSends(s.hook, hash))
  {
  }

  lemma RefusalMoves(s: Sys, conflict: Option<SendConflict>)
    requires HookOk(s.hook) && s.hook.loop.Prompted?
    ensures Moves(s.hook, OnWalletRefuses(s.hook, conflict))
  {
  }

  lemma WalletMoves(s: Sys, ev: Event)
    requires HookOk(s.hook) && Enabled(s, ev) && IsWallets(ev)
    ensures Moves(s.hook, Effect(s, ev).hook)
  {
    if ev.WalletSends? {
      SendMoves(s, ev.hash);
    } else {
      RefusalMoves(s, ev.conflict);
    }
  }

  lemma LostMoves(h: Hook)
    requires HookOk(h) && h.loop.AwaitReceipt?
    ensures Moves(h, OnReceiptLost(h)) && Moves(h, OnReceiptBad(h))
  {
  }

  lemma MinedMoves(h: Hook, mined: Hash, hasPrev: bool)
    requires HookOk(h) && h.loop.AwaitReceipt?
    ensures Moves(h, OnReceiptOk(h, mined, hasPrev))
  {
  }

  lemma ReceiptMoves(s: Sys, ev: Event)
    requires HookOk(s.hook) && Enabled(s, ev) && (ev.ReceiptArrives? || ev.ReceiptLost?)
    ensures Moves(s.hook, Effect(s, ev).hook)
  {
    LostMoves(s.hook);
    if ev.ReceiptArrives? {
      MinedMoves(s.hook, ev.mined, ev.hasPrev);
    }
  }

  lemma CountMovesHook(s: Sys, ev: Event)
    requires HookOk(s.hook) && Enabled(s, ev) && (ev.CountAnswers? || ev.Lands? || ev.OtherTransaction?)
    ensures Moves(s.hook, Effect(s, ev).hook)
  {
  }

  lemma FlowMoves(s: Sys, ev: Event)
    requires HookOk(s.hook) && IsFlow(ev)
    ensures Moves(s.hook, Step(s, ev).hook)
  {
    if Enabled(s, ev) {
      if ev.PressKeepWaiting? || ev.InputChanged? {
        ClickMoves(s, ev);
      } else if IsPreparation(ev) {
        PreparationMoves(s, ev);
      } else if IsWallets(ev) {
        WalletMoves(s, ev);
      } else if ev.ReceiptArrives? || ev.ReceiptLost? {
        ReceiptMoves(s, ev);
      } else {
        CountMovesHook(s, ev);
      }
    }
  }

  lemma SubmitMoves(s: Sys, steps: seq<TxStep>, hasPrev: bool)
    requires HookOk(s.hook) && Enabled(s, Submit(steps, hasPrev))
    ensures var h := Step(s, Submit(steps, hasPrev)).hook;
            HookOk(h) && (if h.run.Some? then h.run.value.steps == steps else h.state.steps == [])
    ensures Step(s, Submit(steps, hasPrev)).open.Some?
  {
  }

  lemma CloseMoves(s: Sys)
    requires HookOk(s.hook)
    ensures HookOk(Step(s, Close(false)).hook)
    ensures Enabled(s, Close(false)) ==> Step(s, Close(false)).hook.run.None? && Step(s, Close(false)).open.None?
  {
  }

  /** Only a new order opens the dialog, and only a close closes it. */
  lemma FlowKeepsOpen(s: Sys, ev: Event)
    requires IsFlow(ev)
    ensures Step(s, ev).open == s.open
  {
  }

  lemma StartCarries(h: Hook, steps: seq<TxStep>, from: nat, resume: Option<Hash>)
    requires HookOk(h) && h.loop.Off? && h.run.Some? && h.run.value.failedAt == from
    requires from < |steps| && steps[..from] == h.run.value.steps[..from]
    requires resume == h.run.value.waitingHash && (resume.Some? ==> steps == h.run.value.steps)
    ensures var st := StartState(h.state, steps, from, resume); CarryTitles(st.steps, steps) && NoError(st.steps)
  {
    assert forall j :: 0 <= j < from ==> steps[j] == steps[..from][j] && h.run.value.steps[j] == steps[..from][j];
  }

  /**
   * A retry of a failed run, whatever tail it is given and whenever: it works through the spliced list, or completes.
   */
  lemma ResumeMoves(h: Hook, remaining: Option<seq<TxStep>>, hasPrev: bool)
    requires HookOk(h) && Resumes(h)
    ensures var h' := OnRetry(h, remaining, hasPrev);
            var steps := Spliced(h.run.value, remaining);
            && HookOk(h')
            && (if remaining == Some([]) then h'.run.None? && h'.loop.Off?
                else h'.run == Some(RunRec(steps, -1, None)) &&
                     h'.loop == Preparing(steps, h.run.value.failedAt, hasPrev, false))
  {
    var r := h.run.value;
    var steps := Spliced(r, remaining);
    assert steps[..r.failedAt] == r.steps[..r.failedAt];
    if remaining != Some([]) {
      StartCarries(h, steps, r.failedAt, None);
    }
  }

  /** Any other retry changes no list: it does nothing, or waits for the hash it holds. */
  lemma OtherRetryMoves(h: Hook, remaining: Option<seq<TxStep>>, hasPrev: bool)
    requires HookOk(h) && !Resumes(h)
    ensures Moves(h, OnRetry(h, remaining, hasPrev))
    ensures OnRetry(h, remaining, hasPrev) == h || OnRetry(h, remaining, hasPrev) == OnKeepWaiting(h)
    ensures Unfinished(h) ==> Unfinished(OnRetry(h, remaining, hasPrev))
  {
    if h.run.Some? && h.run.value.failedAt >= 0 {
      StartCarries(h, h.run.value.steps, h.run.value.failedAt, h.run.value.waitingHash);
    }
  }

  lemma RetryMoves(h: Hook, remaining: Option<seq<TxStep>>, hasPrev: bool)
    requires HookOk(h)
    ensures HookOk(OnRetry(h, remaining, hasPrev))
    ensures remaining.None? ==> Carries(h, OnRetry(h, remaining, hasPrev))
  {
    if Resumes(h) {
      ResumeMoves(h, remaining, hasPrev);
    } else {
      OtherRetryMoves(h, remaining, hasPrev);
    }
  }

  /** It finds the first failed step, if there is one. */
  lemma {:induction false} FailedAtFindsTheFirst(steps: seq<StepState>)
    ensures FailedAt(steps) < 0 <==> NoError(steps)
    ensures var i := FailedAt(steps);
            i >= 0 ==>
              i < |steps| && steps[i].phase == Error && forall j :: 0 <= j < i ==> steps[j].phase != Error
    decreases |steps|
  {
    if steps != [] && steps[0].phase != Error {
      var rest := steps[1..];
      FailedAtFindsTheFirst(rest);
      assert forall j :: 0 <= j < |rest| ==> rest[j] == steps[j + 1];
      if NoError(rest) {
        forall j | 0 <= j < |steps| ensures steps[j].phase != Error {
          assert j > 0 ==> steps[j] == rest[j - 1];
        }
      } else {
        forall j | 0 <= j < FailedAt(steps) ensures steps[j].phase != Error {
          assert j > 0 ==> steps[j] == rest[j - 1];
        }
      }
    }
  }

  lemma {:induction false} FailedAtIs(steps: seq<StepState>, i: nat)
    requires i < |steps| && steps[i].phase == Error
    requires forall j :: 0 <= j < |steps| && j != i ==> steps[j].phase != Error
    ensures FailedAt(steps) == i
    decreases |steps|
  {
    if i > 0 {
      FailedAtIs(steps[1..], i - 1);
    }
  }

  /** In the dialog's error state there is a run to resume, and the step it shows as failed is the one it resumes at. */
  lemma ErrorStateHasAFailedRun(s: Sys)
    requires HookOk(s.hook) && Enabled(s, TryAgain(None, false))
    ensures Resumes(s.hook) && FailedAt(s.hook.state.steps) == s.hook.run.value.failedAt < |s.hook.run.value.steps|
  {
    FailedAtIs(s.hook.state.steps, s.hook.run.value.failedAt);
  }

  // ---------------------------------------------------------------- the card in every run

  /** Of the quotes out at most one is for the order, and it says so. */
  predicate OneAsked(o: Order, out: seq<Asked>) {
    && (forall k :: 0 <= k < |out| && out[k].id == o.id ==> o.requoting)
    && (forall j, k :: 0 <= j < k < |out| ==> out[j].id != o.id || out[k].id != o.id)
  }

  predicate KnownIds(out: seq<Asked>, ids: nat) { forall k :: 0 <= k < |out| ==> out[k].id <= ids }

  predicate CardOk(dir: Directory, b: Buy) {
    && HookOk(b.sys.hook) && KnownIds(b.out, b.ids)
    && (b.order.Some? <==> b.sys.open.Some?) && (b.order.None? ==> b.sys.hook.run.None?)
    && (b.order.Some? ==> Agrees(dir, b.order.value) && b.order.value.id == b.ids && OneAsked(b.order.value, b.out))
  }

  /** Taking one quote off the list keeps what is known of the others. */
  lemma WithoutKeeps(out: seq<Asked>, k: nat, id: nat, ids: nat)
    requires k < |out| && KnownIds(out, ids)
    requires forall i, j :: 0 <= i < j < |out| ==> out[i].id != id || out[j].id != id
    ensures KnownIds(Without(out, k), ids) && |Without(out, k)| == |out| - 1
    ensures forall j :: 0 <= j < |Without(out, k)| ==> Without(out, k)[j] == out[if j < k then j else j + 1]
    ensures forall i, j :: 0 <= i < j < |Without(out, k)| ==> Without(out, k)[i].id != id || Without(out, k)[j].id != id
    ensures out[k].id == id ==> forall j :: 0 <= j < |Without(out, k)| ==> Without(out, k)[j].id != id
  {
  }

  /** The order on screen and the sequencer after a live answer. */
  lemma LiveAnswerIs(dir: Directory, b: Buy, k: nat, answer: Option<Candidate>, hasPrev: bool)
    requires k < |b.out| && IsLive(b, k)
    ensures var p, o := b.out[k], b.order.value;
            var call := AfterRequote(dir, o, p.failedAt, answer, p.recipient);
            Answered(dir, b, k, answer, hasPrev)
            == b.(out := Without(b.out, k), order := Some(Requoted(dir, o, answer, p.recipient)),
                  sys := if call.CallRetry? then Retried(b.sys, call.remaining, hasPrev) else b.sys)
  {
  }

  lemma PressBuyIs(dir: Directory, b: Buy, e: BuyEvent, o: Order)
    requires BuyEnabled(b, e) && e.PressBuy?
    requires o == Submitted(dir, b.ids + 1, e.pay, e.amount, e.needsApproval, e.best, e.recipient)
    ensures o.id == b.ids + 1
    ensures BuyEffect(dir, b, e)
            == b.(order := Some(o), ids := b.ids + 1, sys := Step(b.sys, Submit(o.steps, e.hasPrev)))
  {
  }

  lemma PressBuyKeeps(dir: Directory, b: Buy, e: BuyEvent)
    requires CardOk(dir, b) && BuyEnabled(b, e) && e.PressBuy?
    ensures CardOk(dir, BuyEffect(dir, b, e))
    ensures var b' := BuyEffect(dir, b, e);
            b'.order.Some? && (if b'.sys.hook.run.Some? then b'.sys.hook.run.value.steps == b'.order.value.steps
                               else b'.sys.hook.state.steps == [])
  {
    var o := Submitted(dir, b.ids + 1, e.pay, e.amount, e.needsApproval, e.best, e.recipient);
    SubmittedAgrees(dir, b.ids + 1, e.pay, e.amount, e.needsApproval, e.best, e.recipient);
    PressBuyIs(dir, b, e, o);
    SubmitMoves(b.sys, o.steps, e.hasPrev);
    NewOrderOk(dir, b, o, Step(b.sys, Submit(o.steps, e.hasPrev)));
  }

  lemma NewOrderOk(dir: Directory, b: Buy, o: Order, s: Sys)
    requires CardOk(dir, b) && Agrees(dir, o) && o.id == b.ids + 1 && HookOk(s.hook) && s.open.Some?
    ensures CardOk(dir, b.(order := Some(o), ids := b.ids + 1, sys := s))
  {
  }

  /** A retry of the list as it is, its prompt due at once, and refused at once: the list is what it was. */
  lemma DueAtOnceMoves(s: Sys)
    requires HookOk(s.hook)
    ensures Moves(s.hook, DueAtOnce(s).hook) && Moves(s.hook, RefusedAtOnce(DueAtOnce(s)).hook)
    ensures DueAtOnce(s).open == s.open && RefusedAtOnce(DueAtOnce(s)).open == s.open
  {
    FlowKeepsOpen(Retried(s, None, false), PreparationIn(None));
    FlowKeepsOpen(DueAtOnce(s), WalletRefuses(None, None));
    var s1, s2 := Retried(s, None, false), DueAtOnce(s);
    RetryMoves(s.hook, None, false);
    FlowMoves(s1, PreparationIn(None));
    FlowMoves(s2, WalletRefuses(None, None));
    CarriesOn(s.hook, s1.hook, s2.hook);
    CarriesOn(s.hook, s2.hook, RefusedAtOnce(s2).hook);
  }

  lemma CarriesOn(h: Hook, h': Hook, h'': Hook)
    requires Carries(h, h') && Carries(h', h'')
    ensures Carries(h, h'')
  {
  }

  /** A click on "Try again" sends for a quote, or retries the order's own steps. */
  lemma TriedAgainIs(b: Buy, recipient: Address, hasPrev: bool)
    requires b.order.Some?
    ensures var b' := TriedAgain(b, recipient, hasPrev);
            var failedAt := FailedAt(b.sys.hook.state.steps);
            && b'.ids == b.ids
            && (if b.connected && failedAt >= 0 && !b.order.value.requoting then
                  b' == b.(order := Some(b.order.value.(requoting := true)),
                           out := b.out + [Asked(b.order.value.id, failedAt, recipient)])
                else
                  b'.order == b.order && b'.out == b.out &&
                  (b'.sys == b.sys || b'.sys == Retried(b.sys, None, hasPrev) ||
                   b'.sys == DueAtOnce(b.sys) || b'.sys == RefusedAtOnce(DueAtOnce(b.sys))))
  {
  }

  /** Either way the list is what it was. */
  lemma TriedAgainMoves(b: Buy, recipient: Address, hasPrev: bool)
    requires b.order.Some? && HookOk(b.sys.hook)
    ensures Moves(b.sys.hook, TriedAgain(b, recipient, hasPrev).sys.hook)
    ensures TriedAgain(b, recipient, hasPrev).sys.open == b.sys.open
  {
    TriedAgainIs(b, recipient, hasPrev);
    RetryMoves(b.sys.hook, None, hasPrev);
    DueAtOnceMoves(b.sys);
    StaysMoves(b.sys.hook);
  }

  lemma StaysMoves(h: Hook)
    requires HookOk(h)
    ensures Moves(h, h)
  {
  }

  lemma AskingKeeps(dir: Directory, b: Buy, failedAt: nat, recipient: Address)
    requires CardOk(dir, b) && b.order.Some? && !b.order.value.requoting
    ensures CardOk(dir, b.(order := Some(b.order.value.(requoting := true)),
                           out := b.out + [Asked(b.order.value.id, failedAt, recipient)]))
  {
    assert forall k :: 0 <= k < |b.out| ==> b.out[k].id != b.order.value.id;
  }

  lemma PressTryAgainKeeps(dir: Directory, b: Buy, e: BuyEvent)
    requires CardOk(dir, b) && BuyEnabled(b, e) && e.PressTryAgain?
    ensures CardOk(dir, BuyEffect(dir, b, e))
  {
    var failedAt := FailedAt(b.sys.hook.state.steps);
    TriedAgainMoves(b, e.recipient, e.hasPrev);
    TriedAgainIs(b, e.recipient, e.hasPrev);
    if b.connected && failedAt >= 0 && !b.order.value.requoting {
      AskingKeeps(dir, b, failedAt, e.recipient);
    }
  }

  lemma LiveAnswerKeeps(dir: Directory, b: Buy, k: nat, answer: Option<Candidate>, hasPrev: bool)
    requires CardOk(dir, b) && BuyEnabled(b, QuoteBack(k, answer, hasPrev)) && IsLive(b, k)
    ensures CardOk(dir, Answered(dir, b, k, answer, hasPrev))
  {
    var p, o := b.out[k], b.order.value;
    var call := AfterRequote(dir, o, p.failedAt, answer, p.recipient);
    LiveAnswerIs(dir, b, k, answer, hasPrev);
    RequotedAgrees(dir, o, answer, p.recipient);
    WithoutKeeps(b.out, k, o.id, b.ids);
    RetryMoves(b.sys.hook, Some(From(Requoted(dir, o, answer, p.recipient).steps, p.failedAt)), hasPrev);
  }

  lemma AnswerKeeps(dir: Directory, b: Buy, k: nat, answer: Option<Candidate>, hasPrev: bool)
    requires CardOk(dir, b) && BuyEnabled(b, QuoteBack(k, answer, hasPrev))
    ensures CardOk(dir, Answered(dir, b, k, answer, hasPrev))
  {
    if IsLive(b, k) {
      LiveAnswerKeeps(dir, b, k, answer, hasPrev);
    } else {
      WithoutKeeps(b.out, k, if b.order.Some? then b.order.value.id else b.ids + 1, b.ids);
    }
  }

  /** Every other event moves the hook alone, or nothing. */
  lemma OthersMove(dir: Directory, b: Buy, e: BuyEvent)
    requires HookOk(b.sys.hook) && BuyEnabled(b, e)
    requires e.PressClose? || e.Flow? || e.WalletGone? || e.WalletBack? || e.NetworkGone? || e.NetworkBack?
    ensures var b' := BuyEffect(dir, b, e);
            && HookOk(b'.sys.hook) && b'.out == b.out && b'.ids == b.ids
            && (if e.PressClose? then
                  b'.order.None? && (b.sys.open.Some? ==> b'.sys.open.None? && b'.sys.hook.run.None?)
                else b'.order == b.order && b'.sys.open == b.sys.open && Carries(b.sys.hook, b'.sys.hook))
  {
    if e.PressClose? {
      CloseMoves(b.sys);
    } else if e.Flow? {
      FlowMoves(b.sys, e.event);
      FlowKeepsOpen(b.sys, e.event);
    } else if e.NetworkBack? {
      FlowMoves(b.sys, WalletRefuses(None, None));
      FlowKeepsOpen(b.sys, WalletRefuses(None, None));
    }
  }

  lemma BuyStepKeeps(dir: Directory, b: Buy, e: BuyEvent)
    requires CardOk(dir, b)
    ensures CardOk(dir, BuyStepped(dir, b, e))
  {
    if BuyEnabled(b, e) {
      if e.PressBuy? {
        PressBuyKeeps(dir, b, e);
      } else if e.PressTryAgain? {
        PressTryAgainKeeps(dir, b, e);
      } else if e.QuoteBack? {
        AnswerKeeps(dir, b, e.k, e.answer, e.hasPrev);
      } else {
        OthersMove(dir, b, e);
      }
    }
  }

  lemma {:induction false} BuyRunKeeps(dir: Directory, b: Buy, es: seq<BuyEvent>)
    requires CardOk(dir, b)
    ensures CardOk(dir, BuyExec(dir, b, es))
    decreases |es|
  {
    if es != [] {
      BuyStepKeeps(dir, b, es[0]);
      BuyRunKeeps(dir, BuyStepped(dir, b, es[0]), es[1..]);
    }
  }

  /**
   * Whatever happens the order on screen is consistent: its last step, floor, tokens and last row say the same thing.
   */
  lemma OrderAlwaysAgrees(dir: Directory, es: seq<BuyEvent>)
    requires BuyExec(dir, FRESH_CARD, es).order.Some?
    ensures Agrees(dir, BuyExec(dir, FRESH_CARD, es).order.value)
  {
    BuyRunKeeps(dir, FRESH_CARD, es);
  }

  /** A quote that comes back for an order that was closed or replaced changes neither the order nor anything sent. */
  lemma StaleQuoteChangesNothing(dir: Directory, b: Buy, k: nat, answer: Option<Candidate>, hasPrev: bool)
    requires BuyEnabled(b, QuoteBack(k, answer, hasPrev)) && !IsLive(b, k)
    ensures BuyEffect(dir, b, QuoteBack(k, answer, hasPrev)) == b.(out := Without(b.out, k))
  {
  }

  /**
   * A sequence that is working ignores the tail, while the card already shows the new order; one that waits for a hash
   * only takes the wait up again.
   */
  lemma BusySequenceIgnoresTheTail(dir: Directory, b: Buy, k: nat, answer: Option<Candidate>, hasPrev: bool)
    requires CardOk(dir, b) && BuyEnabled(b, QuoteBack(k, answer, hasPrev)) && IsLive(b, k) && !Resumes(b.sys.hook)
    ensures var b' := Answered(dir, b, k, answer, hasPrev);
            && b'.order == Some(Requoted(dir, b.order.value, answer, b.out[k].recipient))
            && (b'.sys.hook == b.sys.hook || b'.sys.hook == OnKeepWaiting(b.sys.hook))
            && (!b.sys.hook.loop.Off? ==> b'.sys.hook == b.sys.hook)
  {
    var p, o := b.out[k], b.order.value;
    LiveAnswerIs(dir, b, k, answer, hasPrev);
    OtherRetryMoves(b.sys.hook, Some(From(Requoted(dir, o, answer, p.recipient).steps, p.failedAt)), hasPrev);
  }
}
