/**
 * The sequencer behind its dialog, against an adversarial wallet and chain. The hook alone does not promise that no
 * step is sent twice; the dialog's gating (`closable`, the status that decides which button is drawn, `!seq.running`
 * before a new order) supplies the rest. A run is any list of events; an event whose guard does not hold is ignored.
 */
module TxFlow {
  import opened Wrappers
  import opened TxTypes
  import opened UseTx

  // ---------------------------------------------------------------- what the dialog derives from the state

  datatype Status = IsDone | IsError | IsWaiting | IsRunning

  function StatusOf(s: SeqState): Status {
    if s.done then IsDone else if s.failed then IsError else if s.waiting then IsWaiting else IsRunning
  }

  predicate Closable(s: SeqState, closableWhileWaiting: bool) {
    !s.running || s.syncing || (closableWhileWaiting && s.waiting)
  }

  predicate MaybeSent(s: SeqState) {
    exists i :: 0 <= i < |s.steps| && s.steps[i].phase == Error && s.steps[i].maybeSent
  }

  function CountDone(steps: seq<StepState>): nat {
    if steps == [] then 0 else (if steps[0].phase == Done then 1 else 0) + CountDone(steps[1..])
  }

  /** The 1-based step the dialog names. */
  function Current(s: SeqState): nat {
    if CountDone(s.steps) + 1 < |s.steps| then CountDone(s.steps) + 1 else |s.steps|
  }

  // ---------------------------------------------------------------- the world

  /** What has become of a transaction: `Failed` is a mined revert, or a nonce used up by other calldata. */
  datatype Fate = Pending | Executed | Failed

  /** One transaction the wallet signed for step `idx` of an order; `known` when the wallet handed the hook its hash. */
  datatype Flight = Flight(idx: nat, step: TxStep, hash: Hash, known: bool, fate: Fate)

  /**
   * One order: its current step list, everything the wallet ever sent for it, and the calls that executed, in order.
   */
  datatype OrderRec = OrderRec(steps: seq<TxStep>, flights: seq<Flight>, executed: seq<TxStep>)

  /**
   * `orders` are all orders ever opened, `open` the one in the dialog, `owner` the one the hook's run was started for.
   * `count` is the account's pending transaction count on the app's node.
   */
  datatype Sys = Sys(hook: Hook, orders: seq<OrderRec>, open: Option<nat>, owner: nat, count: nat)

  const START: Sys := Sys(INITIAL, [], None, 0, 0)

  datatype Event =
    | Submit(steps: seq<TxStep>, hasPrev: bool)
    | TryAgain(remaining: Option<seq<TxStep>>, hasPrev: bool)
    | PressKeepWaiting
    | Close(closableWhileWaiting: bool)
    | InputChanged
    | WalletIsBehind
    | PreparationIn(countBefore: Option<nat>)
    | EstimateReverts
    | AbortLands
    | WalletSends(hash: Hash)
    | WalletRefuses(conflict: Option<SendConflict>, sentAnyway: Option<Hash>)
    | CountAnswers(readable: bool)
    | ReceiptLost
    | ReceiptArrives(mined: Hash, hasPrev: bool)
    | Lands(order: nat, k: nat, ok: bool)
    | OtherTransaction

  function Replace(orders: seq<OrderRec>, k: nat, o: OrderRec): seq<OrderRec>
    requires k < |orders|
  {
    orders[k := o]
  }

  predicate OwnerKnown(s: Sys) { s.owner < |s.orders| }

  /**
   * When an event can happen. The UI's are the dialog's and the forms' gates; a refusal that is not a nonce conflict
   * sent nothing; a receipt answers what the chain did; the node's count read before the prompt is one it had.
   */
  predicate Enabled(s: Sys, e: Event) {
    match e
    case Submit(steps, _) => steps != [] && !s.hook.state.running
    case TryAgain(_, _) =>
      s.open.Some? && StatusOf(s.hook.state) == IsError && !MaybeSent(s.hook.state) && WellFormed(s.hook)
    case PressKeepWaiting => s.open.Some? && StatusOf(s.hook.state) == IsWaiting && WellFormed(s.hook)
    case Close(cww) => s.open.Some? && Closable(s.hook.state, cww)
    case InputChanged => s.hook.state.done || s.hook.state.failed
    case WalletIsBehind => s.hook.loop.Preparing? && !s.hook.loop.aborted && s.hook.loop.hasPrev
    case PreparationIn(before) =>
      s.hook.loop.Preparing? && !s.hook.loop.aborted && (before.Some? ==> before.value <= s.count)
    case EstimateReverts => s.hook.loop.Preparing? && !s.hook.loop.aborted
    case AbortLands => s.hook.loop.Preparing? && s.hook.loop.aborted
    case WalletSends(_) => s.hook.loop.Prompted? && s.hook.loop.i < |s.hook.loop.steps| && OwnerKnown(s)
    case WalletRefuses(conflict, sentAnyway) =>
      s.hook.loop.Prompted? && s.hook.loop.i < |s.hook.loop.steps| && OwnerKnown(s) &&
      (sentAnyway.Some? ==> conflict.Some?)
    case CountAnswers(_) => s.hook.loop.AwaitCount?
    case ReceiptLost => s.hook.loop.AwaitReceipt?
    case ReceiptArrives(_, _) =>
      s.hook.loop.AwaitReceipt? && OwnerKnown(s) && LastFate(s.orders[s.owner]) != Pending
    case Lands(o, k, _) => o < |s.orders| && k < |s.orders[o].flights| && s.orders[o].flights[k].fate == Pending
    case OtherTransaction => true
  }

  function LastFate(o: OrderRec): Fate {
    if o.flights == [] then Pending else o.flights[|o.flights| - 1].fate
  }

  function Launch(o: OrderRec, i: nat, steps: seq<TxStep>, hash: Hash, known: bool): OrderRec
    requires i < |steps|
  {
    o.(flights := o.flights + [Flight(i, steps[i], hash, known, Pending)])
  }

  function Land(o: OrderRec, k: nat, ok: bool): OrderRec
    requires k < |o.flights|
  {
    o.(flights := o.flights[k := o.flights[k].(fate := if ok then Executed else Failed)],
       executed := if ok then o.executed + [o.flights[k].step] else o.executed)
  }

  /** The failed run's order takes the spliced step list. */
  function Respliced(s: Sys, remaining: Option<seq<TxStep>>): seq<OrderRec> {
    if s.hook.run.Some? && 0 <= s.hook.run.value.failedAt < |s.hook.run.value.steps| && OwnerKnown(s)
    then Replace(s.orders, s.owner, s.orders[s.owner].(steps := Spliced(s.hook.run.value, remaining)))
    else s.orders
  }

  /** `seq.retry`, with no gate of the dialog in front of it. */
  function Retried(s: Sys, remaining: Option<seq<TxStep>>, hasPrev: bool): Sys {
    if WellFormed(s.hook) then s.(hook := OnRetry(s.hook, remaining, hasPrev), orders := Respliced(s, remaining)) else s
  }

  /** A run that failed, with no hash held: a retry takes it up again at the failed step. */
  predicate Resumes(h: Hook) {
    h.loop.Off? && h.run.Some? && h.run.value.failedAt >= 0 && h.run.value.waitingHash.None?
  }

  function Effect(s: Sys, e: Event): Sys
    requires Enabled(s, e)
  {
    var h := s.hook;
    match e
    case Submit(steps, hasPrev) =>
      Sys(OnRun(h, steps, hasPrev), s.orders + [OrderRec(steps, [], [])], Some(|s.orders|),
          if h.loop.Off? then |s.orders| else s.owner, s.count)
    case TryAgain(remaining, hasPrev) =>
      s.(hook := OnRetry(h, remaining, hasPrev), orders := Respliced(s, remaining))
    case PressKeepWaiting => s.(hook := OnKeepWaiting(h))
    case Close(_) => s.(hook := OnReset(h), open := None)
    case InputChanged => s.(hook := OnReset(h))
    case WalletIsBehind => s.(hook := OnSlow(h))
    case PreparationIn(before) => s.(hook := OnPrepared(h, before))
    case EstimateReverts => s.(hook := OnPrepareFailed(h))
    case AbortLands => s.(hook := OnPrepareAborted(h))
    case WalletSends(hash) =>
      s.(hook := OnWalletSends(h, hash), count := s.count + 1,
         orders := Replace(s.orders, s.owner, Launch(s.orders[s.owner], h.loop.i, h.loop.steps, hash, true)))
    case WalletRefuses(conflict, sentAnyway) =>
      var s' := s.(hook := OnWalletRefuses(h, conflict));
      if sentAnyway.None? then s'
      else s'.(count := s.count + 1,
               orders := Replace(s.orders, s.owner,
                                 Launch(s.orders[s.owner], h.loop.i, h.loop.steps, sentAnyway.value, false)))
    case CountAnswers(readable) => s.(hook := OnCount(h, if readable then Some(s.count) else None))
    case ReceiptLost => s.(hook := OnReceiptLost(h))
    case ReceiptArrives(mined, hasPrev) =>
      s.(hook := if LastFate(s.orders[s.owner]) == Executed then OnReceiptOk(h, mined, hasPrev) else OnReceiptBad(h))
    case Lands(o, k, ok) => s.(orders := Replace(s.orders, o, Land(s.orders[o], k, ok)))
    case OtherTransaction => s.(count := s.count + 1)
  }

  function Step(s: Sys, e: Event): Sys {
    if Enabled(s, e) then Effect(s, e) else s
  }

  function Exec(s: Sys, es: seq<Event>): Sys
    decreases |es|
  {
    if es == [] then s else Exec(Step(s, es[0]), es[1..])
  }

  // ---------------------------------------------------------------- what holds in every reachable state

  /** `executed` is exactly the first steps of the current list, in order, each once. */
  predicate ExecutedIsPrefix(o: OrderRec) {
    |o.executed| <= |o.steps| && o.executed == o.steps[..|o.executed|]
  }

  /** Sends go forward; a step is only ever sent again after its earlier transaction is known not to have run. */
  predicate NoResend(o: OrderRec) {
    forall j, k :: 0 <= j < k < |o.flights| ==>
      o.flights[j].fate != Pending && o.flights[j].idx <= o.flights[k].idx &&
      (o.flights[j].idx == o.flights[k].idx ==> o.flights[j].fate == Failed)
  }

  predicate FlightOk(o: OrderRec, f: Flight) {
    match f.fate
    case Pending => f.idx == |o.executed| && f.idx < |o.steps| && f.step == o.steps[f.idx]
    case Executed => f.idx < |o.executed|
    case Failed => true
  }

  predicate OrderOk(o: OrderRec) {
    && ExecutedIsPrefix(o)
    && NoResend(o)
    && forall k :: 0 <= k < |o.flights| ==> FlightOk(o, o.flights[k])
  }

  predicate Clean(o: OrderRec) {
    forall k :: 0 <= k < |o.flights| ==> o.flights[k].fate != Pending
  }

  /** Everything sent so far was for steps before `i`, or for `i` itself and known not to have run. */
  predicate ReadyFor(o: OrderRec, steps: seq<TxStep>, i: nat) {
    && o.steps == steps && i < |steps|
    && |o.executed| == i && Clean(o) && SentUpTo(o, i)
    && forall k :: 0 <= k < |o.flights| && o.flights[k].idx == i ==> o.flights[k].fate == Failed
  }

  predicate SentUpTo(o: OrderRec, i: nat) {
    forall k :: 0 <= k < |o.flights| ==> o.flights[k].idx <= i
  }

  /** The last thing sent is step `i`, under `hash`; whether it has executed shows in `executed`. */
  predicate InFlight(o: OrderRec, steps: seq<TxStep>, i: nat, hash: Hash) {
    && o.steps == steps && i < |steps| && SentUpTo(o, i)
    && |o.flights| > 0
    && var f := o.flights[|o.flights| - 1];
    f.idx == i && f.hash == hash && |o.executed| == (if f.fate == Executed then i + 1 else i)
  }

  /** Steps before `i` are done, step `i` is in `phase`, the rest wait their turn; labels are the order's. */
  predicate Shape(s: SeqState, steps: seq<TxStep>, i: nat, phase: Phase) {
    && |s.steps| == |steps| && i < |steps|
    && (forall j :: 0 <= j < |steps| ==> s.steps[j].title == steps[j].title)
    && (forall j :: 0 <= j < i ==> s.steps[j].phase == Done)
    && s.steps[i].phase == phase
    && (forall j :: i < j < |steps| ==> s.steps[j].phase == Todo)
  }

  /** The sequence shows every step done, and every one has executed. */
  predicate AllDone(s: SeqState, o: OrderRec) {
    && |s.steps| == |o.steps| == |o.executed|
    && forall j :: 0 <= j < |s.steps| ==> s.steps[j].phase == Done && s.steps[j].title == o.steps[j].title
  }

  predicate InProgress(s: SeqState) { s.running && !s.done && !s.failed && !s.waiting }

  predicate Attached(h: Hook, o: OrderRec, count: nat) {
    match h.loop
    case Off => (
      match h.run
      case None => !h.state.running && !h.state.waiting && !h.state.failed && (h.state == IDLE || AllDone(h.state, o))
      case Some(r) =>
        if r.failedAt == -1 then
          h.state.done && !h.state.running && !h.state.waiting && !h.state.failed && AllDone(h.state, o)
        else if r.waitingHash.None? then
          && 0 <= r.failedAt && h.state.failed && !h.state.running && !h.state.done && !h.state.waiting
          && Shape(h.state, r.steps, r.failedAt, Error) && o.steps == r.steps
          && |o.executed| >= r.failedAt
          && (h.state.steps[r.failedAt].maybeSent || ReadyFor(o, r.steps, r.failedAt))
        else
          && 0 <= r.failedAt && h.state.running && h.state.waiting && !h.state.failed && !h.state.done
          && Shape(h.state, r.steps, r.failedAt, Mining)
          && InFlight(o, r.steps, r.failedAt, r.waitingHash.value)
    )
    case Preparing(steps, i, _, aborted) =>
      if aborted then h.run.None? && h.state == IDLE
      else
        InProgress(h.state) && h.run == Some(RunRec(steps, -1, None)) && ReadyFor(o, steps, i) &&
        Shape(h.state, steps, i, Signing)
    case Prompted(steps, i, before) =>
      && InProgress(h.state) && h.run == Some(RunRec(steps, -1, None)) && ReadyFor(o, steps, i)
      && Shape(h.state, steps, i, Signing) && (before.Some? ==> before.value <= count)
    case AwaitCount(steps, i, before, _) =>
      && InProgress(h.state) && h.run == Some(RunRec(steps, -1, None)) && o.steps == steps && SentUpTo(o, i)
      && Shape(h.state, steps, i, Signing) && before <= count && |o.executed| >= i &&
         (before < count || ReadyFor(o, steps, i))
    case AwaitReceipt(steps, i, hash) =>
      && InProgress(h.state) && h.run == Some(RunRec(steps, -1, None)) && InFlight(o, steps, i, hash)
      && Shape(h.state, steps, i, Mining)
  }

  /** The hook agrees with what its order sent and executed. */
  predicate HookFits(h: Hook, o: OrderRec, count: nat) {
    && WellFormed(h)
    && (h.state.syncing ==> h.loop.Preparing? && !h.loop.aborted && h.loop.hasPrev)
    && Attached(h, o, count)
  }

  predicate OrdersOk(orders: seq<OrderRec>) { forall k :: 0 <= k < |orders| ==> OrderOk(orders[k]) }

  predicate Inv(s: Sys) {
    && OrdersOk(s.orders)
    && (s.open.Some? ==> s.open.value < |s.orders|)
    && (s.hook.run.Some? ==> s.open == Some(s.owner))
    && (if OwnerKnown(s) then HookFits(s.hook, s.orders[s.owner], s.count) else s.hook == INITIAL && s.orders == [])
  }

  // ---------------------------------------------------------------- every event keeps it

  lemma StartShape(s: SeqState, before: seq<TxStep>, steps: seq<TxStep>, i: nat)
    requires Shape(s, before, i, Error) && i < |steps| && steps[..i] == before[..i]
    ensures Shape(PatchPhase(StartState(s, steps, i, None), i, Signing, None), steps, i, Signing)
  {
    assert forall j :: 0 <= j < i ==> steps[j] == steps[..i][j] && before[j] == before[..i][j];
  }

  /** A change of the hook alone keeps the invariant when the hook still fits its order. */
  lemma HookChanges(s: Sys, h: Hook)
    requires Inv(s) && OwnerKnown(s) && HookFits(h, s.orders[s.owner], s.count)
    requires h.run.Some? ==> s.open == Some(s.owner)
    ensures Inv(s.(hook := h))
  {
  }

  /** And so does a change of the hook together with its order. */
  lemma OrderChanges(s: Sys, h: Hook, o: OrderRec, count: nat)
    requires Inv(s) && OwnerKnown(s) && OrderOk(o) && HookFits(h, o, count)
    requires h.run.Some? ==> s.open == Some(s.owner)
    ensures Inv(s.(hook := h, orders := Replace(s.orders, s.owner, o), count := count))
  {
  }

  lemma OwnerIsKnown(s: Sys)
    requires Inv(s) && s.hook != INITIAL
    ensures OwnerKnown(s) && HookFits(s.hook, s.orders[s.owner], s.count) && OrderOk(s.orders[s.owner])
    ensures s.hook.run.Some? ==> s.open == Some(s.owner)
  {
  }

  lemma FreshRunFits(h: Hook, steps: seq<TxStep>, hasPrev: bool, count: nat)
    requires h.loop.Off? && steps != []
    ensures HookFits(OnRun(h, steps, hasPrev), OrderRec(steps, [], []), count) && OrderOk(OrderRec(steps, [], []))
  {
  }

  lemma NewOrderKeeps(s: Sys, h: Hook, o: OrderRec)
    requires Inv(s) && OrderOk(o) && HookFits(h, o, s.count)
    ensures Inv(Sys(h, s.orders + [o], Some(|s.orders|), |s.orders|, s.count))
  {
  }

  lemma SubmitKeeps(s: Sys, steps: seq<TxStep>, hasPrev: bool)
    requires Inv(s) && Enabled(s, Submit(steps, hasPrev))
    ensures Inv(Effect(s, Submit(steps, hasPrev)))
  {
    if s.hook.loop.Off? {
      FreshRunFits(s.hook, steps, hasPrev, s.count);
      NewOrderKeeps(s, OnRun(s.hook, steps, hasPrev), OrderRec(steps, [], []));
    } else {
      OwnerIsKnown(s);
      AbortedKeeps(s, OrderRec(steps, [], []));
    }
  }

  /** An order opened while a cancelled preparation has yet to end is ignored by the hook, which keeps its old owner. */
  lemma AbortedKeeps(s: Sys, o: OrderRec)
    requires Inv(s) && OwnerKnown(s) && OrderOk(o) && s.hook.run.None?
    ensures Inv(Sys(s.hook, s.orders + [o], Some(|s.orders|), s.owner, s.count))
  {
  }

  /** A retry from the error state: the spliced list, ready at the failed step. */
  lemma RetryFits(h: Hook, o: OrderRec, count: nat, remaining: Option<seq<TxStep>>, hasPrev: bool)
    requires HookFits(h, o, count) && OrderOk(o) && h.run.Some?
    requires StatusOf(h.state) == IsError && !MaybeSent(h.state)
    ensures 0 <= h.run.value.failedAt < |h.run.value.steps|
    ensures var o' := o.(steps := Spliced(h.run.value, remaining));
            OrderOk(o') && HookFits(OnRetry(h, remaining, hasPrev), o', count)
  {
    var r := h.run.value;
    assert ReadyFor(o, r.steps, r.failedAt) by {
      assert !h.state.steps[r.failedAt].maybeSent;
    }
    var steps := Spliced(r, remaining);
    assert steps[..r.failedAt] == r.steps[..r.failedAt];
    var o' := o.(steps := steps);
    ResplicedOk(o, r.steps, r.failedAt, steps);
    if r.failedAt < |steps| {
      StartShape(h.state, r.steps, steps, r.failedAt);
      assert ReadyFor(o', steps, r.failedAt);
    }
  }

  lemma ResplicedOk(o: OrderRec, was: seq<TxStep>, i: nat, steps: seq<TxStep>)
    requires OrderOk(o) && ReadyFor(o, was, i) && i <= |steps| && steps[..i] == was[..i]
    ensures OrderOk(o.(steps := steps))
  {
    assert forall k :: 0 <= k < |o.flights| ==> FlightOk(o, o.flights[k]);
  }

  lemma TryAgainKeeps(s: Sys, remaining: Option<seq<TxStep>>, hasPrev: bool)
    requires Inv(s) && Enabled(s, TryAgain(remaining, hasPrev))
    ensures Inv(Effect(s, TryAgain(remaining, hasPrev)))
  {
    OwnerIsKnown(s);
    if s.hook.run.Some? {
      var o := s.orders[s.owner];
      RetryFits(s.hook, o, s.count, remaining, hasPrev);
      OrderChanges(s, OnRetry(s.hook, remaining, hasPrev), o.(steps := Spliced(s.hook.run.value, remaining)), s.count);
    }
  }

  lemma KeepWaitingFits(h: Hook, o: OrderRec, count: nat)
    requires HookFits(h, o, count)
    ensures HookFits(OnKeepWaiting(h), o, count)
  {
  }

  lemma KeepWaitingKeeps(s: Sys)
    requires Inv(s) && Enabled(s, PressKeepWaiting)
    ensures Inv(Effect(s, PressKeepWaiting))
  {
    OwnerIsKnown(s);
    KeepWaitingFits(s.hook, s.orders[s.owner], s.count);
    HookChanges(s, OnKeepWaiting(s.hook));
  }

  lemma ResetFits(h: Hook, o: OrderRec, count: nat)
    requires HookFits(h, o, count) && (h.loop.Off? || h.loop.Preparing?)
    ensures HookFits(OnReset(h), o, count)
  {
  }

  lemma CloseKeeps(s: Sys, closableWhileWaiting: bool)
    requires Inv(s) && Enabled(s, Close(closableWhileWaiting))
    ensures Inv(Effect(s, Close(closableWhileWaiting)))
  {
    if s.hook != INITIAL {
      OwnerIsKnown(s);
      ResetFits(s.hook, s.orders[s.owner], s.count);
    }
  }

  lemma InputKeeps(s: Sys)
    requires Inv(s) && Enabled(s, InputChanged)
    ensures Inv(Effect(s, InputChanged))
  {
    OwnerIsKnown(s);
    ResetFits(s.hook, s.orders[s.owner], s.count);
    HookChanges(s, OnReset(s.hook));
  }

  lemma SlowFits(h: Hook, o: OrderRec, count: nat)
    requires HookFits(h, o, count) && h.loop.Preparing? && !h.loop.aborted && h.loop.hasPrev
    ensures HookFits(OnSlow(h), o, count)
  {
  }

  lemma SlowKeeps(s: Sys)
    requires Inv(s) && Enabled(s, WalletIsBehind)
    ensures Inv(Effect(s, WalletIsBehind))
  {
    OwnerIsKnown(s);
    SlowFits(s.hook, s.orders[s.owner], s.count);
    HookChanges(s, OnSlow(s.hook));
  }

  lemma PreparedFits(h: Hook, o: OrderRec, count: nat, before: Option<nat>)
    requires HookFits(h, o, count) && h.loop.Preparing? && !h.loop.aborted && (before.Some? ==> before.value <= count)
    ensures HookFits(OnPrepared(h, before), o, count)
  {
  }

  lemma PreparedKeeps(s: Sys, before: Option<nat>)
    requires Inv(s) && Enabled(s, PreparationIn(before))
    ensures Inv(Effect(s, PreparationIn(before)))
  {
    OwnerIsKnown(s);
    PreparedFits(s.hook, s.orders[s.owner], s.count, before);
    HookChanges(s, OnPrepared(s.hook, before));
  }

  /** Failing the step in hand fits when it is ready to be sent again, or is marked as maybe sent. */
  lemma FailureFits(h: Hook, o: OrderRec, count: nat, conflict: Option<SendConflict>, maybeSent: bool)
    requires HookFits(h, o, count) && !h.loop.Off? && !h.loop.AwaitReceipt? && !(h.loop.Preparing? && h.loop.aborted)
    requires maybeSent || ReadyFor(o, h.loop.steps, h.loop.i)
    ensures HookFits(FailStep(h, h.loop.steps, h.loop.i, conflict, maybeSent), o, count)
  {
  }

  lemma FailureKeeps(s: Sys, conflict: Option<SendConflict>, maybeSent: bool)
    requires Inv(s) && OwnerKnown(s)
    requires !s.hook.loop.Off? && !s.hook.loop.AwaitReceipt? && !(s.hook.loop.Preparing? && s.hook.loop.aborted)
    requires maybeSent || ReadyFor(s.orders[s.owner], s.hook.loop.steps, s.hook.loop.i)
    ensures Inv(s.(hook := FailStep(s.hook, s.hook.loop.steps, s.hook.loop.i, conflict, maybeSent)))
  {
    OwnerIsKnown(s);
    FailureFits(s.hook, s.orders[s.owner], s.count, conflict, maybeSent);
    HookChanges(s, FailStep(s.hook, s.hook.loop.steps, s.hook.loop.i, conflict, maybeSent));
  }

  lemma EstimateKeeps(s: Sys)
    requires Inv(s) && Enabled(s, EstimateReverts)
    ensures Inv(Effect(s, EstimateReverts))
  {
    OwnerIsKnown(s);
    FailureKeeps(s, None, false);
  }

  lemma AbortKeeps(s: Sys)
    requires Inv(s) && Enabled(s, AbortLands)
    ensures Inv(Effect(s, AbortLands))
  {
    OwnerIsKnown(s);
    HookChanges(s, INITIAL);
  }

  lemma LaunchFlights(o: OrderRec, steps: seq<TxStep>, i: nat, hash: Hash, known: bool)
    requires OrderOk(o) && ReadyFor(o, steps, i)
    ensures NoResend(Launch(o, i, steps, hash, known))
  {
    var o' := Launch(o, i, steps, hash, known);
    forall j, k | 0 <= j < k < |o'.flights|
      ensures o'.flights[j].fate != Pending && o'.flights[j].idx <= o'.flights[k].idx
      ensures o'.flights[j].idx == o'.flights[k].idx ==> o'.flights[j].fate == Failed
    {
      assert o'.flights[j] == o.flights[j];
    }
  }

  /** The one send a ready step makes leaves exactly that step in flight, and nothing sent twice. */
  lemma LaunchKeeps(o: OrderRec, steps: seq<TxStep>, i: nat, hash: Hash, known: bool)
    requires OrderOk(o) && ReadyFor(o, steps, i)
    ensures OrderOk(Launch(o, i, steps, hash, known)) && InFlight(Launch(o, i, steps, hash, known), steps, i, hash)
  {
    var o' := Launch(o, i, steps, hash, known);
    LaunchFlights(o, steps, i, hash, known);
    forall k | 0 <= k < |o'.flights| ensures FlightOk(o', o'.flights[k]) {
      if k < |o.flights| { assert FlightOk(o, o.flights[k]); }
    }
  }

  lemma WalletSendsFits(h: Hook, o: OrderRec, count: nat, hash: Hash)
    requires HookFits(h, o, count) && OrderOk(o) && h.loop.Prompted?
    ensures var o' := Launch(o, h.loop.i, h.loop.steps, hash, true);
            OrderOk(o') && HookFits(OnWalletSends(h, hash), o', count + 1)
  {
    LaunchKeeps(o, h.loop.steps, h.loop.i, hash, true);
  }

  lemma WalletSendsKeeps(s: Sys, hash: Hash)
    requires Inv(s) && Enabled(s, WalletSends(hash))
    ensures Inv(Effect(s, WalletSends(hash)))
  {
    OwnerIsKnown(s);
    var o := s.orders[s.owner];
    WalletSendsFits(s.hook, o, s.count, hash);
    OrderChanges(s, OnWalletSends(s.hook, hash), Launch(o, s.hook.loop.i, s.hook.loop.steps, hash, true), s.count + 1);
  }

  lemma ConflictFits(h: Hook, o: OrderRec, count: nat, before: nat, conflict: SendConflict)
    requires HookFits(h, o, count) && h.loop.Prompted? && h.loop.countBefore == Some(before)
    ensures HookFits(h.(loop := AwaitCount(h.loop.steps, h.loop.i, before, conflict)), o, count)
  {
  }

  lemma WalletRefusesKeeps(s: Sys, conflict: Option<SendConflict>)
    requires Inv(s) && Enabled(s, WalletRefuses(conflict, None))
    ensures Inv(Effect(s, WalletRefuses(conflict, None)))
  {
    OwnerIsKnown(s);
    if conflict.None? || s.hook.loop.countBefore.None? {
      FailureKeeps(s, conflict, conflict.Some?);
    } else if conflict.value == AlreadySent {
      FailureKeeps(s, conflict, true);
    } else {
      var before := s.hook.loop.countBefore.value;
      ConflictFits(s.hook, s.orders[s.owner], s.count, before, conflict.value);
      HookChanges(s, s.hook.(loop := AwaitCount(s.hook.loop.steps, s.hook.loop.i, before, conflict.value)));
    }
  }

  /**
   * A conflict over a nonce that something did go out with: the step is marked, or the count that moved will mark it.
   */
  lemma SentAnywayFits(h: Hook, o: OrderRec, count: nat, conflict: SendConflict, hash: Hash)
    requires HookFits(h, o, count) && OrderOk(o) && h.loop.Prompted?
    ensures var o' := Launch(o, h.loop.i, h.loop.steps, hash, false);
            OrderOk(o') && HookFits(OnWalletRefuses(h, Some(conflict)), o', count + 1)
  {
    LaunchKeeps(o, h.loop.steps, h.loop.i, hash, false);
  }

  lemma SentAnywayEffect(s: Sys, conflict: SendConflict, hash: Hash)
    requires Enabled(s, WalletRefuses(Some(conflict), Some(hash)))
    ensures Effect(s, WalletRefuses(Some(conflict), Some(hash)))
         == s.(hook := OnWalletRefuses(s.hook, Some(conflict)), count := s.count + 1,
               orders := Replace(s.orders, s.owner,
                                 Launch(s.orders[s.owner], s.hook.loop.i, s.hook.loop.steps, hash, false)))
  {
  }

  lemma OwnerLaunches(s: Sys, conflict: SendConflict, hash: Hash)
    requires Inv(s) && OwnerKnown(s) && s.hook.loop.Prompted? && s.hook.loop.i < |s.hook.loop.steps|
    ensures Inv(s.(hook := OnWalletRefuses(s.hook, Some(conflict)), count := s.count + 1,
                   orders := Replace(s.orders, s.owner,
                                     Launch(s.orders[s.owner], s.hook.loop.i, s.hook.loop.steps, hash, false))))
  {
    OwnerIsKnown(s);
    var o := s.orders[s.owner];
    SentAnywayFits(s.hook, o, s.count, conflict, hash);
    OrderChanges(s, OnWalletRefuses(s.hook, Some(conflict)), Launch(o, s.hook.loop.i, s.hook.loop.steps, hash, false),
                 s.count + 1);
  }

  lemma WalletSendsAnywayKeeps(s: Sys, conflict: SendConflict, hash: Hash)
    requires Inv(s) && Enabled(s, WalletRefuses(Some(conflict), Some(hash)))
    ensures Inv(Effect(s, WalletRefuses(Some(conflict), Some(hash))))
  {
    SentAnywayEffect(s, conflict, hash);
    OwnerLaunches(s, conflict, hash);
  }

  lemma CountKeeps(s: Sys, readable: bool)
    requires Inv(s) && Enabled(s, CountAnswers(readable))
    ensures Inv(Effect(s, CountAnswers(readable)))
  {
    OwnerIsKnown(s);
    var after := if readable then Some(s.count) else None;
    FailureKeeps(s, Some(s.hook.loop.conflict), after != Some(s.hook.loop.before));
  }

  lemma ReceiptLostFits(h: Hook, o: OrderRec, count: nat)
    requires HookFits(h, o, count) && h.loop.AwaitReceipt?
    ensures HookFits(OnReceiptLost(h), o, count)
  {
  }

  lemma ReceiptLostKeeps(s: Sys)
    requires Inv(s) && Enabled(s, ReceiptLost)
    ensures Inv(Effect(s, ReceiptLost))
  {
    OwnerIsKnown(s);
    ReceiptLostFits(s.hook, s.orders[s.owner], s.count);
    HookChanges(s, OnReceiptLost(s.hook));
  }

  /** Once the chain has answered for the last send, the order is ready for its next step, or for the same one again. */
  lemma InFlightAfter(o: OrderRec, steps: seq<TxStep>, i: nat, hash: Hash)
    requires OrderOk(o) && InFlight(o, steps, i, hash) && LastFate(o) != Pending
    ensures Clean(o)
    ensures LastFate(o) == Failed ==> ReadyFor(o, steps, i)
    ensures LastFate(o) == Executed && i + 1 < |steps| ==> ReadyFor(o, steps, i + 1)
  {
    var n := |o.flights| - 1;
    forall k | 0 <= k < |o.flights|
      ensures o.flights[k].fate != Pending
      ensures o.flights[k].idx == i && k < n ==> o.flights[k].fate == Failed
    {
      if k < n {
        assert o.flights[k].idx <= o.flights[n].idx;
      }
    }
  }

  lemma ReceiptBadFits(h: Hook, o: OrderRec, count: nat)
    requires HookFits(h, o, count) && h.loop.AwaitReceipt? && ReadyFor(o, h.loop.steps, h.loop.i)
    ensures HookFits(OnReceiptBad(h), o, count)
  {
  }

  lemma ReceiptOkFits(h: Hook, o: OrderRec, count: nat, mined: Hash, hasPrev: bool)
    requires HookFits(h, o, count) && h.loop.AwaitReceipt? && |o.executed| == h.loop.i + 1
    requires h.loop.i + 1 < |h.loop.steps| ==> ReadyFor(o, h.loop.steps, h.loop.i + 1)
    ensures HookFits(OnReceiptOk(h, mined, hasPrev), o, count)
  {
  }

  lemma ReceiptBadKeeps(s: Sys, mined: Hash, hasPrev: bool)
    requires Inv(s) && Enabled(s, ReceiptArrives(mined, hasPrev)) && LastFate(s.orders[s.owner]) == Failed
    ensures Inv(Effect(s, ReceiptArrives(mined, hasPrev)))
  {
    OwnerIsKnown(s);
    InFlightAfter(s.orders[s.owner], s.hook.loop.steps, s.hook.loop.i, s.hook.loop.hash);
    ReceiptBadFits(s.hook, s.orders[s.owner], s.count);
    HookChanges(s, OnReceiptBad(s.hook));
  }

  lemma ReceiptOkKeeps(s: Sys, mined: Hash, hasPrev: bool)
    requires Inv(s) && Enabled(s, ReceiptArrives(mined, hasPrev)) && LastFate(s.orders[s.owner]) == Executed
    ensures Inv(Effect(s, ReceiptArrives(mined, hasPrev)))
  {
    OwnerIsKnown(s);
    InFlightAfter(s.orders[s.owner], s.hook.loop.steps, s.hook.loop.i, s.hook.loop.hash);
    ReceiptOkFits(s.hook, s.orders[s.owner], s.count, mined, hasPrev);
    HookChanges(s, OnReceiptOk(s.hook, mined, hasPrev));
  }

  lemma LandFlights(o: OrderRec, k: nat, ok: bool)
    requires OrderOk(o) && k < |o.flights| && o.flights[k].fate == Pending
    ensures k == |o.flights| - 1 && NoResend(Land(o, k, ok))
  {
    var last := o.flights[|o.flights| - 1];
    if k < |o.flights| - 1 {
      assert false;
    }
    var o' := Land(o, k, ok);
    forall i, j | 0 <= i < j < |o'.flights|
      ensures o'.flights[i].fate != Pending && o'.flights[i].idx <= o'.flights[j].idx
      ensures o'.flights[i].idx == o'.flights[j].idx ==> o'.flights[i].fate == Failed
    {
      assert o'.flights[i] == o.flights[i];
    }
  }

  /**
   * Only the last send of an order can still be pending, so landing it extends the executed calls by their next step.
   */
  lemma LandKeeps(o: OrderRec, k: nat, ok: bool)
    requires OrderOk(o) && k < |o.flights| && o.flights[k].fate == Pending
    ensures k == |o.flights| - 1
    ensures OrderOk(Land(o, k, ok))
  {
    LandFlights(o, k, ok);
    var o' := Land(o, k, ok);
    assert FlightOk(o, o.flights[k]);
    forall j | 0 <= j < |o'.flights| ensures FlightOk(o', o'.flights[j]) {
      assert FlightOk(o, o.flights[j]);
    }
  }

  lemma LandFits(h: Hook, o: OrderRec, count: nat, k: nat, ok: bool)
    requires OrderOk(o) && k == |o.flights| - 1 && o.flights[k].fate == Pending && HookFits(h, o, count)
    ensures HookFits(h, Land(o, k, ok), count)
  {
    assert FlightOk(o, o.flights[k]);
    assert !Clean(o);
  }

  lemma OtherOrderChanges(s: Sys, k: nat, o: OrderRec)
    requires Inv(s) && k < |s.orders| && k != s.owner && OrderOk(o)
    ensures Inv(s.(orders := Replace(s.orders, k, o)))
  {
  }

  lemma LandsKeeps(s: Sys, k: nat, j: nat, ok: bool)
    requires Inv(s) && Enabled(s, Lands(k, j, ok))
    ensures Inv(Effect(s, Lands(k, j, ok)))
  {
    var o := s.orders[k];
    LandKeeps(o, j, ok);
    if k == s.owner {
      LandFits(s.hook, o, s.count, j, ok);
      OrderChanges(s, s.hook, Land(o, j, ok), s.count);
    } else {
      OtherOrderChanges(s, k, Land(o, j, ok));
    }
  }

  lemma CountMoves(h: Hook, o: OrderRec, count: nat)
    requires HookFits(h, o, count)
    ensures HookFits(h, o, count + 1)
  {
  }

  lemma OtherKeeps(s: Sys)
    requires Inv(s) && Enabled(s, OtherTransaction)
    ensures Inv(Effect(s, OtherTransaction))
  {
    if OwnerKnown(s) {
      CountMoves(s.hook, s.orders[s.owner], s.count);
    }
  }

  predicate IsClick(e: Event) { e.Submit? || e.TryAgain? || e.PressKeepWaiting? || e.Close? || e.InputChanged? }

  predicate IsPreparation(e: Event) { e.WalletIsBehind? || e.PreparationIn? || e.EstimateReverts? || e.AbortLands? }

  predicate IsWallets(e: Event) { e.WalletSends? || e.WalletRefuses? }

  lemma ClickKeeps(s: Sys, e: Event)
    requires Inv(s) && Enabled(s, e) && IsClick(e)
    ensures Inv(Effect(s, e))
  {
    if e.Submit? {
      SubmitKeeps(s, e.steps, e.hasPrev);
    } else if e.TryAgain? {
      TryAgainKeeps(s, e.remaining, e.hasPrev);
    } else if e.PressKeepWaiting? {
      KeepWaitingKeeps(s);
    } else if e.Close? {
      CloseKeeps(s, e.closableWhileWaiting);
    } else {
      InputKeeps(s);
    }
  }

  lemma PreparationKeeps(s: Sys, e: Event)
    requires Inv(s) && Enabled(s, e) && IsPreparation(e)
    ensures Inv(Effect(s, e))
  {
    if e.WalletIsBehind? {
      SlowKeeps(s);
    } else if e.PreparationIn? {
      PreparedKeeps(s, e.countBefore);
    } else if e.EstimateReverts? {
      EstimateKeeps(s);
    } else {
      AbortKeeps(s);
    }
  }

  lemma WalletKeeps(s: Sys, e: Event)
    requires Inv(s) && Enabled(s, e) && IsWallets(e)
    ensures Inv(Effect(s, e))
  {
    if e.WalletSends? {
      WalletSendsKeeps(s, e.hash);
    } else if e.sentAnyway.None? {
      WalletRefusesKeeps(s, e.conflict);
    } else {
      WalletSendsAnywayKeeps(s, e.conflict.value, e.sentAnyway.value);
    }
  }

  lemma ReceiptKeeps(s: Sys, e: Event)
    requires Inv(s) && Enabled(s, e) && e.ReceiptArrives?
    ensures Inv(Effect(s, e))
  {
    if LastFate(s.orders[s.owner]) == Executed {
      ReceiptOkKeeps(s, e.mined, e.hasPrev);
    } else {
      ReceiptBadKeeps(s, e.mined, e.hasPrev);
    }
  }

  lemma ChainKeeps(s: Sys, e: Event)
    requires Inv(s) && Enabled(s, e) && (e.CountAnswers? || e.ReceiptLost? || e.Lands? || e.OtherTransaction?)
    ensures Inv(Effect(s, e))
  {
    if e.CountAnswers? {
      CountKeeps(s, e.readable);
    } else if e.ReceiptLost? {
      ReceiptLostKeeps(s);
    } else if e.Lands? {
      LandsKeeps(s, e.order, e.k, e.ok);
    } else {
      OtherKeeps(s);
    }
  }

  lemma StepKeeps(s: Sys, e: Event)
    requires Inv(s)
    ensures Inv(Step(s, e))
  {
    if Enabled(s, e) {
      if IsClick(e) {
        ClickKeeps(s, e);
      } else if IsPreparation(e) {
        PreparationKeeps(s, e);
      } else if IsWallets(e) {
        WalletKeeps(s, e);
      } else if e.ReceiptArrives? {
        ReceiptKeeps(s, e);
      } else {
        ChainKeeps(s, e);
      }
    }
  }

  lemma {:induction false} RunKeeps(s: Sys, es: seq<Event>)
    requires Inv(s)
    ensures Inv(Exec(s, es))
    decreases |es|
  {
    if es != [] {
      StepKeeps(s, es[0]);
      RunKeeps(Step(s, es[0]), es[1..]);
    }
  }

  // ---------------------------------------------------------------- the theorems

  /**
   * Over any run, in every order ever opened: the calls that executed are exactly its first steps, each sent-and-run
   * once.
   */
  lemma NoStepRunsTwice(es: seq<Event>, k: nat)
    requires k < |Exec(START, es).orders|
    ensures ExecutedIsPrefix(Exec(START, es).orders[k])
    ensures NoResend(Exec(START, es).orders[k])
  {
    RunKeeps(START, es);
  }

  /**
   * The wallet is only ever prompted for the open order, at the step after everything executed, with nothing
   * outstanding.
   */
  lemma PromptOnlyWhenNothingIsOutstanding(es: seq<Event>)
    requires Exec(START, es).hook.loop.Prompted?
    ensures var s := Exec(START, es);
            s.open == Some(s.owner) && s.owner < |s.orders| &&
            s.orders[s.owner].steps == s.hook.loop.steps && |s.orders[s.owner].executed| == s.hook.loop.i &&
            Clean(s.orders[s.owner])
  {
    RunKeeps(START, es);
  }

  /**
   * While a hash is waited for, neither retry, whatever tail it is given, nor keepWaiting prompts: the same hash is
   * awaited.
   */
  lemma WaitingNeverResends(h: Hook, remaining: Option<seq<TxStep>>, hasPrev: bool)
    requires WellFormed(h) && h.loop.Off? && h.run.Some? && h.run.value.failedAt >= 0 && h.run.value.waitingHash.Some?
    ensures var r := h.run.value;
            OnRetry(h, remaining, hasPrev).loop == AwaitReceipt(r.steps, r.failedAt, r.waitingHash.value) &&
            OnKeepWaiting(h).loop == AwaitReceipt(r.steps, r.failedAt, r.waitingHash.value)
  {
  }

  /** The hook waits for this hash of step `i`, in its loop or, held, between two of the user's clicks. */
  predicate WaitsFor(h: Hook, steps: seq<TxStep>, i: nat, hash: Hash) {
    i < |steps| &&
    (h.loop == AwaitReceipt(steps, i, hash) || (h.loop.Off? && h.run == Some(RunRec(steps, i, Some(hash)))))
  }

  lemma WaitGoesOn(s: Sys, e: Event, steps: seq<TxStep>, i: nat, hash: Hash)
    requires Inv(s) && WaitsFor(s.hook, steps, i, hash) && !e.ReceiptArrives? && !e.Close?
    ensures WaitsFor(Step(s, e).hook, steps, i, hash)
  {
  }

  /**
   * From any reachable wait for a hash, through any events but its receipt and a close, retries with any tail included,
   * the hook goes on waiting for that hash: no prompt, no other step, the same list.
   */
  lemma {:induction false} SameHashUntilItsReceipt(s: Sys, es: seq<Event>, steps: seq<TxStep>, i: nat, hash: Hash)
    requires Inv(s) && WaitsFor(s.hook, steps, i, hash)
    requires forall k :: 0 <= k < |es| ==> !es[k].ReceiptArrives? && !es[k].Close?
    ensures WaitsFor(Exec(s, es).hook, steps, i, hash) && !Exec(s, es).hook.loop.Prompted?
    decreases |es|
  {
    if es != [] {
      WaitGoesOn(s, es[0], steps, i, hash);
      StepKeeps(s, es[0]);
      SameHashUntilItsReceipt(Step(s, es[0]), es[1..], steps, i, hash);
    }
  }

  /** And its receipt settles it: on to the next step only if the call itself executed, else failed at this one. */
  lemma ReceiptSettlesTheWait(s: Sys, steps: seq<TxStep>, i: nat, hash: Hash, mined: Hash, hasPrev: bool)
    requires Inv(s) && WaitsFor(s.hook, steps, i, hash) && Enabled(s, ReceiptArrives(mined, hasPrev))
    ensures var s' := Step(s, ReceiptArrives(mined, hasPrev));
            var o := s.orders[s.owner];
            if LastFate(o) == Executed then
              o.executed == steps[..i + 1] &&
              (if i + 1 < |steps| then s'.hook.loop == Preparing(steps, i + 1, hasPrev, false)
               else s'.hook.loop.Off? && s'.hook.state.done)
            else
              o.executed == steps[..i] && s'.hook.loop.Off? && s'.hook.state.failed &&
              s'.hook.run == Some(RunRec(steps, i, None))
  {
  }

  /**
   * A retry resumes at the failed step of the spliced list, with every step before it executed and that step sent to no
   * effect.
   */
  lemma ResumesAtTheFailedStep(es: seq<Event>, remaining: Option<seq<TxStep>>, hasPrev: bool)
    requires var s := Exec(START, es); Enabled(s, TryAgain(remaining, hasPrev)) && s.hook.run.Some?
    ensures var s := Exec(START, es);
            var r := s.hook.run.value;
            var s' := Effect(s, TryAgain(remaining, hasPrev));
            0 <= r.failedAt < |r.steps| && s.owner < |s.orders| && s'.orders[s.owner].steps == Spliced(r, remaining) &&
            s.orders[s.owner].executed == s'.orders[s.owner].steps[..r.failedAt] && Clean(s.orders[s.owner]) &&
            (r.failedAt < |Spliced(r, remaining)| ==> s'.hook.loop.Preparing? && s'.hook.loop.i == r.failedAt) &&
            (r.failedAt == |Spliced(r, remaining)| ==> s'.hook.loop.Off? && s'.hook.state.done)
  {
    var s := Exec(START, es);
    RunKeeps(START, es);
    var r := s.hook.run.value;
    assert ReadyFor(s.orders[s.owner], r.steps, r.failedAt) by {
      assert !s.hook.state.steps[r.failedAt].maybeSent;
    }
    assert Spliced(r, remaining)[..r.failedAt] == r.steps[..r.failedAt];
  }

  /** What has executed for an order stays executed: the list of calls only grows. */
  lemma LandingGrows(o: OrderRec, k: nat, ok: bool)
    requires k < |o.flights|
    ensures o.executed <= Land(o, k, ok).executed
  {
  }

  lemma StepGrows(s: Sys, e: Event, k: nat)
    requires k < |s.orders|
    ensures k < |Step(s, e).orders| && s.orders[k].executed <= Step(s, e).orders[k].executed
  {
    if e.Lands? && Enabled(s, e) {
      LandingGrows(s.orders[e.order], e.k, e.ok);
    }
  }

  lemma {:induction false} ExecutedOnlyGrows(s: Sys, es: seq<Event>, k: nat)
    requires k < |s.orders|
    ensures k < |Exec(s, es).orders| && s.orders[k].executed <= Exec(s, es).orders[k].executed
    decreases |es|
  {
    if es != [] {
      StepGrows(s, es[0], k);
      ExecutedOnlyGrows(Step(s, es[0]), es[1..], k);
    }
  }

  lemma {:induction false} ExecConcat(s: Sys, es: seq<Event>, more: seq<Event>)
    ensures Exec(s, es + more) == Exec(Exec(s, es), more)
    decreases |es|
  {
    if es == [] {
      assert es + more == more;
    } else {
      assert (es + more)[1..] == es[1..] + more;
      ExecConcat(Step(s, es[0]), es[1..], more);
    }
  }

  /**
   * What the dialog shows as done has executed, and a sequence that reports done has executed every step of its order.
   */
  lemma DoneFits(h: Hook, o: OrderRec, count: nat, j: nat)
    requires HookFits(h, o, count) && OrderOk(o) && j < |h.state.steps| && h.state.steps[j].phase == Done
    ensures j < |o.executed| <= |o.steps| && o.executed[j] == o.steps[j]
    ensures h.state.steps[j].title == o.steps[j].title
  {
  }

  lemma AllDoneFits(h: Hook, o: OrderRec, count: nat)
    requires HookFits(h, o, count) && OrderOk(o) && h.state.done
    ensures o.executed == o.steps
  {
  }

  lemma DoneMeansExecuted(es: seq<Event>, j: nat)
    requires j < |Exec(START, es).hook.state.steps| && Exec(START, es).hook.state.steps[j].phase == Done
    ensures var s := Exec(START, es);
            s.owner < |s.orders| && j < |s.orders[s.owner].executed| <= |s.orders[s.owner].steps| &&
            s.orders[s.owner].executed[j] == s.orders[s.owner].steps[j] &&
            s.hook.state.steps[j].title == s.orders[s.owner].steps[j].title &&
            (s.hook.state.done ==> s.orders[s.owner].executed == s.orders[s.owner].steps)
  {
    RunKeeps(START, es);
    var s := Exec(START, es);
    OwnerIsKnown(s);
    DoneFits(s.hook, s.orders[s.owner], s.count, j);
    if s.hook.state.done {
      AllDoneFits(s.hook, s.orders[s.owner], s.count);
    }
  }

  /** The step states carry the labels of the open order's current step list, one state per step. */
  predicate CarryTitles(states: seq<StepState>, steps: seq<TxStep>) {
    |states| == |steps| && forall j :: 0 <= j < |steps| ==> states[j].title == steps[j].title
  }

  lemma StatesCarryTheOrdersTitles(es: seq<Event>)
    ensures var s := Exec(START, es);
            s.hook.state.steps == [] ||
            (s.owner < |s.orders| && CarryTitles(s.hook.state.steps, s.orders[s.owner].steps))
  {
    RunKeeps(START, es);
  }

  /** Phases read done*, then at most one step signing, mining or failed, then todo*. */
  predicate PhasesInOrder(steps: seq<StepState>) {
    exists i :: 0 <= i <= |steps| && PhasesSplitAt(steps, i)
  }

  predicate PhasesSplitAt(steps: seq<StepState>, i: nat)
    requires i <= |steps|
  {
    && (forall j :: 0 <= j < i ==> steps[j].phase == Done)
    && (i < |steps| ==> steps[i].phase in {Signing, Mining, Error})
    && (forall j :: i < j < |steps| ==> steps[j].phase == Todo)
  }

  /** The step a state is about: the one in flight or failed, or past the last when all are done. */
  function InFlightAt(h: Hook): nat
    requires WellFormed(h)
  {
    if !h.loop.Off? then (if h.loop.Preparing? && h.loop.aborted then 0 else h.loop.i)
    else if h.run.Some? && h.run.value.failedAt >= 0 then h.run.value.failedAt
    else |h.state.steps|
  }

  lemma PhasesSplitThere(s: Sys)
    requires Inv(s)
    ensures InFlightAt(s.hook) <= |s.hook.state.steps| && PhasesSplitAt(s.hook.state.steps, InFlightAt(s.hook))
  {
  }

  lemma DialogNamesTheSplit(s: SeqState, i: nat)
    requires i <= |s.steps| && PhasesSplitAt(s.steps, i)
    ensures forall k :: 0 <= k < |s.steps| && s.steps[k].phase != Done && s.steps[k].phase != Todo ==>
                          Current(s) == k + 1
    ensures s.steps != [] ==> 1 <= Current(s) <= |s.steps| && Current(s) == if i < |s.steps| then i + 1 else i
  {
    CountDoneIs(s.steps, i);
  }

  /**
   * In every reachable state the phases are in order, the dialog names the step in flight while there is one, and the
   * last step once all are done; never a step the list does not have.
   */
  lemma PhasesAreInOrder(es: seq<Event>)
    ensures PhasesInOrder(Exec(START, es).hook.state.steps)
    ensures var s := Exec(START, es).hook.state;
            forall i :: 0 <= i < |s.steps| && s.steps[i].phase != Done && s.steps[i].phase != Todo ==>
                          Current(s) == i + 1
    ensures var s := Exec(START, es).hook.state;
            s.steps != [] ==>
              1 <= Current(s) <= |s.steps| &&
              ((forall i :: 0 <= i < |s.steps| ==> s.steps[i].phase == Done) ==> Current(s) == |s.steps|)
  {
    RunKeeps(START, es);
    var s := Exec(START, es);
    PhasesSplitThere(s);
    DialogNamesTheSplit(s.hook.state, InFlightAt(s.hook));
  }

  lemma {:induction false} CountDoneIs(steps: seq<StepState>, i: nat)
    requires i <= |steps|
    requires forall j :: 0 <= j < |steps| ==> (steps[j].phase == Done <==> j < i)
    ensures CountDone(steps) == i
    decreases |steps|
  {
    if steps != [] {
      CountDoneIs(steps[1..], if i == 0 then 0 else i - 1);
    }
  }

  // ---------------------------------------------------------------- across orders

  predicate Awaiting(h: Hook) {
    h.loop.AwaitReceipt? || (h.loop.Off? && h.run.Some? && h.run.value.failedAt >= 0 && h.run.value.waitingHash.Some?)
  }

  predicate NothingKnownOut(o: OrderRec) {
    forall j :: 0 <= j < |o.flights| && o.flights[j].known ==> o.flights[j].fate != Pending
  }

  /** A transaction whose hash the app holds and that has not landed belongs to the order the hook is waiting on. */
  predicate OutstandingOnlyHere(s: Sys) {
    forall k :: 0 <= k < |s.orders| && !(k == s.owner && Awaiting(s.hook)) ==> NothingKnownOut(s.orders[k])
  }

  /** Only a receipt, or the wallet handing over a hash, changes whether the hook is waiting on one. */
  lemma AwaitingChanges(s: Sys, e: Event)
    requires Inv(s) && Enabled(s, e) && e != Close(true)
    ensures Awaiting(s.hook) && !e.ReceiptArrives? ==> Awaiting(Effect(s, e).hook) && Effect(s, e).owner == s.owner
  {
  }

  lemma ReceiptKeepsOutstanding(s: Sys, e: Event)
    requires Inv(s) && OutstandingOnlyHere(s) && Enabled(s, e) && e.ReceiptArrives?
    ensures OutstandingOnlyHere(Effect(s, e))
  {
    OwnerIsKnown(s);
    InFlightAfter(s.orders[s.owner], s.hook.loop.steps, s.hook.loop.i, s.hook.loop.hash);
    forall k | 0 <= k < |s.orders| ensures NothingKnownOut(s.orders[k]) {
      assert k != s.owner ==> NothingKnownOut(s.orders[k]);
    }
  }

  lemma SendKeepsOutstanding(s: Sys, e: Event)
    requires Inv(s) && OutstandingOnlyHere(s) && Enabled(s, e) && e.WalletSends?
    ensures OutstandingOnlyHere(Effect(s, e))
  {
    assert Awaiting(Effect(s, e).hook);
  }

  lemma RefusalKeepsOutstanding(s: Sys, e: Event)
    requires Inv(s) && OutstandingOnlyHere(s) && Enabled(s, e) && e.WalletRefuses?
    ensures OutstandingOnlyHere(Effect(s, e))
  {
    assert !Awaiting(s.hook);
  }

  /** The orders keep their flights, but for one that lands. */
  lemma FlightsStay(s: Sys, e: Event, k: nat)
    requires Inv(s) && Enabled(s, e) && !e.WalletSends? && !e.WalletRefuses? && k < |Effect(s, e).orders|
    requires k < |s.orders| && NothingKnownOut(s.orders[k])
    ensures NothingKnownOut(Effect(s, e).orders[k])
  {
  }

  lemma NewOrdersAreQuiet(s: Sys, e: Event, k: nat)
    requires Inv(s) && Enabled(s, e) && |s.orders| <= k < |Effect(s, e).orders|
    ensures NothingKnownOut(Effect(s, e).orders[k])
  {
  }

  lemma RestKeepsOutstanding(s: Sys, e: Event)
    requires Inv(s) && OutstandingOnlyHere(s) && Enabled(s, e) && e != Close(true)
    requires !e.ReceiptArrives? && !e.WalletSends? && !e.WalletRefuses?
    ensures OutstandingOnlyHere(Effect(s, e))
  {
    var s' := Effect(s, e);
    AwaitingChanges(s, e);
    forall k | 0 <= k < |s'.orders| && !(k == s'.owner && Awaiting(s'.hook)) ensures NothingKnownOut(s'.orders[k]) {
      if k < |s.orders| {
        FlightsStay(s, e, k);
      } else {
        NewOrdersAreQuiet(s, e, k);
      }
    }
  }

  lemma StepKeepsOutstanding(s: Sys, e: Event)
    requires Inv(s) && OutstandingOnlyHere(s) && e != Close(true)
    ensures OutstandingOnlyHere(Step(s, e))
  {
    if Enabled(s, e) {
      if e.ReceiptArrives? {
        ReceiptKeepsOutstanding(s, e);
      } else if e.WalletSends? {
        SendKeepsOutstanding(s, e);
      } else if e.WalletRefuses? {
        RefusalKeepsOutstanding(s, e);
      } else {
        RestKeepsOutstanding(s, e);
      }
    }
  }

  lemma {:induction false} RunKeepsOutstanding(s: Sys, es: seq<Event>)
    requires Inv(s) && OutstandingOnlyHere(s) && Close(true) !in es
    ensures OutstandingOnlyHere(Exec(s, es))
    decreases |es|
  {
    if es != [] {
      StepKeeps(s, es[0]);
      StepKeepsOutstanding(s, es[0]);
      RunKeepsOutstanding(Step(s, es[0]), es[1..]);
    }
  }

  /**
   * A flow whose dialog cannot be closed while it waits (the buy) never prompts the wallet, for any order, while a
   * transaction of any order whose hash it holds is still out.
   */
  lemma NoPromptAcrossOrders(es: seq<Event>, k: nat, j: nat)
    requires Close(true) !in es && Exec(START, es).hook.loop.Prompted?
    requires k < |Exec(START, es).orders| && j < |Exec(START, es).orders[k].flights|
    requires Exec(START, es).orders[k].flights[j].known
    ensures Exec(START, es).orders[k].flights[j].fate != Pending
  {
    RunKeepsOutstanding(START, es);
  }

  // ---------------------------------------------------------------- what the hook leaves to its callers

  /**
   * `run` is not refused while the hook holds an unlanded hash: without `!seq.running` in front of it, a second call is
   * prepared and prompted while the first is out, and the hash is forgotten.
   */
  lemma RunIsNotRefusedWhileWaiting(h: Hook, steps: seq<TxStep>, hasPrev: bool, before: Option<nat>)
    requires WellFormed(h) && steps != [] && h.loop.Off? && h.run.Some? && h.run.value.waitingHash.Some?
    requires h.state.running && h.state.waiting
    ensures OnRun(h, steps, hasPrev).loop == Preparing(steps, 0, hasPrev, false)
    ensures OnPrepared(OnRun(h, steps, hasPrev), before).loop == Prompted(steps, 0, before)
    ensures OnRun(h, steps, hasPrev).run == Some(RunRec(steps, -1, None))
  {
  }

  /** Such a hook is one run away: a step is sent and its receipt does not come. */
  lemma SuchAWaitIsReachable(step: TxStep, hash: Hash)
    ensures var s := Step(Step(START, Submit([step], false)), PreparationIn(None));
            var h := Step(Step(s, WalletSends(hash)), ReceiptLost).hook;
            WellFormed(h) && h.loop.Off? && h.run == Some(RunRec([step], 0, Some(hash))) &&
            h.state.running && h.state.waiting
  {
    var s := Step(Step(START, Submit([step], false)), PreparationIn(None));
    assert Step(s, WalletSends(hash)).hook.loop == AwaitReceipt([step], 0, hash);
  }

  /** `reset` stops a preparation and nothing else: during mining the loop goes on to prompt the next step. */
  lemma ResetDoesNotStopMining(h: Hook, mined: Hash, hasPrev: bool)
    requires h.loop.AwaitReceipt? && h.loop.i + 1 < |h.loop.steps|
    ensures OnReset(h).loop == h.loop
    ensures OnReceiptOk(OnReset(h), mined, hasPrev).loop == Preparing(h.loop.steps, h.loop.i + 1, hasPrev, false)
    ensures OnReceiptOk(OnReset(h), mined, hasPrev).state.steps == []
  {
  }
}
