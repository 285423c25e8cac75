/** The card's rows and the list behind them: exactly which answers, over all runs of the card, part the two. */
module BuyRows {
  import opened Wrappers
  import opened TxTypes
  import opened UseTx
  import opened TxFlow
  import opened BestRoute
  import opened FlowTimeline
  import opened BuyOrder
  import opened BuyFlow

  /** The list is the order's on screen, but for what its buy asks for. */
  predicate ListFits(dir: Directory, o: Order, steps: seq<TxStep>) {
    |steps| == |o.steps| > 0 && DropLast(steps) == DropLast(o.steps) && steps[|steps| - 1].title == BuyLabel(dir)
  }

  predicate HookFitsOrder(dir: Directory, o: Order, h: Hook) {
    if h.run.Some? then ListFits(dir, o, h.run.value.steps) else h.state.steps == []
  }

  predicate AskedInside(o: Order, out: seq<Asked>) {
    forall k :: 0 <= k < |out| && out[k].id == o.id ==> out[k].failedAt < |o.steps|
  }

  predicate RowsOk(dir: Directory, b: Buy) {
    CardOk(dir, b) &&
    (b.order.Some? ==> HookFitsOrder(dir, b.order.value, b.sys.hook) && AskedInside(b.order.value, b.out))
  }

  predicate AllOwn(rows: seq<Row>) { forall r :: 0 <= r < |rows| ==> ShowsItsOwn(rows[r]) }

  /** Each row shows its own step's state or, sending nothing, none; and every state is on a row, once and in order. */
  predicate RowsShow(flow: seq<FlowStep>, states: seq<StepState>) {
    var rows := Rows(flow, states, 0);
    |rows| == |flow| && StatesShown(rows) == states && AllOwn(rows) &&
    forall r :: 0 <= r < |rows| ==> rows[r].flow == flow[r]
  }

  predicate ShowsAll(b: Buy) {
    b.order.Some? && b.sys.hook.state.steps != [] ==> RowsShow(b.order.value.flow, b.sys.hook.state.steps)
  }

  /** A tail that is taken up is taken up at the step its quote was asked for; the card could compare the two. */
  predicate AtItsStep(b: Buy, e: BuyEvent) {
    BuyEnabled(b, e) && e.QuoteBack? && Resends(b, e.k, e.answer) ==>
      b.sys.hook.run.value.failedAt == b.out[e.k].failedAt
  }

  // ---------------------------------------------------------------- rows and states

  lemma TitledIsShown(flow: seq<FlowStep>, states: seq<StepState>)
    requires Titled(flow, states, 0)
    ensures RowsShow(flow, states)
  {
    RowsShowTheirOwnFrom(flow, states, 0);
    RowsShowEveryStateFrom(flow, states, 0);
    assert states[0..] == states;
  }

  lemma AllOwnOfMore(row: Row, rest: seq<Row>)
    requires AllOwn([row] + rest)
    ensures ShowsItsOwn(row) && AllOwn(rest)
  {
    assert ([row] + rest)[0] == row;
    assert forall r :: 0 <= r < |rest| ==> rest[r] == ([row] + rest)[r + 1];
  }

  /** Rows that all show their own show as many states as there are rows that send. */
  lemma {:induction false} ShownAreCounted(flow: seq<FlowStep>, states: seq<StepState>, sent: nat)
    requires AllOwn(Rows(flow, states, sent))
    ensures |StatesShown(Rows(flow, states, sent))| == |SentTitles(flow)|
    decreases |flow|
  {
    if flow != [] {
      var row := Row(flow[0], if IsSent(flow[0]) then StateAt(states, sent) else None);
      var rest := Rows(flow[1..], states, NextSent(flow[0], sent));
      assert Rows(flow, states, sent) == [row] + rest;
      AllOwnOfMore(row, rest);
      ShownAreCounted(flow[1..], states, NextSent(flow[0], sent));
      ShownOfMore(row, rest);
    }
  }

  lemma ShownMeansAsMany(flow: seq<FlowStep>, states: seq<StepState>)
    requires RowsShow(flow, states)
    ensures |states| == |SentTitles(flow)|
  {
    ShownAreCounted(flow, states, 0);
  }

  lemma ListCarriesTheRows(dir: Directory, o: Order, steps: seq<TxStep>, states: seq<StepState>)
    requires Agrees(dir, o) && ListFits(dir, o, steps) && CarryTitles(states, steps)
    ensures Titled(o.flow, states, 0)
  {
    forall j | 0 <= j < |steps| ensures steps[j].title == o.steps[j].title {
      assert j < |steps| - 1 ==> DropLast(steps)[j] == DropLast(o.steps)[j];
    }
    assert forall j :: 0 <= j < |o.steps| ==> Titles(o.steps)[j] == o.steps[j].title;
  }

  lemma FittingRowsShow(dir: Directory, b: Buy)
    requires RowsOk(dir, b)
    ensures ShowsAll(b)
  {
    if b.order.Some? && b.sys.hook.state.steps != [] {
      ListCarriesTheRows(dir, b.order.value, b.sys.hook.run.value.steps, b.sys.hook.state.steps);
      TitledIsShown(b.order.value.flow, b.sys.hook.state.steps);
    }
  }

  // ---------------------------------------------------------------- a tail taken up

  lemma FromLength(steps: seq<TxStep>, k: nat)
    requires k < |steps|
    ensures From(steps, k) != [] && |From(steps, k)| == |steps| - k
  {
  }

  /** At the step it was asked for, the spliced list is the rebuilt order. */
  lemma SplicedIsTheOrder(r: RunRec, steps: seq<TxStep>)
    requires 0 <= r.failedAt < |r.steps| == |steps| && r.waitingHash.None? && DropLast(r.steps) == DropLast(steps)
    ensures Spliced(r, Some(From(steps, r.failedAt))) == steps
  {
    var k := r.failedAt;
    assert r.steps[..k] == DropLast(r.steps)[..k] == DropLast(steps)[..k] == steps[..k];
  }

  /** Anywhere else it is longer or shorter than the order, and so is what is shown of it. */
  lemma TailElsewhereMisfits(dir: Directory, h: Hook, o: Order, asked: nat, hasPrev: bool)
    requires HookOk(h) && Resumes(h) && Agrees(dir, o) && |h.run.value.steps| == |o.steps|
    requires asked < |o.steps| && asked != h.run.value.failedAt
    ensures var states := OnRetry(h, Some(From(o.steps, asked)), hasPrev).state.steps;
            states != [] && !RowsShow(o.flow, states)
  {
    var tail := From(o.steps, asked);
    FromLength(o.steps, asked);
    ResumeMoves(h, Some(tail), hasPrev);
    var states := OnRetry(h, Some(tail), hasPrev).state.steps;
    assert |states| == |Spliced(h.run.value, Some(tail))| == h.run.value.failedAt + |o.steps| - asked;
    assert |SentTitles(o.flow)| == |Titles(o.steps)|;
    if RowsShow(o.flow, states) {
      ShownMeansAsMany(o.flow, states);
    }
  }

  /** A fitting list under a rebuilt order of the same steps but its buy. */
  lemma RequotedFits(dir: Directory, o: Order, o': Order, h: Hook)
    requires HookFitsOrder(dir, o, h) && DropLast(o'.steps) == DropLast(o.steps) && |o'.steps| == |o.steps|
    ensures HookFitsOrder(dir, o', h)
  {
  }

  lemma CarriedFits(dir: Directory, o: Order, h: Hook, h': Hook)
    requires HookFitsOrder(dir, o, h) && Carries(h, h')
    ensures HookFitsOrder(dir, o, h')
  {
  }

  lemma AskedStaysInside(b: Buy, k: nat, o: Order)
    requires k < |b.out| && b.order.Some? && AskedInside(b.order.value, b.out)
    requires o.id == b.order.value.id && |o.steps| == |b.order.value.steps|
    ensures AskedInside(o, Without(b.out, k))
  {
    forall j | 0 <= j < |Without(b.out, k)| && Without(b.out, k)[j].id == o.id
      ensures Without(b.out, k)[j].failedAt < |o.steps|
    {
      assert Without(b.out, k)[j] == b.out[if j < k then j else j + 1];
    }
  }

  lemma TakenUpAtItsStep(dir: Directory, h: Hook, o: Order, o': Order, hasPrev: bool)
    requires HookOk(h) && Resumes(h) && HookFitsOrder(dir, o, h) && Agrees(dir, o')
    requires DropLast(o'.steps) == DropLast(o.steps) && |o'.steps| == |o.steps|
    ensures var h' := OnRetry(h, Some(From(o'.steps, h.run.value.failedAt)), hasPrev);
            && h'.run == Some(RunRec(o'.steps, -1, None)) && HookFitsOrder(dir, o', h')
            && h'.loop == Preparing(o'.steps, h.run.value.failedAt, hasPrev, false)
  {
    var r := h.run.value;
    SplicedIsTheOrder(r, o'.steps);
    FromLength(o'.steps, r.failedAt);
    ResumeMoves(h, Some(From(o'.steps, r.failedAt)), hasPrev);
  }

  /** A tail of the rebuilt order starts at the failed step; the list is the rebuilt order if that step is its own. */
  lemma TailTakenUp(dir: Directory, h: Hook, o: Order, o': Order, asked: nat, hasPrev: bool)
    requires HookOk(h) && Resumes(h) && HookFitsOrder(dir, o, h) && Agrees(dir, o')
    requires DropLast(o'.steps) == DropLast(o.steps) && |o'.steps| == |o.steps| && asked < |o'.steps|
    ensures var loop := OnRetry(h, Some(From(o'.steps, asked)), hasPrev).loop;
            loop.Preparing? && loop.i == h.run.value.failedAt && loop.hasPrev == hasPrev && !loop.aborted &&
            (loop.steps == o'.steps <==> h.run.value.failedAt == asked)
  {
    var r := h.run.value;
    FromLength(o'.steps, asked);
    ResumeMoves(h, Some(From(o'.steps, asked)), hasPrev);
    if r.failedAt == asked {
      SplicedIsTheOrder(r, o'.steps);
    }
    assert |Spliced(r, Some(From(o'.steps, asked)))| == r.failedAt + |o'.steps| - asked;
  }

  /** Where nothing is taken up, the list under the rebuilt order is the one before. */
  lemma NotTakenUp(dir: Directory, b: Buy, k: nat, answer: Option<Candidate>, hasPrev: bool)
    requires RowsOk(dir, b) && BuyEnabled(b, QuoteBack(k, answer, hasPrev)) && IsLive(b, k) && !Resends(b, k, answer)
    ensures HookFitsOrder(dir, Requoted(dir, b.order.value, answer, b.out[k].recipient),
                          Answered(dir, b, k, answer, hasPrev).sys.hook)
  {
    var p, o, h := b.out[k], b.order.value, b.sys.hook;
    var o' := Requoted(dir, o, answer, p.recipient);
    LiveAnswerIs(dir, b, k, answer, hasPrev);
    RequotedAgrees(dir, o, answer, p.recipient);
    RequotedFits(dir, o, o', h);
    if !Resumes(h) {
      OtherRetryMoves(h, Some(From(o'.steps, p.failedAt)), hasPrev);
      CarriedFits(dir, o', h, OnRetry(h, Some(From(o'.steps, p.failedAt)), hasPrev));
    }
  }

  lemma AnswerAtItsStepFits(dir: Directory, b: Buy, k: nat, answer: Option<Candidate>, hasPrev: bool)
    requires RowsOk(dir, b) && BuyEnabled(b, QuoteBack(k, answer, hasPrev)) && IsLive(b, k)
    requires AtItsStep(b, QuoteBack(k, answer, hasPrev))
    ensures RowsOk(dir, Answered(dir, b, k, answer, hasPrev))
  {
    var p, o := b.out[k], b.order.value;
    var o' := Requoted(dir, o, answer, p.recipient);
    LiveAnswerIs(dir, b, k, answer, hasPrev);
    LiveAnswerKeeps(dir, b, k, answer, hasPrev);
    RequotedAgrees(dir, o, answer, p.recipient);
    AskedStaysInside(b, k, o');
    if Resends(b, k, answer) {
      TakenUpAtItsStep(dir, b.sys.hook, o, o', hasPrev);
    } else {
      NotTakenUp(dir, b, k, answer, hasPrev);
    }
  }

  lemma AnswerElsewhereMisfits(dir: Directory, b: Buy, k: nat, answer: Option<Candidate>, hasPrev: bool)
    requires RowsOk(dir, b) && BuyEnabled(b, QuoteBack(k, answer, hasPrev))
    requires !AtItsStep(b, QuoteBack(k, answer, hasPrev))
    ensures !ShowsAll(Answered(dir, b, k, answer, hasPrev))
  {
    var p, o := b.out[k], b.order.value;
    LiveAnswerIs(dir, b, k, answer, hasPrev);
    RequotedAgrees(dir, o, answer, p.recipient);
    TailElsewhereMisfits(dir, b.sys.hook, Requoted(dir, o, answer, p.recipient), p.failedAt, hasPrev);
  }

  // ---------------------------------------------------------------- every event

  lemma PressBuyFits(dir: Directory, b: Buy, e: BuyEvent)
    requires CardOk(dir, b) && BuyEnabled(b, e) && e.PressBuy?
    ensures RowsOk(dir, BuyEffect(dir, b, e))
  {
    var o := Submitted(dir, b.ids + 1, e.pay, e.amount, e.needsApproval, e.best, e.recipient);
    PressBuyKeeps(dir, b, e);
    PressBuyIs(dir, b, e, o);
  }

  lemma AskingStaysInside(b: Buy, recipient: Address, hasPrev: bool)
    requires HookOk(b.sys.hook) && b.order.Some? && Enabled(b.sys, TryAgain(None, false))
    requires |b.sys.hook.run.value.steps| == |b.order.value.steps| && AskedInside(b.order.value, b.out)
    ensures var b' := TriedAgain(b, recipient, hasPrev);
            b'.order.Some? && b'.order.value.(requoting := b.order.value.requoting) == b.order.value &&
            AskedInside(b'.order.value, b'.out)
  {
    TriedAgainIs(b, recipient, hasPrev);
    ErrorStateHasAFailedRun(b.sys);
  }

  lemma TryAgainFits(dir: Directory, b: Buy, e: BuyEvent)
    requires RowsOk(dir, b) && BuyEnabled(b, e) && e.PressTryAgain?
    ensures RowsOk(dir, BuyEffect(dir, b, e))
  {
    PressTryAgainKeeps(dir, b, e);
    TriedAgainMoves(b, e.recipient, e.hasPrev);
    CarriedFits(dir, b.order.value, b.sys.hook, TriedAgain(b, e.recipient, e.hasPrev).sys.hook);
    AskingStaysInside(b, e.recipient, e.hasPrev);
  }

  lemma OthersFit(dir: Directory, b: Buy, e: BuyEvent)
    requires RowsOk(dir, b) && BuyEnabled(b, e)
    requires e.PressClose? || e.Flow? || e.WalletGone? || e.WalletBack? || e.NetworkGone? || e.NetworkBack?
    ensures RowsOk(dir, BuyEffect(dir, b, e))
  {
    BuyStepKeeps(dir, b, e);
    OthersMove(dir, b, e);
    if !e.PressClose? && b.order.Some? {
      CarriedFits(dir, b.order.value, b.sys.hook, BuyEffect(dir, b, e).sys.hook);
    }
  }

  lemma StaleAnswerFits(dir: Directory, b: Buy, k: nat, answer: Option<Candidate>, hasPrev: bool)
    requires RowsOk(dir, b) && BuyEnabled(b, QuoteBack(k, answer, hasPrev)) && !IsLive(b, k)
    ensures RowsOk(dir, Answered(dir, b, k, answer, hasPrev))
  {
    AnswerKeeps(dir, b, k, answer, hasPrev);
    if b.order.Some? {
      AskedStaysInside(b, k, b.order.value);
    }
  }

  lemma AnswerFits(dir: Directory, b: Buy, k: nat, answer: Option<Candidate>, hasPrev: bool)
    requires RowsOk(dir, b) && BuyEnabled(b, QuoteBack(k, answer, hasPrev))
    ensures if AtItsStep(b, QuoteBack(k, answer, hasPrev)) then RowsOk(dir, Answered(dir, b, k, answer, hasPrev))
            else !ShowsAll(Answered(dir, b, k, answer, hasPrev))
  {
    if !IsLive(b, k) {
      StaleAnswerFits(dir, b, k, answer, hasPrev);
    } else if AtItsStep(b, QuoteBack(k, answer, hasPrev)) {
      AnswerAtItsStepFits(dir, b, k, answer, hasPrev);
    } else {
      AnswerElsewhereMisfits(dir, b, k, answer, hasPrev);
    }
  }

  lemma StepFits(dir: Directory, b: Buy, e: BuyEvent)
    requires RowsOk(dir, b)
    ensures if AtItsStep(b, e) then RowsOk(dir, BuyStepped(dir, b, e)) else !ShowsAll(BuyStepped(dir, b, e))
  {
    if BuyEnabled(b, e) {
      if e.QuoteBack? {
        AnswerFits(dir, b, e.k, e.answer, e.hasPrev);
      } else if e.PressBuy? {
        PressBuyFits(dir, b, e);
      } else if e.PressTryAgain? {
        TryAgainFits(dir, b, e);
      } else {
        OthersFit(dir, b, e);
      }
    }
  }

  // ---------------------------------------------------------------- every run

  predicate ShownThroughout(dir: Directory, b: Buy, es: seq<BuyEvent>)
    decreases |es|
  {
    ShowsAll(b) && (es == [] || ShownThroughout(dir, BuyStepped(dir, b, es[0]), es[1..]))
  }

  predicate AllAtTheirStep(dir: Directory, b: Buy, es: seq<BuyEvent>)
    decreases |es|
  {
    es == [] || (AtItsStep(b, es[0]) && AllAtTheirStep(dir, BuyStepped(dir, b, es[0]), es[1..]))
  }

  lemma {:induction false} RunShowsExactly(dir: Directory, b: Buy, es: seq<BuyEvent>)
    requires RowsOk(dir, b)
    ensures ShownThroughout(dir, b, es) <==> AllAtTheirStep(dir, b, es)
    ensures AllAtTheirStep(dir, b, es) ==> RowsOk(dir, BuyExec(dir, b, es))
    decreases |es|
  {
    FittingRowsShow(dir, b);
    if es != [] {
      StepFits(dir, b, es[0]);
      if AtItsStep(b, es[0]) {
        RunShowsExactly(dir, BuyStepped(dir, b, es[0]), es[1..]);
      }
    }
  }

  /**
   * Over every run of the card: all the way each row shows its own step and every step is on a row, if and only if
   * every tail that was taken up was taken up at the step its quote was asked for.
   */
  lemma CardShowsEveryStepOnItsRow(dir: Directory, es: seq<BuyEvent>)
    ensures ShownThroughout(dir, FRESH_CARD, es) <==> AllAtTheirStep(dir, FRESH_CARD, es)
  {
    RunShowsExactly(dir, FRESH_CARD, es);
  }

  lemma FloorNeverFalls(dir: Directory, o: Order, answer: Option<Candidate>, recipient: Address)
    requires answer.Some? ==> Reachable(o, answer.value)
    ensures Requoted(dir, o, answer, recipient).minOut >= o.minOut
  {
  }

  lemma LiveAnswerResendsOrStops(dir: Directory, b: Buy, k: nat, answer: Option<Candidate>, hasPrev: bool)
    requires RowsOk(dir, b) && BuyEnabled(b, QuoteBack(k, answer, hasPrev)) && IsLive(b, k) && Resumes(b.sys.hook)
    ensures var b', o := Answered(dir, b, k, answer, hasPrev), b.order.value;
            var o' := Requoted(dir, o, answer, b.out[k].recipient);
            b'.order == Some(o') &&
            (if answer.Some? && answer.value.amountOut < o.minOut then b'.sys == b.sys
             else
               o'.minOut >= o.minOut &&
               (b'.sys.hook.loop == Preparing(o'.steps, b.out[k].failedAt, hasPrev, false) <==>
                  b.sys.hook.run.value.failedAt == b.out[k].failedAt))
  {
    var p, o := b.out[k], b.order.value;
    var o' := Requoted(dir, o, answer, p.recipient);
    LiveAnswerIs(dir, b, k, answer, hasPrev);
    if Resends(b, k, answer) {
      RequotedAgrees(dir, o, answer, p.recipient);
      FloorNeverFalls(dir, o, answer, p.recipient);
      TailTakenUp(dir, b.sys.hook, o, o', p.failedAt, hasPrev);
    }
  }

  /**
   * After such a run, a live answer at a failed run: below the floor the sequence is not touched; with the floor
   * reached it starts again at the step the quote was asked for, on exactly the rebuilt order, if and only if that is
   * its step.
   */
  lemma LiveQuoteResendsOrStops(dir: Directory, es: seq<BuyEvent>, k: nat, answer: Option<Candidate>, hasPrev: bool)
    requires AllAtTheirStep(dir, FRESH_CARD, es)
    requires var b := BuyExec(dir, FRESH_CARD, es);
             BuyEnabled(b, QuoteBack(k, answer, hasPrev)) && IsLive(b, k) && Resumes(b.sys.hook)
    ensures var b := BuyExec(dir, FRESH_CARD, es);
            var b', o := BuyEffect(dir, b, QuoteBack(k, answer, hasPrev)), b.order.value;
            var o' := Requoted(dir, o, answer, b.out[k].recipient);
            b'.order == Some(o') &&
            (if answer.Some? && answer.value.amountOut < o.minOut then b'.sys == b.sys
             else
               o'.minOut >= o.minOut &&
               (b'.sys.hook.loop == Preparing(o'.steps, b.out[k].failedAt, hasPrev, false) <==>
                  b.sys.hook.run.value.failedAt == b.out[k].failedAt))
  {
    RunShowsExactly(dir, FRESH_CARD, es);
    LiveAnswerResendsOrStops(dir, BuyExec(dir, FRESH_CARD, es), k, answer, hasPrev);
  }
}
