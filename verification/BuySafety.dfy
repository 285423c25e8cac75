/**
 * The buy and the sequencer's guarantees: where no step that may have been sent is taken up again, every run of the
 * card is a run of the sequencer behind its dialog; and exactly when a late answer's retry can send again what has
 * mined.
 */
module BuySafety {
  import opened Wrappers
  import opened TxTypes
  import opened UseTx
  import opened TxFlow
  import opened BestRoute
  import opened BuyOrder
  import opened BuyFlow
  import opened BuyRows

  /** A tail that is taken up replaces no step that may have been sent; the sequence's state says so. */
  predicate Sure(b: Buy, e: BuyEvent) {
    BuyEnabled(b, e) && e.QuoteBack? && Resends(b, e.k, e.answer) ==> !MaybeSent(b.sys.hook.state)
  }

  predicate AllSure(dir: Directory, b: Buy, es: seq<BuyEvent>)
    decreases |es|
  {
    es == [] || (Sure(b, es[0]) && AllSure(dir, BuyStepped(dir, b, es[0]), es[1..]))
  }

  // ---------------------------------------------------------------- a step of the card is some steps of the sequencer

  /** These events, none of them a close while waiting, lead from one to the other. */
  predicate Leads(s: Sys, fs: seq<Event>, s': Sys) { Exec(s, fs) == s' && Close(true) !in fs }

  lemma OneLeads(s: Sys, ev: Event)
    requires ev != Close(true)
    ensures Leads(s, [ev], Step(s, ev))
  {
    assert [ev][1..] == [];
    assert Exec(s, [ev]) == Exec(Step(s, ev), []);
  }

  lemma NoneLeads(s: Sys)
    ensures Leads(s, [], s)
  {
  }

  lemma ThenLeads(s: Sys, fs: seq<Event>, s': Sys, gs: seq<Event>, s'': Sys)
    requires Leads(s, fs, s') && Leads(s', gs, s'')
    ensures Leads(s, fs + gs, s'')
  {
    ExecConcat(s, fs, gs);
  }

  /** Where the dialog offers it, `seq.retry` is the dialog's own "Try again", on whatever list it is given. */
  lemma RetriedIsTryAgain(s: Sys, remaining: Option<seq<TxStep>>, hasPrev: bool)
    requires Enabled(s, TryAgain(remaining, hasPrev))
    ensures Retried(s, remaining, hasPrev) == Step(s, TryAgain(remaining, hasPrev))
  {
  }

  /** A failed run none of whose steps may have been sent is one the dialog offers to retry. */
  lemma SureIsOffered(s: Sys, remaining: Option<seq<TxStep>>, hasPrev: bool)
    requires Inv(s) && HookOk(s.hook) && Resumes(s.hook) && !MaybeSent(s.hook.state)
    ensures Enabled(s, TryAgain(remaining, hasPrev))
  {
  }

  /** Any other retry does nothing to a sequence at work, and arms the wait of one that waits. */
  lemma OtherRetryIs(s: Sys, remaining: Option<seq<TxStep>>, hasPrev: bool)
    requires Inv(s) && HookOk(s.hook) && !Resumes(s.hook)
    ensures var s' := Retried(s, remaining, hasPrev); s' == s || s' == Step(s, PressKeepWaiting)
  {
    OtherRetryMoves(s.hook, remaining, hasPrev);
    SameOrders(s, remaining);
    if s.hook.run.Some? && s.hook.run.value.failedAt >= 0 {
      assert s.hook.loop.Off? && Enabled(s, PressKeepWaiting);
    }
  }

  lemma SameOrders(s: Sys, remaining: Option<seq<TxStep>>)
    requires Inv(s) && HookOk(s.hook) && !Resumes(s.hook)
    ensures Respliced(s, remaining) == s.orders
  {
    if s.hook.run.Some? && s.hook.run.value.failedAt >= 0 {
      OwnerIsKnown(s);
      assert Spliced(s.hook.run.value, remaining) == s.orders[s.owner].steps;
    }
  }

  lemma RetryLeads(s: Sys, remaining: Option<seq<TxStep>>, hasPrev: bool) returns (fs: seq<Event>)
    requires Inv(s) && HookOk(s.hook) && (Resumes(s.hook) ==> !MaybeSent(s.hook.state))
    ensures Leads(s, fs, Retried(s, remaining, hasPrev))
  {
    if Resumes(s.hook) {
      SureIsOffered(s, remaining, hasPrev);
      RetriedIsTryAgain(s, remaining, hasPrev);
      OneLeads(s, TryAgain(remaining, hasPrev));
      fs := [TryAgain(remaining, hasPrev)];
    } else {
      OtherRetryIs(s, remaining, hasPrev);
      OneLeads(s, PressKeepWaiting);
      NoneLeads(s);
      fs := if Retried(s, remaining, hasPrev) == s then [] else [PressKeepWaiting];
    }
  }

  lemma LiveAnswerLeads(dir: Directory, b: Buy, k: nat, answer: Option<Candidate>, hasPrev: bool)
    returns (fs: seq<Event>)
    requires Inv(b.sys) && HookOk(b.sys.hook) && k < |b.out| && IsLive(b, k)
    requires answer.None? || Reachable(b.order.value, answer.value)
    requires Resumes(b.sys.hook) ==> !MaybeSent(b.sys.hook.state)
    ensures Leads(b.sys, fs, Answered(dir, b, k, answer, hasPrev).sys)
  {
    var call := AfterRequote(dir, b.order.value, b.out[k].failedAt, answer, b.out[k].recipient);
    LiveAnswerIs(dir, b, k, answer, hasPrev);
    fs := RetryLeads(b.sys, call.remaining, hasPrev);
  }

  lemma AnswerLeads(dir: Directory, b: Buy, k: nat, answer: Option<Candidate>, hasPrev: bool) returns (fs: seq<Event>)
    requires Inv(b.sys) && HookOk(b.sys.hook) && BuyEnabled(b, QuoteBack(k, answer, hasPrev))
    requires Sure(b, QuoteBack(k, answer, hasPrev))
    ensures Leads(b.sys, fs, Answered(dir, b, k, answer, hasPrev).sys)
  {
    if IsLive(b, k) && (answer.None? || Reachable(b.order.value, answer.value)) {
      fs := LiveAnswerLeads(dir, b, k, answer, hasPrev);
    } else {
      NoneLeads(b.sys);
      fs := [];
    }
  }

  lemma DueAtOnceLeads(s: Sys)
    requires Enabled(s, TryAgain(None, false))
    ensures Leads(s, [TryAgain(None, false)] + [PreparationIn(None)], DueAtOnce(s))
  {
    RetriedIsTryAgain(s, None, false);
    OneLeads(s, TryAgain(None, false));
    OneLeads(Retried(s, None, false), PreparationIn(None));
    ThenLeads(s, [TryAgain(None, false)], Retried(s, None, false), [PreparationIn(None)], DueAtOnce(s));
  }

  lemma TriedAgainLeads(b: Buy, recipient: Address, hasPrev: bool) returns (fs: seq<Event>)
    requires b.order.Some? && Enabled(b.sys, TryAgain(None, false))
    ensures Leads(b.sys, fs, TriedAgain(b, recipient, hasPrev).sys)
  {
    TriedAgainIs(b, recipient, hasPrev);
    RetriedIsTryAgain(b.sys, None, hasPrev);
    OneLeads(b.sys, TryAgain(None, hasPrev));
    NoneLeads(b.sys);
    var s' := TriedAgain(b, recipient, hasPrev).sys;
    if s' == b.sys {
      fs := [];
    } else if s' == Retried(b.sys, None, hasPrev) {
      fs := [TryAgain(None, hasPrev)];
    } else {
      fs := [TryAgain(None, false)] + [PreparationIn(None)];
      DueAtOnceLeads(b.sys);
      if s' != DueAtOnce(b.sys) {
        OneLeads(DueAtOnce(b.sys), WalletRefuses(None, None));
        ThenLeads(b.sys, fs, DueAtOnce(b.sys), [WalletRefuses(None, None)], s');
        fs := fs + [WalletRefuses(None, None)];
      }
    }
  }

  lemma OthersLead(dir: Directory, b: Buy, e: BuyEvent) returns (fs: seq<Event>)
    requires BuyEnabled(b, e) && !e.PressTryAgain? && !e.QuoteBack?
    ensures Leads(b.sys, fs, BuyEffect(dir, b, e).sys)
  {
    NoneLeads(b.sys);
    fs := [];
    if e.PressBuy? {
      var o := Submitted(dir, b.ids + 1, e.pay, e.amount, e.needsApproval, e.best, e.recipient);
      PressBuyIs(dir, b, e, o);
      OneLeads(b.sys, Submit(o.steps, e.hasPrev));
      fs := [Submit(o.steps, e.hasPrev)];
    } else if e.PressClose? {
      OneLeads(b.sys, Close(false));
      fs := [Close(false)];
    } else if e.Flow? {
      OneLeads(b.sys, e.event);
      fs := [e.event];
    } else if e.NetworkBack? && b.held && !b.connected {
      OneLeads(b.sys, WalletRefuses(None, None));
      fs := [WalletRefuses(None, None)];
    }
  }

  lemma StepLeads(dir: Directory, b: Buy, e: BuyEvent) returns (fs: seq<Event>)
    requires Inv(b.sys) && HookOk(b.sys.hook) && Sure(b, e)
    ensures Leads(b.sys, fs, BuyStepped(dir, b, e).sys)
  {
    if !BuyEnabled(b, e) {
      NoneLeads(b.sys);
      fs := [];
    } else if e.PressTryAgain? {
      fs := TriedAgainLeads(b, e.recipient, e.hasPrev);
    } else if e.QuoteBack? {
      fs := AnswerLeads(dir, b, e.k, e.answer, e.hasPrev);
    } else {
      fs := OthersLead(dir, b, e);
    }
  }

  /**
   * A run of the card none of whose answers takes up a step that may have been sent is, for the sequencer and the
   * chain, a run of the sequencer behind a dialog that cannot be closed while it waits.
   */
  lemma {:induction false} RunLeads(dir: Directory, b: Buy, es: seq<BuyEvent>) returns (fs: seq<Event>)
    requires Inv(b.sys) && CardOk(dir, b) && AllSure(dir, b, es)
    ensures Leads(b.sys, fs, BuyExec(dir, b, es).sys)
    decreases |es|
  {
    if es == [] {
      NoneLeads(b.sys);
      fs := [];
    } else {
      var b' := BuyStepped(dir, b, es[0]);
      var gs := StepLeads(dir, b, es[0]);
      BuyStepKeeps(dir, b, es[0]);
      RunKeeps(b.sys, gs);
      var hs := RunLeads(dir, b', es[1..]);
      ThenLeads(b.sys, gs, b'.sys, hs, BuyExec(dir, b, es).sys);
      fs := gs + hs;
    }
  }

  lemma SureRunsAreSequencerRuns(dir: Directory, es: seq<BuyEvent>) returns (fs: seq<Event>)
    requires AllSure(dir, FRESH_CARD, es)
    ensures Exec(START, fs) == BuyExec(dir, FRESH_CARD, es).sys && Close(true) !in fs
  {
    fs := RunLeads(dir, FRESH_CARD, es);
  }

  /**
   * So the sequencer's guarantees hold of every order such a run ever opened, and no prompt overlaps an unlanded
   * transaction.
   */
  lemma BuysInheritTheFlowSafety(dir: Directory, es: seq<BuyEvent>, k: nat)
    requires AllSure(dir, FRESH_CARD, es) && k < |BuyExec(dir, FRESH_CARD, es).sys.orders|
    ensures var s := BuyExec(dir, FRESH_CARD, es).sys;
            ExecutedIsPrefix(s.orders[k]) && NoResend(s.orders[k]) &&
            (s.hook.loop.Prompted? ==> NothingKnownOut(s.orders[k]))
  {
    var fs := SureRunsAreSequencerRuns(dir, es);
    NoStepRunsTwice(fs, k);
    RunKeepsOutstanding(START, fs);
  }

  // ---------------------------------------------------------------- exactly when nothing mined is sent again

  /**
   * Whatever the wallet and the chain did, as far as the sequence can tell, everything before the failed step has
   * executed, and that step has not and is not pending.
   */
  ghost predicate SurelyReady(h: Hook, count: nat)
    requires Resumes(h)
  {
    forall o :: OrderOk(o) && HookFits(h, o, count) ==> ReadyFor(o, h.run.value.steps, h.run.value.failedAt)
  }

  lemma MarkedIsMaybeSent(h: Hook)
    requires HookOk(h) && Resumes(h)
    ensures MaybeSent(h.state) <==> h.state.steps[h.run.value.failedAt].maybeSent
  {
  }

  /** With the mark, the step may have executed: an order in which it has looks the same to the sequence. */
  lemma MarkedMayHaveRun(h: Hook, o: OrderRec, count: nat)
    requires HookFits(h, o, count) && Resumes(h) && h.state.steps[h.run.value.failedAt].maybeSent
    ensures var r := h.run.value;
            var ran := OrderRec(r.steps, [], r.steps[..r.failedAt + 1]);
            OrderOk(ran) && HookFits(h, ran, count) && !ReadyFor(ran, r.steps, r.failedAt)
  {
  }

  lemma UnmarkedIsReady(h: Hook, o: OrderRec, count: nat)
    requires HookFits(h, o, count) && Resumes(h) && !h.state.steps[h.run.value.failedAt].maybeSent
    ensures ReadyFor(o, h.run.value.steps, h.run.value.failedAt)
  {
  }

  lemma SurelyReadyExactlyUnmarked(h: Hook, o: OrderRec, count: nat)
    requires HookOk(h) && HookFits(h, o, count) && Resumes(h)
    ensures SurelyReady(h, count) <==> !MaybeSent(h.state)
  {
    MarkedIsMaybeSent(h);
    if MaybeSent(h.state) {
      MarkedMayHaveRun(h, o, count);
    } else {
      forall o' | OrderOk(o') && HookFits(h, o', count)
        ensures ReadyFor(o', h.run.value.steps, h.run.value.failedAt)
      {
        UnmarkedIsReady(h, o', count);
      }
    }
  }

  lemma SureRunsAreInOrder(dir: Directory, es: seq<BuyEvent>)
    requires AllSure(dir, FRESH_CARD, es)
    ensures Inv(BuyExec(dir, FRESH_CARD, es).sys)
  {
    var fs := SureRunsAreSequencerRuns(dir, es);
    RunKeeps(START, fs);
  }

  /** A resend, and whether the list it works through is the order's. */
  lemma ResendIs(dir: Directory, b: Buy, k: nat, answer: Option<Candidate>, hasPrev: bool)
    requires RowsOk(dir, b) && BuyEnabled(b, QuoteBack(k, answer, hasPrev)) && Resends(b, k, answer)
    ensures var b', r := Answered(dir, b, k, answer, hasPrev), b.sys.hook.run.value;
            b'.order.Some? && b'.sys.hook.loop.Preparing? && b'.sys.hook.loop.i == r.failedAt &&
            (b'.sys.hook.loop.steps == b'.order.value.steps <==> r.failedAt == b.out[k].failedAt)
  {
    var p, o := b.out[k], b.order.value;
    LiveAnswerIs(dir, b, k, answer, hasPrev);
    RequotedAgrees(dir, o, answer, p.recipient);
    TailTakenUp(dir, b.sys.hook, o, Requoted(dir, o, answer, p.recipient), p.failedAt, hasPrev);
  }

  lemma ResendsSafelyExactly(dir: Directory, b: Buy, k: nat, answer: Option<Candidate>, hasPrev: bool)
    requires RowsOk(dir, b) && Inv(b.sys) && BuyEnabled(b, QuoteBack(k, answer, hasPrev)) && Resends(b, k, answer)
    ensures var b', h := Answered(dir, b, k, answer, hasPrev), b.sys.hook;
            b'.order.Some? && b'.sys.hook.loop.Preparing? && b'.sys.hook.loop.i == h.run.value.failedAt &&
            (b'.sys.hook.loop.steps == b'.order.value.steps && SurelyReady(h, b.sys.count) <==>
               h.run.value.failedAt == b.out[k].failedAt && !MaybeSent(h.state))
  {
    ResendIs(dir, b, k, answer, hasPrev);
    OwnerIsKnown(b.sys);
    SurelyReadyExactlyUnmarked(b.sys.hook, b.sys.orders[b.sys.owner], b.sys.count);
  }

  /**
   * The promise of a re-quoted retry, that steps which have mined are not sent again: the list it works through is the
   * rebuilt order, each step in its place, and it starts at a step that surely has not run. After any run that kept it
   * so far, an answer that resends keeps it if and only if the run stands at the step the quote was asked for and that
   * step is not marked as maybe sent. Both are in the sequence's state.
   */
  lemma MinedStepsStayMinedExactly(dir: Directory, es: seq<BuyEvent>, k: nat, answer: Option<Candidate>, hasPrev: bool)
    requires AllSure(dir, FRESH_CARD, es) && AllAtTheirStep(dir, FRESH_CARD, es)
    requires var b := BuyExec(dir, FRESH_CARD, es);
             BuyEnabled(b, QuoteBack(k, answer, hasPrev)) && Resends(b, k, answer)
    ensures var b := BuyExec(dir, FRESH_CARD, es);
            var b', h := BuyEffect(dir, b, QuoteBack(k, answer, hasPrev)), b.sys.hook;
            b'.order.Some? && b'.sys.hook.loop.Preparing? && b'.sys.hook.loop.i == h.run.value.failedAt &&
            (b'.sys.hook.loop.steps == b'.order.value.steps && SurelyReady(h, b.sys.count) <==>
               h.run.value.failedAt == b.out[k].failedAt && !MaybeSent(h.state))
  {
    RunShowsExactly(dir, FRESH_CARD, es);
    SureRunsAreInOrder(dir, es);
    ResendsSafelyExactly(dir, BuyExec(dir, FRESH_CARD, es), k, answer, hasPrev);
  }
}
