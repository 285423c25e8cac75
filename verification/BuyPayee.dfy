/** Who receives what is bought: over every run of the card, the account connected at the click the buy came from. */
module BuyPayee {
  import opened Wrappers
  import opened TxTypes
  import opened UseTx
  import opened TxFlow
  import opened BestRoute
  import opened BuyOrder
  import opened BuyFlow

  // ---------------------------------------------------------------- steps go where they are told

  /** Each step of the list that buys pays one of these accounts. */
  predicate PaysOne(steps: seq<TxStep>, payees: set<Address>) {
    forall j :: 0 <= j < |steps| && steps[j].call.SwapWithRoute? ==> steps[j].call.recipient in payees
  }

  predicate OrderPays(o: OrderRec, payees: set<Address>) {
    && PaysOne(o.steps, payees) && PaysOne(o.executed, payees)
    && forall k :: 0 <= k < |o.flights| ==> PaysOne([o.flights[k].step], payees)
  }

  predicate HookPays(h: Hook, payees: set<Address>) {
    (h.run.Some? ==> PaysOne(h.run.value.steps, payees)) && (!h.loop.Off? ==> PaysOne(h.loop.steps, payees))
  }

  /** Every list the sequence works through or could, and every call ever sent or executed, for any order. */
  predicate SysPays(s: Sys, payees: set<Address>) {
    HookPays(s.hook, payees) && forall k :: 0 <= k < |s.orders| ==> OrderPays(s.orders[k], payees)
  }

  lemma SplicedPays(r: RunRec, remaining: Option<seq<TxStep>>, payees: set<Address>)
    requires 0 <= r.failedAt < |r.steps| && PaysOne(r.steps, payees)
    requires remaining.Some? ==> PaysOne(remaining.value, payees)
    ensures PaysOne(Spliced(r, remaining), payees)
  {
  }

  lemma RetryPays(h: Hook, remaining: Option<seq<TxStep>>, hasPrev: bool, payees: set<Address>)
    requires WellFormed(h) && HookPays(h, payees) && (remaining.Some? ==> PaysOne(remaining.value, payees))
    ensures HookPays(OnRetry(h, remaining, hasPrev), payees)
  {
    if h.run.Some? && h.run.value.failedAt >= 0 {
      SplicedPays(h.run.value, remaining, payees);
    }
  }

  lemma RetriedPays(s: Sys, remaining: Option<seq<TxStep>>, hasPrev: bool, payees: set<Address>)
    requires SysPays(s, payees) && (remaining.Some? ==> PaysOne(remaining.value, payees))
    ensures SysPays(Retried(s, remaining, hasPrev), payees)
  {
    if WellFormed(s.hook) {
      RetryPays(s.hook, remaining, hasPrev, payees);
      if s.hook.run.Some? && s.hook.run.value.failedAt >= 0 {
        SplicedPays(s.hook.run.value, remaining, payees);
      }
    }
  }

  lemma LaunchPays(o: OrderRec, i: nat, steps: seq<TxStep>, hash: Hash, known: bool, payees: set<Address>)
    requires OrderPays(o, payees) && i < |steps| && PaysOne(steps, payees)
    ensures OrderPays(Launch(o, i, steps, hash, known), payees)
  {
  }

  lemma LandPays(o: OrderRec, k: nat, ok: bool, payees: set<Address>)
    requires OrderPays(o, payees) && k < |o.flights|
    ensures OrderPays(Land(o, k, ok), payees)
  {
    assert [o.flights[k].step][0] == o.flights[k].step;
  }

  lemma WalletPays(s: Sys, e: Event, payees: set<Address>)
    requires SysPays(s, payees) && Enabled(s, e) && IsWallets(e)
    ensures SysPays(Effect(s, e), payees)
  {
    if e.WalletSends? {
      LaunchPays(s.orders[s.owner], s.hook.loop.i, s.hook.loop.steps, e.hash, true, payees);
    } else if e.sentAnyway.Some? {
      LaunchPays(s.orders[s.owner], s.hook.loop.i, s.hook.loop.steps, e.sentAnyway.value, false, payees);
    }
  }

  lemma FlowPays(s: Sys, e: Event, payees: set<Address>)
    requires SysPays(s, payees) && IsFlow(e)
    ensures SysPays(Step(s, e), payees)
  {
    if Enabled(s, e) {
      if IsWallets(e) {
        WalletPays(s, e, payees);
      } else if e.Lands? {
        LandPays(s.orders[e.order], e.k, e.ok, payees);
      }
    }
  }

  lemma SubmitPays(s: Sys, steps: seq<TxStep>, hasPrev: bool, payees: set<Address>)
    requires SysPays(s, payees) && PaysOne(steps, payees)
    ensures SysPays(Step(s, Submit(steps, hasPrev)), payees)
  {
  }

  lemma ClosePays(s: Sys, payees: set<Address>)
    requires SysPays(s, payees)
    ensures SysPays(Step(s, Close(false)), payees)
  {
  }

  // ---------------------------------------------------------------- the card

  predicate KnowsClicks(es: seq<BuyEvent>, payees: set<Address>) {
    forall j :: 0 <= j < |es| && (es[j].PressBuy? || es[j].PressTryAgain?) ==> es[j].recipient in payees
  }

  predicate CardPays(b: Buy, payees: set<Address>) {
    && SysPays(b.sys, payees)
    && (b.order.Some? ==> PaysOne(b.order.value.steps, payees))
    && forall k :: 0 <= k < |b.out| ==> b.out[k].recipient in payees
  }

  lemma NewOrderPays(dir: Directory, b: Buy, e: BuyEvent, payees: set<Address>)
    requires CardPays(b, payees) && BuyEnabled(b, e) && e.PressBuy? && e.recipient in payees
    ensures CardPays(BuyEffect(dir, b, e), payees)
  {
    var o := Submitted(dir, b.ids + 1, e.pay, e.amount, e.needsApproval, e.best, e.recipient);
    SubmittedIs(dir, b.ids + 1, e.pay, e.amount, e.needsApproval, e.best, e.recipient);
    NewStepsPay(dir, o, b.ids + 1, e);
    PressBuyIs(dir, b, e, o);
    SubmitPays(b.sys, o.steps, e.hasPrev, payees);
  }

  lemma NewStepsPay(dir: Directory, o: Order, id: nat, e: BuyEvent)
    requires e.PressBuy? && IsNewOrder(dir, o, id, e.pay, e.amount, e.needsApproval, e.best, e.recipient)
    ensures PaysOne(o.steps, {e.recipient})
  {
  }

  lemma RequotedPays(dir: Directory, o: Order, answer: Option<Candidate>, recipient: Address, payees: set<Address>)
    requires o.steps != [] && o.flow != [] && PaysOne(o.steps, payees) && recipient in payees
    ensures PaysOne(Requoted(dir, o, answer, recipient).steps, payees)
  {
    var o' := Requoted(dir, o, answer, recipient);
    RequotedIs(dir, o, answer, recipient);
    if answer.Some? {
      assert forall j :: 0 <= j < |o.steps| - 1 ==> o'.steps[j] == o'.steps[..|o.steps| - 1][j] == o.steps[j];
    }
  }

  lemma LiveAnswerPays(dir: Directory, b: Buy, k: nat, answer: Option<Candidate>, hasPrev: bool, payees: set<Address>)
    requires CardOk(dir, b) && CardPays(b, payees) && k < |b.out| && IsLive(b, k)
    ensures CardPays(Answered(dir, b, k, answer, hasPrev), payees)
  {
    var p, o := b.out[k], b.order.value;
    var tail := From(Requoted(dir, o, answer, p.recipient).steps, p.failedAt);
    LiveAnswerIs(dir, b, k, answer, hasPrev);
    RequotedPays(dir, o, answer, p.recipient, payees);
    RetriedPays(b.sys, Some(tail), hasPrev, payees);
  }

  lemma AnswerPays(dir: Directory, b: Buy, k: nat, answer: Option<Candidate>, hasPrev: bool, payees: set<Address>)
    requires CardOk(dir, b) && CardPays(b, payees) && BuyEnabled(b, QuoteBack(k, answer, hasPrev))
    ensures CardPays(Answered(dir, b, k, answer, hasPrev), payees)
  {
    if IsLive(b, k) {
      LiveAnswerPays(dir, b, k, answer, hasPrev, payees);
    }
  }

  lemma TryAgainPays(b: Buy, recipient: Address, hasPrev: bool, payees: set<Address>)
    requires CardPays(b, payees) && b.order.Some? && recipient in payees
    ensures CardPays(TriedAgain(b, recipient, hasPrev), payees)
  {
    TriedAgainIs(b, recipient, hasPrev);
    RetriedPays(b.sys, None, hasPrev, payees);
    RetriedPays(b.sys, None, false, payees);
    FlowPays(Retried(b.sys, None, false), PreparationIn(None), payees);
    FlowPays(DueAtOnce(b.sys), WalletRefuses(None, None), payees);
  }

  lemma OthersPay(dir: Directory, b: Buy, e: BuyEvent, payees: set<Address>)
    requires CardPays(b, payees) && BuyEnabled(b, e)
    requires !e.PressBuy? && !e.PressTryAgain? && !e.QuoteBack?
    ensures CardPays(BuyEffect(dir, b, e), payees)
  {
    if e.PressClose? {
      ClosePays(b.sys, payees);
    } else if e.Flow? {
      FlowPays(b.sys, e.event, payees);
    } else if e.NetworkBack? {
      FlowPays(b.sys, WalletRefuses(None, None), payees);
    }
  }

  lemma StepPays(dir: Directory, b: Buy, e: BuyEvent, payees: set<Address>)
    requires CardOk(dir, b) && CardPays(b, payees)
    requires e.PressBuy? || e.PressTryAgain? ==> e.recipient in payees
    ensures CardPays(BuyStepped(dir, b, e), payees)
  {
    if BuyEnabled(b, e) {
      if e.PressBuy? {
        NewOrderPays(dir, b, e, payees);
      } else if e.PressTryAgain? {
        TryAgainPays(b, e.recipient, e.hasPrev, payees);
      } else if e.QuoteBack? {
        AnswerPays(dir, b, e.k, e.answer, e.hasPrev, payees);
      } else {
        OthersPay(dir, b, e, payees);
      }
    }
  }

  lemma {:induction false} RunPays(dir: Directory, b: Buy, es: seq<BuyEvent>, payees: set<Address>)
    requires CardOk(dir, b) && CardPays(b, payees) && KnowsClicks(es, payees)
    ensures CardPays(BuyExec(dir, b, es), payees)
    decreases |es|
  {
    if es != [] {
      StepPays(dir, b, es[0], payees);
      BuyStepKeeps(dir, b, es[0]);
      assert forall j :: 0 <= j < |es[1..]| ==> es[1..][j] == es[j + 1];
      RunPays(dir, BuyStepped(dir, b, es[0]), es[1..], payees);
    }
  }

  function Clickers(es: seq<BuyEvent>): set<Address> {
    set e | e in es && (e.PressBuy? || e.PressTryAgain?) :: e.recipient
  }

  /**
   * Over every run, late answers and repeated retries included: whatever is listed, sent or executed for any order pays
   * the bought tokens to an account that was connected at one of the clicks, "Buy" or "Try again". In particular, to
   * the one account there was if it never changed.
   */
  lemma EveryBuyPaysAClick(dir: Directory, es: seq<BuyEvent>)
    ensures CardPays(BuyExec(dir, FRESH_CARD, es), Clickers(es))
  {
    assert forall j :: 0 <= j < |es| ==> es[j] in es;
    RunPays(dir, FRESH_CARD, es, Clickers(es));
  }

  /** The buy of the list is for this account, along this path. */
  predicate EndsInBuyFor(steps: seq<TxStep>, payee: Address, path: seq<RouteHop>) {
    steps != [] && steps[|steps| - 1].call.SwapWithRoute? && steps[|steps| - 1].call.recipient == payee &&
    steps[|steps| - 1].call.path == path
  }

  lemma NewBuyPaysItsClick(dir: Directory, b: Buy, e: BuyEvent)
    requires BuyEnabled(b, e) && e.PressBuy?
    ensures var b' := BuyEffect(dir, b, e);
            b'.order.Some? && EndsInBuyFor(b'.order.value.steps, e.recipient, e.best.path) && b'.out == b.out
  {
    var o := Submitted(dir, b.ids + 1, e.pay, e.amount, e.needsApproval, e.best, e.recipient);
    SubmittedIs(dir, b.ids + 1, e.pay, e.amount, e.needsApproval, e.best, e.recipient);
    PressBuyIs(dir, b, e, o);
  }

  lemma RebuiltBuyPaysItsClick(dir: Directory, b: Buy, k: nat, answer: Option<Candidate>, hasPrev: bool)
    requires CardOk(dir, b) && k < |b.out| && IsLive(b, k)
    ensures var b' := Answered(dir, b, k, answer, hasPrev);
            b'.order.Some? &&
            if answer.Some? then EndsInBuyFor(b'.order.value.steps, b.out[k].recipient, answer.value.path)
            else b'.order.value.steps == b.order.value.steps
  {
    LiveAnswerIs(dir, b, k, answer, hasPrev);
    RequotedIs(dir, b.order.value, answer, b.out[k].recipient);
  }

  /** What is asked for carries the account at that click. */
  lemma AskedForItsClick(b: Buy, recipient: Address, hasPrev: bool)
    requires b.order.Some?
    ensures var b' := TriedAgain(b, recipient, hasPrev);
            && b'.order.Some? && b'.order.value.steps == b.order.value.steps
            && forall k :: 0 <= k < |b'.out| ==> b'.out[k] in b.out || b'.out[k].recipient == recipient
  {
    TriedAgainIs(b, recipient, hasPrev);
  }

  /**
   * And which of them: a new order's buy pays the account at its click, along the path on screen; a rebuilt one the
   * account at the "Try again" that asked for its quote, along the fresh path; no other event changes what the order on
   * screen pays.
   */
  lemma BuyPaysItsOwnClick(dir: Directory, b: Buy, e: BuyEvent)
    requires CardOk(dir, b) && BuyEnabled(b, e) && BuyEffect(dir, b, e).order.Some?
    ensures var steps := BuyEffect(dir, b, e).order.value.steps;
            if e.PressBuy? then EndsInBuyFor(steps, e.recipient, e.best.path)
            else
              b.order.Some? &&
              if e.QuoteBack? && IsLive(b, e.k) && e.answer.Some? then
                EndsInBuyFor(steps, b.out[e.k].recipient, e.answer.value.path)
              else steps == b.order.value.steps
  {
    if e.PressBuy? {
      NewBuyPaysItsClick(dir, b, e);
    } else if e.QuoteBack? {
      if IsLive(b, e.k) {
        RebuiltBuyPaysItsClick(dir, b, e.k, e.answer, e.hasPrev);
      }
    } else if e.PressTryAgain? {
      AskedForItsClick(b, e.recipient, e.hasPrev);
    }
  }
}
