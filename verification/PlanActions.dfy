/**
 * The plan's orders carried out by the vault: what they move is what they show, and nothing is made.
 */
module PlanActions {
  import opened TxTypes
  import opened RemovePlan
  import opened PlanVault
  import opened PlanOrders
  import opened Money

  /**
   * A withdrawal within the plan's balance pays its amount out, of which `receive` is left after the fee; idle USDG
   * covers all but `fromBoost`, and the balance left is the one shown, or less where part of the boosted balance was
   * taken.
   */
  lemma WithdrawPaysWhatItShows(h: Held, ref: PlanRef, amount: nat, all: bool, feeBps: nat, epochPending: bool)
    requires RoundsUp(h.burn)
    requires 0 < amount <= UsdgOut(h.plan) < MAX_UINT256 && (all ==> amount == UsdgOut(h.plan))
    ensures var o := BuildWithdrawOrder(ref, amount, all, feeBps, h.plan.usdgIdle, UsdgOut(h.plan));
            var out := Execute(h, [o.step], epochPending);
            && out.Done? && out.held.usdgPaid == h.usdgPaid + o.amount == h.usdgPaid + o.receive + FeeOf(amount, feeBps)
            && UsdgOut(out.held.plan) <= o.balanceAfter
            && (!RoundsOff(h.plan, o.step.call) ==> UsdgOut(out.held.plan) == o.balanceAfter)
            && out.held.plan.usdgIdle == h.plan.usdgIdle - (o.amount - o.fromBoost)
            && out.held.plan.stockAccrued == h.plan.stockAccrued && out.held.indexed == h.indexed
  {
    var o := BuildWithdrawOrder(ref, amount, all, feeBps, h.plan.usdgIdle, UsdgOut(h.plan));
    ExecuteOne(h, [o.step], epochPending);
  }

  /** A call that takes part of the boosted balance: the only one whose share rounding the plan pays for. */
  predicate RoundsOff(p: FreshPlan, call: Call) {
    call.WithdrawIdle? && call.amount != MAX_UINT256 && p.usdgIdle < call.amount < UsdgOut(p)
  }

  // ---------------------------------------------------------------- any orders, one after another

  /** Everything a plan's menu offers but boosting: each order is built from the plan as it then stands. */
  datatype Action =
    | TakeOut(amount: nat, all: bool) | TakeIdle | ClaimAll | Unboost | SetPaused(pause: bool) | Remove | CloseAll

  /** One order, and whether a buy page is open while it is carried out. */
  datatype Use = Use(action: Action, epochPending: bool)

  function StepsFor(ref: PlanRef, feeBps: nat, h: Held, u: Use): seq<TxStep> {
    var i := InputOf(ref.vault, ref.planId, ref.symbol, h, u.epochPending);
    match u.action
    case TakeOut(amount, all) => [BuildWithdrawOrder(ref, amount, all, feeBps, h.plan.usdgIdle, UsdgOut(h.plan)).step]
    case TakeIdle => [TxStep(STEP_PARTIAL, ref.vault, WithdrawIdle(ref.planId, h.plan.usdgIdle))]
    case ClaimAll => [BuildClaimOrder(ref).step]
    case Unboost => [BuildUnboostOrder(ref).step]
    case SetPaused(pause) => [BuildPauseOrder(ref, pause).step]
    case Remove => RemoveSteps(i)
    case CloseAll => CloseSteps(i)
  }

  /** What a list of calls leaves when the first one that reverts, if any, ends it. */
  function Carried(h: Held, steps: seq<TxStep>, epochPending: bool): Held
    decreases |steps|
  {
    if steps == [] then h
    else
      match Apply(h, steps[0].call, epochPending)
      case Reverted(_) => h
      case Done(h') => Carried(h', steps[1..], epochPending)
  }

  function AllCarried(ref: PlanRef, feeBps: nat, h: Held, uses: seq<Use>): Held
    decreases |uses|
  {
    if uses == [] then h
    else AllCarried(ref, feeBps, Carried(h, StepsFor(ref, feeBps, h, uses[0]), uses[0].epochPending), uses[1..])
  }

  /** The USDG of a plan, in it and paid out of it; and its stock. */
  function UsdgOf(h: Held): nat { UsdgOut(h.plan) + h.usdgPaid }

  function StockOf(h: Held): nat { h.plan.stockAccrued + h.stockPaid }

  /** Nothing is made and no payment is taken back; the plan keeps its owner and does not come back. */
  ghost predicate Conserved(h: Held, h': Held) {
    && Consistent(h'.plan) && h'.burn == h.burn
    && UsdgOf(h') <= UsdgOf(h) && h.usdgPaid <= h'.usdgPaid
    && StockOf(h') == StockOf(h) && h.stockPaid <= h'.stockPaid
    && (h'.indexed ==> h.indexed) && h'.plan.owner == h.plan.owner && h'.plan.recipient == h.plan.recipient
  }

  predicate EmptyUnlessIndexed(h: Held) { h.indexed || IsEmptyPlan(h.plan) }

  predicate MayUnindex(call: Call) { call.PrunePlan? || call.ClosePlan? }

  /** Some call of the list is carried out and rounds. */
  predicate SomeRounds(h: Held, steps: seq<TxStep>, epochPending: bool)
    decreases |steps|
  {
    steps != [] &&
    match Apply(h, steps[0].call, epochPending)
    case Reverted(_) => false
    case Done(h') => RoundsOff(h.plan, steps[0].call) || SomeRounds(h', steps[1..], epochPending)
  }

  predicate SomeOrderRounds(ref: PlanRef, feeBps: nat, h: Held, uses: seq<Use>)
    decreases |uses|
  {
    uses != [] &&
    var steps := StepsFor(ref, feeBps, h, uses[0]);
    (SomeRounds(h, steps, uses[0].epochPending) ||
     SomeOrderRounds(ref, feeBps, Carried(h, steps, uses[0].epochPending), uses[1..]))
  }

  lemma WithdrawConserves(h: Held, amount: nat, h': Held)
    requires RoundsUp(h.burn) && Consistent(h.plan) && EmptyUnlessIndexed(h) &&
             PlanVault.Withdraw(h, amount) == Done(h')
    ensures Conserved(h, h') && EmptyUnlessIndexed(h') && h'.indexed == h.indexed
    ensures !RoundsOff(h.plan, WithdrawIdle(0, amount)) ==> UsdgOf(h') == UsdgOf(h)
  {
  }

  lemma CallConserves(h: Held, call: Call, epochPending: bool, h': Held)
    requires RoundsUp(h.burn) && Consistent(h.plan) && EmptyUnlessIndexed(h) && Apply(h, call, epochPending) == Done(h')
    ensures Conserved(h, h') && EmptyUnlessIndexed(h') && (h.indexed && !h'.indexed ==> MayUnindex(call))
    ensures !RoundsOff(h.plan, call) ==> UsdgOf(h') == UsdgOf(h)
  {
    if call.WithdrawIdle? {
      WithdrawConserves(h, call.amount, h');
    }
  }

  /**
   * Any list of calls, run through or stopped at one that reverts, makes nothing, and loses USDG only to the rounding
   * of a withdrawal of part of the boosted balance.
   */
  lemma {:induction false} CallsConserve(h: Held, steps: seq<TxStep>, epochPending: bool)
    requires RoundsUp(h.burn) && Consistent(h.plan) && EmptyUnlessIndexed(h)
    ensures var h' := Carried(h, steps, epochPending);
            && Conserved(h, h') && EmptyUnlessIndexed(h')
            && (!SomeRounds(h, steps, epochPending) ==> UsdgOf(h') == UsdgOf(h))
            && (h.indexed && !h'.indexed ==> exists k :: 0 <= k < |steps| && MayUnindex(steps[k].call))
    decreases |steps|
  {
    if steps != [] && Apply(h, steps[0].call, epochPending).Done? {
      var h' := Apply(h, steps[0].call, epochPending).held;
      CallConserves(h, steps[0].call, epochPending, h');
      CallsConserve(h', steps[1..], epochPending);
      if h'.indexed && !Carried(h', steps[1..], epochPending).indexed {
        var k :| 0 <= k < |steps[1..]| && MayUnindex(steps[1..][k].call);
        assert steps[k + 1] == steps[1..][k];
      }
    }
  }

  /**
   * Whatever orders are sent for a plan, in any order, refused ones included: the USDG in it and paid out of it never
   * grow, and add up to the same unless part of the boosted balance was withdrawn; the stock always does; no payment is
   * taken back; it leaves the index only through a removal or a close, never returns, and is empty once it has left.
   */
  lemma {:induction false} OrdersConserve(ref: PlanRef, feeBps: nat, h: Held, uses: seq<Use>)
    requires RoundsUp(h.burn) && Consistent(h.plan) && EmptyUnlessIndexed(h)
    ensures var h' := AllCarried(ref, feeBps, h, uses);
            && Conserved(h, h') && EmptyUnlessIndexed(h')
            && (!SomeOrderRounds(ref, feeBps, h, uses) ==> UsdgOf(h') == UsdgOf(h))
            && (h.indexed && !h'.indexed ==>
                  exists k :: 0 <= k < |uses| && (uses[k].action.Remove? || uses[k].action.CloseAll?))
    decreases |uses|
  {
    if uses != [] {
      var h' := Carried(h, StepsFor(ref, feeBps, h, uses[0]), uses[0].epochPending);
      CallsConserve(h, StepsFor(ref, feeBps, h, uses[0]), uses[0].epochPending);
      OrdersConserve(ref, feeBps, h', uses[1..]);
      if h'.indexed && !AllCarried(ref, feeBps, h', uses[1..]).indexed {
        var k :| 0 <= k < |uses[1..]| && (uses[1..][k].action.Remove? || uses[1..][k].action.CloseAll?);
        assert uses[k + 1] == uses[1..][k];
      }
    }
  }

  /** The only orders that round are withdrawals of an amount between the idle USDG and the whole balance. */
  lemma OnlyPartsRound(ref: PlanRef, feeBps: nat, h: Held, u: Use)
    requires Consistent(h.plan) && SomeRounds(h, StepsFor(ref, feeBps, h, u), u.epochPending)
    ensures u.action.TakeOut? && !u.action.all && h.plan.usdgIdle < u.action.amount < UsdgOut(h.plan)
  {
    if u.action.Remove? {
      NoLegRounds(h, StepsFor(ref, feeBps, h, u), u.epochPending);
    } else {
      assert |StepsFor(ref, feeBps, h, u)| <= 1;
    }
  }

  lemma {:induction false} NoLegRounds(h: Held, steps: seq<TxStep>, epochPending: bool)
    requires forall k :: 0 <= k < |steps| && steps[k].call.WithdrawIdle? ==> steps[k].call.amount == MAX_UINT256
    ensures !SomeRounds(h, steps, epochPending)
    decreases |steps|
  {
    if steps != [] && Apply(h, steps[0].call, epochPending).Done? {
      NoLegRounds(Apply(h, steps[0].call, epochPending).held, steps[1..], epochPending);
    }
  }

  /** And once everything asked of it has run, a removal, or a close, has paid out all that was not rounded off. */
  lemma RemovalPaysTheRest(ref: PlanRef, feeBps: nat, h: Held, uses: seq<Use>, last: Action)
    requires RoundsUp(h.burn) && Consistent(h.plan) && h.indexed && AllCarried(ref, feeBps, h, uses).indexed
    requires last in {Remove, CloseAll}
    ensures var end := AllCarried(ref, feeBps, h, uses + [Use(last, false)]);
            && IsEmptyPlan(end.plan) && !end.indexed
            && end.usdgPaid == UsdgOf(AllCarried(ref, feeBps, h, uses)) <= UsdgOf(h)
            && (!SomeOrderRounds(ref, feeBps, h, uses) ==> end.usdgPaid == UsdgOf(h)) && end.stockPaid == StockOf(h)
  {
    var now := AllCarried(ref, feeBps, h, uses);
    var steps := StepsFor(ref, feeBps, now, Use(last, false));
    OrdersConserve(ref, feeBps, h, uses);
    RemovalNeverReverts(ref.vault, ref.planId, ref.symbol, now, false);
    CloseEndsWhereTheSequenceDoes(ref.vault, ref.planId, ref.symbol, now, false);
    CarriedThrough(now, steps, false);
    CarriedConcat(ref, feeBps, h, uses, Use(last, false));
  }

  lemma {:induction false} CarriedThrough(h: Held, steps: seq<TxStep>, epochPending: bool)
    requires Execute(h, steps, epochPending).Done?
    ensures Carried(h, steps, epochPending) == Execute(h, steps, epochPending).held
    decreases |steps|
  {
    if steps != [] {
      CarriedThrough(Apply(h, steps[0].call, epochPending).held, steps[1..], epochPending);
    }
  }

  lemma {:induction false} CarriedConcat(ref: PlanRef, feeBps: nat, h: Held, uses: seq<Use>, last: Use)
    ensures var now := AllCarried(ref, feeBps, h, uses);
            AllCarried(ref, feeBps, h, uses + [last])
            == Carried(now, StepsFor(ref, feeBps, now, last), last.epochPending)
    decreases |uses|
  {
    if uses == [] {
      assert AllCarried(ref, feeBps, Carried(h, StepsFor(ref, feeBps, h, last), last.epochPending), [])
          == Carried(h, StepsFor(ref, feeBps, h, last), last.epochPending);
      assert [] + [last] == [last];
    } else {
      assert (uses + [last])[1..] == uses[1..] + [last];
      CarriedConcat(ref, feeBps, Carried(h, StepsFor(ref, feeBps, h, uses[0]), uses[0].epochPending), uses[1..], last);
    }
  }
}
