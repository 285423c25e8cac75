/** `planSteps.ts`: the single-plan orders, each its steps and its rows, and what a settled withdrawal restates. */
module PlanOrders {
  import opened Wrappers
  import opened TxTypes
  import opened FlowTimeline
  import opened Money
  import RemovePlan

  datatype PlanRef = PlanRef(vault: Address, planId: nat, symbol: string)

  const STEP_APPROVE: string := "Approve USDG"
  const STEP_DEPOSIT: string := "Deposit"
  const STEP_WITHDRAW_PART: string := "Withdraw"
  const STEP_BOOST: string := "Boost"

  datatype Deposit = Deposit(steps: seq<TxStep>, flow: seq<FlowStep>, amount: nat, credited: Option<nat>,
                             balanceAfter: Option<nat>)

  /** The approval row is always listed; its step is sent only when the allowance falls short, and never for ETH. */
  method BuildDepositOrder(ref: PlanRef, usdg: Address, payUsdg: bool, amount: nat, needsApproval: bool,
                           minUsdgOut: Option<nat>,
                           credited: Option<nat>, balanceBefore: nat)
    returns (o: Deposit)
    ensures Aligned(o.flow, o.steps) && o.amount == amount && o.credited == credited
    ensures o.steps != [] && |o.steps| == (if payUsdg && needsApproval then 2 else 1)
    ensures payUsdg && needsApproval ==> o.steps[0] == TxStep(STEP_APPROVE, usdg, Approve(ref.vault, amount))
    ensures o.steps[|o.steps| - 1] ==
              TxStep(STEP_DEPOSIT, ref.vault,
                     if payUsdg then DepositUsdg(ref.planId, amount)
                     else DepositEth(ref.planId, if minUsdgOut.Some? then minUsdgOut.value else 0, amount))
    ensures o.flow ==
              (if payUsdg then [FlowStep(STEP_APPROVE, !needsApproval, false)] else []) + [SentRow(STEP_DEPOSIT)]
    ensures o.balanceAfter.Some? <==> credited.Some?
    ensures credited.Some? ==> o.balanceAfter.value == balanceBefore + credited.value
  {
    var steps: seq<TxStep> := [];
    var flow: seq<FlowStep> := [];
    if payUsdg {
      if needsApproval {
        steps := steps + [TxStep(STEP_APPROVE, usdg, Approve(ref.vault, amount))];
      }
      flow := flow + [FlowStep(STEP_APPROVE, !needsApproval, false)];
      ghost var approvals := steps;
      assert SentTitles(flow) == Titles(approvals);
      steps := steps + [TxStep(STEP_DEPOSIT, ref.vault, DepositUsdg(ref.planId, amount))];
      SentTitlesConcat(flow, [SentRow(STEP_DEPOSIT)]);
      flow := flow + [SentRow(STEP_DEPOSIT)];
      assert Titles(steps) == Titles(approvals) + [STEP_DEPOSIT];
      assert SentTitles([SentRow(STEP_DEPOSIT)]) == [STEP_DEPOSIT];
    } else {
      steps := [TxStep(STEP_DEPOSIT, ref.vault,
                       DepositEth(ref.planId, if minUsdgOut.Some? then minUsdgOut.value else 0, amount))];
      flow := [SentRow(STEP_DEPOSIT)];
      RemovePlan.RowsOfSteps(steps, flow);
    }
    o := Deposit(steps, flow, amount, credited, if credited.Some? then Some(balanceBefore + credited.value) else None);
  }

  datatype Single = Single(step: TxStep, flow: seq<FlowStep>)

  /** The orders of one call: the step and its row. */
  function SingleOrder(step: TxStep): Single { Single(step, [SentRow(step.title)]) }

  function BuildClaimOrder(ref: PlanRef): Single {
    SingleOrder(TxStep(RemovePlan.ClaimLabel(ref.symbol), ref.vault, Claim(ref.planId, MAX_UINT256)))
  }

  function BuildBoostOrder(ref: PlanRef): Single {
    SingleOrder(TxStep(STEP_BOOST, ref.vault, SetPlanBoost(ref.planId, true)))
  }

  function BuildUnboostOrder(ref: PlanRef): Single {
    SingleOrder(TxStep(RemovePlan.STEP_UNBOOST, ref.vault, SetPlanBoost(ref.planId, false)))
  }

  function BuildPauseOrder(ref: PlanRef, pause: bool): Single {
    SingleOrder(TxStep(if pause then "Pause plan" else "Resume plan", ref.vault, SetPlanPaused(ref.planId, pause)))
  }

  /** Each of them, written out. */
  lemma SingleOrdersSend(ref: PlanRef)
    ensures BuildClaimOrder(ref).step == TxStep("Claim " + ref.symbol, ref.vault, Claim(ref.planId, MAX_UINT256))
    ensures BuildBoostOrder(ref).step == TxStep("Boost", ref.vault, SetPlanBoost(ref.planId, true))
    ensures BuildUnboostOrder(ref).step == TxStep("Unboost", ref.vault, SetPlanBoost(ref.planId, false))
    ensures BuildPauseOrder(ref, true).step == TxStep("Pause plan", ref.vault, SetPlanPaused(ref.planId, true))
    ensures BuildPauseOrder(ref, false).step == TxStep("Resume plan", ref.vault, SetPlanPaused(ref.planId, false))
  {
  }

  lemma SingleOrdersAreAligned(ref: PlanRef, pause: bool)
    ensures forall o ::
              o in {BuildClaimOrder(ref), BuildBoostOrder(ref), BuildUnboostOrder(ref), BuildPauseOrder(ref, pause)} ==>
              Aligned(o.flow, [o.step])
  {
    forall o | o in {BuildClaimOrder(ref), BuildBoostOrder(ref), BuildUnboostOrder(ref), BuildPauseOrder(ref, pause)}
      ensures Aligned(o.flow, [o.step])
    {
      RemovePlan.RowsOfSteps([o.step], o.flow);
    }
  }

  // ---------------------------------------------------------------- withdraw

  datatype Withdraw = Withdraw(
    step: TxStep, flow: seq<FlowStep>, amount: nat, all: bool, receive: int, fromBoost: nat, balanceAfter: nat,
    settled: bool)

  function BuildWithdrawOrder(ref: PlanRef, amount: nat, all: bool, feeBps: nat, usdgIdle: nat,
                              balanceBefore: nat): Withdraw {
    var step := TxStep(STEP_WITHDRAW_PART, ref.vault, WithdrawIdle(ref.planId, if all then MAX_UINT256 else amount));
    Withdraw(step, [SentRow(STEP_WITHDRAW_PART)], amount, all, amount - FeeOf(amount, feeBps),
             if amount > usdgIdle then amount - usdgIdle else 0,
             if !all && balanceBefore > amount then balanceBefore - amount else 0, false)
  }

  /**
   * Idle USDG goes first; what idle does not cover comes back from the boost; nothing is lost between the three
   * figures.
   */
  lemma WithdrawSplits(ref: PlanRef, amount: nat, all: bool, feeBps: nat, usdgIdle: nat, balanceBefore: nat)
    requires feeBps <= BPS
    ensures var o := BuildWithdrawOrder(ref, amount, all, feeBps, usdgIdle, balanceBefore);
            o.receive + FeeOf(amount, feeBps) == amount && 0 <= o.receive &&
            amount - o.fromBoost == (if amount <= usdgIdle then amount else usdgIdle) &&
            (all ==> o.balanceAfter == 0) &&
            (!all && amount <= balanceBefore ==> o.balanceAfter + amount == balanceBefore) &&
            (amount > balanceBefore ==> o.balanceAfter == 0) && o.amount == amount && o.all == all && !o.settled &&
            o.step == TxStep("Withdraw", ref.vault, WithdrawIdle(ref.planId, if all then MAX_UINT256 else amount)) &&
            Aligned(o.flow, [o.step])
  {
    FeeIsAtMostTheAmount(amount, feeBps);
    var o := BuildWithdrawOrder(ref, amount, all, feeBps, usdgIdle, balanceBefore);
    RemovePlan.RowsOfSteps([o.step], o.flow);
  }

  /** The `IdleWithdrawn` figures of the receipt. */
  datatype Paid = Paid(usdgAmount: nat, usdgFee: nat)

  function SettledWithdraw(o: Withdraw, e: Option<Paid>): Withdraw {
    if e.None? then o
    else
      var amount := e.value.usdgAmount;
      o.(amount := amount, receive := amount - e.value.usdgFee, settled := true,
         fromBoost := if o.fromBoost > 0 && o.fromBoost + amount > o.amount then o.fromBoost + amount - o.amount else 0)
  }

  /**
   * What the receipt paid over the estimate came from the boost: the idle part of the withdrawal is the one estimated,
   * whenever some of it was to come from the boost and at least the idle part was paid. Steps and labels do not move.
   */
  lemma SettlingMovesOnlyTheBoost(o: Withdraw, e: Paid)
    requires o.fromBoost <= o.amount
    ensures var s := SettledWithdraw(o, Some(e));
            s.receive + e.usdgFee == e.usdgAmount == s.amount && s.step == o.step && s.flow == o.flow &&
            (o.fromBoost > 0 && e.usdgAmount >= o.amount - o.fromBoost ==>
             s.amount - s.fromBoost == o.amount - o.fromBoost) &&
            (o.fromBoost == 0 || e.usdgAmount < o.amount - o.fromBoost ==> s.fromBoost == 0)
  {
  }
}
