/** `removeSteps.ts`: which calls empty and remove a plan right now, decided from its fresh state. */
module RemovePlan {
  import opened TxTypes
  import opened FlowTimeline

  datatype FreshPlan = FreshPlan(
    owner: Address, recipient: Address,
    boosted: bool, usdgIdle: nat, stockAccrued: nat, boostShares: nat, boostValue: nat)

  datatype RemoveInput = RemoveInput(vault: Address, planId: nat, plan: FreshPlan, epochPending: bool, symbol: string)

  datatype Kind = Close | Sequence
  datatype Prune = Sent | Deferred

  datatype RemoveOrder = RemoveOrder(kind: Kind, steps: seq<TxStep>, flow: seq<FlowStep>, prune: Prune,
                                     withdrawIndex: int)

  const STEP_UNBOOST: string := "Unboost"
  const STEP_WITHDRAW: string := "Withdraw funds"
  const STEP_DELETE: string := "Delete plan"
  const STEP_CLOSE: string := "Withdraw & remove"
  const STEP_PARTIAL: string := "Withdraw available part"

  function ClaimLabel(symbol: string): string { "Claim " + symbol }

  function UsdgOut(p: FreshPlan): nat { p.usdgIdle + p.boostValue }

  predicate IsEmptyPlan(p: FreshPlan) { p.usdgIdle == 0 && p.stockAccrued == 0 && p.boostShares == 0 }

  /** A leg that is sent only if there is something for it to do. */
  function Before(sent: bool, step: TxStep, rest: seq<TxStep>): seq<TxStep> { if sent then [step] + rest else rest }

  function UnboostStep(i: RemoveInput): TxStep { TxStep(STEP_UNBOOST, i.vault, SetPlanBoost(i.planId, false)) }

  function WithdrawStep(i: RemoveInput): TxStep { TxStep(STEP_WITHDRAW, i.vault, WithdrawIdle(i.planId, MAX_UINT256)) }

  function ClaimStep(i: RemoveInput): TxStep { TxStep(ClaimLabel(i.symbol), i.vault, Claim(i.planId, MAX_UINT256)) }

  function PruneStep(i: RemoveInput): TxStep { TxStep(STEP_DELETE, i.vault, PrunePlan(i.planId)) }

  function FromPrune(i: RemoveInput): seq<TxStep> { Before(!i.epochPending, PruneStep(i), []) }

  function FromClaim(i: RemoveInput): seq<TxStep> { Before(i.plan.stockAccrued > 0, ClaimStep(i), FromPrune(i)) }

  function FromWithdraw(i: RemoveInput): seq<TxStep> { Before(UsdgOut(i.plan) > 0, WithdrawStep(i), FromClaim(i)) }

  function RemoveSteps(i: RemoveInput): seq<TxStep> { Before(i.plan.boosted, UnboostStep(i), FromWithdraw(i)) }

  /** The removal written out: what is sent, on what condition, in what order. */
  ghost predicate IsRemoval(i: RemoveInput, steps: seq<TxStep>) {
    steps == (if i.plan.boosted then [TxStep("Unboost", i.vault, SetPlanBoost(i.planId, false))] else [])
             + (if i.plan.usdgIdle > 0 || i.plan.boostValue > 0
                then [TxStep("Withdraw funds", i.vault, WithdrawIdle(i.planId, MAX_UINT256))] else [])
             + (if i.plan.stockAccrued > 0
                then [TxStep("Claim " + i.symbol, i.vault, Claim(i.planId, MAX_UINT256))] else [])
             + (if i.epochPending then [] else [TxStep("Delete plan", i.vault, PrunePlan(i.planId))])
  }

  lemma BeforeIs(sent: bool, step: TxStep, rest: seq<TxStep>)
    ensures Before(sent, step, rest) == (if sent then [step] else []) + rest
  {
  }

  lemma FourInARow(a: seq<TxStep>, b: seq<TxStep>, c: seq<TxStep>, d: seq<TxStep>)
    ensures a + (b + (c + d)) == a + b + c + d
  {
  }

  lemma RemovalIs(i: RemoveInput)
    ensures IsRemoval(i, RemoveSteps(i))
  {
    BeforeIs(i.plan.boosted, UnboostStep(i), FromWithdraw(i));
    BeforeIs(UsdgOut(i.plan) > 0, WithdrawStep(i), FromClaim(i));
    BeforeIs(i.plan.stockAccrued > 0, ClaimStep(i), FromPrune(i));
    FourInARow(if i.plan.boosted then [UnboostStep(i)] else [], if UsdgOut(i.plan) > 0 then [WithdrawStep(i)] else [],
               if i.plan.stockAccrued > 0 then [ClaimStep(i)] else [], FromPrune(i));
  }

  /** One sent row a step so far, each under the step's own label. */
  predicate RowAStep(flow: seq<FlowStep>, steps: seq<TxStep>) {
    |flow| == |steps| && forall r :: 0 <= r < |steps| ==> flow[r] == SentRow(steps[r].title)
  }

  lemma RowAdded(flow: seq<FlowStep>, steps: seq<TxStep>, step: TxStep)
    requires RowAStep(flow, steps)
    ensures RowAStep(flow + [SentRow(step.title)], steps + [step])
  {
  }

  /** The legs that move money: the boost and the idle USDG out, then the stock. */
  method MoneyLegs(i: RemoveInput) returns (steps: seq<TxStep>, flow: seq<FlowStep>, withdrawIndex: int)
    ensures steps + FromPrune(i) == RemoveSteps(i) && RowAStep(flow, steps)
    ensures if UsdgOut(i.plan) == 0 then withdrawIndex == -1
            else 0 <= withdrawIndex < |steps| && steps[withdrawIndex].call == WithdrawIdle(i.planId, MAX_UINT256)
  {
    steps, flow, withdrawIndex := [], [], -1;
    LegAppended(steps, i.plan.boosted, UnboostStep(i), FromWithdraw(i));
    if i.plan.boosted {
      steps, flow := [UnboostStep(i)], [SentRow(STEP_UNBOOST)];
    }
    LegAppended(steps, UsdgOut(i.plan) > 0, WithdrawStep(i), FromClaim(i));
    if i.plan.usdgIdle + i.plan.boostValue > 0 {
      RowAdded(flow, steps, WithdrawStep(i));
      withdrawIndex := |steps|;
      steps, flow := steps + [WithdrawStep(i)], flow + [SentRow(STEP_WITHDRAW)];
    }
    LegAppended(steps, i.plan.stockAccrued > 0, ClaimStep(i), FromPrune(i));
    if i.plan.stockAccrued > 0 {
      RowAdded(flow, steps, ClaimStep(i));
      steps, flow := steps + [ClaimStep(i)], flow + [SentRow(ClaimLabel(i.symbol))];
    }
  }

  lemma LegAppended(prefix: seq<TxStep>, sent: bool, step: TxStep, rest: seq<TxStep>)
    ensures prefix + Before(sent, step, rest) == (if sent then prefix + [step] else prefix) + rest
    ensures [] + Before(sent, step, rest) == Before(sent, step, rest)
  {
  }

  method BuildRemoveOrder(i: RemoveInput) returns (o: RemoveOrder)
    ensures o.kind == Sequence && o.steps == RemoveSteps(i) && IsRemoval(i, o.steps) && Aligned(o.flow, o.steps)
    ensures o.prune == (if i.epochPending then Deferred else Sent)
    ensures if UsdgOut(i.plan) == 0 then o.withdrawIndex == -1
            else 0 <= o.withdrawIndex < |o.steps| &&
                 o.steps[o.withdrawIndex].call == WithdrawIdle(i.planId, MAX_UINT256)
    ensures forall r :: 0 <= r < |o.steps| && r < |o.flow| ==> IsSent(o.flow[r])
    ensures |o.flow| == |o.steps| + (if i.epochPending then 1 else 0)
    ensures i.epochPending ==> o.flow[|o.flow| - 1] == FlowStep(STEP_DELETE, false, true)
  {
    var steps, flow, withdrawIndex := MoneyLegs(i);
    RemovalIs(i);
    if i.epochPending {
      assert steps + [] == steps;
      RowsOfSteps(steps, flow);
      DeferredRowKeeps(flow, steps);
      o := RemoveOrder(Sequence, steps, flow + [FlowStep(STEP_DELETE, false, true)], Deferred, withdrawIndex);
    } else {
      RowAdded(flow, steps, PruneStep(i));
      RowsOfSteps(steps + [PruneStep(i)], flow + [SentRow(STEP_DELETE)]);
      o := RemoveOrder(Sequence, steps + [PruneStep(i)], flow + [SentRow(STEP_DELETE)], Sent, withdrawIndex);
    }
  }

  lemma DeferredRowKeeps(flow: seq<FlowStep>, steps: seq<TxStep>)
    requires Aligned(flow, steps)
    ensures Aligned(flow + [FlowStep(STEP_DELETE, false, true)], steps)
  {
    var row := [FlowStep(STEP_DELETE, false, true)];
    SentTitlesConcat(flow, row);
    assert SentTitles(row) == [];
  }

  /** One row a step, each under the step's own label: the timeline is aligned. */
  lemma {:induction false} RowsOfSteps(steps: seq<TxStep>, flow: seq<FlowStep>)
    requires RowAStep(flow, steps)
    ensures Aligned(flow, steps)
    decreases |steps|
  {
    if steps != [] {
      RowsOfSteps(steps[1..], flow[1..]);
      assert Titles(steps) == [steps[0].title] + Titles(steps[1..]);
    }
  }

  function CloseSteps(i: RemoveInput): seq<TxStep> {
    if IsEmptyPlan(i.plan) && i.epochPending then [] else [TxStep(STEP_CLOSE, i.vault, ClosePlan(i.planId))]
  }

  method BuildCloseOrder(i: RemoveInput) returns (o: RemoveOrder)
    ensures o.kind == Close && o.steps == CloseSteps(i) && Aligned(o.flow, o.steps)
    ensures if i.plan.usdgIdle == 0 && i.plan.stockAccrued == 0 && i.plan.boostShares == 0 && i.epochPending
            then o.steps == [] && o.flow == [FlowStep("Delete plan", false, true)]
            else o.steps == [TxStep("Withdraw & remove", i.vault, ClosePlan(i.planId))] &&
                 o.flow == [SentRow("Withdraw & remove")]
    ensures o.prune == (if i.epochPending then Deferred else Sent)
    ensures o.steps != [] ==> (o.withdrawIndex == 0 <==> UsdgOut(i.plan) > 0)
    ensures o.withdrawIndex != 0 ==> o.withdrawIndex == -1
  {
    if IsEmptyPlan(i.plan) && i.epochPending {
      var flow := [FlowStep(STEP_DELETE, false, true)];
      assert SentTitles(flow) == [];
      return RemoveOrder(Close, [], flow, Deferred, -1);
    }
    var steps, flow := [TxStep(STEP_CLOSE, i.vault, ClosePlan(i.planId))], [SentRow(STEP_CLOSE)];
    RowsOfSteps(steps, flow);
    o := RemoveOrder(Close, steps, flow, if i.epochPending then Deferred else Sent,
                     if UsdgOut(i.plan) > 0 then 0 else -1);
  }

  method BuildPartialWithdraw(vault: Address, planId: nat, usdgIdle: nat) returns (o: RemoveOrder)
    ensures o.kind == Sequence && o.steps == [TxStep(STEP_PARTIAL, vault, WithdrawIdle(planId, usdgIdle))]
    ensures Aligned(o.flow, o.steps) && o.prune == Deferred && o.withdrawIndex == 0
  {
    var step := TxStep(STEP_PARTIAL, vault, WithdrawIdle(planId, usdgIdle));
    var flow := [SentRow(step.title)];
    RowsOfSteps([step], flow);
    o := RemoveOrder(Sequence, [step], flow, Deferred, 0);
  }
}
