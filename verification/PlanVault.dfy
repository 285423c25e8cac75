/** The vault's rules for one plan's exit calls: which revert, and what the others leave and pay out. */
module PlanVault {
  import opened TxTypes
  import opened RemovePlan

  /** What a withdrawal of part of the boosted balance leaves of it. */
  datatype Left = Left(shares: nat, value: nat)

  /**
   * A plan as the vault holds it, and what it has paid out so far (gross, before fees). `burn` is the pool's say in a
   * withdrawal of part of the boosted balance: the shares and the value it leaves.
   */
  datatype Held = Held(plan: FreshPlan, indexed: bool, paused: bool, usdgPaid: nat, stockPaid: nat,
                       burn: (FreshPlan, nat) -> Left)

  /** Shares are burnt rounded up, against the plan: it is never left more than what it did not take out. */
  ghost predicate RoundsUp(burn: (FreshPlan, nat) -> Left) {
    forall p: FreshPlan, a: nat :: 0 < a < p.boostValue ==>
                                     burn(p, a).shares <= p.boostShares && burn(p, a).value + a <= p.boostValue &&
                                     (burn(p, a).shares == 0 ==> burn(p, a).value == 0)
  }

  /** Boost shares are the only source of boosted value, and only a boosted plan has them. */
  predicate Consistent(p: FreshPlan) {
    (p.boostShares == 0 ==> p.boostValue == 0) && (!p.boosted ==> p.boostShares == 0)
  }

  datatype Outcome = Done(held: Held) | Reverted(reason: Revert)
  datatype Revert = ZeroAmount | InsufficientIdle | InsufficientAccrued | PlanNotEmpty | EpochInProgress | NotAnExit

  /** The boosted balance, yield included, comes back as idle USDG and every share is burnt. */
  function Unboosted(p: FreshPlan): FreshPlan {
    p.(boosted := false, usdgIdle := p.usdgIdle + p.boostValue, boostShares := 0, boostValue := 0)
  }

  /** A full withdrawal; the shares behind a boosted value that floors to zero stay. */
  function Drained(p: FreshPlan): FreshPlan {
    p.(usdgIdle := 0, boostValue := 0, boostShares := if p.boostValue > 0 then 0 else p.boostShares)
  }

  /** `a` of the boosted balance taken out, idle USDG being gone; all of it gives up every share. */
  function Debited(h: Held, a: nat): FreshPlan {
    var left := if a >= h.plan.boostValue then Left(0, 0) else h.burn(h.plan, a);
    h.plan.(usdgIdle := 0, boostShares := left.shares, boostValue := left.value)
  }

  /** Idle USDG goes first, then the boosted balance; exactly what was asked for is paid. */
  function Withdraw(h: Held, amount: nat): Outcome {
    var p := h.plan;
    var asked := if amount == MAX_UINT256 then UsdgOut(p) else amount;
    if asked == 0 then Reverted(ZeroAmount)
    else if asked > UsdgOut(p) then Reverted(InsufficientIdle)
    else if asked > p.usdgIdle then Done(h.(plan := Debited(h, asked - p.usdgIdle), usdgPaid := h.usdgPaid + asked))
    else Done(h.(plan := p.(usdgIdle := p.usdgIdle - asked), usdgPaid := h.usdgPaid + asked))
  }

  function ClaimStock(h: Held, amount: nat): Outcome {
    var p := h.plan;
    var out := if amount == MAX_UINT256 then p.stockAccrued else amount;
    if out == 0 then Reverted(ZeroAmount)
    else if out > p.stockAccrued then Reverted(InsufficientAccrued)
    else Done(h.(plan := p.(stockAccrued := p.stockAccrued - out), stockPaid := h.stockPaid + out))
  }

  function PruneFrom(h: Held, epochPending: bool): Outcome {
    if !IsEmptyPlan(h.plan) then Reverted(PlanNotEmpty)
    else if epochPending then Reverted(EpochInProgress)
    else Done(h.(indexed := false))
  }

  /** Everything out in one call; with a page open an indexed plan stays, paused. */
  function CloseOut(h: Held, epochPending: bool): Outcome {
    var u := if h.plan.boosted then Unboosted(h.plan) else h.plan;
    if u.boostShares != 0 then Reverted(PlanNotEmpty)
    else
      var out := h.(plan := u.(usdgIdle := 0, stockAccrued := 0),
                    usdgPaid := h.usdgPaid + u.usdgIdle, stockPaid := h.stockPaid + u.stockAccrued);
      Done(if !epochPending || !h.indexed then out.(indexed := false) else out.(paused := true))
  }

  function Apply(h: Held, call: Call, epochPending: bool): Outcome {
    match call
    case SetPlanBoost(_, enabled) => if enabled then Reverted(NotAnExit) else Done(h.(plan := Unboosted(h.plan)))
    case WithdrawIdle(_, amount) => Withdraw(h, amount)
    case Claim(_, amount) => ClaimStock(h, amount)
    case PrunePlan(_) => PruneFrom(h, epochPending)
    case ClosePlan(_) => CloseOut(h, epochPending)
    case SetPlanPaused(_, paused) => Done(h.(paused := paused))
    case _ => Reverted(NotAnExit)
  }

  // ---------------------------------------------------------------- the rules, one by one

  /** A withdrawal pays exactly what was asked for: idle USDG first, the rest out of the boosted balance. */
  lemma WithdrawMoves(h: Held, planId: nat, amount: nat, epochPending: bool)
    ensures var p, out := h.plan, Apply(h, WithdrawIdle(planId, amount), epochPending);
            var all := p.usdgIdle + p.boostValue;
            var asked := if amount == MAX_UINT256 then all else amount;
            if asked == 0 then out == Reverted(ZeroAmount)
            else if asked > all then out == Reverted(InsufficientIdle)
            else
              && out.Done? && out.held.usdgPaid - h.usdgPaid == asked
              && out.held == h.(plan := out.held.plan, usdgPaid := out.held.usdgPaid)
              && out.held.plan == p.(usdgIdle := out.held.plan.usdgIdle, boostShares := out.held.plan.boostShares,
                                     boostValue := out.held.plan.boostValue)
              && out.held.plan.usdgIdle == (if asked < p.usdgIdle then p.usdgIdle - asked else 0)
              && Left(out.held.plan.boostShares, out.held.plan.boostValue)
                 == if asked <= p.usdgIdle then Left(p.boostShares, p.boostValue)
                    else if asked == all then Left(0, 0) else h.burn(p, asked - p.usdgIdle)
  {
  }

  /** A claim pays out that much of the stock, or all of it, and nothing it does not have. */
  lemma ClaimMoves(h: Held, planId: nat, amount: nat, epochPending: bool)
    ensures var p, out := h.plan, Apply(h, Claim(planId, amount), epochPending);
            var asked := if amount == MAX_UINT256 then p.stockAccrued else amount;
            if asked == 0 then out == Reverted(ZeroAmount)
            else if asked > p.stockAccrued then out == Reverted(InsufficientAccrued)
            else
              && out.Done? && out.held.stockPaid - h.stockPaid == asked
              && out.held.plan.stockAccrued + asked == p.stockAccrued
              && out.held == h.(plan := p.(stockAccrued := out.held.plan.stockAccrued),
                                stockPaid := out.held.stockPaid)
  {
  }

  /** A prune takes an empty plan out of the index while no page is open, and does nothing else. */
  lemma PruneUnindexes(h: Held, planId: nat, epochPending: bool)
    ensures var p, out := h.plan, Apply(h, PrunePlan(planId), epochPending);
            if p.usdgIdle > 0 || p.stockAccrued > 0 || p.boostShares > 0 then out == Reverted(PlanNotEmpty)
            else if epochPending then out == Reverted(EpochInProgress)
            else out == Done(h.(indexed := false))
  {
  }

  /**
   * A close pays everything out, unboosting first, and takes the plan out of the index; an indexed one stays there,
   * paused, while a page is open. Shares without the flag are refused.
   */
  lemma CloseEmpties(h: Held, planId: nat, epochPending: bool)
    ensures var p, out := h.plan, Apply(h, ClosePlan(planId), epochPending);
            if !p.boosted && p.boostShares > 0 then out == Reverted(PlanNotEmpty)
            else
              && out.Done? && IsEmptyPlan(out.held.plan) && !out.held.plan.boosted
              && out.held.usdgPaid - h.usdgPaid == p.usdgIdle + (if p.boosted then p.boostValue else 0)
              && out.held.stockPaid - h.stockPaid == p.stockAccrued
              && (out.held.indexed <==> h.indexed && epochPending)
              && (out.held.paused <==> h.paused || (h.indexed && epochPending))
  {
  }

  function Execute(h: Held, steps: seq<TxStep>, epochPending: bool): Outcome
    decreases |steps|
  {
    if steps == [] then Done(h)
    else
      match Apply(h, steps[0].call, epochPending)
      case Reverted(reason) => Reverted(reason)
      case Done(h') => Execute(h', steps[1..], epochPending)
  }

  lemma {:induction false} ExecuteConcat(h: Held, a: seq<TxStep>, b: seq<TxStep>, epochPending: bool)
    ensures Execute(h, a + b, epochPending)
         == match Execute(h, a, epochPending)
            case Reverted(r) => Reverted(r)
            case Done(h') => Execute(h', b, epochPending)
    decreases |a|
  {
    if a == [] {
      assert a + b == b;
    } else {
      assert (a + b)[1..] == a[1..] + b;
      match Apply(h, a[0].call, epochPending)
      case Reverted(_) =>
      case Done(h') => ExecuteConcat(h', a[1..], b, epochPending);
    }
  }

  // ---------------------------------------------------------------- the removal, leg by leg

  function InputOf(vault: Address, planId: nat, symbol: string, h: Held, epochPending: bool): RemoveInput {
    RemoveInput(vault, planId, h.plan, epochPending, symbol)
  }

  /** What the sequence leaves: nothing in the plan, everything paid, out of the index unless a page is open. */
  function Removed(h: Held, epochPending: bool): Held {
    h.(plan := h.plan.(boosted := false, usdgIdle := 0, stockAccrued := 0, boostShares := 0, boostValue := 0),
       indexed := h.indexed && epochPending,
       usdgPaid := h.usdgPaid + UsdgOut(h.plan), stockPaid := h.stockPaid + h.plan.stockAccrued)
  }

  lemma ExecuteOne(h: Held, steps: seq<TxStep>, epochPending: bool)
    requires |steps| <= 1
    ensures Execute(h, steps, epochPending) == if steps == [] then Done(h) else Apply(h, steps[0].call, epochPending)
  {
  }

  function AfterUnboost(h: Held): Held { if h.plan.boosted then h.(plan := Unboosted(h.plan)) else h }

  function AfterWithdraw(h: Held): Held {
    if UsdgOut(h.plan) > 0 then h.(plan := Drained(h.plan), usdgPaid := h.usdgPaid + UsdgOut(h.plan)) else h
  }

  function AfterClaim(h: Held): Held {
    h.(plan := h.plan.(stockAccrued := 0), stockPaid := h.stockPaid + h.plan.stockAccrued)
  }

  function AfterPrune(h: Held, epochPending: bool): Held { if epochPending then h else h.(indexed := false) }

  /** A leg that is sent runs, one that is not has nothing to do; the rest goes on from where it leaves the plan. */
  lemma LegRuns(h: Held, sent: bool, step: TxStep, rest: seq<TxStep>, epochPending: bool, h': Held)
    requires if sent then Apply(h, step.call, epochPending) == Done(h') else h' == h
    ensures Execute(h, Before(sent, step, rest), epochPending) == Execute(h', rest, epochPending)
  {
    if sent {
      assert ([step] + rest)[1..] == rest;
    }
  }

  lemma UnboostRuns(i: RemoveInput, h: Held)
    requires i.plan.boosted == h.plan.boosted
    ensures Execute(h, RemoveSteps(i), i.epochPending) == Execute(AfterUnboost(h), FromWithdraw(i), i.epochPending)
  {
    LegRuns(h, i.plan.boosted, UnboostStep(i), FromWithdraw(i), i.epochPending, AfterUnboost(h));
  }

  lemma WithdrawRuns(i: RemoveInput, h: Held)
    requires UsdgOut(i.plan) == UsdgOut(h.plan)
    ensures Execute(h, FromWithdraw(i), i.epochPending) == Execute(AfterWithdraw(h), FromClaim(i), i.epochPending)
  {
    LegRuns(h, UsdgOut(i.plan) > 0, WithdrawStep(i), FromClaim(i), i.epochPending, AfterWithdraw(h));
  }

  lemma ClaimRuns(i: RemoveInput, h: Held)
    requires i.plan.stockAccrued == h.plan.stockAccrued
    ensures Execute(h, FromClaim(i), i.epochPending) == Execute(AfterClaim(h), FromPrune(i), i.epochPending)
  {
    LegRuns(h, i.plan.stockAccrued > 0, ClaimStep(i), FromPrune(i), i.epochPending, AfterClaim(h));
  }

  lemma PruneRuns(i: RemoveInput, h: Held)
    requires IsEmptyPlan(h.plan)
    ensures Execute(h, FromPrune(i), i.epochPending) == Done(AfterPrune(h, i.epochPending))
  {
    LegRuns(h, !i.epochPending, PruneStep(i), [], i.epochPending, AfterPrune(h, i.epochPending));
  }

  lemma LegsRun(i: RemoveInput, h: Held)
    requires Consistent(h.plan) && i.plan == h.plan
    ensures Execute(h, RemoveSteps(i), i.epochPending)
         == Done(AfterPrune(AfterClaim(AfterWithdraw(AfterUnboost(h))), i.epochPending))
  {
    var h1 := AfterUnboost(h);
    var h2 := AfterWithdraw(h1);
    UnboostRuns(i, h);
    WithdrawRuns(i, h1);
    ClaimRuns(i, h2);
    PruneRuns(i, AfterClaim(h2));
  }

  lemma StagesEndRemoved(h: Held, epochPending: bool)
    requires Consistent(h.plan) && h.indexed
    ensures AfterPrune(AfterClaim(AfterWithdraw(AfterUnboost(h))), epochPending) == Removed(h, epochPending)
  {
  }

  /**
   * From any consistent plan state, boost shares worth nothing included, no leg of the removal reverts; it ends with
   * the plan empty and everything it held paid out, and out of the index exactly when no buy page was open.
   */
  lemma RemovalNeverReverts(vault: Address, planId: nat, symbol: string, h: Held, epochPending: bool)
    requires Consistent(h.plan) && h.indexed
    ensures Execute(h, RemoveSteps(InputOf(vault, planId, symbol, h, epochPending)), epochPending)
            == Done(Removed(h, epochPending))
    ensures IsEmptyPlan(Removed(h, epochPending).plan) && (!Removed(h, epochPending).indexed <==> !epochPending)
  {
    LegsRun(InputOf(vault, planId, symbol, h, epochPending), h);
    StagesEndRemoved(h, epochPending);
  }

  // ---------------------------------------------------------------- rebuilding after k legs

  /** The plan state after the first `k` legs of its removal. */
  function AfterLegs(h: Held, steps: seq<TxStep>, k: nat, epochPending: bool): Outcome
    requires k <= |steps|
  {
    Execute(h, steps[..k], epochPending)
  }

  /** The plan after its first leg, whichever that is. */
  function AfterFirst(h: Held, epochPending: bool): Held {
    if h.plan.boosted then AfterUnboost(h)
    else if UsdgOut(h.plan) > 0 then AfterWithdraw(h)
    else if h.plan.stockAccrued > 0 then AfterClaim(h)
    else AfterPrune(h, epochPending)
  }

  predicate OnlyPruneLeft(p: FreshPlan) { !p.boosted && UsdgOut(p) == 0 && p.stockAccrued == 0 }

  function FirstCall(i: RemoveInput): Call {
    if i.plan.boosted then SetPlanBoost(i.planId, false)
    else if UsdgOut(i.plan) > 0 then WithdrawIdle(i.planId, MAX_UINT256)
    else if i.plan.stockAccrued > 0 then Claim(i.planId, MAX_UINT256)
    else PrunePlan(i.planId)
  }

  lemma FirstListed(i: RemoveInput)
    requires RemoveSteps(i) != []
    ensures RemoveSteps(i)[0].call == FirstCall(i)
    ensures OnlyPruneLeft(i.plan) ==> !i.epochPending && |RemoveSteps(i)| == 1
  {
  }

  lemma FirstLegKeepsConsistent(h: Held, epochPending: bool)
    requires Consistent(h.plan)
    ensures Consistent(AfterFirst(h, epochPending).plan)
  {
  }

  lemma FirstLeg(i: RemoveInput, h: Held)
    requires Consistent(h.plan) && i.plan == h.plan && (OnlyPruneLeft(h.plan) ==> !i.epochPending)
    ensures Apply(h, FirstCall(i), i.epochPending) == Done(AfterFirst(h, i.epochPending))
  {
  }

  /** What is left to list once the first leg, not the prune, has mined. */
  lemma RestOfLegs(i: RemoveInput, h: Held)
    requires Consistent(h.plan) && i.plan == h.plan && !OnlyPruneLeft(h.plan)
    ensures RemoveSteps(i) != [] && RemoveSteps(i.(plan := AfterFirst(h, i.epochPending).plan)) == RemoveSteps(i)[1..]
  {
    if h.plan.boosted {
      RestAfterUnboost(i);
    } else if UsdgOut(h.plan) > 0 {
      RestAfterWithdraw(i);
    } else {
      RestAfterClaim(i);
    }
  }

  lemma RestAfterUnboost(i: RemoveInput)
    requires i.plan.boosted
    ensures RemoveSteps(i.(plan := Unboosted(i.plan))) == FromWithdraw(i) == RemoveSteps(i)[1..]
  {
  }

  lemma RestAfterWithdraw(i: RemoveInput)
    requires !i.plan.boosted && UsdgOut(i.plan) > 0
    ensures RemoveSteps(i.(plan := Drained(i.plan))) == FromClaim(i) == RemoveSteps(i)[1..]
  {
  }

  lemma RestAfterClaim(i: RemoveInput)
    requires !i.plan.boosted && UsdgOut(i.plan) == 0 && i.plan.stockAccrued > 0
    ensures RemoveSteps(i.(plan := i.plan.(stockAccrued := 0))) == FromPrune(i) == RemoveSteps(i)[1..]
  {
  }

  lemma ExecuteFirst(h: Held, steps: seq<TxStep>, k: nat, epochPending: bool, h': Held)
    requires 0 < k <= |steps| && Apply(h, steps[0].call, epochPending) == Done(h')
    ensures AfterLegs(h, steps, k, epochPending) == AfterLegs(h', steps[1..], k - 1, epochPending)
  {
    assert steps[..k][1..] == steps[1..][..k - 1];
  }

  /** The rebuilt list is the rest, or the prune alone once the prune itself has mined. */
  predicate IsRest(steps: seq<TxStep>, epochPending: bool, k: nat, rebuilt: seq<TxStep>)
    requires k <= |steps|
  {
    rebuilt == if k < |steps| || epochPending then steps[k..] else if k > 0 then steps[k - 1..] else []
  }

  /** The list rebuilt from what the first `k` of `steps` leave is the rest of them. */
  predicate RebuildsRest(i: RemoveInput, h: Held, steps: seq<TxStep>, k: nat)
    requires k <= |steps|
  {
    var out := AfterLegs(h, steps, k, i.epochPending);
    && out.Done? && Consistent(out.held.plan)
    && IsRest(steps, i.epochPending, k, RemoveSteps(i.(plan := out.held.plan)))
  }

  lemma RebuildAfterFirst(i: RemoveInput, h: Held, h': Held, steps: seq<TxStep>, k: nat)
    requires 0 < k <= |steps| && Apply(h, steps[0].call, i.epochPending) == Done(h')
    requires RebuildsRest(i.(plan := h'.plan), h', steps[1..], k - 1)
    ensures RebuildsRest(i, h, steps, k)
  {
    ExecuteFirst(h, steps, k, i.epochPending, h');
    assert steps[1..][k - 1..] == steps[k..] && (k > 1 ==> steps[1..][k - 2..] == steps[k - 1..]);
  }

  lemma {:induction false} RebuildIsTheRest(i: RemoveInput, h: Held, k: nat)
    requires Consistent(h.plan) && i.plan == h.plan && k <= |RemoveSteps(i)|
    ensures RebuildsRest(i, h, RemoveSteps(i), k)
    decreases k
  {
    if k == 0 {
      assert RemoveSteps(i)[..0] == [];
    } else {
      var h' := AfterFirst(h, i.epochPending);
      FirstListed(i);
      FirstLeg(i, h);
      if OnlyPruneLeft(h.plan) {
        ExecuteFirst(h, RemoveSteps(i), k, i.epochPending, h');
      } else {
        FirstLegKeepsConsistent(h, i.epochPending);
        RestOfLegs(i, h);
        RebuildIsTheRest(i.(plan := h'.plan), h', k - 1);
        RebuildAfterFirst(i, h, h', RemoveSteps(i), k);
      }
    }
  }

  /**
   * Rebuilding the removal from a fresh read after `k` mined legs gives exactly the steps not yet mined, if and only if
   * the prune itself has not mined; after the prune it lists the prune once more.
   */
  lemma RebuildDropsMinedLegsExactly(vault: Address, planId: nat, symbol: string, h: Held, epochPending: bool, k: nat)
    requires Consistent(h.plan)
    requires k <= |RemoveSteps(InputOf(vault, planId, symbol, h, epochPending))|
    ensures var i := InputOf(vault, planId, symbol, h, epochPending);
            var out := AfterLegs(h, RemoveSteps(i), k, epochPending);
            out.Done? &&
            var rebuilt := RemoveSteps(InputOf(vault, planId, symbol, out.held, epochPending));
            (rebuilt == RemoveSteps(i)[k..] <==> (k < |RemoveSteps(i)| || epochPending)) &&
            (k == |RemoveSteps(i)| && !epochPending ==> rebuilt == [PruneStep(i)])
  {
    RebuildIsTheRest(InputOf(vault, planId, symbol, h, epochPending), h, k);
    PruneIsLast(InputOf(vault, planId, symbol, h, epochPending));
  }

  lemma PruneIsLast(i: RemoveInput)
    ensures !i.epochPending ==> RemoveSteps(i) != [] && RemoveSteps(i)[|RemoveSteps(i)| - 1..] == [PruneStep(i)]
  {
  }

  // ---------------------------------------------------------------- a leg sent once more

  /** No leg is listed twice. */
  lemma NoLegTwice(i: RemoveInput, j: nat, k: nat)
    requires j < k < |RemoveSteps(i)|
    ensures RemoveSteps(i)[j].call != RemoveSteps(i)[k].call
  {
  }

  /** A leg with something to do is listed. */
  lemma WorkIsListed(i: RemoveInput)
    ensures var steps := RemoveSteps(i);
            var w := if i.plan.boosted then 1 else 0;
            var c := if UsdgOut(i.plan) > 0 then w + 1 else w;
            && (i.plan.boosted ==> |steps| > 0 && steps[0].call == SetPlanBoost(i.planId, false))
            && (UsdgOut(i.plan) > 0 ==> w < |steps| && steps[w].call == WithdrawIdle(i.planId, MAX_UINT256))
            && (i.plan.stockAccrued > 0 ==> c < |steps| && steps[c].call == Claim(i.planId, MAX_UINT256))
  {
  }

  /** Every leg but the prune moves money. */
  lemma OthersMoveMoney(i: RemoveInput, j: nat)
    requires j < |RemoveSteps(i)| && (j < |RemoveSteps(i)| - 1 || i.epochPending)
    ensures RemoveSteps(i)[j].call in {SetPlanBoost(i.planId, false), WithdrawIdle(i.planId, MAX_UINT256),
                                       Claim(i.planId, MAX_UINT256)}
  {
  }

  predicate NothingLeftFor(p: FreshPlan, planId: nat, call: Call) {
    || (call == SetPlanBoost(planId, false) && !p.boosted)
    || (call == WithdrawIdle(planId, MAX_UINT256) && UsdgOut(p) == 0)
    || (call == Claim(planId, MAX_UINT256) && p.stockAccrued == 0)
  }

  /** A money leg with nothing left to do reverts, or changes nothing. */
  lemma IdleLegMovesNothing(h: Held, planId: nat, call: Call, epochPending: bool)
    requires Consistent(h.plan)
    requires NothingLeftFor(h.plan, planId, call)
    ensures Apply(h, call, epochPending) == Reverted(ZeroAmount) || Apply(h, call, epochPending) == Done(h)
  {
  }

  lemma UnlistedIsIdle(i: RemoveInput, j: nat, i': RemoveInput)
    requires j < |RemoveSteps(i)| && (j < |RemoveSteps(i)| - 1 || i.epochPending) && i' == i.(plan := i'.plan)
    requires forall k :: 0 <= k < |RemoveSteps(i')| ==> RemoveSteps(i')[k].call != RemoveSteps(i)[j].call
    ensures NothingLeftFor(i'.plan, i.planId, RemoveSteps(i)[j].call)
  {
    OthersMoveMoney(i, j);
    WorkIsListed(i');
  }

  lemma MinedIsIdle(i: RemoveInput, i': RemoveInput, j: nat, k: nat)
    requires j < k <= |RemoveSteps(i)| && (j < |RemoveSteps(i)| - 1 || i.epochPending) && i' == i.(plan := i'.plan)
    requires IsRest(RemoveSteps(i), i.epochPending, k, RemoveSteps(i'))
    ensures NothingLeftFor(i'.plan, i.planId, RemoveSteps(i)[j].call)
  {
    var from := if k < |RemoveSteps(i)| || i.epochPending then k else k - 1;
    forall l | 0 <= l < |RemoveSteps(i')| ensures RemoveSteps(i')[l].call != RemoveSteps(i)[j].call {
      assert RemoveSteps(i')[l] == RemoveSteps(i)[from + l];
      NoLegTwice(i, j, from + l);
    }
    UnlistedIsIdle(i, j, i');
  }

  ghost predicate MovesNothing(h: Held, call: Call, epochPending: bool) {
    Apply(h, call, epochPending) == Reverted(ZeroAmount) || Apply(h, call, epochPending) == Done(h)
  }

  lemma PruneOfThePrunedMovesNothing(h: Held, planId: nat)
    requires IsEmptyPlan(h.plan) && !h.indexed
    ensures MovesNothing(h, PrunePlan(planId), false)
  {
  }

  lemma PruneAgainMovesNothing(i: RemoveInput, h: Held)
    requires Consistent(h.plan) && i.plan == h.plan && !i.epochPending
    ensures RemoveSteps(i) != [] && Execute(h, RemoveSteps(i), false).Done?
    ensures MovesNothing(Execute(h, RemoveSteps(i), false).held, RemoveSteps(i)[|RemoveSteps(i)| - 1].call, false)
  {
    LegsRun(i, h);
    PruneIsLast(i);
    assert RemoveSteps(i)[|RemoveSteps(i)| - 1] == RemoveSteps(i)[|RemoveSteps(i)| - 1..][0];
    PruneOfThePrunedMovesNothing(AfterPrune(AfterClaim(AfterWithdraw(AfterUnboost(h))), false), i.planId);
  }

  /** A leg that has mined, sent once more at any later point of the removal, reverts or changes nothing. */
  lemma MinedLegMovesNothing(vault: Address, planId: nat, symbol: string, h: Held, epochPending: bool, j: nat, k: nat)
    requires Consistent(h.plan)
    requires j < k <= |RemoveSteps(InputOf(vault, planId, symbol, h, epochPending))|
    ensures var steps := RemoveSteps(InputOf(vault, planId, symbol, h, epochPending));
            var now := AfterLegs(h, steps, k, epochPending);
            now.Done? && MovesNothing(now.held, steps[j].call, epochPending)
  {
    var i := InputOf(vault, planId, symbol, h, epochPending);
    var steps := RemoveSteps(i);
    RebuildIsTheRest(i, h, k);
    if j < |steps| - 1 || epochPending {
      var now := AfterLegs(h, steps, k, epochPending).held;
      MinedIsIdle(i, i.(plan := now.plan), j, k);
      IdleLegMovesNothing(now, planId, steps[j].call, epochPending);
    } else {
      assert steps[..k] == steps;
      PruneAgainMovesNothing(i, h);
    }
  }

  // ---------------------------------------------------------------- the one-transaction close

  /**
   * With no page open, `closePlan` from any consistent plan ends where the whole sequence ends: same plan, same index,
   * same USDG and stock paid. With one open it pays the same and differs only in pausing the plan it leaves indexed.
   */
  lemma CloseEndsWhereTheSequenceDoes(vault: Address, planId: nat, symbol: string, h: Held, epochPending: bool)
    requires Consistent(h.plan) && h.indexed
    ensures var i := InputOf(vault, planId, symbol, h, epochPending);
            Execute(h, CloseSteps(i), epochPending)
            == Done(if epochPending && !IsEmptyPlan(h.plan) then Removed(h, epochPending).(paused := true)
                    else if epochPending then h
                    else Removed(h, epochPending))
    ensures var i := InputOf(vault, planId, symbol, h, epochPending);
            !epochPending ==> Execute(h, CloseSteps(i), epochPending) == Execute(h, RemoveSteps(i), epochPending)
  {
    RemovalNeverReverts(vault, planId, symbol, h, epochPending);
    ExecuteOne(h, CloseSteps(InputOf(vault, planId, symbol, h, epochPending)), epochPending);
  }

  /** With Morpho short of liquidity: exactly the idle part is paid, and the boosted part stays as it was. */
  lemma PartialWithdrawLeavesTheBoost(vault: Address, planId: nat, h: Held, epochPending: bool)
    requires 0 < h.plan.usdgIdle < MAX_UINT256
    ensures Execute(h, [TxStep(STEP_PARTIAL, vault, WithdrawIdle(planId, h.plan.usdgIdle))], epochPending)
         == Done(h.(plan := h.plan.(usdgIdle := 0), usdgPaid := h.usdgPaid + h.plan.usdgIdle))
  {
    ExecuteOne(h, [TxStep(STEP_PARTIAL, vault, WithdrawIdle(planId, h.plan.usdgIdle))], epochPending);
  }
}
