/** What a transaction step and a timeline row are made of, shared by every order builder and by the sequencer. */
module TxTypes {
  type Address = string

  const MAX_UINT256: nat := 0xffff_ffff_ffff_ffff_ffff_ffff_ffff_ffff_ffff_ffff_ffff_ffff_ffff_ffff_ffff_ffff

  /** One hop of a router path. `extra` is the adapter's pool encoding, a hex string. */
  datatype RouteHop = RouteHop(protocol: nat, tokenIn: Address, tokenOut: Address, fee: nat, extra: string)

  /** The contract calls the modelled orders send. */
  datatype Call =
    | Approve(spender: Address, allowance: nat)
    | WrapEth(wei: nat)
    | SwapWithRoute(payToken: Address, buyToken: Address, amountIn: nat, minOut: nat, recipient: Address,
                    path: seq<RouteHop>)
    | DepositUsdg(planId: nat, amount: nat)
    | DepositEth(planId: nat, minUsdgOut: nat, wei: nat)
    | SetPlanBoost(planId: nat, enabled: bool)
    | SetPlanPaused(planId: nat, paused: bool)
    | WithdrawIdle(planId: nat, amount: nat)
    | Claim(planId: nat, amount: nat)
    | PrunePlan(planId: nat)
    | ClosePlan(planId: nat)

  datatype TxStep = TxStep(title: string, target: Address, call: Call)

  /** A row of the timeline. A skipped or deferred row sends nothing. */
  datatype FlowStep = FlowStep(title: string, skipped: bool, deferred: bool)

  function SentRow(title: string): FlowStep { FlowStep(title, false, false) }

  predicate IsSent(f: FlowStep) { !f.skipped && !f.deferred }
}
