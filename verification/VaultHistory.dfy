/**
 * What the index logs of a vault's history are, and that the app reads the truth off them: any window of the history's
 * logs, arriving in any order, tells of a plan its true indexed flag or nothing.
 */
module VaultHistory {
  import opened Wrappers
  import opened PlanIndex
  import PlanVault
  import TxTypes

  /** A plan as the vault holds it. */
  datatype Plan = Plan(indexed: bool, usdg: nat, stock: nat, shares: nat)

  type Plans = map<string, Plan>

  /**
   * What can happen to one plan. `Move` is everything that changes balances without touching the index (buys,
   * withdrawals, claims, boosting); `pending` says whether a buy page is open for the stock.
   */
  datatype Action =
    | Create(net: nat)
    | Fund(net: nat)
    | Move(usdg: nat, stock: nat, shares: nat)
    | Prune(pending: bool)
    | Close(pending: bool)

  datatype Emission = Emission(event: EventName, active: bool, unindexed: bool)

  const INDEXED: Emission := Emission(PlanIndexed, true, false)
  const UNINDEXED: Emission := Emission(PlanIndexed, false, false)
  const FUNDED: Emission := Emission(Deposited, false, false)

  predicate Holds(p: Plan) { p.usdg > 0 || p.stock > 0 || p.shares > 0 }

  /**
   * One action on a plan the vault knows or not: what becomes of it, and the index logs, in the order they are emitted.
   */
  function Act(p: Option<Plan>, a: Action): (Option<Plan>, seq<Emission>) {
    match (p, a)
    case (None, Create(net)) => (Some(Plan(true, net, 0, 0)), [FUNDED, INDEXED])
    case (None, _) => (None, [])
    case (Some(_), Create(_)) => (p, [])
    case (Some(q), Fund(net)) =>
      (Some(q.(indexed := true, usdg := q.usdg + net)), if q.indexed then [FUNDED] else [FUNDED, INDEXED])
    case (Some(q), Move(usdg, stock, shares)) =>
      // Only indexed plans are bought for, and an unindexed one is empty: it has nothing to move.
      (if q.indexed then Some(Plan(true, usdg, stock, shares)) else p, [])
    case (Some(q), Prune(pending)) =>
      if Holds(q) || pending then (p, []) else (Some(q.(indexed := false)), if q.indexed then [UNINDEXED] else [])
    case (Some(q), Close(pending)) =>
      if pending && q.indexed then (Some(Plan(true, 0, 0, 0)), [Emission(PlanClosed, false, false)])
      else (Some(Plan(false, 0, 0, 0)), (if q.indexed then [UNINDEXED] else []) + [Emission(PlanClosed, false, true)])
  }

  /** One transaction of the history: which plan, what, and where its first index log sits. */
  datatype Tx = Tx(key: string, action: Action, block: nat, firstLog: nat)

  function Find(ps: Plans, key: string): Option<Plan> { if key in ps then Some(ps[key]) else None }

  function Put(ps: Plans, key: string, p: Option<Plan>): Plans { if p.Some? then ps[key := p.value] else ps }

  function PlansAfter(h: seq<Tx>): Plans {
    if h == [] then map[]
    else
      var ps, t := PlansAfter(h[..|h| - 1]), h[|h| - 1];
      Put(ps, t.key, Act(Find(ps, t.key), t.action).0)
  }

  function Placed(t: Tx, es: seq<Emission>): seq<IndexLog> {
    seq(|es|, i requires 0 <= i < |es| =>
                IndexLog(t.key, t.block, t.firstLog + i, es[i].event, es[i].active, es[i].unindexed))
  }

  function LogsOf(h: seq<Tx>): seq<IndexLog> {
    if h == [] then []
    else
      var ps, t := PlansAfter(h[..|h| - 1]), h[|h| - 1];
      LogsOf(h[..|h| - 1]) + Placed(t, Act(Find(ps, t.key), t.action).1)
  }

  predicate IsIndexed(ps: Plans, key: string) { key in ps && ps[key].indexed }

  // ---------------------------------------------------------------- what an action is

  predicate Indexed(p: Option<Plan>) { p.Some? && p.value.indexed }

  /** What an action leaves of a plan: who is known, who is in the index, and what is held. */
  lemma ActMoves(p: Option<Plan>, a: Action)
    ensures var q := Act(p, a).0;
            && (q.Some? <==> p.Some? || a.Create?)
            && (p.None? && a.Create? ==> q == Some(Plan(true, a.net, 0, 0)))
            && (p.Some? && a.Create? ==> q == p)
            && (p.Some? && a.Fund? ==>
                  q.value.indexed && q.value == p.value.(indexed := true, usdg := q.value.usdg) &&
                  q.value.usdg - p.value.usdg == a.net)
            && (p.Some? && a.Move? ==>
                  q == if p.value.indexed then Some(Plan(true, a.usdg, a.stock, a.shares)) else p)
            && (p.Some? && a.Prune? ==>
                  q.value == p.value.(indexed := p.value.indexed && (Holds(p.value) || a.pending)))
            && (p.Some? && a.Close? ==> !Holds(q.value) && q.value.indexed == (p.value.indexed && a.pending))
  {
  }

  /** The logs of an action: a deposit's first, then the index's if the plan entered or left it, then a close's own. */
  lemma ActTells(p: Option<Plan>, a: Action)
    ensures var (q, es) := Act(p, a);
            es == (if (p.None? && a.Create?) || (p.Some? && a.Fund?) then [Emission(Deposited, false, false)] else [])
                  + (if Indexed(q) && !Indexed(p) then [Emission(PlanIndexed, true, false)]
                     else if Indexed(p) && !Indexed(q) then [Emission(PlanIndexed, false, false)] else [])
                  + (if p.Some? && a.Close? then [Emission(PlanClosed, false, !q.value.indexed)] else [])
  {
  }

  /** A plan of the vault's withdrawal rules, as its index sees it. */
  function Seen(h: PlanVault.Held): Plan {
    Plan(h.indexed, h.plan.usdgIdle, h.plan.stockAccrued, h.plan.boostShares)
  }

  /** A prune and a close are here what they are there; a call that reverts is no action. */
  lemma SameVault(h: PlanVault.Held, planId: nat, pending: bool)
    ensures var out := PlanVault.Apply(h, TxTypes.PrunePlan(planId), pending);
            Act(Some(Seen(h)), Prune(pending)).0 == Some(Seen(if out.Done? then out.held else h))
    ensures var out := PlanVault.Apply(h, TxTypes.ClosePlan(planId), pending);
            out.Done? ==> Act(Some(Seen(h)), Close(pending)).0 == Some(Seen(out.held))
  {
  }

  // ---------------------------------------------------------------- the vault's own invariant

  /** Out of the index means empty. */
  lemma {:induction false} UnindexedIsEmpty(h: seq<Tx>, key: string)
    requires key in PlansAfter(h) && !PlansAfter(h)[key].indexed
    ensures !Holds(PlansAfter(h)[key])
    decreases |h|
  {
    if h != [] {
      var init, t := h[..|h| - 1], h[|h| - 1];
      var ps := PlansAfter(init);
      if key in ps && !ps[key].indexed {
        UnindexedIsEmpty(init, key);
      }
    }
  }

  // ---------------------------------------------------------------- any suffix tells the truth

  /** Of one action's logs, from any of them on: the last that speaks says the flag the action leaves. */
  lemma EmissionsTellTheFlag(p: Option<Plan>, a: Action, t: Tx, j: nat)
    requires j <= |Act(p, a).1|
    ensures var (q, es) := Act(p, a);
            var word := LastWord(Placed(t, es)[j..], t.key);
            word == None || word == Some(q.Some? && q.value.indexed)
    ensures var (q, es) := Act(p, a);
            LastWord(Placed(t, es), t.key) == None ==> (q.Some? && q.value.indexed) == (p.Some? && p.value.indexed)
  {
    var logs := Placed(t, Act(p, a).1);
    assert |logs| <= 2;
    LastWordOfShort(logs, t.key);
    LastWordOfShort(logs[j..], t.key);
  }

  lemma LastWordOfShort(s: seq<IndexLog>, key: string)
    requires |s| <= 2
    ensures LastWord(s, key) ==
              if |s| > 0 && s[|s| - 1].key == key && Speaks(s[|s| - 1]) then Some(Says(s[|s| - 1]))
              else if |s| > 1 && s[0].key == key && Speaks(s[0]) then Some(Says(s[0]))
              else None
  {
    if |s| == 2 {
      assert s[..1] == [s[0]];
      assert [s[0]][..0] == [];
    } else if |s| == 1 {
      assert s[..0] == [];
    }
  }

  lemma {:induction false} OtherKeysAreSilent(s: seq<IndexLog>, key: string)
    requires forall i :: 0 <= i < |s| ==> s[i].key != key
    ensures LastWord(s, key) == None
    decreases |s|
  {
    if s != [] {
      OtherKeysAreSilent(s[..|s| - 1], key);
    }
  }

  lemma {:induction false} SuffixTellsTheTruth(h: seq<Tx>, k: nat, key: string)
    requires k <= |LogsOf(h)|
    ensures LastWord(LogsOf(h)[k..], key) in {None, Some(IsIndexed(PlansAfter(h), key))}
    decreases |h|
  {
    if h != [] {
      var init, t := h[..|h| - 1], h[|h| - 1];
      var ps := PlansAfter(init);
      var act := Act(Find(ps, t.key), t.action);
      var before, now := LogsOf(init), Placed(t, act.1);
      if k <= |before| {
        assert LogsOf(h)[k..] == before[k..] + now;
        LastWordConcat(before[k..], now, key);
        SuffixTellsTheTruth(init, k, key);
        TellsAfterOne(ps, t, key, 0);
      } else {
        assert LogsOf(h)[k..] == now[k - |before|..];
        TellsAfterOne(ps, t, key, k - |before|);
      }
    }
  }

  /** One transaction's logs, for its own plan and for any other. */
  lemma TellsAfterOne(ps: Plans, t: Tx, key: string, j: nat)
    requires j <= |Act(Find(ps, t.key), t.action).1|
    ensures var act := Act(Find(ps, t.key), t.action);
            var ps' := Put(ps, t.key, act.0);
            LastWord(Placed(t, act.1)[j..], key) in {None, Some(IsIndexed(ps', key))} &&
            (LastWord(Placed(t, act.1), key) == None ==> IsIndexed(ps', key) == IsIndexed(ps, key)) &&
            (j == 0 ==> Placed(t, act.1)[j..] == Placed(t, act.1))
  {
    var act := Act(Find(ps, t.key), t.action);
    if key == t.key {
      EmissionsTellTheFlag(Find(ps, t.key), t.action, t, j);
    } else {
      OtherKeysAreSilent(Placed(t, act.1), key);
      OtherKeysAreSilent(Placed(t, act.1)[j..], key);
    }
  }

  // ---------------------------------------------------------------- where the logs sit

  /** `t` is mined before `u`; a transaction writes at most two index logs. */
  predicate MinedBefore(t: Tx, u: Tx) { t.block < u.block || (t.block == u.block && t.firstLog + 2 <= u.firstLog) }

  predicate MinedInOrder(h: seq<Tx>) { forall i, j :: 0 <= i < j < |h| ==> MinedBefore(h[i], h[j]) }

  predicate WrittenBy(l: IndexLog, t: Tx) {
    l.key == t.key && l.blockNumber == t.block && t.firstLog <= l.logIndex < t.firstLog + 2
  }

  lemma {:induction false} EachLogIsWritten(h: seq<Tx>, l: IndexLog) returns (i: nat)
    requires l in LogsOf(h)
    ensures i < |h| && WrittenBy(l, h[i])
    decreases |h|
  {
    var init, t := h[..|h| - 1], h[|h| - 1];
    if l in LogsOf(init) {
      i := EachLogIsWritten(init, l);
    } else {
      i := |h| - 1;
    }
  }

  /** The logs of transactions mined in order are in chain order, each at a place of its own. */
  lemma {:induction false} LogsAreInChainOrder(h: seq<Tx>)
    requires MinedInOrder(h)
    ensures StrictlySorted(LogsOf(h))
    decreases |h|
  {
    if h != [] {
      var init, t := h[..|h| - 1], h[|h| - 1];
      var before := LogsOf(init);
      var now := Placed(t, Act(Find(PlansAfter(init), t.key), t.action).1);
      LogsAreInChainOrder(init);
      forall i, j | 0 <= i < |before| && 0 <= j < |now| ensures Ahead(before[i], now[j]) {
        var k := EachLogIsWritten(init, before[i]);
        assert MinedBefore(h[k], t);
      }
      assert forall i, j :: 0 <= i < j < |now| ==> Ahead(now[i], now[j]);
      assert LogsOf(h) == before + now;
    }
  }

  // ---------------------------------------------------------------- the scanned window

  /** The logs a scan from `fromBlock` on sees. */
  function Window(s: seq<IndexLog>, fromBlock: nat): seq<IndexLog> {
    if s == [] then []
    else if s[0].blockNumber >= fromBlock then [s[0]] + Window(s[1..], fromBlock)
    else Window(s[1..], fromBlock)
  }

  lemma {:induction false} AllInWindow(s: seq<IndexLog>, fromBlock: nat)
    requires forall i :: 0 <= i < |s| ==> s[i].blockNumber >= fromBlock
    ensures Window(s, fromBlock) == s
    decreases |s|
  {
    if s != [] {
      AllInWindow(s[1..], fromBlock);
    }
  }

  /** In chain order a window is a suffix. */
  lemma {:induction false} WindowIsASuffix(s: seq<IndexLog>, fromBlock: nat) returns (k: nat)
    requires StrictlySorted(s)
    ensures k <= |s| && Window(s, fromBlock) == s[k..]
    decreases |s|
  {
    if s == [] {
      k := 0;
    } else if s[0].blockNumber >= fromBlock {
      forall i | 0 <= i < |s| ensures s[i].blockNumber >= fromBlock {
        assert i > 0 ==> Ahead(s[0], s[i]);
      }
      AllInWindow(s, fromBlock);
      k := 0;
    } else {
      var k' := WindowIsASuffix(s[1..], fromBlock);
      k := k' + 1;
      assert s[1..][k'..] == s[k..];
    }
  }

  /**
   * For every history, every window of it and every order its logs arrive in (the three log queries are concatenated):
   * the liveness of a key is the vault's true flag, or nothing.
   */
  lemma LivenessTellsTheTruth(h: seq<Tx>, fromBlock: nat, arrived: seq<IndexLog>, key: string)
    requires StrictlySorted(LogsOf(h)) && multiset(arrived) == multiset(Window(LogsOf(h), fromBlock))
    ensures Get(Fold(Sorted(arrived)), key) in {None, Some(IsIndexed(PlansAfter(h), key))}
  {
    var logs := LogsOf(h);
    var k := WindowIsASuffix(logs, fromBlock);
    var window := logs[k..];
    SortedPermutes(arrived);
    ArrivedIsDistinct(arrived, window);
    SortedSorts(arrived);
    StrictOrderIsUnique(Sorted(arrived), window);
    FoldIsLastWord(window, key);
    SuffixTellsTheTruth(h, k, key);
  }

  /** A plan is known to the vault exactly when some log of the history speaks of it. */
  lemma {:induction false} KnownAreSpokenOf(h: seq<Tx>, key: string)
    ensures LastWord(LogsOf(h), key).Some? <==> key in PlansAfter(h)
    decreases |h|
  {
    if h != [] {
      var init, t := h[..|h| - 1], h[|h| - 1];
      var act := Act(Find(PlansAfter(init), t.key), t.action);
      var now := Placed(t, act.1);
      KnownAreSpokenOf(init, key);
      LastWordConcat(LogsOf(init), now, key);
      KnownAfterOne(PlansAfter(init), t, key);
    }
  }

  lemma KnownAfterOne(ps: Plans, t: Tx, key: string)
    ensures var act := Act(Find(ps, t.key), t.action);
            key in Put(ps, t.key, act.0) <==> key in ps || LastWord(Placed(t, act.1), key).Some?
  {
    var now := Placed(t, Act(Find(ps, t.key), t.action).1);
    if key == t.key {
      LastWordOfShort(now, key);
    } else {
      OtherKeysAreSilent(now, key);
    }
  }

  /** A scan from the first block on tells the flag of every plan there is, and of nothing else. */
  lemma FullScanIsExact(h: seq<Tx>, arrived: seq<IndexLog>, key: string)
    requires MinedInOrder(h) && multiset(arrived) == multiset(LogsOf(h))
    ensures Get(Fold(Sorted(arrived)), key)
            == if key in PlansAfter(h) then Some(PlansAfter(h)[key].indexed) else None
  {
    var logs := LogsOf(h);
    LogsAreInChainOrder(h);
    ArrivedIsDistinct(arrived, logs);
    SortedPermutes(arrived);
    SortedSorts(arrived);
    StrictOrderIsUnique(Sorted(arrived), logs);
    FoldIsLastWord(logs, key);
    KnownAreSpokenOf(h, key);
    SuffixTellsTheTruth(h, 0, key);
    assert logs[0..] == logs;
  }

  lemma TakingOneOut(s: seq<IndexLog>, i: nat)
    requires i < |s|
    ensures multiset(s[..i] + s[i + 1..]) == multiset(s) - multiset{s[i]}
  {
    assert s == s[..i] + ([s[i]] + s[i + 1..]);
    assert multiset(s) == multiset(s[..i]) + (multiset{s[i]} + multiset(s[i + 1..]));
  }

  lemma RestIsApart(s: seq<IndexLog>, i: nat)
    requires StrictlySorted(s) && i < |s|
    ensures var rest := s[..i] + s[i + 1..];
            StrictlySorted(rest) && forall l :: l in rest ==> Ahead(s[i], l) || Ahead(l, s[i])
  {
    var rest := s[..i] + s[i + 1..];
    assert forall m :: 0 <= m < |rest| ==> rest[m] == s[if m < i then m else m + 1];
  }

  /** A rearrangement of logs with distinct positions has distinct positions. */
  lemma {:induction false} ArrivedIsDistinct(arrived: seq<IndexLog>, window: seq<IndexLog>)
    requires StrictlySorted(window) && multiset(arrived) == multiset(window)
    ensures DistinctPositions(arrived)
    decreases |arrived|
  {
    if arrived != [] {
      var l, tail := arrived[0], arrived[1..];
      assert l in multiset(arrived);
      var i :| 0 <= i < |window| && window[i] == l;
      var rest := window[..i] + window[i + 1..];
      TakingOneOut(window, i);
      RestIsApart(window, i);
      assert arrived == [l] + tail;
      assert multiset(tail) == multiset(arrived) - multiset{l};
      ArrivedIsDistinct(tail, rest);
      SameMembers(tail, rest);
      ConsDistinct(l, tail);
    }
  }

  lemma ConsDistinct(l: IndexLog, s: seq<IndexLog>)
    requires DistinctPositions(s) && forall m :: m in s ==> Ahead(l, m) || Ahead(m, l)
    ensures DistinctPositions([l] + s)
  {
  }

  // ---------------------------------------------------------------- what a hidden row means

  /**
   * The row the positions read shows for a plan: boosted value is zero without shares, and may floor to zero with them.
   */
  predicate Shows(p: Position, key: string, plan: Plan) {
    && p.key == key && p.usdgIdle == plan.usdg && p.stockAccrued == plan.stock
    && (plan.shares == 0 ==> p.boostValue == 0)
  }

  /**
   * A plan hidden through the index is out of the vault's index and holds nothing: no USDG, no stock, not even boost
   * shares worth nothing. So a plan with value, and a parked plan, stay listed.
   */
  lemma HiddenMeansGone(h: seq<Tx>, fromBlock: nat, arrived: seq<IndexLog>, p: Position)
    requires StrictlySorted(LogsOf(h)) && multiset(arrived) == multiset(Window(LogsOf(h), fromBlock))
    requires p.key in PlansAfter(h) && Shows(p, p.key, PlansAfter(h)[p.key])
    ensures var plan := PlansAfter(h)[p.key];
            var hiddenByIndex := IsHiddenPlan(p, IndexOf(Some(Fold(Sorted(arrived))), p.key), false);
            (hiddenByIndex ==> !plan.indexed && !Holds(plan)) &&
            (plan.indexed ==> !hiddenByIndex)
  {
    LivenessTellsTheTruth(h, fromBlock, arrived, p.key);
    if !PlansAfter(h)[p.key].indexed {
      UnindexedIsEmpty(h, p.key);
    }
  }

  /**
   * Within the window the flag is found: a plan whose last index-changing log was scanned is hidden once it is gone.
   */
  lemma GoneIsHidden(h: seq<Tx>, fromBlock: nat, arrived: seq<IndexLog>, p: Position)
    requires StrictlySorted(LogsOf(h)) && multiset(arrived) == multiset(Window(LogsOf(h), fromBlock))
    requires p.key in PlansAfter(h) && !PlansAfter(h)[p.key].indexed && Shows(p, p.key, PlansAfter(h)[p.key])
    requires Get(Fold(Sorted(arrived)), p.key).Some?
    ensures IsHiddenPlan(p, IndexOf(Some(Fold(Sorted(arrived))), p.key), false)
  {
    LivenessTellsTheTruth(h, fromBlock, arrived, p.key);
    UnindexedIsEmpty(h, p.key);
  }
}
