/** All the keeper's jobs, tick after tick: the due ones run in order, each against its own vault's books. */
module JobFleet {
  import opened Wrappers
  import opened JobRuns
  import opened JobCoverage
  import U = Uncovered

  /** The books of every pair, and the pages our runs have walked of each. */
  datatype Fleet = Fleet(books: string -> Book, walked: string -> seq<Page>)

  function JobKey(j: U.Job): string { U.PairKey(U.Pair(j.vault, j.stock)) }

  /** One job's run, written to its pair. */
  function RanOne(f: Fleet, key: string, o: Outcome): Fleet {
    Fleet(k => if k == key then o.book else f.books(k), k => if k == key then f.walked(k) + o.pages else f.walked(k))
  }

  /** What runs of the due list: the jobs run in order, and whether the last of them threw, which ends the list. */
  datatype Runs = Runs(fleet: Fleet, ran: seq<nat>, threw: bool)

  /** What the chain answers the k-th due job page by page; nothing when the job's name could not even be read. */
  type Answers = nat -> Option<seq<Try>>

  function DueRuns(f: Fleet, due: seq<nat>, jobs: seq<U.Job>, answers: Answers, live: bool, limit: nat): Runs
    requires limit > 0
    decreases |due|
  {
    if due == [] then Runs(f, [], false)
    else
      var so := DueRuns(f, due[..|due| - 1], jobs, answers, live, limit);
      var i, tries := due[|due| - 1], answers(|due| - 1);
      if so.threw || i >= |jobs| then so
      else if tries.None? then so.(ran := so.ran + [i], threw := true)
      else
        var o := Pages(so.fleet.books(JobKey(jobs[i])), tries.value, live, limit);
        Runs(RanOne(so.fleet, JobKey(jobs[i]), o), so.ran + [i], o.stop == Threw)
  }

  /** One tick of the whole scheduler, after what others did to every pair since the last. */
  datatype FleetTick = FleetTick(moves: string -> seq<Move>, due: seq<nat>, jobs: seq<U.Job>, answers: Answers)

  function FleetMoved(f: Fleet, moves: string -> seq<Move>, limit: nat): Fleet
    requires limit > 0
  {
    Fleet(k => AllMoved(f.books(k), moves(k), limit).book,
          k => f.walked(k) + AllMoved(f.books(k), moves(k), limit).pages)
  }

  function FleetAfter(f: Fleet, ticks: seq<FleetTick>, live: bool, limit: nat): Fleet
    requires limit > 0
    decreases |ticks|
  {
    if ticks == [] then f
    else
      var so, t := FleetAfter(f, ticks[..|ticks| - 1], live, limit), ticks[|ticks| - 1];
      DueRuns(FleetMoved(so, t.moves, limit), t.due, t.jobs, t.answers, live, limit).fleet
  }

  // ---------------------------------------------------------------- whose books a tick touches

  /** Some entry of the due list other than the `k`-th is a job of this pair. */
  predicate NamedElsewhere(due: seq<nat>, jobs: seq<U.Job>, key: string, k: int) {
    exists j :: 0 <= j < |due| && j != k && due[j] < |jobs| && JobKey(jobs[due[j]]) == key
  }

  lemma NamedBefore(due: seq<nat>, jobs: seq<U.Job>, key: string, k: int)
    requires due != [] && !NamedElsewhere(due, jobs, key, k)
    ensures !NamedElsewhere(due[..|due| - 1], jobs, key, k)
  {
    assert forall j :: 0 <= j < |due| - 1 ==> due[..|due| - 1][j] == due[j];
  }

  /** A pair no due job is for keeps its books, and nothing of it is walked. */
  lemma {:induction false} OtherPairsStay(f: Fleet, due: seq<nat>, jobs: seq<U.Job>, answers: Answers, live: bool,
                                          limit: nat, key: string)
    requires limit > 0 && !NamedElsewhere(due, jobs, key, -1)
    ensures var g := DueRuns(f, due, jobs, answers, live, limit).fleet;
            g.books(key) == f.books(key) && g.walked(key) == f.walked(key)
    decreases |due|
  {
    if due != [] {
      NamedBefore(due, jobs, key, -1);
      OtherPairsStay(f, due[..|due| - 1], jobs, answers, live, limit, key);
    }
  }

  /**
   * And the pair one due job is for gets exactly that job's pages, on the answers the chain gave to it, whatever the
   * jobs before and after it do to their own.
   */
  lemma {:induction false} DuePairRunsItsPages(f: Fleet, due: seq<nat>, k: nat, jobs: seq<U.Job>, answers: Answers,
                                               live: bool, limit: nat)
    requires limit > 0 && !DueRuns(f, due, jobs, answers, live, limit).threw
    requires k < |due| && due[k] < |jobs| && !NamedElsewhere(due, jobs, JobKey(jobs[due[k]]), k)
    ensures answers(k).Some?
    ensures var key, g := JobKey(jobs[due[k]]), DueRuns(f, due, jobs, answers, live, limit).fleet;
            var o := Pages(f.books(key), answers(k).value, live, limit);
            g.books(key) == o.book && g.walked(key) == f.walked(key) + o.pages && o.stop != Threw
    decreases |due|
  {
    var key, init := JobKey(jobs[due[k]]), due[..|due| - 1];
    NamedBefore(due, jobs, key, k);
    if k < |due| - 1 {
      DuePairRunsItsPages(f, init, k, jobs, answers, live, limit);
    } else {
      assert !NamedElsewhere(init, jobs, key, -1) by {
        assert forall j :: 0 <= j < |init| ==> init[j] == due[j];
      }
      OtherPairsStay(f, init, jobs, answers, live, limit, key);
    }
  }

  // ---------------------------------------------------------------- every pair stays covered and counted

  ghost predicate FleetSound(f: Fleet) { forall k :: Sound(f.books(k)) }

  ghost predicate FleetCovered(f: Fleet) { forall k :: CoveredToTheCursor(f.walked(k), f.books(k)) }

  ghost predicate FleetCounted(f: Fleet, limit: nat)
    requires limit > 0
  {
    forall k :: Counted(f.walked(k), f.books(k), limit)
  }

  lemma RunKeepsFleet(f: Fleet, key: string, tries: seq<Try>, live: bool, limit: nat)
    requires limit > 0 && FleetSound(f) && FleetCovered(f)
    ensures var f' := RanOne(f, key, Pages(f.books(key), tries, live, limit)); FleetSound(f') && FleetCovered(f')
  {
    var o := Pages(f.books(key), tries, live, limit);
    var f' := RanOne(f, key, o);
    RunKeepsCovered(f.walked(key), f.books(key), tries, live, limit);
    forall k ensures Sound(f'.books(k)) && CoveredToTheCursor(f'.walked(k), f'.books(k)) {
      assert Sound(f.books(k)) && CoveredToTheCursor(f.walked(k), f.books(k));
    }
  }

  lemma RunKeepsFleetCounted(f: Fleet, key: string, tries: seq<Try>, live: bool, limit: nat)
    requires limit > 0 && FleetSound(f) && FleetCounted(f, limit) && FullWhenMined(tries, limit)
    ensures FleetCounted(RanOne(f, key, Pages(f.books(key), tries, live, limit)), limit)
  {
    var f' := RanOne(f, key, Pages(f.books(key), tries, live, limit));
    RunKeepsCounted(f.walked(key), f.books(key), tries, live, limit);
    forall k ensures Counted(f'.walked(k), f'.books(k), limit) {
      assert Counted(f.walked(k), f.books(k), limit);
    }
  }

  predicate FullAnswers(due: seq<nat>, answers: Answers, limit: nat) {
    forall k :: 0 <= k < |due| && answers(k).Some? ==> FullWhenMined(answers(k).value, limit)
  }

  /** Every page of the tick, late ones included, is as long as the limit and the list allow. */
  ghost predicate FullTick(t: FleetTick, limit: nat) {
    FullAnswers(t.due, t.answers, limit) && forall k :: FullMoves(t.moves(k), limit)
  }

  lemma {:induction false} DueRunsKeepFleet(f: Fleet, due: seq<nat>, jobs: seq<U.Job>, answers: Answers, live: bool,
                                            limit: nat)
    requires limit > 0 && FleetSound(f) && FleetCovered(f)
    ensures FleetSound(DueRuns(f, due, jobs, answers, live, limit).fleet)
    ensures FleetCovered(DueRuns(f, due, jobs, answers, live, limit).fleet)
    decreases |due|
  {
    if due != [] {
      var init, i := due[..|due| - 1], due[|due| - 1];
      DueRunsKeepFleet(f, init, jobs, answers, live, limit);
      var so := DueRuns(f, init, jobs, answers, live, limit);
      if !so.threw && i < |jobs| && answers(|due| - 1).Some? {
        RunKeepsFleet(so.fleet, JobKey(jobs[i]), answers(|due| - 1).value, live, limit);
      }
    }
  }

  lemma {:induction false} DueRunsKeepCounted(f: Fleet, due: seq<nat>, jobs: seq<U.Job>, answers: Answers, live: bool,
                                              limit: nat)
    requires limit > 0 && FleetSound(f) && FleetCovered(f) && FleetCounted(f, limit) && FullAnswers(due, answers, limit)
    ensures FleetCounted(DueRuns(f, due, jobs, answers, live, limit).fleet, limit)
    decreases |due|
  {
    if due != [] {
      var init, i := due[..|due| - 1], due[|due| - 1];
      DueRunsKeepFleet(f, init, jobs, answers, live, limit);
      DueRunsKeepCounted(f, init, jobs, answers, live, limit);
      var so := DueRuns(f, init, jobs, answers, live, limit);
      if !so.threw && i < |jobs| && answers(|due| - 1).Some? {
        RunKeepsFleetCounted(so.fleet, JobKey(jobs[i]), answers(|due| - 1).value, live, limit);
      }
    }
  }

  lemma MovesKeepFleet(f: Fleet, moves: string -> seq<Move>, limit: nat)
    requires limit > 0 && FleetSound(f) && FleetCovered(f)
    ensures FleetSound(FleetMoved(f, moves, limit)) && FleetCovered(FleetMoved(f, moves, limit))
  {
    var f' := FleetMoved(f, moves, limit);
    forall k ensures Sound(f'.books(k)) && CoveredToTheCursor(f'.walked(k), f'.books(k)) {
      MovesKeepSound(f.books(k), moves(k), limit);
      MovesKeepCovered(f.walked(k), f.books(k), moves(k), limit);
    }
  }

  lemma MovesKeepFleetCounted(f: Fleet, moves: string -> seq<Move>, limit: nat)
    requires limit > 0 && FleetSound(f) && FleetCounted(f, limit) && forall k :: FullMoves(moves(k), limit)
    ensures FleetCounted(FleetMoved(f, moves, limit), limit)
  {
    var f' := FleetMoved(f, moves, limit);
    forall k ensures Counted(f'.walked(k), f'.books(k), limit) {
      MovesKeepCounted(f.walked(k), f.books(k), moves(k), limit);
    }
  }

  lemma {:induction false} TicksKeepFleet(f: Fleet, ticks: seq<FleetTick>, live: bool, limit: nat)
    requires limit > 0 && FleetSound(f) && FleetCovered(f)
    ensures FleetSound(FleetAfter(f, ticks, live, limit)) && FleetCovered(FleetAfter(f, ticks, live, limit))
    decreases |ticks|
  {
    if ticks != [] {
      var so, t := FleetAfter(f, ticks[..|ticks| - 1], live, limit), ticks[|ticks| - 1];
      TicksKeepFleet(f, ticks[..|ticks| - 1], live, limit);
      MovesKeepFleet(so, t.moves, limit);
      DueRunsKeepFleet(FleetMoved(so, t.moves, limit), t.due, t.jobs, t.answers, live, limit);
    }
  }

  lemma {:induction false} TicksKeepFleetCounted(f: Fleet, ticks: seq<FleetTick>, live: bool, limit: nat)
    requires limit > 0 && FleetSound(f) && FleetCovered(f) && FleetCounted(f, limit)
    requires forall i :: 0 <= i < |ticks| ==> FullTick(ticks[i], limit)
    ensures FleetCounted(FleetAfter(f, ticks, live, limit), limit)
    decreases |ticks|
  {
    if ticks != [] {
      var so, t := FleetAfter(f, ticks[..|ticks| - 1], live, limit), ticks[|ticks| - 1];
      TicksKeepFleet(f, ticks[..|ticks| - 1], live, limit);
      TicksKeepFleetCounted(f, ticks[..|ticks| - 1], live, limit);
      MovesKeepFleet(so, t.moves, limit);
      MovesKeepFleetCounted(so, t.moves, limit);
      DueRunsKeepCounted(FleetMoved(so, t.moves, limit), t.due, t.jobs, t.answers, live, limit);
    }
  }

  /** No page of any pair has been run yet. */
  ghost predicate FreshFleet(f: Fleet) {
    forall k :: Sound(f.books(k)) && f.books(k).cursors == map[] && f.walked(k) == []
  }

  lemma FreshIsCoveredAndCounted(f: Fleet, limit: nat)
    requires limit > 0 && FreshFleet(f)
    ensures FleetSound(f) && FleetCovered(f) && FleetCounted(f, limit)
  {
    CeilDivOfNothing(limit);
    forall k
      ensures Sound(f.books(k)) && CoveredToTheCursor(f.walked(k), f.books(k)) &&
              Counted(f.walked(k), f.books(k), limit)
    {
      assert Sound(f.books(k)) && f.books(k).cursors == map[] && f.walked(k) == [];
    }
  }

  /**
   * Over every run of the whole scheduler, whatever jobs are listed and due, whatever fails, throws or happens in
   * between: for each pair and epoch every plan index below the cursor was walked exactly once, and no other.
   */
  lemma EveryPairWalksEachPlanOnce(f: Fleet, ticks: seq<FleetTick>, live: bool, limit: nat, key: string, e: nat, i: nat)
    requires limit > 0 && FreshFleet(f)
    ensures var g := FleetAfter(f, ticks, live, limit);
            Visits(g.walked(key), e, i) == if i < CursorOf(g.books(key), e) then 1 else 0
  {
    FreshIsCoveredAndCounted(f, limit);
    TicksKeepFleet(f, ticks, live, limit);
    var g := FleetAfter(f, ticks, live, limit);
    assert CoveredToTheCursor(g.walked(key), g.books(key));
    assert Covered(g.walked(key), e, CursorOf(g.books(key), e));
    CoveredVisitsOnce(g.walked(key), e, CursorOf(g.books(key), e), i);
  }

  /** And with full pages each epoch of each pair took exactly ceil(cursor / limit) runs. */
  lemma EveryEpochTakesCeilRuns(f: Fleet, ticks: seq<FleetTick>, live: bool, limit: nat, key: string, e: nat)
    requires limit > 0 && FreshFleet(f)
    requires forall i :: 0 <= i < |ticks| ==> FullTick(ticks[i], limit)
    ensures var g := FleetAfter(f, ticks, live, limit);
            PagesOf(g.walked(key), e) == CeilDiv(CursorOf(g.books(key), e), limit)
  {
    FreshIsCoveredAndCounted(f, limit);
    TicksKeepFleetCounted(f, ticks, live, limit);
    var g := FleetAfter(f, ticks, live, limit);
    assert Counted(g.walked(key), g.books(key), limit);
  }
}
