/** The scheduler object: its caches, its clock, its sleep and its uncovered-plan report, updated in place. */
module Scheduler {
  import opened Wrappers
  import opened Text
  import opened Epochs
  import opened JobRuns
  import opened JobFleet
  import U = Uncovered
  import UncoveredReads

  /** `live` is a wallet and no dry run; `pageLimit` the limit that takes effect, the vault's own when none is set. */
  datatype Config = Config(pollIntervalMs: nat, boundaryGraceMs: nat, uncoveredCheckMs: nat, live: bool, pageLimit: nat,
                           keeper: string)

  type Job = U.Job

  // ---------------------------------------------------------------- what the caches say about a job list

  predicate Known(vaults: map<string, VaultMeta>, j: Job) { j.active && Lower(j.vault) in vaults }

  ghost predicate AllProper(vaults: map<string, VaultMeta>) { forall key :: key in vaults ==> Proper(vaults[key]) }

  predicate AllCached(vaults: map<string, VaultMeta>, jobs: seq<Job>) {
    forall j :: j in jobs && j.active ==> Lower(j.vault) in vaults
  }

  /** Some active job's vault has a boundary after the last block and no later than now. */
  ghost predicate BoundaryMissed(vaults: map<string, VaultMeta>, jobs: seq<Job>, blockTs: int, now: int) {
    exists j :: j in jobs && Known(vaults, j) && BoundaryWithin(vaults[Lower(j.vault)], blockTs, now)
  }

  /** The first boundary ahead of any active job's vault; nothing when no active vault is known. */
  ghost predicate IsSoonest(vaults: map<string, VaultMeta>, jobs: seq<Job>, now: int, s: Option<int>)
    requires AllProper(vaults)
  {
    && (s.None? ==> forall j :: j in jobs ==> !Known(vaults, j))
    && (s.Some? ==> exists j :: j in jobs && Known(vaults, j) && NextBoundary(vaults[Lower(j.vault)], now) == s.value)
    && (forall j :: j in jobs && Known(vaults, j) ==> s.Some? && s.value <= NextBoundary(vaults[Lower(j.vault)], now))
  }

  /** A sleep no active vault's next buy has to wait for: it ends by that vault's boundary plus the grace. */
  ghost predicate NeverOvershoots(vaults: map<string, VaultMeta>, jobs: seq<Job>, now: int, delay: int, cfg: Config)
    requires AllProper(vaults)
  {
    forall j :: j in jobs && Known(vaults, j) ==>
                  delay <= (NextBoundary(vaults[Lower(j.vault)], now) - now) * 1000 + cfg.boundaryGraceMs
  }

  /**
   * The sleep ends at the soonest boundary plus the grace, but no later than the polling interval, and that boundary is
   * the one announced; with no vault known it is the interval.
   */
  ghost predicate SleepsUntilSoonest(vaults: map<string, VaultMeta>, jobs: seq<Job>, now: int, delay: int, cfg: Config,
                                     was: Option<int>, announced: Option<int>)
    requires AllProper(vaults)
  {
    exists s :: IsSoonest(vaults, jobs, now, s) &&
                if s.None? then delay == cfg.pollIntervalMs && announced == was
                else
                  && delay <= cfg.pollIntervalMs && delay <= (s.value - now) * 1000 + cfg.boundaryGraceMs
                  && (delay == cfg.pollIntervalMs || delay == (s.value - now) * 1000 + cfg.boundaryGraceMs)
                  && announced == s
  }

  lemma SoonestNeverOvershoots(vaults: map<string, VaultMeta>, jobs: seq<Job>, now: int, s: int, cfg: Config)
    requires AllProper(vaults) && IsSoonest(vaults, jobs, now, Some(s))
    ensures now < s
    ensures NeverOvershoots(vaults, jobs, now, DelayUntil(s, now, cfg.pollIntervalMs, cfg.boundaryGraceMs), cfg)
  {
    var j :| j in jobs && Known(vaults, j) && NextBoundary(vaults[Lower(j.vault)], now) == s;
    NextBoundaryIsLeast(vaults[Lower(j.vault)], now);
  }

  /** A job switched off wakes nothing and is slept for by nothing. */
  lemma InactiveJobsDoNotCount(vaults: map<string, VaultMeta>, jobs: seq<Job>, blockTs: int, now: int)
    requires AllProper(vaults) && forall j :: j in jobs ==> !j.active
    ensures !BoundaryMissed(vaults, jobs, blockTs, now) && IsSoonest(vaults, jobs, now, None) && AllCached(vaults, jobs)
  {
  }

  lemma SoonestOfMore(vaults: map<string, VaultMeta>, done: seq<Job>, j: Job, now: int, s: Option<int>)
    requires AllProper(vaults) && IsSoonest(vaults, done, now, s) && Known(vaults, j)
    ensures var nb := NextBoundary(vaults[Lower(j.vault)], now);
            IsSoonest(vaults, done + [j], now, if s.None? || nb < s.value then Some(nb) else s)
  {
    var nb := NextBoundary(vaults[Lower(j.vault)], now);
    assert j in done + [j];
    if s.Some? {
      var k :| k in done && Known(vaults, k) && NextBoundary(vaults[Lower(k.vault)], now) == s.value;
      assert k in done + [j];
    }
  }

  /** Every vault visited and known is one of an active job done. */
  ghost predicate VisitedCount(vaults: map<string, VaultMeta>, done: seq<Job>, visited: set<string>) {
    forall v :: v in visited && v in vaults ==> exists k :: k in done && Known(vaults, k) && Lower(k.vault) == v
  }

  lemma VisitedStay(vaults: map<string, VaultMeta>, done: seq<Job>, visited: set<string>, j: Job)
    requires VisitedCount(vaults, done, visited)
    ensures VisitedCount(vaults, done + [j], visited)
  {
    forall v | v in visited && v in vaults
      ensures exists k :: k in done + [j] && Known(vaults, k) && Lower(k.vault) == v
    {
      var k :| k in done && Known(vaults, k) && Lower(k.vault) == v;
      assert k in done + [j];
    }
  }

  lemma VisitedOneMore(vaults: map<string, VaultMeta>, done: seq<Job>, visited: set<string>, j: Job)
    requires VisitedCount(vaults, done, visited) && j.active
    ensures VisitedCount(vaults, done + [j], visited + {Lower(j.vault)})
  {
    VisitedStay(vaults, done, visited, j);
    assert j in done + [j];
  }

  lemma SoonestOfSame(vaults: map<string, VaultMeta>, done: seq<Job>, j: Job, now: int, s: Option<int>)
    requires AllProper(vaults) && IsSoonest(vaults, done, now, s)
    requires Known(vaults, j) ==> exists k :: k in done && Known(vaults, k) && Lower(k.vault) == Lower(j.vault)
    ensures IsSoonest(vaults, done + [j], now, s)
  {
    if s.Some? {
      var k :| k in done && Known(vaults, k) && NextBoundary(vaults[Lower(k.vault)], now) == s.value;
      assert k in done + [j];
    }
  }

  /** The due indices that name a job, in the keeper's order. */
  function Runnable(due: seq<nat>, jobs: nat): seq<nat> {
    if due == [] then []
    else
      var i := due[|due| - 1];
      Runnable(due[..|due| - 1], jobs) + (if i < jobs then [i] else [])
  }

  /** Which ones those are: each entry of the list on its own, in the list's order. */
  lemma {:induction false} RunnableOfEach(a: seq<nat>, b: seq<nat>, i: nat, jobs: nat)
    ensures Runnable([], jobs) == [] && Runnable([i], jobs) == if i < jobs then [i] else []
    ensures Runnable(a + b, jobs) == Runnable(a, jobs) + Runnable(b, jobs)
    decreases |b|
  {
    assert [i][..0] == [];
    if b == [] {
      assert a + b == a;
    } else {
      assert (a + b)[..|a + b| - 1] == a + b[..|b| - 1];
      RunnableOfEach(a, b[..|b| - 1], i, jobs);
      var last := if b[|b| - 1] < jobs then [b[|b| - 1]] else [];
      assert Runnable(a, jobs) + (Runnable(b[..|b| - 1], jobs) + last)
          == Runnable(a, jobs) + Runnable(b[..|b| - 1], jobs) + last;
    }
  }

  /** Unless a run throws, every due job that exists is run, once for each time it is listed, in the keeper's order. */
  lemma {:induction false} DueJobsAllRun(f: Fleet, due: seq<nat>, jobs: seq<Job>, answers: Answers, live: bool,
                                         limit: nat)
    requires limit > 0 && !DueRuns(f, due, jobs, answers, live, limit).threw
    ensures DueRuns(f, due, jobs, answers, live, limit).ran == Runnable(due, |jobs|)
    decreases |due|
  {
    if due != [] {
      DueJobsAllRun(f, due[..|due| - 1], jobs, answers, live, limit);
    }
  }

  /** The `k`-th due job is the one whose run throws: its name cannot be read, or a page of it throws. */
  ghost predicate ThrowsAt(f: Fleet, due: seq<nat>, k: nat, jobs: seq<Job>, answers: Answers, live: bool, limit: nat)
    requires limit > 0
  {
    && k < |due| && due[k] < |jobs| && !DueRuns(f, due[..k], jobs, answers, live, limit).threw
    && (answers(k).Some? ==>
          Pages(DueRuns(f, due[..k], jobs, answers, live, limit).fleet.books(JobKey(jobs[due[k]])), answers(k).value,
                live, limit).stop == Threw)
  }

  lemma ThrowsAtLast(f: Fleet, due: seq<nat>, jobs: seq<Job>, answers: Answers, live: bool, limit: nat)
    requires limit > 0 && due != [] && !DueRuns(f, due[..|due| - 1], jobs, answers, live, limit).threw
    ensures DueRuns(f, due, jobs, answers, live, limit).threw <==>
              ThrowsAt(f, due, |due| - 1, jobs, answers, live, limit)
    ensures DueRuns(f, due, jobs, answers, live, limit).threw ==>
              DueRuns(f, due, jobs, answers, live, limit).ran
              == DueRuns(f, due[..|due| - 1], jobs, answers, live, limit).ran + [due[|due| - 1]]
  {
  }

  /** A tick's runs throw exactly when some due job's does, and that job is the last one run. */
  lemma {:induction false} RunsThrowExactly(f: Fleet, due: seq<nat>, jobs: seq<Job>, answers: Answers, live: bool,
                                            limit: nat)
    requires limit > 0
    ensures var runs := DueRuns(f, due, jobs, answers, live, limit);
            && (runs.threw <==> exists k :: ThrowsAt(f, due, k, jobs, answers, live, limit))
            && (runs.threw ==> exists k :: ThrowsAt(f, due, k, jobs, answers, live, limit) &&
                                           runs.ran == Runnable(due[..k + 1], |jobs|))
    decreases |due|
  {
    if due != [] {
      var n, init := |due| - 1, due[..|due| - 1];
      RunsThrowExactly(f, init, jobs, answers, live, limit);
      forall k: nat | k < n
        ensures ThrowsAt(f, due, k, jobs, answers, live, limit) <==> ThrowsAt(f, init, k, jobs, answers, live, limit)
      {
        assert init[..k] == due[..k];
      }
      if DueRuns(f, init, jobs, answers, live, limit).threw {
        var k :| ThrowsAt(f, init, k, jobs, answers, live, limit) &&
                 DueRuns(f, init, jobs, answers, live, limit).ran == Runnable(init[..k + 1], |jobs|);
        assert init[..k + 1] == due[..k + 1] && ThrowsAt(f, due, k, jobs, answers, live, limit);
        assert due[..|due|] == due;
        ThrownRunsStop(f, due, n, jobs, answers, live, limit);
      } else {
        ThrowsAtLast(f, due, jobs, answers, live, limit);
        DueJobsAllRun(f, init, jobs, answers, live, limit);
        assert due[..n + 1] == due;
      }
    }
  }

  lemma {:induction false} ThrownRunsStop(f: Fleet, due: seq<nat>, k: nat, jobs: seq<Job>, answers: Answers, live: bool,
                                          limit: nat)
    requires limit > 0 && k <= |due| && DueRuns(f, due[..k], jobs, answers, live, limit).threw
    ensures DueRuns(f, due, jobs, answers, live, limit) == DueRuns(f, due[..k], jobs, answers, live, limit)
    decreases |due|
  {
    if k < |due| {
      assert due[..|due| - 1][..k] == due[..k];
      ThrownRunsStop(f, due[..|due| - 1], k, jobs, answers, live, limit);
    } else {
      assert due[..k] == due;
    }
  }

  /** What one tick reads and when, on the wall clock; `nudged` is the state read after a mined self-transfer. */
  datatype TickReads = TickReads(jobs: seq<Job>, due: seq<nat>, blockTs: int, metaOf: string -> Option<VaultMeta>,
                                 nudged: Option<(seq<nat>, int)>, answers: Answers, chain: U.ChainView,
                                 seenMs: int, checkMs: int, nudgedMs: int, uncoveredMs: int, sleepMs: int)

  /** A block at `ts`: one not seen before is first seen now, one already seen keeps the time it was first seen at. */
  predicate Sighted(before: Option<Seen>, ts: int, nowMs: int, now: Option<Seen>) {
    now.Some? && now.value.ts == ts &&
    now.value.seenAtMs == if before.Some? && before.value.ts == ts then before.value.seenAtMs else nowMs
  }

  /** The sighting of the tick's own block. */
  function SeenFirst(seen: Option<Seen>, r: TickReads): (s: Option<Seen>)
    ensures Sighted(seen, r.blockTs, r.seenMs, s)
  {
    Some(Observed(seen, r.blockTs, r.seenMs))
  }

  /** A vault the tick could not do without and could not read. */
  ghost predicate SomeVaultUnread(vaults: map<string, VaultMeta>, r: TickReads) {
    exists j :: j in r.jobs && j.active && r.metaOf(j.vault).None? && Lower(j.vault) !in vaults
  }

  /** What was cached is kept, and what is new was read for an active job's vault. */
  ghost predicate CachedFrom(was: map<string, VaultMeta>, now: map<string, VaultMeta>, jobs: seq<Job>,
                             metaOf: string -> Option<VaultMeta>) {
    && (forall key :: key in was ==> key in now && now[key] == was[key])
    && forall key :: key in now && key !in was ==>
                       exists j :: j in jobs && j.active && Lower(j.vault) == key && metaOf(j.vault) == Some(now[key])
  }

  lemma CachedOneMore(was: map<string, VaultMeta>, now: map<string, VaultMeta>, done: seq<Job>, j: Job,
                      metaOf: string -> Option<VaultMeta>, next: map<string, VaultMeta>)
    requires CachedFrom(was, now, done, metaOf)
    requires next == now || (j.active && Lower(j.vault) !in now && metaOf(j.vault).Some? &&
                             next == now[Lower(j.vault) := metaOf(j.vault).value])
    ensures CachedFrom(was, next, done + [j], metaOf)
  {
    assert j in done + [j];
    forall key | key in next && key !in was
      ensures exists k :: k in done + [j] && k.active && Lower(k.vault) == key && metaOf(k.vault) == Some(next[key])
    {
      if key in now && next[key] == now[key] {
        var k :| k in done && k.active && Lower(k.vault) == key && metaOf(k.vault) == Some(now[key]);
        assert k in done + [j];
      }
    }
  }

  /** The uncovered report after the tick's pass, failed or not. */
  function Remembered(r: TickReads, last: map<string, U.Entry>): map<string, U.Entry> {
    var report := U.Pass(r.chain, r.jobs, last);
    if report.None? then last else report.value.found
  }

  class Scheduler {
    const cfg: Config
    var vaults: map<string, VaultMeta>
    var seen: Option<Seen>
    var announcedBoundary: Option<int>
    var stopping: bool
    var uncovered: map<string, U.Entry>
    var lastUncoveredCheck: int

    ghost predicate Valid()
      reads this
    {
      AllProper(vaults)
    }

    constructor (cfg: Config)
      ensures Valid() && this.cfg == cfg && vaults == map[] && seen == None && announcedBoundary == None
      ensures !stopping && uncovered == map[] && lastUncoveredCheck == 0
    {
      this.cfg := cfg;
      vaults, seen, announcedBoundary := map[], None, None;
      stopping, uncovered, lastUncoveredCheck := false, map[], 0;
    }

    method ObserveBlock(ts: int, nowMs: int)
      modifies this`seen
      ensures seen == Some(Observed(old(seen), ts, nowMs)) && Sighted(old(seen), ts, nowMs, seen)
    {
      if seen.None? || seen.value.ts != ts {
        seen := Some(Seen(ts, nowMs));
      }
    }

    /** Reads a vault's immutables once; a failed read throws and caches nothing. */
    method CacheVault(vault: string, meta: Option<VaultMeta>) returns (ok: bool)
      requires Valid() && (meta.Some? ==> Proper(meta.value))
      modifies this`vaults
      ensures Valid() && (ok <==> Lower(vault) in old(vaults) || meta.Some?)
      ensures vaults == if ok && Lower(vault) !in old(vaults) then old(vaults)[Lower(vault) := meta.value]
                        else old(vaults)
    {
      if Lower(vault) in vaults {
        return true;
      }
      if meta.None? {
        return false;
      }
      vaults := vaults[Lower(vault) := meta.value];
      ok := true;
    }

    /** Every active job's vault, before the tick goes on; nothing already known changes. */
    method CacheVaults(jobs: seq<Job>, metaOf: string -> Option<VaultMeta>) returns (ok: bool)
      requires Valid() && forall v :: metaOf(v).Some? ==> Proper(metaOf(v).value)
      modifies this`vaults
      ensures Valid() && (ok <==> AllCached(vaults, jobs))
      ensures CachedFrom(old(vaults), vaults, jobs, metaOf)
      ensures !ok ==> exists j :: j in jobs && j.active && metaOf(j.vault).None? && Lower(j.vault) !in old(vaults)
    {
      for i := 0 to |jobs|
        invariant Valid() && AllCached(vaults, jobs[..i]) && CachedFrom(old(vaults), vaults, jobs[..i], metaOf)
      {
        assert jobs[..i + 1] == jobs[..i] + [jobs[i]];
        CachedOneMore(old(vaults), vaults, jobs[..i], jobs[i], metaOf, vaults);
        if jobs[i].active {
          ghost var before := vaults;
          var cached := CacheVault(jobs[i].vault, metaOf(jobs[i].vault));
          if !cached {
            assert jobs[i] in jobs;
            return false;
          }
          CachedOneMore(old(vaults), before, jobs[..i], jobs[i], metaOf, vaults);
        }
      }
      assert jobs[..|jobs|] == jobs;
      ok := true;
    }

    method BoundaryPassedSinceBlock(jobs: seq<Job>, blockTs: int, nowMs: int) returns (passed: bool)
      requires Valid()
      ensures passed <==> BoundaryMissed(vaults, jobs, blockTs, ChainNow(seen, nowMs))
    {
      var now := ChainNow(seen, nowMs);
      for i := 0 to |jobs|
        invariant !BoundaryMissed(vaults, jobs[..i], blockTs, now)
      {
        if Known(vaults, jobs[i]) {
          var m := vaults[Lower(jobs[i].vault)];
          EpochAdvancesAtBoundaries(m, blockTs, now);
          if EpochAt(m, now) > EpochAt(m, blockTs) {
            assert jobs[i] in jobs;
            return true;
          }
        }
        assert jobs[..i + 1] == jobs[..i] + [jobs[i]];
      }
      assert jobs[..|jobs|] == jobs;
      passed := false;
    }

    method NextDelay(jobs: seq<Job>, nowMs: int) returns (delay: int)
      requires Valid()
      modifies this`announcedBoundary
      ensures NeverOvershoots(vaults, jobs, ChainNow(seen, nowMs), delay, cfg)
      ensures SleepsUntilSoonest(vaults, jobs, ChainNow(seen, nowMs), delay, cfg, old(announcedBoundary),
                                 announcedBoundary)
    {
      var now := ChainNow(seen, nowMs);
      var soonest: Option<int>, visited: set<string> := None, {};
      for i := 0 to |jobs|
        invariant announcedBoundary == old(announcedBoundary)
        invariant IsSoonest(vaults, jobs[..i], now, soonest) && VisitedCount(vaults, jobs[..i], visited)
      {
        var j := jobs[i];
        assert jobs[..i + 1] == jobs[..i] + [j];
        if j.active && Lower(j.vault) !in visited {
          VisitedOneMore(vaults, jobs[..i], visited, j);
          visited := visited + {Lower(j.vault)};
          if Lower(j.vault) in vaults {
            SoonestOfMore(vaults, jobs[..i], j, now, soonest);
            var nb := NextBoundary(vaults[Lower(j.vault)], now);
            if soonest.None? || nb < soonest.value {
              soonest := Some(nb);
            }
          } else {
            SoonestOfSame(vaults, jobs[..i], j, now, soonest);
          }
        } else {
          VisitedStay(vaults, jobs[..i], visited, j);
          SoonestOfSame(vaults, jobs[..i], j, now, soonest);
        }
      }
      assert jobs[..|jobs|] == jobs;
      if soonest.None? {
        delay := cfg.pollIntervalMs;
      } else {
        SoonestNeverOvershoots(vaults, jobs, now, soonest.value, cfg);
        delay := DelayUntil(soonest.value, now, cfg.pollIntervalMs, cfg.boundaryGraceMs);
        announcedBoundary := soonest;
      }
      assert IsSoonest(vaults, jobs, now, soonest);
    }

    /**
     * `warned` are the lines logged, by a failed pass too; `gone` the pairs whose "no longer" line is. A pass whose
     * reads fail leaves the report as it was.
     */
    method CheckUncovered(jobs: seq<Job>, chain: U.ChainView) returns (ok: bool, warned: seq<U.Line>, gone: set<string>)
      modifies this`uncovered
      ensures ok <==> U.Pass(chain, jobs, old(uncovered)).Some?
      ensures warned == U.Logged(chain, jobs, old(uncovered))
      ensures !ok ==> gone == {}
      ensures ok ==> U.Report(uncovered, warned) == U.Pass(chain, jobs, old(uncovered)).value
      ensures ok ==> forall key :: key in gone <==> key in old(uncovered) && key !in uncovered
      ensures !ok ==> uncovered == old(uncovered)
    {
      ok, warned, gone := false, [], {};
      var pairs := ReadPairs(jobs, chain);
      if pairs.None? {
        return;
      }
      var counts := ReadCounts(pairs.value, chain);
      if counts.None? {
        return;
      }
      U.CountsAlign(chain, pairs.value);
      var report: Option<U.Report>;
      report, warned := ReadReport(pairs.value, counts.value, chain);
      if report.None? {
        return;
      }
      U.LinesOfReport(chain, uncovered, pairs.value, counts.value);
      gone := NoLonger(report.value.found);
      uncovered, ok := report.value.found, true;
    }

    /** The pairs that hold plans, each named and, when its count is news, warned about. */
    method ReadReport(pairs: seq<U.Pair>, counts: seq<nat>, chain: U.ChainView)
      returns (report: Option<U.Report>, warned: seq<U.Line>)
      requires |counts| == |pairs|
      ensures report == U.ReportOf(chain, uncovered, pairs, counts)
      ensures warned == U.LinesUntil(chain, uncovered, pairs, counts)
    {
      var found: map<string, U.Entry> := map[];
      warned := [];
      for i := 0 to |pairs|
        invariant U.ReportOf(chain, uncovered, pairs[..i], counts[..i]) == Some(U.Report(found, warned))
      {
        ReportStep(chain, uncovered, pairs, counts, i);
        var p, plans := pairs[i], counts[i];
        if plans != 0 {
          var title := U.TitleOf(chain, uncovered, p);
          if title.None? {
            LinesStop(chain, uncovered, pairs, counts, i);
            return None, warned;
          }
          found := found[U.PairKey(p) := U.Entry(plans, title.value)];
          if U.Changed(uncovered, U.PairKey(p), plans) {
            warned := warned + [U.Line(U.PairKey(p), plans)];
          } else {
            assert warned + [] == warned;
          }
        }
      }
      assert pairs[..|pairs|] == pairs && counts[..|pairs|] == counts;
      U.LinesOfReport(chain, uncovered, pairs, counts);
      report := Some(U.Report(found, warned));
    }

    /** The pairs last reported that the new report does not hold. */
    method NoLonger(found: map<string, U.Entry>) returns (gone: set<string>)
      ensures forall key :: key in gone <==> key in uncovered && key !in found
    {
      gone := {};
      var keys := uncovered.Keys;
      while keys != {}
        invariant forall key :: key in keys ==> key in uncovered
        invariant forall key :: key in gone <==> key in uncovered && key !in keys && key !in found
        decreases |keys|
      {
        var key :| key in keys;
        keys := keys - {key};
        if key !in found {
          gone := gone + {key};
        }
      }
    }

    method Stop()
      modifies this`stopping
      ensures stopping
    {
      stopping := true;
    }

    /** Runs the due jobs in the keeper's order, each to the end of its pages; a run that throws ends the tick. */
    method RunDue(due: seq<nat>, jobs: seq<Job>, answers: Answers, f: Fleet)
      returns (ok: bool, ran: seq<nat>, after: Fleet)
      requires cfg.pageLimit > 0 && FleetSound(f) && FleetCovered(f)
      ensures stopping ==> ok && ran == [] && after == f
      ensures !stopping ==> var runs := DueRuns(f, due, jobs, answers, cfg.live, cfg.pageLimit);
                            ran == runs.ran && after == runs.fleet && (ok <==> !runs.threw)
    {
      ran, after := [], f;
      for k := 0 to |due|
        invariant stopping ==> ran == [] && after == f
        invariant FleetSound(after) && FleetCovered(after)
        invariant !stopping ==> DueRuns(f, due[..k], jobs, answers, cfg.live, cfg.pageLimit) == Runs(after, ran, false)
      {
        if stopping {
          return true, ran, after;
        }
        assert due[..k + 1][..k] == due[..k];
        if due[k] < |jobs| {
          var job := jobs[due[k]];
          ran := ran + [due[k]];
          if answers(k).None? {
            ThrownRunsStop(f, due, k + 1, jobs, answers, cfg.live, cfg.pageLimit);
            return false, ran, after;
          }
          assert Sound(after.books(JobKey(job)));
          var o := RunJob(after.books(JobKey(job)), answers(k).value, cfg.live, cfg.pageLimit, job.vault, cfg.keeper);
          RunKeepsFleet(after, JobKey(job), answers(k).value, cfg.live, cfg.pageLimit);
          after := RanOne(after, JobKey(job), o);
          if o.stop == Threw {
            ThrownRunsStop(f, due, k + 1, jobs, answers, cfg.live, cfg.pageLimit);
            return false, ran, after;
          }
        }
      }
      assert due[..|due|] == due;
      ok := true;
    }

    /**
     * The start of a tick: the block is observed and the vaults cached; with nothing due and a boundary missed, the
     * chain is asked for a block, which takes a wallet, and read again.
     */
    method Refresh(r: TickReads) returns (ok: bool, nudging: bool, due: seq<nat>)
      requires Valid() && forall v :: r.metaOf(v).Some? ==> Proper(r.metaOf(v).value)
      modifies this`seen, this`vaults
      ensures Valid() && CachedFrom(old(vaults), vaults, r.jobs, r.metaOf)
      ensures (ok <==> AllCached(vaults, r.jobs)) && (!ok ==> SomeVaultUnread(old(vaults), r))
      ensures nudging <==> ok && r.due == [] &&
                           BoundaryMissed(vaults, r.jobs, r.blockTs, ChainNow(SeenFirst(old(seen), r), r.checkMs))
      ensures if nudging && cfg.live && r.nudged.Some? then
                due == r.nudged.value.0 && Sighted(SeenFirst(old(seen), r), r.nudged.value.1, r.nudgedMs, seen)
              else due == r.due && seen == SeenFirst(old(seen), r)
    {
      nudging, due := false, r.due;
      ObserveBlock(r.blockTs, r.seenMs);
      ok := CacheVaults(r.jobs, r.metaOf);
      if ok && r.due == [] {
        nudging := BoundaryPassedSinceBlock(r.jobs, r.blockTs, r.checkMs);
        if nudging && cfg.live && r.nudged.Some? {
          due := r.nudged.value.0;
          ObserveBlock(r.nudged.value.1, r.nudgedMs);
        }
      }
    }

    /** The uncovered-plan check when its time has come. A failed pass is only logged. */
    method CheckIfTime(r: TickReads)
      modifies this`uncovered, this`lastUncoveredCheck
      ensures if cfg.uncoveredCheckMs > 0 && !stopping &&
                 r.uncoveredMs >= old(lastUncoveredCheck) + cfg.uncoveredCheckMs
              then lastUncoveredCheck == r.uncoveredMs && uncovered == Remembered(r, old(uncovered))
              else lastUncoveredCheck == old(lastUncoveredCheck) && uncovered == old(uncovered)
    {
      if cfg.uncoveredCheckMs > 0 && !stopping && r.uncoveredMs - lastUncoveredCheck >= cfg.uncoveredCheckMs {
        lastUncoveredCheck := r.uncoveredMs;
        var _, _, _ := CheckUncovered(r.jobs, r.chain);
      }
    }

    /**
     * The rest of a tick, once the jobs due are known: they are run, then the check when it is time, then the sleep.
     */
    method RunAndSleep(due: seq<nat>, r: TickReads, f: Fleet) returns (delay: Option<int>, ran: seq<nat>, after: Fleet)
      requires Valid() && cfg.pageLimit > 0 && FleetSound(f) && FleetCovered(f)
      modifies this`uncovered, this`lastUncoveredCheck, this`announcedBoundary
      ensures Valid()
      ensures delay.Some? ==> ran == if stopping then [] else Runnable(due, |r.jobs|)
      ensures var runs := DueRuns(f, due, r.jobs, r.answers, cfg.live, cfg.pageLimit);
              if stopping then delay.Some? && after == f
              else ran == runs.ran && after == runs.fleet && (delay.None? <==> runs.threw)
      ensures delay.Some? ==>
                && NeverOvershoots(vaults, r.jobs, ChainNow(seen, r.sleepMs), delay.value, cfg)
                && SleepsUntilSoonest(vaults, r.jobs, ChainNow(seen, r.sleepMs), delay.value, cfg,
                                      old(announcedBoundary), announcedBoundary)
      ensures if delay.Some? && cfg.uncoveredCheckMs > 0 && !stopping &&
                 r.uncoveredMs >= old(lastUncoveredCheck) + cfg.uncoveredCheckMs
              then lastUncoveredCheck == r.uncoveredMs && uncovered == Remembered(r, old(uncovered))
              else lastUncoveredCheck == old(lastUncoveredCheck) && uncovered == old(uncovered)
    {
      var ok: bool;
      ok, ran, after := RunDue(due, r.jobs, r.answers, f);
      if !ok {
        return None, ran, after;
      }
      if !stopping {
        DueJobsAllRun(f, due, r.jobs, r.answers, cfg.live, cfg.pageLimit);
      }
      CheckIfTime(r);
      var sleep := NextDelay(r.jobs, r.sleepMs);
      delay := Some(sleep);
    }

    /**
     * One pass: the time to sleep, the jobs run, and whether it asked the chain for a block. `None` is a thrown tick: a
     * vault that could not be read, with nothing run, or a run that threw.
     */
    method Tick(r: TickReads, f: Fleet) returns (delay: Option<int>, ran: seq<nat>, nudging: bool, after: Fleet)
      requires Valid() && forall v :: r.metaOf(v).Some? ==> Proper(r.metaOf(v).value)
      requires cfg.pageLimit > 0 && FleetSound(f) && FleetCovered(f)
      modifies this
      ensures Valid() && stopping == old(stopping) && CachedFrom(old(vaults), vaults, r.jobs, r.metaOf)
      ensures !AllCached(vaults, r.jobs) ==> SomeVaultUnread(old(vaults), r)
      ensures nudging <==> AllCached(vaults, r.jobs) && r.due == [] &&
                           BoundaryMissed(vaults, r.jobs, r.blockTs, ChainNow(SeenFirst(old(seen), r), r.checkMs))
      // The block the clock goes by: the one asked for, if there was one, else the tick's own.
      ensures if nudging && cfg.live && r.nudged.Some?
              then Sighted(SeenFirst(old(seen), r), r.nudged.value.1, r.nudgedMs, seen)
              else seen == SeenFirst(old(seen), r)
      // What it runs: the jobs due at that block that exist, in order, unless it is stopping.
      ensures delay.Some? ==>
                ran == if stopping then []
                       else
                         Runnable(if nudging && cfg.live && r.nudged.Some? then r.nudged.value.0 else r.due, |r.jobs|)
      ensures var due := if nudging && cfg.live && r.nudged.Some? then r.nudged.value.0 else r.due;
              var runs := DueRuns(f, due, r.jobs, r.answers, cfg.live, cfg.pageLimit);
              if !AllCached(vaults, r.jobs) then delay.None? && ran == [] && after == f
              else if stopping then delay.Some? && after == f
              else ran == runs.ran && after == runs.fleet && (delay.None? <==> runs.threw)
      ensures delay.Some? ==>
                && NeverOvershoots(vaults, r.jobs, ChainNow(seen, r.sleepMs), delay.value, cfg)
                && SleepsUntilSoonest(vaults, r.jobs, ChainNow(seen, r.sleepMs), delay.value, cfg,
                                      old(announcedBoundary), announcedBoundary)
      ensures if delay.Some? && cfg.uncoveredCheckMs > 0 && !stopping &&
                 r.uncoveredMs >= old(lastUncoveredCheck) + cfg.uncoveredCheckMs
              then lastUncoveredCheck == r.uncoveredMs && uncovered == Remembered(r, old(uncovered))
              else lastUncoveredCheck == old(lastUncoveredCheck) && uncovered == old(uncovered)
    {
      var ok: bool, due: seq<nat>;
      ok, nudging, due := Refresh(r);
      if ok {
        delay, ran, after := RunAndSleep(due, r, f);
      } else {
        delay, ran, after := None, [], f;
      }
    }

    /** Each registry's list is read once, however many vaults share it. */
    method ReadPairs(jobs: seq<Job>, chain: U.ChainView) returns (pairs: Option<seq<U.Pair>>)
      ensures pairs == U.PairsOf(chain, U.Vaults(jobs), U.Covered(jobs))
    {
      var covered, all := U.Covered(jobs), U.Vaults(jobs);
      var approvedOf: map<string, seq<string>> := map[];
      pairs := Some([]);
      for i := 0 to |all|
        invariant pairs.Some? && pairs == U.PairsOf(chain, all[..i], covered)
        invariant forall r :: r in approvedOf ==> chain.approved(r) == Some(approvedOf[r])
      {
        assert all[..i + 1][..i] == all[..i];
        var registry := chain.registry(all[i]);
        if registry.None? || (registry.value !in approvedOf && chain.approved(registry.value).None?) {
          PairsFail(chain, all, covered, i + 1);
          return None;
        }
        if registry.value !in approvedOf {
          approvedOf := approvedOf[registry.value := chain.approved(registry.value).value];
        }
        var approved := approvedOf[registry.value];
        var own: seq<U.Pair> := [];
        for k := 0 to |approved|
          invariant own == U.Uncoverable(all[i], approved[..k], covered)
        {
          assert approved[..k + 1][..k] == approved[..k];
          var p := U.Pair(all[i], approved[k]);
          if U.PairKey(p) !in covered {
            own := own + [p];
          }
        }
        assert approved[..|approved|] == approved;
        pairs := Some(pairs.value + own);
      }
      assert all[..|all|] == all;
    }

    /** The counts, read in batches; one failed read fails them all. */
    method ReadCounts(pairs: seq<U.Pair>, chain: U.ChainView) returns (counts: Option<seq<nat>>)
      ensures counts == U.CountsOf(chain, pairs)
    {
      counts := Some([]);
      var i := 0;
      while i < |pairs|
        invariant i <= |pairs| && counts.Some? && counts == U.CountsOf(chain, pairs[..i])
      {
        var end := if i + U.READ_BATCH < |pairs| then i + U.READ_BATCH else |pairs|;
        for k := i to end
          invariant counts.Some? && counts == U.CountsOf(chain, pairs[..k])
        {
          assert pairs[..k + 1][..k] == pairs[..k];
          var n := chain.plans(pairs[k]);
          if n.None? {
            U.CountsFail(chain, pairs, k + 1);
            return None;
          }
          counts := Some(counts.value + [n.value]);
        }
        i := end;
      }
      assert pairs[..|pairs|] == pairs;
    }
  }

  lemma {:induction false} PairsFail(chain: U.ChainView, vaults: seq<string>, covered: set<string>, i: nat)
    requires i <= |vaults| && U.PairsOf(chain, vaults[..i], covered).None?
    ensures U.PairsOf(chain, vaults, covered).None?
    decreases |vaults|
  {
    if i < |vaults| {
      assert vaults[..|vaults| - 1][..i] == vaults[..i];
      PairsFail(chain, vaults[..|vaults| - 1], covered, i);
    } else {
      assert vaults[..i] == vaults;
    }
  }

  lemma ReportStep(chain: U.ChainView, last: map<string, U.Entry>, pairs: seq<U.Pair>, counts: seq<nat>, i: nat)
    requires |counts| == |pairs| && i < |pairs| && U.ReportOf(chain, last, pairs[..i], counts[..i]).Some?
    ensures var so := U.ReportOf(chain, last, pairs[..i], counts[..i]).value; var p := pairs[i];
            U.ReportOf(chain, last, pairs[..i + 1], counts[..i + 1]) ==
            if counts[i] == 0 then Some(so)
            else if U.TitleOf(chain, last, p).None? then None
            else
              Some(U.Report(so.found[U.PairKey(p) := U.Entry(counts[i], U.TitleOf(chain, last, p).value)],
                            so.warned + U.LinesFor(last, U.PairKey(p), counts[i])))
  {
    assert pairs[..i + 1][..i] == pairs[..i] && counts[..i + 1][..i] == counts[..i];
  }

  /** Nothing more is logged once the title of pair `i` could not be read. */
  lemma LinesStop(chain: U.ChainView, last: map<string, U.Entry>, pairs: seq<U.Pair>, counts: seq<nat>, i: nat)
    requires |counts| == |pairs| && i < |pairs| && U.ReportOf(chain, last, pairs[..i], counts[..i]).Some?
    requires counts[i] != 0 && U.TitleOf(chain, last, pairs[i]).None?
    ensures U.ReportOf(chain, last, pairs, counts).None?
    ensures U.LinesUntil(chain, last, pairs, counts) == U.ReportOf(chain, last, pairs[..i], counts[..i]).value.warned
  {
    UncoveredReads.NothingAfterTheUnnamed(chain, last, pairs, counts, i);
    U.LinesOfReport(chain, last, pairs[..i], counts[..i]);
  }
}
