/** What one pass of the uncovered-plan check reads and finds, and the same set computed from scratch. */
module Uncovered {
  import opened Wrappers
  import opened Text

  datatype Job = Job(vault: string, stock: string, active: bool)

  datatype Pair = Pair(vault: string, stock: string)

  /** A reported pair: how many plans it holds and the name it is logged under. */
  datatype Entry = Entry(plans: nat, title: string)

  /** The chain's answers during one pass; each is read at most once, and any read may fail. */
  datatype ChainView = ChainView(registry: string -> Option<string>, approved: string -> Option<seq<string>>,
                                 plans: Pair -> Option<nat>, title: Pair -> Option<string>)

  const READ_BATCH: nat := 100

  function PairKey(p: Pair): string { Lower(p.vault + [':'] + p.stock) }

  function Covered(jobs: seq<Job>): set<string> {
    set j | j in jobs && j.active :: PairKey(Pair(j.vault, j.stock))
  }

  /** The distinct job vaults, in the order they first appear. */
  function Vaults(jobs: seq<Job>): seq<string> {
    if jobs == [] then []
    else
      var so := Vaults(jobs[..|jobs| - 1]);
      var v := jobs[|jobs| - 1].vault;
      if v in so then so else so + [v]
  }

  /** The approved stocks of a vault's registry; nothing if either read fails. */
  function ApprovedFor(chain: ChainView, vault: string): Option<seq<string>> {
    if chain.registry(vault).None? then None else chain.approved(chain.registry(vault).value)
  }

  function Uncoverable(vault: string, stocks: seq<string>, covered: set<string>): seq<Pair> {
    if stocks == [] then []
    else
      var p := Pair(vault, stocks[|stocks| - 1]);
      Uncoverable(vault, stocks[..|stocks| - 1], covered) + (if PairKey(p) in covered then [] else [p])
  }

  /** The pairs to count: each vault's approved stocks that no active job covers. */
  function PairsOf(chain: ChainView, vaults: seq<string>, covered: set<string>): Option<seq<Pair>> {
    if vaults == [] then Some([])
    else
      var so := PairsOf(chain, vaults[..|vaults| - 1], covered);
      var v := vaults[|vaults| - 1];
      if so.None? || ApprovedFor(chain, v).None? then None
      else Some(so.value + Uncoverable(v, ApprovedFor(chain, v).value, covered))
  }

  function CountsOf(chain: ChainView, pairs: seq<Pair>): Option<seq<nat>> {
    if pairs == [] then Some([])
    else
      var so := CountsOf(chain, pairs[..|pairs| - 1]);
      var n := chain.plans(pairs[|pairs| - 1]);
      if so.None? || n.None? then None else Some(so.value + [n.value])
  }

  /** The name a pair is logged under: the one it was last reported with, or a fresh read. */
  function TitleOf(chain: ChainView, last: map<string, Entry>, p: Pair): Option<string> {
    if PairKey(p) in last then Some(last[PairKey(p)].title) else chain.title(p)
  }

  predicate Changed(last: map<string, Entry>, key: string, plans: nat) { key !in last || last[key].plans != plans }

  /** A logged warning: the pair and its count. */
  datatype Line = Line(key: string, plans: nat)

  /** The new report and the lines logged for it, pair by pair; nothing if a title read fails. */
  datatype Report = Report(found: map<string, Entry>, warned: seq<Line>)

  function LinesFor(last: map<string, Entry>, key: string, plans: nat): seq<Line> {
    if Changed(last, key, plans) then [Line(key, plans)] else []
  }

  function ReportOf(chain: ChainView, last: map<string, Entry>, pairs: seq<Pair>, counts: seq<nat>): Option<Report>
    requires |counts| == |pairs|
  {
    if pairs == [] then Some(Report(map[], []))
    else
      var so := ReportOf(chain, last, pairs[..|pairs| - 1], counts[..|pairs| - 1]);
      var p := pairs[|pairs| - 1];
      var n := counts[|pairs| - 1];
      if so.None? || n == 0 then so
      else if TitleOf(chain, last, p).None? then None
      else
        Some(Report(so.value.found[PairKey(p) := Entry(n, TitleOf(chain, last, p).value)],
                    so.value.warned + LinesFor(last, PairKey(p), n)))
  }

  /** The lines a pass has logged by the time it ends, whether it gets to the end or a title read fails on the way. */
  function LinesUntil(chain: ChainView, last: map<string, Entry>, pairs: seq<Pair>, counts: seq<nat>): seq<Line>
    requires |counts| == |pairs|
  {
    if pairs == [] then []
    else
      var init, counts' := pairs[..|pairs| - 1], counts[..|pairs| - 1];
      var p, n := pairs[|pairs| - 1], counts[|pairs| - 1];
      LinesUntil(chain, last, init, counts')
      + (if ReportOf(chain, last, init, counts').None? || n == 0 || TitleOf(chain, last, p).None? then []
         else LinesFor(last, PairKey(p), n))
  }

  // ---------------------------------------------------------------- from scratch

  /** The simple definition: a job's vault, one of its approved stocks, no active job for the two, and plans held. */
  predicate IsUncovered(chain: ChainView, jobs: seq<Job>, p: Pair) {
    && (exists j :: j in jobs && j.vault == p.vault)
    && ApprovedFor(chain, p.vault).Some? && p.stock in ApprovedFor(chain, p.vault).value
    && !(exists j :: j in jobs && j.active && Lower(j.vault) == Lower(p.vault) && Lower(j.stock) == Lower(p.stock))
    && chain.plans(p).Some? && chain.plans(p).value > 0
  }

  /** Addresses as the chain client returns them: letters and digits, and one spelling for each. */
  predicate OneSpelling(chain: ChainView, jobs: seq<Job>) {
    && (forall j :: j in jobs ==> IsWord(j.vault))
    && (forall j, k :: j in jobs && k in jobs && Lower(j.vault) == Lower(k.vault) ==> j.vault == k.vault)
    && (forall j :: j in jobs && ApprovedFor(chain, j.vault).Some? ==> Distinctly(ApprovedFor(chain, j.vault).value))
  }

  predicate Distinctly(stocks: seq<string>) {
    forall s, t :: s in stocks && t in stocks && Lower(s) == Lower(t) ==> s == t
  }

  lemma PairKeyIdentifies(p: Pair, q: Pair)
    requires IsWord(p.vault) && IsWord(q.vault)
    ensures PairKey(p) == PairKey(q) <==> Lower(p.vault) == Lower(q.vault) && Lower(p.stock) == Lower(q.stock)
  {
    LowerJoins(p);
    LowerJoins(q);
    LowerStaysWord(p.vault);
    LowerStaysWord(q.vault);
    if PairKey(p) == PairKey(q) {
      SplitAtSeparator(Lower(p.vault), Lower(p.stock), Lower(q.vault), Lower(q.stock), ':');
    }
  }

  lemma LowerJoins(p: Pair)
    ensures PairKey(p) == Lower(p.vault) + [':'] + Lower(p.stock)
  {
  }

  /** A whole pass: nothing when a read failed, else the new report. */
  function Pass(chain: ChainView, jobs: seq<Job>, last: map<string, Entry>): Option<Report> {
    var pairs := PairsOf(chain, Vaults(jobs), Covered(jobs));
    if pairs.None? || CountsOf(chain, pairs.value).None? then None
    else
      CountsAlign(chain, pairs.value);
      ReportOf(chain, last, pairs.value, CountsOf(chain, pairs.value).value)
  }

  function Logged(chain: ChainView, jobs: seq<Job>, last: map<string, Entry>): seq<Line> {
    var pairs := PairsOf(chain, Vaults(jobs), Covered(jobs));
    if pairs.None? || CountsOf(chain, pairs.value).None? then []
    else
      CountsAlign(chain, pairs.value);
      LinesUntil(chain, last, pairs.value, CountsOf(chain, pairs.value).value)
  }

  /** A pass that completes has logged exactly its report's lines. */
  lemma {:induction false} LinesOfReport(chain: ChainView, last: map<string, Entry>, pairs: seq<Pair>, counts: seq<nat>)
    requires |counts| == |pairs| && ReportOf(chain, last, pairs, counts).Some?
    ensures LinesUntil(chain, last, pairs, counts) == ReportOf(chain, last, pairs, counts).value.warned
    decreases |pairs|
  {
    if pairs != [] {
      LinesOfReport(chain, last, pairs[..|pairs| - 1], counts[..|pairs| - 1]);
    }
  }

  lemma {:induction false} LinesAreNews(chain: ChainView, last: map<string, Entry>, pairs: seq<Pair>, counts: seq<nat>)
    requires |counts| == |pairs|
    ensures forall l :: l in LinesUntil(chain, last, pairs, counts) ==> Changed(last, l.key, l.plans)
    decreases |pairs|
  {
    if pairs != [] {
      LinesAreNews(chain, last, pairs[..|pairs| - 1], counts[..|pairs| - 1]);
    }
  }

  /** Each count stands at its own pair's place. */
  lemma {:induction false} CountsAlign(chain: ChainView, pairs: seq<Pair>)
    requires CountsOf(chain, pairs).Some?
    ensures |CountsOf(chain, pairs).value| == |pairs|
    ensures forall i :: 0 <= i < |pairs| ==> chain.plans(pairs[i]) == Some(CountsOf(chain, pairs).value[i])
    decreases |pairs|
  {
    if pairs != [] {
      CountsAlign(chain, pairs[..|pairs| - 1]);
    }
  }

  lemma {:induction false} CountsFail(chain: ChainView, pairs: seq<Pair>, i: nat)
    requires i <= |pairs| && CountsOf(chain, pairs[..i]).None?
    ensures CountsOf(chain, pairs).None?
    decreases |pairs|
  {
    if i < |pairs| {
      assert pairs[..|pairs| - 1][..i] == pairs[..i];
      CountsFail(chain, pairs[..|pairs| - 1], i);
    } else {
      assert pairs[..i] == pairs;
    }
  }

  lemma {:induction false} VaultsAreTheJobs(jobs: seq<Job>, v: string)
    ensures v in Vaults(jobs) <==> exists j :: j in jobs && j.vault == v
    decreases |jobs|
  {
    if jobs != [] {
      VaultsAreTheJobs(jobs[..|jobs| - 1], v);
      assert jobs == jobs[..|jobs| - 1] + [jobs[|jobs| - 1]];
    }
  }

  lemma {:induction false} UncoverableMeans(vault: string, stocks: seq<string>, covered: set<string>, p: Pair)
    ensures p in Uncoverable(vault, stocks, covered) <==>
              p.vault == vault && p.stock in stocks && PairKey(p) !in covered
    decreases |stocks|
  {
    if stocks != [] {
      UncoverableMeans(vault, stocks[..|stocks| - 1], covered, p);
      assert stocks == stocks[..|stocks| - 1] + [stocks[|stocks| - 1]];
    }
  }

  lemma {:induction false} PairsMean(chain: ChainView, vaults: seq<string>, covered: set<string>, p: Pair)
    requires PairsOf(chain, vaults, covered).Some?
    ensures p.vault in vaults ==> ApprovedFor(chain, p.vault).Some?
    ensures p in PairsOf(chain, vaults, covered).value <==>
            p.vault in vaults && p.stock in ApprovedFor(chain, p.vault).value && PairKey(p) !in covered
    decreases |vaults|
  {
    if vaults != [] {
      var v := vaults[|vaults| - 1];
      PairsMean(chain, vaults[..|vaults| - 1], covered, p);
      UncoverableMeans(v, ApprovedFor(chain, v).value, covered, p);
      assert vaults == vaults[..|vaults| - 1] + [v];
    }
  }

  lemma CoveredMeans(jobs: seq<Job>, p: Pair)
    requires IsWord(p.vault) && forall j :: j in jobs ==> IsWord(j.vault)
    ensures PairKey(p) in Covered(jobs) <==>
            exists j :: j in jobs && j.active && Lower(j.vault) == Lower(p.vault) && Lower(j.stock) == Lower(p.stock)
  {
    forall j | j in jobs
      ensures PairKey(Pair(j.vault, j.stock)) == PairKey(p) <==>
              Lower(j.vault) == Lower(p.vault) && Lower(j.stock) == Lower(p.stock)
    {
      PairKeyIdentifies(Pair(j.vault, j.stock), p);
    }
  }

  predicate Holds(chain: ChainView, p: Pair) { chain.plans(p).Some? && chain.plans(p).value > 0 }

  /** The pairs a pass reports are the uncovered ones, no more and no fewer. */
  lemma ReportedMeansUncovered(chain: ChainView, jobs: seq<Job>, p: Pair)
    requires OneSpelling(chain, jobs) && PairsOf(chain, Vaults(jobs), Covered(jobs)).Some?
    ensures p in PairsOf(chain, Vaults(jobs), Covered(jobs)).value && Holds(chain, p) <==> IsUncovered(chain, jobs, p)
  {
    VaultsAreTheJobs(jobs, p.vault);
    PairsMean(chain, Vaults(jobs), Covered(jobs), p);
    if p.vault in Vaults(jobs) {
      CoveredMeans(jobs, p);
    }
  }

  lemma UncoveredKeysDiffer(chain: ChainView, jobs: seq<Job>, p: Pair, q: Pair)
    requires OneSpelling(chain, jobs) && IsUncovered(chain, jobs, p) && IsUncovered(chain, jobs, q)
    requires PairKey(p) == PairKey(q)
    ensures p == q
  {
    var j :| j in jobs && j.vault == p.vault;
    var k :| k in jobs && k.vault == q.vault;
    PairKeyIdentifies(p, q);
  }

  predicate KeysIdentify(chain: ChainView, pairs: seq<Pair>) {
    forall p, q :: p in pairs && q in pairs && Holds(chain, p) && Holds(chain, q) && PairKey(p) == PairKey(q) ==> p == q
  }

  /** Every pair that holds plans is in the report, with its own count. */
  predicate Listed(chain: ChainView, pairs: seq<Pair>, found: map<string, Entry>) {
    forall p :: p in pairs && Holds(chain, p) ==> PairKey(p) in found && found[PairKey(p)].plans == chain.plans(p).value
  }

  predicate HasSource(chain: ChainView, pairs: seq<Pair>, key: string) {
    exists p :: p in pairs && Holds(chain, p) && PairKey(p) == key
  }

  /** Nothing else is in the report. */
  predicate NothingElse(chain: ChainView, pairs: seq<Pair>, found: map<string, Entry>) {
    forall key :: key in found ==> HasSource(chain, pairs, key)
  }

  /** A line is logged exactly for an entry that is new or whose count changed, with that count. */
  ghost predicate WarnsChanges(last: map<string, Entry>, r: Report) {
    forall l :: l in r.warned <==>
                  l.key in r.found && r.found[l.key].plans == l.plans && Changed(last, l.key, l.plans)
  }

  predicate Grounded(chain: ChainView, pairs: seq<Pair>, counts: seq<nat>) {
    |counts| == |pairs| && forall i :: 0 <= i < |pairs| ==> chain.plans(pairs[i]) == Some(counts[i])
  }

  lemma {:induction false} ReportIsRight(chain: ChainView, last: map<string, Entry>, pairs: seq<Pair>, counts: seq<nat>)
    requires Grounded(chain, pairs, counts) && KeysIdentify(chain, pairs)
    requires ReportOf(chain, last, pairs, counts).Some?
    ensures Listed(chain, pairs, ReportOf(chain, last, pairs, counts).value.found)
    ensures NothingElse(chain, pairs, ReportOf(chain, last, pairs, counts).value.found)
    ensures WarnsChanges(last, ReportOf(chain, last, pairs, counts).value)
    decreases |pairs|
  {
    if pairs != [] {
      var init, counts' := pairs[..|pairs| - 1], counts[..|pairs| - 1];
      var p, n := pairs[|pairs| - 1], counts[|pairs| - 1];
      assert pairs == init + [p];
      assert Grounded(chain, init, counts');
      ReportIsRight(chain, last, init, counts');
      var r := ReportOf(chain, last, init, counts').value;
      if n == 0 {
        NothingMore(chain, init, p, r.found);
      } else {
        var entry := Entry(n, TitleOf(chain, last, p).value);
        ListedExtends(chain, init, p, r.found, entry);
        SourcesExtend(chain, init, p, r.found, entry);
        WarningsExtend(chain, last, init, p, r, entry);
      }
    }
  }

  lemma NothingMore(chain: ChainView, init: seq<Pair>, p: Pair, found: map<string, Entry>)
    requires !Holds(chain, p) && Listed(chain, init, found) && NothingElse(chain, init, found)
    ensures Listed(chain, init + [p], found) && NothingElse(chain, init + [p], found)
  {
    forall key | key in found ensures HasSource(chain, init + [p], key) {
      assert HasSource(chain, init, key);
      var q :| q in init && Holds(chain, q) && PairKey(q) == key;
      assert q in init + [p];
    }
  }

  lemma ListedExtends(chain: ChainView, init: seq<Pair>, p: Pair, found: map<string, Entry>, entry: Entry)
    requires KeysIdentify(chain, init + [p]) && Listed(chain, init, found)
    requires Holds(chain, p) && entry.plans == chain.plans(p).value
    ensures Listed(chain, init + [p], found[PairKey(p) := entry])
  {
    var all := init + [p];
    assert p in all;
    forall q | q in all && Holds(chain, q)
      ensures PairKey(q) in found[PairKey(p) := entry]
      ensures found[PairKey(p) := entry][PairKey(q)].plans == chain.plans(q).value
    {
      if PairKey(q) == PairKey(p) {
        assert q == p;
      } else {
        assert q in init;
      }
    }
  }

  lemma SourcesExtend(chain: ChainView, init: seq<Pair>, p: Pair, found: map<string, Entry>, entry: Entry)
    requires Holds(chain, p) && NothingElse(chain, init, found)
    ensures NothingElse(chain, init + [p], found[PairKey(p) := entry])
  {
    var all := init + [p];
    assert p in all;
    forall key | key in found[PairKey(p) := entry] ensures HasSource(chain, all, key) {
      if key != PairKey(p) {
        assert HasSource(chain, init, key);
        var q :| q in init && Holds(chain, q) && PairKey(q) == key;
        assert q in all;
      }
    }
  }

  lemma WarningsExtend(chain: ChainView, last: map<string, Entry>, init: seq<Pair>, p: Pair, r: Report, entry: Entry)
    requires KeysIdentify(chain, init + [p]) && Listed(chain, init, r.found) && NothingElse(chain, init, r.found)
    requires WarnsChanges(last, r) && Holds(chain, p) && entry.plans == chain.plans(p).value
    ensures WarnsChanges(last, Report(r.found[PairKey(p) := entry], r.warned + LinesFor(last, PairKey(p), entry.plans)))
  {
    if PairKey(p) in r.found {
      assert HasSource(chain, init, PairKey(p));
      var q :| q in init && Holds(chain, q) && PairKey(q) == PairKey(p);
      assert q in init + [p] && p in init + [p];
      assert q == p;
    }
  }

  // ---------------------------------------------------------------- the pass agrees with the definition

  /** Exactly the uncovered pairs are remembered, each with its own count; exactly the changed ones are warned about. */
  ghost predicate Agrees(chain: ChainView, jobs: seq<Job>, last: map<string, Entry>, r: Report) {
    && (forall p :: IsUncovered(chain, jobs, p) ==>
          PairKey(p) in r.found && r.found[PairKey(p)].plans == chain.plans(p).value)
    && (forall key :: key in r.found ==> exists p :: IsUncovered(chain, jobs, p) && PairKey(p) == key)
    && WarnsChanges(last, r)
  }

  lemma PassAgrees(chain: ChainView, jobs: seq<Job>, last: map<string, Entry>)
    requires OneSpelling(chain, jobs) && Pass(chain, jobs, last).Some?
    ensures Agrees(chain, jobs, last, Pass(chain, jobs, last).value)
  {
    var pairs := PairsOf(chain, Vaults(jobs), Covered(jobs)).value;
    CountsAlign(chain, pairs);
    forall p ensures p in pairs && Holds(chain, p) <==> IsUncovered(chain, jobs, p) {
      ReportedMeansUncovered(chain, jobs, p);
    }
    forall p, q | p in pairs && q in pairs && Holds(chain, p) && Holds(chain, q) && PairKey(p) == PairKey(q)
      ensures p == q
    {
      UncoveredKeysDiffer(chain, jobs, p, q);
    }
    ReportIsRight(chain, last, pairs, CountsOf(chain, pairs).value);
    var found := ReportOf(chain, last, pairs, CountsOf(chain, pairs).value).value.found;
    forall key | key in found ensures exists p :: IsUncovered(chain, jobs, p) && PairKey(p) == key {
      assert HasSource(chain, pairs, key);
    }
  }

  // ---------------------------------------------------------------- over many passes

  datatype Round = Round(chain: ChainView, jobs: seq<Job>)

  /** What is remembered after each round: a failed pass changes nothing. */
  function After(rounds: seq<Round>): map<string, Entry> {
    if rounds == [] then map[]
    else
      var last := After(rounds[..|rounds| - 1]);
      var r := Pass(rounds[|rounds| - 1].chain, rounds[|rounds| - 1].jobs, last);
      if r.None? then last else r.value.found
  }

  predicate Completes(rounds: seq<Round>, k: nat)
    requires k < |rounds|
  {
    Pass(rounds[k].chain, rounds[k].jobs, After(rounds[..k])).Some?
  }

  predicate LastCompleted(rounds: seq<Round>, k: nat)
    requires k < |rounds|
  {
    Completes(rounds, k) && forall i :: k < i < |rounds| ==> !Completes(rounds, i)
  }

  /** What is remembered is the from-scratch answer of the last completed pass, however many passes failed since. */
  lemma {:induction false} RemembersTheLastCompletedPass(rounds: seq<Round>, k: nat)
    requires k < |rounds| && LastCompleted(rounds, k) && OneSpelling(rounds[k].chain, rounds[k].jobs)
    ensures After(rounds) == Pass(rounds[k].chain, rounds[k].jobs, After(rounds[..k])).value.found
    ensures Agrees(rounds[k].chain, rounds[k].jobs, After(rounds[..k]),
                   Pass(rounds[k].chain, rounds[k].jobs, After(rounds[..k])).value)
    decreases |rounds|
  {
    if k == |rounds| - 1 {
      PassAgrees(rounds[k].chain, rounds[k].jobs, After(rounds[..k]));
    } else {
      var init := rounds[..|rounds| - 1];
      assert forall i :: 0 <= i < |init| ==> init[..i] == rounds[..i];
      assert !Completes(rounds, |rounds| - 1);
      assert LastCompleted(init, k) by {
        forall i | 0 <= i < |init| ensures Completes(init, i) == Completes(rounds, i) {
          assert init[..i] == rounds[..i];
        }
      }
      RemembersTheLastCompletedPass(init, k);
    }
  }

  /** Before any pass completes nothing is remembered. */
  lemma {:induction false} NothingRememberedBeforeAPass(rounds: seq<Round>)
    requires forall i :: 0 <= i < |rounds| ==> !Completes(rounds, i)
    ensures After(rounds) == map[]
    decreases |rounds|
  {
    if rounds != [] {
      var init := rounds[..|rounds| - 1];
      assert !Completes(rounds, |rounds| - 1);
      forall i | 0 <= i < |init| ensures !Completes(init, i) {
        assert init[..i] == rounds[..i] && !Completes(rounds, i);
      }
      NothingRememberedBeforeAPass(init);
    }
  }

  /** A pair of the round is uncovered under this key, with this many plans. */
  ghost predicate UncoveredAs(r: Round, key: string, plans: nat) {
    exists p :: IsUncovered(r.chain, r.jobs, p) && PairKey(p) == key && r.chain.plans(p).value == plans
  }

  lemma ReportedAsUncovered(r: Round, last: map<string, Entry>, report: Report, key: string, plans: nat)
    requires OneSpelling(r.chain, r.jobs) && Agrees(r.chain, r.jobs, last, report)
    ensures UncoveredAs(r, key, plans) <==> key in report.found && report.found[key].plans == plans
  {
    if key in report.found {
      var p :| IsUncovered(r.chain, r.jobs, p) && PairKey(p) == key;
      assert report.found[key].plans == r.chain.plans(p).value;
    }
  }

  /**
   * Against the last completed pass `k`, a new pass logs exactly the pairs uncovered now with a count they were not
   * uncovered with then, and drops exactly the pairs uncovered then and not now.
   */
  lemma NewsIsWhatChanged(rounds: seq<Round>, k: nat, now: Round, key: string, n: nat)
    requires k < |rounds| && LastCompleted(rounds, k) && OneSpelling(rounds[k].chain, rounds[k].jobs)
    requires OneSpelling(now.chain, now.jobs) && Pass(now.chain, now.jobs, After(rounds)).Some?
    ensures var r := Pass(now.chain, now.jobs, After(rounds)).value;
            && (Line(key, n) in r.warned <==> UncoveredAs(now, key, n) && !UncoveredAs(rounds[k], key, n))
            && (key in After(rounds) && key !in r.found <==>
                  (exists m: nat :: UncoveredAs(rounds[k], key, m)) && !(exists m: nat :: UncoveredAs(now, key, m)))
  {
    var last := After(rounds);
    var before := Pass(rounds[k].chain, rounds[k].jobs, After(rounds[..k])).value;
    var r := Pass(now.chain, now.jobs, last).value;
    RemembersTheLastCompletedPass(rounds, k);
    PassAgrees(now.chain, now.jobs, last);
    forall m: nat ensures UncoveredAs(rounds[k], key, m) <==> key in last && last[key].plans == m {
      ReportedAsUncovered(rounds[k], After(rounds[..k]), before, key, m);
    }
    forall m: nat ensures UncoveredAs(now, key, m) <==> key in r.found && r.found[key].plans == m {
      ReportedAsUncovered(now, last, r, key, m);
    }
    NewsOf(rounds[k], now, last, r, key, n);
  }

  lemma NewsOf(was: Round, now: Round, last: map<string, Entry>, r: Report, key: string, n: nat)
    requires WarnsChanges(last, r)
    requires forall m: nat :: UncoveredAs(was, key, m) <==> key in last && last[key].plans == m
    requires forall m: nat :: UncoveredAs(now, key, m) <==> key in r.found && r.found[key].plans == m
    ensures Line(key, n) in r.warned <==> UncoveredAs(now, key, n) && !UncoveredAs(was, key, n)
    ensures key in last && key !in r.found <==>
              (exists m: nat :: UncoveredAs(was, key, m)) && !(exists m: nat :: UncoveredAs(now, key, m))
  {
    assert Line(key, n).key == key && Line(key, n).plans == n;
    if key in last {
      assert UncoveredAs(was, key, last[key].plans);
    }
    if key in r.found {
      assert UncoveredAs(now, key, r.found[key].plans);
    }
  }

  // ---------------------------------------------------------------- once per change

  /** What round `i` logs, completed or not. */
  function LoggedIn(rounds: seq<Round>, i: nat): seq<Line>
    requires i < |rounds|
  {
    Logged(rounds[i].chain, rounds[i].jobs, After(rounds[..i]))
  }

  lemma AfterOne(rounds: seq<Round>, i: nat)
    requires i < |rounds|
    ensures After(rounds[..i + 1]) ==
            if Completes(rounds, i) then Pass(rounds[i].chain, rounds[i].jobs, After(rounds[..i])).value.found
            else After(rounds[..i])
  {
    assert rounds[..i + 1][..i] == rounds[..i];
  }

  lemma LoggedIsNews(r: Round, last: map<string, Entry>, l: Line)
    requires l in Logged(r.chain, r.jobs, last)
    ensures Changed(last, l.key, l.plans)
  {
    var pairs := PairsOf(r.chain, Vaults(r.jobs), Covered(r.jobs)).value;
    CountsAlign(r.chain, pairs);
    LinesAreNews(r.chain, last, pairs, CountsOf(r.chain, pairs).value);
  }

  lemma CompletedLogs(r: Round, last: map<string, Entry>)
    requires Pass(r.chain, r.jobs, last).Some?
    ensures Logged(r.chain, r.jobs, last) == Pass(r.chain, r.jobs, last).value.warned
  {
    var pairs := PairsOf(r.chain, Vaults(r.jobs), Covered(r.jobs)).value;
    CountsAlign(r.chain, pairs);
    LinesOfReport(r.chain, last, pairs, CountsOf(r.chain, pairs).value);
  }

  lemma LineIfChanged(last: map<string, Entry>, report: Report, l: Line)
    requires WarnsChanges(last, report) && l.key in report.found && report.found[l.key].plans == l.plans
    ensures l in report.warned <==> Changed(last, l.key, l.plans)
  {
  }

  lemma ReportHas(r: Round, last: map<string, Entry>, key: string, plans: nat)
    requires OneSpelling(r.chain, r.jobs) && Pass(r.chain, r.jobs, last).Some? && UncoveredAs(r, key, plans)
    ensures var report := Pass(r.chain, r.jobs, last).value;
            WarnsChanges(last, report) && key in report.found && report.found[key].plans == plans
  {
    PassAgrees(r.chain, r.jobs, last);
    ReportedAsUncovered(r, last, Pass(r.chain, r.jobs, last).value, key, plans);
  }

  lemma LoggedIfChanged(r: Round, last: map<string, Entry>, l: Line)
    requires OneSpelling(r.chain, r.jobs) && Pass(r.chain, r.jobs, last).Some? && UncoveredAs(r, l.key, l.plans)
    ensures l in Logged(r.chain, r.jobs, last) <==> Changed(last, l.key, l.plans)
  {
    CompletedLogs(r, last);
    ReportHas(r, last, l.key, l.plans);
    LineIfChanged(last, Pass(r.chain, r.jobs, last).value, l);
  }

  lemma CompletedRemembers(r: Round, last: map<string, Entry>, l: Line)
    requires OneSpelling(r.chain, r.jobs) && Pass(r.chain, r.jobs, last).Some? && l in Logged(r.chain, r.jobs, last)
    ensures !Changed(Pass(r.chain, r.jobs, last).value.found, l.key, l.plans)
  {
    CompletedLogs(r, last);
    PassAgrees(r.chain, r.jobs, last);
  }

  /**
   * A line logged in one round is logged again by the next, the pair still holding that many plans when that one
   * completes, if and only if the first round failed after logging it: a failed pass forgets what it has said.
   */
  lemma LoggedAgainExactlyAfterAFailure(rounds: seq<Round>, i: nat, l: Line)
    requires i + 1 < |rounds| && l in LoggedIn(rounds, i) && Completes(rounds, i + 1)
    requires OneSpelling(rounds[i].chain, rounds[i].jobs) && OneSpelling(rounds[i + 1].chain, rounds[i + 1].jobs)
    requires UncoveredAs(rounds[i + 1], l.key, l.plans)
    ensures l in LoggedIn(rounds, i + 1) <==> !Completes(rounds, i)
  {
    AfterOne(rounds, i);
    LoggedIsNews(rounds[i], After(rounds[..i]), l);
    LoggedIfChanged(rounds[i + 1], After(rounds[..i + 1]), l);
    if Completes(rounds, i) {
      CompletedRemembers(rounds[i], After(rounds[..i]), l);
    }
  }
}
