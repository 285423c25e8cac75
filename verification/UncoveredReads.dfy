/** One pass of the uncovered-plan check, read by read: when it completes, under what names, and each line once. */
module UncoveredReads {
  import opened Wrappers
  import opened Text
  import opened Uncovered

  // ---------------------------------------------------------------- when a pass completes

  /** A pair whose plans are counted: a job's vault, one of its approved stocks, and no active job for the two. */
  ghost predicate IsCounted(chain: ChainView, jobs: seq<Job>, p: Pair) {
    && (exists j :: j in jobs && j.vault == p.vault)
    && chain.registry(p.vault).Some? && chain.approved(chain.registry(p.vault).value).Some?
    && p.stock in chain.approved(chain.registry(p.vault).value).value
    && !(exists j :: j in jobs && j.active && Lower(j.vault) == Lower(p.vault) && Lower(j.stock) == Lower(p.stock))
  }

  /**
   * Every read the pass needs is answered: each job vault's registry and its stocks, each counted pair's plans, and the
   * name of each that holds any and was not reported before.
   */
  ghost predicate AllReadsAnswer(chain: ChainView, jobs: seq<Job>, last: map<string, Entry>) {
    && (forall j :: j in jobs ==>
          chain.registry(j.vault).Some? && chain.approved(chain.registry(j.vault).value).Some?)
    && (forall p :: IsCounted(chain, jobs, p) ==> chain.plans(p).Some?)
    && (forall p :: IsCounted(chain, jobs, p) && chain.plans(p).value > 0 && PairKey(p) !in last ==>
          chain.title(p).Some?)
  }

  lemma {:induction false} PairsReadExactly(chain: ChainView, vaults: seq<string>, covered: set<string>)
    ensures PairsOf(chain, vaults, covered).Some? <==>
              forall v :: v in vaults ==> chain.registry(v).Some? && chain.approved(chain.registry(v).value).Some?
    decreases |vaults|
  {
    if vaults != [] {
      PairsReadExactly(chain, vaults[..|vaults| - 1], covered);
      assert vaults == vaults[..|vaults| - 1] + [vaults[|vaults| - 1]];
    }
  }

  lemma {:induction false} CountsReadExactly(chain: ChainView, pairs: seq<Pair>)
    ensures CountsOf(chain, pairs).Some? <==> forall p :: p in pairs ==> chain.plans(p).Some?
    decreases |pairs|
  {
    if pairs != [] {
      CountsReadExactly(chain, pairs[..|pairs| - 1]);
      assert pairs == pairs[..|pairs| - 1] + [pairs[|pairs| - 1]];
    }
  }

  predicate NameAnswers(chain: ChainView, last: map<string, Entry>, p: Pair) {
    PairKey(p) in last || chain.title(p).Some?
  }

  lemma {:induction false} NamesReadExactly(chain: ChainView, last: map<string, Entry>, pairs: seq<Pair>,
                                            counts: seq<nat>)
    requires Grounded(chain, pairs, counts)
    ensures ReportOf(chain, last, pairs, counts).Some? <==>
              forall p :: p in pairs && chain.plans(p).value > 0 ==> NameAnswers(chain, last, p)
    decreases |pairs|
  {
    assert forall p :: p in pairs ==> chain.plans(p).Some?;
    if pairs != [] {
      var init, p := pairs[..|pairs| - 1], pairs[|pairs| - 1];
      assert Grounded(chain, init, counts[..|pairs| - 1]);
      NamesReadExactly(chain, last, init, counts[..|pairs| - 1]);
      NameOneMore(chain, last, pairs, counts);
      forall q ensures q in pairs <==> q in init || q == p {
        assert pairs == init + [p];
      }
    }
  }

  lemma NameOneMore(chain: ChainView, last: map<string, Entry>, pairs: seq<Pair>, counts: seq<nat>)
    requires Grounded(chain, pairs, counts) && pairs != []
    ensures var p := pairs[|pairs| - 1];
            chain.plans(p).Some? &&
            (ReportOf(chain, last, pairs, counts).Some? <==>
               ReportOf(chain, last, pairs[..|pairs| - 1], counts[..|pairs| - 1]).Some? &&
               (chain.plans(p).value > 0 ==> NameAnswers(chain, last, p)))
  {
    assert chain.plans(pairs[|pairs| - 1]) == Some(counts[|pairs| - 1]);
  }

  lemma CountedAreThePairs(chain: ChainView, jobs: seq<Job>, p: Pair)
    requires OneSpelling(chain, jobs) && PairsOf(chain, Vaults(jobs), Covered(jobs)).Some?
    ensures p in PairsOf(chain, Vaults(jobs), Covered(jobs)).value <==> IsCounted(chain, jobs, p)
  {
    VaultsAreTheJobs(jobs, p.vault);
    PairsMean(chain, Vaults(jobs), Covered(jobs), p);
    if p.vault in Vaults(jobs) {
      CoveredMeans(jobs, p);
    }
  }

  lemma CountedPlansRead(chain: ChainView, jobs: seq<Job>, pairs: seq<Pair>)
    requires OneSpelling(chain, jobs) && PairsOf(chain, Vaults(jobs), Covered(jobs)) == Some(pairs)
    ensures (forall p :: p in pairs ==> chain.plans(p).Some?) <==>
              (forall p :: IsCounted(chain, jobs, p) ==> chain.plans(p).Some?)
  {
    forall p ensures p in pairs <==> IsCounted(chain, jobs, p) {
      CountedAreThePairs(chain, jobs, p);
    }
  }

  lemma CountedNamesRead(chain: ChainView, jobs: seq<Job>, last: map<string, Entry>, pairs: seq<Pair>)
    requires OneSpelling(chain, jobs) && PairsOf(chain, Vaults(jobs), Covered(jobs)) == Some(pairs)
    requires forall p :: p in pairs ==> chain.plans(p).Some?
    requires forall p :: IsCounted(chain, jobs, p) ==> chain.plans(p).Some?
    ensures (forall p :: p in pairs && chain.plans(p).value > 0 ==> NameAnswers(chain, last, p)) <==>
              (forall p :: IsCounted(chain, jobs, p) && chain.plans(p).value > 0 && PairKey(p) !in last ==>
                             chain.title(p).Some?)
  {
    forall p ensures p in pairs <==> IsCounted(chain, jobs, p) {
      CountedAreThePairs(chain, jobs, p);
    }
  }

  /** A pass completes exactly when every read it needs is answered. */
  lemma PassCompletesExactly(chain: ChainView, jobs: seq<Job>, last: map<string, Entry>)
    requires OneSpelling(chain, jobs)
    ensures Pass(chain, jobs, last).Some? <==> AllReadsAnswer(chain, jobs, last)
  {
    var vaults, covered := Vaults(jobs), Covered(jobs);
    PairsReadExactly(chain, vaults, covered);
    forall v ensures v in vaults <==> exists j :: j in jobs && j.vault == v {
      VaultsAreTheJobs(jobs, v);
    }
    if PairsOf(chain, vaults, covered).Some? {
      var pairs := PairsOf(chain, vaults, covered).value;
      CountsReadExactly(chain, pairs);
      CountedPlansRead(chain, jobs, pairs);
      if CountsOf(chain, pairs).Some? {
        CountsAlign(chain, pairs);
        NamesReadExactly(chain, last, pairs, CountsOf(chain, pairs).value);
        CountedNamesRead(chain, jobs, last, pairs);
      }
    }
  }

  // ---------------------------------------------------------------- names

  /** The name a pair was reported under stays; a new one's is read. */
  predicate NamedRight(chain: ChainView, last: map<string, Entry>, p: Pair, title: string) {
    if PairKey(p) in last then title == last[PairKey(p)].title else chain.title(p) == Some(title)
  }

  predicate AllNamed(chain: ChainView, last: map<string, Entry>, pairs: seq<Pair>, found: map<string, Entry>) {
    forall p :: p in pairs && Holds(chain, p) ==>
                  PairKey(p) in found && NamedRight(chain, last, p, found[PairKey(p)].title)
  }

  lemma NamedOneMore(chain: ChainView, last: map<string, Entry>, init: seq<Pair>, p: Pair, found: map<string, Entry>,
                     entry: Entry)
    requires KeysIdentify(chain, init + [p]) && AllNamed(chain, last, init, found) && Holds(chain, p)
    requires NamedRight(chain, last, p, entry.title)
    ensures AllNamed(chain, last, init + [p], found[PairKey(p) := entry])
  {
    assert p in init + [p];
    forall q | q in init + [p] && Holds(chain, q)
      ensures PairKey(q) in found[PairKey(p) := entry]
      ensures NamedRight(chain, last, q, found[PairKey(p) := entry][PairKey(q)].title)
    {
      if PairKey(q) == PairKey(p) {
        assert q == p;
      } else {
        assert q in init;
      }
    }
  }

  lemma {:induction false} ReportNames(chain: ChainView, last: map<string, Entry>, pairs: seq<Pair>, counts: seq<nat>)
    requires Grounded(chain, pairs, counts) && KeysIdentify(chain, pairs)
    requires ReportOf(chain, last, pairs, counts).Some?
    ensures AllNamed(chain, last, pairs, ReportOf(chain, last, pairs, counts).value.found)
    decreases |pairs|
  {
    if pairs != [] {
      var init, counts' := pairs[..|pairs| - 1], counts[..|pairs| - 1];
      var p, n := pairs[|pairs| - 1], counts[|pairs| - 1];
      assert pairs == init + [p] && Grounded(chain, init, counts');
      ReportNames(chain, last, init, counts');
      if n > 0 {
        NamedOneMore(chain, last, init, p, ReportOf(chain, last, init, counts').value.found,
                     Entry(n, TitleOf(chain, last, p).value));
      }
    }
  }

  lemma PassKeysIdentify(chain: ChainView, jobs: seq<Job>)
    requires OneSpelling(chain, jobs) && PairsOf(chain, Vaults(jobs), Covered(jobs)).Some?
    ensures KeysIdentify(chain, PairsOf(chain, Vaults(jobs), Covered(jobs)).value)
  {
    var pairs := PairsOf(chain, Vaults(jobs), Covered(jobs)).value;
    forall p, q | p in pairs && q in pairs && Holds(chain, p) && Holds(chain, q) && PairKey(p) == PairKey(q)
      ensures p == q
    {
      ReportedMeansUncovered(chain, jobs, p);
      ReportedMeansUncovered(chain, jobs, q);
      UncoveredKeysDiffer(chain, jobs, p, q);
    }
  }

  /** Every uncovered pair is remembered under the name it already had, or the one just read. */
  lemma PassNames(chain: ChainView, jobs: seq<Job>, last: map<string, Entry>, p: Pair)
    requires OneSpelling(chain, jobs) && Pass(chain, jobs, last).Some? && IsUncovered(chain, jobs, p)
    ensures var found := Pass(chain, jobs, last).value.found;
            PairKey(p) in found && NamedRight(chain, last, p, found[PairKey(p)].title)
  {
    var pairs := PairsOf(chain, Vaults(jobs), Covered(jobs)).value;
    CountsAlign(chain, pairs);
    PassKeysIdentify(chain, jobs);
    ReportedMeansUncovered(chain, jobs, p);
    ReportNames(chain, last, pairs, CountsOf(chain, pairs).value);
  }

  // ---------------------------------------------------------------- each line once, in order

  predicate NoneTwice<T(==)>(s: seq<T>) { forall i, j :: 0 <= i < j < |s| ==> s[i] != s[j] }

  lemma NoneTwiceOneMore<T>(s: seq<T>, x: T)
    requires NoneTwice(s) && x !in s
    ensures NoneTwice(s + [x])
  {
  }

  lemma NoneTwiceConcat<T>(a: seq<T>, b: seq<T>)
    requires NoneTwice(a) && NoneTwice(b) && forall x :: x in a ==> x !in b
    ensures NoneTwice(a + b)
  {
    var s := a + b;
    forall i, j | 0 <= i < j < |s| ensures s[i] != s[j] {
      if i < |a| <= j {
        assert a[i] in a && b[j - |a|] in b;
      }
    }
  }

  lemma {:induction false} VaultsOnce(jobs: seq<Job>)
    ensures NoneTwice(Vaults(jobs))
    decreases |jobs|
  {
    if jobs != [] {
      var so, v := Vaults(jobs[..|jobs| - 1]), jobs[|jobs| - 1].vault;
      VaultsOnce(jobs[..|jobs| - 1]);
      if v !in so {
        NoneTwiceOneMore(so, v);
      }
    }
  }

  lemma {:induction false} UncoverableOnce(vault: string, stocks: seq<string>, covered: set<string>)
    requires NoneTwice(stocks)
    ensures NoneTwice(Uncoverable(vault, stocks, covered))
    decreases |stocks|
  {
    if stocks != [] {
      var init, p := stocks[..|stocks| - 1], Pair(vault, stocks[|stocks| - 1]);
      UncoverableOnce(vault, init, covered);
      UncoverableMeans(vault, init, covered, p);
      assert p.stock !in init;
      if PairKey(p) !in covered {
        NoneTwiceOneMore(Uncoverable(vault, init, covered), p);
      }
    }
  }

  lemma {:induction false} PairsOnce(chain: ChainView, vaults: seq<string>, covered: set<string>)
    requires NoneTwice(vaults) && PairsOf(chain, vaults, covered).Some?
    requires forall v :: v in vaults && ApprovedFor(chain, v).Some? ==> NoneTwice(ApprovedFor(chain, v).value)
    ensures NoneTwice(PairsOf(chain, vaults, covered).value)
    decreases |vaults|
  {
    if vaults != [] {
      var init, v := vaults[..|vaults| - 1], vaults[|vaults| - 1];
      assert v in vaults && v !in init;
      assert forall u :: u in init ==> u in vaults;
      PairsOnce(chain, init, covered);
      UncoverableOnce(v, ApprovedFor(chain, v).value, covered);
      var so, now := PairsOf(chain, init, covered).value, Uncoverable(v, ApprovedFor(chain, v).value, covered);
      forall p | p in so ensures p !in now {
        PairsMean(chain, init, covered, p);
        UncoverableMeans(v, ApprovedFor(chain, v).value, covered, p);
      }
      NoneTwiceConcat(so, now);
    }
  }

  /** One pair more: its own line if its count is news, and nothing else. */
  lemma LinesOneMore(chain: ChainView, last: map<string, Entry>, pairs: seq<Pair>, counts: seq<nat>)
    requires |counts| == |pairs| > 0 && ReportOf(chain, last, pairs, counts).Some?
    ensures var p, n := pairs[|pairs| - 1], counts[|pairs| - 1];
            LinesUntil(chain, last, pairs, counts)
            == LinesUntil(chain, last, pairs[..|pairs| - 1], counts[..|pairs| - 1])
               + (if n > 0 && (PairKey(p) !in last || last[PairKey(p)].plans != n) then [Line(PairKey(p), n)] else [])
  {
  }

  lemma {:induction false} NothingAfterTheUnnamed(chain: ChainView, last: map<string, Entry>, pairs: seq<Pair>,
                                                  counts: seq<nat>, k: nat)
    requires |counts| == |pairs| && k < |pairs| && counts[k] > 0 && TitleOf(chain, last, pairs[k]).None?
    ensures ReportOf(chain, last, pairs, counts).None?
    ensures LinesUntil(chain, last, pairs, counts) == LinesUntil(chain, last, pairs[..k], counts[..k])
    decreases |pairs|
  {
    var init, counts' := pairs[..|pairs| - 1], counts[..|pairs| - 1];
    if k < |pairs| - 1 {
      NothingAfterTheUnnamed(chain, last, init, counts', k);
      assert init[..k] == pairs[..k] && counts'[..k] == counts[..k];
    }
  }

  /** A pass that cannot read a name has logged exactly the lines of the pairs before that one, and stops there. */
  lemma LinesStopAtTheUnnamed(chain: ChainView, last: map<string, Entry>, pairs: seq<Pair>, counts: seq<nat>, k: nat)
    requires Grounded(chain, pairs, counts) && k < |pairs| && Holds(chain, pairs[k])
    requires PairKey(pairs[k]) !in last && chain.title(pairs[k]).None?
    requires forall p :: p in pairs[..k] && Holds(chain, p) ==> NameAnswers(chain, last, p)
    ensures ReportOf(chain, last, pairs[..k], counts[..k]).Some?
    ensures LinesUntil(chain, last, pairs, counts) == LinesUntil(chain, last, pairs[..k], counts[..k])
  {
    NothingAfterTheUnnamed(chain, last, pairs, counts, k);
    NamesReadExactly(chain, last, pairs[..k], counts[..k]);
  }

  lemma {:induction false} LinesHaveSources(chain: ChainView, last: map<string, Entry>, pairs: seq<Pair>,
                                            counts: seq<nat>)
    requires Grounded(chain, pairs, counts)
    ensures forall l :: l in LinesUntil(chain, last, pairs, counts) ==> HasSource(chain, pairs, l.key)
    decreases |pairs|
  {
    if pairs != [] {
      var init, counts' := pairs[..|pairs| - 1], counts[..|pairs| - 1];
      assert pairs == init + [pairs[|pairs| - 1]] && Grounded(chain, init, counts');
      LinesHaveSources(chain, last, init, counts');
      forall l | l in LinesUntil(chain, last, pairs, counts) ensures HasSource(chain, pairs, l.key) {
        if l in LinesUntil(chain, last, init, counts') {
          assert HasSource(chain, init, l.key);
          var q :| q in init && Holds(chain, q) && PairKey(q) == l.key;
          assert q in pairs;
        } else {
          assert pairs[|pairs| - 1] in pairs;
        }
      }
    }
  }

  lemma NewKeyIsNew(chain: ChainView, init: seq<Pair>, p: Pair)
    requires KeysIdentify(chain, init + [p]) && p !in init && Holds(chain, p)
    ensures !HasSource(chain, init, PairKey(p))
  {
    forall q | q in init && Holds(chain, q) ensures PairKey(q) != PairKey(p) {
      assert q in init + [p] && p in init + [p];
    }
  }

  lemma OneLineAtMost(chain: ChainView, last: map<string, Entry>, pairs: seq<Pair>, counts: seq<nat>)
    requires |counts| == |pairs| > 0
    ensures var before := LinesUntil(chain, last, pairs[..|pairs| - 1], counts[..|pairs| - 1]);
            var n := counts[|pairs| - 1];
            || LinesUntil(chain, last, pairs, counts) == before
            || (n > 0 && LinesUntil(chain, last, pairs, counts) == before + [Line(PairKey(pairs[|pairs| - 1]), n)])
  {
  }

  lemma {:induction false} LinesOnce(chain: ChainView, last: map<string, Entry>, pairs: seq<Pair>, counts: seq<nat>)
    requires Grounded(chain, pairs, counts) && KeysIdentify(chain, pairs) && NoneTwice(pairs)
    ensures NoneTwice(LinesUntil(chain, last, pairs, counts))
    decreases |pairs|
  {
    if pairs != [] {
      var init, counts' := pairs[..|pairs| - 1], counts[..|pairs| - 1];
      var p, n := pairs[|pairs| - 1], counts[|pairs| - 1];
      assert pairs == init + [p] && Grounded(chain, init, counts') && p !in init;
      assert chain.plans(p) == Some(n);
      LinesOnce(chain, last, init, counts');
      LinesHaveSources(chain, last, init, counts');
      OneLineAtMost(chain, last, pairs, counts);
      if n > 0 {
        NewKeyIsNew(chain, init, p);
        NoneTwiceOneMore(LinesUntil(chain, last, init, counts'), Line(PairKey(p), n));
      }
    }
  }

  /** No pass, completed or failed, logs a line twice. */
  lemma NoLineTwice(chain: ChainView, jobs: seq<Job>, last: map<string, Entry>)
    requires OneSpelling(chain, jobs)
    requires forall v :: ApprovedFor(chain, v).Some? ==> NoneTwice(ApprovedFor(chain, v).value)
    ensures NoneTwice(Logged(chain, jobs, last))
  {
    var vaults, covered := Vaults(jobs), Covered(jobs);
    if PairsOf(chain, vaults, covered).Some? && CountsOf(chain, PairsOf(chain, vaults, covered).value).Some? {
      var pairs := PairsOf(chain, vaults, covered).value;
      VaultsOnce(jobs);
      PairsOnce(chain, vaults, covered);
      CountsAlign(chain, pairs);
      PassKeysIdentify(chain, jobs);
      LinesOnce(chain, last, pairs, CountsOf(chain, pairs).value);
    }
  }

  // ---------------------------------------------------------------- in what order

  lemma {:induction false} VaultsInOrder(jobs: seq<Job>, k: nat)
    requires k <= |jobs|
    ensures Vaults(jobs[..k]) <= Vaults(jobs)
    decreases |jobs|
  {
    if k < |jobs| {
      assert jobs[..|jobs| - 1][..k] == jobs[..k];
      VaultsInOrder(jobs[..|jobs| - 1], k);
    } else {
      assert jobs[..k] == jobs;
    }
  }

  lemma {:induction false} StocksInOrder(vault: string, stocks: seq<string>, covered: set<string>, k: nat)
    requires k <= |stocks|
    ensures Uncoverable(vault, stocks[..k], covered) <= Uncoverable(vault, stocks, covered)
    decreases |stocks|
  {
    if k < |stocks| {
      assert stocks[..|stocks| - 1][..k] == stocks[..k];
      StocksInOrder(vault, stocks[..|stocks| - 1], covered, k);
    } else {
      assert stocks[..k] == stocks;
    }
  }

  /**
   * The pairs are read vault by vault, as the vaults first appear among the jobs, and stock by stock: what is found for
   * the first vaults, or for the first stocks of one, stands in front of the rest.
   */
  lemma {:induction false} PairsInOrder(chain: ChainView, vaults: seq<string>, covered: set<string>, k: nat)
    requires k <= |vaults| && PairsOf(chain, vaults, covered).Some?
    ensures PairsOf(chain, vaults[..k], covered).Some?
    ensures PairsOf(chain, vaults[..k], covered).value <= PairsOf(chain, vaults, covered).value
    decreases |vaults|
  {
    if k < |vaults| {
      assert vaults[..|vaults| - 1][..k] == vaults[..k];
      PairsInOrder(chain, vaults[..|vaults| - 1], covered, k);
    } else {
      assert vaults[..k] == vaults;
    }
  }
}
