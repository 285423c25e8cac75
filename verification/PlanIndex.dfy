/** `planLiveness` and `visiblePositions`: which plans the index logs say are live, and which rows are listed. */
module PlanIndex {
  import opened Wrappers
  import opened Text

  datatype EventName = PlanIndexed | PlanClosed | Deposited

  datatype IndexLog = IndexLog(key: string, blockNumber: nat, logIndex: nat, event: EventName, active: bool,
                               unindexed: bool)

  function PlanKey(vault: string, planId: nat): string { Lower(vault) + [':'] + Decimal(planId) }

  /** The comparator's order: block, then log index. */
  predicate NotAfter(a: IndexLog, b: IndexLog) {
    a.blockNumber < b.blockNumber || (a.blockNumber == b.blockNumber && a.logIndex <= b.logIndex)
  }

  predicate Ahead(a: IndexLog, b: IndexLog) {
    a.blockNumber < b.blockNumber || (a.blockNumber == b.blockNumber && a.logIndex < b.logIndex)
  }

  function Insert(l: IndexLog, s: seq<IndexLog>): seq<IndexLog> {
    if s == [] || NotAfter(l, s[0]) then [l] + s else [s[0]] + Insert(l, s[1..])
  }

  /** The sorted copy; equal positions keep their order, as the built-in sort does. */
  function Sorted(logs: seq<IndexLog>): seq<IndexLog> {
    if logs == [] then [] else Insert(logs[0], Sorted(logs[1..]))
  }

  /** Whether a log says anything about its key, and what. */
  predicate Speaks(l: IndexLog) { l.event != PlanClosed || l.unindexed }

  function Says(l: IndexLog): bool {
    match l.event case PlanIndexed => l.active case Deposited => true case PlanClosed => false
  }

  function Write(live: map<string, bool>, l: IndexLog): map<string, bool> {
    if Speaks(l) then live[l.key := Says(l)] else live
  }

  function Fold(sorted: seq<IndexLog>): map<string, bool> {
    if sorted == [] then map[] else Write(Fold(sorted[..|sorted| - 1]), sorted[|sorted| - 1])
  }

  method PlanLiveness(logs: seq<IndexLog>) returns (live: map<string, bool>)
    ensures live == Fold(Sorted(logs))
  {
    var sorted := Sorted(logs);
    live := map[];
    for i := 0 to |sorted|
      invariant live == Fold(sorted[..i])
    {
      var l := sorted[i];
      assert sorted[..i + 1][..i] == sorted[..i];
      if l.event == PlanIndexed {
        live := live[l.key := l.active];
      } else if l.event == Deposited {
        live := live[l.key := true];
      } else if l.unindexed {
        live := live[l.key := false];
      }
    }
    assert sorted[..|sorted|] == sorted;
  }

  function Get(live: map<string, bool>, key: string): Option<bool> {
    if key in live then Some(live[key]) else None
  }

  // ---------------------------------------------------------------- order does not matter

  predicate StrictlySorted(s: seq<IndexLog>) { forall i, j :: 0 <= i < j < |s| ==> Ahead(s[i], s[j]) }

  predicate DistinctPositions(s: seq<IndexLog>) {
    forall i, j :: 0 <= i < j < |s| ==> Ahead(s[i], s[j]) || Ahead(s[j], s[i])
  }

  lemma {:induction false} InsertPermutes(l: IndexLog, s: seq<IndexLog>)
    ensures multiset(Insert(l, s)) == multiset(s) + multiset{l}
    decreases |s|
  {
    if s != [] && !NotAfter(l, s[0]) {
      InsertPermutes(l, s[1..]);
      assert s == [s[0]] + s[1..];
    }
  }

  lemma {:induction false} SortedPermutes(logs: seq<IndexLog>)
    ensures multiset(Sorted(logs)) == multiset(logs)
    decreases |logs|
  {
    if logs != [] {
      SortedPermutes(logs[1..]);
      InsertPermutes(logs[0], Sorted(logs[1..]));
      assert logs == [logs[0]] + logs[1..];
    }
  }

  lemma SameMembers(a: seq<IndexLog>, b: seq<IndexLog>)
    requires multiset(a) == multiset(b)
    ensures forall l :: l in a <==> l in b
  {
    forall l | l in a || l in b ensures l in a && l in b {
      assert l in multiset(a) || l in multiset(b);
      assert l in multiset(b) && l in multiset(a);
    }
  }

  lemma {:induction false} InsertMembers(l: IndexLog, s: seq<IndexLog>)
    ensures forall x :: x in Insert(l, s) ==> x == l || x in s
    decreases |s|
  {
    if s != [] && !NotAfter(l, s[0]) {
      InsertMembers(l, s[1..]);
    }
  }

  lemma {:induction false} InsertSorts(l: IndexLog, s: seq<IndexLog>)
    requires StrictlySorted(s) && forall i :: 0 <= i < |s| ==> Ahead(l, s[i]) || Ahead(s[i], l)
    ensures StrictlySorted(Insert(l, s))
    decreases |s|
  {
    if s != [] && !NotAfter(l, s[0]) {
      InsertSorts(l, s[1..]);
      InsertMembers(l, s[1..]);
      var rest := Insert(l, s[1..]);
      forall j | 0 <= j < |rest| ensures Ahead(s[0], rest[j]) {
        assert rest[j] in rest;
      }
    }
  }

  lemma {:induction false} SortedSorts(logs: seq<IndexLog>)
    requires DistinctPositions(logs)
    ensures StrictlySorted(Sorted(logs))
    decreases |logs|
  {
    if logs != [] {
      SortedSorts(logs[1..]);
      SortedPermutes(logs[1..]);
      SameMembers(Sorted(logs[1..]), logs[1..]);
      forall i | 0 <= i < |Sorted(logs[1..])|
        ensures Ahead(logs[0], Sorted(logs[1..])[i]) || Ahead(Sorted(logs[1..])[i], logs[0])
      {
        assert Sorted(logs[1..])[i] in logs[1..];
        var j :| 0 <= j < |logs[1..]| && logs[1..][j] == Sorted(logs[1..])[i];
        assert logs[j + 1] == logs[1..][j];
      }
      InsertSorts(logs[0], Sorted(logs[1..]));
    }
  }

  lemma FirstIsAhead(a: seq<IndexLog>, i: nat)
    requires StrictlySorted(a) && i < |a|
    ensures i == 0 || Ahead(a[0], a[i])
  {
  }

  lemma HeadsAgree(a: seq<IndexLog>, b: seq<IndexLog>)
    requires StrictlySorted(a) && StrictlySorted(b) && multiset(a) == multiset(b) && a != [] && b != []
    ensures a[0] == b[0]
  {
    SameMembers(a, b);
    assert a[0] in a && b[0] in b;
    assert a[0] in b && b[0] in a;
    var j :| 0 <= j < |b| && b[j] == a[0];
    var i :| 0 <= i < |a| && a[i] == b[0];
    FirstIsAhead(a, i);
    FirstIsAhead(b, j);
  }

  lemma TailsAgree(a: seq<IndexLog>, b: seq<IndexLog>)
    requires a != [] && b != [] && a[0] == b[0] && multiset(a) == multiset(b)
    ensures multiset(a[1..]) == multiset(b[1..])
  {
    assert a == [a[0]] + a[1..] && b == [b[0]] + b[1..];
    assert multiset(a[1..]) == multiset(a) - multiset{a[0]};
    assert multiset(b[1..]) == multiset(b) - multiset{b[0]};
  }

  /** There is only one way to write a set of logs in strict chain order. */
  lemma {:induction false} StrictOrderIsUnique(a: seq<IndexLog>, b: seq<IndexLog>)
    requires StrictlySorted(a) && StrictlySorted(b) && multiset(a) == multiset(b)
    ensures a == b
    decreases |a|
  {
    assert |a| == |multiset(a)| == |multiset(b)| == |b|;
    if a != [] {
      HeadsAgree(a, b);
      TailsAgree(a, b);
      StrictOrderIsUnique(a[1..], b[1..]);
      assert a == [a[0]] + a[1..] && b == [b[0]] + b[1..];
    }
  }

  /** The liveness map is the same whatever order the logs arrive in, block and log index telling them apart. */
  lemma ArrivalOrderDoesNotMatter(a: seq<IndexLog>, b: seq<IndexLog>)
    requires multiset(a) == multiset(b) && DistinctPositions(a) && DistinctPositions(b)
    ensures Sorted(a) == Sorted(b) && Fold(Sorted(a)) == Fold(Sorted(b))
  {
    SortedSorts(a);
    SortedSorts(b);
    SortedPermutes(a);
    SortedPermutes(b);
    StrictOrderIsUnique(Sorted(a), Sorted(b));
  }

  // ---------------------------------------------------------------- keys do not interfere

  /** The last log that says anything about a key. */
  function LastWord(s: seq<IndexLog>, key: string): Option<bool> {
    if s == [] then None
    else
      var l := s[|s| - 1];
      if l.key == key && Speaks(l) then Some(Says(l)) else LastWord(s[..|s| - 1], key)
  }

  lemma {:induction false} FoldIsLastWord(s: seq<IndexLog>, key: string)
    ensures Get(Fold(s), key) == LastWord(s, key)
    decreases |s|
  {
    if s != [] {
      FoldIsLastWord(s[..|s| - 1], key);
    }
  }

  lemma {:induction false} LastWordConcat(a: seq<IndexLog>, b: seq<IndexLog>, key: string)
    ensures LastWord(a + b, key) == (if LastWord(b, key).Some? then LastWord(b, key) else LastWord(a, key))
    decreases |b|
  {
    if b == [] {
      assert a + b == a;
    } else {
      assert (a + b)[..|a + b| - 1] == a + b[..|b| - 1];
      LastWordConcat(a, b[..|b| - 1], key);
    }
  }

  /**
   * `l` settles that a key is live, or gone: it is a log of that key that says so, and every log of it later on the
   * chain is a close that left the plan indexed.
   */
  ghost predicate Settles(logs: seq<IndexLog>, l: IndexLog, key: string, live: bool) {
    && l in logs && l.key == key
    && (match l.event
        case Deposited => live
        case PlanIndexed => live == l.active
        case PlanClosed => l.unindexed && !live)
    && forall m :: m in logs && m.key == key
                   && (m.blockNumber > l.blockNumber || (m.blockNumber == l.blockNumber && m.logIndex > l.logIndex))
                   ==> m.event == PlanClosed && !m.unindexed
  }

  lemma LastSettles(s: seq<IndexLog>, key: string, l: IndexLog, live: bool)
    requires StrictlySorted(s) && s != []
    requires s[|s| - 1].key == key && (s[|s| - 1].event != PlanClosed || s[|s| - 1].unindexed)
    ensures Settles(s, l, key, live) <==> l == s[|s| - 1] && live == Says(l)
  {
    var last := s[|s| - 1];
    if l in s {
      var i :| 0 <= i < |s| && s[i] == l;
      assert i < |s| - 1 ==> Ahead(s[i], last);
    }
  }

  lemma SilentLastSettles(s: seq<IndexLog>, key: string, l: IndexLog, live: bool)
    requires s != []
    requires s[|s| - 1].key != key || (s[|s| - 1].event == PlanClosed && !s[|s| - 1].unindexed)
    ensures Settles(s, l, key, live) <==> Settles(s[..|s| - 1], l, key, live)
  {
    assert s == s[..|s| - 1] + [s[|s| - 1]];
    assert forall m :: m in s <==> m in s[..|s| - 1] || m == s[|s| - 1];
  }

  lemma {:induction false} LastWordSettles(s: seq<IndexLog>, key: string, live: bool)
    requires StrictlySorted(s)
    ensures LastWord(s, key) == Some(live) <==> exists l :: Settles(s, l, key, live)
    decreases |s|
  {
    if s != [] {
      var last := s[|s| - 1];
      if last.key == key && (last.event != PlanClosed || last.unindexed) {
        forall l ensures Settles(s, l, key, live) <==> l == last && live == Says(l) {
          LastSettles(s, key, l, live);
        }
      } else {
        var init := s[..|s| - 1];
        LastWordSettles(init, key, live);
        forall l ensures Settles(s, l, key, live) <==> Settles(init, l, key, live) {
          SilentLastSettles(s, key, l, live);
        }
        assert LastWord(s, key) == LastWord(init, key);
      }
    }
  }

  /** Whatever the arrival order: the map says live, or gone, of a key exactly when some log settles it so. */
  lemma LivenessMeans(logs: seq<IndexLog>, key: string, live: bool)
    requires DistinctPositions(logs)
    ensures Get(Fold(Sorted(logs)), key) == Some(live) <==> exists l :: Settles(logs, l, key, live)
  {
    SortedSorts(logs);
    SortedPermutes(logs);
    SameMembers(Sorted(logs), logs);
    FoldIsLastWord(Sorted(logs), key);
    LastWordSettles(Sorted(logs), key, live);
    forall l ensures Settles(logs, l, key, live) <==> Settles(Sorted(logs), l, key, live) {
    }
  }

  function OfKey(s: seq<IndexLog>, key: string): seq<IndexLog> {
    if s == [] then [] else (if s[0].key == key then [s[0]] else []) + OfKey(s[1..], key)
  }

  /** Weakly sorted: the insertion sort's own invariant, with or without ties. */
  predicate WeaklySorted(s: seq<IndexLog>) { forall i, j :: 0 <= i < j < |s| ==> NotAfter(s[i], s[j]) }

  lemma {:induction false} InsertSortsWeakly(l: IndexLog, s: seq<IndexLog>)
    requires WeaklySorted(s)
    ensures WeaklySorted(Insert(l, s))
    decreases |s|
  {
    if s != [] && !NotAfter(l, s[0]) {
      InsertSortsWeakly(l, s[1..]);
      InsertMembers(l, s[1..]);
      var rest := Insert(l, s[1..]);
      forall j | 0 <= j < |rest| ensures NotAfter(s[0], rest[j]) {
        assert rest[j] in rest;
      }
    }
  }

  lemma {:induction false} SortedSortsWeakly(logs: seq<IndexLog>)
    ensures WeaklySorted(Sorted(logs))
    decreases |logs|
  {
    if logs != [] {
      SortedSortsWeakly(logs[1..]);
      InsertSortsWeakly(logs[0], Sorted(logs[1..]));
    }
  }

  lemma {:induction false} OfKeyMembers(s: seq<IndexLog>, key: string)
    ensures forall l :: l in OfKey(s, key) ==> l in s
    decreases |s|
  {
    if s != [] {
      OfKeyMembers(s[1..], key);
    }
  }

  lemma {:induction false} OfKeyInsert(l: IndexLog, s: seq<IndexLog>, key: string)
    requires WeaklySorted(s)
    ensures OfKey(Insert(l, s), key) == if l.key == key then Insert(l, OfKey(s, key)) else OfKey(s, key)
    decreases |s|
  {
    if s == [] {
    } else if NotAfter(l, s[0]) {
      assert Insert(l, s)[1..] == s;
      var mine := OfKey(s, key);
      OfKeyMembers(s, key);
      if mine != [] {
        assert mine[0] in s;
      }
    } else {
      OfKeyInsert(l, s[1..], key);
      var rest := OfKey(s[1..], key);
      assert Insert(l, s)[0] == s[0] && Insert(l, s)[1..] == Insert(l, s[1..]);
      if s[0].key == key {
        assert OfKey(s, key) == [s[0]] + rest && OfKey(s, key)[1..] == rest;
      } else {
        assert OfKey(s, key) == rest;
        assert OfKey(Insert(l, s), key) == OfKey(Insert(l, s[1..]), key);
      }
    }
  }

  lemma {:induction false} OfKeySorted(logs: seq<IndexLog>, key: string)
    ensures OfKey(Sorted(logs), key) == Sorted(OfKey(logs, key))
    decreases |logs|
  {
    if logs != [] {
      var rest := OfKey(logs[1..], key);
      OfKeySorted(logs[1..], key);
      SortedSortsWeakly(logs[1..]);
      OfKeyInsert(logs[0], Sorted(logs[1..]), key);
      if logs[0].key == key {
        var mine := OfKey(logs, key);
        assert mine == [logs[0]] + rest;
        assert mine[0] == logs[0] && mine[1..] == rest;
      } else {
        assert OfKey(logs, key) == rest;
      }
    }
  }

  lemma {:induction false} OfKeyConcat(a: seq<IndexLog>, b: seq<IndexLog>, key: string)
    ensures OfKey(a + b, key) == OfKey(a, key) + OfKey(b, key)
    decreases |a|
  {
    if a == [] {
      assert a + b == b;
    } else {
      var head := if a[0].key == key then [a[0]] else [];
      assert (a + b)[0] == a[0] && (a + b)[1..] == a[1..] + b;
      OfKeyConcat(a[1..], b, key);
      assert head + (OfKey(a[1..], key) + OfKey(b, key)) == head + OfKey(a[1..], key) + OfKey(b, key);
    }
  }

  lemma {:induction false} LastWordOfKey(s: seq<IndexLog>, key: string)
    ensures LastWord(OfKey(s, key), key) == LastWord(s, key)
    decreases |s|
  {
    if s != [] {
      var init, last := s[..|s| - 1], [s[|s| - 1]];
      assert s == init + last;
      OfKeyConcat(init, last, key);
      LastWordOfKey(init, key);
      LastWordConcat(OfKey(init, key), OfKey(last, key), key);
      assert OfKey(last, key) == if last[0].key == key then last else [];
      assert last[..0] == [];
    }
  }

  /** What the fold says of a key depends on that key's logs alone. */
  lemma KeysDoNotInterfere(logs: seq<IndexLog>, key: string)
    ensures Get(Fold(Sorted(logs)), key) == Get(Fold(Sorted(OfKey(logs, key))), key)
  {
    FoldIsLastWord(Sorted(logs), key);
    FoldIsLastWord(Sorted(OfKey(logs, key)), key);
    OfKeySorted(logs, key);
    LastWordOfKey(Sorted(logs), key);
  }

  /** One key, one plan: the key is the vault, up to hex case, and the plan id. */
  lemma PlanKeyIdentifies(vault: string, planId: nat, vault': string, planId': nat)
    requires IsWord(vault) && IsWord(vault')
    ensures PlanKey(vault, planId) == PlanKey(vault', planId') <==> Lower(vault) == Lower(vault') && planId == planId'
  {
    LowerStaysWord(vault);
    LowerStaysWord(vault');
    if PlanKey(vault, planId) == PlanKey(vault', planId') {
      SplitAtSeparator(Lower(vault), Decimal(planId), Lower(vault'), Decimal(planId'), ':');
      DecimalInjective(planId, planId');
    }
  }

  // ---------------------------------------------------------------- the listed rows

  datatype Position = Position(key: string, usdgIdle: nat, boostValue: nat, stockAccrued: nat)

  predicate LooksEmpty(p: Position) { p.usdgIdle + p.boostValue == 0 && p.stockAccrued == 0 }

  /** `index` is the liveness of the key, `None` while the scan is loading or when no log says anything. */
  predicate IsHiddenPlan(p: Position, index: Option<bool>, removedThisSession: bool) {
    LooksEmpty(p) && (index == Some(false) || removedThisSession)
  }

  /** A row is hidden exactly when it shows nothing and either the index says gone or it was removed this session. */
  lemma HiddenExactly(p: Position, index: Option<bool>, removedThisSession: bool)
    ensures IsHiddenPlan(p, index, removedThisSession) <==>
              && p.usdgIdle == 0 && p.boostValue == 0 && p.stockAccrued == 0
              && ((index.Some? && !index.value) || removedThisSession)
  {
  }

  function IndexOf(index: Option<map<string, bool>>, key: string): Option<bool> {
    if index.None? then None else Get(index.value, key)
  }

  function VisiblePositions(all: seq<Position>, index: Option<map<string, bool>>, hidden: set<string>): seq<Position> {
    if all == [] then []
    else
      (if IsHiddenPlan(all[0], IndexOf(index, all[0].key), all[0].key in hidden) then [] else [all[0]])
      + VisiblePositions(all[1..], index, hidden)
  }

  /**
   * A row with any USDG or stock is listed whatever the index and the session say; nothing is listed that was not
   * given.
   */
  lemma {:induction false} ValueIsNeverHidden(all: seq<Position>, index: Option<map<string, bool>>, hidden: set<string>,
                                              p: Position)
    requires p in all && (p.usdgIdle > 0 || p.boostValue > 0 || p.stockAccrued > 0)
    ensures multiset(VisiblePositions(all, index, hidden))[p] == multiset(all)[p] > 0
    decreases |all|
  {
    VisibleCount(all, index, hidden, p);
  }

  /** Each row is kept or dropped on its own, and the rows kept stay in their order. */
  lemma {:induction false} VisibleRowByRow(a: seq<Position>, b: seq<Position>, p: Position,
                                           index: Option<map<string, bool>>, hidden: set<string>)
    ensures VisiblePositions([], index, hidden) == []
    ensures VisiblePositions([p], index, hidden)
         == if IsHiddenPlan(p, IndexOf(index, p.key), p.key in hidden) then [] else [p]
    ensures VisiblePositions(a + b, index, hidden)
         == VisiblePositions(a, index, hidden) + VisiblePositions(b, index, hidden)
    decreases |a|
  {
    if a == [] {
      assert a + b == b;
    } else {
      assert (a + b)[0] == a[0] && (a + b)[1..] == a[1..] + b;
      VisibleRowByRow(a[1..], b, p, index, hidden);
      var first := if IsHiddenPlan(a[0], IndexOf(index, a[0].key), a[0].key in hidden) then [] else [a[0]];
      var rest, more := VisiblePositions(a[1..], index, hidden), VisiblePositions(b, index, hidden);
      assert first + (rest + more) == first + rest + more;
    }
  }

  lemma CountOfMore(first: Position, rest: seq<Position>, p: Position)
    ensures multiset([first] + rest)[p] == (if first == p then 1 else 0) + multiset(rest)[p]
  {
    assert multiset([first] + rest) == multiset{first} + multiset(rest);
  }

  lemma {:induction false} VisibleCount(all: seq<Position>, index: Option<map<string, bool>>, hidden: set<string>,
                                        p: Position)
    ensures multiset(VisiblePositions(all, index, hidden))[p]
         == if IsHiddenPlan(p, IndexOf(index, p.key), p.key in hidden) then 0 else multiset(all)[p]
    decreases |all|
  {
    if all != [] {
      VisibleCount(all[1..], index, hidden, p);
      CountOfMore(all[0], all[1..], p);
      CountOfMore(all[0], VisiblePositions(all[1..], index, hidden), p);
      assert all == [all[0]] + all[1..];
      assert [] + VisiblePositions(all[1..], index, hidden) == VisiblePositions(all[1..], index, hidden);
    }
  }
}
