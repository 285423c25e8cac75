/**
 * What `readBestRoute` promises: sound candidates, no path twice, the lexicographic best, and optimality over the
 * router.
 */
module RouteTheorems {
  import opened Wrappers
  import opened TxTypes
  import opened Text
  import opened BestRoute

  // ---------------------------------------------------------------- keys identify paths

  predicate HopOk(h: RouteHop) { IsWord(h.tokenIn) && IsWord(h.tokenOut) && IsWord(h.extra) }

  predicate PathOk(path: seq<RouteHop>) { forall i :: 0 <= i < |path| ==> HopOk(path[i]) }

  /** A hop up to the hex casing of its addresses and its pool encoding. */
  function Canon(h: RouteHop): RouteHop {
    h.(tokenIn := Lower(h.tokenIn), tokenOut := Lower(h.tokenOut), extra := Lower(h.extra))
  }

  function CanonPath(path: seq<RouteHop>): seq<RouteHop> {
    seq(|path|, i requires 0 <= i < |path| => Canon(path[i]))
  }

  lemma HopKeyIsFree(h: RouteHop)
    requires HopOk(h)
    ensures Free(HopKey(h), '|')
  {
    DecimalIsWord(h.protocol);
    DecimalIsWord(h.fee);
    LowerStaysWord(h.tokenIn);
    LowerStaysWord(h.tokenOut);
    LowerStaysWord(h.extra);
  }

  lemma HopKeyInjective(a: RouteHop, b: RouteHop)
    requires HopOk(a) && HopOk(b) && HopKey(a) == HopKey(b)
    ensures Canon(a) == Canon(b)
  {
    forall h | h in {a, b} ensures IsWord(Decimal(h.protocol)) && IsWord(Decimal(h.fee)) {
      DecimalIsWord(h.protocol);
      DecimalIsWord(h.fee);
    }
    forall h | h in {a, b} ensures IsWord(Lower(h.tokenIn)) && IsWord(Lower(h.tokenOut)) {
      LowerStaysWord(h.tokenIn);
      LowerStaysWord(h.tokenOut);
    }
    var a3, b3 := Decimal(a.fee) + [':'] + Lower(a.extra), Decimal(b.fee) + [':'] + Lower(b.extra);
    var a2, b2 := Lower(a.tokenOut) + [':'] + a3, Lower(b.tokenOut) + [':'] + b3;
    var a1, b1 := Lower(a.tokenIn) + [':'] + a2, Lower(b.tokenIn) + [':'] + b2;
    SplitAtSeparator(Decimal(a.protocol), a1, Decimal(b.protocol), b1, ':');
    SplitAtSeparator(Lower(a.tokenIn), a2, Lower(b.tokenIn), b2, ':');
    SplitAtSeparator(Lower(a.tokenOut), a3, Lower(b.tokenOut), b3, ':');
    SplitAtSeparator(Decimal(a.fee), Lower(a.extra), Decimal(b.fee), Lower(b.extra), ':');
    DecimalInjective(a.protocol, b.protocol);
    DecimalInjective(a.fee, b.fee);
  }

  /** Two paths have the same key exactly when they are the same hops up to hex case. */
  lemma {:induction false} PathKeyIdentifies(p: seq<RouteHop>, q: seq<RouteHop>)
    requires PathOk(p) && PathOk(q)
    ensures PathKey(p) == PathKey(q) <==> CanonPath(p) == CanonPath(q)
    decreases |p|
  {
    if CanonPath(p) == CanonPath(q) {
      SameCanonSameKey(p, q);
    } else if PathKey(p) == PathKey(q) {
      SameKeySameCanon(p, q);
    }
  }

  lemma {:induction false} SameCanonSameKey(p: seq<RouteHop>, q: seq<RouteHop>)
    requires CanonPath(p) == CanonPath(q)
    ensures PathKey(p) == PathKey(q)
    decreases |p|
  {
    assert |p| == |CanonPath(p)| == |CanonPath(q)| == |q|;
    if p != [] {
      assert CanonPath(p)[0] == CanonPath(q)[0];
      assert HopKey(p[0]) == HopKey(q[0]);
      forall i | 0 <= i < |p| - 1 ensures Canon(p[1..][i]) == Canon(q[1..][i]) {
        assert CanonPath(p)[i + 1] == CanonPath(q)[i + 1];
      }
      assert CanonPath(p[1..]) == CanonPath(q[1..]);
      SameCanonSameKey(p[1..], q[1..]);
    }
  }

  lemma KeyIsNotEmpty(p: seq<RouteHop>)
    requires p != []
    ensures PathKey(p) != ""
  {
    assert HopKey(p[0])[|Decimal(p[0].protocol)|] == ':';
  }

  lemma CanonCons(p: seq<RouteHop>, q: seq<RouteHop>)
    requires p != [] && q != [] && Canon(p[0]) == Canon(q[0]) && CanonPath(p[1..]) == CanonPath(q[1..])
    ensures CanonPath(p) == CanonPath(q)
  {
    assert |p| - 1 == |CanonPath(p[1..])| == |CanonPath(q[1..])| == |q| - 1;
    forall i | 0 <= i < |p| ensures Canon(p[i]) == Canon(q[i]) {
      if i > 0 {
        assert CanonPath(p[1..])[i - 1] == CanonPath(q[1..])[i - 1];
      }
    }
  }

  lemma {:induction false} SameKeySameCanon(p: seq<RouteHop>, q: seq<RouteHop>)
    requires PathOk(p) && PathOk(q) && PathKey(p) == PathKey(q)
    ensures CanonPath(p) == CanonPath(q)
    decreases |p|
  {
    if p != [] { KeyIsNotEmpty(p); }
    if q != [] { KeyIsNotEmpty(q); }
    if p != [] {
      HopKeyIsFree(p[0]);
      HopKeyIsFree(q[0]);
      SeparatorCount(p, q);
      if |p| > 1 {
        SplitAtSeparator(HopKey(p[0]), PathKey(p[1..]), HopKey(q[0]), PathKey(q[1..]), '|');
        SameKeySameCanon(p[1..], q[1..]);
      }
      HopKeyInjective(p[0], q[0]);
      CanonCons(p, q);
    }
  }

  /** One of two equal keys has a separator exactly when the other has. */
  lemma SeparatorCount(p: seq<RouteHop>, q: seq<RouteHop>)
    requires p != [] && q != [] && PathKey(p) == PathKey(q) && Free(HopKey(p[0]), '|') && Free(HopKey(q[0]), '|')
    ensures |p| == 1 <==> |q| == 1
  {
    if |p| > 1 {
      assert PathKey(p)[|HopKey(p[0])|] == '|';
    }
    if |q| > 1 {
      assert PathKey(q)[|HopKey(q[0])|] == '|';
    }
  }

  // ---------------------------------------------------------------- what is routable

  predicate NoRepeat(s: seq<string>) { forall i, j :: 0 <= i < j < |s| ==> s[i] != s[j] }

  lemma NoRepeatOneMore(init: seq<string>, last: string)
    ensures NoRepeat(init + [last]) <==> NoRepeat(init) && last !in init
  {
    var s := init + [last];
    assert forall i :: 0 <= i < |init| ==> s[i] == init[i];
    if last in init {
      var i :| 0 <= i < |init| && init[i] == last;
      assert s[i] == s[|init|];
    }
  }

  lemma {:induction false} SetSize(s: seq<string>)
    ensures |SetOf(s)| <= |s| && (|SetOf(s)| == |s| <==> NoRepeat(s))
    decreases |s|
  {
    if s != [] {
      var init, last := s[..|s| - 1], s[|s| - 1];
      assert s == init + [last];
      SetSize(init);
      NoRepeatOneMore(init, last);
      assert SetOf(s) == SetOf(init) + {last};
    }
  }

  lemma RoutableMeans(path: seq<RouteHop>, from: Address, to: Address)
    ensures IsRoutable(path, from, to) <==> IsChained(path, from, to) && NoRepeat(LowerAll(PathTokens(path)))
  {
    if IsChained(path, from, to) {
      SetSize(LowerAll(PathTokens(path)));
    }
  }

  /** One to three hops, each going on from where the last one ended, from one token to the other, none met twice. */
  predicate GoesOnce(path: seq<RouteHop>, from: Address, to: Address) {
    && 1 <= |path| <= 3
    && Lower(path[0].tokenIn) == Lower(from) && Lower(path[|path| - 1].tokenOut) == Lower(to)
    && (forall i :: 0 < i < |path| ==> Lower(path[i - 1].tokenOut) == Lower(path[i].tokenIn))
    && (forall i :: 0 <= i < |path| ==> Lower(path[i].tokenOut) != Lower(path[0].tokenIn))
    && (forall i, j :: 0 <= i < j < |path| ==> Lower(path[i].tokenOut) != Lower(path[j].tokenOut))
  }

  /** The tokens of a path: where it starts, then where each hop ends. */
  predicate VisitsInOrder(path: seq<RouteHop>, tokens: seq<Address>) {
    |path| > 0 && |tokens| == |path| + 1 && tokens[0] == path[0].tokenIn &&
    forall i :: 0 <= i < |path| ==> tokens[i + 1] == path[i].tokenOut
  }

  lemma RoutableGoesOnce(path: seq<RouteHop>, from: Address, to: Address)
    ensures IsRoutable(path, from, to) <==> GoesOnce(path, from, to)
  {
    RoutableMeans(path, from, to);
    if 1 <= |path| <= 3 {
      var all := LowerAll(PathTokens(path));
      assert |all| == |path| + 1 && all[0] == Lower(path[0].tokenIn);
      assert forall i :: 0 <= i < |path| ==> all[i + 1] == Lower(path[i].tokenOut);
      if NoRepeat(all) {
        forall i, j | 0 <= i < j < |path| ensures Lower(path[i].tokenOut) != Lower(path[j].tokenOut) {
          assert all[i + 1] != all[j + 1];
        }
        forall i | 0 <= i < |path| ensures Lower(path[i].tokenOut) != Lower(path[0].tokenIn) {
          assert all[0] != all[i + 1];
        }
      } else {
        var i, j :| 0 <= i < j < |all| && all[i] == all[j];
        assert all[j] == Lower(path[j - 1].tokenOut) && (i > 0 ==> all[i] == Lower(path[i - 1].tokenOut));
      }
    }
  }

  // ---------------------------------------------------------------- soundness and dedupe

  lemma {:induction false} JoinKeys(first: seq<RouteHop>, tails: seq<seq<RouteHop>>, seen: set<string>, from: Address,
                                    to: Address)
    ensures var j := Join(first, tails, seen, from, to);
            Keys(j) !! seen && forall a, b :: 0 <= a < b < |j| ==> PathKey(j[a]) != PathKey(j[b])
    decreases |tails|
  {
    if tails != [] {
      var path := first + tails[0];
      if Joins(path, seen, from, to) {
        var rest := Join(first, tails[1..], seen + {PathKey(path)}, from, to);
        JoinKeys(first, tails[1..], seen + {PathKey(path)}, from, to);
        forall b | 0 <= b < |rest| ensures PathKey(rest[b]) != PathKey(path) {
          assert rest[b] in rest;
          assert PathKey(rest[b]) in Keys(rest);
        }
      } else {
        JoinKeys(first, tails[1..], seen, from, to);
      }
    }
  }

  lemma {:induction false} ComposedKeys(stones: seq<Stone>, seen: set<string>, from: Address, to: Address)
    ensures var c := Composed(stones, seen, from, to);
            Keys(c) !! seen && forall a, b :: 0 <= a < b < |c| ==> PathKey(c[a]) != PathKey(c[b])
    decreases |stones|
  {
    if stones != [] {
      if !Usable(stones[0]) {
        ComposedKeys(stones[1..], seen, from, to);
      } else {
        var here := Join(stones[0].first.value.path, Tails(stones[0]), seen, from, to);
        var rest := Composed(stones[1..], seen + Keys(here), from, to);
        JoinKeys(stones[0].first.value.path, Tails(stones[0]), seen, from, to);
        ComposedKeys(stones[1..], seen + Keys(here), from, to);
        var c := here + rest;
        forall a, b | 0 <= a < b < |c| ensures PathKey(c[a]) != PathKey(c[b]) {
          if a < |here| <= b {
            assert here[a] in here && rest[b - |here|] in rest;
            assert PathKey(here[a]) in Keys(here) && PathKey(rest[b - |here|]) in Keys(rest);
          }
        }
        forall p | p in c ensures PathKey(p) !in seen {
          assert PathKey(p) in Keys(here) || PathKey(p) in Keys(rest);
        }
      }
    }
  }

  /**
   * The confirmed candidates are some of the composed paths, in their order, with what `quotePath` answered for each.
   */
  lemma {:induction false} ConfirmedFrom(paths: seq<seq<RouteHop>>, outs: seq<Read<nat>>, k: nat) returns (i: nat)
    requires |paths| == |outs| && forall j :: 0 <= j < |paths| ==> paths[j] != []
    requires k < |ConfirmedCandidates(paths, outs)|
    ensures i < |paths| && outs[i].Answer? && outs[i].value > 0
    ensures ConfirmedCandidates(paths, outs)[k] == Candidate(outs[i].value, paths[i], PathTokens(paths[i]))
    ensures i >= k
    decreases |paths|
  {
    if outs[0].Answer? && outs[0].value > 0 {
      if k == 0 {
        i := 0;
      } else {
        var i' := ConfirmedFrom(paths[1..], outs[1..], k - 1);
        i := i' + 1;
      }
    } else {
      var i' := ConfirmedFrom(paths[1..], outs[1..], k);
      i := i' + 1;
    }
  }

  predicate DistinctKeys(cs: seq<Candidate>) {
    forall a, b :: 0 <= a < b < |cs| ==> PathKey(cs[a].path) != PathKey(cs[b].path)
  }

  lemma {:induction false} ConfirmedDistinct(paths: seq<seq<RouteHop>>, outs: seq<Read<nat>>)
    requires |paths| == |outs| && forall j :: 0 <= j < |paths| ==> paths[j] != []
    requires forall a, b :: 0 <= a < b < |paths| ==> PathKey(paths[a]) != PathKey(paths[b])
    ensures DistinctKeys(ConfirmedCandidates(paths, outs))
    decreases |paths|
  {
    if paths != [] {
      assert forall j :: 0 <= j < |paths[1..]| ==> paths[1..][j] == paths[j + 1];
      ConfirmedDistinct(paths[1..], outs[1..]);
      var rest := ConfirmedCandidates(paths[1..], outs[1..]);
      assert DistinctKeys(rest);
      forall b | 0 <= b < |rest| ensures PathKey(rest[b].path) != PathKey(paths[0]) {
        var i := ConfirmedFrom(paths[1..], outs[1..], b);
        assert paths[1..][i] == paths[i + 1];
      }
      var cs := ConfirmedCandidates(paths, outs);
      if outs[0].Answer? && outs[0].value > 0 {
        assert cs[0].path == paths[0];
        forall a, b | 0 <= a < b < |cs| ensures PathKey(cs[a].path) != PathKey(cs[b].path) {
          assert cs[b] == rest[b - 1];
          if a > 0 {
            assert cs[a] == rest[a - 1];
            assert PathKey(rest[a - 1].path) != PathKey(rest[b - 1].path);
          } else {
            assert PathKey(rest[b - 1].path) != PathKey(paths[0]);
          }
        }
      } else {
        assert cs == rest;
      }
    }
  }

  /** A confirmed candidate is one of the composed paths, asked end to end. */
  lemma ConfirmedAreSound(node: Reads, paths: seq<seq<RouteHop>>, tokenIn: Address, tokenOut: Address, amountIn: nat,
                          k: nat)
    requires forall j :: 0 <= j < |paths| ==> paths[j] != [] && IsRoutable(paths[j], tokenIn, tokenOut)
    requires k < |ConfirmedCandidates(paths, Outs(node, paths, amountIn))|
    ensures var c := ConfirmedCandidates(paths, Outs(node, paths, amountIn))[k];
            GoesOnce(c.path, tokenIn, tokenOut) && VisitsInOrder(c.path, c.tokens) && c.amountOut > 0 &&
            node.quotePath(c.path, amountIn) == Answer(c.amountOut)
  {
    var i := ConfirmedFrom(paths, Outs(node, paths, amountIn), k);
    RoutableGoesOnce(paths[i], tokenIn, tokenOut);
  }

  /** Every candidate is a chained path of one to three hops with no token twice, quoted above zero. */
  lemma CandidatesAreSound(node: Reads, usdg: Address, tokenIn: Address, tokenOut: Address, amountIn: nat, k: nat)
    requires k < |Candidates(node, usdg, tokenIn, tokenOut, amountIn)|
    ensures var c := Candidates(node, usdg, tokenIn, tokenOut, amountIn)[k];
            GoesOnce(c.path, tokenIn, tokenOut) && VisitsInOrder(c.path, c.tokens) && c.amountOut > 0 &&
            (node.quotePath(c.path, amountIn) == Answer(c.amountOut) ||
             (k == 0 && node.quote(tokenIn, tokenOut, amountIn) == Answer(Quote(c.amountOut, c.path))))
  {
    var own := AsOption(node.quote(tokenIn, tokenOut, amountIn));
    var n := |OwnCandidates(own, tokenIn, tokenOut)|;
    if k >= n {
      var paths := ComposedPaths(node, usdg, tokenIn, tokenOut, amountIn);
      ComposedAreRoutable(StonesOf(node, Bases(usdg, tokenIn, tokenOut), tokenIn, tokenOut, amountIn),
                          OwnKeys(own, tokenIn, tokenOut), tokenIn, tokenOut);
      assert forall j :: 0 <= j < |paths| ==> paths[j] in paths;
      ConfirmedAreSound(node, paths, tokenIn, tokenOut, amountIn, k - n);
    } else {
      RoutableGoesOnce(own.value.path, tokenIn, tokenOut);
    }
  }

  lemma OwnFirstDistinct(own: seq<Candidate>, confirmed: seq<Candidate>)
    requires |own| <= 1 && DistinctKeys(confirmed)
    requires own != [] ==> forall b :: 0 <= b < |confirmed| ==> PathKey(confirmed[b].path) != PathKey(own[0].path)
    ensures DistinctKeys(own + confirmed)
  {
    var cs := own + confirmed;
    forall a, b | 0 <= a < b < |cs| ensures PathKey(cs[a].path) != PathKey(cs[b].path) {
      assert cs[b] == confirmed[b - |own|];
      if a >= |own| {
        assert cs[a] == confirmed[a - |own|];
      } else {
        assert cs[a] == own[0];
      }
    }
  }

  lemma CandidateKeysAreDistinct(node: Reads, usdg: Address, tokenIn: Address, tokenOut: Address, amountIn: nat)
    ensures DistinctKeys(Candidates(node, usdg, tokenIn, tokenOut, amountIn))
  {
    var own := AsOption(node.quote(tokenIn, tokenOut, amountIn));
    var seen := OwnKeys(own, tokenIn, tokenOut);
    var stones := StonesOf(node, Bases(usdg, tokenIn, tokenOut), tokenIn, tokenOut, amountIn);
    var paths := ComposedPaths(node, usdg, tokenIn, tokenOut, amountIn);
    var outs := Outs(node, paths, amountIn);
    ComposedAreRoutable(stones, seen, tokenIn, tokenOut);
    assert forall j :: 0 <= j < |paths| ==> paths[j] in paths;
    ComposedKeys(stones, seen, tokenIn, tokenOut);
    ConfirmedDistinct(paths, outs);
    var confirmed := ConfirmedCandidates(paths, outs);
    forall b | 0 <= b < |confirmed| ensures PathKey(confirmed[b].path) !in seen {
      var i := ConfirmedFrom(paths, outs, b);
      assert paths[i] in paths && PathKey(paths[i]) in Keys(paths);
    }
    OwnFirstDistinct(OwnCandidates(own, tokenIn, tokenOut), confirmed);
  }

  /** No two candidates are the same path up to hex case. */
  lemma NoPathTwice(node: Reads, usdg: Address, tokenIn: Address, tokenOut: Address, amountIn: nat, a: nat, b: nat)
    requires a < b < |Candidates(node, usdg, tokenIn, tokenOut, amountIn)|
    ensures var cs := Candidates(node, usdg, tokenIn, tokenOut, amountIn);
            CanonPath(cs[a].path) != CanonPath(cs[b].path)
  {
    CandidateKeysAreDistinct(node, usdg, tokenIn, tokenOut, amountIn);
    var cs := Candidates(node, usdg, tokenIn, tokenOut, amountIn);
    if CanonPath(cs[a].path) == CanonPath(cs[b].path) {
      SameCanonSameKey(cs[a].path, cs[b].path);
    }
  }

  // ---------------------------------------------------------------- in what order

  /** Joined to a stone's first leg: the router's onward pick first, then each approved direct hop, as listed. */
  lemma TailsInOrder(stone: Stone, i: nat)
    requires i < |Tails(stone)|
    ensures |Tails(stone)| == |stone.hops| + (if stone.onward.Some? then 1 else 0)
    ensures Tails(stone)[i] == if stone.onward.None? then [stone.hops[i]]
                               else if i == 0 then stone.onward.value.path else [stone.hops[i - 1]]
  {
  }

  lemma TakingThenDropping<T>(s: seq<T>, k: nat)
    requires 0 < k <= |s|
    ensures s[..k][1..] == s[1..][..k - 1] && s[..k][0] == s[0]
  {
  }

  /** What the first tails give stands in front of what the rest give. */
  lemma {:induction false} JoinsInOrder(first: seq<RouteHop>, tails: seq<seq<RouteHop>>, k: nat, seen: set<string>,
                                        from: Address, to: Address)
    requires k <= |tails|
    ensures Join(first, tails[..k], seen, from, to) <= Join(first, tails, seen, from, to)
    decreases |tails|
  {
    if k > 0 {
      var path := first + tails[0];
      TakingThenDropping(tails, k);
      if Joins(path, seen, from, to) {
        JoinsInOrder(first, tails[1..], k - 1, seen + {PathKey(path)}, from, to);
      } else {
        JoinsInOrder(first, tails[1..], k - 1, seen, from, to);
      }
    }
  }

  /** And so do the paths once confirmed; of two equally good, equally long ones the one composed first is taken. */
  lemma {:induction false} ConfirmedInOrder(paths: seq<seq<RouteHop>>, outs: seq<Read<nat>>, k: nat)
    requires |paths| == |outs| && k <= |paths| && forall j :: 0 <= j < |paths| ==> paths[j] != []
    ensures ConfirmedCandidates(paths[..k], outs[..k]) <= ConfirmedCandidates(paths, outs)
    decreases |paths|
  {
    if k > 0 {
      TakingThenDropping(paths, k);
      TakingThenDropping(outs, k);
      ConfirmedInOrder(paths[1..], outs[1..], k - 1);
    }
  }

  // ---------------------------------------------------------------- ties

  lemma OwnPickIsFirst(node: Reads, usdg: Address, tokenIn: Address, tokenOut: Address, amountIn: nat)
    requires node.quote(tokenIn, tokenOut, amountIn).Answer?
    requires var own := node.quote(tokenIn, tokenOut, amountIn).value;
             own.amountOut > 0 && GoesOnce(own.path, tokenIn, tokenOut)
    ensures var cs, own := Candidates(node, usdg, tokenIn, tokenOut, amountIn),
                           node.quote(tokenIn, tokenOut, amountIn).value;
            cs != [] && cs[0].amountOut == own.amountOut && cs[0].path == own.path
  {
    RoutableGoesOnce(node.quote(tokenIn, tokenOut, amountIn).value.path, tokenIn, tokenOut);
  }

  /**
   * The highest output wins; on a tie the shorter path; then the router's own pick: whenever that is a path the router
   * would take, the answer is it, or delivers more, or as much over fewer hops.
   */
  lemma OwnPickKeepsFullTies(node: Reads, usdg: Address, tokenIn: Address, tokenOut: Address, amountIn: nat,
                             best: Option<Candidate>)
    requires IsBest(best, Candidates(node, usdg, tokenIn, tokenOut, amountIn))
    requires node.quote(tokenIn, tokenOut, amountIn).Answer?
    requires var own := node.quote(tokenIn, tokenOut, amountIn).value;
             own.amountOut > 0 && GoesOnce(own.path, tokenIn, tokenOut)
    ensures best.Some?
    ensures var own := node.quote(tokenIn, tokenOut, amountIn).value;
            || (best.value.path == own.path && best.value.amountOut == own.amountOut)
            || best.value.amountOut > own.amountOut
            || (best.value.amountOut == own.amountOut && |best.value.path| < |own.path|)
  {
    OwnPickIsFirst(node, usdg, tokenIn, tokenOut, amountIn);
  }
}
