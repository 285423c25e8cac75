/**
 * `readBestRoute` misses nothing: against the router's documented search, its pick delivers at least as much as every
 * simple approved path whose stepping stones are USDG and WETH.
 */
module RouteOptimality {
  import opened Wrappers
  import opened TxTypes
  import opened Text
  import opened BestRoute
  import opened RouteTheorems

  // ---------------------------------------------------------------- the router

  /** The approved hops, and what each delivers for an input now (0 when it cannot fill it). */
  datatype Net = Net(approved: seq<RouteHop>, weth: Address, out: (RouteHop, nat) -> nat)

  function PathOut(net: Net, path: seq<RouteHop>, x: nat): nat {
    if path == [] then x else PathOut(net, path[1..], net.out(path[0], x))
  }

  predicate Connects(h: RouteHop, a: Address, b: Address) { SameAddr(h.tokenIn, a) && SameAddr(h.tokenOut, b) }

  predicate ApprovedHop(net: Net, h: RouteHop, a: Address, b: Address) { h in net.approved && Connects(h, a, b) }

  predicate ApprovedPath(net: Net, path: seq<RouteHop>) {
    PathOk(path) && forall i :: 0 <= i < |path| ==> path[i] in net.approved
  }

  /** What the router's own search tries: every direct hop and, when neither end is WETH, every two hops through it. */
  predicate InSearch(net: Net, p: seq<RouteHop>, from: Address, to: Address) {
    || (|p| == 1 && ApprovedHop(net, p[0], from, to))
    || (|p| == 2 && !SameAddr(from, net.weth) && !SameAddr(to, net.weth)
        && ApprovedHop(net, p[0], from, net.weth) && ApprovedHop(net, p[1], net.weth, to))
  }

  /** More in never gives less out, nothing gives nothing, and hex case is not part of a hop. */
  ghost predicate Physical(net: Net) {
    && PathOk(net.approved)
    && (forall h, x: nat, y: nat :: x <= y ==> net.out(h, x) <= net.out(h, y))
    && (forall h :: net.out(h, 0) == 0)
    && (forall g, h, x: nat :: Canon(g) == Canon(h) ==> net.out(g, x) == net.out(h, x))
  }

  ghost predicate HonestQuote(net: Net, r: Read<Quote>, from: Address, to: Address, x: nat) {
    match r
    case Answer(q) =>
      && InSearch(net, q.path, from, to) && q.amountOut == PathOut(net, q.path, x)
      && forall p :: InSearch(net, p, from, to) ==> PathOut(net, p, x) <= q.amountOut
    case No => forall p :: InSearch(net, p, from, to) ==> PathOut(net, p, x) == 0
    case Transport => true
  }

  predicate HonestHops(net: Net, r: Read<seq<RouteHop>>, from: Address, to: Address) {
    match r
    case Answer(hs) =>
      (forall h :: h in hs ==> ApprovedHop(net, h, from, to)) &&
      (forall h :: h in net.approved && Connects(h, from, to) ==> h in hs)
    case No => forall h :: h in net.approved ==> !Connects(h, from, to)
    case Transport => true
  }

  predicate HonestPath(net: Net, r: Read<nat>, path: seq<RouteHop>, x: nat) {
    match r
    case Answer(v) => v == PathOut(net, path, x)
    case No => PathOut(net, path, x) == 0
    case Transport => true
  }

  /** A path the router prices at all: one to three hops, each taking what the last one gave. */
  predicate Chains(p: seq<RouteHop>) { p != [] && IsChained(p, p[0].tokenIn, p[|p| - 1].tokenOut) }

  /**
   * The reads answer what the router computes; the impact cap binds nowhere. A path that does not chain may be refused.
   */
  ghost predicate Honest(net: Net, node: Reads) {
    && (forall from, to, x: nat :: !SameAddr(from, to) ==> HonestQuote(net, node.quote(from, to, x), from, to, x))
    && (forall from, to :: HonestHops(net, node.approvedHops(from, to), from, to))
    && (forall p, x: nat :: ApprovedPath(net, p) && Chains(p) ==> HonestPath(net, node.quotePath(p, x), p, x))
  }

  /** WETH to USDG and back never gains. */
  ghost predicate NoRoundTripGain(net: Net, usdg: Address) {
    forall g, h, x: nat :: ApprovedHop(net, g, net.weth, usdg) && ApprovedHop(net, h, usdg, net.weth) ==>
                                     net.out(h, net.out(g, x)) <= x
  }

  predicate Stepping(net: Net, usdg: Address, path: seq<RouteHop>) {
    forall i :: 0 <= i < |path| - 1 ==> SameAddr(path[i].tokenOut, usdg) || SameAddr(path[i].tokenOut, net.weth)
  }

  /** The paths the search must not lose: simple, approved, through USDG and WETH only. */
  predicate Rival(net: Net, usdg: Address, path: seq<RouteHop>, from: Address, to: Address) {
    ApprovedPath(net, path) && IsRoutable(path, from, to) && Stepping(net, usdg, path)
  }

  // ---------------------------------------------------------------- paths and sets

  lemma OneHopRoutable(h: RouteHop, from: Address, to: Address)
    requires Connects(h, from, to) && !SameAddr(from, to)
    ensures IsRoutable([h], from, to)
  {
    RoutableMeans([h], from, to);
  }

  lemma TwoHopsRoutable(g: RouteHop, h: RouteHop, from: Address, via: Address, to: Address)
    requires Connects(g, from, via) && Connects(h, via, to)
    requires !SameAddr(from, via) && !SameAddr(via, to) && !SameAddr(from, to)
    ensures IsRoutable([g, h], from, to)
  {
    RoutableMeans([g, h], from, to);
  }

  lemma ThreeHopsRoutable(f: RouteHop, g: RouteHop, h: RouteHop, from: Address, a: Address, b: Address, to: Address)
    requires Connects(f, from, a) && Connects(g, a, b) && Connects(h, b, to)
    requires !SameAddr(from, a) && !SameAddr(from, b) && !SameAddr(from, to)
    requires !SameAddr(a, b) && !SameAddr(a, to) && !SameAddr(b, to)
    ensures IsRoutable([f, g, h], from, to)
  {
    RoutableMeans([f, g, h], from, to);
  }

  lemma {:induction false} PathOutConcat(net: Net, p: seq<RouteHop>, q: seq<RouteHop>, x: nat)
    ensures PathOut(net, p + q, x) == PathOut(net, q, PathOut(net, p, x))
    decreases |p|
  {
    if p == [] {
      assert p + q == q;
    } else {
      assert (p + q)[1..] == p[1..] + q;
      PathOutConcat(net, p[1..], q, net.out(p[0], x));
    }
  }

  lemma {:induction false} PathOutMonotone(net: Net, p: seq<RouteHop>, x: nat, y: nat)
    requires Physical(net) && x <= y
    ensures PathOut(net, p, x) <= PathOut(net, p, y)
    decreases |p|
  {
    if p != [] {
      PathOutMonotone(net, p[1..], net.out(p[0], x), net.out(p[0], y));
    }
  }

  lemma {:induction false} PathOutOfNothing(net: Net, p: seq<RouteHop>)
    requires Physical(net)
    ensures PathOut(net, p, 0) == 0
    decreases |p|
  {
    if p != [] {
      PathOutOfNothing(net, p[1..]);
    }
  }

  lemma {:induction false} PathOutCanon(net: Net, p: seq<RouteHop>, q: seq<RouteHop>, x: nat)
    requires Physical(net) && CanonPath(p) == CanonPath(q)
    ensures PathOut(net, p, x) == PathOut(net, q, x)
    decreases |p|
  {
    assert |p| == |CanonPath(p)| == |CanonPath(q)| == |q|;
    if p != [] {
      assert CanonPath(p)[0] == CanonPath(q)[0];
      forall i | 0 <= i < |p| - 1 ensures Canon(p[1..][i]) == Canon(q[1..][i]) {
        assert CanonPath(p)[i + 1] == CanonPath(q)[i + 1];
      }
      assert CanonPath(p[1..]) == CanonPath(q[1..]);
      PathOutCanon(net, p[1..], q[1..], net.out(p[0], x));
    }
  }

  // ---------------------------------------------------------------- completeness of the candidate list

  /** A joinable path is in the joined list, unless its key had been seen. */
  lemma {:induction false} JoinIsComplete(first: seq<RouteHop>, tails: seq<seq<RouteHop>>, seen: set<string>,
                                          from: Address, to: Address, t: nat)
    requires t < |tails| && IsRoutable(first + tails[t], from, to)
    ensures var key := PathKey(first + tails[t]);
            key in seen || exists p :: p in Join(first, tails, seen, from, to) && PathKey(p) == key
    decreases |tails|
  {
    var path := first + tails[0];
    var more := if Joins(path, seen, from, to) then seen + {PathKey(path)} else seen;
    if t == 0 {
      if Joins(path, seen, from, to) {
        assert path in Join(first, tails, seen, from, to);
      }
    } else {
      assert tails[1..][t - 1] == tails[t];
      JoinIsComplete(first, tails[1..], more, from, to, t - 1);
      var key := PathKey(first + tails[t]);
      if key !in more {
        var p :| p in Join(first, tails[1..], more, from, to) && PathKey(p) == key;
        assert p in Join(first, tails, seen, from, to);
      } else if key !in seen {
        assert path in Join(first, tails, seen, from, to);
      }
    }
  }

  lemma {:induction false} ConfirmedHas(paths: seq<seq<RouteHop>>, outs: seq<Read<nat>>, i: nat) returns (k: nat)
    requires |paths| == |outs| && forall j :: 0 <= j < |paths| ==> paths[j] != []
    requires i < |paths| && outs[i].Answer? && outs[i].value > 0
    ensures k < |ConfirmedCandidates(paths, outs)| && ConfirmedCandidates(paths, outs)[k].amountOut == outs[i].value
    decreases |paths|
  {
    if i == 0 {
      k := 0;
    } else {
      k := ConfirmedHas(paths[1..], outs[1..], i - 1);
      if outs[0].Answer? && outs[0].value > 0 {
        k := k + 1;
      }
    }
  }

  lemma ConfirmedAmong(own: seq<Candidate>, paths: seq<seq<RouteHop>>, outs: seq<Read<nat>>, i: nat) returns (c: nat)
    requires |paths| == |outs| && forall j :: 0 <= j < |paths| ==> paths[j] != []
    requires i < |paths| && outs[i].Answer? && outs[i].value > 0
    ensures var cs := own + ConfirmedCandidates(paths, outs);
            c < |cs| && cs[c].amountOut == outs[i].value
  {
    var k := ConfirmedHas(paths, outs, i);
    c := |own| + k;
  }

  /** The answer is at least `v`. */
  predicate AtLeast(best: Option<Candidate>, v: nat) { best.Some? && best.value.amountOut >= v }

  lemma BestCovers(cs: seq<Candidate>, k: nat)
    requires k < |cs|
    ensures AtLeast(BestOf(cs), cs[k].amountOut)
  {
    var i := BestIsLexicographicMax(cs);
    assert cs[k].amountOut <= cs[i].amountOut;
  }

  /** One search: what it was asked, against which router, and that it came back. */
  datatype Search = Search(node: Reads, net: Net, usdg: Address, tokenIn: Address, tokenOut: Address, amountIn: nat)

  ghost predicate Sound(s: Search) {
    && Physical(s.net) && Honest(s.net, s.node)
    && !SameAddr(s.usdg, s.net.weth) && !SameAddr(s.tokenIn, s.tokenOut)
    && !SomeReadFails(s.node, s.usdg, s.tokenIn, s.tokenOut, s.amountIn)
  }

  function Answered(s: Search): Option<Candidate> {
    BestOf(Candidates(s.node, s.usdg, s.tokenIn, s.tokenOut, s.amountIn))
  }

  lemma SearchedIsApproved(net: Net, p: seq<RouteHop>, from: Address, to: Address)
    requires Physical(net) && InSearch(net, p, from, to)
    ensures ApprovedPath(net, p)
  {
    forall i | 0 <= i < |p| ensures HopOk(p[i]) {
      var j :| 0 <= j < |net.approved| && net.approved[j] == p[i];
    }
  }

  lemma SearchedIsRoutable(net: Net, p: seq<RouteHop>, from: Address, to: Address)
    requires InSearch(net, p, from, to) && !SameAddr(from, to)
    ensures IsRoutable(p, from, to)
  {
    if |p| == 1 {
      OneHopRoutable(p[0], from, to);
      assert p == [p[0]];
    } else {
      TwoHopsRoutable(p[0], p[1], from, net.weth, to);
      assert p == [p[0], p[1]];
    }
  }

  /** Whatever the router itself searches, the answer is no worse. */
  lemma OwnPickCovers(s: Search, p: seq<RouteHop>)
    requires Sound(s) && InSearch(s.net, p, s.tokenIn, s.tokenOut) && PathOut(s.net, p, s.amountIn) > 0
    ensures AtLeast(Answered(s), PathOut(s.net, p, s.amountIn))
  {
    var r := s.node.quote(s.tokenIn, s.tokenOut, s.amountIn);
    assert HonestQuote(s.net, r, s.tokenIn, s.tokenOut, s.amountIn);
    assert r.Answer?;
    SearchedIsRoutable(s.net, r.value.path, s.tokenIn, s.tokenOut);
    BestCovers(Candidates(s.node, s.usdg, s.tokenIn, s.tokenOut, s.amountIn), 0);
  }

  /** The one stepping stone, when neither end is USDG. */
  function TheStone(s: Search): Stone {
    StoneOf(s.node, s.usdg, s.tokenIn, s.tokenOut, s.amountIn)
  }

  predicate HasStone(s: Search) { !SameAddr(s.usdg, s.tokenIn) && !SameAddr(s.usdg, s.tokenOut) }

  lemma ComposedWithOneStone(s: Search)
    requires HasStone(s) && Usable(TheStone(s))
    ensures ComposedPaths(s.node, s.usdg, s.tokenIn, s.tokenOut, s.amountIn)
         == Join(TheStone(s).first.value.path, Tails(TheStone(s)),
                 OwnKeys(AsOption(s.node.quote(s.tokenIn, s.tokenOut, s.amountIn)), s.tokenIn, s.tokenOut),
                 s.tokenIn, s.tokenOut)
  {
    var stones := StonesOf(s.node, Bases(s.usdg, s.tokenIn, s.tokenOut), s.tokenIn, s.tokenOut, s.amountIn);
    var seen := OwnKeys(AsOption(s.node.quote(s.tokenIn, s.tokenOut, s.amountIn)), s.tokenIn, s.tokenOut);
    assert stones == [TheStone(s)] && stones[1..] == [];
    var here := Join(TheStone(s).first.value.path, Tails(TheStone(s)), seen, s.tokenIn, s.tokenOut);
    assert Composed(stones, seen, s.tokenIn, s.tokenOut)
           == here + Composed([], seen + Keys(here), s.tokenIn, s.tokenOut);
  }

  lemma JoinedAreApproved(net: Net, first: seq<RouteHop>, tail: seq<RouteHop>)
    requires ApprovedPath(net, first) && ApprovedPath(net, tail)
    ensures ApprovedPath(net, first + tail)
  {
  }

  lemma {:induction false} JoinComesFromTails(first: seq<RouteHop>, tails: seq<seq<RouteHop>>, seen: set<string>,
                                              from: Address, to: Address, p: seq<RouteHop>)
    requires p in Join(first, tails, seen, from, to)
    ensures exists t :: 0 <= t < |tails| && p == first + tails[t]
    decreases |tails|
  {
    var path := first + tails[0];
    if Joins(path, seen, from, to) && p == path {
      assert p == first + tails[0];
    } else {
      var more := if Joins(path, seen, from, to) then seen + {PathKey(path)} else seen;
      JoinComesFromTails(first, tails[1..], more, from, to, p);
      var t :| 0 <= t < |tails[1..]| && p == first + tails[1..][t];
      assert p == first + tails[t + 1];
    }
  }

  /** Each tail is something the router's own search from USDG tries. */
  lemma TailsAreSearched(s: Search, t: nat)
    requires Sound(s) && HasStone(s) && t < |Tails(TheStone(s))|
    ensures InSearch(s.net, Tails(TheStone(s))[t], s.usdg, s.tokenOut)
  {
    var st := TheStone(s);
    var n := if st.onward.Some? then 1 else 0;
    if t < n {
      var x := s.node.quote(s.tokenIn, s.usdg, s.amountIn).value.amountOut;
      assert HonestQuote(s.net, s.node.quote(s.usdg, s.tokenOut, x), s.usdg, s.tokenOut, x);
    } else {
      assert HonestHops(s.net, s.node.approvedHops(s.usdg, s.tokenOut), s.usdg, s.tokenOut);
      assert st.hops[t - n] in st.hops;
    }
  }

  lemma TailsAreApproved(s: Search, t: nat)
    requires Sound(s) && HasStone(s) && t < |Tails(TheStone(s))|
    ensures ApprovedPath(s.net, Tails(TheStone(s))[t])
  {
    TailsAreSearched(s, t);
    SearchedIsApproved(s.net, Tails(TheStone(s))[t], s.usdg, s.tokenOut);
  }

  lemma FirstLegIsApproved(s: Search)
    requires Sound(s) && HasStone(s) && Usable(TheStone(s))
    ensures InSearch(s.net, TheStone(s).first.value.path, s.tokenIn, s.usdg)
    ensures ApprovedPath(s.net, TheStone(s).first.value.path)
    ensures TheStone(s).first.value.amountOut == PathOut(s.net, TheStone(s).first.value.path, s.amountIn)
  {
    assert HonestQuote(s.net, s.node.quote(s.tokenIn, s.usdg, s.amountIn), s.tokenIn, s.usdg, s.amountIn);
    SearchedIsApproved(s.net, TheStone(s).first.value.path, s.tokenIn, s.usdg);
  }

  /** A routable join of the first leg and one of its tails is answered for, in its own right or under an equal key. */
  lemma JoinedPathCovers(s: Search, t: nat)
    requires Sound(s) && HasStone(s) && Usable(TheStone(s)) && t < |Tails(TheStone(s))|
    requires var path := TheStone(s).first.value.path + Tails(TheStone(s))[t];
             IsRoutable(path, s.tokenIn, s.tokenOut) && PathOut(s.net, path, s.amountIn) > 0
    ensures AtLeast(Answered(s), PathOut(s.net, TheStone(s).first.value.path + Tails(TheStone(s))[t], s.amountIn))
  {
    var st := TheStone(s);
    var first := st.first.value.path;
    var path := first + Tails(st)[t];
    var own := AsOption(s.node.quote(s.tokenIn, s.tokenOut, s.amountIn));
    var seen := OwnKeys(own, s.tokenIn, s.tokenOut);
    FirstLegIsApproved(s);
    TailsAreApproved(s, t);
    JoinedAreApproved(s.net, first, Tails(st)[t]);
    JoinIsComplete(first, Tails(st), seen, s.tokenIn, s.tokenOut, t);
    var v := PathOut(s.net, path, s.amountIn);
    if PathKey(path) in seen {
      assert HonestQuote(s.net, s.node.quote(s.tokenIn, s.tokenOut, s.amountIn), s.tokenIn, s.tokenOut, s.amountIn);
      SearchedIsApproved(s.net, own.value.path, s.tokenIn, s.tokenOut);
      PathKeyIdentifies(path, own.value.path);
      PathOutCanon(s.net, path, own.value.path, s.amountIn);
      BestCovers(Candidates(s.node, s.usdg, s.tokenIn, s.tokenOut, s.amountIn), 0);
    } else {
      var p :| p in Join(first, Tails(st), seen, s.tokenIn, s.tokenOut) && PathKey(p) == PathKey(path);
      JoinComesFromTails(first, Tails(st), seen, s.tokenIn, s.tokenOut, p);
      var u :| 0 <= u < |Tails(st)| && p == first + Tails(st)[u];
      TailsAreApproved(s, u);
      JoinedAreApproved(s.net, first, Tails(st)[u]);
      PathKeyIdentifies(path, p);
      PathOutCanon(s.net, path, p, s.amountIn);
      ComposedWithOneStone(s);
      ComposedPathCovers(s, p);
    }
  }

  lemma RoutableIsQuoted(s: Search, p: seq<RouteHop>)
    requires Sound(s) && p in ComposedPaths(s.node, s.usdg, s.tokenIn, s.tokenOut, s.amountIn)
    requires ApprovedPath(s.net, p) && IsRoutable(p, s.tokenIn, s.tokenOut) && PathOut(s.net, p, s.amountIn) > 0
    ensures s.node.quotePath(p, s.amountIn) == Answer(PathOut(s.net, p, s.amountIn))
  {
    assert HonestPath(s.net, s.node.quotePath(p, s.amountIn), p, s.amountIn);
  }

  /** A composed path the router answers for is confirmed, under that output, whatever the router refuses otherwise. */
  lemma AnsweredIsConfirmed(s: Search, p: seq<RouteHop>, v: nat)
    requires p in ComposedPaths(s.node, s.usdg, s.tokenIn, s.tokenOut, s.amountIn)
    requires s.node.quotePath(p, s.amountIn) == Answer(v) && v > 0
    ensures AtLeast(Answered(s), v)
  {
    var own := AsOption(s.node.quote(s.tokenIn, s.tokenOut, s.amountIn));
    var paths := ComposedPaths(s.node, s.usdg, s.tokenIn, s.tokenOut, s.amountIn);
    ComposedAreRoutable(StonesOf(s.node, Bases(s.usdg, s.tokenIn, s.tokenOut), s.tokenIn, s.tokenOut, s.amountIn),
                        OwnKeys(own, s.tokenIn, s.tokenOut), s.tokenIn, s.tokenOut);
    assert forall j :: 0 <= j < |paths| ==> paths[j] in paths;
    var i :| 0 <= i < |paths| && paths[i] == p;
    var c := ConfirmedAmong(OwnCandidates(own, s.tokenIn, s.tokenOut), paths, Outs(s.node, paths, s.amountIn), i);
    BestCovers(Candidates(s.node, s.usdg, s.tokenIn, s.tokenOut, s.amountIn), c);
  }

  lemma ComposedPathCovers(s: Search, p: seq<RouteHop>)
    requires Sound(s) && p in ComposedPaths(s.node, s.usdg, s.tokenIn, s.tokenOut, s.amountIn)
    requires ApprovedPath(s.net, p) && PathOut(s.net, p, s.amountIn) > 0
    ensures AtLeast(Answered(s), PathOut(s.net, p, s.amountIn))
  {
    ComposedAreRoutable(StonesOf(s.node, Bases(s.usdg, s.tokenIn, s.tokenOut), s.tokenIn, s.tokenOut, s.amountIn),
                        OwnKeys(AsOption(s.node.quote(s.tokenIn, s.tokenOut, s.amountIn)), s.tokenIn, s.tokenOut),
                        s.tokenIn, s.tokenOut);
    RoutableIsQuoted(s, p);
    AnsweredIsConfirmed(s, p, PathOut(s.net, p, s.amountIn));
  }

  // ---------------------------------------------------------------- where the impact cap binds

  /** The router reads addresses up to hex case, and its pick delivers what it says. It may refuse anything. */
  ghost predicate Consistent(s: Search) {
    && (forall p, q :: PathKey(p) == PathKey(q) ==>
                         s.node.quotePath(p, s.amountIn) == s.node.quotePath(q, s.amountIn))
    && var own := s.node.quote(s.tokenIn, s.tokenOut, s.amountIn);
       (own.Answer? ==> s.node.quotePath(own.value.path, s.amountIn) == Answer(own.value.amountOut))
  }

  /**
   * Whatever paths the impact cap takes away, and whatever else the router refuses: of its own pick and every join of
   * the first leg with a tail, kept or dropped as a duplicate, the answer delivers at least what the router still
   * answers.
   */
  lemma AnswerCoversWhatTheCapLeaves(s: Search, t: nat, v: nat)
    requires Consistent(s) && HasStone(s) && Usable(TheStone(s)) && t < |Tails(TheStone(s))|
    requires var path := TheStone(s).first.value.path + Tails(TheStone(s))[t];
             IsRoutable(path, s.tokenIn, s.tokenOut) && s.node.quotePath(path, s.amountIn) == Answer(v) && v > 0
    ensures AtLeast(Answered(s), v)
    ensures var own := s.node.quote(s.tokenIn, s.tokenOut, s.amountIn);
            own.Answer? && own.value.amountOut > 0 && IsRoutable(own.value.path, s.tokenIn, s.tokenOut) ==>
              AtLeast(Answered(s), own.value.amountOut)
  {
    var first, tails := TheStone(s).first.value.path, Tails(TheStone(s));
    var own := AsOption(s.node.quote(s.tokenIn, s.tokenOut, s.amountIn));
    var seen := OwnKeys(own, s.tokenIn, s.tokenOut);
    JoinIsComplete(first, tails, seen, s.tokenIn, s.tokenOut, t);
    if own.Some? && own.value.amountOut > 0 && IsRoutable(own.value.path, s.tokenIn, s.tokenOut) {
      OwnPickIsAnswered(s);
    }
    if PathKey(first + tails[t]) !in seen {
      var p :| p in Join(first, tails, seen, s.tokenIn, s.tokenOut) && PathKey(p) == PathKey(first + tails[t]);
      ComposedWithOneStone(s);
      AnsweredIsConfirmed(s, p, v);
    }
  }

  lemma OwnPickIsAnswered(s: Search)
    requires s.node.quote(s.tokenIn, s.tokenOut, s.amountIn).Answer?
    requires var own := s.node.quote(s.tokenIn, s.tokenOut, s.amountIn).value;
             own.amountOut > 0 && IsRoutable(own.path, s.tokenIn, s.tokenOut)
    ensures AtLeast(Answered(s), s.node.quote(s.tokenIn, s.tokenOut, s.amountIn).value.amountOut)
  {
    BestCovers(Candidates(s.node, s.usdg, s.tokenIn, s.tokenOut, s.amountIn), 0);
  }

  // ---------------------------------------------------------------- optimality

  /**
   * The first leg delivers at least as much USDG as any searched path to it, and is there whenever one delivers any.
   */
  lemma FirstLegIsBest(s: Search, p: seq<RouteHop>)
    requires Sound(s) && HasStone(s) && InSearch(s.net, p, s.tokenIn, s.usdg) && PathOut(s.net, p, s.amountIn) > 0
    ensures Usable(TheStone(s)) && TheStone(s).first.value.amountOut >= PathOut(s.net, p, s.amountIn)
  {
    assert HonestQuote(s.net, s.node.quote(s.tokenIn, s.usdg, s.amountIn), s.tokenIn, s.usdg, s.amountIn);
    assert !StoneFails(s.node, s.usdg, s.tokenIn, s.tokenOut, s.amountIn) by {
      assert s.usdg in Bases(s.usdg, s.tokenIn, s.tokenOut);
    }
  }

  /** Each approved direct hop out of USDG is one of the tails. */
  lemma DirectTail(s: Search, h: RouteHop) returns (t: nat)
    requires Sound(s) && HasStone(s) && ApprovedHop(s.net, h, s.usdg, s.tokenOut)
    ensures t < |Tails(TheStone(s))| && Tails(TheStone(s))[t] == [h]
  {
    var r := s.node.approvedHops(s.usdg, s.tokenOut);
    assert HonestHops(s.net, r, s.usdg, s.tokenOut);
    assert !StoneFails(s.node, s.usdg, s.tokenIn, s.tokenOut, s.amountIn) by {
      assert s.usdg in Bases(s.usdg, s.tokenIn, s.tokenOut);
    }
    var st := TheStone(s);
    var i :| 0 <= i < |st.hops| && st.hops[i] == h;
    t := (if st.onward.Some? then 1 else 0) + i;
  }

  /** Out of the loop WETH to USDG to WETH comes no more than went in, so what follows it delivers no more either. */
  lemma LoopGainsNothing(net: Net, usdg: Address, from: Address, f: seq<RouteHop>, h: RouteHop, tail: seq<RouteHop>,
                         x: nat)
    requires Physical(net) && NoRoundTripGain(net, usdg) && |f| == 2 && InSearch(net, f, from, usdg)
    requires ApprovedHop(net, h, usdg, net.weth)
    ensures PathOut(net, tail, net.out(h, PathOut(net, f, x))) <= PathOut(net, [f[0]] + tail, x)
  {
    var q := net.out(f[0], x);
    assert f == [f[0]] + [f[1]];
    PathOutConcat(net, [f[0]], [f[1]], x);
    PathOutConcat(net, [f[0]], tail, x);
    assert PathOut(net, [f[0]], x) == q && PathOut(net, [f[1]], q) == net.out(f[1], q);
    assert net.out(h, net.out(f[1], q)) <= q;
    PathOutMonotone(net, tail, net.out(h, net.out(f[1], q)), q);
  }

  /** When the first leg goes through WETH, coming back to WETH is no better than never having left it. */
  lemma LoopFromBeyondWeth(s: Search, tail: seq<RouteHop>, h: RouteHop)
    requires Sound(s) && HasStone(s) && Usable(TheStone(s)) && NoRoundTripGain(s.net, s.usdg)
    requires |TheStone(s).first.value.path| == 2
    requires ApprovedHop(s.net, h, s.usdg, s.net.weth)
    requires || (tail == [] && SameAddr(s.tokenOut, s.net.weth))
             || (|tail| == 1 && ApprovedHop(s.net, tail[0], s.net.weth, s.tokenOut) &&
                 !SameAddr(s.tokenOut, s.net.weth))
    requires PathOut(s.net, tail, s.net.out(h, TheStone(s).first.value.amountOut)) > 0
    ensures AtLeast(Answered(s), PathOut(s.net, tail, s.net.out(h, TheStone(s).first.value.amountOut)))
  {
    FirstLegIsApproved(s);
    var f := TheStone(s).first.value.path;
    LoopGainsNothing(s.net, s.usdg, s.tokenIn, f, h, tail, s.amountIn);
    OwnPickCovers(s, [f[0]] + tail);
  }

  /** WETH to USDG, back to WETH and on: the last hop alone, for the whole amount, delivers no less. */
  lemma LoopFromWeth(s: Search, t: nat)
    requires Sound(s) && HasStone(s) && Usable(TheStone(s)) && NoRoundTripGain(s.net, s.usdg)
    requires SameAddr(s.tokenIn, s.net.weth) && t < |Tails(TheStone(s))| && |Tails(TheStone(s))[t]| == 2
    requires InSearch(s.net, Tails(TheStone(s))[t], s.usdg, s.tokenOut)
    requires PathOut(s.net, TheStone(s).first.value.path + Tails(TheStone(s))[t], s.amountIn) > 0
    ensures AtLeast(Answered(s), PathOut(s.net, TheStone(s).first.value.path + Tails(TheStone(s))[t], s.amountIn))
  {
    FirstLegIsApproved(s);
    var f, tail := TheStone(s).first.value.path, Tails(TheStone(s))[t];
    assert f == [f[0]] && tail == [tail[0]] + [tail[1]];
    RoundTripTail(s.net, s.usdg, f[0], tail, s.amountIn);
    OwnPickCovers(s, [tail[1]]);
  }

  lemma RoundTripTail(net: Net, usdg: Address, g: RouteHop, tail: seq<RouteHop>, x: nat)
    requires Physical(net) && NoRoundTripGain(net, usdg) && |tail| == 2
    requires ApprovedHop(net, g, net.weth, usdg) && ApprovedHop(net, tail[0], usdg, net.weth)
    ensures PathOut(net, [g] + tail, x) <= PathOut(net, [tail[1]], x)
  {
    var y := net.out(tail[0], net.out(g, x));
    assert [g] + tail == [g, tail[0]] + [tail[1]] && [g, tail[0]] == [g] + [tail[0]];
    PathOutConcat(net, [g], [tail[0]], x);
    PathOutConcat(net, [g, tail[0]], [tail[1]], x);
    assert PathOut(net, [g], x) == net.out(g, x);
    assert PathOut(net, [g, tail[0]], x) == y;
    PathOutMonotone(net, [tail[1]], y, x);
  }

  /** The first leg and a tail loop exactly when both touch WETH; then the round trip can be cut out. */
  lemma LoopFromBeyondWethCovers(s: Search, t: nat)
    requires Sound(s) && HasStone(s) && Usable(TheStone(s)) && NoRoundTripGain(s.net, s.usdg)
    requires t < |Tails(TheStone(s))| && InSearch(s.net, Tails(TheStone(s))[t], s.usdg, s.tokenOut)
    requires |TheStone(s).first.value.path| == 2
    requires |Tails(TheStone(s))[t]| == 2 || SameAddr(s.tokenOut, s.net.weth)
    requires PathOut(s.net, TheStone(s).first.value.path + Tails(TheStone(s))[t], s.amountIn) > 0
    ensures AtLeast(Answered(s), PathOut(s.net, TheStone(s).first.value.path + Tails(TheStone(s))[t], s.amountIn))
  {
    FirstLegIsApproved(s);
    var first, tail := TheStone(s).first.value, Tails(TheStone(s))[t];
    PathOutConcat(s.net, first.path, tail, s.amountIn);
    assert tail == [tail[0]] + tail[1..];
    PathOutConcat(s.net, [tail[0]], tail[1..], first.amountOut);
    assert PathOut(s.net, [tail[0]], first.amountOut) == s.net.out(tail[0], first.amountOut);
    LoopFromBeyondWeth(s, tail[1..], tail[0]);
  }

  /**
   * Dropping loops loses nothing: the first leg joined to any of its tails, kept, dropped for visiting a token twice,
   * or dropped as a duplicate, delivers no more than the answer.
   */
  lemma LoopLosesNothing(s: Search, t: nat)
    requires Sound(s) && HasStone(s) && Usable(TheStone(s)) && NoRoundTripGain(s.net, s.usdg)
    requires t < |Tails(TheStone(s))|
    requires PathOut(s.net, TheStone(s).first.value.path + Tails(TheStone(s))[t], s.amountIn) > 0
    ensures AtLeast(Answered(s), PathOut(s.net, TheStone(s).first.value.path + Tails(TheStone(s))[t], s.amountIn))
  {
    FirstLegIsApproved(s);
    TailsAreSearched(s, t);
    var f, tail := TheStone(s).first.value.path, Tails(TheStone(s))[t];
    if |f| == 2 && (|tail| == 2 || SameAddr(s.tokenOut, s.net.weth)) {
      LoopFromBeyondWethCovers(s, t);
    } else if SameAddr(s.tokenIn, s.net.weth) && |tail| == 2 {
      LoopFromWeth(s, t);
    } else {
      JoinIsRoutable(s, f, tail);
      JoinedPathCovers(s, t);
    }
  }

  lemma JoinIsRoutable(s: Search, f: seq<RouteHop>, tail: seq<RouteHop>)
    requires !SameAddr(s.usdg, s.net.weth) && !SameAddr(s.tokenIn, s.tokenOut) && HasStone(s)
    requires InSearch(s.net, f, s.tokenIn, s.usdg) && InSearch(s.net, tail, s.usdg, s.tokenOut)
    requires |f| == 2 ==> |tail| == 1 && !SameAddr(s.tokenOut, s.net.weth)
    requires |tail| == 2 ==> !SameAddr(s.tokenIn, s.net.weth)
    ensures IsRoutable(f + tail, s.tokenIn, s.tokenOut)
  {
    if |tail| == 1 {
      JoinDirectRoutable(s, f, tail[0]);
      assert f + tail == f + [tail[0]];
    } else {
      JoinOnwardRoutable(s, f, tail);
    }
  }

  /** Through USDG and straight on. */
  lemma ThroughUsdgCovers(s: Search, g: seq<RouteHop>, h: RouteHop)
    requires Sound(s) && HasStone(s) && NoRoundTripUnlessEnd(s)
    requires InSearch(s.net, g, s.tokenIn, s.usdg) && ApprovedHop(s.net, h, s.usdg, s.tokenOut)
    requires PathOut(s.net, g + [h], s.amountIn) > 0
    ensures AtLeast(Answered(s), PathOut(s.net, g + [h], s.amountIn))
  {
    PathOutConcat(s.net, g, [h], s.amountIn);
    var z := PathOut(s.net, g, s.amountIn);
    if z == 0 {
      PathOutOfNothing(s.net, [h]);
      assert false;
    }
    FirstLegIsBest(s, g);
    FirstLegIsApproved(s);
    var first := TheStone(s).first.value;
    var t := DirectTail(s, h);
    PathOutMonotone(s.net, [h], z, first.amountOut);
    PathOutConcat(s.net, first.path, [h], s.amountIn);
    if |first.path| == 2 && SameAddr(s.tokenOut, s.net.weth) {
      LoopFromBeyondWeth(s, [], h);
    } else {
      JoinDirectRoutable(s, first.path, h);
      JoinedPathCovers(s, t);
    }
  }

  /** Round trips are only asked not to gain when neither pay token is an end of the search. */
  ghost predicate NoRoundTripUnlessEnd(s: Search) {
    SameAddr(s.tokenIn, s.usdg) || SameAddr(s.tokenIn, s.net.weth) || NoRoundTripGain(s.net, s.usdg)
  }

  lemma JoinDirectRoutable(s: Search, f: seq<RouteHop>, h: RouteHop)
    requires !SameAddr(s.usdg, s.net.weth) && !SameAddr(s.tokenIn, s.tokenOut) && HasStone(s)
    requires InSearch(s.net, f, s.tokenIn, s.usdg) && ApprovedHop(s.net, h, s.usdg, s.tokenOut)
    requires |f| == 2 ==> !SameAddr(s.tokenOut, s.net.weth)
    ensures IsRoutable(f + [h], s.tokenIn, s.tokenOut)
  {
    if |f| == 1 {
      TwoHopsRoutable(f[0], h, s.tokenIn, s.usdg, s.tokenOut);
      assert f + [h] == [f[0], h];
    } else {
      ThreeHopsRoutable(f[0], f[1], h, s.tokenIn, s.net.weth, s.usdg, s.tokenOut);
      assert f + [h] == [f[0], f[1], h];
    }
  }

  /** The router's onward pick is there, is the first tail, and delivers as much as USDG to WETH and on. */
  lemma OnwardIsBest(s: Search, g: RouteHop, h: RouteHop)
    requires Sound(s) && HasStone(s) && Usable(TheStone(s))
    requires ApprovedHop(s.net, g, s.usdg, s.net.weth) && ApprovedHop(s.net, h, s.net.weth, s.tokenOut)
    requires !SameAddr(s.tokenOut, s.net.weth)
    requires PathOut(s.net, [g, h], TheStone(s).first.value.amountOut) > 0
    ensures |Tails(TheStone(s))| > 0
    ensures var x := TheStone(s).first.value.amountOut;
            PathOut(s.net, Tails(TheStone(s))[0], x) >= PathOut(s.net, [g, h], x)
  {
    var x := TheStone(s).first.value.amountOut;
    assert HonestQuote(s.net, s.node.quote(s.usdg, s.tokenOut, x), s.usdg, s.tokenOut, x);
    assert InSearch(s.net, [g, h], s.usdg, s.tokenOut);
    assert !StoneFails(s.node, s.usdg, s.tokenIn, s.tokenOut, s.amountIn) by {
      assert s.usdg in Bases(s.usdg, s.tokenIn, s.tokenOut);
    }
  }

  /** Through USDG and then WETH: the router's onward pick is at least as good, and a looping one is not needed. */
  lemma ThroughBothCovers(s: Search, f: RouteHop, g: RouteHop, h: RouteHop)
    requires Sound(s) && HasStone(s) && NoRoundTripGain(s.net, s.usdg)
    requires !SameAddr(s.tokenIn, s.net.weth) && !SameAddr(s.tokenOut, s.net.weth)
    requires ApprovedHop(s.net, f, s.tokenIn, s.usdg) && ApprovedHop(s.net, g, s.usdg, s.net.weth)
    requires ApprovedHop(s.net, h, s.net.weth, s.tokenOut)
    requires PathOut(s.net, [f, g, h], s.amountIn) > 0
    ensures AtLeast(Answered(s), PathOut(s.net, [f, g, h], s.amountIn))
  {
    assert [f, g, h] == [f] + [g, h];
    PathOutConcat(s.net, [f], [g, h], s.amountIn);
    var z := PathOut(s.net, [f], s.amountIn);
    if z == 0 {
      PathOutOfNothing(s.net, [g, h]);
      assert false;
    }
    FirstLegIsBest(s, [f]);
    FirstLegIsApproved(s);
    var first := TheStone(s).first.value;
    PathOutMonotone(s.net, [g, h], z, first.amountOut);
    OnwardIsBest(s, g, h);
    PathOutConcat(s.net, first.path, Tails(TheStone(s))[0], s.amountIn);
    LoopLosesNothing(s, 0);
  }

  lemma JoinOnwardRoutable(s: Search, f: seq<RouteHop>, tail: seq<RouteHop>)
    requires !SameAddr(s.usdg, s.net.weth) && !SameAddr(s.tokenIn, s.tokenOut) && HasStone(s)
    requires !SameAddr(s.tokenIn, s.net.weth) && !SameAddr(s.tokenOut, s.net.weth)
    requires InSearch(s.net, f, s.tokenIn, s.usdg) && InSearch(s.net, tail, s.usdg, s.tokenOut)
    requires |f| == 1 || |tail| == 1
    ensures IsRoutable(f + tail, s.tokenIn, s.tokenOut)
  {
    if |tail| == 1 {
      JoinDirectRoutable(s, f, tail[0]);
      assert f + tail == f + [tail[0]];
    } else {
      ThreeHopsRoutable(f[0], tail[0], tail[1], s.tokenIn, s.usdg, s.net.weth, s.tokenOut);
      assert f + tail == [f[0], tail[0], tail[1]];
    }
  }

  /** A rival is a searched path, or goes through USDG last, or through USDG and then WETH. */
  lemma RivalShapes(s: Search, p: seq<RouteHop>)
    requires !SameAddr(s.usdg, s.net.weth) && !SameAddr(s.tokenIn, s.tokenOut)
    requires Rival(s.net, s.usdg, p, s.tokenIn, s.tokenOut)
    ensures || InSearch(s.net, p, s.tokenIn, s.tokenOut)
            || (HasStone(s) && |p| >= 2 && InSearch(s.net, p[..|p| - 1], s.tokenIn, s.usdg)
                && ApprovedHop(s.net, p[|p| - 1], s.usdg, s.tokenOut))
            || (HasStone(s) && |p| == 3 && !SameAddr(s.tokenIn, s.net.weth) && !SameAddr(s.tokenOut, s.net.weth)
                && ApprovedHop(s.net, p[0], s.tokenIn, s.usdg) && ApprovedHop(s.net, p[1], s.usdg, s.net.weth)
                && ApprovedHop(s.net, p[2], s.net.weth, s.tokenOut))
  {
    RoutableMeans(p, s.tokenIn, s.tokenOut);
    var ts := LowerAll(PathTokens(p));
    assert ts[0] == Lower(s.tokenIn) && ts[|p|] == Lower(s.tokenOut);
    assert forall i :: 0 <= i < |p| ==> ts[i + 1] == Lower(p[i].tokenOut);
    if |p| == 2 {
      assert ts[0] != ts[1] && ts[1] != ts[2];
    }
    if |p| == 3 {
      assert ts[0] != ts[1] && ts[0] != ts[2] && ts[1] != ts[2] && ts[1] != ts[3] && ts[2] != ts[3];
      assert SameAddr(p[0].tokenOut, s.usdg) || SameAddr(p[0].tokenOut, s.net.weth);
      assert SameAddr(p[1].tokenOut, s.usdg) || SameAddr(p[1].tokenOut, s.net.weth);
    }
  }

  /**
   * Optimality. For an order paid in USDG or WETH no simple approved path through USDG and WETH delivers more than the
   * answer, whatever loops were dropped. For any other pay token the same holds as long as WETH to USDG and back does
   * not gain, which is the comment's "a round trip only pays two more pool fees".
   */
  lemma BestRouteIsOptimal(s: Search, p: seq<RouteHop>)
    requires Sound(s) && NoRoundTripUnlessEnd(s)
    requires Rival(s.net, s.usdg, p, s.tokenIn, s.tokenOut) && PathOut(s.net, p, s.amountIn) > 0
    ensures AtLeast(Answered(s), PathOut(s.net, p, s.amountIn))
  {
    RivalShapes(s, p);
    if InSearch(s.net, p, s.tokenIn, s.tokenOut) {
      OwnPickCovers(s, p);
    } else if InSearch(s.net, p[..|p| - 1], s.tokenIn, s.usdg) {
      assert p == p[..|p| - 1] + [p[|p| - 1]];
      ThroughUsdgCovers(s, p[..|p| - 1], p[|p| - 1]);
    } else {
      assert p == [p[0], p[1], p[2]];
      ThroughBothCovers(s, p[0], p[1], p[2]);
    }
  }

  /** And the answer is itself such a path, delivering exactly what it says. */
  lemma AnswerIsDeliverable(s: Search)
    requires Sound(s) && Answered(s).Some?
    ensures var c := Answered(s).value;
            ApprovedPath(s.net, c.path) && IsRoutable(c.path, s.tokenIn, s.tokenOut) &&
            c.amountOut == PathOut(s.net, c.path, s.amountIn)
  {
    var cs := Candidates(s.node, s.usdg, s.tokenIn, s.tokenOut, s.amountIn);
    var i := BestIsLexicographicMax(cs);
    CandidatesAreSound(s.node, s.usdg, s.tokenIn, s.tokenOut, s.amountIn, i);
    RoutableGoesOnce(cs[i].path, s.tokenIn, s.tokenOut);
    var own := s.node.quote(s.tokenIn, s.tokenOut, s.amountIn);
    if i == 0 && own == Answer(Quote(cs[0].amountOut, cs[0].path)) {
      assert HonestQuote(s.net, own, s.tokenIn, s.tokenOut, s.amountIn);
      SearchedIsApproved(s.net, cs[0].path, s.tokenIn, s.tokenOut);
    } else {
      CandidateIsApproved(s, i);
      assert HonestPath(s.net, s.node.quotePath(cs[i].path, s.amountIn), cs[i].path, s.amountIn);
    }
  }

  lemma ConfirmedIsComposed(own: seq<Candidate>, paths: seq<seq<RouteHop>>, outs: seq<Read<nat>>, i: nat)
    requires |paths| == |outs| && forall j :: 0 <= j < |paths| ==> paths[j] != []
    requires |own| <= i < |own + ConfirmedCandidates(paths, outs)|
    ensures (own + ConfirmedCandidates(paths, outs))[i].path in paths
  {
    var k := ConfirmedFrom(paths, outs, i - |own|);
    assert paths[k] in paths;
  }

  lemma CandidateIsApproved(s: Search, i: nat)
    requires Sound(s) && i < |Candidates(s.node, s.usdg, s.tokenIn, s.tokenOut, s.amountIn)|
    ensures ApprovedPath(s.net, Candidates(s.node, s.usdg, s.tokenIn, s.tokenOut, s.amountIn)[i].path)
  {
    var quoted := AsOption(s.node.quote(s.tokenIn, s.tokenOut, s.amountIn));
    var own := OwnCandidates(quoted, s.tokenIn, s.tokenOut);
    if i < |own| {
      assert HonestQuote(s.net, s.node.quote(s.tokenIn, s.tokenOut, s.amountIn), s.tokenIn, s.tokenOut, s.amountIn);
      SearchedIsApproved(s.net, quoted.value.path, s.tokenIn, s.tokenOut);
    } else {
      var paths := ComposedPaths(s.node, s.usdg, s.tokenIn, s.tokenOut, s.amountIn);
      ComposedAreRoutable(StonesOf(s.node, Bases(s.usdg, s.tokenIn, s.tokenOut), s.tokenIn, s.tokenOut, s.amountIn),
                          OwnKeys(quoted, s.tokenIn, s.tokenOut), s.tokenIn, s.tokenOut);
      assert forall j :: 0 <= j < |paths| ==> paths[j] in paths;
      ConfirmedIsComposed(own, paths, Outs(s.node, paths, s.amountIn), i);
      ComposedIsApproved(s, Candidates(s.node, s.usdg, s.tokenIn, s.tokenOut, s.amountIn)[i].path);
    }
  }

  lemma ComposedIsApproved(s: Search, p: seq<RouteHop>)
    requires Sound(s) && p in ComposedPaths(s.node, s.usdg, s.tokenIn, s.tokenOut, s.amountIn)
    ensures ApprovedPath(s.net, p)
  {
    if HasStone(s) && Usable(TheStone(s)) {
      var seen := OwnKeys(AsOption(s.node.quote(s.tokenIn, s.tokenOut, s.amountIn)), s.tokenIn, s.tokenOut);
      var first, tails := TheStone(s).first.value.path, Tails(TheStone(s));
      ComposedWithOneStone(s);
      JoinComesFromTails(first, tails, seen, s.tokenIn, s.tokenOut, p);
      var t :| 0 <= t < |tails| && p == first + tails[t];
      FirstLegIsApproved(s);
      TailsAreApproved(s, t);
      JoinedAreApproved(s.net, first, tails[t]);
    } else {
      NothingComposed(s);
    }
  }

  lemma NothingComposed(s: Search)
    requires !(HasStone(s) && Usable(TheStone(s)))
    ensures ComposedPaths(s.node, s.usdg, s.tokenIn, s.tokenOut, s.amountIn) == []
  {
    var stones := StonesOf(s.node, Bases(s.usdg, s.tokenIn, s.tokenOut), s.tokenIn, s.tokenOut, s.amountIn);
    var seen := OwnKeys(AsOption(s.node.quote(s.tokenIn, s.tokenOut, s.amountIn)), s.tokenIn, s.tokenOut);
    if HasStone(s) {
      assert stones == [TheStone(s)] && stones[1..] == [];
      assert Composed(stones, seen, s.tokenIn, s.tokenOut) == Composed([], seen, s.tokenIn, s.tokenOut);
    } else {
      assert stones == [];
    }
  }
}
