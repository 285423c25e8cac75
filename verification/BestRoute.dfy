/** `readBestRoute`: the explicit router path that delivers the most for an amount, composed from the router's picks. */
module BestRoute {
  import opened Wrappers
  import opened TxTypes
  import opened Text

  /**
   * A contract read: an answer, the contract's own "no" (a revert, no code), or a transport failure that is rethrown.
   */
  datatype Read<+T> = Answer(value: T) | No | Transport

  datatype Quote = Quote(amountOut: nat, path: seq<RouteHop>)

  datatype Reads = Reads(
    quote: (Address, Address, nat) -> Read<Quote>,
    approvedHops: (Address, Address) -> Read<seq<RouteHop>>,
    quotePath: (seq<RouteHop>, nat) -> Read<nat>)

  datatype Candidate = Candidate(amountOut: nat, path: seq<RouteHop>, tokens: seq<Address>)

  datatype RouteQuote = RouteQuote(best: Option<Candidate>, firstLegs: map<string, nat>)

  datatype Fetched = Fetched(route: RouteQuote) | TransportFailed

  // ---------------------------------------------------------------- paths

  predicate SameAddr(a: Address, b: Address) { Lower(a) == Lower(b) }

  predicate IsChained(path: seq<RouteHop>, from: Address, to: Address) {
    && 0 < |path| <= 3
    && SameAddr(path[0].tokenIn, from)
    && SameAddr(path[|path| - 1].tokenOut, to)
    && forall i :: 0 < i < |path| ==> SameAddr(path[i - 1].tokenOut, path[i].tokenIn)
  }

  function PathTokens(path: seq<RouteHop>): seq<Address>
    requires path != []
  {
    [path[0].tokenIn] + seq(|path|, i requires 0 <= i < |path| => path[i].tokenOut)
  }

  function LowerAll(tokens: seq<Address>): seq<string> {
    seq(|tokens|, i requires 0 <= i < |tokens| => Lower(tokens[i]))
  }

  function SetOf(tokens: seq<string>): set<string> { set t | t in tokens }

  predicate IsRoutable(path: seq<RouteHop>, from: Address, to: Address) {
    IsChained(path, from, to) && |SetOf(LowerAll(PathTokens(path)))| == |path| + 1
  }

  function HopKey(h: RouteHop): string {
    Decimal(h.protocol) + [':'] +
    (Lower(h.tokenIn) + [':'] + (Lower(h.tokenOut) + [':'] + (Decimal(h.fee) + [':'] + Lower(h.extra))))
  }

  function PathKey(path: seq<RouteHop>): string {
    if path == [] then "" else if |path| == 1 then HopKey(path[0]) else HopKey(path[0]) + ['|'] + PathKey(path[1..])
  }

  // ---------------------------------------------------------------- candidates

  /** What the reads answered for one stepping stone. */
  datatype Stone = Stone(base: Address, first: Option<Quote>, onward: Option<Quote>, hops: seq<RouteHop>)

  function Bases(usdg: Address, tokenIn: Address, tokenOut: Address): seq<Address> {
    if SameAddr(usdg, tokenIn) || SameAddr(usdg, tokenOut) then [] else [usdg]
  }

  /** The router's onward pick first, then each approved direct hop out of the stone. */
  function Tails(s: Stone): seq<seq<RouteHop>> {
    (if s.onward.Some? then [s.onward.value.path] else []) + seq(|s.hops|, i requires 0 <= i < |s.hops| => [s.hops[i]])
  }

  predicate Usable(s: Stone) { s.first.Some? && s.first.value.amountOut > 0 }

  predicate Joins(path: seq<RouteHop>, seen: set<string>, from: Address, to: Address) {
    IsRoutable(path, from, to) && PathKey(path) !in seen
  }

  function Join(first: seq<RouteHop>, tails: seq<seq<RouteHop>>, seen: set<string>, from: Address,
                to: Address): seq<seq<RouteHop>> {
    if tails == [] then []
    else
      var path := first + tails[0];
      if Joins(path, seen, from, to)
      then [path] + Join(first, tails[1..], seen + {PathKey(path)}, from, to)
      else Join(first, tails[1..], seen, from, to)
  }

  function Keys(paths: seq<seq<RouteHop>>): set<string> { set p | p in paths :: PathKey(p) }

  function Composed(stones: seq<Stone>, seen: set<string>, from: Address, to: Address): seq<seq<RouteHop>> {
    if stones == [] then []
    else if !Usable(stones[0]) then Composed(stones[1..], seen, from, to)
    else
      var here := Join(stones[0].first.value.path, Tails(stones[0]), seen, from, to);
      here + Composed(stones[1..], seen + Keys(here), from, to)
  }

  function OwnCandidates(own: Option<Quote>, from: Address, to: Address): seq<Candidate> {
    if own.Some? && own.value.amountOut > 0 && IsRoutable(own.value.path, from, to)
    then [Candidate(own.value.amountOut, own.value.path, PathTokens(own.value.path))]
    else []
  }

  function OwnKeys(own: Option<Quote>, from: Address, to: Address): set<string> {
    if OwnCandidates(own, from, to) == [] then {} else {PathKey(own.value.path)}
  }

  function ConfirmedCandidates(paths: seq<seq<RouteHop>>, outs: seq<Read<nat>>): seq<Candidate>
    requires |paths| == |outs| && forall k :: 0 <= k < |paths| ==> paths[k] != []
  {
    if paths == [] then []
    else (if outs[0].Answer? && outs[0].value > 0
          then [Candidate(outs[0].value, paths[0], PathTokens(paths[0]))] else [])
         + ConfirmedCandidates(paths[1..], outs[1..])
  }

  /** Highest output; on a tie the shorter path, then the earlier one. */
  predicate Better(c: Candidate, b: Candidate) {
    c.amountOut > b.amountOut || (c.amountOut == b.amountOut && |c.path| < |b.path|)
  }

  function BestOf(cs: seq<Candidate>): Option<Candidate> {
    if cs == [] then None
    else
      var b := BestOf(cs[..|cs| - 1]);
      var c := cs[|cs| - 1];
      if b.None? || Better(c, b.value) then Some(c) else b
  }

  /**
   * The order the source promises, written out: nothing on the list delivers more; nothing that delivers as much is
   * shorter; and nothing before it delivers as much over as few hops.
   */
  predicate Wins(cs: seq<Candidate>, i: nat)
    requires i < |cs|
  {
    forall j :: 0 <= j < |cs| ==>
                  || cs[j].amountOut < cs[i].amountOut
                  || (cs[j].amountOut == cs[i].amountOut && |cs[j].path| > |cs[i].path|)
                  || (cs[j].amountOut == cs[i].amountOut && |cs[j].path| == |cs[i].path| && i <= j)
  }

  /** The winner is the one candidate that comes first by output, then length, then position. */
  lemma {:induction false} BestIsLexicographicMax(cs: seq<Candidate>) returns (i: nat)
    requires cs != []
    ensures i < |cs| && BestOf(cs) == Some(cs[i]) && Wins(cs, i)
    decreases |cs|
  {
    var n := |cs| - 1;
    if n == 0 {
      i := 0;
    } else {
      var before := cs[..n];
      i := BestIsLexicographicMax(before);
      assert forall j :: 0 <= j < n ==> cs[j] == before[j];
      if Better(cs[n], before[i]) {
        i := n;
      }
    }
  }

  /** The answer of the search: a winner, whenever there is any candidate. */
  ghost predicate IsBest(best: Option<Candidate>, cs: seq<Candidate>) {
    if cs == [] then best.None? else exists i :: 0 <= i < |cs| && best == Some(cs[i]) && Wins(cs, i)
  }

  // ---------------------------------------------------------------- the whole search

  function AsOption<T>(r: Read<T>): Option<T> {
    if r.Answer? then Some(r.value) else None
  }

  function OnwardRead(node: Reads, base: Address, tokenOut: Address, first: Read<Quote>): Read<Quote> {
    if first.Answer? && first.value.amountOut > 0 then node.quote(base, tokenOut, first.value.amountOut) else No
  }

  function StoneOf(node: Reads, base: Address, tokenIn: Address, tokenOut: Address, amountIn: nat): Stone {
    var first := node.quote(tokenIn, base, amountIn);
    Stone(base, AsOption(first), AsOption(OnwardRead(node, base, tokenOut, first)),
          if node.approvedHops(base, tokenOut).Answer? then node.approvedHops(base, tokenOut).value else [])
  }

  function StonesOf(node: Reads, bases: seq<Address>, tokenIn: Address, tokenOut: Address, amountIn: nat): seq<Stone> {
    seq(|bases|, i requires 0 <= i < |bases| => StoneOf(node, bases[i], tokenIn, tokenOut, amountIn))
  }

  predicate StoneFails(node: Reads, base: Address, tokenIn: Address, tokenOut: Address, amountIn: nat) {
    var first := node.quote(tokenIn, base, amountIn);
    first.Transport? || node.approvedHops(base, tokenOut).Transport? ||
    OnwardRead(node, base, tokenOut, first).Transport?
  }

  function Outs(node: Reads, paths: seq<seq<RouteHop>>, amountIn: nat): seq<Read<nat>> {
    seq(|paths|, i requires 0 <= i < |paths| => node.quotePath(paths[i], amountIn))
  }

  function ComposedPaths(node: Reads, usdg: Address, tokenIn: Address, tokenOut: Address,
                         amountIn: nat): seq<seq<RouteHop>> {
    Composed(StonesOf(node, Bases(usdg, tokenIn, tokenOut), tokenIn, tokenOut, amountIn),
             OwnKeys(AsOption(node.quote(tokenIn, tokenOut, amountIn)), tokenIn, tokenOut), tokenIn, tokenOut)
  }

  /** USDG is a stepping stone unless it is one of the ends. */
  predicate StepsThroughUsdg(usdg: Address, tokenIn: Address, tokenOut: Address) {
    Lower(usdg) != Lower(tokenIn) && Lower(usdg) != Lower(tokenOut)
  }

  /**
   * Some read the search makes fails in transport: the router's own pick, the first leg, the approved hops or the pick
   * onward from what the first leg pays, or the check of a composed path.
   */
  predicate SomeReadFails(node: Reads, usdg: Address, tokenIn: Address, tokenOut: Address, amountIn: nat) {
    || node.quote(tokenIn, tokenOut, amountIn).Transport?
    || (StepsThroughUsdg(usdg, tokenIn, tokenOut) &&
        (|| node.quote(tokenIn, usdg, amountIn).Transport?
         || node.approvedHops(usdg, tokenOut).Transport?
         || (node.quote(tokenIn, usdg, amountIn).Answer? && node.quote(tokenIn, usdg, amountIn).value.amountOut > 0 &&
             node.quote(usdg, tokenOut, node.quote(tokenIn, usdg, amountIn).value.amountOut).Transport?)))
    || (var paths := ComposedPaths(node, usdg, tokenIn, tokenOut, amountIn);
        exists p :: p in paths && node.quotePath(p, amountIn).Transport?)
  }

  lemma {:induction false} JoinedAreRoutable(first: seq<RouteHop>, tails: seq<seq<RouteHop>>, seen: set<string>,
                                             from: Address, to: Address)
    ensures forall p :: p in Join(first, tails, seen, from, to) ==> IsRoutable(p, from, to)
    decreases |tails|
  {
    if tails != [] {
      JoinedAreRoutable(first, tails[1..], seen + {PathKey(first + tails[0])}, from, to);
      JoinedAreRoutable(first, tails[1..], seen, from, to);
    }
  }

  lemma {:induction false} ComposedAreRoutable(stones: seq<Stone>, seen: set<string>, from: Address, to: Address)
    ensures forall p :: p in Composed(stones, seen, from, to) ==> IsRoutable(p, from, to)
    decreases |stones|
  {
    if stones != [] {
      if !Usable(stones[0]) {
        ComposedAreRoutable(stones[1..], seen, from, to);
      } else {
        JoinedAreRoutable(stones[0].first.value.path, Tails(stones[0]), seen, from, to);
        var here := Join(stones[0].first.value.path, Tails(stones[0]), seen, from, to);
        ComposedAreRoutable(stones[1..], seen + Keys(here), from, to);
      }
    }
  }

  function Candidates(node: Reads, usdg: Address, tokenIn: Address, tokenOut: Address, amountIn: nat): seq<Candidate> {
    var paths := ComposedPaths(node, usdg, tokenIn, tokenOut, amountIn);
    ComposedAreRoutable(StonesOf(node, Bases(usdg, tokenIn, tokenOut), tokenIn, tokenOut, amountIn),
                        OwnKeys(AsOption(node.quote(tokenIn, tokenOut, amountIn)), tokenIn, tokenOut),
                        tokenIn, tokenOut);
    assert forall k :: 0 <= k < |paths| ==> paths[k] in paths;
    OwnCandidates(AsOption(node.quote(tokenIn, tokenOut, amountIn)), tokenIn, tokenOut)
    + ConfirmedCandidates(paths, Outs(node, paths, amountIn))
  }

  function FirstLegs(stones: seq<Stone>): map<string, nat> {
    if stones == [] then map[]
    else
      var s := stones[|stones| - 1];
      var m := FirstLegs(stones[..|stones| - 1]);
      if s.first.Some? then m[Lower(s.base) := s.first.value.amountOut] else m
  }

  /** Rounds one and two: the first legs, the approved hops and the onward picks, stone by stone. */
  method ReadStones(node: Reads, bases: seq<Address>, tokenIn: Address, tokenOut: Address, amountIn: nat)
    returns (stones: seq<Stone>, failed: bool)
    ensures failed <==> exists b :: b in bases && StoneFails(node, b, tokenIn, tokenOut, amountIn)
    ensures !failed ==> stones == StonesOf(node, bases, tokenIn, tokenOut, amountIn)
  {
    stones, failed := [], false;
    for b := 0 to |bases|
      invariant stones == StonesOf(node, bases, tokenIn, tokenOut, amountIn)[..b]
      invariant forall j :: 0 <= j < b ==> !StoneFails(node, bases[j], tokenIn, tokenOut, amountIn)
    {
      var first := node.quote(tokenIn, bases[b], amountIn);
      var hops := node.approvedHops(bases[b], tokenOut);
      var onward := OnwardRead(node, bases[b], tokenOut, first);
      if first.Transport? || hops.Transport? || onward.Transport? {
        assert bases[b] in bases && StoneFails(node, bases[b], tokenIn, tokenOut, amountIn);
        return stones, true;
      }
      stones := stones + [Stone(bases[b], AsOption(first), AsOption(onward), if hops.Answer? then hops.value else [])];
    }
  }

  lemma KeysOfOneMore(paths: seq<seq<RouteHop>>, path: seq<RouteHop>)
    ensures Keys(paths + [path]) == Keys(paths) + {PathKey(path)}
  {
    forall p | p in paths + [path] ensures p in paths || p == path {
    }
    assert forall p :: p in paths || p == path ==> p in paths + [path];
  }

  /** One tail more: kept and remembered, or dropped. */
  lemma JoinStep(first: seq<RouteHop>, tails: seq<seq<RouteHop>>, k: nat, seen: set<string>, from: Address, to: Address)
    requires k < |tails|
    ensures Join(first, tails[k..], seen, from, to)
         == (var path := first + tails[k];
             if Joins(path, seen, from, to) then [path] + Join(first, tails[k + 1..], seen + {PathKey(path)}, from, to)
             else Join(first, tails[k + 1..], seen, from, to))
  {
    assert tails[k..][1..] == tails[k + 1..];
  }

  /** The paths joined so far, and what the rest of the tails adds to them. */
  ghost predicate JoinedSoFar(joined: seq<seq<RouteHop>>, first: seq<RouteHop>, tails: seq<seq<RouteHop>>, k: nat,
                              seen: set<string>, seenBefore: set<string>, from: Address, to: Address)
    requires k <= |tails|
  {
    && joined + Join(first, tails[k..], seen, from, to) == Join(first, tails, seenBefore, from, to)
    && seen == seenBefore + Keys(joined)
  }

  lemma TailDropped(joined: seq<seq<RouteHop>>, first: seq<RouteHop>, tails: seq<seq<RouteHop>>, k: nat,
                    seen: set<string>, seenBefore: set<string>, from: Address, to: Address)
    requires k < |tails| && JoinedSoFar(joined, first, tails, k, seen, seenBefore, from, to)
    requires !Joins(first + tails[k], seen, from, to)
    ensures JoinedSoFar(joined, first, tails, k + 1, seen, seenBefore, from, to)
  {
    JoinStep(first, tails, k, seen, from, to);
  }

  lemma TailJoined(joined: seq<seq<RouteHop>>, first: seq<RouteHop>, tails: seq<seq<RouteHop>>, k: nat,
                   seen: set<string>, seenBefore: set<string>, from: Address, to: Address)
    requires k < |tails| && JoinedSoFar(joined, first, tails, k, seen, seenBefore, from, to)
    requires Joins(first + tails[k], seen, from, to)
    ensures JoinedSoFar(joined + [first + tails[k]], first, tails, k + 1, seen + {PathKey(first + tails[k])},
                        seenBefore, from, to)
  {
    var path := first + tails[k];
    var rest := Join(first, tails[k + 1..], seen + {PathKey(path)}, from, to);
    JoinStep(first, tails, k, seen, from, to);
    assert joined + ([path] + rest) == joined + [path] + rest;
    KeysOfOneMore(joined, path);
  }

  method JoinTails(first: seq<RouteHop>, tails: seq<seq<RouteHop>>, seenBefore: set<string>, tokenIn: Address,
                   tokenOut: Address)
    returns (joined: seq<seq<RouteHop>>, seen: set<string>)
    ensures joined == Join(first, tails, seenBefore, tokenIn, tokenOut)
    ensures seen == seenBefore + Keys(joined)
  {
    joined, seen := [], seenBefore;
    assert tails[0..] == tails;
    for k := 0 to |tails|
      invariant JoinedSoFar(joined, first, tails, k, seen, seenBefore, tokenIn, tokenOut)
    {
      var path := first + tails[k];
      if Joins(path, seen, tokenIn, tokenOut) {
        TailJoined(joined, first, tails, k, seen, seenBefore, tokenIn, tokenOut);
        seen := seen + {PathKey(path)};
        joined := joined + [path];
      } else {
        TailDropped(joined, first, tails, k, seen, seenBefore, tokenIn, tokenOut);
      }
    }
    assert joined + [] == joined;
  }

  method Compose(stones: seq<Stone>, ownKeys: set<string>, tokenIn: Address, tokenOut: Address)
    returns (composed: seq<seq<RouteHop>>)
    ensures composed == Composed(stones, ownKeys, tokenIn, tokenOut)
  {
    composed := [];
    var seen := ownKeys;
    for b := 0 to |stones|
      invariant composed + Composed(stones[b..], seen, tokenIn, tokenOut)
                == Composed(stones, ownKeys, tokenIn, tokenOut)
    {
      assert stones[b..][1..] == stones[b + 1..];
      if Usable(stones[b]) {
        var joined;
        joined, seen := JoinTails(stones[b].first.value.path, Tails(stones[b]), seen, tokenIn, tokenOut);
        composed := composed + joined;
      }
    }
  }

  /** Round three: every composed path is quoted end to end; one transport failure fails them all. */
  method QuoteEach(node: Reads, composed: seq<seq<RouteHop>>, amountIn: nat)
    returns (outs: seq<Read<nat>>, failed: bool)
    ensures failed <==> exists p :: p in composed && node.quotePath(p, amountIn).Transport?
    ensures !failed ==> outs == Outs(node, composed, amountIn)
  {
    outs, failed := [], false;
    for k := 0 to |composed|
      invariant |outs| == k && forall j :: 0 <= j < k ==> outs[j] == node.quotePath(composed[j], amountIn)
      invariant forall j :: 0 <= j < k ==> !node.quotePath(composed[j], amountIn).Transport?
    {
      var out := node.quotePath(composed[k], amountIn);
      if out.Transport? {
        assert composed[k] in composed;
        return outs, true;
      }
      outs := outs + [out];
    }
  }

  lemma ConfirmedStep(composed: seq<seq<RouteHop>>, outs: seq<Read<nat>>, k: nat)
    requires |outs| == |composed| && k < |composed| && forall j :: 0 <= j < |composed| ==> composed[j] != []
    ensures var rest := ConfirmedCandidates(composed[k + 1..], outs[k + 1..]);
            ConfirmedCandidates(composed[k..], outs[k..])
            == if outs[k].Answer? && outs[k].value > 0
               then [Candidate(outs[k].value, composed[k], PathTokens(composed[k]))] + rest else rest
  {
    assert composed[k..][1..] == composed[k + 1..] && outs[k..][1..] == outs[k + 1..];
  }

  /** The candidates confirmed so far, and what the rest of the paths adds to them. */
  ghost predicate ConfirmedSoFar(confirmed: seq<Candidate>, composed: seq<seq<RouteHop>>, outs: seq<Read<nat>>, k: nat)
    requires |outs| == |composed| && (forall j :: 0 <= j < |composed| ==> composed[j] != []) && k <= |composed|
  {
    confirmed + ConfirmedCandidates(composed[k..], outs[k..]) == ConfirmedCandidates(composed, outs)
  }

  lemma OneMoreConfirmed(confirmed: seq<Candidate>, composed: seq<seq<RouteHop>>, outs: seq<Read<nat>>, k: nat)
    requires |outs| == |composed| && (forall j :: 0 <= j < |composed| ==> composed[j] != []) && k < |composed|
    requires ConfirmedSoFar(confirmed, composed, outs, k)
    ensures ConfirmedSoFar(if outs[k].Answer? && outs[k].value > 0
                           then confirmed + [Candidate(outs[k].value, composed[k], PathTokens(composed[k]))]
                           else confirmed,
                           composed, outs, k + 1)
  {
    ConfirmedStep(composed, outs, k);
    var rest := ConfirmedCandidates(composed[k + 1..], outs[k + 1..]);
    if outs[k].Answer? && outs[k].value > 0 {
      var found := [Candidate(outs[k].value, composed[k], PathTokens(composed[k]))];
      assert confirmed + (found + rest) == confirmed + found + rest;
    }
  }

  /** The paths whose quote answered with something, in order. */
  method Confirm(composed: seq<seq<RouteHop>>, outs: seq<Read<nat>>) returns (confirmed: seq<Candidate>)
    requires |outs| == |composed| && forall k :: 0 <= k < |composed| ==> composed[k] != []
    ensures confirmed == ConfirmedCandidates(composed, outs)
  {
    confirmed := [];
    assert composed[0..] == composed && outs[0..] == outs;
    for k := 0 to |composed|
      invariant ConfirmedSoFar(confirmed, composed, outs, k)
    {
      OneMoreConfirmed(confirmed, composed, outs, k);
      if outs[k].Answer? && outs[k].value > 0 {
        confirmed := confirmed + [Candidate(outs[k].value, composed[k], PathTokens(composed[k]))];
      }
    }
    assert confirmed + [] == confirmed;
  }

  method Reduce(candidates: seq<Candidate>) returns (best: Option<Candidate>)
    ensures best == BestOf(candidates) && IsBest(best, candidates)
  {
    best := None;
    for k := 0 to |candidates|
      invariant best == BestOf(candidates[..k])
    {
      assert candidates[..k + 1][..k] == candidates[..k];
      if best.None? || Better(candidates[k], best.value) {
        best := Some(candidates[k]);
      }
    }
    assert candidates[..|candidates|] == candidates;
    if candidates != [] {
      var _ := BestIsLexicographicMax(candidates);
    }
  }

  /** What each stone's first leg pays, by lower-case stone. */
  method ReadFirstLegs(stones: seq<Stone>) returns (firstLegs: map<string, nat>)
    ensures firstLegs == FirstLegs(stones)
  {
    firstLegs := map[];
    for b := 0 to |stones|
      invariant firstLegs == FirstLegs(stones[..b])
    {
      assert stones[..b + 1][..b] == stones[..b];
      if stones[b].first.Some? {
        firstLegs := firstLegs[Lower(stones[b].base) := stones[b].first.value.amountOut];
      }
    }
    assert stones[..|stones|] == stones;
  }

  /** What the reads of the one stone there may be come to. */
  lemma StoneReads(node: Reads, usdg: Address, tokenIn: Address, tokenOut: Address, amountIn: nat)
    ensures var bases := Bases(usdg, tokenIn, tokenOut);
            && bases == (if StepsThroughUsdg(usdg, tokenIn, tokenOut) then [usdg] else [])
            && ((exists b :: b in bases && StoneFails(node, b, tokenIn, tokenOut, amountIn)) <==>
                  StepsThroughUsdg(usdg, tokenIn, tokenOut) && StoneFails(node, usdg, tokenIn, tokenOut, amountIn))
            && FirstLegs(StonesOf(node, bases, tokenIn, tokenOut, amountIn))
               == if StepsThroughUsdg(usdg, tokenIn, tokenOut) && node.quote(tokenIn, usdg, amountIn).Answer?
                  then map[Lower(usdg) := node.quote(tokenIn, usdg, amountIn).value.amountOut] else map[]
  {
    var stones := StonesOf(node, Bases(usdg, tokenIn, tokenOut), tokenIn, tokenOut, amountIn);
    if StepsThroughUsdg(usdg, tokenIn, tokenOut) {
      assert usdg in Bases(usdg, tokenIn, tokenOut);
      assert |stones| == 1 && stones[..0] == [];
    }
  }

  lemma SomeReadFailsMeans(node: Reads, usdg: Address, tokenIn: Address, tokenOut: Address, amountIn: nat)
    ensures SomeReadFails(node, usdg, tokenIn, tokenOut, amountIn) <==>
              || node.quote(tokenIn, tokenOut, amountIn).Transport?
              || (exists b :: b in Bases(usdg, tokenIn, tokenOut) && StoneFails(node, b, tokenIn, tokenOut, amountIn))
              || exists p :: p in ComposedPaths(node, usdg, tokenIn, tokenOut, amountIn) &&
                             node.quotePath(p, amountIn).Transport?
  {
    StoneReads(node, usdg, tokenIn, tokenOut, amountIn);
  }

  method ReadBestRoute(node: Reads, usdg: Address, tokenIn: Address, tokenOut: Address, amountIn: nat)
    returns (r: Fetched)
    ensures r.TransportFailed? <==> SomeReadFails(node, usdg, tokenIn, tokenOut, amountIn)
    ensures r.Fetched? ==> r.route.best == BestOf(Candidates(node, usdg, tokenIn, tokenOut, amountIn))
    ensures r.Fetched? ==> IsBest(r.route.best, Candidates(node, usdg, tokenIn, tokenOut, amountIn))
    ensures r.Fetched? ==>
              r.route.firstLegs
              == if StepsThroughUsdg(usdg, tokenIn, tokenOut) && node.quote(tokenIn, usdg, amountIn).Answer?
                 then map[Lower(usdg) := node.quote(tokenIn, usdg, amountIn).value.amountOut] else map[]
  {
    SomeReadFailsMeans(node, usdg, tokenIn, tokenOut, amountIn);
    var own := node.quote(tokenIn, tokenOut, amountIn);
    if own.Transport? {
      return TransportFailed;
    }
    var stones, stoneFailed := ReadStones(node, Bases(usdg, tokenIn, tokenOut), tokenIn, tokenOut, amountIn);
    if stoneFailed {
      return TransportFailed;
    }
    var candidates := OwnCandidates(AsOption(own), tokenIn, tokenOut);
    var seen: set<string> := if candidates == [] then {} else {PathKey(own.value.path)};
    var composed := Compose(stones, seen, tokenIn, tokenOut);
    ComposedAreRoutable(stones, seen, tokenIn, tokenOut);
    assert forall k :: 0 <= k < |composed| ==> composed[k] in composed;
    var outs, confirmFailed := QuoteEach(node, composed, amountIn);
    if confirmFailed {
      return TransportFailed;
    }
    var confirmed := Confirm(composed, outs);
    var best := Reduce(candidates + confirmed);
    var firstLegs := ReadFirstLegs(stones);
    StoneReads(node, usdg, tokenIn, tokenOut, amountIn);
    r := Fetched(RouteQuote(best, firstLegs));
  }
}
