/**
 * A router that answers as documented: it searches the direct hops and the pairs through WETH, and refuses every path
 * that is empty, too long, unchained or unapproved. Every network has one, and its reads are what optimality assumes.
 */
module PlainRouter {
  import opened TxTypes
  import opened BestRoute
  import opened RouteTheorems
  import opened RouteOptimality

  function HopsBetween(hops: seq<RouteHop>, a: Address, b: Address): seq<RouteHop> {
    if hops == [] then [] else (if Connects(hops[0], a, b) then [hops[0]] else []) + HopsBetween(hops[1..], a, b)
  }

  function Singles(hops: seq<RouteHop>): seq<seq<RouteHop>> {
    seq(|hops|, i requires 0 <= i < |hops| => [hops[i]])
  }

  function Pairs(first: seq<RouteHop>, second: seq<RouteHop>): seq<seq<RouteHop>> {
    if first == [] then []
    else seq(|second|, i requires 0 <= i < |second| => [first[0], second[i]]) + Pairs(first[1..], second)
  }

  /** Every path the search tries, direct hops first. */
  function Tried(net: Net, from: Address, to: Address): seq<seq<RouteHop>> {
    Singles(HopsBetween(net.approved, from, to)) +
    (if SameAddr(from, net.weth) || SameAddr(to, net.weth) then []
     else Pairs(HopsBetween(net.approved, from, net.weth), HopsBetween(net.approved, net.weth, to)))
  }

  /** The first of the paths that delivers the most. */
  function Pick(net: Net, paths: seq<seq<RouteHop>>, x: nat): seq<RouteHop>
    requires paths != []
  {
    if |paths| == 1 then paths[0]
    else
      var rest := Pick(net, paths[1..], x);
      if PathOut(net, paths[0], x) >= PathOut(net, rest, x) then paths[0] else rest
  }

  function QuoteOf(net: Net, from: Address, to: Address, x: nat): Read<Quote> {
    var paths := Tried(net, from, to);
    if paths == [] then No
    else
      var path := Pick(net, paths, x);
      if PathOut(net, path, x) == 0 then No else Answer(Quote(PathOut(net, path, x), path))
  }

  predicate Priced(net: Net, p: seq<RouteHop>) { Chains(p) && forall i :: 0 <= i < |p| ==> p[i] in net.approved }

  function QuotePathOf(net: Net, p: seq<RouteHop>, x: nat): Read<nat> {
    if Priced(net, p) && PathOut(net, p, x) > 0 then Answer(PathOut(net, p, x)) else No
  }

  function RouterOf(net: Net): Reads {
    Reads((a, b, x: nat) => QuoteOf(net, a, b, x), (a, b) => Answer(HopsBetween(net.approved, a, b)),
          (p, x: nat) => QuotePathOf(net, p, x))
  }

  lemma {:induction false} HopsBetweenAre(hops: seq<RouteHop>, a: Address, b: Address, h: RouteHop)
    ensures h in HopsBetween(hops, a, b) <==> h in hops && Connects(h, a, b)
    decreases |hops|
  {
    if hops != [] {
      HopsBetweenAre(hops[1..], a, b, h);
      assert hops == [hops[0]] + hops[1..];
    }
  }

  lemma {:induction false} PairsAre(first: seq<RouteHop>, second: seq<RouteHop>, p: seq<RouteHop>)
    ensures p in Pairs(first, second) <==> |p| == 2 && p[0] in first && p[1] in second
    decreases |first|
  {
    if first != [] {
      PairsAre(first[1..], second, p);
      assert first == [first[0]] + first[1..];
      var here := seq(|second|, i requires 0 <= i < |second| => [first[0], second[i]]);
      if |p| == 2 && p[0] == first[0] && p[1] in second {
        var i :| 0 <= i < |second| && second[i] == p[1];
        assert p == [first[0], second[i]] == here[i];
      }
      assert p in here ==> |p| == 2 && p[0] == first[0] && p[1] in second;
    }
  }

  lemma SinglesAre(hops: seq<RouteHop>, p: seq<RouteHop>)
    ensures p in Singles(hops) <==> |p| == 1 && p[0] in hops
  {
    if |p| == 1 && p[0] in hops {
      var i :| 0 <= i < |hops| && hops[i] == p[0];
      assert p == [hops[i]] == Singles(hops)[i];
    }
  }

  /** What the router tries is exactly its documented search. */
  lemma TriedIsTheSearch(net: Net, from: Address, to: Address, p: seq<RouteHop>)
    ensures p in Tried(net, from, to) <==> InSearch(net, p, from, to)
  {
    SinglesAre(HopsBetween(net.approved, from, to), p);
    PairsAre(HopsBetween(net.approved, from, net.weth), HopsBetween(net.approved, net.weth, to), p);
    if |p| == 1 {
      HopsBetweenAre(net.approved, from, to, p[0]);
    }
    if |p| == 2 {
      HopsBetweenAre(net.approved, from, net.weth, p[0]);
      HopsBetweenAre(net.approved, net.weth, to, p[1]);
    }
  }

  lemma {:induction false} PickIsBest(net: Net, paths: seq<seq<RouteHop>>, x: nat)
    requires paths != []
    ensures Pick(net, paths, x) in paths
    ensures forall p :: p in paths ==> PathOut(net, p, x) <= PathOut(net, Pick(net, paths, x), x)
    decreases |paths|
  {
    if |paths| > 1 {
      PickIsBest(net, paths[1..], x);
      assert paths == [paths[0]] + paths[1..];
    }
  }

  lemma QuoteIsHonest(net: Net, from: Address, to: Address, x: nat)
    ensures HonestQuote(net, QuoteOf(net, from, to, x), from, to, x)
  {
    var paths := Tried(net, from, to);
    forall p ensures p in paths <==> InSearch(net, p, from, to) {
      TriedIsTheSearch(net, from, to, p);
    }
    if paths != [] {
      PickIsBest(net, paths, x);
    }
  }

  lemma HopsAreHonest(net: Net, from: Address, to: Address)
    ensures HonestHops(net, Answer(HopsBetween(net.approved, from, to)), from, to)
  {
    forall h ensures h in HopsBetween(net.approved, from, to) <==> h in net.approved && Connects(h, from, to) {
      HopsBetweenAre(net.approved, from, to, h);
    }
  }

  /**
   * Every network has a router that answers as optimality assumes and refuses what the contract refuses: the empty
   * path, more than three hops, hops that do not chain, a hop that is not approved, and nothing to deliver.
   */
  lemma EveryNetworkHasAnHonestRouter(net: Net)
    ensures Honest(net, RouterOf(net))
    ensures forall p, x: nat :: !Chains(p) ==> RouterOf(net).quotePath(p, x) == No
    ensures forall p, x: nat, i :: 0 <= i < |p| && p[i] !in net.approved ==> RouterOf(net).quotePath(p, x) == No
    ensures forall a, b, x: nat :: !RouterOf(net).quote(a, b, x).Transport?
  {
    var node := RouterOf(net);
    forall from, to, x: nat ensures HonestQuote(net, node.quote(from, to, x), from, to, x) {
      QuoteIsHonest(net, from, to, x);
    }
    forall from, to ensures HonestHops(net, node.approvedHops(from, to), from, to) {
      HopsAreHonest(net, from, to);
    }
  }

  /**
   * So every search of two different tokens on a physical network, over such a router, meets optimality's hypotheses.
   */
  lemma EverySearchIsSound(net: Net, usdg: Address, tokenIn: Address, tokenOut: Address, amountIn: nat)
    requires Physical(net) && !SameAddr(usdg, net.weth) && !SameAddr(tokenIn, tokenOut)
    ensures Sound(Search(RouterOf(net), net, usdg, tokenIn, tokenOut, amountIn))
  {
    EveryNetworkHasAnHonestRouter(net);
  }

  /**
   * Physical networks are as many as their hop lists: this one hands on half of what it is given, over any approved
   * hops.
   */
  lemma HalvingIsPhysical(hops: seq<RouteHop>, weth: Address)
    requires PathOk(hops)
    ensures Physical(Net(hops, weth, (h, x: nat) => x / 2))
  {
  }
}
