/** Epoch arithmetic, chain time and the sleep bound of the scheduler, on values. */
module Epochs {
  import opened Wrappers
  import Arith

  /** A vault's immutables. Its constructor refuses an epoch length of zero. */
  datatype VaultMeta = VaultMeta(vault: string, kind: string, origin: int, epochLength: nat)

  /** The latest block timestamp and the wall-clock millisecond it was first seen at. */
  datatype Seen = Seen(ts: int, seenAtMs: int)

  predicate Proper(m: VaultMeta) { m.epochLength > 0 }

  /** Euclidean division by a positive number rounds down, as `Math.floor` does, also before the origin. */
  function EpochAt(m: VaultMeta, t: int): int
    requires Proper(m)
  {
    (t - m.origin) / m.epochLength
  }

  function Boundary(m: VaultMeta, k: int): int { m.origin + k * m.epochLength }

  function NextBoundary(m: VaultMeta, t: int): int
    requires Proper(m)
  {
    m.origin + (EpochAt(m, t) + 1) * m.epochLength
  }

  lemma BoundaryOrder(m: VaultMeta, j: int, k: int)
    requires j <= k
    ensures Boundary(m, j) <= Boundary(m, k)
  {
    Arith.MulLe(j, k, m.epochLength);
  }

  /** An epoch holds exactly the times from its own boundary up to the next. */
  lemma EpochHolds(m: VaultMeta, t: int)
    requires Proper(m)
    ensures Boundary(m, EpochAt(m, t)) <= t < Boundary(m, EpochAt(m, t) + 1)
  {
    var e := EpochAt(m, t);
    Arith.DivBounds(t - m.origin, m.epochLength);
    assert (e + 1) * m.epochLength == e * m.epochLength + m.epochLength;
  }

  lemma BoundaryReached(m: VaultMeta, k: int, t: int)
    requires Proper(m)
    ensures Boundary(m, k) <= t <==> k <= EpochAt(m, t)
  {
    var e := EpochAt(m, t);
    EpochHolds(m, t);
    if k <= e {
      BoundaryOrder(m, k, e);
    } else {
      BoundaryOrder(m, e + 1, k);
    }
  }

  /** `nextBoundary` is a boundary, lies after `t`, and no boundary after `t` comes before it. */
  lemma NextBoundaryIsLeast(m: VaultMeta, t: int)
    requires Proper(m)
    ensures NextBoundary(m, t) == Boundary(m, EpochAt(m, t) + 1)
    ensures t < NextBoundary(m, t) <= t + m.epochLength
    ensures forall k :: t < Boundary(m, k) ==> NextBoundary(m, t) <= Boundary(m, k)
  {
    var e := EpochAt(m, t);
    EpochHolds(m, t);
    assert (e + 1) * m.epochLength == e * m.epochLength + m.epochLength;
    forall k | t < Boundary(m, k) ensures NextBoundary(m, t) <= Boundary(m, k) {
      BoundaryReached(m, k, t);
      BoundaryOrder(m, e + 1, k);
    }
  }

  ghost predicate BoundaryWithin(m: VaultMeta, after: int, upTo: int) { exists k :: after < Boundary(m, k) <= upTo }

  /** The epoch numbers of two times differ exactly when a boundary lies between them. */
  lemma EpochAdvancesAtBoundaries(m: VaultMeta, before: int, now: int)
    requires Proper(m)
    ensures EpochAt(m, now) > EpochAt(m, before) <==> BoundaryWithin(m, before, now)
  {
    var e := EpochAt(m, before);
    if EpochAt(m, now) > e {
      BoundaryReached(m, e + 1, now);
      BoundaryReached(m, e + 1, before);
      assert before < Boundary(m, e + 1) <= now;
    } else if k :| before < Boundary(m, k) <= now {
      BoundaryReached(m, k, before);
      BoundaryReached(m, k, now);
    }
  }

  // ---------------------------------------------------------------- chain time

  function ChainNow(seen: Option<Seen>, nowMs: int): int {
    var wall := nowMs / 1000;
    if seen.None? then wall
    else
      var guess := seen.value.ts + (nowMs - seen.value.seenAtMs) / 1000;
      if wall > guess then wall else guess
  }

  function Observed(seen: Option<Seen>, ts: int, nowMs: int): Seen {
    if seen.None? || seen.value.ts != ts then Seen(ts, nowMs) else seen.value
  }

  /** The same block seen again and again, at the given wall-clock times. */
  function ObservedAgain(seen: Seen, times: seq<int>): Seen
    decreases |times|
  {
    if times == [] then seen else ObservedAgain(Observed(Some(seen), seen.ts, times[0]), times[1..])
  }

  /** Time on an idle chain keeps running from the first sighting of its last block, however often it is read. */
  lemma {:induction false} IdleChainKeepsTime(seen: Seen, times: seq<int>, nowMs: int)
    ensures ObservedAgain(seen, times) == seen
    ensures ChainNow(Some(ObservedAgain(seen, times)), nowMs) >= seen.ts + (nowMs - seen.seenAtMs) / 1000
    decreases |times|
  {
    if times != [] {
      IdleChainKeepsTime(Observed(Some(seen), seen.ts, times[0]), times[1..], nowMs);
    }
  }

  /** Once a block is observed, the clock is behind neither that block nor the wall. */
  lemma ClockIsNeverBehind(seen: Option<Seen>, ts: int, atMs: int, nowMs: int)
    requires atMs <= nowMs && (seen.Some? ==> seen.value.seenAtMs <= atMs)
    ensures ChainNow(Some(Observed(seen, ts, atMs)), nowMs) >= ts
    ensures ChainNow(Some(Observed(seen, ts, atMs)), nowMs) >= nowMs / 1000
  {
  }

  lemma FloorOfSum(a: int, d: nat)
    ensures (a + d) / 1000 <= a / 1000 + d / 1000 + 1
  {
  }

  /** The clock runs no faster than the wall, give or take the second lost to rounding. */
  lemma ClockRunsWithTheWall(seen: Option<Seen>, nowMs: int, d: nat)
    ensures ChainNow(seen, nowMs) <= ChainNow(seen, nowMs + d) <= ChainNow(seen, nowMs) + d / 1000 + 1
  {
    FloorOfSum(nowMs, d);
    if seen.Some? {
      FloorOfSum(nowMs - seen.value.seenAtMs, d);
      assert nowMs + d - seen.value.seenAtMs == nowMs - seen.value.seenAtMs + d;
    }
  }

  // ---------------------------------------------------------------- sleeping

  function Min(a: int, b: int): int { if a < b then a else b }

  function Max(a: int, b: int): int { if a < b then b else a }

  function DelayUntil(boundary: int, now: int, pollMs: nat, graceMs: nat): int {
    Min(pollMs, Max(1000, (boundary - now) * 1000 + graceMs))
  }

  /** The least one-second sleep never applies: a boundary ahead is at least a second away. */
  lemma FloorNeverBinds(m: VaultMeta, now: int, pollMs: nat, graceMs: nat)
    requires Proper(m)
    ensures var untilGrace := (NextBoundary(m, now) - now) * 1000 + graceMs;
            && untilGrace >= 1000
            && DelayUntil(NextBoundary(m, now), now, pollMs, graceMs)
               == if pollMs < untilGrace then pollMs else untilGrace
  {
    NextBoundaryIsLeast(m, now);
  }

  /** A sleep that respects a vault's boundary plus grace ends before that vault's boundary after next. */
  lemma SleepSkipsNoEpoch(m: VaultMeta, seen: Option<Seen>, nowMs: int, delay: nat, graceMs: nat)
    requires Proper(m) && graceMs / 1000 + 1 < m.epochLength
    requires delay <= (NextBoundary(m, ChainNow(seen, nowMs)) - ChainNow(seen, nowMs)) * 1000 + graceMs
    ensures EpochAt(m, ChainNow(seen, nowMs)) <= EpochAt(m, ChainNow(seen, nowMs + delay))
    ensures EpochAt(m, ChainNow(seen, nowMs + delay)) <= EpochAt(m, ChainNow(seen, nowMs)) + 1
  {
    var now := ChainNow(seen, nowMs);
    var later := ChainNow(seen, nowMs + delay);
    var e := EpochAt(m, now);
    ClockRunsWithTheWall(seen, nowMs, delay);
    NextBoundaryIsLeast(m, now);
    assert delay / 1000 <= NextBoundary(m, now) - now + graceMs / 1000;
    assert Boundary(m, e + 2) == Boundary(m, e + 1) + m.epochLength by {
      assert (e + 2) * m.epochLength == (e + 1) * m.epochLength + m.epochLength;
    }
    BoundaryReached(m, e + 2, later);
    EpochHolds(m, now);
    BoundaryReached(m, e, later);
  }
}
