/** The boost pool's share arithmetic: a withdrawal of part of a plan's boosted balance never leaves it more. */
module BoostMath {
  import opened RemovePlan
  import opened PlanVault
  import Arith

  /** What the pool holds: the value of its position, and the shares of all plans. */
  datatype Pool = Pool(assets: nat, shares: nat)

  /** The USDG value of some shares, rounded down, with the virtual share and asset. */
  function ValueOf(pool: Pool, shares: nat): nat { shares * (pool.assets + 1) / (pool.shares + 1) }

  /** The shares behind an amount, rounded up. */
  function SharesFor(pool: Pool, a: nat): nat { (a * (pool.shares + 1) + pool.assets) / (pool.assets + 1) }

  /** The pool once `a` was pulled out of the position and the shares behind it were burnt. */
  function After(pool: Pool, a: nat): Pool
    requires a <= pool.assets && SharesFor(pool, a) <= pool.shares
  {
    Pool(pool.assets - a, pool.shares - SharesFor(pool, a))
  }

  lemma SharesForBounds(pool: Pool, a: nat)
    ensures var s := SharesFor(pool, a);
            (s - 1) * (pool.assets + 1) < a * (pool.shares + 1) <= s * (pool.assets + 1)
  {
    Arith.DivBounds(a * (pool.shares + 1) + pool.assets, pool.assets + 1);
    var s := SharesFor(pool, a);
    assert (s - 1) * (pool.assets + 1) == s * (pool.assets + 1) - (pool.assets + 1);
  }

  /** Less than the whole value costs no more than the shares held, which are no more than the pool's. */
  lemma EnoughShares(pool: Pool, held: nat, a: nat)
    requires held <= pool.shares && a < ValueOf(pool, held)
    ensures SharesFor(pool, a) <= held && a <= pool.assets
  {
    var b, t, v, s := pool.assets + 1, pool.shares + 1, ValueOf(pool, held), SharesFor(pool, a);
    Arith.DivBounds(held * b, t);
    SharesForBounds(pool, a);
    Arith.MulLe(a + 1, v, t);
    assert (a + 1) * t == a * t + t;
    if s > held {
      Arith.MulLe(held, s - 1, b);
      assert false;
    }
    Arith.MulLe(held, t, b);
    if a > pool.assets {
      Arith.MulLe(b, a, t);
      assert false;
    }
  }

  /** What the burn does to the rest of the plan, before rounding the value down. */
  lemma RestAfterBurn(b: nat, t: nat, held: nat, a: nat, s: nat)
    requires s <= held && a <= b
    ensures (t - s) * (held * b - a * t) - t * ((held - s) * (b - a)) == (s * b - a * t) * (t - held)
  {
    calc {
      (t - s) * (held * b - a * t) - t * ((held - s) * (b - a));
    ==
      t * (held * b) - t * (a * t) - s * (held * b) + s * (a * t)
      - (t * (held * b) - t * (held * a) - t * (s * b) + t * (s * a));
    ==
      (s * b - a * t) * t - (s * b - a * t) * held;
    ==
      (s * b - a * t) * (t - held);
    }
  }

  /** `w` is the floor of `x / u`, `k + r / t` at least `y / t`, and `t * x` at most `u * y`: so `w` is at most `k`. */
  lemma FloorAtMost(t: nat, u: nat, x: nat, y: int, k: int, w: nat)
    requires t > 0 && u > 0 && t * x <= u * y && w * u <= x && y < (k + 1) * t
    ensures w <= k
  {
    if w > k {
      Arith.MulLe(w * u, x, t);
      Arith.MulLe(y + 1, (k + 1) * t, u);
      Arith.MulLe(k + 1, w, u * t);
      assert false;
    }
  }

  /** `t * x` above `u * (y - b)`, and `x` below `(w + 1) * u`: so `y - b` is below `(w + 1) * t`. */
  lemma FloorAtLeast(t: nat, u: nat, x: nat, y: int, b: nat, w: nat)
    requires t > 0 && u > 0 && u * (y - b) < t * x && x < (w + 1) * u
    ensures y - b < (w + 1) * t
  {
    if y - b >= (w + 1) * t {
      Arith.MulLe((w + 1) * t, y - b, u);
      Arith.MulLe(x, (w + 1) * u, t);
      assert false;
    }
  }

  lemma FloorsOfBoth(t: nat, u: nat, x: nat, y: int, gap: int, b: nat, k: int, w: nat)
    requires t > 0 && u > 0 && u * y - t * x == gap && 0 <= gap < u * b
    requires w * u <= x < (w + 1) * u && k * t <= y < (k + 1) * t
    ensures w <= k && (k - w - 1) * t < b
  {
    FloorAtMost(t, u, x, y, k, w);
    assert u * (y - b) == u * y - u * b;
    FloorAtLeast(t, u, x, y, b, w);
    assert (k - w - 1) * t == k * t - (w + 1) * t;
  }

  lemma BurnIsBelow(d: int, b: nat, r: nat, u: nat)
    requires 0 <= d < b && r <= u && u > 0
    ensures 0 <= d * r < u * b
  {
    Arith.MulLe(0, d, r);
    Arith.MulLe(d, b - 1, r);
    Arith.MulLe(r, u, b - 1);
    assert (b - 1) * u == u * b - u;
  }

  lemma GapBounds(b: nat, t: nat, held: nat, a: nat, s: nat)
    requires held < t && s <= held && (s - 1) * b < a * t <= s * b
    ensures 0 <= (s * b - a * t) * (t - held) < (t - s) * b
  {
    assert (s - 1) * b == s * b - b;
    BurnIsBelow(s * b - a * t, b, t - held, t - s);
  }

  lemma Gap(b: nat, t: nat, held: nat, a: nat, s: nat) returns (gap: int)
    requires held < t && s <= held && a <= b && (s - 1) * b < a * t <= s * b
    ensures (t - s) * (held * b - a * t) - t * ((held - s) * (b - a)) == gap && 0 <= gap < (t - s) * b
  {
    gap := (s * b - a * t) * (t - held);
    GapBounds(b, t, held, a, s);
    RestAfterBurn(b, t, held, a, s);
  }

  lemma Share(value: nat, t: nat, a: nat, v: nat) returns (y: int)
    requires v * t <= value < v * t + t
    ensures y == value - a * t && (v - a) * t <= y < (v - a + 1) * t
  {
    y := value - a * t;
    assert (v - a) * t == v * t - a * t && (v - a + 1) * t == v * t - a * t + t;
  }

  lemma RestBounds(b: nat, t: nat, held: nat, a: nat, s: nat, v: nat, w: nat)
    requires held < t && s <= held && a < v && a <= b && (s - 1) * b < a * t <= s * b
    requires v * t <= held * b < v * t + t
    requires w * (t - s) <= (held - s) * (b - a) < (w + 1) * (t - s)
    ensures w + a <= v && (v - a - w - 1) * t < b
  {
    var gap := Gap(b, t, held, a, s);
    var y := Share(held * b, t, a, v);
    FloorsOfBoth(t, t - s, (held - s) * (b - a), y, gap, b, v - a, w);
  }

  /**
   * What is left and what was taken out are together no more than there was, and less by at most one unit more than the
   * price of a share.
   */
  lemma PartNeverGains(pool: Pool, held: nat, a: nat)
    requires held <= pool.shares && a < ValueOf(pool, held)
    ensures SharesFor(pool, a) <= held && a <= pool.assets
    ensures var left := ValueOf(After(pool, a), held - SharesFor(pool, a));
            left + a <= ValueOf(pool, held) &&
            (ValueOf(pool, held) - a - left - 1) * (pool.shares + 1) < pool.assets + 1
  {
    EnoughShares(pool, held, a);
    SharesForBounds(pool, a);
    var b, t, s := pool.assets + 1, pool.shares + 1, SharesFor(pool, a);
    var v, w := ValueOf(pool, held), ValueOf(After(pool, a), held - s);
    FloorBounds(held * b, t, v);
    FloorBounds((held - s) * (b - a), t - s, w);
    RestBounds(b, t, held, a, s, v, w);
  }

  lemma FloorBounds(x: nat, t: nat, q: nat)
    requires t > 0 && q == x / t
    ensures q * t <= x < q * t + t && x < (q + 1) * t
  {
    Arith.DivBounds(x, t);
  }

  /** The pool as the vault asks it, where the plan's figures are the pool's own. */
  function BurnOf(pool: Pool): (FreshPlan, nat) -> Left {
    (p: FreshPlan, a: nat) =>
      if p.boostShares <= pool.shares && p.boostValue == ValueOf(pool, p.boostShares) && a < p.boostValue then
        PartNeverGains(pool, p.boostShares, a);
        var rest := p.boostShares - SharesFor(pool, a);
        Left(rest, ValueOf(After(pool, a), rest))
      else Left(0, 0)
  }

  /** Whatever the pool holds, it rounds the way the conservation of a plan's USDG relies on. */
  lemma EveryPoolRoundsUp(pool: Pool)
    ensures RoundsUp(BurnOf(pool))
  {
    forall p: FreshPlan, a: nat | 0 < a < p.boostValue
      ensures var left := BurnOf(pool)(p, a);
              left.shares <= p.boostShares && left.value + a <= p.boostValue && (left.shares == 0 ==> left.value == 0)
    {
      if p.boostShares <= pool.shares && p.boostValue == ValueOf(pool, p.boostShares) {
        PartNeverGains(pool, p.boostShares, a);
        if p.boostShares == SharesFor(pool, a) {
          NoSharesNoValue(After(pool, a));
        }
      }
    }
  }

  lemma NoSharesNoValue(pool: Pool)
    ensures ValueOf(pool, 0) == 0
  {
    Arith.DivModUnique(0, pool.shares + 1, 0, 0);
  }

  /** And some withdrawals do lose: 4 of 10 shares in 25 USDG are worth 9, and taking 1 leaves 7. */
  lemma SomePartLoses()
    ensures ValueOf(Pool(25, 10), 4) == 9 && SharesFor(Pool(25, 10), 1) == 1
    ensures ValueOf(After(Pool(25, 10), 1), 3) == 7
  {
  }
}
