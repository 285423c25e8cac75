/** Fees, cents and estimates: `format.ts`, `planFunds.ts` and `planEstimate.ts` on exact integers. */
module Money {
  import opened Wrappers
  import opened Arith

  const BPS: nat := 10_000
  const USDG_DUST: nat := 10_000
  const ESTIMATE_PROBE_USDG: nat := 1_000_000
  const MIN_PROBE_OUT: nat := 10_000

  function FeeOf(amount: nat, bps: nat): nat { amount * bps / BPS }

  /** What is left of an amount once the floored fee is taken. */
  function Net(amount: nat, bps: nat): int { amount - FeeOf(amount, bps) }

  /** The whole cents `fmtUsd` prints for a non-negative amount of 6-decimal USDG: rounded half up. */
  function UsdCents(v: nat): nat { (v * 100 + 500_000) / 1_000_000 }

  lemma FeeIsAtMostTheAmount(amount: nat, bps: nat)
    requires bps <= BPS
    ensures FeeOf(amount, bps) <= amount
  {
    assert amount * bps <= amount * BPS;
  }

  /** What is printed is the nearest cent, a half going up. */
  lemma UsdCentsIsNearest(v: nat)
    ensures -5_000 < UsdCents(v) * 10_000 - v <= 5_000
  {
  }

  /** The fee is the rounded-down share, to the unit: no larger, and less than one unit short. */
  lemma FeeIsFloored(amount: nat, bps: nat)
    ensures FeeOf(amount, bps) * BPS <= amount * bps < (FeeOf(amount, bps) + 1) * BPS
  {
  }

  // ---------------------------------------------------------------- deposits

  /** A deposit that credits at least `net`, rounded up to the cent. */
  function DepositFor(net: nat, feeBps: nat): nat {
    var gross := if feeBps < BPS then (net * BPS + (BPS - feeBps) - 1) / (BPS - feeBps) else net;
    (gross + USDG_DUST - 1) / USDG_DUST * USDG_DUST
  }

  /** Net of a gross amount, by its defining inequality: the largest whole number of units the floored fee leaves. */
  lemma NetBounds(g: nat, feeBps: nat)
    requires feeBps < BPS
    ensures g * (BPS - feeBps) <= Net(g, feeBps) * BPS < g * (BPS - feeBps) + BPS
  {
    FeeIsFloored(g, feeBps);
    assert g * (BPS - feeBps) == g * BPS - g * feeBps;
  }

  lemma GrossBounds(net: nat, keep: nat, gross: int)
    requires keep > 0 && gross == (net * BPS + keep - 1) / keep
    ensures gross >= 0 && gross * keep >= net * BPS && (gross - 1) * keep < net * BPS
  {
    DivBounds(net * BPS + keep - 1, keep);
    assert (gross - 1) * keep == gross * keep - keep;
    if gross < 0 { MulLe(gross, -1, keep); }
  }

  lemma RoundUpToTheCent(gross: nat)
    ensures var d := (gross + USDG_DUST - 1) / USDG_DUST * USDG_DUST;
            gross <= d < gross + USDG_DUST && UsdCents(d) * USDG_DUST == d
  {
    var c := (gross + USDG_DUST - 1) / USDG_DUST;
    assert UsdCents(c * USDG_DUST) == c;
  }

  /**
   * The gross-up is enough and not a cent too much, and the figure is a whole number of cents, so it prints exactly.
   */
  lemma DepositForIsTight(net: nat, feeBps: nat)
    requires feeBps < BPS
    ensures Net(DepositFor(net, feeBps), feeBps) >= net
    ensures DepositFor(net, feeBps) >= USDG_DUST ==> Net(DepositFor(net, feeBps) - USDG_DUST, feeBps) <= net
    ensures DepositFor(net, feeBps) == UsdCents(DepositFor(net, feeBps)) * USDG_DUST
  {
    var keep := BPS - feeBps;
    var gross := (net * BPS + keep - 1) / keep;
    GrossBounds(net, keep, gross);
    RoundUpToTheCent(gross);
    Credits(net, feeBps, gross, DepositFor(net, feeBps));
  }

  /** With nothing left of a deposit once the fee is taken, the figure is the amount itself, up to the cent. */
  lemma DepositForAtFullFee(net: nat, feeBps: nat)
    requires feeBps >= BPS
    ensures net <= DepositFor(net, feeBps) < net + 10_000
    ensures DepositFor(net, feeBps) == UsdCents(DepositFor(net, feeBps)) * 10_000
  {
    RoundUpToTheCent(net);
  }

  lemma Credits(net: nat, feeBps: nat, gross: nat, d: nat)
    requires feeBps < BPS && gross <= d < gross + USDG_DUST
    requires gross * (BPS - feeBps) >= net * BPS && (gross - 1) * (BPS - feeBps) < net * BPS
    ensures Net(d, feeBps) >= net
    ensures d >= USDG_DUST ==> Net(d - USDG_DUST, feeBps) <= net
  {
    NetBounds(d, feeBps);
    MulLe(gross, d, BPS - feeBps);
    if d >= USDG_DUST {
      NetBounds(d - USDG_DUST, feeBps);
      MulLe(d - USDG_DUST, gross - 1, BPS - feeBps);
    }
  }

  /** A larger deposit never credits less. */
  lemma NetIsMonotone(a: nat, b: nat, feeBps: nat)
    requires a <= b && feeBps <= BPS
    ensures Net(a, feeBps) <= Net(b, feeBps)
  {
    FeeIsFloored(a, feeBps);
    FeeIsFloored(b, feeBps);
    MulLe(feeBps, BPS, b - a);
    assert b * feeBps == a * feeBps + (b - a) * feeBps;
  }

  // ---------------------------------------------------------------- coverage

  /** What the vault does with a balance: each buy spends the smaller of the balance and the per-buy amount. */
  function Buys(balance: nat, perBuy: nat): seq<nat>
    requires perBuy > 0
  {
    if balance == 0 then []
    else
      var spend := if balance < perBuy then balance else perBuy;
      [spend] + Buys(balance - spend, perBuy)
  }

  /**
   * The parts of the copy: a dash, "less than one buy", or a number of buys and a final smaller one when it is shown.
   */
  datatype Coverage = Dash | LessThanOne | Covers(full: nat, final: Option<nat>)

  function CoverageCopy(balance: nat, perBuy: nat): Coverage {
    if perBuy == 0 then Dash
    else
      var full := balance / perBuy;
      var rest := balance - full * perBuy;
      if full == 0 then LessThanOne else Covers(full, if rest >= USDG_DUST then Some(rest) else None)
  }

  function Total(s: seq<nat>): nat { if s == [] then 0 else s[0] + Total(s[1..]) }

  /**
   * Spending to exhaustion makes exactly quotient-many full buys and then, if anything is left, one buy of the
   * remainder.
   */
  lemma {:induction false} BuysAreQuotientAndRemainder(balance: nat, perBuy: nat)
    requires perBuy > 0
    ensures |Buys(balance, perBuy)| == balance / perBuy + (if balance % perBuy > 0 then 1 else 0)
    ensures forall i :: 0 <= i < balance / perBuy && i < |Buys(balance, perBuy)| ==> Buys(balance, perBuy)[i] == perBuy
    ensures balance % perBuy > 0 ==>
              Buys(balance, perBuy) != [] && Buys(balance, perBuy)[|Buys(balance, perBuy)| - 1] == balance % perBuy
    ensures Total(Buys(balance, perBuy)) == balance
    decreases balance
  {
    if balance >= perBuy {
      BuysAreQuotientAndRemainder(balance - perBuy, perBuy);
      DivStep(balance, perBuy);
      var rest := Buys(balance - perBuy, perBuy);
      assert Buys(balance, perBuy) == [perBuy] + rest;
    } else {
      DivModUnique(balance, perBuy, 0, balance);
      if balance > 0 {
        assert Buys(balance, perBuy) == [balance] + Buys(0, perBuy);
      }
    }
  }

  lemma CopyIsQuotientAndRemainder(balance: nat, perBuy: nat)
    requires perBuy > 0
    ensures CoverageCopy(balance, perBuy)
         == if balance / perBuy == 0 then LessThanOne
            else Covers(balance / perBuy, if balance % perBuy >= USDG_DUST then Some(balance % perBuy) else None)
  {
    RemainderIsTheRest(balance, perBuy);
  }

  /** The copy counts the vault's buys: the full ones, and the final one exactly when it is at least a cent. */
  lemma CoverageMatchesBuys(balance: nat, perBuy: nat)
    requires perBuy > 0
    ensures var b := Buys(balance, perBuy);
            match CoverageCopy(balance, perBuy)
            case Dash => false
            case LessThanOne => |b| <= 1 && forall i :: 0 <= i < |b| ==> b[i] < perBuy
            case Covers(full, final) =>
              full >= 1 && full <= |b| <= full + 1 && (forall i :: 0 <= i < full ==> b[i] == perBuy) &&
              (final.Some? <==> |b| == full + 1 && b[full] >= USDG_DUST) && (final.Some? ==> final.value == b[full])
  {
    BuysAreQuotientAndRemainder(balance, perBuy);
    CopyIsQuotientAndRemainder(balance, perBuy);
    if balance / perBuy == 0 {
      RemainderIsTheRest(balance, perBuy);
    }
  }

  datatype FundsLevel = Empty | Dust | Short | Enough

  function FundsLevelOf(balance: nat, perBuy: nat): FundsLevel {
    if balance == 0 then Empty else if balance < USDG_DUST then Dust else if balance < perBuy then Short else Enough
  }

  /**
   * The levels, by what they promise: `Enough` is at least one full buy and at least a cent; only `Empty` never buys.
   */
  lemma FundsLevelMeans(balance: nat, perBuy: nat)
    requires perBuy > 0
    ensures FundsLevelOf(balance, perBuy) == Enough <==>
              Buys(balance, perBuy) != [] && Buys(balance, perBuy)[0] == perBuy && balance >= USDG_DUST
    ensures FundsLevelOf(balance, perBuy) == Empty <==> Buys(balance, perBuy) == []
    ensures FundsLevelOf(balance, perBuy) == Short ==> Buys(balance, perBuy) == [balance]
  {
    if 0 < balance < perBuy {
      assert Buys(0, perBuy) == [];
    }
  }

  // ---------------------------------------------------------------- the estimate

  function StockFor(usdg: nat, probeOut: Option<nat>, feeBps: nat): Option<int> {
    if probeOut.None? || probeOut.value < MIN_PROBE_OUT then None
    else Some(Net(usdg, feeBps) * probeOut.value / ESTIMATE_PROBE_USDG)
  }

  /** An exact amount of stock: what the net spend buys at `rate` units for one USDG. */
  function TrueStock(usdg: nat, rate: real, feeBps: nat): real {
    Net(usdg, feeBps) as real * rate / ESTIMATE_PROBE_USDG as real
  }

  lemma RateBounds(n: real, probe: real, rate: real)
    requires n >= 0.0 && probe >= 10_000.0 && probe <= rate < probe + 1.0
    ensures n * probe <= n * rate
    ensures n * rate * 10_000.0 <= n * probe * 10_001.0
  {
    assert rate * 10_000.0 <= probe * 10_001.0;
    assert n * (probe * 10_001.0 - rate * 10_000.0) >= 0.0;
    assert n * (rate - probe) >= 0.0;
  }

  /** The same bounds on the scaled products, with the floor taken. */
  lemma ScaledBounds(e: int, p: int, t: real)
    requires e == p / ESTIMATE_PROBE_USDG && p as real <= t && t * 10_000.0 <= p as real * 10_001.0
    ensures e as real <= t / 1_000_000.0
    ensures t / 1_000_000.0 * 10_000.0 / 10_001.0 < e as real + 1.0
  {
    assert e * 1_000_000 <= p < (e + 1) * 1_000_000;
    assert e as real * 1_000_000.0 <= p as real < (e as real + 1.0) * 1_000_000.0;
  }

  /**
   * With the quote floored from the true rate, the estimate is never high, and never lower than 10000/10001 of the
   * truth by a whole unit.
   */
  lemma EstimateBound(usdg: nat, probeOut: nat, rate: real, feeBps: nat)
    requires feeBps <= BPS && probeOut >= MIN_PROBE_OUT && probeOut as real <= rate < (probeOut + 1) as real
    ensures StockFor(usdg, Some(probeOut), feeBps).Some?
    ensures StockFor(usdg, Some(probeOut), feeBps).value as real <= TrueStock(usdg, rate, feeBps)
    ensures TrueStock(usdg, rate, feeBps) * 10_000.0 / 10_001.0
          < StockFor(usdg, Some(probeOut), feeBps).value as real + 1.0
  {
    FeeIsAtMostTheAmount(usdg, feeBps);
    var n := Net(usdg, feeBps);
    RateBounds(n as real, probeOut as real, rate);
    RealProduct(n, probeOut);
    var p, t := n * probeOut, n as real * rate;
    assert p as real <= t;
    assert t * 10_000.0 <= p as real * 10_001.0;
    ScaledBounds(p / ESTIMATE_PROBE_USDG, p, t);
  }

  lemma RealProduct(a: int, b: int)
    ensures (a * b) as real == a as real * b as real
  {
  }

  /** The estimate is defined exactly from the smallest usable quote on, and a larger spend never estimates less. */
  lemma EstimateIsMonotone(a: nat, b: nat, probeOut: Option<nat>, feeBps: nat)
    requires a <= b && feeBps <= BPS
    ensures StockFor(a, probeOut, feeBps).Some? <==> probeOut.Some? && probeOut.value >= MIN_PROBE_OUT
    ensures StockFor(a, probeOut, feeBps).Some? ==>
              StockFor(b, probeOut, feeBps).Some? &&
              StockFor(a, probeOut, feeBps).value <= StockFor(b, probeOut, feeBps).value
  {
    if StockFor(a, probeOut, feeBps).Some? {
      NetIsMonotone(a, b, feeBps);
      FeeIsAtMostTheAmount(a, feeBps);
      var x, y := Net(a, feeBps) * probeOut.value, Net(b, feeBps) * probeOut.value;
      MulLe(Net(a, feeBps), Net(b, feeBps), probeOut.value);
      DivMonotone(x, y);
    }
  }

  lemma DivMonotone(x: int, y: int)
    requires x <= y
    ensures x / ESTIMATE_PROBE_USDG <= y / ESTIMATE_PROBE_USDG
  {
  }
}
