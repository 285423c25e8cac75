/** The few non-linear facts the money and epoch proofs rest on. */
module Arith {
  lemma MulLe(a: int, b: int, c: nat)
    requires a <= b
    ensures a * c <= b * c
  {
  }

  /** A multiple of a positive number that lies strictly between minus and plus that number is zero. */
  lemma SmallMultiple(k: int, b: nat)
    requires b > 0 && k * b < b && k * b + b > 0
    ensures k == 0
  {
    if k >= 1 {
      MulLe(1, k, b);
    } else if k <= -1 {
      MulLe(k, -1, b);
    }
  }

  /** Quotient and remainder are the only ones. */
  lemma DivModUnique(a: int, b: nat, q: int, r: int)
    requires b > 0 && a == q * b + r && 0 <= r < b
    ensures a / b == q && a % b == r
  {
    var k := q - a / b;
    assert k * b == q * b - a / b * b;
    assert a == a / b * b + a % b;
    SmallMultiple(k, b);
  }

  lemma DivStep(a: int, b: nat)
    requires b > 0
    ensures (a - b) / b == a / b - 1 && (a - b) % b == a % b
  {
    var q := a / b - 1;
    assert q * b == a / b * b - b;
    DivModUnique(a - b, b, q, a % b);
  }

  lemma DivBounds(a: int, b: nat)
    requires b > 0
    ensures a / b * b <= a < a / b * b + b
  {
  }

  lemma RemainderIsTheRest(a: int, b: nat)
    requires b > 0
    ensures a - a / b * b == a % b
  {
  }
}
