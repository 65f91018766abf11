/** Integer facts shared by the modules: rounding helpers of the library and the few
    product and remainder laws the proofs rest on. */
module Arith {

  /** Quotient rounded up. */
  function DivUp(x: nat, y: nat): (q: nat)
    requires y > 0
    ensures y * q >= x
    ensures q > 0 ==> y * (q - 1) < x
  {
    DivUpBounds(x, y);
    (x + y - 1) / y
  }

  /** The next multiple of `y`, as `(x+y-1) - (x+y-1)%y`. */
  function RoundUp(x: nat, y: nat): (r: nat)
    requires y > 0
    ensures x <= r < x + y
    ensures r % y == 0
  {
    RoundUpBounds(x, y);
    (x + y - 1) - (x + y - 1) % y
  }

  /** Quotient rounded down. */
  function Quot(x: nat, y: nat): nat
    requires y > 0
  {
    QuotBounds(x, y);
    x / y
  }

  lemma QuotBounds(x: nat, y: nat)
    requires y > 0
    ensures 0 <= x / y && y * (x / y) <= x
  {
    assert x == y * (x / y) + x % y;
    MulLess(-1, x / y, y);
  }

  function Pow2(j: nat): (p: nat)
    ensures p > 0
  {
    if j == 0 then 1 else 2 * Pow2(j - 1)
  }

  lemma {:induction false} PowGrows(i: nat, j: nat)
    requires i < j
    ensures Pow2(i) < Pow2(j)
  {
    if i + 1 < j { PowGrows(i, j - 1); }
  }

  function Min(a: int, b: int): int { if a < b then a else b }

  function Max(a: int, b: int): int { if a < b then b else a }

  lemma DivUpBounds(x: nat, y: nat)
    requires y > 0
    ensures y * ((x + y - 1) / y) >= x
    ensures (x + y - 1) / y > 0 ==> y * ((x + y - 1) / y - 1) < x
  {
    var a := x + y - 1;
    assert a == y * (a / y) + a % y;
    assert y * (a / y - 1) == y * (a / y) - y;
  }

  lemma DivUpAtMost(x: nat, y: nat, q: nat)
    requires y > 0 && x <= y * q
    ensures DivUp(x, y) <= q
  {
    if DivUp(x, y) > 0 { MulLess(DivUp(x, y) - 1, q, y); }
  }

  lemma LessThanPart(x: nat, n: nat, y: int)
    requires n > 0 && y < DivUp(x, n)
    ensures y * n < x || x == 0
  {
    var per := DivUp(x, n);
    if per > 0 {
      MulMono(y, per - 1, n);
      assert (per - 1) * n == n * (per - 1);
    }
  }

  /** Rounding up a part of `n` to whole units gives the least number of units with which `n` parts cover `x`. */
  lemma LeastCover(x: nat, n: nat, unit: nat)
    requires n > 0 && unit > 0
    ensures var r := DivUp(DivUp(x, n), unit) * unit;
            r * n >= x && r % unit == 0 && (r > 0 ==> (r - unit) * n < x)
  {
    var per := DivUp(x, n);
    var u := DivUp(per, unit);
    MulMono(per, u * unit, n);
    MulMod(unit, u);
    if u > 0 {
      assert unit * (u - 1) == u * unit - unit;
      LessThanPart(x, n, u * unit - unit);
    }
  }

  lemma RoundUpBounds(x: nat, y: nat)
    requires y > 0
    ensures x <= (x + y - 1) - (x + y - 1) % y < x + y
    ensures ((x + y - 1) - (x + y - 1) % y) % y == 0
  {
    var a := x + y - 1;
    assert a - a % y == y * (a / y);
    MulMod(y, a / y);
  }

  lemma MulMono(a: int, b: int, k: nat)
    requires a <= b
    ensures a * k <= b * k
    ensures k * a <= k * b
  {
    if k > 0 { MulMono(a, b, k - 1); }
  }

  lemma MulLess(a: int, b: int, k: nat)
    requires a * k < b * k
    ensures a < b
  {
    assert (b - a) * k > 0;
  }

  lemma MulMod(y: int, k: int)
    requires y > 0
    ensures (y * k) % y == 0
    ensures (k * y) % y == 0
  {
    DivModUnique(y * k, y, k, 0);
  }

  /** Quotient and remainder are the only pair that reassembles a number. */
  lemma DivModUnique(x: int, y: int, q: int, r: int)
    requires y > 0
    requires x == y * q + r && 0 <= r < y
    ensures x / y == q && x % y == r
  {
    var q', r' := x / y, x % y;
    assert x == y * q' + r';
    assert y * (q' + 1) == y * q' + y && y * (q + 1) == y * q + y;
    MulLess(q, q' + 1, y);
    MulLess(q', q + 1, y);
  }

  /** Adding a whole multiple leaves the remainder alone. */
  lemma ModShift(x: int, y: int, k: int)
    requires y > 0
    ensures (x + y * k) % y == x % y
    ensures (x + k * y) % y == x % y
  {
    assert x == y * (x / y) + x % y;
    assert y * (x / y + k) == y * (x / y) + y * k;
    DivModUnique(x + y * k, y, x / y + k, x % y);
  }

  /** Two numbers with the same remainder that are less than one modulus apart are equal. */
  lemma ModInjective(a: int, b: int, y: int)
    requires y > 0
    requires a % y == b % y
    requires -y < a - b < y
    ensures a == b
  {
    assert a == y * (a / y) + a % y && b == y * (b / y) + b % y;
    assert a - b == y * (a / y - b / y);
    MulLess(a / y - b / y, 1, y);
    MulLess(-1, a / y - b / y, y);
  }
}
