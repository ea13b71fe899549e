/** Division with remainder. */
module Arithmetic {

  lemma MulAtLeast(a: int, w: nat)
    ensures a >= 1 ==> a * w >= w
    ensures a <= -1 ==> a * w <= -(w as int)
    ensures a >= 0 ==> a * w >= 0
  {
    if a >= 1 {
      assert a * w == (a - 1) * w + w;
    } else if a <= -1 {
      assert a * w == (a + 1) * w - w;
    }
  }

  lemma MulDistributes(a: int, b: int, w: int)
    ensures (a - b) * w == a * w - b * w
    ensures (a + b) * w == a * w + b * w
  {
  }

  /** Quotient and remainder are determined by the division equation. */
  lemma DivModUnique(x: int, d: int, r: int, w: nat)
    requires 0 <= r < w && x == d * w + r
    ensures x / w == d && x % w == r
  {
    var d', r' := x / w, x % w;
    assert x == d' * w + r';
    MulDistributes(d, d', w);
    MulAtLeast(d - d', w);
  }

  /** Congruent numbers less than `w` apart are equal. */
  lemma CongruentClose(p: int, q: int, w: nat)
    requires w > 0 && p % w == q % w && -(w as int) < p - q < w
    ensures p == q
  {
    assert p == (p / w) * w + p % w && q == (q / w) * w + q % w;
    MulDistributes(p / w, q / w, w);
    MulAtLeast(p / w - q / w, w);
  }

  /** The quotient grows with the dividend. */
  lemma DivMonotone(x: int, y: int, w: nat)
    requires w > 0 && x <= y
    ensures x / w <= y / w
  {
    assert x == (x / w) * w + x % w && y == (y / w) * w + y % w;
    MulDistributes(x / w, y / w, w);
    MulAtLeast(x / w - y / w, w);
  }

  function DivCeil(a: nat, b: nat): nat
    requires b > 0
  {
    DivMonotone(0, a + b - 1, b);
    (a + b - 1) / b
  }

  /** The least number of `b`-sized pieces that hold `a`. */
  lemma DivCeilMeaning(a: nat, b: nat)
    requires b > 0
    ensures a <= DivCeil(a, b) * b < a + b
  {
    var n := DivCeil(a, b);
    assert a + b - 1 == n * b + (a + b - 1) % b;
  }
}
