/** Java's 32-bit integer operators, as far as the model needs them. */
module JavaMath {

  function Abs(a: int): (r: nat)
    ensures r == a || r == -a
  {
    if a < 0 then -a else a
  }

  function Max(a: int, b: int): (r: int)
    ensures r >= a && r >= b
    ensures r == a || r == b
  {
    if a >= b then a else b
  }

  function Min(a: int, b: int): (r: int)
    ensures r <= a && r <= b
    ensures r == a || r == b
  {
    if a <= b then a else b
  }

  /** Java's `/` on `int` by a positive constant: the quotient truncated toward zero
      (Dafny's `/` is Euclidean, which rounds negative dividends down instead). */
  function JavaDiv(a: int, b: int): (q: int)
    requires b > 0
    ensures a >= 0 ==> 0 <= a - q * b < b
    ensures a < 0 ==> -b < a - q * b <= 0
  {
    if a >= 0 then a / b else -((-a) / b)
  }

  /** Halving truncates toward zero, so it stays between 0 and the halved value. */
  lemma HalfBetween(a: int)
    ensures a >= 0 ==> 0 <= JavaDiv(a, 2) <= a
    ensures a < 0 ==> a < JavaDiv(a, 2) <= 0
    ensures 2 * JavaDiv(a, 2) == a || 2 * JavaDiv(a, 2) == a - 1 || 2 * JavaDiv(a, 2) == a + 1
  {
  }

  /** The truncated midpoint of an interval lies inside it. */
  lemma MidpointInside(lo: int, hi: int)
    requires lo <= hi
    ensures lo <= JavaDiv(lo + hi, 2) <= hi
  {
  }

  /** The two divisions disagree on negative odd dividends: -3 / 2 is -1 in Java but -2 in Dafny. */
  lemma TruncationDiffersFromEuclid()
    ensures JavaDiv(-3, 2) == -1
    ensures -3 / 2 == -2
  {
  }
}
