/** Java's 32-bit `int` arithmetic as used by the clock view: two's-complement
    wrap-around on subtraction, `/` truncating toward zero, `%` taking the sign
    of the dividend, and `Math.min`. Dafny's own `/` and `%` are Euclidean;
    Java's `/` and `%` are modelled by `Quot` and `Rem`, which apply the
    Euclidean operators only to non-negative operands. */
module JavaInt {

  const INT_MIN: int := -0x8000_0000
  const INT_MAX: int := 0x7FFF_FFFF
  const MODULUS: int := 0x1_0000_0000

  predicate InRange(x: int) {
    INT_MIN <= x <= INT_MAX
  }

  type Int32 = x: int | INT_MIN <= x <= INT_MAX

  /** The value a Java `int` holds after an arithmetic result `x` is stored. */
  function Wrap(x: int): (r: Int32)
    ensures (x - r) % MODULUS == 0
    ensures InRange(x) ==> r == x
  {
    (x - INT_MIN) % MODULUS + INT_MIN
  }

  /** Java `a - b` on two `int`s. */
  function Sub(a: Int32, b: Int32): (r: Int32)
    ensures InRange(a - b) ==> r == a - b
    ensures (a - b - r) % MODULUS == 0
  {
    Wrap(a - b)
  }

  /** Java `Math.min(a, b)`. */
  function Min(a: int, b: int): (r: int)
    ensures r <= a && r <= b
    ensures r == a || r == b
  {
    if a <= b then a else b
  }

  /** Java `a / b` for a positive divisor: the quotient truncated toward zero,
      so that `|q * b| <= |a| < |q * b| + b` and `q` never has the opposite
      sign of `a`. */
  function Quot(a: int, b: int): (q: int)
    requires b > 0
    ensures 0 <= a ==> 0 <= q * b <= a < q * b + b
    ensures a < 0 ==> q * b - b < a <= q * b <= 0
  {
    if a >= 0 then
      DivisionFacts(a, b);
      a / b
    else
      DivisionFacts(-a, b);
      -((-a) / b)
  }

  /** Euclidean division of a non-negative number, spelled out for the solver. */
  lemma DivisionFacts(n: int, b: int)
    requires 0 <= n && 0 < b
    ensures n == (n / b) * b + n % b
    ensures 0 <= n % b < b
    ensures 0 <= n / b && 0 <= (n / b) * b
  {
    assert n / b >= 0;
  }

  /** Java `a % b` for a positive divisor: what `Quot` leaves over, carrying
      the sign of the dividend. */
  function Rem(a: int, b: int): (r: int)
    requires b > 0
    ensures a == Quot(a, b) * b + r
    ensures 0 <= a ==> 0 <= r < b
    ensures a < 0 ==> -b < r <= 0
  {
    a - Quot(a, b) * b
  }

  /** On non-negative dividends Java and Dafny division agree. */
  lemma QuotRemNonNegative(a: int, b: int)
    requires 0 <= a && 0 < b
    ensures Quot(a, b) == a / b && Rem(a, b) == a % b
  {
  }

  /** On negative dividends they differ: Java's `-1 / 2` is `0`, Dafny's is `-1`. */
  lemma QuotTruncatesNegative()
    ensures Quot(-1, 2) == 0 && -1 / 2 == -1
    ensures Rem(-7, 12) == -7 && -7 % 12 == 5
  {
  }
}
