/** The dial radius the view derives whenever its surface is resized
    (`WatchBoard.onSizeChanged`): half of the shorter side once the left and
    right paddings are taken off, computed in Java `int` arithmetic. */
module Dial {

  import opened JavaInt
  import Measure

  /** The padded diameter: `Math.min(w, h) - padLeft - padRight`, evaluated
      left to right with 32-bit wrap-around. A wrap in the first subtraction
      does not matter: the result is the true difference reduced once into
      `int` range, and equals it whenever it fits. */
  function Diameter(w: Int32, h: Int32, padLeft: Int32, padRight: Int32): (d: Int32)
    ensures (Min(w, h) - padLeft - padRight - d) % MODULUS == 0
    ensures InRange(Min(w, h) - padLeft - padRight) ==> d == Min(w, h) - padLeft - padRight
  {
    var first := Sub(Min(w, h), padLeft);
    var d := Sub(first, padRight);
    CongruentSum(Min(w, h) - padLeft - first, first - padRight - d);
    CongruentInRange(Min(w, h) - padLeft - padRight, d);
    d
  }

  /** Two multiples of 2^32 add up to one. */
  lemma CongruentSum(x: int, y: int)
    requires x % MODULUS == 0 && y % MODULUS == 0
    ensures (x + y) % MODULUS == 0
  {
    var k := x / MODULUS + y / MODULUS;
    assert x + y == k * MODULUS;
  }

  /** Two in-range values congruent modulo 2^32 are equal. */
  lemma CongruentInRange(x: int, d: int)
    requires InRange(d)
    requires (x - d) % MODULUS == 0
    ensures InRange(x) ==> x == d
  {
  }

  /** The radius is half the padded diameter, truncated toward zero: twice the
      radius falls short of the diameter by at most one, on the side of zero. */
  function Radius(w: Int32, h: Int32, padLeft: Int32, padRight: Int32): (r: Int32)
    ensures var d := Diameter(w, h, padLeft, padRight);
            (0 <= d ==> 0 <= 2 * r <= d <= 2 * r + 1)
            && (d < 0 ==> 2 * r - 1 <= d <= 2 * r <= 0)
  {
    Quot(Diameter(w, h, padLeft, padRight), 2)
  }

  /** Sizes and paddings within a layout constraint's 30 bits never wrap, so
      the radius is the true half of the shorter side minus the paddings and
      a dial with non-negative paddings fits inside the surface. */
  lemma RadiusWithoutWrap(w: Int32, h: Int32, padLeft: Int32, padRight: Int32)
    requires 0 <= w <= Measure.MAX_SPEC_SIZE && 0 <= h <= Measure.MAX_SPEC_SIZE
    requires 0 <= padLeft <= Measure.MAX_SPEC_SIZE && 0 <= padRight <= Measure.MAX_SPEC_SIZE
    ensures Diameter(w, h, padLeft, padRight) == Min(w, h) - padLeft - padRight
    ensures padLeft + padRight <= Min(w, h) ==>
              2 * Radius(w, h, padLeft, padRight) + padLeft + padRight <= Min(w, h)
              && Min(w, h) <= 2 * Radius(w, h, padLeft, padRight) + padLeft + padRight + 1
  {
    assert InRange(Min(w, h) - padLeft);
    assert InRange(Min(w, h) - padLeft - padRight);
  }

  /** A 1000 x 1000 surface without padding gets a radius of 500. */
  lemma UnpaddedThousandExample()
    ensures Radius(1000, 1000, 0, 0) == 500
  {
  }

  /** Paddings wider than the surface give a negative diameter; Java
      truncation turns -1 into a radius of 0, not -1. */
  lemma OverPaddedExample()
    ensures Diameter(5, 7, 3, 3) == -1 && Radius(5, 7, 3, 3) == 0
  {
  }

  /** Wrap-around: a padding of INT_MIN overflows the subtraction. */
  lemma WrappedDiameterExample()
    ensures Diameter(10, 10, INT_MIN, 0) == 10 + INT_MIN
  {
  }

  /** Size resolution followed by resize with zero padding: the dial radius is
      half the resolved side, so it never exceeds 500. */
  lemma MeasuredDialRadius(widthSpec: Measure.MeasureSpec, heightSpec: Measure.MeasureSpec)
    ensures var m := Measure.OnMeasure(widthSpec, heightSpec);
            Radius(m.width, m.height, 0, 0) == m.width / 2 <= 500
    ensures var m := Measure.OnMeasureIntended(widthSpec, heightSpec);
            Radius(m.width, m.height, 0, 0) == m.width / 2 <= 500
  {
  }
}
