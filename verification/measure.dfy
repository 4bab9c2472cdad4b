/** Size resolution of the clock view (`WatchBoard.onMeasure`): two layout
    constraints, each a mode and a size, are turned into one square side.
    The view's default side is 1000; a constraint that does not pin a
    dimension raises a "no determined size" exception that is caught and
    logged on the spot, so resolution always completes. */
module Measure {

  import opened JavaInt

  /** The three modes a layout constraint can carry. */
  datatype MeasureMode = Unspecified | Exactly | AtMost

  /** A layout constraint packs its size into 30 bits. */
  const MAX_SPEC_SIZE: int := 0x3FFF_FFFF

  type SpecSize = x: int | 0 <= x <= MAX_SPEC_SIZE

  datatype MeasureSpec = MeasureSpec(mode: MeasureMode, size: SpecSize)

  /** The side used when no exact constraint narrows it. */
  const DEFAULT_SIDE: int := 1000

  /** What resolution hands to `setMeasuredDimension`, and whether the
      "no determined size" exception was thrown (and logged) on the way. */
  datatype Measured = Measured(width: int, height: int, sizeUndetermined: bool)

  /** `m` is the minimum of `a`, `b` and `c`. */
  predicate IsMin3(m: int, a: int, b: int, c: int) {
    m <= a && m <= b && m <= c && (m == a || m == b || m == c)
  }

  predicate Loose(mode: MeasureMode) {
    mode == AtMost || mode == Unspecified
  }

  /** Narrows `side` to an exact constraint's size; other modes leave it. */
  function NarrowTo(spec: MeasureSpec, side: int): (r: int)
    ensures r <= side
    ensures spec.mode == Exactly ==> r <= spec.size && (r == side || r == spec.size)
    ensures spec.mode != Exactly ==> r == side
  {
    if spec.mode == Exactly then Min(spec.size, side) else side
  }

  /** `onMeasure` as written: ANY loose constraint makes the view refuse to
      narrow, logging the exception and reporting the 1000 default. Only two
      exact constraints yield the smaller of the two sizes, capped at 1000. */
  function OnMeasure(widthSpec: MeasureSpec, heightSpec: MeasureSpec): (m: Measured)
    ensures m.width == m.height
    ensures 0 <= m.width <= DEFAULT_SIDE
    ensures m.sizeUndetermined <==> (widthSpec.mode != Exactly || heightSpec.mode != Exactly)
    ensures m.sizeUndetermined ==> m.width == DEFAULT_SIDE
    ensures !m.sizeUndetermined ==> IsMin3(m.width, widthSpec.size, heightSpec.size, DEFAULT_SIDE)
    ensures m.width < DEFAULT_SIDE ==> widthSpec.mode == Exactly && heightSpec.mode == Exactly
  {
    if Loose(widthSpec.mode) || Loose(heightSpec.mode) then
      Measured(DEFAULT_SIDE, DEFAULT_SIDE, true)
    else
      var side := NarrowTo(heightSpec, NarrowTo(widthSpec, DEFAULT_SIDE));
      Measured(side, side, false)
  }

  /** Two exact 800 constraints resolve to an 800 square without an error. */
  lemma ExactSquareExample()
    ensures OnMeasure(MeasureSpec(Exactly, 800), MeasureSpec(Exactly, 800)) == Measured(800, 800, false)
  {
  }

  /** Exact 1200 by at-most: the error is recorded and the default wins. */
  lemma LooseHeightExample()
    ensures OnMeasure(MeasureSpec(Exactly, 1200), MeasureSpec(AtMost, 1200)) == Measured(1000, 1000, true)
  {
  }

  /** Once a constraint is loose, the sizes play no part in the result. */
  lemma LooseIgnoresSizes(w1: MeasureSpec, h1: MeasureSpec, w2: MeasureSpec, h2: MeasureSpec)
    requires w1.mode == w2.mode && h1.mode == h2.mode
    requires Loose(w1.mode) || Loose(h1.mode)
    ensures OnMeasure(w1, h1) == OnMeasure(w2, h2) == Measured(DEFAULT_SIDE, DEFAULT_SIDE, true)
  {
  }

  /** The guard as written: an exact 600-wide constraint next to a loose
      height is ignored, and the view reports 1000, wider than the exact
      width it was given. */
  lemma OneExactSideIgnored()
    ensures var m := OnMeasure(MeasureSpec(Exactly, 600), MeasureSpec(AtMost, 800));
            m.sizeUndetermined && m.width == 1000 > 600
  {
  }

  /** Resolution with the guard its comment and exception message describe:
      the exception is raised only when NEITHER constraint is exact, and
      every exact constraint present narrows the side. */
  function OnMeasureIntended(widthSpec: MeasureSpec, heightSpec: MeasureSpec): (m: Measured)
    ensures m.width == m.height
    ensures 0 <= m.width <= DEFAULT_SIDE
    ensures m.sizeUndetermined <==> (widthSpec.mode != Exactly && heightSpec.mode != Exactly)
    ensures widthSpec.mode == Exactly ==> m.width <= widthSpec.size
    ensures heightSpec.mode == Exactly ==> m.width <= heightSpec.size
    ensures m.width == DEFAULT_SIDE
            || (widthSpec.mode == Exactly && m.width == widthSpec.size)
            || (heightSpec.mode == Exactly && m.width == heightSpec.size)
    ensures widthSpec.mode == Exactly && heightSpec.mode == Exactly ==> m == OnMeasure(widthSpec, heightSpec)
  {
    if Loose(widthSpec.mode) && Loose(heightSpec.mode) then
      Measured(DEFAULT_SIDE, DEFAULT_SIDE, true)
    else
      var side := NarrowTo(heightSpec, NarrowTo(widthSpec, DEFAULT_SIDE));
      Measured(side, side, false)
  }

  /** With the intended guard the exact 600 width is honoured. */
  lemma OneExactSideHonoured()
    ensures OnMeasureIntended(MeasureSpec(Exactly, 600), MeasureSpec(AtMost, 800)) == Measured(600, 600, false)
  {
  }
}
