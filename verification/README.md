# WatchBoard clock face, modelled in Dafny

`WatchBoard` is an Android view that draws an analog clock: a white dial,
sixty tick marks (twelve of them longer and numbered 12, 1, ..., 11), three
hands, and a center cap, redrawn once a second. Everything in it is canvas
drawing except a small core of integer logic. This project models that core
and proves what it computes:

- **Size resolution** (`onMeasure`): two layout constraints, each a mode
  (`UNSPECIFIED`, `EXACTLY`, `AT_MOST`) and a 30-bit size, become one square
  side. The default side is 1000. Only two exact constraints narrow it, to
  the smaller size. A loose constraint throws a "no determined size"
  exception, which the method catches and logs on the spot.
- **Dial radius** (`onSizeChanged`): `(min(w, h) - paddingLeft - paddingRight) / 2`,
  computed in Java `int` arithmetic. Subtraction wraps around and division
  truncates toward zero.
- **Hand angles** (`drawPointer`): `(hour % 12) * 360 / 12`, `minute * 360 / 60`
  and `second * 360 / 60` whole degrees.
- **Tick schedule** (`drawScale`): for each of the sixty ticks, whether it is
  major (every fifth tick), its line length (40 or 30), its numeral, and the
  rotation the canvas has accumulated when it is drawn.
- **Canvas rotation over one frame** (`onDraw`): the frame is modelled as a
  program of save / restore / rotate / draw operations. The proofs show that
  the scale's sixty `rotate(6)` calls add up to one full turn (in whole
  degrees; the device composes floating-point matrices), so the hands,
  drawn afterwards without a reset, still point at their own angles. They
  also show that every numeral is drawn upright and that the final `restore`
  hands back the canvas the frame was given.

Modules: `Wrappers` (an `Option` type), `JavaInt` (Java `int` semantics),
`Measure`, `Dial`, `Pointer`, `Scale`, `Render` (the frame as canvas
operations) and `Nesting` (save/restore discipline). `Render.Step` gives the
host canvas's meaning to save, restore and rotate. A restore with nothing
saved fails. `Nesting` judges a program by counting its saves and restores
alone, proves that every program the view issues is balanced, and that a
balanced program never fails, whatever tick records a frame draws. The wall clock is an input: the time of day is a
`Pointer.ClockTime` with an hour in 0..23 and a minute and second in 0..59.
Rendering is a pure function of its inputs, so two frames drawn for the same
time draw the same marks.

## Model

| member | source | states |
|---|---|---|
| JavaInt.Wrap | app/src/main/java/com/harlan/view/WatchBoard.java:132 | storing an arithmetic result in an `int` keeps it modulo 2^32 and leaves in-range values unchanged |
| JavaInt.Sub | app/src/main/java/com/harlan/view/WatchBoard.java:132 | `int` subtraction equals true subtraction whenever that fits, and always agrees with it modulo 2^32 |
| JavaInt.Min | app/src/main/java/com/harlan/view/WatchBoard.java:118-121 | `Math.min` is a lower bound of both arguments and equal to one of them |
| JavaInt.Quot | app/src/main/java/com/harlan/view/WatchBoard.java:132 | `/` truncates toward zero: `q*b` lies between 0 and the dividend, within one divisor of it |
| JavaInt.Rem | app/src/main/java/com/harlan/view/WatchBoard.java:180 | `%` is what truncating division leaves over, carrying the dividend's sign and smaller than the divisor |
| JavaInt.QuotRemNonNegative | app/src/main/java/com/harlan/view/WatchBoard.java:180-182 | on non-negative operands Java and Euclidean division agree |
| JavaInt.QuotTruncatesNegative | app/src/main/java/com/harlan/view/WatchBoard.java:132 | on negative dividends they differ: Java's -1/2 is 0 and -7%12 is -7 |
| Measure.NarrowTo | app/src/main/java/com/harlan/view/WatchBoard.java:117-122 | an exact constraint narrows the side to at most its size, and a loose one leaves the side alone |
| Measure.OnMeasure | app/src/main/java/com/harlan/view/WatchBoard.java:96-125 | the result is square and at most 1000; the exception is logged exactly when either mode is not exact, and then the side is 1000; otherwise the side is the minimum of both sizes and 1000; a side below 1000 implies both modes exact |
| Measure.ExactSquareExample | app/src/main/java/com/harlan/view/WatchBoard.java:116-124 | two exact 800 constraints give an 800 square and no error |
| Measure.LooseHeightExample | app/src/main/java/com/harlan/view/WatchBoard.java:107-115 | exact 1200 by at-most 1200 gives 1000, with the error recorded |
| Measure.LooseIgnoresSizes | app/src/main/java/com/harlan/view/WatchBoard.java:107-115 | once a mode is loose, the result is 1000 with an error whatever the sizes |
| Measure.OneExactSideIgnored | app/src/main/java/com/harlan/view/WatchBoard.java:104-112 | as written, an exact 600 width beside an at-most height is ignored: the view reports 1000 |
| Measure.OnMeasureIntended | app/src/main/java/com/harlan/view/WatchBoard.java:104-123 | with the guard the comment describes: error only when neither mode is exact; the side is at most every exact size and equals one of them or 1000; on two exact constraints it agrees with `OnMeasure` |
| Measure.OneExactSideHonoured | app/src/main/java/com/harlan/view/WatchBoard.java:104-123 | with the intended guard the exact 600 width gives a 600 square |
| Dial.Diameter | app/src/main/java/com/harlan/view/WatchBoard.java:132 | `Math.min(w, h) - getPaddingLeft() - getPaddingRight()` with two wrapping subtractions is the true difference reduced once modulo 2^32, and equals it whenever it fits in an `int` |
| Dial.Radius | app/src/main/java/com/harlan/view/WatchBoard.java:132 | twice the radius falls short of the padded diameter by at most one, toward zero, for either sign of the diameter |
| Dial.RadiusWithoutWrap | app/src/main/java/com/harlan/view/WatchBoard.java:132 | for sizes and paddings within 30 bits nothing wraps, and a non-negative padded diameter gives a dial that fits inside the shorter side |
| Dial.UnpaddedThousandExample | app/src/main/java/com/harlan/view/WatchBoard.java:132 | a 1000 x 1000 surface without padding gives radius 500 |
| Dial.OverPaddedExample | app/src/main/java/com/harlan/view/WatchBoard.java:132 | a diameter of -1 truncates to radius 0, not -1 |
| Dial.WrappedDiameterExample | app/src/main/java/com/harlan/view/WatchBoard.java:132 | subtracting `INT_MIN` padding wraps around |
| Dial.MeasuredDialRadius | app/src/main/java/com/harlan/view/WatchBoard.java:124-132 | the side chosen by size resolution (either guard) with zero padding yields a radius of half the side, at most 500 |
| Pointer.HourAngle | app/src/main/java/com/harlan/view/WatchBoard.java:180 | the hour angle is `(hour % 12) * 30`, a multiple of 30 in 0..330 |
| Pointer.SixtiethAngle | app/src/main/java/com/harlan/view/WatchBoard.java:181-182 | the minute and second angles are `value * 6`, multiples of 6 in 0..354 |
| Pointer.Angles | app/src/main/java/com/harlan/view/WatchBoard.java:175-182 | every hand angle lies in [0, 360); hour, minute and second angles are 30, 6 and 6 degrees per unit |
| Pointer.HourAngleHalfDay | app/src/main/java/com/harlan/view/WatchBoard.java:180 | two hours give the same hour angle if and only if they agree modulo 12 |
| Pointer.SixtiethAngleInverse | app/src/main/java/com/harlan/view/WatchBoard.java:181-182 | an angle is produced by a value if and only if it is a multiple of 6 below 360 and the value is the angle over 6 |
| Pointer.HourIgnoresMinute | app/src/main/java/com/harlan/view/WatchBoard.java:176-180 | the hour hand does not move with the minute: same hour, same angle |
| Pointer.ThreeOClockExample | app/src/main/java/com/harlan/view/WatchBoard.java:180-182 | 03:00:00 and 15:00:00 both give angles 90, 0, 0 |
| Scale.TickAt | app/src/main/java/com/harlan/view/WatchBoard.java:229-252 | a tick carries a numeral exactly when it is major; major ticks are 40 long and minor ones 30; numerals lie in 1..12 and their counter-rotation cancels the tick's rotation; rotations lie in [0, 360) |
| Scale.HourLabel | app/src/main/java/com/harlan/view/WatchBoard.java:239 | the label of hour-tick ordinal 0..11 is the number in 1..12 that agrees with the ordinal modulo 12 (0 prints 12) |
| Scale.Schedule | app/src/main/java/com/harlan/view/WatchBoard.java:229 | the scale has sixty ticks |
| Scale.DrawScaleLoop | app/src/main/java/com/harlan/view/WatchBoard.java:228-257 | the loop that accumulates six degrees per tick emits exactly the closed-form tick records, and its total rotation after sixty ticks is 360 |
| Scale.SchedulePrefix | app/src/main/java/com/harlan/view/WatchBoard.java:229-239 | the first n ticks hold ceil(n/5) major ticks, labelled 12, 1, 2, ... in order |
| Scale.MajorTicks | app/src/main/java/com/harlan/view/WatchBoard.java:229-239 | exactly 12 of the 60 ticks are major, and their numerals read 12, 1, ..., 11 |
| Scale.LabelsDistinctAndComplete | app/src/main/java/com/harlan/view/WatchBoard.java:239 | the numerals are pairwise distinct, and a number is printed if and only if it lies in 1..12 |
| Scale.MajorIffMultipleOfFive | app/src/main/java/com/harlan/view/WatchBoard.java:230-251 | a tick is major, equivalently 40 long, if and only if its index is a multiple of 5 |
| Scale.LabelTick | app/src/main/java/com/harlan/view/WatchBoard.java:239 | the tick assigned to a numeral is a multiple of five |
| Scale.LabelTickRoundTrip | app/src/main/java/com/harlan/view/WatchBoard.java:239 | numeral and major tick determine each other: label to tick to label, and tick to label to tick |
| Render.Step | app/src/main/java/com/harlan/view/WatchBoard.java:142-151 | the host canvas's meaning of one operation: it fails if and only if it is a restore with nothing saved, and a draw leaves one mark at the current rotation and changes nothing else |
| Render.TickOps | app/src/main/java/com/harlan/view/WatchBoard.java:243-256 | definition: the canvas calls of one iteration of lines 243-256 in source order (the numeral's save / rotate / draw / restore for a major tick, then the line and `rotate(6)`); Render.TickRun and Nesting.TickBalanced state their effect |
| Render.PointerOps | app/src/main/java/com/harlan/view/WatchBoard.java:184-217 | definition: the canvas calls of lines 184-217 in source order (three save / rotate / draw / restore blocks, then the cap); Render.HandsRun, Nesting.PointerBalanced and Nesting.PointerDrawsEachHandOnce state their effect |
| Render.FrameOps | app/src/main/java/com/harlan/view/WatchBoard.java:142-151 | definition: the canvas calls of lines 142-151 in source order (save, dial, scale, hands, restore); `onDraw` always draws `Scale.Schedule()`; Render.FrameRun and Nesting.FrameNeverFails state their effect |
| Render.ScaleOps | app/src/main/java/com/harlan/view/WatchBoard.java:229-257 | definition: the `for` loop of lines 229-257 as the concatenation of each tick's calls in index order; Render.ScaleRun and Nesting.ScaleBalanced state their effect |
| Render.Rotated | app/src/main/java/com/harlan/view/WatchBoard.java:185-192 | definition: one save / rotate / draw / restore block, as at 185-192, 195-202, 205-212 and 243-247 (the translate at 244 is not modelled); Render.RotatedRun states its effect |
| Render.Run | app/src/main/java/com/harlan/view/WatchBoard.java:139-151 | definition: the host executing canvas calls in order, each by `Render.Step`, stopping at the first failure and collecting the marks; Render.RunAppend states that running two programs in a row is running their concatenation |
| Render.RotatedRun | app/src/main/java/com/harlan/view/WatchBoard.java:243-247 | a save / rotate / draw / restore block draws its shape under the extra rotation and hands back the canvas unchanged |
| Render.TickRun | app/src/main/java/com/harlan/view/WatchBoard.java:229-257 | one iteration draws its numeral upright and its line at the accumulated rotation, then leaves the canvas six degrees further on |
| Render.ScaleRun | app/src/main/java/com/harlan/view/WatchBoard.java:228-257 | the whole scale never restores past its saves, draws each line at `6*i` and each numeral upright, and leaves the canvas turned by exactly 360 |
| Render.HandsRun | app/src/main/java/com/harlan/view/WatchBoard.java:184-217 | each hand is drawn at its angle past the current rotation, the cap unrotated, and the canvas comes back unchanged |
| Render.OpeningRun | app/src/main/java/com/harlan/view/WatchBoard.java:142-148 | the frame saves the canvas and draws the dial unrotated, one save deep |
| Render.ClosingRun | app/src/main/java/com/harlan/view/WatchBoard.java:151 | the closing restore returns to the canvas saved at the start, whatever rotation the drawing left |
| Render.FrameRun | app/src/main/java/com/harlan/view/WatchBoard.java:139-151 | a frame never fails, hands back the canvas it was given, and draws exactly the expected dial, scale, hand and cap marks |
| Render.FrameOrientations | app/src/main/java/com/harlan/view/WatchBoard.java:139-151 | in a frame, modulo a full turn, every numeral is upright and every tick line points `6*i` degrees clockwise from 12 |
| Render.ScaleMarksOriented | app/src/main/java/com/harlan/view/WatchBoard.java:245-256 | every numeral of the expected scale sits at the base rotation and every line at `base + 6*i` |
| Render.FrameHands | app/src/main/java/com/harlan/view/WatchBoard.java:148-150 | the hands are drawn one full turn past the base at `(hour%12)*30`, `minute*6` and `second*6`, which is the same orientation |
| Nesting.WithinSavesRun | app/src/main/java/com/harlan/view/WatchBoard.java:139-151 | a program none of whose prefixes restores more than it saved plus the saves it starts on never fails, and its stack depth changes by saves minus restores |
| Nesting.BalancedRun | app/src/main/java/com/harlan/view/WatchBoard.java:139-151 | a balanced program (no prefix restores more than it saved, equal counts overall) never fails and hands back a stack as deep as it was given |
| Nesting.AppendBalanced | app/src/main/java/com/harlan/view/WatchBoard.java:148-150 | two balanced programs in a row are balanced |
| Nesting.NestBalanced | app/src/main/java/com/harlan/view/WatchBoard.java:142-151 | a balanced program between a save and a restore is balanced |
| Nesting.RotatedBalanced | app/src/main/java/com/harlan/view/WatchBoard.java:185-192 | each save / rotate / draw / restore block is balanced |
| Nesting.TickBalanced | app/src/main/java/com/harlan/view/WatchBoard.java:243-256 | each tick's calls are balanced and draw its line exactly once |
| Nesting.ScaleBalanced | app/src/main/java/com/harlan/view/WatchBoard.java:229-257 | the scale's calls are balanced for every schedule of tick records |
| Nesting.PointerBalanced | app/src/main/java/com/harlan/view/WatchBoard.java:184-217 | the hands' calls are balanced |
| Nesting.PointerDrawsEachHandOnce | app/src/main/java/com/harlan/view/WatchBoard.java:184-217 | the hands' calls draw each of the hour, minute and second hands exactly once |
| Nesting.FrameBalanced | app/src/main/java/com/harlan/view/WatchBoard.java:142-151 | a whole frame's calls are balanced, whatever tick records it draws |
| Nesting.FrameNeverFails | app/src/main/java/com/harlan/view/WatchBoard.java:142-151 | no frame makes the canvas fail, whatever tick records it draws, and it leaves the save stack as deep as it found it |

## Findings

| source | as written | input that shows it | evidently intended | confidence | as-written member | corrected member |
|---|---|---|---|---|---|---|
| app/src/main/java/com/harlan/view/WatchBoard.java:107-110 | the "no determined size" exception fires when EITHER mode is `AT_MOST` or `UNSPECIFIED` (the four tests are joined by `\|\|`), so one exact constraint is ignored and the inner `EXACTLY` checks at 117 and 120 can never be false | width `EXACTLY 600`, height `AT_MOST 800`: the view reports 1000 x 1000, wider than its exact width | the comment at 105 ("at least one is a determined value, take the minimum") and the exception text ("at least one ... should be defined exactly") describe raising only when NEITHER mode is exact, and otherwise narrowing to every exact size present: 600 x 600 | medium; not executed | Measure.OneExactSideIgnored | Measure.OnMeasureIntended |

`Measure.OnMeasure` models the code as written. `Dial.MeasuredDialRadius` is
stated for both guards.

## Left out

- Attribute loading (`obtainAttrs`, lines 54-88) and paint set-up (`initPaint`, lines 90-93): style values and colours are host configuration and reach no integer logic modelled here. This includes the second-hand colour read from the minute-hand key at line 69.
- Paint state (stroke widths, colours, styles, text size): drawing state with no effect on the computed numbers.
- Canvas translations (lines 143 and 244) and text-bounds centring (lines 240-246): they move shapes but do not turn them, and the offsets are floating point and depend on font metrics.
- Hand rectangle extents (lines 187, 197 and 207), `mPointerEndLength = mRadius / 6` (line 135) and the cap radius (line 217): floating-point geometry.
- The pixel endpoints of each tick line (line 255) and the label offset (line 244): they use `dp2px`/`sp2px`, which depend on screen density and are not part of this model. Only the line length, 40 or 30, is kept.
- `Calendar.getInstance()` (line 175): the wall-clock read is replaced by a `ClockTime` input.
- `postInvalidateDelayed(1000)` (line 153): the self-rearming redraw timer is a host side effect.
- `super.onMeasure`, `super.onSizeChanged` and `setMeasuredDimension`: framework calls. The model returns the measured pair instead.
- The bit layout of a measure spec (`MeasureSpec.getMode`/`getSize`, lines 99-102): framework code. A spec is modelled as a mode and a 30-bit size.
- Storing the radius in a `float` field (line 132): the integer quotient converts exactly for radii below 2^24, so the model keeps it an integer.
- `MainActivity`: activity lifecycle and layout inflation only.
- Render.Step: `Canvas.rotate` takes a `float` and the device composes floating-point matrices; the model adds whole degrees exactly, so the full turn after the scale, and every orientation stated from it, holds on the device only up to rounding.
- Render.FrameRun: tracks only canvas rotation and the save stack, so it states where each shape points but not where it is placed.
- Render.FrameOrientations: states orientations modulo a full turn relative to the frame's starting rotation, not absolute pixel transforms.
