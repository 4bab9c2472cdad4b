/** One frame of `WatchBoard.onDraw`, reduced to what decides where each
    shape points: the canvas rotation. The frame is a program of canvas
    operations (save, restore, rotate, draw) run against a rotation and a
    stack of saved rotations; every draw leaves a mark recording the
    rotation in force. Translations, paint state and the float geometry of
    the shapes are not tracked. */
module Render {

  import opened Wrappers
  import Scale
  import Pointer

  datatype Shape =
    | Dial
    | TickLine(index: int, length: int)
    | NumeralText(value: int)
    | HourHand
    | MinuteHand
    | SecondHand
    | CenterCap

  datatype Op = Save | Restore | Rotate(degrees: int) | Draw(shape: Shape)

  /** The canvas rotation in degrees and the rotations saved below it. */
  datatype Canvas = Canvas(rotation: int, saved: seq<int>)

  /** A shape drawn under a rotation of `orientation` degrees. */
  datatype Mark = Mark(shape: Shape, orientation: int)

  datatype Trace = Trace(canvas: Canvas, marks: seq<Mark>)

  /** One canvas operation. A restore with nothing saved fails, as the
      host canvas rejects it. */
  function Step(c: Canvas, op: Op): (r: Option<Trace>)
    ensures r.None? <==> (op == Restore && c.saved == [])
    ensures op.Draw? ==> r == Some(Trace(c, [Mark(op.shape, c.rotation)]))
  {
    match op
    case Save => Some(Trace(Canvas(c.rotation, c.saved + [c.rotation]), []))
    case Restore =>
      if c.saved == [] then None
      else Some(Trace(Canvas(c.saved[|c.saved| - 1], c.saved[..|c.saved| - 1]), []))
    case Rotate(d) => Some(Trace(Canvas(c.rotation + d, c.saved), []))
    case Draw(s) => Some(Trace(c, [Mark(s, c.rotation)]))
  }

  /** Runs a program from left to right, collecting the marks. */
  function Run(ops: seq<Op>, c: Canvas): Option<Trace>
    decreases |ops|
  {
    if ops == [] then Some(Trace(c, []))
    else
      match Step(c, ops[0])
      case None => None
      case Some(first) => After(first.marks, Run(ops[1..], first.canvas))
  }

  /** A run preceded by marks already drawn. */
  function After(marks: seq<Mark>, r: Option<Trace>): Option<Trace> {
    match r
    case None => None
    case Some(t) => Some(Trace(t.canvas, marks + t.marks))
  }

  /** Running two programs one after the other is running their concatenation. */
  lemma {:induction false} RunAppend(a: seq<Op>, b: seq<Op>, c: Canvas, ta: Trace, tb: Trace)
    requires Run(a, c) == Some(ta)
    requires Run(b, ta.canvas) == Some(tb)
    ensures Run(a + b, c) == Some(Trace(tb.canvas, ta.marks + tb.marks))
    decreases |a|
  {
    if a == [] {
      assert a + b == b;
      assert ta.marks + tb.marks == tb.marks;
    } else {
      var first := Step(c, a[0]).value;
      var rest := Run(a[1..], first.canvas).value;
      RunAppend(a[1..], b, first.canvas, rest, tb);
      RunPrepend(a, b, c, first, Trace(tb.canvas, rest.marks + tb.marks));
      assert first.marks + (rest.marks + tb.marks) == (first.marks + rest.marks) + tb.marks;
    }
  }

  /** The first operation of `a` runs first in `a + b` too. */
  lemma RunPrepend(a: seq<Op>, b: seq<Op>, c: Canvas, first: Trace, rest: Trace)
    requires a != [] && Step(c, a[0]) == Some(first)
    requires Run(a[1..] + b, first.canvas) == Some(rest)
    ensures Run(a + b, c) == Some(Trace(rest.canvas, first.marks + rest.marks))
  {
    assert (a + b)[0] == a[0];
    assert (a + b)[1..] == a[1..] + b;
  }

  /** Running the suffix of a program from its `k`-th operation: that
      operation, then the rest. */
  lemma RunFrom(ops: seq<Op>, k: nat, c: Canvas, first: Trace, rest: Trace)
    requires k < |ops|
    requires Step(c, ops[k]) == Some(first)
    requires Run(ops[k + 1..], first.canvas) == Some(rest)
    ensures Run(ops[k..], c) == Some(Trace(rest.canvas, first.marks + rest.marks))
    ensures first.marks == [] ==> Run(ops[k..], c) == Some(rest)
    ensures rest.marks == [] ==> Run(ops[k..], c) == Some(Trace(rest.canvas, first.marks))
  {
    assert ops[k..][0] == ops[k];
    assert ops[k..][1..] == ops[k + 1..];
    assert first.marks == [] ==> first.marks + rest.marks == rest.marks;
    assert rest.marks == [] ==> first.marks + rest.marks == first.marks;
  }

  /** A shape drawn under an extra rotation inside a save/restore pair. */
  function Rotated(degrees: int, shape: Shape): seq<Op> {
    [Save, Rotate(degrees), Draw(shape), Restore]
  }

  /** A save/restore pair hands back the canvas it was given; the shape
      inside is drawn under the extra rotation. */
  lemma RotatedRun(degrees: int, shape: Shape, c: Canvas)
    ensures Run(Rotated(degrees, shape), c) == Some(Trace(c, [Mark(shape, c.rotation + degrees)]))
  {
    var ops := Rotated(degrees, shape);
    var c1 := Canvas(c.rotation, c.saved + [c.rotation]);
    var c2 := Canvas(c.rotation + degrees, c1.saved);
    var marks := [Mark(shape, c2.rotation)];
    assert c1.saved[..|c1.saved| - 1] == c.saved;
    assert ops[4..] == [];
    RunFrom(ops, 3, c2, Trace(c, []), Trace(c, []));
    RunFrom(ops, 2, c2, Trace(c2, marks), Trace(c, []));
    RunFrom(ops, 1, c1, Trace(c2, []), Trace(c, marks));
    RunFrom(ops, 0, c, Trace(c1, []), Trace(c, marks));
    assert ops[0..] == ops;
  }

  /** The operations `drawScale` issues for tick `i`, whose record is `t`:
      for a major tick, the numeral inside a save/restore pair after its
      counter-rotation; then the line; then the six-degree turn to the next
      position. */
  function TickOps(t: Scale.Tick, i: int): seq<Op> {
    (if t.numeral.Some? then
       Rotated(t.numeral.value.counterTurn, NumeralText(t.numeral.value.value))
     else [])
    + [Draw(TickLine(i, t.length)), Rotate(Scale.TICK_STEP)]
  }

  /** The operations of the ticks of `schedule` from index `i` on. */
  function ScaleOps(schedule: seq<Scale.Tick>, i: nat): seq<Op>
    requires i <= |schedule|
    decreases |schedule| - i
  {
    if i == |schedule| then [] else TickOps(schedule[i], i) + ScaleOps(schedule, i + 1)
  }

  /** The operations of `drawPointer`: each hand is rotated inside its own
      save/restore pair, then the center cap is drawn unrotated. */
  function PointerOps(a: Pointer.HandAngles): seq<Op> {
    Rotated(a.hour, HourHand) + Rotated(a.minute, MinuteHand) + Rotated(a.second, SecondHand)
    + [Draw(CenterCap)]
  }

  /** One frame at time `t`, drawing the tick records of `schedule`: save,
      dial, scale, hands, restore. `onDraw` always draws `Scale.Schedule()`;
      the schedule is a parameter only so that the proofs about a frame
      refer to it by name instead of unfolding its sixty records, and the
      lemmas about a whole frame require it to be `Scale.Schedule()`. */
  function FrameOps(t: Pointer.ClockTime, schedule: seq<Scale.Tick>): seq<Op> {
    [Save, Draw(Dial)] + ScaleOps(schedule, 0) + PointerOps(Pointer.Angles(t)) + [Restore]
  }

  /** What a reader of the clock face expects of ticks `i` to 59 when the
      scale starts at rotation `base`: a major tick's numeral upright at
      `base`, then each line at `base + 6 * i`. */
  function ExpectedScale(i: nat, base: int): seq<Mark>
    requires i <= Scale.TICK_COUNT
    decreases Scale.TICK_COUNT - i
  {
    if i == Scale.TICK_COUNT then [] else TickMarks(i, base) + ExpectedScale(i + 1, base)
  }

  /** The marks of tick `i` alone. */
  function TickMarks(i: nat, base: int): seq<Mark> {
    if i % 5 == 0 then
      [Mark(NumeralText(Scale.HourLabel(i / 5)), base), Mark(TickLine(i, 40), base + 6 * i)]
    else
      [Mark(TickLine(i, 30), base + 6 * i)]
  }

  /** Tick `i` draws its numeral upright and its line at the accumulated
      rotation, and hands the next tick a canvas turned six degrees further. */
  lemma TickRun(i: Scale.TickIndex, c: Canvas, base: int)
    requires c.rotation == base + 6 * i
    ensures Run(TickOps(Scale.TickAt(i), i), c) == Some(Trace(Canvas(c.rotation + 6, c.saved), TickMarks(i, base)))
  {
    var t := Scale.TickAt(i);
    var tail := [Draw(TickLine(i, t.length)), Rotate(Scale.TICK_STEP)];
    var turned := Canvas(c.rotation + 6, c.saved);
    var line := [Mark(TickLine(i, t.length), c.rotation)];
    assert tail[2..] == [];
    RunFrom(tail, 1, c, Trace(turned, []), Trace(turned, []));
    RunFrom(tail, 0, c, Trace(c, line), Trace(turned, []));
    assert tail[0..] == tail;
    if t.numeral.Some? {
      var head := Rotated(t.numeral.value.counterTurn, NumeralText(t.numeral.value.value));
      RotatedRun(t.numeral.value.counterTurn, NumeralText(t.numeral.value.value), c);
      RunAppend(head, tail, c, Run(head, c).value, Trace(turned, line));
      assert TickOps(t, i) == head + tail;
      assert Run(head, c).value.marks + line == TickMarks(i, base);
    } else {
      assert TickOps(t, i) == [] + tail == tail;
    }
  }

  /** Ticks `i` to 59 run without a failing restore, leave the canvas one
      full turn past `base`, and draw exactly the expected marks. */
  lemma {:induction false} ScaleRun(schedule: seq<Scale.Tick>, i: nat, c: Canvas, base: int)
    requires schedule == Scale.Schedule()
    requires i <= Scale.TICK_COUNT
    requires c.rotation == base + 6 * i
    ensures Run(ScaleOps(schedule, i), c) == Some(Trace(Canvas(base + 360, c.saved), ExpectedScale(i, base)))
    decreases Scale.TICK_COUNT - i
  {
    if i < Scale.TICK_COUNT {
      var ops := TickOps(schedule[i], i);
      TickRun(i, c, base);
      var first := Run(ops, c).value;
      ScaleRun(schedule, i + 1, first.canvas, base);
      RunAppend(ops, ScaleOps(schedule, i + 1), c, first, Run(ScaleOps(schedule, i + 1), first.canvas).value);
    }
  }

  /** What a reader expects of one frame started under rotation `base`: the
      dial, the scale, then every hand at its angle past the scale's full
      turn, and the cap. */
  function ExpectedFrame(t: Pointer.ClockTime, base: int): seq<Mark> {
    var a := Pointer.Angles(t);
    [Mark(Dial, base)] + ExpectedScale(0, base) + HandMarks(a, base + 360)
  }

  /** A frame never restores more than it saved, hands back the canvas it
      was given, and draws exactly the expected marks. */
  lemma FrameRun(t: Pointer.ClockTime, schedule: seq<Scale.Tick>, c: Canvas)
    requires schedule == Scale.Schedule()
    ensures Run(FrameOps(t, schedule), c) == Some(Trace(c, ExpectedFrame(t, c.rotation)))
  {
    var a := Pointer.Angles(t);
    var inner := Canvas(c.rotation, c.saved + [c.rotation]);
    var scaled := Canvas(c.rotation + 360, inner.saved);
    ScaleRun(schedule, 0, inner, c.rotation);
    HandsRun(a, scaled);
    FrameShape(c, ScaleOps(schedule, 0), PointerOps(a), scaled.rotation,
               ExpectedScale(0, c.rotation), HandMarks(a, scaled.rotation));
  }

  /** A frame whose scale program turns the canvas to `turned` and whose
      hand program keeps it there: the dial, the scale's marks, the hands'
      marks, and the canvas handed back as it came. */
  lemma FrameShape(c: Canvas, scaleOps: seq<Op>, handOps: seq<Op>, turned: int,
                   scaleMarks: seq<Mark>, handMarks: seq<Mark>)
    requires Run(scaleOps, Canvas(c.rotation, c.saved + [c.rotation]))
          == Some(Trace(Canvas(turned, c.saved + [c.rotation]), scaleMarks))
    requires Run(handOps, Canvas(turned, c.saved + [c.rotation]))
          == Some(Trace(Canvas(turned, c.saved + [c.rotation]), handMarks))
    ensures Run([Save, Draw(Dial)] + scaleOps + handOps + [Restore], c)
         == Some(Trace(c, [Mark(Dial, c.rotation)] + scaleMarks + handMarks))
  {
    var inner := Canvas(c.rotation, c.saved + [c.rotation]);
    var scaled := Canvas(turned, inner.saved);
    OpeningRun(c);
    ClosingRun(c, turned);
    RunChain([Save, Draw(Dial)], scaleOps, handOps, [Restore], c,
             Trace(inner, [Mark(Dial, c.rotation)]), Trace(scaled, scaleMarks),
             Trace(scaled, handMarks), Trace(c, []));
    var marks := [Mark(Dial, c.rotation)] + scaleMarks + handMarks;
    assert marks + [] == marks;
  }

  /** The frame opens by saving the canvas and drawing the dial unrotated. */
  lemma OpeningRun(c: Canvas)
    ensures Run([Save, Draw(Dial)], c)
         == Some(Trace(Canvas(c.rotation, c.saved + [c.rotation]), [Mark(Dial, c.rotation)]))
  {
    var inner := Canvas(c.rotation, c.saved + [c.rotation]);
    var opening := [Save, Draw(Dial)];
    var dial := [Mark(Dial, c.rotation)];
    assert opening[2..] == [];
    RunFrom(opening, 1, inner, Trace(inner, dial), Trace(inner, []));
    RunFrom(opening, 0, c, Trace(inner, []), Trace(inner, dial));
    assert opening[0..] == opening;
  }

  /** The frame's final restore returns to the canvas saved at its start,
      whatever rotation the drawing left behind. */
  lemma ClosingRun(c: Canvas, rotation: int)
    ensures Run([Restore], Canvas(rotation, c.saved + [c.rotation])) == Some(Trace(c, []))
  {
    var closing := [Restore];
    var inner := Canvas(rotation, c.saved + [c.rotation]);
    assert inner.saved[..|inner.saved| - 1] == c.saved;
    assert closing[1..] == [] && closing[0..] == closing;
    RunFrom(closing, 0, inner, Trace(c, []), Trace(c, []));
  }

  /** Four programs run one after the other. */
  lemma RunChain(o1: seq<Op>, o2: seq<Op>, o3: seq<Op>, o4: seq<Op>, c: Canvas,
                 t1: Trace, t2: Trace, t3: Trace, t4: Trace)
    requires Run(o1, c) == Some(t1)
    requires Run(o2, t1.canvas) == Some(t2)
    requires Run(o3, t2.canvas) == Some(t3)
    requires Run(o4, t3.canvas) == Some(t4)
    ensures Run(o1 + o2 + o3 + o4, c) == Some(Trace(t4.canvas, t1.marks + t2.marks + t3.marks + t4.marks))
  {
    RunAppend(o1, o2, c, t1, t2);
    RunAppend(o1 + o2, o3, c, Trace(t2.canvas, t1.marks + t2.marks), t3);
    RunAppend(o1 + o2 + o3, o4, c, Trace(t3.canvas, t1.marks + t2.marks + t3.marks), t4);
  }

  /** The marks of `drawPointer` under a canvas rotation `base`: each hand
      at its angle, the cap unrotated. */
  function HandMarks(a: Pointer.HandAngles, base: int): seq<Mark> {
    [ Mark(HourHand, base + a.hour), Mark(MinuteHand, base + a.minute)
    , Mark(SecondHand, base + a.second), Mark(CenterCap, base) ]
  }

  /** The hands, each in its own save/restore pair, then the cap: the canvas
      comes back unchanged. */
  lemma HandsRun(a: Pointer.HandAngles, c: Canvas)
    ensures Run(PointerOps(a), c) == Some(Trace(c, HandMarks(a, c.rotation)))
  {
    var hour := [Mark(HourHand, c.rotation + a.hour)];
    var minute := [Mark(MinuteHand, c.rotation + a.minute)];
    var second := [Mark(SecondHand, c.rotation + a.second)];
    RotatedRun(a.hour, HourHand, c);
    RotatedRun(a.minute, MinuteHand, c);
    RotatedRun(a.second, SecondHand, c);
    RunAppend(Rotated(a.hour, HourHand), Rotated(a.minute, MinuteHand), c, Trace(c, hour), Trace(c, minute));
    var twoOps := Rotated(a.hour, HourHand) + Rotated(a.minute, MinuteHand);
    RunAppend(twoOps, Rotated(a.second, SecondHand), c, Trace(c, hour + minute), Trace(c, second));
    var threeOps := twoOps + Rotated(a.second, SecondHand);
    var cap := [Draw(CenterCap)];
    assert cap[1..] == [] && cap[0..] == cap;
    RunFrom(cap, 0, c, Trace(c, [Mark(CenterCap, c.rotation)]), Trace(c, []));
    RunAppend(threeOps, [Draw(CenterCap)], c, Trace(c, hour + minute + second), Trace(c, [Mark(CenterCap, c.rotation)]));
    assert hour + minute + second + [Mark(CenterCap, c.rotation)] == HandMarks(a, c.rotation);
  }

  /** A mark reads right relative to `base`, modulo a full turn: a numeral
      is upright and a tick line points six degrees per index clockwise. */
  predicate Oriented(m: Mark, base: int) {
    (m.shape.NumeralText? ==> (m.orientation - base) % 360 == 0)
    && (m.shape.TickLine? ==> (m.orientation - base) % 360 == 6 * m.shape.index)
  }

  /** Read modulo a full turn from the rotation `base` a frame starts
      under, every numeral of the expected frame is upright and every tick
      line points six degrees per index clockwise from 12 o'clock. With
      `FrameRun` this is what the canvas shows. */
  lemma FrameOrientations(t: Pointer.ClockTime, base: int)
    ensures forall m :: m in ExpectedFrame(t, base) ==> Oriented(m, base)
  {
    var scale := ExpectedScale(0, base);
    var hands := HandMarks(Pointer.Angles(t), base + 360);
    ScaleMarksOriented(0, base);
    AllOriented([Mark(Dial, base)], scale, base);
    AllOriented([Mark(Dial, base)] + scale, hands, base);
  }

  /** Each hand of the expected frame points at its angle for `t`, one
      full turn past `base` because the scale has turned the canvas once. */
  lemma FrameHands(t: Pointer.ClockTime, base: int)
    ensures Mark(HourHand, base + 360 + (t.hour % 12) * 30) in ExpectedFrame(t, base)
    ensures Mark(MinuteHand, base + 360 + t.minute * 6) in ExpectedFrame(t, base)
    ensures Mark(SecondHand, base + 360 + t.second * 6) in ExpectedFrame(t, base)
  {
    var scale := ExpectedScale(0, base);
    var hands := HandMarks(Pointer.Angles(t), base + 360);
    assert ExpectedFrame(t, base) == [Mark(Dial, base)] + scale + hands;
    assert hands[0] == Mark(HourHand, base + 360 + (t.hour % 12) * 30);
    assert hands[1] == Mark(MinuteHand, base + 360 + t.minute * 6);
    assert hands[2] == Mark(SecondHand, base + 360 + t.second * 6);
  }

  /** Two runs of marks that read right read right together. */
  lemma AllOriented(xs: seq<Mark>, ys: seq<Mark>, base: int)
    requires forall m :: m in xs ==> Oriented(m, base)
    requires forall m :: m in ys ==> Oriented(m, base)
    ensures forall m :: m in xs + ys ==> Oriented(m, base)
  {
  }

  /** Every mark of the expected scale from tick `i` on reads right. */
  lemma {:induction false} ScaleMarksOriented(i: nat, base: int)
    requires i <= Scale.TICK_COUNT
    ensures forall m :: m in ExpectedScale(i, base) ==> Oriented(m, base)
    decreases Scale.TICK_COUNT - i
  {
    if i < Scale.TICK_COUNT {
      ScaleMarksOriented(i + 1, base);
      assert 0 <= 6 * i < 360;
      assert forall m :: m in TickMarks(i, base) ==> Oriented(m, base);
    }
  }
}
