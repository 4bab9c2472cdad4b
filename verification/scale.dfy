/** The scale of `WatchBoard.drawScale`: sixty tick positions, six degrees
    apart, clockwise from 12 o'clock. Every fifth tick is a major (hour)
    tick with a longer line and a numeral; the others are minor (minute)
    ticks. The loop draws tick `i` under the rotation the canvas has
    accumulated from the `rotate(6)` of every earlier tick, and draws a
    numeral after counter-rotating by `-6 * i`. */
module Scale {

  import opened Wrappers

  const TICK_COUNT: int := 60
  /** Degrees the canvas turns after each tick: 360 / 60. */
  const TICK_STEP: int := 6
  const MAJOR_LENGTH: int := 40
  const MINOR_LENGTH: int := 30

  type TickIndex = i: int | 0 <= i < 60

  /** A numeral printed by a major tick, with the rotation applied just
      before it is drawn. */
  datatype Numeral = Numeral(value: int, counterTurn: int)

  /** What the loop feeds the canvas for one tick: its class, its line
      length, its numeral (major ticks only) and the canvas rotation in
      force when it is drawn. */
  datatype Tick = Tick(major: bool, length: int, numeral: Option<Numeral>, rotation: int)

  /** The numeral of the hour-tick with ordinal `hour` (0 for 12 o'clock):
      for ordinals 0..11, the number in 1..12 that agrees with it modulo 12. */
  function HourLabel(hour: int): (r: int)
    ensures 0 <= hour < 12 ==> 1 <= r <= 12 && r % 12 == hour
  {
    if hour == 0 then 12 else hour
  }

  /** The record of tick `i`, in closed form. */
  function TickAt(i: TickIndex): (t: Tick)
    ensures t.major <==> t.numeral.Some?
    ensures t.length == (if t.major then MAJOR_LENGTH else MINOR_LENGTH)
    ensures t.numeral.Some? ==> 1 <= t.numeral.value.value <= 12
    ensures t.numeral.Some? ==> t.rotation + t.numeral.value.counterTurn == 0
    ensures 0 <= t.rotation < 360
  {
    if i % 5 == 0 then
      Tick(true, MAJOR_LENGTH, Some(Numeral(HourLabel(i / 5), -TICK_STEP * i)), TICK_STEP * i)
    else
      Tick(false, MINOR_LENGTH, None, TICK_STEP * i)
  }

  /** The sixty ticks in drawing order. */
  function Schedule(): (s: seq<Tick>)
    ensures |s| == TICK_COUNT
  {
    seq(TICK_COUNT, (i: int) requires 0 <= i < TICK_COUNT => TickAt(i))
  }

  /** The `for` loop of `drawScale`: the rotation is not computed from `i`
      but accumulated, six degrees after every tick. The records it emits
      are exactly the closed-form ones, and after the sixtieth tick the
      canvas has turned a full circle. */
  method DrawScaleLoop() returns (ticks: seq<Tick>, turn: int)
    ensures ticks == Schedule()
    ensures turn == 360
  {
    ticks := [];
    turn := 0;
    var i := 0;
    while i < TICK_COUNT
      invariant 0 <= i <= TICK_COUNT
      invariant turn == TICK_STEP * i
      invariant |ticks| == i
      invariant forall k :: 0 <= k < i ==> ticks[k] == TickAt(k)
    {
      var tick;
      if i % 5 == 0 {
        tick := Tick(true, MAJOR_LENGTH, Some(Numeral(HourLabel(i / 5), -TICK_STEP * i)), turn);
      } else {
        tick := Tick(false, MINOR_LENGTH, None, turn);
      }
      ticks := ticks + [tick];
      turn := turn + TICK_STEP;
      i := i + 1;
    }
  }

  /** Number of major ticks in `ts`. */
  function CountMajors(ts: seq<Tick>): nat {
    if ts == [] then 0
    else CountMajors(ts[..|ts| - 1]) + (if ts[|ts| - 1].major then 1 else 0)
  }

  /** The numerals of `ts`, in drawing order. */
  function Labels(ts: seq<Tick>): seq<int> {
    if ts == [] then []
    else
      var last := ts[|ts| - 1];
      Labels(ts[..|ts| - 1]) + (if last.numeral.Some? then [last.numeral.value.value] else [])
  }

  /** The labels of the first `count` hour ticks: 12, 1, 2, ... */
  function HourLabels(count: nat): (s: seq<int>)
    ensures |s| == count
  {
    seq(count, (k: int) => HourLabel(k))
  }

  /** The first `n` ticks hold `ceil(n / 5)` major ticks, labelled 12, 1, 2, ... */
  lemma {:induction false} SchedulePrefix(n: nat)
    requires n <= TICK_COUNT
    ensures CountMajors(Schedule()[..n]) == (n + 4) / 5
    ensures Labels(Schedule()[..n]) == HourLabels((n + 4) / 5)
  {
    if n > 0 {
      var s := Schedule();
      SchedulePrefix(n - 1);
      assert s[..n][..n - 1] == s[..n - 1];
      assert s[..n][n - 1] == TickAt(n - 1);
      if (n - 1) % 5 == 0 {
        assert (n + 4) / 5 == (n + 3) / 5 + 1;
        assert HourLabels((n + 4) / 5) == HourLabels((n + 3) / 5) + [HourLabel((n - 1) / 5)];
      } else {
        assert (n + 4) / 5 == (n + 3) / 5;
      }
    }
  }

  /** Exactly twelve of the sixty ticks are major, and their numerals read
      12, 1, 2, ..., 11 in drawing order. */
  lemma MajorTicks()
    ensures CountMajors(Schedule()) == 12
    ensures Labels(Schedule()) == [12, 1, 2, 3, 4, 5, 6, 7, 8, 9, 10, 11]
  {
    SchedulePrefix(TICK_COUNT);
    assert Schedule()[..TICK_COUNT] == Schedule();
  }

  /** Every hour 1..12 is printed exactly once. */
  lemma LabelsDistinctAndComplete()
    ensures forall a, b :: 0 <= a < b < |Labels(Schedule())| ==> Labels(Schedule())[a] != Labels(Schedule())[b]
    ensures forall k :: 1 <= k <= 12 <==> k in Labels(Schedule())
  {
    MajorTicks();
    var l := Labels(Schedule());
    forall k | 1 <= k <= 12
      ensures k in l
    {
      assert l[k % 12] == k;
    }
  }

  /** Tick `i` is major exactly when `i` is a multiple of five. */
  lemma MajorIffMultipleOfFive(i: TickIndex)
    ensures TickAt(i).major <==> i % 5 == 0
    ensures TickAt(i).length == 40 <==> i % 5 == 0
  {
  }

  /** The tick at which numeral `hour` (1..12) is printed. */
  function LabelTick(hour: int): (i: TickIndex)
    requires 1 <= hour <= 12
    ensures i % 5 == 0
  {
    (hour % 12) * 5
  }

  /** Numeral and major tick determine each other: the tick found for a
      label prints that label, and the label of a major tick leads back to
      the tick. */
  lemma LabelTickRoundTrip(hour: int, i: TickIndex)
    requires 1 <= hour <= 12
    ensures TickAt(LabelTick(hour)).numeral.Some?
    ensures TickAt(LabelTick(hour)).numeral.value.value == hour
    ensures TickAt(i).major ==> LabelTick(TickAt(i).numeral.value.value) == i
  {
  }
}
