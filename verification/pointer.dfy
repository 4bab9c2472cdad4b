/** The hand angles of `WatchBoard.drawPointer`. The wall-clock read is
    replaced by a time-of-day value: the hour of the day, minute and second
    as the calendar reports them. Angles are whole degrees clockwise from
    12 o'clock, computed in Java `int` arithmetic. */
module Pointer {

  import opened JavaInt

  type Hour = h: int | 0 <= h < 24
  type Sixtieth = x: int | 0 <= x < 60

  datatype ClockTime = ClockTime(hour: Hour, minute: Sixtieth, second: Sixtieth)

  datatype HandAngles = HandAngles(hour: int, minute: int, second: int)

  /** `(hour % 12) * 360 / 12`: thirty degrees per hour on a twelve-hour
      dial, never beyond 330. */
  function HourAngle(hour: Hour): (a: int)
    ensures a == (hour % 12) * 30
    ensures 0 <= a <= 330 && a % 30 == 0
  {
    Quot(Rem(hour, 12) * 360, 12)
  }

  /** `value * 360 / 60` for a minute or a second: six degrees per step,
      never beyond 354. */
  function SixtiethAngle(value: Sixtieth): (a: int)
    ensures a == value * 6
    ensures 0 <= a <= 354 && a % 6 == 0
  {
    Quot(value * 360, 60)
  }

  /** The three angles drawn for one time of day. The hour hand does not
      move between hours: it is fed the hour alone. */
  function Angles(t: ClockTime): (a: HandAngles)
    ensures 0 <= a.hour < 360 && 0 <= a.minute < 360 && 0 <= a.second < 360
    ensures a.hour == (t.hour % 12) * 30
    ensures a.minute == t.minute * 6 && a.second == t.second * 6
  {
    HandAngles(HourAngle(t.hour), SixtiethAngle(t.minute), SixtiethAngle(t.second))
  }

  /** Hours `h` and `h + 12` put the hour hand in the same place, and on one
      half of the day distinct hours give distinct angles. */
  lemma HourAngleHalfDay(h1: Hour, h2: Hour)
    ensures HourAngle(h1) == HourAngle(h2) <==> h1 % 12 == h2 % 12
  {
  }

  /** Distinct minutes (or seconds) give distinct angles, and every multiple
      of six below 360 is reached by exactly the sixtieth it divides out to. */
  lemma SixtiethAngleInverse(v: Sixtieth, a: int)
    ensures SixtiethAngle(v) == a <==> (0 <= a < 360 && a % 6 == 0 && v == a / 6)
  {
  }

  /** The hour angle depends on the hour only: changing the minute or the
      second leaves it where it is. */
  lemma HourIgnoresMinute(t1: ClockTime, t2: ClockTime)
    requires t1.hour == t2.hour
    ensures Angles(t1).hour == Angles(t2).hour
  {
  }

  /** 03:00:00 puts the hour hand at 90 degrees and the other two at 12. */
  lemma ThreeOClockExample()
    ensures Angles(ClockTime(3, 0, 0)) == HandAngles(90, 0, 0)
    ensures Angles(ClockTime(15, 0, 0)) == HandAngles(90, 0, 0)
  {
  }
}
