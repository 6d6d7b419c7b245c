/** The schedule data both scripts read: a rotation is a start time and the
    people on call from then on. Times are whole seconds since the Unix epoch,
    in UTC. */
module Rotations {

  datatype Rotation = Rotation(start: int, members: seq<string>)

  const SecondsPerDay: int := 24 * 60 * 60
  const SecondsPerWeek: int := 7 * SecondsPerDay

  /** `datetime.min` in UTC (0001-01-01 00:00:00), the service time given to
      people who have never been on a rotation. */
  const MinTime: int := -62135596800

  /** Days since 1970-01-01, rounding towards the past (Python's datetime
      arithmetic floors, as Dafny's `/` does for a positive divisor). */
  function DayNumber(t: int): int
  {
    t / SecondsPerDay
  }

  /** `datetime.weekday()` of a day number: Monday is 0, Sunday is 6.
      1970-01-01 was a Thursday. */
  function Weekday(day: int): (w: int)
    ensures 0 <= w < 7
  {
    (day + 3) % 7
  }

  /** `now.replace(hour=0, minute=0, second=0, microsecond=0)` */
  function Midnight(now: int): (m: int)
    ensures m <= now < m + SecondsPerDay
    ensures m % SecondsPerDay == 0 && DayNumber(m) == DayNumber(now)
  {
    DayNumber(now) * SecondsPerDay
  }

  /** The anchor used when there are no prior rotations: midnight of `now`
      minus `weekday() + 1` days. */
  function MostRecentSunday(now: int): (s: int)
    ensures s % SecondsPerDay == 0
    ensures now - 8 * SecondsPerDay < s <= now - SecondsPerDay
  {
    Midnight(now) - (Weekday(DayNumber(now)) + 1) * SecondsPerDay
  }

  /** The anchor is a Sunday midnight, one to seven days before today's
      midnight. */
  lemma MostRecentSundayIsSunday(now: int)
    ensures var s := MostRecentSunday(now);
      && s % SecondsPerDay == 0
      && Weekday(DayNumber(s)) == 6
      && SecondsPerDay <= Midnight(now) - s <= 7 * SecondsPerDay
  {
    var d := DayNumber(now);
    var w := Weekday(d);
    var s := MostRecentSunday(now);
    assert s == (d - w - 1) * SecondsPerDay;
    assert DayNumber(s) == d - w - 1;
    assert (d - w - 1 + 3) % 7 == 6 by {
      assert d + 3 == 7 * ((d + 3) / 7) + w;
      assert d - w - 1 + 3 == 7 * ((d + 3) / 7) - 1;
    }
  }

  /** The case the unit tests pin down: a Friday morning, 2025-05-30 10:00
      UTC, anchors to Sunday 2025-05-25 00:00 UTC. */
  lemma MostRecentSundayExample()
    ensures MostRecentSunday(1748599200) == 1748131200
  {
  }

  /** Python's `math.ceil(a / b)` for integers, exact. */
  function CeilDiv(a: int, b: int): (q: int)
    requires b != 0
    ensures b > 0 ==> q * b >= a && (q - 1) * b < a
    ensures b < 0 ==> q * b <= a && (q - 1) * b > a
  {
    if b > 0 then (a + b - 1) / b else (-a - b - 1) / -b
  }
}
