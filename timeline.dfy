/** Points in time as the services see them.

    An instant is a whole number of microseconds since 1970-01-01T00:00:00 UTC
    (Python's `datetime` has microsecond resolution). A calendar day is the
    number of days since 1970-01-01; it stands for the `YYYY-MM-DD` text that
    `strftime("%Y-%m-%d")` prints, which names each day exactly once. */
module Timeline {
  import opened Wrappers

  const MicrosPerSecond: int := 1_000_000
  const MicrosPerHour: int := 3_600_000_000
  const MicrosPerDay: int := 86_400_000_000

  /** The UTC calendar day an instant falls on. */
  function Day(t: int): int {
    t / MicrosPerDay
  }

  /** Microseconds since UTC midnight. */
  function TimeOfDay(t: int): (r: int)
    ensures 0 <= r < MicrosPerDay
    ensures t == Day(t) * MicrosPerDay + r
  {
    t % MicrosPerDay
  }

  /** The only way to write an instant as whole days plus a time of day. */
  lemma DayOf(k: int, r: int)
    requires 0 <= r < MicrosPerDay
    ensures Day(k * MicrosPerDay + r) == k
    ensures TimeOfDay(k * MicrosPerDay + r) == r
  {
    var t := k * MicrosPerDay + r;
    assert t == Day(t) * MicrosPerDay + TimeOfDay(t);
    assert (Day(t) - k) * MicrosPerDay == r - TimeOfDay(t);
  }

  /** Adding whole days moves the calendar day by as many days and keeps the
      time of day. */
  lemma DayShift(t: int, j: int)
    ensures Day(t + j * MicrosPerDay) == Day(t) + j
    ensures TimeOfDay(t + j * MicrosPerDay) == TimeOfDay(t)
  {
    assert t + j * MicrosPerDay == (Day(t) + j) * MicrosPerDay + TimeOfDay(t);
    DayOf(Day(t) + j, TimeOfDay(t));
  }

  /** Later instants never fall on earlier days. */
  lemma DayMonotone(a: int, b: int)
    requires a <= b
    ensures Day(a) <= Day(b)
  {
    assert Day(a) * MicrosPerDay <= a <= b < (Day(b) + 1) * MicrosPerDay;
  }

  /** `k` whole days fit in a non-negative span `x` exactly when `k` is at most
      the number of whole days in `x`. */
  lemma WholeDaysWithin(x: int, k: int)
    requires x >= 0
    ensures k * MicrosPerDay <= x <==> k <= x / MicrosPerDay
  {
    var q := x / MicrosPerDay;
    assert x == q * MicrosPerDay + x % MicrosPerDay;
    if k <= q {
      assert k * MicrosPerDay <= q * MicrosPerDay;
    } else {
      assert (k - q) * MicrosPerDay >= MicrosPerDay;
    }
  }

  /** `t.replace(hour=0, minute=0, second=0, microsecond=0)` for a UTC instant. */
  function Midnight(t: int): (r: int)
    ensures r <= t < r + MicrosPerDay
    ensures Day(r) == Day(t) && TimeOfDay(r) == 0
  {
    DayOf(Day(t), 0);
    Day(t) * MicrosPerDay
  }

  /** `t.replace(hour=23, minute=59, second=59, microsecond=999999)` for a UTC
      instant: the last instant of the same calendar day. */
  function EndOfDay(t: int): (r: int)
    ensures t <= r && Day(r) == Day(t)
    ensures TimeOfDay(r) == MicrosPerDay - 1
    ensures Day(r + 1) == Day(t) + 1
  {
    DayOf(Day(t), MicrosPerDay - 1);
    DayOf(Day(t) + 1, 0);
    Day(t) * MicrosPerDay + MicrosPerDay - 1
  }

  /** An instant lies on or before the end of the day of `to` exactly when its
      calendar day is not later than that of `to`. */
  lemma EndOfDayBound(t: int, to: int)
    ensures t <= EndOfDay(to) <==> Day(t) <= Day(to)
  {
    if t <= EndOfDay(to) {
      DayOf(Day(t), TimeOfDay(t));
      DayOf(Day(to), MicrosPerDay - 1);
    } else {
      assert t >= EndOfDay(to) + 1;
      DayOf(Day(t), TimeOfDay(t));
    }
  }

  /** A Python `datetime`: wall-clock microseconds, and the UTC offset in
      microseconds when the value is timezone-aware (`None` when naive). */
  datatype DateTime = DateTime(wall: int, offset: Option<int>)

  /** The instant an aware `datetime` denotes. */
  function Instant(d: DateTime): (t: int)
    requires d.offset.Some?
    ensures d.offset == Some(0) ==> t == d.wall
  {
    d.wall - d.offset.value
  }

  /** `d.replace(tzinfo=timezone.utc)`: keeps the wall clock, labels it UTC. */
  function AsUtc(d: DateTime): (r: DateTime)
    ensures r.offset == Some(0) && Instant(r) == d.wall
  {
    DateTime(d.wall, Some(0))
  }

  /** `datetime.now(timezone.utc)` at instant `t`, or any instant stored as an
      aware UTC value. */
  function UtcDateTime(t: int): (d: DateTime)
    ensures d.offset.Some? && Instant(d) == t
  {
    DateTime(t, Some(0))
  }
}
