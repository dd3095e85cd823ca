/**
  Naive date-times as integers.

  An instant is a count of microseconds since some midnight, so that the
  calendar fields the scheduler reads and overwrites (date, hour, minute,
  second, microsecond) are a mixed-radix view of one integer. Dafny's `/` and
  `%` are Euclidean, which for a positive divisor is floor division: instants
  before the chosen midnight still get fields in their usual ranges.
*/
module Instants {

  type Instant = int

  const SECOND: int := 1_000_000
  const MINUTE: int := 60_000_000
  const HOUR: int := 3_600_000_000
  const DAY: int := 86_400_000_000
  const WEEK: int := 604_800_000_000

  /** The day number of `t` (the date, counted from the chosen midnight). */
  function DateOf(t: Instant): int { t / DAY }

  /** Microseconds elapsed since the midnight that starts `t`'s day: `t.time()`. */
  function TimeOfDay(t: Instant): int { t % DAY }

  function HourOf(t: Instant): int { t % DAY / HOUR }

  function MinuteOf(t: Instant): int { t % HOUR / MINUTE }

  function SecondOf(t: Instant): int { t % MINUTE / SECOND }

  function MicrosecondOf(t: Instant): int { t % SECOND }

  ghost predicate FieldsInRange(hour: int, minute: int, second: int, microsecond: int)
  {
    0 <= hour < 24 && 0 <= minute < 60 && 0 <= second < 60 && 0 <= microsecond < SECOND
  }

  /** The instant on day `date` whose clock shows the given fields. */
  function Compose(date: int, hour: int, minute: int, second: int, microsecond: int): Instant
  {
    date * DAY + hour * HOUR + minute * MINUTE + second * SECOND + microsecond
  }

  lemma MulAtLeast(k: int, d: int)
    requires k >= 1 && d > 0
    ensures k * d >= d
    decreases k
  {
    if k > 1 {
      MulAtLeast(k - 1, d);
      assert k * d == (k - 1) * d + d;
    }
  }

  /** Floor division has one quotient and one remainder. */
  lemma DivModUnique(v: int, q: int, r: int, d: int)
    requires d > 0 && v == q * d + r && 0 <= r < d
    ensures v / d == q && v % d == r
  {
    var q', r' := v / d, v % d;
    assert v == q' * d + r' && 0 <= r' < d;
    if q' > q {
      assert (q' - q) * d == q' * d - q * d;
      MulAtLeast(q' - q, d);
    } else if q' < q {
      assert (q - q') * d == q * d - q' * d;
      MulAtLeast(q - q', d);
    }
  }

  /** Reading the fields of a composed instant gives back what was composed. */
  lemma ComposeFields(date: int, hour: int, minute: int, second: int, microsecond: int)
    requires FieldsInRange(hour, minute, second, microsecond)
    ensures var t := Compose(date, hour, minute, second, microsecond);
      && DateOf(t) == date && HourOf(t) == hour && MinuteOf(t) == minute
      && SecondOf(t) == second && MicrosecondOf(t) == microsecond
      && TimeOfDay(t) == hour * HOUR + minute * MINUTE + second * SECOND + microsecond
  {
    var t := Compose(date, hour, minute, second, microsecond);
    var inDay := hour * HOUR + minute * MINUTE + second * SECOND + microsecond;
    var inHour := minute * MINUTE + second * SECOND + microsecond;
    var inMinute := second * SECOND + microsecond;
    DivModUnique(t, date, inDay, DAY);
    DivModUnique(inDay, hour, inHour, HOUR);
    DivModUnique(t, date * 24 + hour, inHour, HOUR);
    DivModUnique(inHour, minute, inMinute, MINUTE);
    DivModUnique(t, (date * 24 + hour) * 60 + minute, inMinute, MINUTE);
    DivModUnique(inMinute, second, microsecond, SECOND);
    DivModUnique(t, ((date * 24 + hour) * 60 + minute) * 60 + second, microsecond, SECOND);
  }

  /** Every instant is the composition of its own fields, each in range. */
  lemma FieldsCompose(t: Instant)
    ensures FieldsInRange(HourOf(t), MinuteOf(t), SecondOf(t), MicrosecondOf(t))
    ensures t == Compose(DateOf(t), HourOf(t), MinuteOf(t), SecondOf(t), MicrosecondOf(t))
  {
    var inDay := t % DAY;
    var inHour := inDay % HOUR;
    var inMinute := inHour % MINUTE;
    assert inDay == inDay / HOUR * HOUR + inHour;
    assert inHour == inHour / MINUTE * MINUTE + inMinute;
    assert inMinute == inMinute / SECOND * SECOND + inMinute % SECOND;
    DivModUnique(t, t / DAY * 24 + inDay / HOUR, inHour, HOUR);
    DivModUnique(t, (t / DAY * 24 + inDay / HOUR) * 60 + inHour / MINUTE, inMinute, MINUTE);
    DivModUnique(t, ((t / DAY * 24 + inDay / HOUR) * 60 + inHour / MINUTE) * 60 + inMinute / SECOND,
                 inMinute % SECOND, SECOND);
  }

  /**
    `datetime.replace(hour=…, minute=…, second=…, microsecond=…)`: keep the
    date, overwrite the clock.
  */
  function Replace(t: Instant, hour: int, minute: int, second: int, microsecond: int): (r: Instant)
    requires FieldsInRange(hour, minute, second, microsecond)
    ensures DateOf(r) == DateOf(t) && HourOf(r) == hour && MinuteOf(r) == minute
    ensures SecondOf(r) == second && MicrosecondOf(r) == microsecond
  {
    ComposeFields(DateOf(t), hour, minute, second, microsecond);
    Compose(DateOf(t), hour, minute, second, microsecond)
  }

  /** Overwriting only the minute (and zeroing below it) stays within `t`'s hour. */
  lemma ReplaceMinuteInHour(t: Instant, minute: int)
    requires 0 <= minute < 60
    ensures Replace(t, HourOf(t), minute, 0, 0) == t - t % HOUR + minute * MINUTE
  {
    FieldsCompose(t);
    var inHour := MinuteOf(t) * MINUTE + SecondOf(t) * SECOND + MicrosecondOf(t);
    DivModUnique(t, DateOf(t) * 24 + HourOf(t), inHour, HOUR);
  }

  /** Moving by whole days keeps the clock and advances the date. */
  lemma ShiftByDays(t: Instant, k: int)
    ensures DateOf(t + k * DAY) == DateOf(t) + k && TimeOfDay(t + k * DAY) == TimeOfDay(t)
  {
    FieldsCompose(t);
    ComposeFields(DateOf(t) + k, HourOf(t), MinuteOf(t), SecondOf(t), MicrosecondOf(t));
  }

  /** Moving by whole hours keeps the position within the hour. */
  lemma ShiftByHours(t: Instant, k: int)
    ensures (t + k * HOUR) % HOUR == t % HOUR && MinuteOf(t + k * HOUR) == MinuteOf(t)
  {
  }
}
