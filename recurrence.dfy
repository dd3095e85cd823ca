/**
  The recurrence rule of a job: how an interval, a unit and an optional
  clock-of-day anchor turn "now" into the instant of the next run
  (`Job._schedule_next_run`, main.py:130-157), and the error kinds the
  scheduler raises (main.py:10-19).
*/
module Recurrence {
  import opened Wrappers
  import opened Instants

  /** The five values `Job.unit` takes once a unit accessor has been used. */
  datatype Unit = Seconds | Minutes | Hours | Days | Weeks

  /** `timedelta(**{unit: 1})`. */
  function Duration(u: Unit): (d: int)
    ensures d > 0
  {
    match u
    case Seconds => SECOND
    case Minutes => MINUTE
    case Hours => HOUR
    case Days => DAY
    case Weeks => WEEK
  }

  /** `timedelta(**{unit: interval})`, the job's `period`. */
  function Period(interval: int, u: Unit): int
  {
    interval * Duration(u)
  }

  /** The units on which an anchor time is meaningful. */
  predicate Anchorable(u: Unit)
  {
    u == Hours || u == Days
  }

  datatype Clock = Clock(hour: int, minute: int)

  /** A `datetime.time(hour, minute)`: its constructor admits only in-range fields. */
  type ClockTime = c: Clock | 0 <= c.hour < 24 && 0 <= c.minute < 60 witness Clock(0, 0)

  /** Microseconds from midnight to the anchor; comparing these is comparing `time` objects. */
  function MicrosOfDay(c: ClockTime): int
  {
    c.hour * HOUR + c.minute * MINUTE
  }

  /**
    Why `SchedulerValueError` was raised. The source raises the first two
    with one and the same message.
  */
  datatype Reason =
    | UnsetUnit      // scheduling a job whose unit was never chosen
    | AnchorUnit     // an anchor time together with a unit other than hours or days
    | HourWrong      // anchor hour outside 0..23
    | MinuteWrong    // anchor minute outside 0..59

  /** The exceptions that leave the scheduler's own code. */
  datatype Error =
    | IntervalError(unit: Unit)           // a singular unit accessor with interval != 1
    | SchedulerValueError(reason: Reason)
    | TypeError                           // Python's: calling or comparing None, a bad keyword
    | ValueError                          // Python's: an anchor string that does not split or parse

  /**
    The effect of one scheduling: either the new `next_run`, or the error it
    raised together with the value it had already written to `next_run`
    before raising (None if it raised before writing).
  */
  datatype Step = Scheduled(next: Instant) | Raised(error: Error, written: Option<Instant>)

  /** True when this is the job's first scheduling and its backdate applies. */
  predicate Backdates(now: Instant, lastRun: Option<Instant>, u: Unit, at: ClockTime)
  {
    lastRun.None? &&
    ((u == Days && MicrosOfDay(at) > TimeOfDay(now)) ||
     (u == Hours && at.minute > MinuteOf(now)))
  }

  /**
    The next-run rule. A single `now` stands for both clock readings of the
    source (main.py:137 and 153). For a `days` unit the anchor hour is written
    with the `hour` keyword that `datetime.replace` accepts; the source writes
    `hours` at main.py:148, see NextRunAsWritten.
  */
  function NextRun(now: Instant, lastRun: Option<Instant>, interval: int, unit: Option<Unit>,
                   atTime: Option<ClockTime>): (r: Step)
    ensures r.Raised? <==> unit.None? || (atTime.Some? && !Anchorable(unit.value))
    ensures unit.None? ==> r == Raised(SchedulerValueError(UnsetUnit), None)
    ensures unit.Some? && atTime.None? ==> r == Scheduled(now + Period(interval, unit.value))
    ensures unit.Some? && atTime.Some? && !Anchorable(unit.value) ==>
              r == Raised(SchedulerValueError(AnchorUnit), Some(now + Period(interval, unit.value)))
  {
    match unit
    case None => Raised(SchedulerValueError(UnsetUnit), None)
    case Some(u) =>
      var candidate := now + Period(interval, u);
      match atTime
      case None => Scheduled(candidate)
      case Some(at) =>
        if !Anchorable(u) then
          Raised(SchedulerValueError(AnchorUnit), Some(candidate))
        else
          FieldsCompose(candidate);
          var pinned := Replace(candidate, if u == Days then at.hour else HourOf(candidate), at.minute, 0, 0);
          if Backdates(now, lastRun, u, at) then
            Scheduled(pinned - Duration(u))
          else
            Scheduled(pinned)
  }

  /**
    The rule as main.py:142-150 writes it: `replace` is given the keyword
    `hours`, which it rejects with TypeError, after `next_run` was already
    set to `now + period` at main.py:137.
  */
  function NextRunAsWritten(now: Instant, lastRun: Option<Instant>, interval: int, unit: Option<Unit>,
                            atTime: Option<ClockTime>): (r: Step)
    ensures unit != Some(Days) || atTime.None? ==> r == NextRun(now, lastRun, interval, unit, atTime)
  {
    if unit == Some(Days) && atTime.Some? then
      Raised(TypeError, Some(now + Period(interval, Days)))
    else
      NextRun(now, lastRun, interval, unit, atTime)
  }

  /** As written, no `days` job with an anchor can be scheduled, although the rule intends to. */
  lemma AsWrittenRejectsDaysAnchor(now: Instant, lastRun: Option<Instant>, interval: int, at: ClockTime)
    ensures NextRunAsWritten(now, lastRun, interval, Some(Days), Some(at))
            == Raised(TypeError, Some(now + interval * DAY))
    ensures NextRun(now, lastRun, interval, Some(Days), Some(at)).Scheduled?
  {
  }

  /**
    A `days` job with an anchor runs on the date `interval` days after now's
    date (one day earlier on a first scheduling whose anchor is still ahead of
    now's clock), at exactly the anchor's hour and minute, second 0.
  */
  lemma {:induction false} DaysAnchorRule(now: Instant, lastRun: Option<Instant>, interval: int, at: ClockTime)
    ensures var back := if Backdates(now, lastRun, Days, at) then 1 else 0;
      NextRun(now, lastRun, interval, Some(Days), Some(at))
      == Scheduled(Compose(DateOf(now) + interval - back, at.hour, at.minute, 0, 0))
    ensures var r := NextRun(now, lastRun, interval, Some(Days), Some(at));
      && HourOf(r.next) == at.hour && MinuteOf(r.next) == at.minute
      && SecondOf(r.next) == 0 && MicrosecondOf(r.next) == 0
  {
    var back := if Backdates(now, lastRun, Days, at) then 1 else 0;
    var candidate := now + interval * DAY;
    ShiftByDays(now, interval);
    var c := Compose(DateOf(now) + interval - back, at.hour, at.minute, 0, 0);
    assert Compose(DateOf(now) + interval, at.hour, at.minute, 0, 0) - back * DAY == c;
    ComposeFields(DateOf(now) + interval - back, at.hour, at.minute, 0, 0);
  }

  /**
    An `hours` job with an anchor runs `interval` hours after the start of
    now's hour (one hour earlier on a first scheduling whose anchor minute is
    still ahead of now's minute), at exactly the anchor's minute, second 0.
  */
  lemma {:induction false} HoursAnchorRule(now: Instant, lastRun: Option<Instant>, interval: int, at: ClockTime)
    ensures var back := if Backdates(now, lastRun, Hours, at) then 1 else 0;
      NextRun(now, lastRun, interval, Some(Hours), Some(at))
      == Scheduled(now - now % HOUR + (interval - back) * HOUR + at.minute * MINUTE)
    ensures var r := NextRun(now, lastRun, interval, Some(Hours), Some(at));
      && MinuteOf(r.next) == at.minute && SecondOf(r.next) == 0 && MicrosecondOf(r.next) == 0
  {
    var back := if Backdates(now, lastRun, Hours, at) then 1 else 0;
    var candidate := now + interval * HOUR;
    ShiftByHours(now, interval);
    ReplaceMinuteInHour(candidate, at.minute);
    var hourNumber := now / HOUR + interval - back;
    var next := now - now % HOUR + (interval - back) * HOUR + at.minute * MINUTE;
    assert next == hourNumber * HOUR + at.minute * MINUTE;
    DivModUnique(next, hourNumber, at.minute * MINUTE, HOUR);
    DivModUnique(at.minute * MINUTE, at.minute, 0, MINUTE);
    DivModUnique(next, hourNumber * 60 + at.minute, 0, MINUTE);
    DivModUnique(0, 0, 0, SECOND);
  }

  /** Every valid first scheduling lands inside the first period after now. */
  lemma {:induction false} FirstRunInFirstPeriod(now: Instant, interval: int, u: Unit, atTime: Option<ClockTime>)
    requires atTime.Some? ==> Anchorable(u)
    ensures var r := NextRun(now, None, interval, Some(u), atTime);
      && r.Scheduled?
      && now + Period(interval, u) - Duration(u) < r.next <= now + Period(interval, u)
  {
    if atTime.Some? {
      var at := atTime.value;
      if u == Days {
        DaysAnchorRule(now, None, interval, at);
        FieldsCompose(now);
        ComposeFields(DateOf(now), HourOf(now), MinuteOf(now), SecondOf(now), MicrosecondOf(now));
      } else {
        HoursAnchorRule(now, None, interval, at);
        var inHour := now % HOUR;
        assert inHour == MinuteOf(now) * MINUTE + inHour % MINUTE;
      }
    }
  }

  /**
    Every valid rescheduling after a run lands within one unit of a full
    period after now; without an anchor exactly one period after now.
  */
  lemma RescheduleNearPeriod(now: Instant, lastRun: Instant, interval: int, u: Unit,
                                                atTime: Option<ClockTime>)
    requires atTime.Some? ==> Anchorable(u)
    ensures var r := NextRun(now, Some(lastRun), interval, Some(u), atTime);
      && r.Scheduled?
      && now + Period(interval, u) - Duration(u) < r.next < now + Period(interval, u) + Duration(u)
  {
  }

  /** With a positive interval, every valid scheduling is strictly after now. */
  lemma NextRunIsAfterNow(now: Instant, lastRun: Option<Instant>, interval: int, u: Unit,
                          atTime: Option<ClockTime>)
    requires interval >= 1 && (atTime.Some? ==> Anchorable(u))
    ensures var r := NextRun(now, lastRun, interval, Some(u), atTime);
      r.Scheduled? && r.next > now
  {
    assert Period(interval, u) - Duration(u) == (interval - 1) * Duration(u);
    if lastRun.None? {
      FirstRunInFirstPeriod(now, interval, u, atTime);
    } else {
      RescheduleNearPeriod(now, lastRun.value, interval, u, atTime);
    }
  }

  /**
    "Every day at HH:MM", first scheduling: today's anchor when it is still
    ahead of now, otherwise tomorrow's.
  */
  lemma DailyFirstRun(now: Instant, at: ClockTime)
    ensures var r := NextRun(now, None, 1, Some(Days), Some(at));
      && TimeOfDay(r.next) == MicrosOfDay(at)
      && (MicrosOfDay(at) > TimeOfDay(now) ==> DateOf(r.next) == DateOf(now) && r.next > now)
      && (MicrosOfDay(at) <= TimeOfDay(now) ==> DateOf(r.next) == DateOf(now) + 1)
  {
  }

  /**
    "Every hour at :MM", first scheduling with the anchor minute still ahead:
    the run falls in the current hour, at that minute, after now.
  */
  lemma HourlyFirstRun(now: Instant, at: ClockTime)
    requires at.minute > MinuteOf(now)
    ensures var r := NextRun(now, None, 1, Some(Hours), Some(at));
      && r.next / HOUR == now / HOUR && MinuteOf(r.next) == at.minute && r.next > now
  {
    HoursAnchorRule(now, None, 1, at);
    var r := NextRun(now, None, 1, Some(Hours), Some(at));
    var inHour := now % HOUR;
    assert inHour == MinuteOf(now) * MINUTE + inHour % MINUTE;
    DivModUnique(r.next, now / HOUR, at.minute * MINUTE, HOUR);
  }
}
