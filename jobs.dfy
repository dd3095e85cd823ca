/**
  A job (main.py:52-185): its configuration, its run bookkeeping, and the
  operations that change them. Each operation is given twice: as a
  transition on a `JobState` value, which is what the lemmas talk about, and
  as a method of the mutable `Job` class, proved to perform that transition.
*/
module Jobs {
  import opened Wrappers
  import opened Instants
  import opened Recurrence

  /**
    The callable given to `do`, its arguments already bound. The scheduler
    only stores and calls it; nothing but its identity is modelled.
  */
  datatype Action = Action(name: string)

  /** The fields of a `Job` (main.py:53-60). */
  datatype JobState = JobState(
    interval: int,
    period: Option<int>,
    unit: Option<Unit>,
    action: Option<Action>,
    lastRun: Option<Instant>,
    nextRun: Option<Instant>,
    atTime: Option<ClockTime>)

  /** A job as `Job(interval)` creates it: nothing chosen, never scheduled. */
  function Created(interval: int): JobState
  {
    JobState(interval, None, None, None, None, None, None)
  }

  /** The state a call leaves behind and whether it raised. */
  datatype Transition = Transition(state: JobState, outcome: Outcome<Error>)

  /**
    Python's `a <= b` on two `next_run` values: the comparison of instants,
    or TypeError when either side is still None.
  */
  function LessOrEqual(a: Option<Instant>, b: Option<Instant>): (r: Result<bool, Error>)
    ensures r.Err? <==> a.None? || b.None?
    ensures r.Err? ==> r.error == TypeError
    ensures r.Ok? ==> (r.value <==> a.value <= b.value)
  {
    if a.None? || b.None? then Err(TypeError) else Ok(a.value <= b.value)
  }

  /**
    `at(time_value)` on the already split and parsed fields of "HH:MM": each
    element is what `int()` makes of one ':'-separated field, None when
    `int()` raises.
  */
  function Anchor(s: JobState, fields: seq<Option<int>>): (t: Transition)
    ensures t.outcome.Fail? ==> t.state == s
    ensures t.outcome.Pass? <==>
      && s.unit.Some? && Anchorable(s.unit.value) && |fields| == 2
      && (s.unit.value == Days ==> fields[0].Some? && 0 <= fields[0].value <= 23)
      && fields[1].Some? && 0 <= fields[1].value <= 59
    ensures t.outcome.Pass? ==>
      t.state.atTime == Some(Clock(if s.unit.value == Days then fields[0].value else 0, fields[1].value))
      && t.state == s.(atTime := t.state.atTime)
    ensures s.unit.None? || !Anchorable(s.unit.value) ==>
      t.outcome == Fail(SchedulerValueError(AnchorUnit))
    ensures s.unit.Some? && Anchorable(s.unit.value) && |fields| != 2 ==> t.outcome == Fail(ValueError)
    ensures s.unit == Some(Days) && |fields| == 2 ==>
      && (fields[0].None? ==> t.outcome == Fail(ValueError))
      && (fields[0].Some? && !(0 <= fields[0].value <= 23) ==> t.outcome == Fail(SchedulerValueError(HourWrong)))
    ensures s.unit.Some? && Anchorable(s.unit.value) && |fields| == 2
            && (s.unit.value == Days ==> fields[0].Some? && 0 <= fields[0].value <= 23) ==>
      && (fields[1].None? ==> t.outcome == Fail(ValueError))
      && (fields[1].Some? && !(0 <= fields[1].value <= 59) ==> t.outcome == Fail(SchedulerValueError(MinuteWrong)))
  {
    if s.unit.None? || !Anchorable(s.unit.value) then
      Transition(s, Fail(SchedulerValueError(AnchorUnit)))
    else if |fields| != 2 then
      Transition(s, Fail(ValueError))
    else if s.unit.value == Days && fields[0].None? then
      Transition(s, Fail(ValueError))
    else if s.unit.value == Days && !(0 <= fields[0].value <= 23) then
      Transition(s, Fail(SchedulerValueError(HourWrong)))
    else if fields[1].None? then
      Transition(s, Fail(ValueError))
    else if !(0 <= fields[1].value <= 59) then
      Transition(s, Fail(SchedulerValueError(MinuteWrong)))
    else
      var at: ClockTime := Clock(if s.unit.value == Days then fields[0].value else 0, fields[1].value);
      Transition(s.(atTime := Some(at)), Pass)
  }

  /** For an hourly job the hour field of "HH:MM" is never read: any text there will do. */
  lemma HoursAnchorIgnoresHourField(s: JobState, hour: Option<int>, minute: Option<int>)
    requires s.unit == Some(Hours)
    ensures Anchor(s, [hour, minute]) == Anchor(s, [None, minute])
  {
  }

  /**
    `_schedule_next_run`: only `period` and `next_run` change, `period` as
    soon as the unit is known, `next_run` to the rule's value or to whatever
    the rule wrote before it raised.
  */
  function Reschedule(s: JobState, now: Instant): (t: Transition)
    ensures t.state.(period := s.period, nextRun := s.nextRun) == s
    ensures t.state.period == if s.unit.Some? then Some(Period(s.interval, s.unit.value)) else s.period
    ensures var step := NextRun(now, s.lastRun, s.interval, s.unit, s.atTime);
      && (t.outcome.Pass? <==> step.Scheduled?)
      && (step.Scheduled? ==> t.state.nextRun == Some(step.next))
      && (step.Raised? ==> t.outcome == Fail(step.error)
                           && t.state.nextRun == if step.written.Some? then step.written else s.nextRun)
  {
    var s1 := if s.unit.Some? then s.(period := Some(Period(s.interval, s.unit.value))) else s;
    match NextRun(now, s.lastRun, s.interval, s.unit, s.atTime)
    case Scheduled(next) => Transition(s1.(nextRun := Some(next)), Pass)
    case Raised(e, written) =>
      Transition(if written.Some? then s1.(nextRun := written) else s1, Fail(e))
  }

  /** `do(job_func)`: store the action, then schedule the first run. */
  function Activate(s: JobState, f: Action, now: Instant): Transition
  {
    Reschedule(s.(action := Some(f)), now)
  }

  /**
    `run()`: call the action (TypeError when `do` never stored one), record
    the run at `now`, then reschedule.
  */
  function Ran(s: JobState, now: Instant): Transition
  {
    if s.action.None? then Transition(s, Fail(TypeError))
    else Reschedule(s.(lastRun := Some(now)), now)
  }

  /** A job whose `next_run` is set has an action and a unit. */
  ghost predicate Consistent(s: JobState)
  {
    s.nextRun.Some? ==> s.action.Some? && s.unit.Some? && s.period.Some?
  }

  /** Every operation keeps a consistent job consistent: a job can only become due after `do`. */
  lemma ConsistencyPreserved(s: JobState, u: Unit, f: Action, fields: seq<Option<int>>, now: Instant)
    requires Consistent(s)
    ensures Consistent(s.(unit := Some(u)))
    ensures Consistent(Anchor(s, fields).state)
    ensures Consistent(Activate(s, f, now).state)
    ensures Consistent(Ran(s, now).state)
  {
  }

  /**
    `do` on a job with a valid unit schedules its first run inside the first
    period; a job whose unit was never chosen raises and keeps no `next_run`.
  */
  lemma {:induction false} ActivateSchedulesFirstRun(s: JobState, f: Action, now: Instant)
    requires s.lastRun.None?
    ensures s.unit.None? ==>
      Activate(s, f, now) == Transition(s.(action := Some(f)), Fail(SchedulerValueError(UnsetUnit)))
    ensures s.unit.Some? && (s.atTime.Some? ==> Anchorable(s.unit.value)) ==>
      var t := Activate(s, f, now);
      var p := Period(s.interval, s.unit.value);
      && t.outcome == Pass && t.state.action == Some(f)
      && t.state.nextRun.Some? && now + p - Duration(s.unit.value) < t.state.nextRun.value <= now + p
  {
    if s.unit.Some? && (s.atTime.Some? ==> Anchorable(s.unit.value)) {
      FirstRunInFirstPeriod(now, s.interval, s.unit.value, s.atTime);
    }
  }

  /**
    An anchor set under hours or days and a unit changed afterwards: `do`
    raises, yet the job keeps its action and a `next_run` one period ahead,
    so it is due later like any other.
  */
  lemma AnchorOnWrongUnitStillSchedules(s: JobState, f: Action, now: Instant)
    requires s.unit.Some? && !Anchorable(s.unit.value) && s.atTime.Some?
    ensures var t := Activate(s, f, now);
      && t.outcome == Fail(SchedulerValueError(AnchorUnit))
      && t.state.action == Some(f)
      && t.state.nextRun == Some(now + Period(s.interval, s.unit.value))
  {
  }

  /**
    After a successful run the job records `now` as its last run and the
    first-run backdate no longer applies: the next run follows the
    rescheduling rule, exactly one period ahead when there is no anchor, and
    strictly after now when the interval is positive.
  */
  lemma {:induction false} RunReschedulesFromNow(s: JobState, now: Instant)
    requires Ran(s, now).outcome == Pass
    ensures var t := Ran(s, now);
      && s.unit.Some? && t.state.lastRun == Some(now)
      && t.state.nextRun == Some(NextRun(now, Some(now), s.interval, s.unit, s.atTime).next)
      && now + Period(s.interval, s.unit.value) - Duration(s.unit.value) < t.state.nextRun.value
      && t.state.nextRun.value < now + Period(s.interval, s.unit.value) + Duration(s.unit.value)
      && (s.atTime.None? ==> t.state.nextRun == Some(now + Period(s.interval, s.unit.value)))
      && (s.interval >= 1 ==> t.state.nextRun.value > now)
  {
    var s1 := s.(lastRun := Some(now));
    assert NextRun(now, s1.lastRun, s.interval, s.unit, s.atTime).Scheduled?;
    RescheduleNearPeriod(now, now, s.interval, s.unit.value, s.atTime);
    if s.interval >= 1 {
      NextRunIsAfterNow(now, Some(now), s.interval, s.unit.value, s.atTime);
    }
  }

  /**
    A due job (`next_run <= now`) with a positive interval that runs
    without raising moves its `next_run` strictly forward and records `now`
    as its last run.
  */
  lemma {:induction false} DueRunMovesForward(s: JobState, now: Instant)
    requires s.nextRun.Some? && s.nextRun.value <= now && s.interval >= 1
    requires Ran(s, now).outcome == Pass
    ensures Ran(s, now).state.lastRun == Some(now)
    ensures Ran(s, now).state.nextRun.Some? && Ran(s, now).state.nextRun.value > s.nextRun.value
  {
    RunReschedulesFromNow(s, now);
  }

  /**
    A `run` whose rescheduling raises still keeps the run: `last_run` is now,
    and the unit's period is recorded.
  */
  lemma FailedRescheduleKeepsRun(s: JobState, now: Instant)
    requires s.action.Some? && Ran(s, now).outcome.Fail?
    ensures Ran(s, now).state.lastRun == Some(now)
    ensures s.unit.Some? ==> Ran(s, now).state.period == Some(Period(s.interval, s.unit.value))
  {
  }

  /**
    Because `__lt__` is `<=`, two jobs with the same `next_run` each precede
    the other: sorting by it fixes no order among ties.
  */
  lemma PrecedesBothWaysOnTies(a: Job, b: Job)
    requires a.nextRun.Some? && a.nextRun == b.nextRun
    ensures a.Precedes(b) == Ok(true) && b.Precedes(a) == Ok(true)
  {
  }

  /** The mutable job. `State()` reads its fields as one value. */
  class Job {
    var interval: int
    var period: Option<int>
    var unit: Option<Unit>
    var jobFunc: Option<Action>
    var lastRun: Option<Instant>
    var nextRun: Option<Instant>
    var atTime: Option<ClockTime>

    function State(): JobState
      reads this
    {
      JobState(interval, period, unit, jobFunc, lastRun, nextRun, atTime)
    }

    constructor (interval: int)
      ensures State() == Created(interval)
    {
      this.interval := interval;
      period, unit, jobFunc := None, None, None;
      lastRun, nextRun, atTime := None, None, None;
    }

    /** The plural accessors `seconds`, `minutes`, `hours`, `days`, `weeks`. */
    method SelectUnit(u: Unit)
      modifies this`unit
      ensures State() == old(State()).(unit := Some(u))
    {
      unit := Some(u);
    }

    /**
      The singular accessors `second`, `minute`, `hour`, `day`, `week`: the
      plural accessor of the same unit, allowed only for an interval of 1.
    */
    method SelectSingularUnit(u: Unit) returns (o: Outcome<Error>)
      modifies this`unit
      ensures o.Fail? <==> interval != 1
      ensures o.Fail? ==> o == Fail(IntervalError(u)) && State() == old(State())
      ensures o.Pass? ==> State() == old(State()).(unit := Some(u))
    {
      if interval != 1 {
        return Fail(IntervalError(u));
      }
      SelectUnit(u);
      o := Pass;
    }

    /** `at(time_value)`; the anchor is written only after every check passed. */
    method At(fields: seq<Option<int>>) returns (o: Outcome<Error>)
      modifies this`atTime
      ensures Transition(State(), o) == Anchor(old(State()), fields)
    {
      if unit.None? || !Anchorable(unit.value) {
        return Fail(SchedulerValueError(AnchorUnit));
      }
      if |fields| != 2 {
        return Fail(ValueError);
      }
      var hour := 0;
      if unit.value == Days {
        if fields[0].None? {
          return Fail(ValueError);
        }
        hour := fields[0].value;
        if !(0 <= hour <= 23) {
          return Fail(SchedulerValueError(HourWrong));
        }
      }
      if fields[1].None? {
        return Fail(ValueError);
      }
      var minute := fields[1].value;
      if !(0 <= minute <= 59) {
        return Fail(SchedulerValueError(MinuteWrong));
      }
      atTime := Some(Clock(hour, minute));
      o := Pass;
    }

    /** `_schedule_next_run`. */
    method ScheduleNextRun(now: Instant) returns (o: Outcome<Error>)
      modifies this`period, this`nextRun
      ensures Transition(State(), o) == Reschedule(old(State()), now)
    {
      if unit.None? {
        return Fail(SchedulerValueError(UnsetUnit));
      }
      period := Some(Period(interval, unit.value));
      match NextRun(now, lastRun, interval, unit, atTime)
      case Scheduled(next) =>
        nextRun := Some(next);
        o := Pass;
      case Raised(e, written) =>
        if written.Some? {
          nextRun := written;
        }
        o := Fail(e);
    }

    /** `do(job_func)`. */
    method Do(f: Action, now: Instant) returns (o: Outcome<Error>)
      modifies this`jobFunc, this`period, this`nextRun
      ensures Transition(State(), o) == Activate(old(State()), f, now)
    {
      jobFunc := Some(f);
      o := ScheduleNextRun(now);
    }

    /** `run()`, with the action's own effect and return value left out. */
    method Run(now: Instant) returns (o: Outcome<Error>)
      modifies this`lastRun, this`period, this`nextRun
      ensures Transition(State(), o) == Ran(old(State()), now)
    {
      if jobFunc.None? {
        return Fail(TypeError);
      }
      lastRun := Some(now);
      o := ScheduleNextRun(now);
    }

    /** `should_run`: due when `next_run <= now`; TypeError before the first `do`. */
    function ShouldRun(now: Instant): (r: Result<bool, Error>)
      reads this
      ensures r.Err? <==> nextRun.None?
      ensures r.Err? ==> r.error == TypeError
      ensures r.Ok? ==> (r.value <==> nextRun.value <= now)
    {
      LessOrEqual(nextRun, Some(now))
    }

    /** `__lt__`, which compares with `<=`: a job "precedes" every job with an equal `next_run`. */
    function Precedes(other: Job): (r: Result<bool, Error>)
      reads this, other
      ensures r.Err? <==> nextRun.None? || other.nextRun.None?
      ensures r.Err? ==> r.error == TypeError
      ensures r.Ok? ==> (r.value <==> nextRun.value <= other.nextRun.value)
    {
      LessOrEqual(nextRun, other.nextRun)
    }
  }
}
