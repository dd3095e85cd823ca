# Periodic job scheduler — a Dafny model

This project models the in-process periodic scheduler of `main.py`.

- A `Scheduler` keeps an insertion-ordered list of `Job`s.
- A job is configured fluently:
  - `every(n)` creates it with an interval;
  - a unit accessor (`seconds` … `weeks`, or the singular forms that require `n == 1`) picks the unit;
  - `at("HH:MM")` optionally anchors an `hours` or `days` job to a clock time;
  - `do(f)` stores the action and schedules the first run.
- `_schedule_next_run` computes `next_run`:
  - without an anchor, `now + interval * unit`;
  - with an anchor, that instant pinned to the anchor's minute and, for days, as intended, its hour. As written, the days case raises TypeError instead; see Findings.
  - On the first scheduling only, the result is moved back one unit when the anchor is still ahead of the current clock.
- `run_pending` runs the due jobs in order of `next_run`. `run_all` runs every job in list order.
- `next_run` and `idle_seconds` report the earliest scheduled instant.

Modules:

- `Wrappers`: `Option`, `Result` and `Outcome` (pass, or fail with an error).
- `Instants`: instants as integer microseconds since a midnight, holding the naive `datetime` values the source uses. It also has the calendar-field functions and `datetime.replace`.
- `Recurrence`: units, periods, anchor clock times, the error kinds and the next-run rule. The rule is a pure function that returns either the new instant or the error raised, together with whatever it had already written to `next_run`.
- `Jobs`: each job operation appears twice. Once as a pure transition on a `JobState` value, which the lemmas reason about. Once as a method of the mutable `Job` class, whose `ensures` proves it performs that transition.
- `Registry`: the pure queries over the jobs' `next_run` values, the selection and ordering of due jobs, and the `Scheduler` class.

Every operation that reads the clock takes the instant `now` as a parameter. A single `now` stands for all clock readings made during one operation.

### Where the code does less than a reader might expect; the model follows the code

- **Due-job order.** A stable sort would run due jobs with equal `next_run` in insertion order. The code sorts with `__lt__`, which is `<=` (main.py:62-63), so among equal keys every job counts as "less" than every other.
  - `Jobs.PrecedesBothWaysOnTies` proves this.
  - The order among ties is therefore not insertion order. `Registry.Scheduler.RunPending` promises only non-decreasing `next_run`.
- **Partial state.** A call that raises is not free of effects. Three places in the code commit state before raising:
  - `_schedule_next_run` writes `next_run = now + period` (main.py:137) before it raises for an anchor on a wrong unit (main.py:141). `Jobs.AnchorOnWrongUnitStillSchedules` shows the job then stays due later.
  - `do` stores the action before scheduling (main.py:125-127).
  - `run` sets `last_run` (main.py:161) before `_schedule_next_run` (main.py:162) can raise, for an unset unit or an anchor on a wrong unit; the job keeps `last_run = now` and the `period` and `next_run` already written (`Jobs.FailedRescheduleKeepsRun`).
  - `at` itself writes nothing until every check has passed; `Jobs.Anchor` states this.
- **"At least one period".** A run does not always move `next_run` forward by a full period: that holds only without an anchor. With an anchor, the next run lies strictly within one unit of `now + period` (`Recurrence.RescheduleNearPeriod`), and can be earlier than `now + period`. What does hold for every due job with a positive interval is that `next_run` strictly increases (`Jobs.DueRunMovesForward`).
- **The first-run backdate.** The hourly backdate compares minutes only, which raises the question whether it can produce a `next_run` in the past. It cannot when the clock is read once, which is how this model reads it, and the interval is positive:
  - `Recurrence.NextRunIsAfterNow` proves every valid scheduling made from one reading `now` is strictly after `now`;
  - `Recurrence.HourlyFirstRun` shows the backdated run lands in the current hour, after `now`.

  The source reads the clock twice, at main.py:137 and main.py:153, and the results above do not cover readings that straddle an hour or a midnight. For example, take `every(1).hour.at("00:30").do(f)` with readings 10:59:59.999999 and 11:00:00:
  - line 150 pins the first reading plus one hour to 11:30;
  - line 156 sees minute 0 < 30 and backdates it to 10:30, which is before both readings.

  With the intended `hour` keyword (see Findings), a daily job read across midnight would yield yesterday's anchor time in the same way. As written, every anchored daily job raises TypeError at main.py:150, before the second reading.

## Model

| member | source | states |
|---|---|---|
| Instants.Replace | main.py:150 | `datetime.replace(hour, minute, second, microsecond)` keeps the date and sets exactly the given fields |
| Recurrence.Duration | main.py:135 | the length of one unit, always positive |
| Recurrence.NextRun | main.py:130-157 | raises iff the unit is unset (before writing `next_run`) or an anchor is set on a unit other than hours or days (after writing `now + period`); with no anchor the next run is exactly `now + period` |
| Recurrence.NextRunAsWritten | main.py:142-150 | the rule with the `hours` keyword of line 148: it agrees with the corrected rule everywhere except a days unit with an anchor |
| Recurrence.AsWrittenRejectsDaysAnchor | main.py:147-150 | as written, every anchored days job raises TypeError after `next_run` was set to `now + interval days`, while the corrected rule schedules it |
| Recurrence.DaysAnchorRule | main.py:139-155 | an anchored days job runs on now's date plus the interval, one day less on a first scheduling whose anchor is ahead of now's clock, at exactly the anchor hour and minute, second and microsecond 0 |
| Recurrence.HoursAnchorRule | main.py:139-157 | an anchored hours job runs `interval` hours after the start of now's hour, one hour less on a first scheduling whose anchor minute is ahead of now's minute, at exactly the anchor minute, second and microsecond 0 |
| Recurrence.FirstRunInFirstPeriod | main.py:137-157 | every valid first scheduling lies in `(now + period - unit, now + period]` |
| Recurrence.RescheduleNearPeriod | main.py:137-150 | every valid scheduling after a run lies strictly within one unit of `now + period` |
| Recurrence.NextRunIsAfterNow | main.py:130-157 | with a positive interval, every valid scheduling is strictly after now, the one clock reading it is made from |
| Recurrence.DailyFirstRun | main.py:147-155 | "every day at HH:MM" first runs at that clock time: today when it is still ahead of now, otherwise tomorrow |
| Recurrence.HourlyFirstRun | main.py:152-157 | "every hour at :MM" with MM still ahead first runs in the current hour, at minute MM, after now (one clock reading) |
| Jobs.LessOrEqual | main.py:62-63 | `<=` on two `next_run` values: TypeError iff one is None, otherwise the comparison of instants |
| Jobs.Anchor | main.py:165-185 | `at` succeeds iff the unit is hours or days, the text has two fields, the hour (days only) parses and is in 0..23, and the minute parses and is in 0..59; on success only the anchor changes (hour 0 for hours), on failure nothing. The errors come in the source's order: a wrong unit SchedulerValueError, then ValueError for a text that does not split in two, then for days an hour that does not parse (ValueError) or is out of range (HourWrong), then a minute that does not parse (ValueError) or is out of range (MinuteWrong) |
| Jobs.HoursAnchorIgnoresHourField | main.py:174-175 | for an hours job the hour field of the text never matters |
| Jobs.Reschedule | main.py:130-157 | scheduling changes only `period` and `next_run`; `period` is set once the unit is known; `next_run` gets the rule's value, or what the rule wrote before raising |
| Jobs.ConsistencyPreserved | main.py:124-185 | choosing a unit, `at`, `do` and `run` all keep the invariant that a job with a `next_run` has an action, a unit and a period |
| Jobs.FailedRescheduleKeepsRun | main.py:159-163 | a `run` whose rescheduling raises still records `last_run = now` and the unit's period |
| Jobs.ActivateSchedulesFirstRun | main.py:124-128 | `do` without a unit raises and sets no `next_run`; with a valid unit it succeeds and schedules inside the first period |
| Jobs.AnchorOnWrongUnitStillSchedules | main.py:137-141 | an anchor combined with a non-anchorable unit makes `do` raise, yet leaves the action stored and `next_run` one period ahead |
| Jobs.RunReschedulesFromNow | main.py:159-163 | a successful run records `now` as last run and reschedules with no backdate: within one unit of `now + period`, exactly `now + period` without an anchor, after now for a positive interval |
| Jobs.DueRunMovesForward | main.py:31-34 | a due job with a positive interval that runs moves its `next_run` strictly forward and records the run instant |
| Jobs.PrecedesBothWaysOnTies | main.py:62-63 | two jobs with equal `next_run` each compare as less than the other |
| Jobs.Job.constructor | main.py:53-60 | a new job has its interval and every other field None |
| Jobs.Job.SelectUnit | main.py:71-118 | a plural accessor sets the unit and nothing else |
| Jobs.Job.SelectSingularUnit | main.py:65-118 | a singular accessor raises IntervalError iff the interval is not 1, and then changes nothing; otherwise it acts as the plural one |
| Jobs.Job.At | main.py:165-185 | performs exactly the `Anchor` transition |
| Jobs.Job.ScheduleNextRun | main.py:130-157 | performs exactly the `Reschedule` transition |
| Jobs.Job.Do | main.py:124-128 | stores the action, then performs the rescheduling (the `Activate` transition) |
| Jobs.Job.Run | main.py:159-163 | raises TypeError without an action; otherwise records the run and performs the rescheduling (the `Ran` transition) |
| Jobs.Job.ShouldRun | main.py:120-122 | due iff `next_run <= now`; TypeError iff `next_run` is None |
| Jobs.Job.Precedes | main.py:62-63 | `__lt__`: TypeError iff either `next_run` is None, otherwise `next_run <= other.next_run` |
| Registry.MinFrom | main.py:45 | `min` from a current item over the rest: TypeError iff a comparison meets a None; otherwise a member of the input no later than any of them |
| Registry.EarliestNextRun | main.py:41-45 | None for no jobs; a lone job's value without comparison; TypeError iff two or more jobs and one is unscheduled; otherwise the least `next_run` of all jobs |
| Registry.Idle | main.py:47-49 | TypeError iff there are no jobs or some job is unscheduled; otherwise the time from now to the earliest `next_run`, which is one of them and no later than any |
| Registry.InsertByKey | main.py:33 | inserting an entry into a list sorted by `next_run` keeps it sorted, adds exactly that entry, and keeps the jobs distinct |
| Registry.RunEach | main.py:33-34 | runs the jobs of a queue front to back, each performing the `Ran` transition, stopping right after the first one that raises; the others are untouched |
| Registry.Scheduler.constructor | main.py:23-24 | a new scheduler has no jobs |
| Registry.Scheduler.Every | main.py:26-29 | appends one fresh, unconfigured job and returns it |
| Registry.Scheduler.NextRun | main.py:41-45 | None for no jobs; TypeError iff two or more jobs and one is unscheduled; with at least one job and all scheduled, a value, which is the `next_run` of some job and no later than any job's |
| Registry.Scheduler.IdleSeconds | main.py:47-49 | TypeError iff there are no jobs or some job is unscheduled; otherwise the delay from now to the earliest `next_run` of some job |
| Registry.Scheduler.CollectDue | main.py:32-33 | TypeError iff some job is unscheduled; otherwise exactly the jobs with `next_run <= now`, each once with its `next_run`, sorted by it |
| Registry.Scheduler.PendingQueue | main.py:32-33 | the queue of due jobs: TypeError iff some job is unscheduled, otherwise each due job exactly once, in non-decreasing order of `next_run` |
| Registry.Scheduler.RunPending | main.py:31-34 | TypeError before any run if a job is unscheduled; otherwise runs exactly the due jobs once each, in non-decreasing order of `next_run`, each performing `Ran`, stopping after the first that raises, so with every job scheduled a failure always comes from a job that ran; every other job is unchanged |
| Registry.Scheduler.RunAll | main.py:36-39 | runs every job in list order, each performing `Ran`, stopping after the first that raises |

## Findings

| source | as written | input that shows it | evidently intended | confidence | as-written member | corrected member |
|---|---|---|---|---|---|---|
| main.py:147-150 | the anchor hour of a days job goes to `replace` under the keyword `hours`, which `datetime.replace` does not accept, so the call raises TypeError after `next_run` was set to `now + period` | `every(1).day.at("09:00").do(f)` | the keyword `hour`, so the job runs daily at 09:00 | high (not executed) | Recurrence.NextRunAsWritten, Recurrence.AsWrittenRejectsDaysAnchor | Recurrence.NextRun, Recurrence.DaysAnchorRule |

## Left out

- The pause `sleep(delay_second)` between jobs in `run_all`: it has no effect on job state, so it is left out along with its parameter.
- The system clock: each operation takes `now` as a parameter. Both readings of the clock in `_schedule_next_run` (main.py:137 and 153) and the one in `run` (main.py:161) are collapsed into that one `now`. The clock advancing while jobs run is not modelled.
- Recurrence.NextRunIsAfterNow, Recurrence.HourlyFirstRun: hold for one clock reading only. When the two readings of main.py:137 and 153 fall on either side of an hour (hourly anchor) or, with the intended `hour` keyword (see Findings), a midnight (daily anchor), the source can schedule a first run before both readings; the model does not capture this.
- The action itself: what `partial` and `update_wrapper` do, the action's effects, its return value, and exceptions it raises (these would propagate before `last_run` is set). An action is modelled only by its identity.
- Parsing the text of `at`: `split(':')` and `int()` are replaced by a sequence of already parsed fields (None where `int()` raises ValueError).
- Error messages (`base_errors`) and the exception class hierarchy: only the error kind is kept.
- The module-level `default_scheduler` and its wrapper functions (main.py:188-208): one-line delegations to a `Scheduler` object.
- `OverflowError` from `timedelta` or `datetime` arithmetic beyond the `datetime` range: instants are unbounded integers. Non-integer intervals are not modelled either.
- The default argument `interval = 1` of `every` (main.py:26): `Scheduler.Every` always takes the interval explicitly.
- `idle_seconds` returns a `timedelta`; the model returns the same duration in microseconds.
- Registry.Scheduler.RunPending: states the order among jobs with equal `next_run` only as non-decreasing, because the source's sort with `<=` fixes no particular order among ties.
- Registry.Scheduler.RunPending: does not restate that each job run moves forward; that follows from its per-job `Ran` clause together with Jobs.DueRunMovesForward.
