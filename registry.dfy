/**
  The job registry (`Scheduler`, main.py:22-49): an insertion-ordered list of
  jobs, the pure queries over their `next_run` values, and the two ways of
  running them.
*/
module Registry {
  import opened Wrappers
  import opened Instants
  import opened Recurrence
  import opened Jobs

  /**
    `min(jobs).next_run` continued from the current minimum `cur`: `min`
    replaces its current item by a later one when `later < current`, which
    with `__lt__` is `later.next_run <= current.next_run`.
  */
  function MinFrom(cur: Option<Instant>, rest: seq<Option<Instant>>): (r: Result<Option<Instant>, Error>)
    ensures r.Err? <==> rest != [] && (cur.None? || exists i :: 0 <= i < |rest| && rest[i].None?)
    ensures r.Err? ==> r.error == TypeError
    ensures r.Ok? ==> r.value == cur || r.value in rest
    ensures r.Ok? && rest != [] ==>
      && r.value.Some? && r.value.value <= cur.value
      && forall i :: 0 <= i < |rest| ==> r.value.value <= rest[i].value
    decreases |rest|
  {
    if rest == [] then Ok(cur)
    else
      match LessOrEqual(rest[0], cur)
      case Err(e) => Err(e)
      case Ok(later) => MinFrom(if later then rest[0] else cur, rest[1..])
  }

  /**
    `Scheduler.next_run` over the jobs' `next_run` values in list order:
    None for no jobs, otherwise the smallest value. With more than one job a
    job still waiting for `do` makes `min` raise TypeError; a lone such job
    is returned without any comparison, so its None comes back.
  */
  function EarliestNextRun(keys: seq<Option<Instant>>): (r: Result<Option<Instant>, Error>)
    ensures keys == [] ==> r == Ok(None)
    ensures |keys| == 1 ==> r == Ok(keys[0])
    ensures r.Err? <==> |keys| >= 2 && exists i :: 0 <= i < |keys| && keys[i].None?
    ensures r.Err? ==> r.error == TypeError
    ensures (forall i :: 0 <= i < |keys| ==> keys[i].Some?) ==> r.Ok? && (r.value.None? <==> keys == [])
    ensures r.Ok? && r.value.Some? ==>
      && r.value in keys
      && forall i :: 0 <= i < |keys| ==> keys[i].Some? && r.value.value <= keys[i].value
  {
    if keys == [] then Ok(None)
    else
      var r := MinFrom(keys[0], keys[1..]);
      assert keys == [keys[0]] + keys[1..];
      assert forall i :: 1 <= i < |keys| ==> keys[i] == keys[1..][i - 1];
      r
  }

  /**
    `Scheduler.idle_seconds`: the time from now to the earliest next run
    (a `timedelta`, here in microseconds). TypeError when there is no
    earliest next run to subtract from.
  */
  function Idle(keys: seq<Option<Instant>>, now: Instant): (r: Result<int, Error>)
    ensures keys == [] ==> r == Err(TypeError)
    ensures r.Err? <==> keys == [] || exists i :: 0 <= i < |keys| && keys[i].None?
    ensures r.Err? ==> r.error == TypeError
    ensures (forall i :: 0 <= i < |keys| ==> keys[i].Some?) && keys != [] ==> r.Ok?
    ensures r.Ok? ==>
      && Some(now + r.value) in keys
      && forall i :: 0 <= i < |keys| ==> keys[i].Some? && now + r.value <= keys[i].value
  {
    match EarliestNextRun(keys)
    case Err(e) => Err(e)
    case Ok(None) => Err(TypeError)
    case Ok(Some(t)) => Ok(t - now)
  }

  /** A due job with the `next_run` it was selected with. */
  type Entry = (Instant, Job)

  ghost predicate SortedByKey(s: seq<Entry>)
  {
    forall i, j :: 0 <= i < j < |s| ==> s[i].0 <= s[j].0
  }

  ghost predicate DistinctJobs(s: seq<Entry>)
  {
    forall i, j :: 0 <= i < j < |s| ==> s[i].1 != s[j].1
  }

  /** How many leading entries of `s` have a `next_run` earlier than `x`'s. */
  function InsertionPoint(x: Entry, s: seq<Entry>): (k: nat)
    requires SortedByKey(s)
    ensures k <= |s|
    ensures forall i :: 0 <= i < k ==> s[i].0 < x.0
    ensures forall i :: k <= i < |s| ==> x.0 <= s[i].0
  {
    if s == [] || x.0 <= s[0].0 then 0 else 1 + InsertionPoint(x, s[1..])
  }

  /** Reading `s` with `x` spliced in at position `k`. */
  lemma SpliceAt(s: seq<Entry>, k: nat, x: Entry, i: nat)
    requires k <= |s| && i <= |s|
    ensures (s[..k] + [x] + s[k..])[i] == if i < k then s[i] else if i == k then x else s[i - 1]
  {
  }

  lemma SpliceSorted(s: seq<Entry>, k: nat, x: Entry)
    requires SortedByKey(s) && k <= |s|
    requires forall i :: 0 <= i < k ==> s[i].0 < x.0
    requires forall i :: k <= i < |s| ==> x.0 <= s[i].0
    ensures SortedByKey(s[..k] + [x] + s[k..])
  {
    var r := s[..k] + [x] + s[k..];
    forall i, j | 0 <= i < j < |r| ensures r[i].0 <= r[j].0 {
      SpliceAt(s, k, x, i);
      SpliceAt(s, k, x, j);
    }
  }

  lemma SpliceDistinct(s: seq<Entry>, k: nat, x: Entry)
    requires k <= |s|
    ensures DistinctJobs(s) && (forall e :: e in s ==> e.1 != x.1) ==> DistinctJobs(s[..k] + [x] + s[k..])
  {
    var r := s[..k] + [x] + s[k..];
    if DistinctJobs(s) && (forall e :: e in s ==> e.1 != x.1) {
      forall i, j | 0 <= i < j < |r| ensures r[i].1 != r[j].1 {
        SpliceAt(s, k, x, i);
        SpliceAt(s, k, x, j);
      }
    }
  }

  /** A permutation has the same elements. */
  lemma SameElements(s: seq<Entry>, r: seq<Entry>)
    requires multiset(r) == multiset(s)
    ensures forall e :: e in r <==> e in s
  {
    forall e ensures e in r <==> e in s {
      assert e in r <==> e in multiset(r);
      assert e in s <==> e in multiset(s);
    }
  }

  /** Insert `x` into a sorted list before the first entry it does not follow. */
  function InsertByKey(x: Entry, s: seq<Entry>): (r: seq<Entry>)
    requires SortedByKey(s)
    ensures SortedByKey(r) && multiset(r) == multiset(s) + multiset{x}
    ensures x in r && (forall e | e in s :: e in r) && (forall e | e in r :: e == x || e in s)
    ensures DistinctJobs(s) && (forall e :: e in s ==> e.1 != x.1) ==> DistinctJobs(r)
  {
    var k := InsertionPoint(x, s);
    SpliceSorted(s, k, x);
    SpliceDistinct(s, k, x);
    assert s == s[..k] + s[k..];
    SameElements(s + [x], s[..k] + [x] + s[k..]);
    s[..k] + [x] + s[k..]
  }

  function JobsOf(s: seq<Entry>): (r: seq<Job>)
    ensures |r| == |s| && forall i :: 0 <= i < |s| ==> r[i] == s[i].1
  {
    if s == [] then [] else [s[0].1] + JobsOf(s[1..])
  }

  /**
    `for job in queue: job.run()`, stopping at the first exception; `ran`
    counts the jobs whose `run` was called.
  */
  method RunEach(queue: seq<Job>, now: Instant) returns (o: Outcome<Error>, ghost ran: nat)
    requires forall a, b :: 0 <= a < b < |queue| ==> queue[a] != queue[b]
    modifies queue
    ensures ran <= |queue|
    ensures forall a :: 0 <= a < |queue| ==>
              queue[a].State() == if a < ran then Ran(old(queue[a].State()), now).state else old(queue[a].State())
    ensures forall a :: 0 <= a < ran - 1 ==> Ran(old(queue[a].State()), now).outcome == Pass
    ensures o.Pass? ==> ran == |queue| && forall a :: 0 <= a < ran ==> Ran(old(queue[a].State()), now).outcome == Pass
    ensures o.Fail? ==> ran > 0 && o == Ran(old(queue[ran - 1].State()), now).outcome
  {
    o, ran := Pass, 0;
    var n := 0;
    while n < |queue|
      invariant n <= |queue| && ran == n && o.Pass?
      invariant forall a :: 0 <= a < |queue| ==>
                  queue[a].State() == if a < n then Ran(old(queue[a].State()), now).state else old(queue[a].State())
      invariant forall a :: 0 <= a < n ==> Ran(old(queue[a].State()), now).outcome == Pass
    {
      o := queue[n].Run(now);
      n := n + 1;
      ran := n;
      if o.Fail? {
        return;
      }
    }
  }

  /** The registry. Its list holds each job once: every job in it was created by `every`. */
  class Scheduler {
    var jobs: seq<Job>

    ghost predicate Valid()
      reads this
    {
      forall i, j :: 0 <= i < j < |jobs| ==> jobs[i] != jobs[j]
    }

    constructor ()
      ensures Valid() && jobs == []
    {
      jobs := [];
    }

    /** The `next_run` of every job, in list order. */
    function NextRuns(): (r: seq<Option<Instant>>)
      reads this, jobs
      ensures |r| == |jobs| && forall i :: 0 <= i < |jobs| ==> r[i] == jobs[i].nextRun
    {
      seq(|jobs|, i reads this, jobs requires 0 <= i < |jobs| => jobs[i].nextRun)
    }

    /** `every(interval)`: append one new job, unconfigured, and hand it back. */
    method Every(interval: int) returns (job: Job)
      requires Valid()
      modifies this
      ensures Valid() && fresh(job)
      ensures jobs == old(jobs) + [job] && job.State() == Created(interval)
    {
      job := new Job(interval);
      jobs := jobs + [job];
    }

    /** `next_run`: the earliest `next_run` of any job, None with no jobs. */
    function NextRun(): (r: Result<Option<Instant>, Error>)
      reads this, jobs
      ensures jobs == [] ==> r == Ok(None)
      ensures r.Err? <==> |jobs| >= 2 && exists i :: 0 <= i < |jobs| && jobs[i].nextRun.None?
      ensures r.Err? ==> r.error == TypeError
      ensures jobs != [] && (forall i :: 0 <= i < |jobs| ==> jobs[i].nextRun.Some?) ==> r.Ok? && r.value.Some?
      ensures r.Ok? && r.value.Some? ==>
        && (exists i :: 0 <= i < |jobs| && jobs[i].nextRun == r.value)
        && forall i :: 0 <= i < |jobs| ==> jobs[i].nextRun.Some? && r.value.value <= jobs[i].nextRun.value
    {
      var keys := NextRuns();
      assert forall i :: 0 <= i < |jobs| ==> keys[i] == jobs[i].nextRun;
      EarliestNextRun(keys)
    }

    /** `idle_seconds`, with the clock reading passed in: how long until the earliest next run. */
    function IdleSeconds(now: Instant): (r: Result<int, Error>)
      reads this, jobs
      ensures jobs == [] ==> r == Err(TypeError)
      ensures r.Err? <==> jobs == [] || exists i :: 0 <= i < |jobs| && jobs[i].nextRun.None?
      ensures r.Err? ==> r.error == TypeError
      ensures jobs != [] && (forall i :: 0 <= i < |jobs| ==> jobs[i].nextRun.Some?) ==> r.Ok?
      ensures r.Ok? ==>
        && (exists i :: 0 <= i < |jobs| && jobs[i].nextRun == Some(now + r.value))
        && forall i :: 0 <= i < |jobs| ==> jobs[i].nextRun.Some? && now + r.value <= jobs[i].nextRun.value
    {
      var keys := NextRuns();
      assert forall i :: 0 <= i < |jobs| ==> keys[i] == jobs[i].nextRun;
      Idle(keys, now)
    }

    /**
      `sorted(job for job in self.jobs if job.should_run)`: `should_run` of
      every job in list order, the due ones collected in non-decreasing order
      of `next_run`, each with the `next_run` it is due at; or the TypeError
      of the first job that has no `next_run` yet.
    */
    method CollectDue(now: Instant) returns (r: Result<seq<Entry>, Error>)
      requires Valid()
      ensures r.Err? <==> exists k :: 0 <= k < |jobs| && jobs[k].nextRun.None?
      ensures r.Err? ==> r.error == TypeError
      ensures r.Ok? ==> forall e :: e in r.value <==> e.1 in jobs && e.1.nextRun == Some(e.0) && e.0 <= now
      ensures r.Ok? ==> SortedByKey(r.value) && DistinctJobs(r.value)
    {
      var due: seq<Entry> := [];
      var i := 0;
      while i < |jobs|
        invariant 0 <= i <= |jobs|
        invariant forall k :: 0 <= k < i ==> jobs[k].nextRun.Some?
        invariant forall e :: e in due <==> e.1 in jobs[..i] && e.1.nextRun == Some(e.0) && e.0 <= now
        invariant SortedByKey(due) && DistinctJobs(due)
      {
        var d := jobs[i].ShouldRun(now);
        if d.Err? {
          return Err(d.error);
        }
        assert jobs[..i + 1] == jobs[..i] + [jobs[i]];
        if d.value {
          due := InsertByKey((jobs[i].nextRun.value, jobs[i]), due);
        }
        i := i + 1;
      }
      assert jobs[..i] == jobs;
      r := Ok(due);
    }

    /**
      The jobs `run_pending` runs, in the order it runs them: each due job
      once, in non-decreasing order of `next_run`.
    */
    method PendingQueue(now: Instant) returns (r: Result<seq<Job>, Error>)
      requires Valid()
      ensures r.Err? <==> exists k :: 0 <= k < |jobs| && jobs[k].nextRun.None?
      ensures r.Err? ==> r.error == TypeError
      ensures r.Ok? ==> forall a :: 0 <= a < |r.value| ==>
                r.value[a] in jobs && r.value[a].nextRun.Some? && r.value[a].nextRun.value <= now
      ensures r.Ok? ==> forall j :: j in jobs && j.nextRun.value <= now ==> j in r.value
      ensures r.Ok? ==> forall a, b :: 0 <= a < b < |r.value| ==> r.value[a] != r.value[b]
      ensures r.Ok? ==> forall a, b :: 0 <= a < b < |r.value| ==>
                r.value[a].nextRun.value <= r.value[b].nextRun.value
    {
      var due := CollectDue(now);
      if due.Err? {
        return Err(due.error);
      }
      var entries := due.value;
      var queue := JobsOf(entries);
      forall a | 0 <= a < |queue|
        ensures queue[a] in jobs && queue[a].nextRun == Some(entries[a].0) && entries[a].0 <= now
      {
        assert entries[a] in entries;
      }
      forall j | j in jobs && j.nextRun.value <= now ensures j in queue {
        var e := (j.nextRun.value, j);
        assert e in entries;
        var a :| 0 <= a < |entries| && entries[a] == e;
        assert queue[a] == j;
      }
      r := Ok(queue);
    }

    /**
      `run_pending`. Selecting the due jobs reads `next_run` of every job
      first, so a job never scheduled by `do` makes the call raise TypeError
      before anything runs. Otherwise exactly the due jobs (`next_run <= now`)
      are run, one after another in non-decreasing order of `next_run`, until
      one raises; `order` is that order, `ran` counts the jobs run, and every
      other job is left as it was.
    */
    method RunPending(now: Instant) returns (o: Outcome<Error>, ghost order: seq<Job>, ghost ran: nat)
      requires Valid()
      modifies jobs
      ensures jobs == old(jobs) && Valid()
      ensures forall a :: 0 <= a < |order| ==>
                order[a] in old(jobs) && old(order[a].nextRun).Some? && old(order[a].nextRun).value <= now
      ensures (exists k :: 0 <= k < |jobs| && old(jobs[k].nextRun).None?) ==>
                o == Fail(TypeError) && order == [] && ran == 0
      ensures (forall k :: 0 <= k < |jobs| ==> old(jobs[k].nextRun).Some?) ==>
                forall j :: j in jobs && old(j.nextRun).value <= now ==> j in order
      ensures forall a, b :: 0 <= a < b < |order| ==> order[a] != order[b]
      ensures forall a, b :: 0 <= a < b < |order| ==>
                old(order[a].nextRun).value <= old(order[b].nextRun).value
      ensures ran <= |order|
      ensures forall a :: 0 <= a < |order| ==>
                order[a].State() == if a < ran then Ran(old(order[a].State()), now).state else old(order[a].State())
      ensures forall j :: j in jobs && j !in order ==> j.State() == old(j.State())
      ensures forall a :: 0 <= a < ran - 1 ==> Ran(old(order[a].State()), now).outcome == Pass
      ensures o.Pass? ==> ran == |order|
                          && forall a :: 0 <= a < ran ==> Ran(old(order[a].State()), now).outcome == Pass
      ensures o.Fail? && ran > 0 ==> o == Ran(old(order[ran - 1].State()), now).outcome
      ensures (forall k :: 0 <= k < |jobs| ==> old(jobs[k].nextRun).Some?) && o.Fail? ==> ran > 0
    {
      var pending := PendingQueue(now);
      if pending.Err? {
        return Fail(pending.error), [], 0;
      }
      var queue := pending.value;
      o, ran := RunEach(queue, now);
      order := queue;
    }

    /**
      `run_all`, without the pause between jobs: every job is run once, in
      list order, whether due or not, until one raises; `ran` counts the jobs
      run.
    */
    method RunAll(now: Instant) returns (o: Outcome<Error>, ghost ran: nat)
      requires Valid()
      modifies jobs
      ensures jobs == old(jobs) && Valid()
      ensures ran <= |jobs|
      ensures forall a :: 0 <= a < |jobs| ==>
                jobs[a].State() == if a < ran then Ran(old(jobs[a].State()), now).state else old(jobs[a].State())
      ensures forall a :: 0 <= a < ran - 1 ==> Ran(old(jobs[a].State()), now).outcome == Pass
      ensures o.Pass? ==> ran == |jobs|
                          && forall a :: 0 <= a < ran ==> Ran(old(jobs[a].State()), now).outcome == Pass
      ensures o.Fail? ==> ran > 0 && o == Ran(old(jobs[ran - 1].State()), now).outcome
    {
      o, ran := RunEach(jobs, now);
    }
  }
}
