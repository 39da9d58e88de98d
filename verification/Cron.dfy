/** Scheduled jobs: deduplicated adding, claims that expire, and completion that reschedules. Every
    operation is one transaction on the stored list. Times are exact reals. */
module Cron {

  import opened Ordering
  import opened Wrappers

  /** The number of a job's random hexadecimal id; ids of equal length compare like their numbers. */
  type JobId = nat

  datatype RawSchedule = At(at: real) | Every(seconds: real)

  type Schedule = s: RawSchedule | (if s.At? then s.at > 0.0 else s.seconds > 0.0) witness At(1.0)

  /** What is to run and where; two jobs are duplicates when it is the same. */
  datatype Work = Work(schedule: Schedule, prompt: string, channel: string, chat: string)

  datatype Job = Job(
    id: JobId, name: string, work: Work, enabled: bool, nextRun: real,
    owner: string, expires: real, runs: nat, outcome: string)

  datatype Error = EmptyOwner | BadLimit | UnknownJob | NotTheOwner

  // ---------------------------------------------------------------------------
  // Rescheduling
  // ---------------------------------------------------------------------------

  /** The time is a whole number of intervals, at least one, after the old one, and after now; with
      one interval less it would not be. */
  predicate IsLeastShift(next: real, interval: real, now: real, shifted: real, k: nat)
  {
    k >= 1 && shifted == next + k as real * interval && shifted > now
    && (k == 1 || next + (k - 1) as real * interval <= now)
  }

  lemma Product(x: real, y: real)
    requires x >= 0.0 && y >= 0.0
    ensures x * y >= 0.0
  {
  }

  lemma Distributes(x: real, y: real, z: real)
    ensures (x + y) * z == x * z + y * z
  {
  }

  lemma Scaled(k: int, j: int, interval: real)
    requires interval > 0.0
    ensures k <= j ==> k as real * interval <= j as real * interval
  {
    if k <= j {
      var d := (j - k) as real;
      Product(d, interval);
      Distributes(k as real, d, interval);
      assert j as real == k as real + d;
    }
  }

  lemma NotLater(next: real, interval: real, now: real, a: real, k: nat, b: real, j: nat)
    requires interval > 0.0 && IsLeastShift(next, interval, now, a, k) && IsLeastShift(next, interval, now, b, j)
    ensures j <= k
  {
    var x, y := k as real * interval, (j - 1) as real * interval;
    Scaled(k, j - 1, interval);
    assert k <= j - 1 ==> x <= y;
    assert next + x > now;
    assert j == 1 || next + y <= now;
  }

  lemma LeastShiftIsUnique(next: real, interval: real, now: real, a: real, k: nat, b: real, j: nat)
    requires interval > 0.0 && IsLeastShift(next, interval, now, a, k) && IsLeastShift(next, interval, now, b, j)
    ensures a == b && k == j
  {
    NotLater(next, interval, now, a, k, b, j);
    NotLater(next, interval, now, b, j, a, k);
  }

  /** How many whole intervals fit between two times. */
  ghost function Distance(next: real, interval: real, now: real): int
    requires interval > 0.0
  {
    ((now - next) / interval).Floor
  }

  lemma Quotient(a: real, interval: real, x: real)
    requires interval > 0.0
    ensures a / interval == x <==> x * interval == a
    ensures a >= 0.0 ==> a / interval >= 0.0
  {
    assert (a / interval) * interval == a;
  }

  lemma DistanceShrinks(next: real, interval: real, now: real)
    requires interval > 0.0 && next <= now
    ensures 0 <= Distance(next, interval, now)
    ensures Distance(next + interval, interval, now) == Distance(next, interval, now) - 1
  {
    var x := (now - next) / interval;
    Quotient(now - next, interval, x);
    assert (x - 1.0) * interval == x * interval - interval;
    Quotient(now - (next + interval), interval, x - 1.0);
  }

  method Reschedule(next: real, interval: real, now: real) returns (shifted: real, ghost k: nat)
    requires interval > 0.0
    ensures IsLeastShift(next, interval, now, shifted, k)
    ensures exists j :: IsLeastShift(next, interval, now, shifted, j)
  {
    shifted, k := next + interval, 1;
    while shifted <= now
      invariant k >= 1 && shifted == next + k as real * interval
      invariant k == 1 || next + (k - 1) as real * interval <= now
      decreases if shifted <= now then Distance(shifted, interval, now) + 1 else 0
    {
      DistanceShrinks(shifted, interval, now);
      shifted, k := shifted + interval, k + 1;
    }
  }

  // The same loop over times that are rounded to ticks, as floating point keeps them.

  function Nearest(x: real): int { (x + 0.5).Floor }

  /** The time, in ticks, after `n` rounded additions of an interval of that many ticks. */
  function After(next: int, interval: real, n: nat): int
  {
    if n == 0 then next else Nearest(After(next, interval, n - 1) as real + interval)
  }

  lemma {:induction false} AfterIsLinear(next: int, interval: real, n: nat)
    ensures After(next, interval, n) == next + n * Nearest(interval)
  {
    if n > 0 {
      AfterIsLinear(next, interval, n - 1);
      var last := After(next, interval, n - 1);
      assert (last as real + interval + 0.5).Floor == last + (interval + 0.5).Floor;
    }
  }

  /** With rounding, the loop gets past `now` exactly if its first addition does or the interval
      rounds to at least one tick. */
  lemma RoundedLoopEndsIff(next: int, interval: real, now: int)
    requires interval > 0.0
    ensures (exists n: nat :: n >= 1 && After(next, interval, n) > now)
            <==> After(next, interval, 1) > now || Nearest(interval) >= 1
  {
    if Nearest(interval) >= 1 {
      var n: nat := if now < next then 1 else now - next + 1;
      AfterIsLinear(next, interval, n);
      assert n * Nearest(interval) >= n;
    } else {
      AfterIsLinear(next, interval, 1);
      forall n: nat | n >= 1
        ensures After(next, interval, n) == After(next, interval, 1)
      {
        AfterIsLinear(next, interval, n);
      }
    }
  }

  // ---------------------------------------------------------------------------
  // One transaction on the list of jobs
  // ---------------------------------------------------------------------------

  predicate Before(a: Job, b: Job)
  {
    a.nextRun < b.nextRun || (a.nextRun == b.nextRun && a.id <= b.id)
  }

  /** The job is due and nobody holds an unexpired claim on it. */
  predicate Claimable(job: Job, now: real)
  {
    job.enabled && job.nextRun <= now && !(job.owner != "" && job.expires > now)
  }

  function Granted(job: Job, owner: string, expires: real): Job
  {
    job.(owner := owner, expires := expires)
  }

  predicate Positions(order: seq<nat>, n: nat)
  {
    forall a :: 0 <= a < |order| ==> order[a] < n
  }

  predicate InOrder(jobs: seq<Job>, order: seq<nat>)
    requires Positions(order, |jobs|)
  {
    forall a, b :: 0 <= a < b < |order| ==> Before(jobs[order[a]], jobs[order[b]])
  }

  /** The positions claimed: the first `limit` claimable jobs, the earliest due first. */
  ghost predicate IsClaim(jobs: seq<Job>, now: real, limit: nat, granted: seq<nat>)
  {
    && Positions(granted, |jobs|) && (forall a :: 0 <= a < |granted| ==> Claimable(jobs[granted[a]], now))
    && Distinct(granted) && InOrder(jobs, granted) && |granted| <= limit
    && (forall k :: 0 <= k < |jobs| && Claimable(jobs[k], now) && k !in granted ==>
          |granted| == limit && forall a :: 0 <= a < |granted| ==> Before(jobs[granted[a]], jobs[k]))
  }

  function AfterClaim(jobs: seq<Job>, owner: string, expires: real, granted: seq<nat>): (r: seq<Job>)
    ensures |r| == |jobs|
    ensures forall k :: 0 <= k < |jobs| ==> r[k] == if k in granted then Granted(jobs[k], owner, expires) else jobs[k]
  {
    seq(|jobs|, k requires 0 <= k < |jobs| => if k in granted then Granted(jobs[k], owner, expires) else jobs[k])
  }

  /** The job after its run: an "at" job is over, an "every" job is due again at the time given. */
  function Finished(job: Job, outcome: string, next: real): Job
  {
    var done := job.(runs := job.runs + 1, outcome := outcome, owner := "", expires := 0.0);
    if job.work.schedule.At? then done.(enabled := false) else done.(nextRun := next)
  }

  ghost predicate IsFinished(job: Job, outcome: string, now: real, done: Job)
  {
    if job.work.schedule.At? then done == Finished(job, outcome, job.nextRun)
    else exists next, k ::
      IsLeastShift(job.nextRun, job.work.schedule.seconds, now, next, k) && done == Finished(job, outcome, next)
  }

  ghost predicate WellKept(jobs: seq<Job>)
  {
    && (forall i, j :: 0 <= i < j < |jobs| ==> jobs[i].id != jobs[j].id)
    && (forall i, j :: 0 <= i < j < |jobs| && jobs[i].enabled && jobs[j].enabled ==> jobs[i].work != jobs[j].work)
  }

  predicate Scheduled(job: Job, work: Work) { job.enabled && job.work == work }

  function FirstRun(schedule: Schedule, now: real): real
  {
    if schedule.At? then schedule.at else now + schedule.seconds
  }

  function NewJob(id: JobId, name: string, work: Work, now: real): Job
  {
    Job(id, name, work, true, FirstRun(work.schedule, now), "", 0.0, 0, "")
  }

  class CronService {
    const ttl: real
    var jobs: seq<Job>

    ghost predicate Valid()
      reads this
    {
      ttl > 0.0 && WellKept(jobs)
    }

    constructor (ttl: real, jobs: seq<Job>)
      requires ttl > 0.0 && WellKept(jobs)
      ensures Valid() && this.ttl == ttl && this.jobs == jobs
    {
      this.ttl, this.jobs := ttl, jobs;
    }

    /** An enabled job for the same work is returned; otherwise the job is appended. */
    method Add(id: JobId, name: string, work: Work, now: real) returns (job: Job, duplicate: bool)
      requires Valid()
      requires forall k :: 0 <= k < |jobs| ==> jobs[k].id != id
      modifies this`jobs
      ensures Valid()
      ensures duplicate <==> exists k :: 0 <= k < |old(jobs)| && Scheduled(old(jobs)[k], work)
      ensures duplicate ==> jobs == old(jobs) && job in jobs && Scheduled(job, work)
      ensures !duplicate ==> job == NewJob(id, name, work, now) && jobs == old(jobs) + [job]
      ensures !duplicate ==> job.id == id && job.name == name && Scheduled(job, work) && job.owner == "" && job.runs == 0
      ensures !duplicate ==>
                job.nextRun == match work.schedule case At(at) => at case Every(seconds) => now + seconds
    {
      var k := 0;
      while k < |jobs|
        invariant 0 <= k <= |jobs|
        invariant forall j :: 0 <= j < k ==> !Scheduled(jobs[j], work)
      {
        if jobs[k].enabled && jobs[k].work == work { return jobs[k], true; }
        k := k + 1;
      }
      job, duplicate := NewJob(id, name, work, now), false;
      jobs := jobs + [job];
    }

    method ClaimDue(owner: string, limit: int, now: real)
      returns (claimed: Result<seq<Job>, Error>, ghost granted: seq<nat>)
      requires Valid()
      modifies this`jobs
      ensures Valid()
      ensures owner == "" ==> claimed == Err(EmptyOwner)
      ensures owner != "" && limit < 1 ==> claimed == Err(BadLimit)
      ensures claimed.Err? <==> owner == "" || limit < 1
      ensures claimed.Err? ==> jobs == old(jobs)
      ensures claimed.Ok? ==> IsClaim(old(jobs), now, limit, granted)
      ensures claimed.Ok? ==> jobs == AfterClaim(old(jobs), owner, now + ttl, granted)
      ensures claimed.Ok? ==> claimed.value == Taken(old(jobs), owner, now + ttl, granted)
    {
      hide IsClaim, AfterClaim, Taken, WellKept;
      granted := [];
      if owner == "" { return Err(EmptyOwner), granted; }
      if limit < 1 { return Err(BadLimit), granted; }
      var after, taken;
      after, taken, granted := GrantDue(jobs, owner, limit, now, now + ttl);
      jobs := after;
      claimed := Ok(taken);
    }

    method Complete(id: JobId, owner: string, outcome: string, now: real) returns (done: Result<Job, Error>)
      requires Valid()
      modifies this`jobs
      ensures Valid()
      ensures (forall k :: 0 <= k < |old(jobs)| ==> old(jobs)[k].id != id) ==> done == Err(UnknownJob)
      ensures done.Err? ==> jobs == old(jobs)
      ensures forall k :: 0 <= k < |old(jobs)| && old(jobs)[k].id == id ==>
                if old(jobs)[k].owner != owner then done == Err(NotTheOwner)
                else done.Ok? && jobs == old(jobs)[k := done.value] && IsFinished(old(jobs)[k], outcome, now, done.value)
    {
      var k := 0;
      while k < |jobs| && jobs[k].id != id
        invariant 0 <= k <= |jobs|
        invariant forall j :: 0 <= j < k ==> jobs[j].id != id
      {
        k := k + 1;
      }
      if k == |jobs| { return Err(UnknownJob); }
      var job := jobs[k];
      if job.owner != owner { return Err(NotTheOwner); }
      var next := job.nextRun;
      ghost var shifts := 0;
      if job.work.schedule.Every? {
        next, shifts := Reschedule(job.nextRun, job.work.schedule.seconds, now);
      }
      jobs := jobs[k := Finished(job, outcome, next)];
      done := Ok(jobs[k]);
    }
  }

  /** The positions of all jobs, the earliest due first. */
  method DueOrder(jobs: seq<Job>) returns (order: seq<nat>)
    ensures Positions(order, |jobs|) && Distinct(order) && InOrder(jobs, order)
    ensures forall k :: 0 <= k < |jobs| ==> k in order
  {
    var all: seq<nat> := seq(|jobs|, k => k);
    order := Sort(all, (a: nat, b: nat) => a < |jobs| && b < |jobs| && Before(jobs[a], jobs[b]));
    forall a | 0 <= a < |order| ensures order[a] < |jobs| { assert order[a] in all; }
    forall k | 0 <= k < |jobs| ensures k in order { assert all[k] == k; }
  }

  /** The jobs as they were handed out. */
  ghost function Taken(jobs: seq<Job>, owner: string, expires: real, granted: seq<nat>): (r: seq<Job>)
    requires Positions(granted, |jobs|)
  {
    seq(|granted|, a requires 0 <= a < |granted| => Granted(jobs[granted[a]], owner, expires))
  }

  method Grant(jobs: seq<Job>, order: seq<nat>, owner: string, limit: nat, now: real, expires: real)
    returns (after: seq<Job>, taken: seq<Job>, ghost granted: seq<nat>)
    requires Positions(order, |jobs|) && Distinct(order) && InOrder(jobs, order)
    requires forall k :: 0 <= k < |jobs| ==> k in order
    ensures IsClaim(jobs, now, limit, granted)
    ensures after == AfterClaim(jobs, owner, expires, granted) && taken == Taken(jobs, owner, expires, granted)
  {
    after, taken, granted := jobs, [], [];
    var i := 0;
    while i < |order| && |taken| < limit
      invariant 0 <= i <= |order| && |taken| == |granted| <= limit
      invariant GrantsInOrder(jobs, now, order, i, granted)
      invariant after == AfterClaim(jobs, owner, expires, granted) && taken == Taken(jobs, owner, expires, granted)
    {
      var k := order[i];
      NotYetGranted(jobs, now, order, i, granted);
      AfterOneMore(jobs, owner, expires, granted, k);
      GrantNext(jobs, now, order, i, granted, if Claimable(jobs[k], now) then granted + [k] else granted);
      if Claimable(after[k], now) {
        after := after[k := Granted(after[k], owner, expires)];
        taken := taken + [after[k]];
        granted := granted + [k];
      }
      i := i + 1;
    }
    GrantsAreClaim(jobs, now, order, i, limit, granted);
  }

  method GrantDue(jobs: seq<Job>, owner: string, limit: nat, now: real, expires: real)
    returns (after: seq<Job>, taken: seq<Job>, ghost granted: seq<nat>)
    requires WellKept(jobs)
    ensures IsClaim(jobs, now, limit, granted) && WellKept(after)
    ensures after == AfterClaim(jobs, owner, expires, granted) && taken == Taken(jobs, owner, expires, granted)
  {
    var order := DueOrder(jobs);
    after, taken, granted := Grant(jobs, order, owner, limit, now, expires);
    ClaimKeepsList(jobs, owner, expires, granted);
  }

  /** The claimable jobs among the first `i` in order have been granted, in that order. */
  ghost predicate GrantsInOrder(jobs: seq<Job>, now: real, order: seq<nat>, i: nat, granted: seq<nat>)
    requires i <= |order| && Positions(order, |jobs|)
  {
    && Positions(granted, |jobs|) && Distinct(granted) && InOrder(jobs, granted)
    && (forall a :: 0 <= a < |granted| ==> Claimable(jobs[granted[a]], now) && granted[a] in order[..i])
    && (forall b :: 0 <= b < i && Claimable(jobs[order[b]], now) ==> order[b] in granted)
  }

  lemma GrantsAreClaim(jobs: seq<Job>, now: real, order: seq<nat>, i: nat, limit: nat, granted: seq<nat>)
    requires i <= |order| && Positions(order, |jobs|) && Distinct(order) && InOrder(jobs, order)
    requires forall k :: 0 <= k < |jobs| ==> k in order
    requires GrantsInOrder(jobs, now, order, i, granted)
    requires |granted| <= limit && (i == |order| || |granted| == limit)
    ensures IsClaim(jobs, now, limit, granted)
  {
    forall k | 0 <= k < |jobs| && Claimable(jobs[k], now) && k !in granted
      ensures |granted| == limit && forall a :: 0 <= a < |granted| ==> Before(jobs[granted[a]], jobs[k])
    {
      assert k in order;
      var b :| 0 <= b < |order| && order[b] == k;
      assert b >= i;
      forall a | 0 <= a < |granted| ensures Before(jobs[granted[a]], jobs[k]) {
        var c :| 0 <= c < i && order[c] == granted[a];
      }
    }
  }

  lemma NotYetGranted(jobs: seq<Job>, now: real, order: seq<nat>, i: nat, granted: seq<nat>)
    requires i < |order| && Positions(order, |jobs|) && Distinct(order) && InOrder(jobs, order)
    requires GrantsInOrder(jobs, now, order, i, granted)
    ensures order[i] !in granted
    ensures forall a :: 0 <= a < |granted| ==> Before(jobs[granted[a]], jobs[order[i]])
  {
    forall a | 0 <= a < |granted|
      ensures granted[a] != order[i] && Before(jobs[granted[a]], jobs[order[i]])
    {
      var c :| 0 <= c < i && order[c] == granted[a];
    }
  }

  lemma GrantNext(jobs: seq<Job>, now: real, order: seq<nat>, i: nat, granted: seq<nat>, more: seq<nat>)
    requires i < |order| && Positions(order, |jobs|) && Distinct(order) && InOrder(jobs, order)
    requires GrantsInOrder(jobs, now, order, i, granted)
    requires more == if Claimable(jobs[order[i]], now) then granted + [order[i]] else granted
    ensures GrantsInOrder(jobs, now, order, i + 1, more)
  {
    NotYetGranted(jobs, now, order, i, granted);
    assert order[..i + 1] == order[..i] + [order[i]];
    forall b | 0 <= b < i + 1 && Claimable(jobs[order[b]], now) ensures order[b] in more {
      if b < i { assert order[b] in granted; } else { assert more[|granted|] == order[i]; }
    }
    forall a | 0 <= a < |more| ensures Claimable(jobs[more[a]], now) && more[a] in order[..i + 1] {
      if a < |granted| { assert granted[a] in order[..i]; }
    }
  }

  lemma AfterOneMore(jobs: seq<Job>, owner: string, expires: real, granted: seq<nat>, k: nat)
    requires k < |jobs| && k !in granted && Positions(granted, |jobs|)
    ensures Taken(jobs, owner, expires, granted + [k])
            == Taken(jobs, owner, expires, granted) + [Granted(jobs[k], owner, expires)]
    ensures AfterClaim(jobs, owner, expires, granted)[k] == jobs[k]
    ensures AfterClaim(jobs, owner, expires, granted + [k])
            == AfterClaim(jobs, owner, expires, granted)[k := Granted(jobs[k], owner, expires)]
  {
    var r := AfterClaim(jobs, owner, expires, granted + [k]);
    forall j | 0 <= j < |jobs|
      ensures r[j] == AfterClaim(jobs, owner, expires, granted)[k := Granted(jobs[k], owner, expires)][j]
    {
      assert j in granted + [k] <==> j in granted || j == k;
    }
  }

  lemma ClaimKeepsList(jobs: seq<Job>, owner: string, expires: real, granted: seq<nat>)
    requires WellKept(jobs)
    ensures WellKept(AfterClaim(jobs, owner, expires, granted))
  {
  }

  // ---------------------------------------------------------------------------
  // What a claim and a completion come to, field by field
  // ---------------------------------------------------------------------------

  /** Earlier due, or due at the same time with the smaller id. */
  predicate Earlier(time: real, id: JobId, otherTime: real, otherId: JobId)
  {
    time < otherTime || (time == otherTime && id < otherId)
  }

  /** Enabled, due, and unclaimed or claimed up to a time that has come. */
  predicate IsFree(job: Job, now: real)
  {
    job.enabled && !(job.nextRun > now) && (job.owner == "" || !(job.expires > now))
  }

  lemma ClaimMeans(jobs: seq<Job>, now: real, limit: nat, owner: string, expires: real, granted: seq<nat>)
    requires WellKept(jobs) && IsClaim(jobs, now, limit, granted)
    ensures |granted| <= limit && forall a :: 0 <= a < |granted| ==> granted[a] < |jobs| && IsFree(jobs[granted[a]], now)
    ensures forall a, b :: 0 <= a < b < |granted| ==>
              var x, y := jobs[granted[a]], jobs[granted[b]]; Earlier(x.nextRun, x.id, y.nextRun, y.id)
    ensures forall a, k :: 0 <= k < |jobs| && IsFree(jobs[k], now) && k !in granted && 0 <= a < |granted| ==>
              var x, y := jobs[granted[a]], jobs[k]; Earlier(x.nextRun, x.id, y.nextRun, y.id)
    ensures forall k :: 0 <= k < |jobs| && IsFree(jobs[k], now) && k !in granted ==> |granted| == limit
    ensures |AfterClaim(jobs, owner, expires, granted)| == |jobs|
    ensures forall k :: 0 <= k < |jobs| ==>
              var x := jobs[k];
              AfterClaim(jobs, owner, expires, granted)[k] ==
              if k in granted then Job(x.id, x.name, x.work, x.enabled, x.nextRun, owner, expires, x.runs, x.outcome)
              else x
    ensures forall a :: 0 <= a < |granted| ==>
              Taken(jobs, owner, expires, granted)[a] == AfterClaim(jobs, owner, expires, granted)[granted[a]]
  {
    forall a, b | 0 <= a < b < |granted|
      ensures Earlier(jobs[granted[a]].nextRun, jobs[granted[a]].id, jobs[granted[b]].nextRun, jobs[granted[b]].id)
    {
      assert Before(jobs[granted[a]], jobs[granted[b]]) && granted[a] != granted[b];
    }
    forall a, k | 0 <= k < |jobs| && IsFree(jobs[k], now) && k !in granted && 0 <= a < |granted|
      ensures Earlier(jobs[granted[a]].nextRun, jobs[granted[a]].id, jobs[k].nextRun, jobs[k].id)
    {
      assert Claimable(jobs[k], now) && granted[a] in granted;
    }
  }

  /** A completed run is counted and its claim is gone; an "at" job does not run again, an "every" job
      is due after now, by the fewest whole intervals, and at least one. */
  lemma FinishedMeans(job: Job, outcome: string, now: real, done: Job) returns (k: nat)
    requires IsFinished(job, outcome, now, done)
    ensures done.id == job.id && done.name == job.name && done.work == job.work
    ensures done.runs == job.runs + 1 && done.outcome == outcome && done.owner == "" && done.expires == 0.0
    ensures job.work.schedule.At? ==> !done.enabled && done.nextRun == job.nextRun
    ensures job.work.schedule.Every? ==>
              var seconds := job.work.schedule.seconds;
              done.enabled == job.enabled && done.nextRun > now
              && k >= 1 && done.nextRun == job.nextRun + k as real * seconds
              && (k == 1 || !(job.nextRun + (k - 1) as real * seconds > now))
  {
    k := 1;
    if job.work.schedule.Every? {
      var next, j :| IsLeastShift(job.nextRun, job.work.schedule.seconds, now, next, j) && done == Finished(job, outcome, next);
      k := j;
    }
  }

  // ---------------------------------------------------------------------------
  // Runs: any services, any clocks
  // ---------------------------------------------------------------------------

  /** The stored list, with the number of times each job was handed out. Jobs keep their positions. */
  datatype State = State(jobs: seq<Job>, grants: seq<nat>)

  datatype Action =
    | Add(id: JobId, name: string, work: Work, now: real)
    | Claim(owner: string, limit: nat, now: real, granted: seq<nat>)
    | Complete(k: nat, owner: string, outcome: string, now: real, done: Job)

  ghost predicate Enabled(s: State, a: Action)
  {
    match a
    case Add(id, _, work, _) =>
      forall k :: 0 <= k < |s.jobs| ==> s.jobs[k].id != id && !Scheduled(s.jobs[k], work)
    case Claim(owner, limit, now, granted) => owner != "" && limit >= 1 && IsClaim(s.jobs, now, limit, granted)
    case Complete(k, owner, outcome, now, done) =>
      k < |s.jobs| && s.jobs[k].owner == owner && IsFinished(s.jobs[k], outcome, now, done)
  }

  ghost function Apply(s: State, a: Action, ttl: real): State
  {
    match a
    case Add(id, name, work, now) => State(s.jobs + [NewJob(id, name, work, now)], s.grants + [0])
    case Claim(owner, _, now, granted) =>
      State(AfterClaim(s.jobs, owner, now + ttl, granted),
            seq(|s.grants|, k requires 0 <= k < |s.grants| => s.grants[k] + if k in granted then 1 else 0))
    case Complete(k, _, _, _, done) => if k < |s.jobs| then s.(jobs := s.jobs[k := done]) else s
  }

  ghost predicate Leads(s: State, actions: seq<Action>, u: State, ttl: real)
    decreases |actions|
  {
    if actions == [] then s == u
    else Enabled(s, actions[0]) && Leads(Apply(s, actions[0], ttl), actions[1..], u, ttl)
  }

  /** Nobody completes with an empty owner. */
  ghost predicate Named(actions: seq<Action>)
  {
    forall a :: a in actions && a.Complete? ==> a.owner != ""
  }

  predicate JobInv(job: Job, grants: nat)
  {
    && job.runs + (if job.owner != "" then 1 else 0) <= grants
    && (job.work.schedule.At? ==> job.runs == 0 || (job.runs == 1 && !job.enabled && job.owner == ""))
  }

  ghost predicate Inv(s: State)
  {
    && WellKept(s.jobs) && |s.grants| == |s.jobs|
    && forall k :: 0 <= k < |s.jobs| ==> JobInv(s.jobs[k], s.grants[k])
  }

  lemma StepKeepsInv(s: State, a: Action, ttl: real)
    requires Inv(s) && Enabled(s, a) && (a.Complete? ==> a.owner != "")
    ensures Inv(Apply(s, a, ttl))
    ensures forall k :: 0 <= k < |s.grants| ==>
              Apply(s, a, ttl).grants[k] - s.grants[k] == (if a.Claim? && k in a.granted then 1 else 0)
  {
    if a.Claim? {
      ClaimKeepsList(s.jobs, a.owner, a.now + ttl, a.granted);
      forall k | 0 <= k < |s.jobs| ensures JobInv(Apply(s, a, ttl).jobs[k], Apply(s, a, ttl).grants[k]) {
        assert JobInv(s.jobs[k], s.grants[k]);
      }
    }
  }

  /** Over every run a job is completed at most as often as it was handed out, an "at" job at most
      once, and no two enabled jobs are for the same work. */
  lemma {:induction false} RunsAreGranted(s: State, actions: seq<Action>, u: State, ttl: real)
    requires Inv(s) && Leads(s, actions, u, ttl) && Named(actions)
    ensures Inv(u)
    ensures forall k :: 0 <= k < |u.jobs| ==> u.jobs[k].runs <= u.grants[k]
    ensures forall k :: 0 <= k < |u.jobs| && u.jobs[k].work.schedule.At? ==> u.jobs[k].runs <= 1
    decreases |actions|
  {
    if actions == [] {
      forall k | 0 <= k < |u.jobs| ensures JobInv(u.jobs[k], u.grants[k]) { }
    } else {
      StepKeepsInv(s, actions[0], ttl);
      RunsAreGranted(Apply(s, actions[0], ttl), actions[1..], u, ttl);
    }
  }

  /** The owner must be named: an empty one completes a job that nobody claimed. */
  lemma EmptyOwnerCompletesUnclaimed(s: State, k: nat, outcome: string, now: real, done: Job, ttl: real)
    requires Inv(s) && k < |s.jobs| && s.jobs[k].owner == "" && s.grants[k] == s.jobs[k].runs
    requires IsFinished(s.jobs[k], outcome, now, done)
    ensures Enabled(s, Complete(k, "", outcome, now, done))
    ensures forall owner :: Enabled(s, Complete(k, owner, outcome, now, done)) ==> owner == ""
    ensures var u := Apply(s, Complete(k, "", outcome, now, done), ttl); u.jobs[k].runs > u.grants[k]
  {
    if s.jobs[k].work.schedule.Every? {
      var next, i :| IsLeastShift(s.jobs[k].nextRun, s.jobs[k].work.schedule.seconds, now, next, i)
                     && done == Finished(s.jobs[k], outcome, next);
    }
  }

  // ---------------------------------------------------------------------------
  // A claim excludes the others until it expires or is completed
  // ---------------------------------------------------------------------------

  /** The step neither completes the job nor looks at the list after its claim expired. */
  ghost predicate WithinClaim(a: Action, k: nat, expires: real)
  {
    match a
    case Add(_, _, _, _) => true
    case Claim(_, _, now, _) => now < expires
    case Complete(j, _, _, _, _) => j != k
  }

  lemma {:induction false} ClaimExcludes(s: State, actions: seq<Action>, u: State, ttl: real, k: nat)
    requires Inv(s) && k < |s.jobs| && s.jobs[k].owner != "" && Leads(s, actions, u, ttl) && Named(actions)
    requires forall a :: a in actions ==> WithinClaim(a, k, s.jobs[k].expires)
    ensures k < |u.jobs| && k < |u.grants| && u.jobs[k] == s.jobs[k] && u.grants[k] == s.grants[k]
    ensures forall owner, outcome, now, done ::
              Enabled(u, Complete(k, owner, outcome, now, done)) ==> owner == s.jobs[k].owner
    decreases |actions|
  {
    if actions != [] {
      assert WithinClaim(actions[0], k, s.jobs[k].expires);
      StepKeepsInv(s, actions[0], ttl);
      if actions[0].Claim? {
        NotGrantedAgain(s.jobs, actions[0].now, actions[0].limit, actions[0].granted, k);
      }
      ClaimExcludes(Apply(s, actions[0], ttl), actions[1..], u, ttl, k);
    }
  }

  lemma NotGrantedAgain(jobs: seq<Job>, now: real, limit: nat, granted: seq<nat>, k: nat)
    requires IsClaim(jobs, now, limit, granted) && k < |jobs| && jobs[k].owner != "" && now < jobs[k].expires
    ensures k !in granted
  {
  }
}
