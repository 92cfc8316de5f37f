/**
 * The job scheduler of aiosched: a priority queue of jobs ordered by due
 * time, a dispatch loop that takes the earliest job and fires, drops,
 * sleeps on or requeues it, and the submission and cancellation entry
 * points that feed the loop.
 *
 * Every method below runs as one atomic step, as the source's lock and
 * single event loop make each entry point. The dispatch loop body is split
 * wherever another thread can act between its parts: `Get` takes a job,
 * `Check` is the cancellation check, `Time` reads the clock and starts the
 * sleep or fires, and `AfterWake` runs once the sleep is over.
 */
module Scheduling {
  import opened Jobs
  import opened Firings

  /** What one step of the dispatch loop did. */
  datatype Step =
    | Stopped              // the poison job was taken: the loop has ended
    | Dropped(id: nat)     // a cancelled job was taken and discarded
    | Checked(id: nat)     // the job is not cancelled: the loop holds it and reads the clock next
    | Sleeping(delta: int) // the job is due in `delta` ticks: the loop sleeps
    | Fired(id: nat)       // the job's target was started and the job went back, rescheduled
    | Requeued(id: nat)    // woken before the due time: the job went back unchanged

  /** `cancel` takes either a job or the id of one. */
  datatype JobRef = ByJob(job: Job) | ById(id: nat)

  function IdOf(r: JobRef): nat {
    match r
    case ByJob(j) => j.id
    case ById(i) => i
  }

  /** `e` is a job of `q` that no job of `q` is due before. */
  predicate IsEarliest(q: multiset<Job>, e: Job)
    reads q
  {
    e in q && forall j :: j in q ==> e.t <= j.t
  }

  /** A non-empty queue always has a job the priority queue may hand out. */
  lemma {:induction false} EarliestExists(q: multiset<Job>)
    requires q != multiset{}
    ensures exists e :: IsEarliest(q, e)
    decreases |q|
  {
    var x :| x in q;
    var r := q - multiset{x};
    if r == multiset{} {
      assert forall j :: j in q ==> j == x || j in r;
      assert IsEarliest(q, x);
    } else {
      EarliestExists(r);
      var e :| IsEarliest(r, e);
      assert forall j :: j in q ==> j == x || j in r;
      if x.t < e.t {
        assert IsEarliest(q, x);
      } else {
        assert IsEarliest(q, e);
      }
    }
  }

  /** `j` holds an id below `next`, and `ids` maps that id back to `j`. */
  ghost predicate Owns(ids: map<nat, Job>, next: nat, j: Job) {
    j.id < next && j.id in ids && ids[j.id] == j
  }

  /**
   * The job handed out is minimal for the queue's comparison: no queued job
   * orders before it under `Before`.
   */
  lemma EarliestIsMinimal(q: multiset<Job>, e: Job)
    requires IsEarliest(q, e)
    ensures forall j :: j in q ==> !j.Before(e)
  {
  }

  /**
   * Due time `t` of job `j` agrees with the log: it is the construction
   * time plus one interval per firing, every firing was on schedule, and
   * a poison job is due at time 0 and never fired.
   */
  ghost predicate OnTime(t: int, j: Job, log: seq<Firing>) {
    && t == Due(j.born, j.interval, |Of(log, j.id)|)
    && OnSchedule(log, j.id, j.born, j.interval)
    && (j.IsPoison() ==> j.born == 0 && Of(log, j.id) == [])
  }

  /** Firing a due real job advances its due time by one interval and keeps it on time. */
  lemma FiringKeepsOnTime(t: int, j: Job, log: seq<Firing>, e: Firing)
    requires OnTime(t, j, log) && !j.IsPoison()
    requires e == Firing(j.id, t, e.at) && t <= e.at
    ensures OnTime(t + j.interval, j, log + [e])
  {
    OnScheduleAfterFiring(log, e, j.born, j.interval);
  }

  /** A firing of another job leaves a job's due time on time. */
  lemma OtherFiringKeepsOnTime(t: int, j: Job, log: seq<Firing>, e: Firing)
    requires OnTime(t, j, log) && e.id != j.id
    ensures OnTime(t, j, log + [e])
  {
    OfAppend(log, e, j.id);
  }

  class Scheduler {
    /** The priority queue's contents; `hasQueue` says whether the queue exists yet. */
    var queue: multiset<Job>
    var hasQueue: bool
    /** Jobs submitted from other threads before an event loop was bound. */
    var waiting: set<Job>
    /** Ids whose job is to be dropped the next time the loop takes it. */
    var cancelled: set<nat>
    /** Whether the scheduler holds an event loop to marshal calls onto. */
    var loopBound: bool
    /** Whether the loop's sleep is under way and has not been cut short. */
    var sleepPending: bool
    /** The stop event, set when the dispatch loop ends. */
    var stopped: bool
    /** Whether the dispatch loop is executing (its control position, not a field of the source). */
    var running: bool
    /** The job the loop holds between its cancellation check and its return to the queue. */
    var inFlight: Job?
    /** Whether the loop is inside its sleep, cut short or not. */
    var asleep: bool
    /** How many times the queue has been built; each build makes a new queue object. */
    var generation: nat
    /** Whether the loop's `get` is waiting on an empty queue, and on the build `getOn` of it. */
    var getPending: bool
    var getOn: nat
    /**
     * What a later build left in the queue object a pending `get` waits on:
     * puts that reached it before it was replaced. Nothing is put on it after.
     */
    var pendingFrom: multiset<Job>
    /** The job the loop's `get` has handed out and the cancellation check has not yet seen. */
    var taken: Job?
    /** Every target start, in order. */
    var fired: seq<Firing>
    /** The next fresh job id. */
    var nextId: nat
    /** Every job this scheduler has built, and each of them by its id. */
    ghost var jobs: set<Job>
    ghost var byId: map<nat, Job>

    /**
     * The scheduler's invariant: the jobs it holds are its own and have
     * distinct ids, every one of them is on time, and a pending `get` waits
     * on a build of the queue that has happened.
     */
    ghost predicate Valid()
      reads this`jobs, this`byId, this`nextId, this`fired, this`queue, this`waiting
      reads this`inFlight, this`running, this`sleepPending, this`asleep, this`getOn, this`generation
      reads this`pendingFrom
      reads jobs
    {
      Registered() && Held() && Timely() && Parked() && getOn <= generation
    }

    /** The replaced queue a pending `get` waits on holds only this scheduler's jobs. */
    ghost predicate Parked()
      reads this`pendingFrom, this`jobs
    {
      forall j {:trigger pendingFrom[j]} :: j in pendingFrom ==> j in jobs
    }

    /**
     * Every job's due time is its construction time plus one interval per
     * firing so far, each firing happened no earlier than the due time it
     * fired for, and the poison job never fires.
     */
    ghost predicate Timely()
      reads this`jobs, this`fired, jobs
    {
      forall j {:trigger OnTime(j.t, j, fired)} :: j in jobs ==> OnTime(j.t, j, fired)
    }

    /** Every job built has its own id, below the next fresh one, and so has every firing. */
    ghost predicate Registered()
      reads this`jobs, this`byId, this`nextId, this`fired
    {
      && (forall j {:trigger Owns(byId, nextId, j)} :: j in jobs ==> Owns(byId, nextId, j))
      && (forall e :: e in fired ==> e.id < nextId)
    }

    /**
     * The queue, the waiting jobs and the job in flight are this
     * scheduler's; only a running loop holds a job, never the poison one;
     * the loop sleeps only while it holds a job, and a sleep is pending
     * only while the loop sleeps.
     */
    ghost predicate Held()
      reads this`queue, this`waiting, this`inFlight, this`running, this`sleepPending, this`asleep
      reads this`jobs
    {
      && (forall j {:trigger queue[j]} :: j in queue ==> j in jobs)
      && waiting <= jobs
      && (inFlight != null ==> inFlight in jobs && running && !inFlight.IsPoison())
      && (asleep ==> inFlight != null)
      && (sleepPending ==> asleep)
    }

    /** The loop's pending `get` waits on a queue object that a later build replaced. */
    predicate Replaced()
      reads this`getPending, this`getOn, this`generation
    {
      getPending && getOn < generation
    }

    /**
     * The loop's pending `get` waits on a replaced queue object that nothing
     * was put on: every put now goes to the new queue, so that `get` never returns.
     */
    predicate Stranded()
      reads this`getPending, this`getOn, this`generation, this`pendingFrom
    {
      Replaced() && pendingFrom == multiset{}
    }

    constructor ()
      ensures Valid()
      ensures queue == multiset{} && !hasQueue && waiting == {} && cancelled == {}
      ensures !loopBound && !sleepPending && !stopped && !running && inFlight == null && !asleep
      ensures generation == 0 && !getPending && pendingFrom == multiset{} && taken == null
      ensures fired == [] && jobs == {}
    {
      queue := multiset{};
      hasQueue := false;
      waiting := {};
      cancelled := {};
      loopBound := false;
      sleepPending := false;
      stopped := false;
      running := false;
      inFlight := null;
      asleep := false;
      generation := 0;
      getPending := false;
      getOn := 0;
      pendingFrom := multiset{};
      taken := null;
      fired := [];
      nextId := 0;
      jobs := {};
      byId := map[];
    }

    /** Builds a job with a fresh id and records it as one of this scheduler's jobs. */
    method NewJob(target: Option<string>, args: seq<string>, kwargs: map<string, string>,
                  interval: int, now: int) returns (job: Job)
      requires Valid()
      modifies this`nextId, this`jobs, this`byId
      ensures Valid() && fresh(job)
      ensures job.target == target && job.args == args && job.kwargs == kwargs
      ensures job.interval == interval && job.id == old(nextId)
      ensures job.t == (if target.None? then 0 else now)
      ensures nextId == old(nextId) + 1 && jobs == old(jobs) + {job}
    {
      job := new Job(target, args, kwargs, interval, nextId, now);
      OfAbsent(fired, job.id);
      assert OnTime(job.t, job, fired);
      ghost var ids, next := byId, nextId;
      nextId := nextId + 1;
      jobs := jobs + {job};
      byId := byId[job.id := job];
      forall j | j in jobs
        ensures Owns(byId, nextId, j)
      {
        if j != job {
          assert Owns(ids, next, j);
        }
      }
      assert Registered();
      assert Held();
      assert Timely();
    }

    /** Starts `job`'s target and reschedules the job one interval on. */
    method Fire(job: Job, now: int)
      requires Valid() && running && job in jobs && !job.IsPoison() && job.t <= now
      modifies this`fired, job
      ensures Valid()
      ensures job.t == old(job.t) + job.interval
      ensures fired == old(fired) + [Firing(job.id, old(job.t), now)]
    {
      assert Owns(byId, nextId, job);
      var e := Firing(job.id, job.t, now);
      ghost var log := fired;
      FiringKeepsOnTime(job.t, job, log, e);
      job.Reschedule();
      fired := fired + [e];
      forall j | j in jobs
        ensures OnTime(j.t, j, fired)
      {
        if j != job {
          assert Owns(byId, nextId, j);
          OtherFiringKeepsOnTime(j.t, j, log, e);
        }
      }
    }

    /**
     * The loop's `get`. It takes a job the priority queue may hand out, one
     * no queued job is due before. On an empty queue the loop waits on that
     * queue object, which here returns no job and records which build of the
     * queue it waits on. Once that object is replaced, the `get` is served
     * from what was put on it before, if anything; the loop then goes on
     * with the new queue. A loop stranded on a replaced, empty queue gets
     * nothing, ever.
     */
    method Get() returns (job: Job?)
      requires Valid() && running && hasQueue && inFlight == null && !asleep && taken == null
      modifies this`queue, this`getPending, this`getOn, this`pendingFrom, this`taken
      ensures Valid() && taken == job
      ensures old(Stranded()) ==>
        && job == null && queue == old(queue) && getPending == old(getPending) && getOn == old(getOn)
        && pendingFrom == old(pendingFrom)
      ensures old(Replaced()) && old(pendingFrom) != multiset{} ==>
        && job != null && IsEarliest(old(pendingFrom), job)
        && queue == old(queue) && !getPending && pendingFrom == multiset{}
      ensures !old(Replaced()) ==>
        && pendingFrom == old(pendingFrom)
        && (job == null <==> old(queue) == multiset{})
        && (job == null ==> queue == old(queue) && getPending && getOn == generation)
        && (job != null ==> IsEarliest(old(queue), job) && queue == old(queue) - multiset{job})
        && (job != null ==> !getPending)
    {
      if Replaced() {
        if pendingFrom == multiset{} {
          return null;
        }
        job := TakeParked();
        return;
      }
      if queue == multiset{} {
        Wait();
        return null;
      }
      job := Take();
    }

    /** The loop's `get` waits on the empty queue of the current build. */
    method Wait()
      requires Valid()
      modifies this`getPending, this`getOn
      ensures Valid() && getPending && getOn == generation
    {
      getPending := true;
      getOn := generation;
    }

    /**
     * Serves a `get` from the replaced queue object it waits on: one job no
     * job left there is due before, handed to the cancellation check. The
     * loop never returns to that object.
     */
    method TakeParked() returns (job: Job)
      requires Valid() && pendingFrom != multiset{}
      modifies this`pendingFrom, this`getPending, this`taken
      ensures Valid() && job in jobs && !getPending && taken == job
      ensures IsEarliest(old(pendingFrom), job) && pendingFrom == multiset{}
    {
      EarliestExists(pendingFrom);
      var earliest: Job :| IsEarliest(pendingFrom, earliest);
      job := earliest;
      pendingFrom := multiset{};
      getPending := false;
      taken := job;
    }

    /**
     * Removes from a non-empty queue one job no queued job is due before and
     * hands it to the cancellation check.
     */
    method Take() returns (job: Job)
      requires Valid() && queue != multiset{}
      modifies this`queue, this`getPending, this`taken
      ensures Valid() && !getPending && taken == job
      ensures IsEarliest(old(queue), job) && queue == old(queue) - multiset{job}
    {
      EarliestExists(queue);
      var earliest: Job :| IsEarliest(queue, earliest);
      job := earliest;
      queue := queue - multiset{job};
      getPending := false;
      taken := job;
    }

    /**
     * The end of one round of the loop for a real job it holds: if the job
     * is due it fires and is rescheduled; either way it goes back on the queue.
     */
    method Retry(job: Job, now: int) returns (step: Step)
      requires Valid() && running && job in jobs && !job.IsPoison()
      modifies this`fired, this`queue, job
      ensures Valid()
      ensures queue == old(queue) + multiset{job}
      ensures old(job.t) <= now ==>
        && step == Fired(job.id) && job.t == old(job.t) + job.interval
        && fired == old(fired) + [Firing(job.id, old(job.t), now)]
      ensures now < old(job.t) ==> step == Requeued(job.id) && job.t == old(job.t) && fired == old(fired)
    {
      if job.t <= now {
        Fire(job, now);
        step := Fired(job.id);
      } else {
        step := Requeued(job.id);
      }
      queue := queue + multiset{job};
    }

    /**
     * The loop's first locked section on the job it has just taken: the
     * poison job ends the loop; a cancelled job is dropped and its id
     * forgotten; any other job stays in the loop's hands.
     */
    method Check(job: Job) returns (step: Step)
      requires Valid() && running && inFlight == null && job in jobs && taken == job
      modifies this`cancelled, this`inFlight, this`running, this`stopped, this`taken
      ensures Valid() && taken == null
      ensures job.IsPoison() ==>
        && step == Stopped && !running && stopped && cancelled == old(cancelled) && inFlight == null
      ensures !job.IsPoison() && job.id in old(cancelled) ==>
        && step == Dropped(job.id) && cancelled == old(cancelled) - {job.id}
        && running && stopped == old(stopped) && inFlight == null
      ensures !job.IsPoison() && job.id !in old(cancelled) ==>
        && step == Checked(job.id) && cancelled == old(cancelled)
        && running && stopped == old(stopped) && inFlight == job
    {
      taken := null;
      if job.IsPoison() {
        running := false;
        stopped := true;
        return Stopped;
      }
      if job.id in cancelled {
        cancelled := cancelled - {job.id};
        return Dropped(job.id);
      }
      inFlight := job;
      step := Checked(job.id);
    }

    /**
     * The loop reads the clock for the job it holds: a job due later starts
     * the sleep, in a locked section of its own; a job already due fires and
     * goes back on the queue.
     */
    method Time(now: int) returns (step: Step, job: Job)
      requires Valid() && running && inFlight != null && !asleep
      modifies this`queue, this`fired, this`inFlight, this`sleepPending, this`asleep, inFlight
      ensures Valid()
      ensures job == old(inFlight)
      ensures now < old(job.t) ==>
        && step == Sleeping(old(job.t) - now) && inFlight == job && asleep && sleepPending
        && queue == old(queue) && fired == old(fired) && job.t == old(job.t)
      ensures old(job.t) <= now ==>
        && step == Fired(job.id) && inFlight == null && !asleep
        && sleepPending == old(sleepPending)
        && queue == old(queue) + multiset{job}
        && job.t == old(job.t) + job.interval
        && fired == old(fired) + [Firing(job.id, old(job.t), now)]
    {
      job := inFlight;
      var delta := job.t - now;
      if delta > 0 {
        asleep := true;
        sleepPending := true;
        return Sleeping(delta), job;
      }
      inFlight := null;
      step := Retry(job, now);
    }

    /**
     * The loop resumes after its sleep, whether the sleep ran out or was
     * cut short: a job cancelled meanwhile is dropped; a job now due fires
     * and goes back; a job woken early goes back with its due time as it was.
     */
    method AfterWake(now: int) returns (step: Step, job: Job)
      requires Valid() && running && asleep
      modifies this`queue, this`cancelled, this`fired, this`inFlight, this`sleepPending, this`asleep
      modifies inFlight
      ensures Valid()
      ensures job == old(inFlight) && inFlight == null && !sleepPending && !asleep
      ensures forall j :: j in old(jobs) && j != job ==> j.t == old(j.t)
      ensures job.id in old(cancelled) ==>
        && step == Dropped(job.id) && cancelled == old(cancelled) - {job.id}
        && queue == old(queue) && fired == old(fired) && job.t == old(job.t)
      ensures job.id !in old(cancelled) ==> cancelled == old(cancelled) && queue == old(queue) + multiset{job}
      ensures job.id !in old(cancelled) && old(job.t) <= now ==>
        && step == Fired(job.id) && job.t == old(job.t) + job.interval
        && fired == old(fired) + [Firing(job.id, old(job.t), now)]
      ensures job.id !in old(cancelled) && now < old(job.t) ==>
        && step == Requeued(job.id) && job.t == old(job.t) && fired == old(fired)
    {
      job := inFlight;
      sleepPending := false;
      asleep := false;
      inFlight := null;
      if job.id in cancelled {
        cancelled := cancelled - {job.id};
        return Dropped(job.id), job;
      }
      step := Retry(job, now);
    }

    /**
     * Puts `job` on the queue and cuts short any sleep under way. Before the
     * queue exists the put fails and nothing changes.
     */
    method PutJob(job: Job) returns (ok: bool)
      modifies this`queue, this`sleepPending
      ensures ok == hasQueue
      ensures queue == if ok then old(queue) + multiset{job} else old(queue)
      ensures sleepPending == (old(sleepPending) && !ok)
    {
      ok := hasQueue;
      if ok {
        queue := queue + multiset{job};
        sleepPending := false;
      }
    }

    /** Marks the id of `ref` as cancelled and cuts short any sleep under way. */
    method Cancel(ref: JobRef)
      requires Valid()
      modifies this`cancelled, this`sleepPending
      ensures Valid()
      ensures cancelled == old(cancelled) + {IdOf(ref)}
      ensures !sleepPending
    {
      cancelled := cancelled + {IdOf(ref)};
      sleepPending := false;
    }

    /**
     * Replaces the queue by a new one holding exactly the waiting jobs. A
     * `get` pending on the queue being replaced keeps that queue object and
     * what was put on it.
     */
    method InitQueue()
      requires Valid()
      modifies this`queue, this`hasQueue, this`sleepPending, this`generation, this`pendingFrom
      ensures Valid() && hasQueue && generation == old(generation) + 1
      ensures queue == multiset(waiting)
      ensures sleepPending == (old(sleepPending) && waiting == {})
      ensures pendingFrom == if old(getPending && getOn == generation) then old(queue) else old(pendingFrom)
    {
      Detach();
      Rebuild();
    }

    /** A new build of the queue holding exactly the waiting jobs. */
    method Rebuild()
      requires Valid()
      modifies this`queue, this`hasQueue, this`sleepPending, this`generation
      ensures Valid() && hasQueue && generation == old(generation) + 1
      ensures queue == multiset(waiting)
      ensures sleepPending == (old(sleepPending) && waiting == {})
    {
      Reset();
      PutWaiting();
      assert forall j :: j in queue ==> j in waiting;
      assert Held();
      assert Registered() && Timely();
    }

    /** A `get` pending on the current build keeps that queue object and what was put on it. */
    method Detach()
      requires Valid()
      modifies this`pendingFrom
      ensures Valid()
      ensures pendingFrom == if getPending && getOn == generation then queue else old(pendingFrom)
    {
      if getPending && getOn == generation {
        pendingFrom := queue;
      }
    }

    /** A new, empty build of the queue. */
    method Reset()
      requires Valid()
      modifies this`queue, this`hasQueue, this`generation
      ensures Valid() && hasQueue && queue == multiset{} && generation == old(generation) + 1
    {
      queue := multiset{};
      hasQueue := true;
      generation := generation + 1;
    }

    /** Puts every waiting job, once each, on the new, empty queue. */
    method PutWaiting()
      requires hasQueue && queue == multiset{}
      modifies this`queue, this`sleepPending
      ensures forall x :: queue[x] == if x in waiting then 1 else 0
      ensures sleepPending == (old(sleepPending) && waiting == {})
    {
      var rest := waiting;
      while rest != {}
        invariant rest <= waiting
        invariant forall x :: queue[x] == if x in waiting && x !in rest then 1 else 0
        invariant sleepPending == (old(sleepPending) && rest == waiting)
        decreases rest
      {
        var j :| j in rest;
        var ok := PutJob(j);
        rest := rest - {j};
      }
    }

    /**
     * Throws away the queue and starts a new one from the waiting jobs.
     * Without a bound event loop the call fails and nothing changes.
     */
    method CancelAll() returns (ok: bool)
      requires Valid()
      modifies this`queue, this`hasQueue, this`sleepPending, this`generation, this`pendingFrom
      ensures Valid()
      ensures ok == loopBound
      ensures ok ==>
        && hasQueue && queue == multiset(waiting) && generation == old(generation) + 1
        && sleepPending == (old(sleepPending) && waiting == {})
        && pendingFrom == if old(getPending && getOn == generation) then old(queue) else old(pendingFrom)
      ensures !ok ==>
        && queue == old(queue) && hasQueue == old(hasQueue) && sleepPending == old(sleepPending)
        && generation == old(generation) && pendingFrom == old(pendingFrom)
      ensures ok && old(getPending && getOn == generation) ==> (Stranded() <==> old(queue) == multiset{})
      ensures ok && old(Stranded()) ==> Stranded()
    {
      ok := loopBound;
      if ok {
        InitQueue();
      }
    }

    /** Creates a job on the loop's own thread and puts it on the queue. */
    method Create(target: Option<string>, args: seq<string>, kwargs: map<string, string>,
                  interval: int, now: int) returns (job: Job, ok: bool)
      requires Valid()
      modifies this`queue, this`sleepPending, this`nextId, this`jobs, this`byId
      ensures Valid() && fresh(job)
      ensures job.target == target && job.args == args && job.kwargs == kwargs
      ensures job.interval == interval && job.id == old(nextId)
      ensures job.t == (if target.None? then 0 else now)
      ensures nextId == old(nextId) + 1 && jobs == old(jobs) + {job}
      ensures ok == hasQueue
      ensures queue == if ok then old(queue) + multiset{job} else old(queue)
      ensures sleepPending == (old(sleepPending) && !ok)
    {
      job := NewJob(target, args, kwargs, interval, now);
      ok := PutJob(job);
    }

    /**
     * Creates a job from any thread. With an event loop bound the put is
     * handed to the loop (and, in this model, lost if the queue does not exist yet);
     * without one the job is parked among the waiting jobs.
     */
    method CreateThreadsafe(target: Option<string>, args: seq<string>, kwargs: map<string, string>,
                            interval: int, now: int) returns (job: Job)
      requires Valid()
      modifies this`queue, this`sleepPending, this`nextId, this`jobs, this`byId, this`waiting
      ensures Valid() && fresh(job)
      ensures job.target == target && job.args == args && job.kwargs == kwargs
      ensures job.interval == interval && job.id == old(nextId)
      ensures job.t == (if target.None? then 0 else now)
      ensures nextId == old(nextId) + 1 && jobs == old(jobs) + {job}
      ensures loopBound ==>
        && waiting == old(waiting)
        && queue == (if hasQueue then old(queue) + multiset{job} else old(queue))
        && sleepPending == (old(sleepPending) && !hasQueue)
      ensures !loopBound ==>
        && waiting == old(waiting) + {job}
        && queue == old(queue) && sleepPending == old(sleepPending)
    {
      job := NewJob(target, args, kwargs, interval, now);
      if loopBound {
        var _ := PutJob(job);
      } else {
        waiting := waiting + {job};
      }
      assert Held();
    }

    /**
     * Puts one poison job on the queue. Before the queue exists or without
     * a bound event loop it fails ("scheduler is not started") and nothing
     * changes. The sleep under way, if any, is not cut short.
     */
    method Stop() returns (ok: bool)
      requires Valid()
      modifies this`queue, this`nextId, this`jobs, this`byId
      ensures Valid()
      ensures ok == (hasQueue && loopBound)
      ensures !ok ==> queue == old(queue) && nextId == old(nextId) && jobs == old(jobs)
      ensures ok ==> old(queue) <= queue && |queue| == |old(queue)| + 1
      ensures ok ==> forall p :: p in queue - old(queue) ==> p.IsPoison() && p.t == 0 && fresh(p)
    {
      ok := hasQueue && loopBound;
      if ok {
        var poison := NewJob(None, [], map[], 0, 0);
        queue := queue + multiset{poison};
      }
    }

    /** Binds the scheduler to the event loop it is given, if any. */
    method Start(loopGiven: bool)
      requires Valid()
      modifies this`loopBound
      ensures Valid()
      ensures loopBound == (old(loopBound) || loopGiven)
    {
      if loopGiven {
        loopBound := true;
      }
    }

    /** The loop's entry: it builds the queue from the waiting jobs unless the queue exists. */
    method EnterLoop()
      requires Valid() && !running
      modifies this`running, this`queue, this`hasQueue, this`sleepPending, this`generation, this`pendingFrom
      ensures Valid() && running && hasQueue
      ensures old(hasQueue) ==>
        && queue == old(queue) && sleepPending == old(sleepPending)
        && generation == old(generation) && pendingFrom == old(pendingFrom)
      ensures !old(hasQueue) ==>
        && queue == multiset(waiting) && !sleepPending && generation == old(generation) + 1
        && pendingFrom == if old(getPending && getOn == generation) then old(queue) else old(pendingFrom)
    {
      if !hasQueue {
        InitQueue();
      }
      running := true;
    }

    /** No job ever fired before it was due: its k-th firing came at or after `born + interval * k`. */
    lemma NeverFiredEarly()
      requires Valid()
      ensures forall j, k :: j in jobs && 0 <= k < |Of(fired, j.id)| ==>
        Of(fired, j.id)[k].at >= j.born + j.interval * k
    {
      forall j, k | j in jobs && 0 <= k < |Of(fired, j.id)|
        ensures Of(fired, j.id)[k].at >= j.born + j.interval * k
      {
        assert OnTime(j.t, j, fired);
        NeverEarly(fired, j.id, j.born, j.interval, k);
      }
    }

    /**
     * With a poison job queued and every real queued job due after time 0,
     * whatever job the queue hands out next is a poison job.
     */
    lemma PoisonIsNext(p: Job)
      requires Valid() && p in queue && p.IsPoison()
      requires forall j :: j in queue && !j.IsPoison() ==> j.t > 0
      ensures forall e :: IsEarliest(queue, e) ==> e.IsPoison()
    {
      assert OnTime(p.t, p, fired);
    }
  }
}
