/**
 * The scheduled job of aiosched: a record whose identity, target and
 * argument bundle are fixed at construction and whose due time `t` is
 * the only state the scheduler changes.
 */
module Jobs {

  datatype Option<+T> = None | Some(value: T)

  /**
   * One scheduled job. `target` names the coroutine function the job
   * starts; `None` marks the poison job that ends the dispatch loop.
   * Times are integer clock ticks.
   */
  class Job {
    const target: Option<string>
    const args: seq<string>
    const kwargs: map<string, string>
    const interval: int
    const id: nat
    var t: int
    /** The due time the job was given at construction. */
    ghost const born: int

    predicate IsPoison() {
      target.None?
    }

    /**
     * A poison job is due at time 0; any other job is scheduled for the
     * clock reading `now`. `id` stands for the fresh identifier the
     * constructor draws.
     */
    constructor (target: Option<string>, args: seq<string>, kwargs: map<string, string>,
                 interval: int, id: nat, now: int)
      ensures this.target == target && this.args == args && this.kwargs == kwargs
      ensures this.interval == interval && this.id == id
      ensures born == (if target.None? then 0 else now)
      ensures t == born
    {
      this.target := target;
      this.args := args;
      this.kwargs := kwargs;
      this.interval := interval;
      this.id := id;
      born := if target.None? then 0 else now;
      t := 0;
      new;
      if target.Some? {
        Schedule(now);
      }
    }

    /** Due "right now": the job's due time becomes the clock reading. */
    method Schedule(now: int)
      modifies this
      ensures t == now
    {
      t := now;
    }

    /** Due one interval later than it was; nothing else about the job changes. */
    method Reschedule()
      modifies this
      ensures t == old(t) + interval
    {
      t := t + interval;
    }

    /** The priority queue's comparison: earlier due time first, and any job before no job. */
    predicate Before(other: Job?)
      reads this, other
    {
      other == null || t < other.t
    }
  }

  /** `Before` is a strict order on jobs: irreflexive, asymmetric and transitive. */
  lemma BeforeIsStrictOrder(a: Job, b: Job, c: Job)
    ensures !a.Before(a)
    ensures a.Before(b) ==> !b.Before(a)
    ensures a.Before(b) && b.Before(c) ==> a.Before(c)
    ensures a.Before(b) <==> a.t < b.t
  {
  }

  /** Any job orders before no job at all, whatever its due time. */
  lemma BeforeNoJob(a: Job)
    ensures a.Before(null)
  {
  }

  /**
   * A poison job keeps the due time 0 it is constructed with, so it
   * orders ahead of every real job whose due time is positive: with a
   * positive clock the poison job leaves the queue before any real job.
   */
  lemma PoisonOrdersFirst(p: Job, j: Job)
    requires p.IsPoison() && p.t == 0
    requires !j.IsPoison() && j.t > 0
    ensures p.Before(j) && !j.Before(p)
  {
  }
}
