/**
 * The record of targets the dispatch loop has started. Starting a target
 * is fire-and-forget in aiosched; here it appends one entry to a log.
 */
module Firings {

  /** Job `id` was started at clock reading `at`; its due time then was `due`. */
  datatype Firing = Firing(id: nat, due: int, at: int)

  /** The firings of the job `id`, in the order they happened. */
  function Of(log: seq<Firing>, id: nat): (r: seq<Firing>)
    ensures |r| <= |log|
  {
    if log == [] then []
    else (if log[0].id == id then [log[0]] else []) + Of(log[1..], id)
  }

  /** A job's history holds exactly the firings of the log that carry its id. */
  lemma {:induction false} OfMembers(log: seq<Firing>, id: nat)
    ensures forall e :: e in Of(log, id) <==> e in log && e.id == id
  {
    if log != [] {
      OfMembers(log[1..], id);
      assert log == [log[0]] + log[1..];
    }
  }

  /** A firing of `e.id` extends that job's history by `e` and leaves every other job's history alone. */
  lemma {:induction false} OfAppend(log: seq<Firing>, e: Firing, id: nat)
    ensures Of(log + [e], id) == if e.id == id then Of(log, id) + [e] else Of(log, id)
  {
    if log == [] {
      assert log + [e] == [e];
      assert [e][1..] == [];
    } else {
      assert (log + [e])[0] == log[0];
      assert (log + [e])[1..] == log[1..] + [e];
      OfAppend(log[1..], e, id);
    }
  }

  /** A job that never fired has an empty history. */
  lemma OfAbsent(log: seq<Firing>, id: nat)
    requires forall e :: e in log ==> e.id != id
    ensures Of(log, id) == []
  {
    OfMembers(log, id);
    if Of(log, id) != [] {
      assert Of(log, id)[0] in Of(log, id);
    }
  }

  /** The due time of a job after `n` firings: its construction time plus `n` intervals. */
  function Due(born: int, interval: int, n: nat): int {
    if n == 0 then born else Due(born, interval, n - 1) + interval
  }

  /** `Due` adds the interval once per firing. */
  lemma {:induction false} DueClosedForm(born: int, interval: int, n: nat)
    ensures Due(born, interval, n) == born + interval * n
  {
    if n > 0 {
      DueClosedForm(born, interval, n - 1);
      assert interval * n == interval * (n - 1) + interval;
    }
  }

  /** With a non-negative interval the due time never decreases from one firing to the next. */
  lemma {:induction false} DueMonotone(born: int, interval: int, i: nat, k: nat)
    requires i <= k
    ensures interval >= 0 ==> Due(born, interval, i) <= Due(born, interval, k)
    ensures interval < 0 && i < k ==> Due(born, interval, k) < Due(born, interval, i)
    decreases k
  {
    if i < k {
      DueMonotone(born, interval, i, k - 1);
    }
  }

  /**
   * The history the scheduler keeps for a job: its k-th firing (from 0)
   * was due after k earlier firings, and no firing happened before it
   * was due.
   */
  ghost predicate OnSchedule(log: seq<Firing>, id: nat, born: int, interval: int) {
    forall k :: 0 <= k < |Of(log, id)| ==>
      Of(log, id)[k].due == Due(born, interval, k) && Of(log, id)[k].due <= Of(log, id)[k].at
  }

  /**
   * Firing a job that is due, at the due time its earlier firings give it,
   * keeps its history on schedule.
   */
  lemma OnScheduleAfterFiring(log: seq<Firing>, e: Firing, born: int, interval: int)
    requires OnSchedule(log, e.id, born, interval)
    requires e.due == Due(born, interval, |Of(log, e.id)|) && e.due <= e.at
    ensures OnSchedule(log + [e], e.id, born, interval)
    ensures |Of(log + [e], e.id)| == |Of(log, e.id)| + 1
  {
    OfAppend(log, e, e.id);
  }

  /** A job's k-th firing happens no earlier than `born + interval * k`. */
  lemma NeverEarly(log: seq<Firing>, id: nat, born: int, interval: int, k: nat)
    requires OnSchedule(log, id, born, interval)
    requires k < |Of(log, id)|
    ensures Of(log, id)[k].at >= born + interval * k
  {
    DueClosedForm(born, interval, k);
  }
}
