# aiosched scheduler engine in Dafny

This project models the engine of aiosched (`aiosched/aiosched.py`). aiosched runs coroutine
jobs periodically on an asyncio event loop. The model has two classes:

- `Jobs.Job` stands for `AsyncScheduledJob`. It holds a target, arguments, an interval, an
  id and a due time `t`. A job whose target is `None` is the poison job that ends the
  dispatch loop.
- `Scheduling.Scheduler` stands for `AsyncJobScheduler`. Its state is:
  - the priority queue, as a multiset of jobs, and whether the queue exists yet;
  - the set of waiting jobs, submitted before an event loop was bound;
  - the set of cancelled ids;
  - whether an event loop is bound;
  - whether a sleep is pending;
  - the stop event;
  - the job the loop's `get` handed out, until the cancellation check has seen it;
  - the job held while the loop sleeps;
  - what a pending `get` finds in the replaced queue object it waits on, `pendingFrom`.

Other modelling choices:

- Starting a target is fire-and-forget in aiosched. Here it appends a `Firing(id, due, at)`
  record to a log, `fired`.
- Clock readings are integer ticks, passed in as a `now` parameter.
- Job ids come from a counter, in place of random UUIDs.
- Each method is one atomic step. A public entry point runs under the source's lock or on
  its single event loop. The dispatch loop body is not one step: it is split wherever
  another thread's call can run between two of its parts.

The dispatch loop body has these steps:

- `Get` is the queue's `get` on the queue object found at that moment (line 83). On an
  empty queue the loop waits on that object. `generation` counts the queue builds, and
  `getOn` records which build a waiting `get` is bound to. When that build is replaced,
  `pendingFrom` keeps what was put on it before; `get` returns the earliest of those jobs,
  and only a `get` whose old queue stayed empty hangs.
- `Check` is the first locked section (lines 84-92): the poison job stops the loop, and a
  cancelled job is dropped.
- `Time` reads the clock (lines 94-101). A job due later starts the sleep, in a second
  locked section. A job already due fires and goes back on the queue.
- `AfterWake` runs once the sleep has ended (lines 107-125).

A `cancel` from another thread can land between `Check` and `Time`. It then finds no sleep
to cut short, and the sleep that `Time` starts runs to its end. The model reaches this
state: after `Check`, `Cancel` and `Time`, a sleep is pending while the job's id is
cancelled. `AfterWake` drops that job once the sleep is over.

`Retry` is the tail that `Time` and `AfterWake` share: if the job is due, it fires and is
rescheduled, and either way it goes back on the queue.

The invariant `Scheduler.Valid` has these parts:

- Ownership (`Registered`, `Held`, `Parked`): every job the scheduler holds is one it
  built. This covers the queue, the waiting set, the held job and the replaced queue a
  pending `get` waits on.
- Distinct ids (`Registered`): the ghost map `byId` maps each id back to its job, and every
  firing in the log carries an id already handed out.
- Loop position (`Held`): only a running loop holds a job, and never the poison job. The
  loop sleeps only while it holds a job, and a sleep is pending only while the loop sleeps.
- Builds: a pending `get` is bound to a build of the queue that has happened
  (`getOn <= generation`).
- Timeliness (`Timely`): every job's due time equals its construction time plus one
  interval per firing in the log, and every firing in the log happened at or after the due
  time it fired for.

Every state-changing method keeps `Valid`. The lemma `NeverFiredEarly` then states the
scheduling guarantee: the k-th firing of a job came no earlier than `born + interval * k`.

## Model

| member | source | states |
|---|---|---|
| Jobs.Job.constructor | aiosched/aiosched.py:15-31 | A poison job (no target) gets due time 0. Any other job is scheduled for the clock reading at construction. Target, args, kwargs, interval and id are the ones given. |
| Jobs.Job.Schedule | aiosched/aiosched.py:33-39 | The due time becomes the clock reading. |
| Jobs.Job.Reschedule | aiosched/aiosched.py:41-45 | The due time grows by exactly the interval. Every other attribute is a constant, so nothing else changes. |
| Jobs.BeforeNoJob | aiosched/aiosched.py:51-52 | `__lt__` against `None` is true: any job orders before no job. |
| Jobs.BeforeIsStrictOrder | aiosched/aiosched.py:51-53 | `__lt__` is irreflexive, asymmetric and transitive, and is exactly `<` on due times. |
| Jobs.PoisonOrdersFirst | aiosched/aiosched.py:27-30 | A poison job (due at 0) orders before every real job whose due time is positive, and no such job orders before it. |
| Scheduling.EarliestExists | aiosched/aiosched.py:83 | A non-empty queue always has a job no queued job is due before, so `get` can always hand one out. |
| Scheduling.EarliestIsMinimal | aiosched/aiosched.py:51-53 | No queued job orders before the job handed out under `__lt__`. |
| Scheduling.FiringKeepsOnTime | aiosched/aiosched.py:116-122 | Firing a due real job at its due time and rescheduling it keeps its due time in step with its firing history. |
| Scheduling.OtherFiringKeepsOnTime | aiosched/aiosched.py:116-122 | Firing one job leaves the history and due time of every job with another id consistent. |
| Firings.OfMembers | aiosched/aiosched.py:122 | A job's firing history holds exactly the log entries that carry its id. |
| Firings.OfAppend | aiosched/aiosched.py:122 | Starting a target adds one entry to that job's history and to no other job's history. |
| Firings.OfAbsent | aiosched/aiosched.py:31 | A job whose fresh id appears nowhere in the log has an empty history. |
| Firings.DueClosedForm | aiosched/aiosched.py:41-45 | After n reschedules the due time is the initial time plus n intervals. |
| Firings.DueMonotone | aiosched/aiosched.py:41-45 | With a non-negative interval, due times never decrease from one firing to the next. With a negative interval they strictly decrease. |
| Firings.OnScheduleAfterFiring | aiosched/aiosched.py:116-122 | A firing at or after the due time its history gives keeps the history on schedule and lengthens it by one. |
| Firings.NeverEarly | aiosched/aiosched.py:94-95 | In an on-schedule history the k-th firing comes at or after `born + interval * k`. |
| Scheduling.Scheduler.constructor | aiosched/aiosched.py:65-71 | A new scheduler has empty waiting and cancelled sets, no queue, no event loop, no pending sleep and no stop, and it keeps the invariant. |
| Scheduling.Scheduler.NewJob | aiosched/aiosched.py:15-31 | A built job has a fresh id and the due time its constructor gives. It joins the scheduler's jobs and the invariant holds. |
| Scheduling.Scheduler.Fire | aiosched/aiosched.py:116-122 | Only while the loop runs, a due real job is rescheduled by one interval. The log gains exactly one entry, carrying its old due time and the clock. The invariant is kept. |
| Scheduling.Scheduler.Get | aiosched/aiosched.py:83 | Only at the top of a running loop that holds no job. A `get` bound to a replaced build whose old queue got no put never returns a job and changes nothing. One whose old queue got puts returns a job no job there is due before; the rest of that queue is abandoned and the current queue is untouched. Otherwise it removes one job from a non-empty current queue, a job no other queued job is due before. On an empty queue it hands out nothing, leaves the queue unchanged, and becomes bound to the current build. The job handed out is the one the cancellation check sees next. |
| Scheduling.Scheduler.Wait | aiosched/aiosched.py:83 | The `get` waits on the current build, and the invariant is kept. |
| Scheduling.Scheduler.TakeParked | aiosched/aiosched.py:83 | A `get` on a replaced queue object that holds jobs gets one no job there is due before, and the loop leaves that object for good. |
| Scheduling.Scheduler.Take | aiosched/aiosched.py:83 | A non-empty queue loses exactly one job, one no other queued job is due before, and that job is handed to the cancellation check. |
| Scheduling.Scheduler.Check | aiosched/aiosched.py:84-92 | Only for the job `get` just handed out. See the outcomes after this table. In every outcome the invariant is kept. |
| Scheduling.Scheduler.Time | aiosched/aiosched.py:94-103 | A job due later than `now` stays held, the loop sleeps and a sleep of `t - now` ticks is pending. A job already due fires once, is rescheduled by its interval and goes back on the queue, and the loop holds nothing. |
| Scheduling.Scheduler.Retry | aiosched/aiosched.py:114-125 | Only while the loop runs: a due job fires once and is rescheduled. A job not yet due keeps its due time and the log is unchanged. Either way the job is put back on the queue. |
| Scheduling.Scheduler.AfterWake | aiosched/aiosched.py:107-125 | See the outcomes after this table. In every outcome the held slot and the pending sleep are cleared, no other job's due time changes, and the invariant is kept. |
| Scheduling.Scheduler.PutJob | aiosched/aiosched.py:204-210 | When the queue exists, exactly one copy of the job is added and any pending sleep is cut short. Before that the put fails and nothing changes. |
| Scheduling.Scheduler.Cancel | aiosched/aiosched.py:212-227 | The id of the job (or the id given) is added to the cancelled set. A set insert is idempotent. Any pending sleep is cut short. |
| Scheduling.Scheduler.InitQueue | aiosched/aiosched.py:161-165 | The new queue is a new build. It holds exactly the waiting jobs, once each, so any other job queued before is discarded from it. A `get` waiting on the old build keeps the old queue's jobs. A pending sleep survives only if no job was waiting. |
| Scheduling.Scheduler.Detach | aiosched/aiosched.py:162 | A `get` waiting on the current build keeps what that queue object holds. Otherwise nothing changes. |
| Scheduling.Scheduler.Reset | aiosched/aiosched.py:162 | The queue is a new, empty object: a new build, one more than before, and the invariant is kept. |
| Scheduling.Scheduler.Rebuild | aiosched/aiosched.py:161-165 | A new build holding exactly the waiting jobs, with the sleep cut short by each put. |
| Scheduling.Scheduler.PutWaiting | aiosched/aiosched.py:163-165 | Starting from an empty queue, each waiting job is put once: every job has multiplicity 1 if it waits and 0 otherwise. |
| Scheduling.Scheduler.CancelAll | aiosched/aiosched.py:155-165 | With an event loop bound, the queue is rebuilt from the waiting jobs as a new build. A `get` waiting on the old build keeps the old queue's jobs, and it is stranded for good exactly when that queue was empty. A stranded `get` stays stranded. Without an event loop the call fails and nothing changes. |
| Scheduling.Scheduler.Create | aiosched/aiosched.py:188-202 | A fresh job is built and put on the queue, if the queue exists. |
| Scheduling.Scheduler.CreateThreadsafe | aiosched/aiosched.py:167-186 | See the two cases after this table. |
| Scheduling.Scheduler.Stop | aiosched/aiosched.py:139-153 | With a queue and an event loop, exactly one new job is queued: a poison job due at 0. Otherwise it fails ("scheduler is not started") and the queue is unchanged. |
| Scheduling.Scheduler.Start | aiosched/aiosched.py:129-137 | A given event loop is bound. Without one, the binding stays as it was. |
| Scheduling.Scheduler.EnterLoop | aiosched/aiosched.py:77-80 | The loop starts running. It builds the queue from the waiting jobs, as a new build, only when no queue exists. Otherwise the queue and its build are left alone. |
| Scheduling.Scheduler.NeverFiredEarly | aiosched/aiosched.py:94-95 | In every reachable state, each job's k-th firing happened at or after its construction time plus k intervals. |
| Scheduling.Scheduler.PoisonIsNext | aiosched/aiosched.py:27-30 | With a poison job queued and every real queued job due after time 0, the queue can hand out only a poison job. |

The outcomes of `Scheduling.Scheduler.Check` for the job just taken:

- The poison job stops the loop and sets the stop event.
- A cancelled job is dropped and its id leaves the cancelled set. It is not fired and not put back.
- Any other job is held by the loop, and the cancelled set is unchanged.

The outcomes of `Scheduling.Scheduler.AfterWake` for the held job:

- A job cancelled meanwhile is dropped.
- Otherwise the job goes back on the queue. It fires and is rescheduled exactly when its due time has come. If it is not yet due it goes back with its due time unchanged.

The two cases of `Scheduling.Scheduler.CreateThreadsafe`:

- With an event loop bound, the job is put as by `PutJob`. Before the queue exists the model drops it; the source does not (see `Scheduling.Scheduler.CreateThreadsafe` under "Left out").
- Without an event loop, the job joins the waiting set and the queue is untouched.

Behaviour of the code worth noting:

- `stop` puts the poison job through the queue's own `put`, not through `_put_job`, so it does not cut a pending sleep short.
- `create_threadsafe` falls back to the waiting set when no event loop is bound. Whether the queue exists does not decide this.
- The code has no repeat-count cap, no first-run offset and no interval clamp.
- `cancel_all` binds a new queue object. A `get` already waiting on the old queue stays
  bound to it. If a put reached the old queue first, that `get` returns its job and the
  loop goes on with the new queue. If the old queue is still empty, the `get` never
  returns, because every later put goes to the new queue. Later jobs never fire, and the
  poison job from a `stop` called after the rebuild has run is never taken. `Get` and
  `CancelAll` model both cases.
- `cancel` may run on another thread. There `self.__sleep_coro.cancel()` schedules the
  wake-up with `call_soon`, which is not thread-safe and does not wake the loop's selector,
  so the sleep usually runs to its timer anyway. The model clears `sleepPending`, which
  decides nothing else, so the model's outcomes are unaffected.

## Left out

- asyncio and threading plumbing is not modelled:
  - task creation, `run_coroutine_threadsafe` marshalling, the sleep future and its `CancelledError`, and `task_done`;
  - the `RLock`, which becomes atomic method bodies;
  - the blocking `Event.wait` in `stop`, including its timeout.
- A call marshalled onto the loop runs at once, not later on the loop thread. In the source such a call runs only while the dispatch loop waits, in `get` or in its sleep, and after every callback queued before it. The model lets it run between any two steps of the loop.
- Scheduling.Scheduler.CreateThreadsafe: after `start(loop)`, the source runs a marshalled `_put_job` after the loop's entry, which builds the queue, so the job is kept. The model's `CreateThreadsafe` runs between `Start` and `EnterLoop`, finds no queue, and drops the job.
- Scheduling.Scheduler.CancelAll: after `start(loop)`, the source runs a marshalled `_init_queue` after the loop's entry, once the loop's first `get` waits on the entry's empty queue, so that `get` is stranded. The model's `CancelAll` runs between `Start` and `EnterLoop`, builds the queue first, and nothing is stranded.
- Scheduling.Scheduler.Stop: the source takes `self.__Q` when `stop` is called and puts the poison job later, on the loop. After `cancel_all(); stop()` from another thread, `stop` takes the old queue before the marshalled rebuild runs, so the poison job lands on the queue a stranded `get` waits on and ends the loop. The model's `Stop` puts on the queue it finds at its own step. It reaches that outcome only in the order `Stop` then `CancelAll`.
- Target coroutines are never run; firing is a log entry.
- `time.perf_counter()` floats are integer ticks, and `uuid.uuid4()` is a counter.
- The clock is a parameter. `AfterWake` accepts any reading, because a natural wake-up may still find the job not due.
- `__cmp__` is not modelled: it calls `cmp`, which Python 3 lacks.
- `__gt__` is not modelled: it is not used by the priority queue and is not consistent with `__lt__` against `None`.
- Scheduling.Scheduler.Get: the heap's layout is not modelled. `Get` always hands out a job of least due time, which is what `heapq` does while the heap property holds. The source can break the heap property:
  - `__waiting` is never cleared, so a `cancel_all` while the loop sleeps on a waiting job puts that job in the queue twice;
  - `reschedule` then raises the due time of a copy still inside the heap;
  - after that the source's `get` can hand out a job that is not the earliest, which the model never does.
- Scheduling.Scheduler.Take: this is the heap pop behind `Get`, so the heap-order gap just described applies to it.
- Scheduling.Scheduler.TakeParked: this is the heap pop on a replaced queue, so the same heap-order gap applies to it.
- Only one dispatch loop is modelled. `EnterLoop` requires that none is running, so calling `start` twice is not covered.
- Exceptions raised by targets or by the event loop are not modelled. The loop ends only through the poison job.
- `aiosched/__init__.py`, `setup.py` and `tests/test.py` are not part of this model.
