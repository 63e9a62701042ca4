/** The thread pool and the keyed de-duplication on top of it, as a state machine whose
    steps are the sections that run under a mutex, the notifications between them and
    the tasks themselves. */
module PoolModel {

  /** A submitted function. `id` tells submissions apart; key 0 means no key. */
  datatype Task = Task(id: nat, key: nat)

  /** A worker thread: before its first pass through the loop, asleep on the condition
      variable, woken up, running a function, about to forget the key of a function that
      returned, or back from a task. */
  datatype Worker = Starting | Asleep | Notified | Executing(task: Task) | Erasing(task: Task) | Finished

  /** The thread in `wait`. */
  datatype Waiter = Idle | WaitAsleep | WaitNotified

  /** Shared fields (`queue`, `running`, `waiting`, `pendingKeys`), threads, and the
      history of tasks. `admitted` are tasks past the key test and not yet queued,
      `notifies` counts submitters between the queue and their `notify_one`. */
  datatype State = State(
    queue: seq<Task>, running: int, waiting: bool, pendingKeys: set<nat>,
    workers: seq<Worker>, waiter: Waiter, admitted: set<Task>, notifies: nat, nextId: nat,
    submitted: seq<Task>, started: seq<Task>, done: seq<Task>, stuck: set<nat>)

  datatype Step =
    | Admit(key: nat)           // ThreadPool::submit_task up to the end of its own lock
    | Enqueue(task: Task)       // detach_task's locked section
    | NotifyOne(worker: nat)    // detach_task's notify_one, waking this worker
    | Retire(worker: nat)       // the worker's locked section after start-up or a task
    | Wake(worker: nat)         // a woken worker looks at the queue
    | Return(worker: nat)       // the function returns
    | Throw(worker: nat)        // the function throws
    | Erase(worker: nat)        // the key is taken out of pending_keys
    | Spurious(worker: nat)     // a worker wakes up for no reason
    | CallWait                  // wait() is entered
    | WaiterWake                // the woken waiter looks again
    | WaiterSpurious            // the waiter wakes up for no reason

  predicate AnyAsleep(ws: seq<Worker>) {
    exists i :: 0 <= i < |ws| && ws[i].Asleep?
  }

  predicate Enabled(st: State, step: Step) {
    match step
    case Admit(_) => true
    case Enqueue(t) => t in st.admitted
    case NotifyOne(w) => st.notifies > 0 && w < |st.workers| && (st.workers[w].Asleep? || !AnyAsleep(st.workers))
    case Retire(w) => w < |st.workers| && (st.workers[w].Starting? || st.workers[w].Finished?)
    case Wake(w) => w < |st.workers| && st.workers[w].Notified?
    case Return(w) => w < |st.workers| && st.workers[w].Executing?
    case Throw(w) => w < |st.workers| && st.workers[w].Executing?
    case Erase(w) => w < |st.workers| && st.workers[w].Erasing?
    case Spurious(w) => w < |st.workers| && st.workers[w].Asleep?
    case CallWait => st.waiter.Idle?
    case WaiterWake => st.waiter.WaitNotified?
    case WaiterSpurious => st.waiter.WaitAsleep?
  }

  /** The condition that `wait` waits for. */
  predicate AllQuiet(st: State) {
    st.running == 0 && st.queue == []
  }

  /** Worker `w` holds the lock and looks at the queue: it takes the first task or sleeps. */
  function Look(st: State, w: nat): State
    requires w < |st.workers|
  {
    if st.queue == [] then st.(workers := st.workers[w := Asleep])
    else st.(workers := st.workers[w := Executing(st.queue[0])], queue := st.queue[1..],
             started := st.started + [st.queue[0]], running := st.running + 1)
  }

  /** One task less; the waiter is told when that was the last one. */
  function CountDown(st: State): State {
    var after := st.(running := st.running - 1);
    if after.waiting && AllQuiet(after) && after.waiter.WaitAsleep? then after.(waiter := WaitNotified) else after
  }

  /** The locked part of `wait`, entered or woken. */
  function LookAround(st: State): State {
    if AllQuiet(st) then st.(waiting := false, waiter := Idle) else st.(waiting := true, waiter := WaitAsleep)
  }

  function Apply(st: State, step: Step): State
    requires Enabled(st, step)
  {
    match step
    case Admit(key) =>
      if key != 0 && key in st.pendingKeys then st
      else st.(pendingKeys := if key == 0 then st.pendingKeys else st.pendingKeys + {key},
               admitted := st.admitted + {Task(st.nextId, key)}, nextId := st.nextId + 1)
    case Enqueue(t) =>
      st.(admitted := st.admitted - {t}, queue := st.queue + [t], submitted := st.submitted + [t],
          notifies := st.notifies + 1)
    case NotifyOne(w) =>
      st.(notifies := st.notifies - 1,
          workers := if st.workers[w].Asleep? then st.workers[w := Notified] else st.workers)
    case Retire(w) => Look(CountDown(st), w)
    case Wake(w) => Look(st, w)
    case Return(w) =>
      var t := st.workers[w].task;
      if t.key == 0 then st.(workers := st.workers[w := Finished], done := st.done + [t])
      else st.(workers := st.workers[w := Erasing(t)])
    case Throw(w) =>
      var t := st.workers[w].task;
      st.(workers := st.workers[w := Finished], done := st.done + [t],
          stuck := if t.key == 0 then st.stuck else st.stuck + {t.key})
    case Erase(w) =>
      var t := st.workers[w].task;
      st.(workers := st.workers[w := Finished], done := st.done + [t], pendingKeys := st.pendingKeys - {t.key})
    case Spurious(w) => st.(workers := st.workers[w := Notified])
    case CallWait => LookAround(st)
    case WaiterWake => LookAround(st)
    case WaiterSpurious => st.(waiter := WaitNotified)
  }

  /** A pool of `n` threads just after `create_threads`. */
  function Initial(n: nat): State {
    State([], n, false, {}, seq(n, _ => Starting), Idle, {}, 0, 0, [], [], [], {})
  }

  /** Every step of a run is enabled where it happens. */
  predicate Runs(st: State, steps: seq<Step>)
    decreases steps
  {
    steps == [] || (Enabled(st, steps[0]) && Runs(Apply(st, steps[0]), steps[1..]))
  }

  function After(st: State, steps: seq<Step>): State
    requires Runs(st, steps)
    decreases steps
  {
    if steps == [] then st else After(Apply(st, steps[0]), steps[1..])
  }

  // ---------------------------------------------------------------- sums over the workers

  function Sum(f: Worker -> nat, ws: seq<Worker>): nat {
    if ws == [] then 0 else f(ws[0]) + Sum(f, ws[1..])
  }

  lemma {:induction false} SumUpdate(f: Worker -> nat, ws: seq<Worker>, i: nat, w: Worker)
    requires i < |ws|
    ensures Sum(f, ws[i := w]) + f(ws[i]) == Sum(f, ws) + f(w)
  {
    if i == 0 {
      assert ws[0 := w][1..] == ws[1..];
    } else {
      assert ws[i := w][1..] == ws[1..][i - 1 := w];
      SumUpdate(f, ws[1..], i - 1, w);
    }
  }

  lemma {:induction false} SumAtLeast(f: Worker -> nat, ws: seq<Worker>, i: nat)
    requires i < |ws|
    ensures Sum(f, ws) >= f(ws[i])
  {
    if i > 0 {
      SumAtLeast(f, ws[1..], i - 1);
    }
  }

  lemma {:induction false} SumZero(f: Worker -> nat, ws: seq<Worker>)
    requires forall i :: 0 <= i < |ws| ==> f(ws[i]) == 0
    ensures Sum(f, ws) == 0
  {
    if ws != [] {
      SumZero(f, ws[1..]);
    }
  }

  /** Workers that `tasks_running` counts. */
  function Busy(w: Worker): nat {
    if w.Asleep? || w.Notified? then 0 else 1
  }

  function Woken(w: Worker): nat {
    if w.Notified? then 1 else 0
  }

  /** Counts the workers that have task `t` in hand. */
  function Holding(t: Task): Worker -> nat {
    (w: Worker) => if (w.Executing? || w.Erasing?) && w.task == t then 1 else 0
  }

  /** How often `t` occurs. */
  function Times(t: Task, s: seq<Task>): nat {
    multiset(s)[t]
  }
}
