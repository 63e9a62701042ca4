/** Theorems about whole runs of the thread pool. */
module PoolRuns {
  import opened PoolModel
  import opened PoolSafety

  /** Everything that every step keeps. */
  ghost predicate Inv(st: State) {
    && Counted(st) && Ordered(st) && (forall t :: Kept(st, t)) && Once(st)
    && Wakeful(st) && Waitful(st) && Keyed(st)
  }

  lemma InvStep(st: State, step: Step)
    requires Inv(st) && Enabled(st, step)
    ensures Inv(Apply(st, step))
  {
    hide Counted, Ordered, Kept, Once, Wakeful, Waitful, Keyed, Apply, Enabled;
    CountedStep(st, step);
    OrderedStep(st, step);
    forall t ensures Kept(Apply(st, step), t) { KeptStep(st, step, t); }
    OnceStep(st, step);
    WakefulStep(st, step);
    WaitfulStep(st, step);
    KeyedStep(st, step);
  }

  lemma {:induction false} AllBusy(ws: seq<Worker>)
    requires forall i :: 0 <= i < |ws| ==> ws[i].Starting?
    ensures Sum(Busy, ws) == |ws|
  {
    if ws != [] {
      AllBusy(ws[1..]);
    }
  }

  lemma InitialInv(n: nat)
    ensures Inv(Initial(n))
  {
    var st := Initial(n);
    AllBusy(st.workers);
    forall t ensures Kept(st, t) {
      SumZero(Holding(t), st.workers);
    }
  }

  lemma {:induction false} RunKeeps(st: State, steps: seq<Step>)
    requires Inv(st) && Runs(st, steps)
    ensures Inv(After(st, steps))
    decreases steps
  {
    hide Inv, Enabled, Apply;
    if steps != [] {
      InvStep(st, steps[0]);
      RunKeeps(Apply(st, steps[0]), steps[1..]);
    }
  }

  /** A state that some run of a pool of `n` threads reaches. */
  ghost predicate Reachable(n: nat, st: State) {
    exists steps :: Runs(Initial(n), steps) && After(Initial(n), steps) == st
  }

  lemma ReachableInv(n: nat, st: State)
    requires Reachable(n, st)
    ensures Inv(st)
  {
    var steps :| Runs(Initial(n), steps) && After(Initial(n), steps) == st;
    InitialInv(n);
    hide Inv, Runs, After, Initial;
    RunKeeps(Initial(n), steps);
  }

  /** No interleaving is ruled out: whatever a thread can do next is a step. A function may
      return or throw, every sleeper may wake up for no reason, a notification may go to any
      sleeper, and anybody may submit at any time. */
  lemma AnyThreadNext(st: State, w: nat, t: Task, key: nat)
    ensures Enabled(st, Admit(key)) && (t in st.admitted ==> Enabled(st, Enqueue(t)))
    ensures st.waiter.Idle? ==> Enabled(st, CallWait)
    ensures st.waiter.WaitAsleep? ==> Enabled(st, WaiterSpurious) && Apply(st, WaiterSpurious).waiter.WaitNotified?
    ensures st.waiter.WaitNotified? ==> Enabled(st, WaiterWake)
    ensures w < |st.workers| ==>
            match st.workers[w]
            case Starting => Enabled(st, Retire(w))
            case Asleep => Enabled(st, Spurious(w)) && (st.notifies > 0 ==> Enabled(st, NotifyOne(w)))
            case Notified => Enabled(st, Wake(w))
            case Executing(_) => Enabled(st, Return(w)) && Enabled(st, Throw(w))
            case Erasing(_) => Enabled(st, Erase(w))
            case Finished => Enabled(st, Retire(w))
  {
  }

  // ---------------------------------------------------------------- safety

  /** Every submitted task is in exactly one place: queued, in the hands of one worker, or
      done once. Tasks start in the order of submission, each at most once. */
  lemma OnePlace(n: nat, st: State, t: Task)
    requires Reachable(n, st) && t in st.submitted
    ensures Times(t, st.queue) + Sum(Holding(t), st.workers) + Times(t, st.done) == 1
    ensures st.started <= st.submitted && Times(t, st.started) <= 1
  {
    ReachableInv(n, st);
    assert Kept(st, t);
    hide Reachable, Keyed, Wakeful, Waitful, Counted, Sum;
    TimesOnce(t, st.submitted);
    TimesParts(t, st.started, st.queue);
    TimesParts(t, [], st.submitted);
  }

  /** `tasks_running` is the number of starting or executing workers, and a worker that is
      about to decrement it finds it positive. */
  lemma RunningCounts(n: nat, st: State)
    requires Reachable(n, st)
    ensures 0 <= st.running == Sum(Busy, st.workers)
    ensures forall w :: Enabled(st, Retire(w)) ==> st.running >= 1
  {
    ReachableInv(n, st);
    hide Reachable, Keyed, Once;
    forall w | Enabled(st, Retire(w)) ensures st.running >= 1 {
      Underflow(st, w);
    }
  }

  lemma NoneHeld(ws: seq<Worker>, t: Task)
    requires Sum(Busy, ws) == 0
    ensures Sum(Holding(t), ws) == 0
  {
    forall i | 0 <= i < |ws| ensures Holding(t)(ws[i]) == 0 {
      SumAtLeast(Busy, ws, i);
    }
    SumZero(Holding(t), ws);
  }

  /** When `wait` returns, every task submitted so far is done. */
  lemma WaitReturns(n: nat, st: State, step: Step, t: Task)
    requires Reachable(n, st) && (step.CallWait? || step.WaiterWake?) && Enabled(st, step)
    requires Apply(st, step).waiter.Idle? && t in st.submitted
    ensures Times(t, st.done) == 1
  {
    OnePlace(n, st, t);
    RunningCounts(n, st);
    NoneHeld(st.workers, t);
  }

  /** A call of `wait`, and every look of a woken one: it returns exactly when no task is
      queued, starting or executing, and sleeps otherwise; nothing else changes. */
  lemma WaitLooks(n: nat, st: State, step: Step)
    requires Reachable(n, st)
    requires (step.CallWait? && st.waiter.Idle?) || (step.WaiterWake? && st.waiter.WaitNotified?)
    ensures Enabled(st, step)
    ensures var st' := Apply(st, step);
            var quiet := st.queue == [] && forall i :: 0 <= i < |st.workers| ==>
                                             st.workers[i].Asleep? || st.workers[i].Notified?;
            st' == st.(waiting := !quiet, waiter := if quiet then Idle else WaitAsleep)
  {
    RunningCounts(n, st);
    if forall i :: 0 <= i < |st.workers| ==> st.workers[i].Asleep? || st.workers[i].Notified? {
      SumZero(Busy, st.workers);
    } else {
      var i :| 0 <= i < |st.workers| && !(st.workers[i].Asleep? || st.workers[i].Notified?);
      SumAtLeast(Busy, st.workers, i);
    }
  }

  /** No lost wake-up: neither does the waiter sleep while everything is quiet, nor do all
      workers sleep over a queued task that nobody is about to announce. */
  lemma NoLostWakeup(n: nat, st: State)
    requires Reachable(n, st)
    ensures !(st.waiter.WaitAsleep? && AllQuiet(st))
    ensures st.queue != [] && AnyAsleep(st.workers) ==>
            st.notifies > 0 || exists i :: 0 <= i < |st.workers| && st.workers[i].Notified?
  {
    ReachableInv(n, st);
    hide Reachable, Keyed, Once;
    if st.notifies == 0 && !(exists i :: 0 <= i < |st.workers| && st.workers[i].Notified?) {
      SumZero(Woken, st.workers);
    }
  }

  // ---------------------------------------------------------------- keys

  /** For every key at most one task lies between the key test and the end of its function. */
  lemma OneTaskPerKey(n: nat, st: State, t: Task, u: Task)
    requires Reachable(n, st) && InFlight(st, t) && InFlight(st, u) && t.key == u.key != 0
    ensures t == u
  {
    ReachableInv(n, st);
    hide InFlight, Reachable;
  }

  /** A key is pending exactly while it has such a task or belongs to a function that threw. */
  lemma PendingExactly(n: nat, st: State, key: nat)
    requires Reachable(n, st) && key != 0
    ensures key in st.pendingKeys <==> key in st.stuck || exists t :: InFlight(st, t) && t.key == key
  {
    ReachableInv(n, st);
    hide InFlight, Reachable;
  }

  /** Nowhere in the pool, and never handed to it. */
  ghost predicate Nowhere(st: State, t: Task) {
    !InFlight(st, t) && t !in st.submitted && t !in st.started && t !in st.done
  }

  lemma NextIsNowhere(st: State, key: nat)
    requires Inv(st)
    ensures Nowhere(st, Task(st.nextId, key))
  {
    var t := Task(st.nextId, key);
    assert Kept(st, t);
    hide Keyed, Wakeful, Waitful, Counted;
    assert t !in st.submitted;
    assert t !in st.started && t !in st.queue;
    assert Times(t, st.started) == 0;
    if Held(st.workers, t) {
      var i :| 0 <= i < |st.workers| && (st.workers[i].Executing? || st.workers[i].Erasing?)
               && st.workers[i].task == t;
      SumAtLeast(Holding(t), st.workers, i);
    }
  }

  /** A submission is refused exactly when it has a key and a function with that key is in
      flight or has thrown; otherwise exactly one task that was nowhere before, with that
      key, is in flight. */
  lemma AdmitExactly(n: nat, st: State, key: nat)
    requires Reachable(n, st)
    ensures var st' := Apply(st, Admit(key));
            if key != 0 && (key in st.stuck || exists t :: InFlight(st, t) && t.key == key) then st' == st
            else
              && st' != st
              && exists t :: Nowhere(st, t) && t.key == key && t in st'.admitted
                             && (forall u :: InFlight(st', u) <==> InFlight(st, u) || u == t)
                             && st'.submitted == st.submitted && st'.done == st.done && st'.stuck == st.stuck
  {
    ReachableInv(n, st);
    if key != 0 { PendingExactly(n, st, key); }
    var st', t := Apply(st, Admit(key)), Task(st.nextId, key);
    NextIsNowhere(st, key);
    if key == 0 || key !in st.pendingKeys {
      forall u ensures InFlight(st', u) <==> InFlight(st, u) || u == t {
        hide Held;
      }
      hide Inv, Reachable, InFlight;
      assert t in st'.admitted;
    }
  }

  /** No task in flight. */
  ghost predicate Drained(st: State) {
    st.admitted == {} && st.queue == [] && Sum(Busy, st.workers) == 0
  }

  /** A drained pool has only the keys of functions that threw, so none when none did. */
  lemma DrainedKeys(n: nat, st: State)
    requires Reachable(n, st) && Drained(st)
    ensures st.pendingKeys == st.stuck
  {
    ReachableInv(n, st);
    forall t ensures !InFlight(st, t) {
      forall i | 0 <= i < |st.workers| ensures Busy(st.workers[i]) == 0 {
        SumAtLeast(Busy, st.workers, i);
      }
    }
    hide InFlight, Reachable, Sum;
  }

  /** Some step of the run is a throw out of a task with a key. */
  predicate ThrowsKey(st: State, steps: seq<Step>)
    requires Runs(st, steps)
    decreases steps
  {
    steps != []
    && ((steps[0].Throw? && st.workers[steps[0].worker].task.key != 0) || ThrowsKey(Apply(st, steps[0]), steps[1..]))
  }

  lemma StuckStep(st: State, step: Step)
    requires Enabled(st, step)
    ensures Apply(st, step).stuck == {} <==> st.stuck == {} && !(step.Throw? && st.workers[step.worker].task.key != 0)
  {
    hide AnyAsleep;
    if step.Throw? {
      var key := st.workers[step.worker].task.key;
      if key != 0 { assert key in Apply(st, step).stuck; }
    }
  }

  lemma {:induction false} StuckExactly(st: State, steps: seq<Step>)
    requires Runs(st, steps)
    ensures After(st, steps).stuck == {} <==> st.stuck == {} && !ThrowsKey(st, steps)
    decreases steps
  {
    if steps != [] {
      StuckStep(st, steps[0]);
      hide Enabled, Apply;
      StuckExactly(Apply(st, steps[0]), steps[1..]);
    }
  }

  /** Some step of the run is a throw out of a task with this key. */
  predicate Threw(st: State, steps: seq<Step>, key: nat)
    requires Runs(st, steps)
    decreases steps
  {
    steps != []
    && ((steps[0].Throw? && st.workers[steps[0].worker].task.key == key) || Threw(Apply(st, steps[0]), steps[1..], key))
  }

  lemma {:induction false} ThrewExactly(st: State, steps: seq<Step>, key: nat)
    requires Runs(st, steps) && key != 0
    ensures key in After(st, steps).stuck <==> key in st.stuck || Threw(st, steps, key)
    decreases steps
  {
    if steps != [] {
      var next := Apply(st, steps[0]);
      assert key in next.stuck
             <==> key in st.stuck || (steps[0].Throw? && st.workers[steps[0].worker].task.key == key);
      hide Enabled, Apply;
      ThrewExactly(next, steps[1..], key);
    }
  }

  /** After any run a submission changes nothing exactly when it has a key, and a function with
      that key is in flight or threw in the run. */
  lemma RefusedExactly(n: nat, steps: seq<Step>, key: nat)
    requires Runs(Initial(n), steps)
    ensures var st := After(Initial(n), steps);
            Apply(st, Admit(key)) == st
            <==> key != 0 && (Threw(Initial(n), steps, key) || exists t :: InFlight(st, t) && t.key == key)
  {
    var st := After(Initial(n), steps);
    assert Reachable(n, st);
    AdmitExactly(n, st, key);
    if key != 0 { ThrewExactly(Initial(n), steps, key); }
    hide Apply, InFlight, Nowhere, Threw, After, Runs, Reachable;
  }

  /** A drained pool has no pending keys exactly when no function with a key threw. */
  lemma DrainedPool(n: nat, steps: seq<Step>)
    requires Runs(Initial(n), steps) && Drained(After(Initial(n), steps))
    ensures After(Initial(n), steps).pendingKeys == {} <==> !ThrowsKey(Initial(n), steps)
  {
    StuckExactly(Initial(n), steps);
    DrainedKeys(n, After(Initial(n), steps));
  }

  lemma RunStep(st: State, step: Step, rest: seq<Step>)
    requires Enabled(st, step) && Runs(Apply(st, step), rest)
    ensures Runs(st, [step] + rest) && After(st, [step] + rest) == After(Apply(st, step), rest)
  {
    assert ([step] + rest)[1..] == rest;
  }

  /** A run of one thread whose only task, with key 7, throws: the pool is drained and the
      key is still pending. */
  lemma ThrownKeyStays()
    ensures var steps := [Retire(0), Admit(7), Enqueue(Task(0, 7)), NotifyOne(0), Wake(0), Throw(0), Retire(0)];
            && Runs(Initial(1), steps) && Drained(After(Initial(1), steps))
            && After(Initial(1), steps).pendingKeys == {7}
  {
    var t := Task(0, 7);
    var s0 := Initial(1);
    assert s0.workers == [Starting];
    var s1 := State([], 0, false, {}, [Asleep], Idle, {}, 0, 0, [], [], [], {});
    assert Apply(s0, Retire(0)) == s1;
    var s2 := s1.(pendingKeys := {7}, admitted := {t}, nextId := 1);
    assert Apply(s1, Admit(7)) == s2;
    var s3 := s2.(admitted := {}, queue := [t], submitted := [t], notifies := 1);
    assert Apply(s2, Enqueue(t)) == s3;
    var s4 := s3.(notifies := 0, workers := [Notified]);
    assert Apply(s3, NotifyOne(0)) == s4;
    var s5 := s4.(workers := [Executing(t)], queue := [], started := [t], running := 1);
    assert Apply(s4, Wake(0)) == s5;
    var s6 := s5.(workers := [Finished], done := [t], stuck := {7});
    assert Apply(s5, Throw(0)) == s6;
    var s7 := s6.(workers := [Asleep], running := 0);
    assert Apply(s6, Retire(0)) == s7;
    assert Sum(Busy, s7.workers) == 0;
    hide Apply;
    RunStep(s6, Retire(0), []);
    RunStep(s5, Throw(0), [Retire(0)]);
    RunStep(s4, Wake(0), [Throw(0), Retire(0)]);
    RunStep(s3, NotifyOne(0), [Wake(0), Throw(0), Retire(0)]);
    RunStep(s2, Enqueue(t), [NotifyOne(0), Wake(0), Throw(0), Retire(0)]);
    RunStep(s1, Admit(7), [Enqueue(t), NotifyOne(0), Wake(0), Throw(0), Retire(0)]);
    RunStep(s0, Retire(0), [Admit(7), Enqueue(t), NotifyOne(0), Wake(0), Throw(0), Retire(0)]);
  }

  /** The key of a function that threw is refused for the rest of the run. */
  lemma {:induction false} StuckForever(st: State, steps: seq<Step>, key: nat)
    requires Inv(st) && Runs(st, steps) && key in st.stuck
    ensures var end := After(st, steps); key in end.stuck && key != 0 && Apply(end, Admit(key)) == end
    decreases steps
  {
    hide InFlight, Counted, Once, Wakeful, Kept;
    if steps != [] {
      InvStep(st, steps[0]);
      assert key in Apply(st, steps[0]).stuck;
      hide Inv, Apply, Enabled;
      StuckForever(Apply(st, steps[0]), steps[1..], key);
    }
  }
}
