/** The pool always drains: its own steps cannot go on for ever, and when none is left
    every task is done and the waiter has returned. */
module PoolProgress {
  import opened PoolModel
  import opened PoolSafety
  import opened PoolRuns

  /** Steps that the pool's threads owe, unlike new submissions, new calls of `wait` and
      wake-ups for no reason. */
  predicate Owed(step: Step) {
    !(step.Admit? || step.CallWait? || step.Spurious? || step.WaiterSpurious?)
  }

  function Weight(w: Worker): nat {
    match w
    case Starting => 2
    case Asleep => 0
    case Notified => 1
    case Executing(_) => 4
    case Erasing(_) => 3
    case Finished => 2
  }

  /** How much is left to do. */
  function Measure(st: State): nat {
    7 * |st.admitted| + 4 * |st.queue| + 2 * st.notifies + Sum(Weight, st.workers)
    + if st.waiter.WaitNotified? then 1 else 0
  }

  lemma LookDrops(st: State, w: nat)
    requires w < |st.workers| && Weight(st.workers[w]) > 0
    ensures Measure(Look(st, w)) <= Measure(st) - (if st.queue == [] then Weight(st.workers[w]) else 1)
  {
    hide Sum;
    SumUpdate(Weight, st.workers, w, Asleep);
    if st.queue != [] { SumUpdate(Weight, st.workers, w, Executing(st.queue[0])); }
  }

  /** Every owed step leaves less to do. */
  lemma MeasureDrops(st: State, step: Step)
    requires Enabled(st, step) && Owed(step)
    ensures Measure(Apply(st, step)) < Measure(st)
  {
    hide Sum, Look, AnyAsleep;
    match step
    case Enqueue(t) =>
    case NotifyOne(w) => SumUpdate(Weight, st.workers, w, Notified);
    case Retire(w) => LookDrops(CountDown(st), w);
    case Wake(w) => LookDrops(st, w);
    case Return(w) =>
      SumUpdate(Weight, st.workers, w, Finished);
      SumUpdate(Weight, st.workers, w, Erasing(st.workers[w].task));
    case Throw(w) => SumUpdate(Weight, st.workers, w, Finished);
    case Erase(w) => SumUpdate(Weight, st.workers, w, Finished);
    case WaiterWake =>
  }

  ghost predicate AllOwed(steps: seq<Step>) {
    forall i :: 0 <= i < |steps| ==> Owed(steps[i])
  }

  /** Nothing is owed any more. */
  ghost predicate Settled(st: State) {
    forall step :: Owed(step) ==> !Enabled(st, step)
  }

  lemma {:induction false} OwedRunsEnd(st: State, steps: seq<Step>)
    requires Runs(st, steps) && AllOwed(steps)
    ensures |steps| <= Measure(st)
    decreases steps
  {
    if steps != [] {
      MeasureDrops(st, steps[0]);
      hide Enabled, Apply, Measure, Owed;
      OwedRunsEnd(Apply(st, steps[0]), steps[1..]);
    }
  }

  lemma {:induction false} SomeRunSettles(st: State) returns (steps: seq<Step>)
    ensures Runs(st, steps) && AllOwed(steps) && Settled(After(st, steps))
    decreases Measure(st)
  {
    hide Enabled, Apply, Measure, Owed;
    if Settled(st) {
      steps := [];
    } else {
      var step :| Owed(step) && Enabled(st, step);
      MeasureDrops(st, step);
      var rest := SomeRunSettles(Apply(st, step));
      steps := [step] + rest;
      assert steps[1..] == rest;
    }
  }

  lemma {:induction false} SameThreads(st: State, steps: seq<Step>)
    requires Runs(st, steps)
    ensures |After(st, steps).workers| == |st.workers|
    decreases steps
  {
    if steps != [] {
      assert |Apply(st, steps[0]).workers| == |st.workers|;
      hide Enabled, Apply;
      SameThreads(Apply(st, steps[0]), steps[1..]);
    }
  }

  /** A settled worker sleeps. */
  lemma SettledSleeps(st: State, w: nat)
    requires Settled(st) && w < |st.workers|
    ensures st.workers[w].Asleep?
  {
    hide AnyAsleep;
    assert !Enabled(st, Retire(w)) && !Enabled(st, Wake(w)) && !Enabled(st, Return(w)) && !Enabled(st, Erase(w));
  }

  lemma SettledIsQuiet(st: State)
    requires Inv(st) && Settled(st) && |st.workers| > 0
    ensures Drained(st) && st.notifies == 0 && st.waiter.Idle?
  {
    forall i | 0 <= i < |st.workers| ensures st.workers[i].Asleep? {
      SettledSleeps(st, i);
    }
    assert st.workers[0].Asleep?;
    SumZero(Woken, st.workers);
    SumZero(Busy, st.workers);
    assert !Enabled(st, NotifyOne(0));
    assert !Enabled(st, WaiterWake);
    forall t ensures t !in st.admitted { assert !Enabled(st, Enqueue(t)); }
    hide Keyed, Once, Kept, Ordered;
  }

  lemma {:induction false} AcceptedStays(st: State, steps: seq<Step>, t: Task)
    requires Runs(st, steps) && (t in st.admitted || t in st.submitted)
    ensures t in After(st, steps).admitted || t in After(st, steps).submitted
    decreases steps
  {
    if steps != [] {
      var next := Apply(st, steps[0]);
      assert t in next.admitted || t in next.submitted;
      hide Enabled, Apply;
      AcceptedStays(next, steps[1..], t);
    }
  }

  lemma {:induction false} RunConcat(st: State, x: seq<Step>, y: seq<Step>)
    requires Runs(st, x) && Runs(After(st, x), y)
    ensures Runs(st, x + y) && After(st, x + y) == After(After(st, x), y)
    decreases x
  {
    hide Enabled, Apply;
    if x == [] {
      assert x + y == y;
    } else {
      assert (x + y)[1..] == x[1..] + y;
      RunConcat(Apply(st, x[0]), x[1..], y);
    }
  }

  lemma ReachableOn(n: nat, st: State, steps: seq<Step>)
    requires Reachable(n, st) && Runs(st, steps)
    ensures Reachable(n, After(st, steps)) && |After(st, steps).workers| == n
  {
    var before :| Runs(Initial(n), before) && After(Initial(n), before) == st;
    hide Runs, After;
    RunConcat(Initial(n), before, steps);
    SameThreads(Initial(n), before + steps);
  }

  /** However the owed steps of a reachable state are interleaved, they end after at most
      `Measure` steps; then every task accepted so far is done exactly once, all workers
      sleep and the waiter has returned. */
  lemma PoolDrains(n: nat, st: State, steps: seq<Step>, t: Task)
    requires n > 0 && Reachable(n, st) && Runs(st, steps) && AllOwed(steps) && Settled(After(st, steps))
    requires t in st.admitted || t in st.submitted
    ensures |steps| <= Measure(st)
    ensures var end := After(st, steps);
            Drained(end) && end.waiter.Idle? && t in end.submitted && Times(t, end.done) == 1
  {
    hide Runs, After, Settled, Measure, AllOwed, Reachable, Sum;
    var end := After(st, steps);
    OwedRunsEnd(st, steps);
    ReachableOn(n, st, steps);
    ReachableInv(n, end);
    SettledIsQuiet(end);
    AcceptedStays(st, steps, t);
    OnePlace(n, end, t);
    NoneHeld(end.workers, t);
  }

  /** A submission that is not refused is done exactly once: whatever happens after it, and
      however the steps that are owed then are interleaved. */
  lemma SubmissionDone(n: nat, st: State, key: nat, more: seq<Step>, owed: seq<Step>)
    requires n > 0 && Reachable(n, st)
    requires key == 0 || (key !in st.stuck && !exists t :: InFlight(st, t) && t.key == key)
    requires Runs(Apply(st, Admit(key)), more)
    requires Runs(After(Apply(st, Admit(key)), more), owed) && AllOwed(owed)
    requires Settled(After(After(Apply(st, Admit(key)), more), owed))
    ensures var end := After(After(Apply(st, Admit(key)), more), owed);
            exists t :: Nowhere(st, t) && t.key == key && t in end.submitted && Times(t, end.done) == 1
  {
    var next := Apply(st, Admit(key));
    AdmitExactly(n, st, key);
    OneStep(n, st, Admit(key));
    var t :| Nowhere(st, t) && t.key == key && t in next.admitted;
    hide Apply, InFlight, Nowhere, After, Runs, Reachable, Settled, AllOwed, Times;
    ReachableOn(n, next, more);
    AcceptedStays(next, more, t);
    PoolDrains(n, After(next, more), owed, t);
  }

  lemma OneStep(n: nat, st: State, step: Step)
    requires Reachable(n, st) && Enabled(st, step)
    ensures Reachable(n, Apply(st, step))
  {
    hide Apply, Enabled, Reachable;
    RunOne(st, step);
    hide Runs, After;
    ReachableOn(n, st, [step]);
  }

  lemma RunOne(st: State, step: Step)
    requires Enabled(st, step)
    ensures Runs(st, [step]) && After(st, [step]) == Apply(st, step)
  {
    hide Apply, Enabled;
    var rest: seq<Step> := [];
    var next := Apply(st, step);
    assert [step][0] == step && [step][1..] == rest;
    assert Runs(next, rest) && After(next, rest) == next;
  }
}
