/** Sleeping producers and consumers of the blocking queue: no wake-up is lost, although
    every call notifies one sleeper only after it has released the lock. */
module QueueWakeups {
  import BlockingQueue

  /** How many items are stored, how many calls are between their locked section and their
      notification, and how many threads sleep or have been woken on either side. */
  datatype State = State(
    size: nat, capacity: nat, pushNotifies: nat, popNotifies: nat,
    takersAsleep: nat, takersWoken: nat, puttersAsleep: nat, puttersWoken: nat)

  datatype Step =
    | Put             // `enqueue` takes the lock
    | PutAgain        // a woken producer looks again
    | PutNowait       // `enqueue_nowait`
    | PutIfRoom       // `enqueue_if_have_room`
    | Take            // `dequeue` takes the lock
    | TakeAgain       // a woken consumer looks again
    | TakeTimeout     // a sleeping `dequeue_for` times out and looks for the last time
    | TakeGiveUp      // a woken `dequeue_for` finds nothing and its time is up
    | NotifyPush      // push_cv_.notify_one
    | NotifyPop       // pop_cv_.notify_one
    | WakeTaker       // a consumer wakes up for no reason
    | WakePutter      // a producer wakes up for no reason

  predicate Enabled(st: State, step: Step) {
    match step
    case PutAgain => st.puttersWoken > 0
    case TakeAgain => st.takersWoken > 0
    case TakeTimeout => st.takersAsleep > 0
    case TakeGiveUp => st.takersWoken > 0 && st.size == 0
    case NotifyPush => st.pushNotifies > 0
    case NotifyPop => st.popNotifies > 0
    case WakeTaker => st.takersAsleep > 0
    case WakePutter => st.puttersAsleep > 0
    case _ => true
  }

  function Stored(st: State): State {
    st.(size := st.size + 1, pushNotifies := st.pushNotifies + 1)
  }

  function Taken(st: State): State
    requires st.size > 0
  {
    st.(size := st.size - 1, popNotifies := st.popNotifies + 1)
  }

  function PutLook(st: State): State {
    if st.size < st.capacity then Stored(st) else st.(puttersAsleep := st.puttersAsleep + 1)
  }

  function TakeLook(st: State): State {
    if st.size > 0 then Taken(st) else st.(takersAsleep := st.takersAsleep + 1)
  }

  function Apply(st: State, step: Step): State
    requires Enabled(st, step)
  {
    match step
    case Put => PutLook(st)
    case PutAgain => PutLook(st.(puttersWoken := st.puttersWoken - 1))
    case PutNowait => if st.size < st.capacity then Stored(st) else st.(pushNotifies := st.pushNotifies + 1)
    case PutIfRoom => if st.size < st.capacity then Stored(st) else st
    case Take => TakeLook(st)
    case TakeAgain => TakeLook(st.(takersWoken := st.takersWoken - 1))
    case TakeTimeout =>
      var awake := st.(takersAsleep := st.takersAsleep - 1);
      if st.size > 0 then Taken(awake) else awake
    case TakeGiveUp => st.(takersWoken := st.takersWoken - 1)
    case NotifyPush =>
      if st.takersAsleep == 0 then st.(pushNotifies := st.pushNotifies - 1)
      else st.(pushNotifies := st.pushNotifies - 1, takersAsleep := st.takersAsleep - 1,
               takersWoken := st.takersWoken + 1)
    case NotifyPop =>
      if st.puttersAsleep == 0 then st.(popNotifies := st.popNotifies - 1)
      else st.(popNotifies := st.popNotifies - 1, puttersAsleep := st.puttersAsleep - 1,
               puttersWoken := st.puttersWoken + 1)
    case WakeTaker => st.(takersAsleep := st.takersAsleep - 1, takersWoken := st.takersWoken + 1)
    case WakePutter => st.(puttersAsleep := st.puttersAsleep - 1, puttersWoken := st.puttersWoken + 1)
  }

  predicate Runs(st: State, steps: seq<Step>)
    decreases steps
  {
    steps == [] || (Enabled(st, steps[0]) && Runs(Apply(st, steps[0]), steps[1..]))
  }

  function After(st: State, steps: seq<Step>): State
    requires Runs(st, steps)
    decreases steps
  {
    if steps == [] then st else After(Apply(st, steps[0]), steps[1..])
  }

  /** The call that a step makes its look for, if it is a look. */
  function Look<T>(step: Step, item: T): seq<BlockingQueue.Op<T>> {
    match step
    case Put => [BlockingQueue.Enqueue(item)]
    case PutAgain => [BlockingQueue.Enqueue(item)]
    case PutNowait => [BlockingQueue.EnqueueNowait(item)]
    case PutIfRoom => [BlockingQueue.EnqueueIfRoom(item)]
    case Take => [BlockingQueue.Dequeue]
    case TakeAgain => [BlockingQueue.Dequeue]
    case TakeTimeout => [BlockingQueue.Dequeue]
    case _ => []
  }

  /** The steps count the items of the queue they are about: the size follows the contents, an
      accepted item owes one notification to the consumers, a dequeued one to the producers. */
  lemma CountsTheQueue<T>(st: State, step: Step, v: BlockingQueue.View<T>, item: T)
    requires Enabled(st, step) && st.size == |v.contents| <= v.capacity && st.capacity == v.capacity
    ensures var st', v' := Apply(st, step), BlockingQueue.Run(v, Look(step, item));
            && st'.size == |v'.contents| && st'.capacity == v'.capacity
            && (Look(step, item) != [] ==>
                && st'.pushNotifies == st.pushNotifies + |v'.accepted| - |v.accepted|
                && st'.popNotifies
                   == st.popNotifies + if Look(step, item)[0].Dequeue? && v.contents != [] then 1 else 0)
  {
    var ops := Look(step, item);
    if ops != [] {
      assert ops[1..] == [];
    }
  }

  /** A producer that finds no room, and a consumer that finds nothing, goes to sleep; a
      notification wakes one sleeper, if there is one. */
  lemma SleepersCounted(st: State, step: Step)
    requires Enabled(st, step)
    ensures var st' := Apply(st, step);
            && (step.Put? || step.PutAgain? ==>
                st'.puttersAsleep == st.puttersAsleep + (if st.size < st.capacity then 0 else 1)
                && st'.puttersWoken == st.puttersWoken - (if step.PutAgain? then 1 else 0))
            && (step.Take? || step.TakeAgain? ==>
                st'.takersAsleep == st.takersAsleep + (if st.size > 0 then 0 else 1)
                && st'.takersWoken == st.takersWoken - (if step.TakeAgain? then 1 else 0))
            && (step.NotifyPush? ==>
                var n := if st.takersAsleep > 0 then 1 else 0;
                st' == st.(pushNotifies := st.pushNotifies - 1, takersAsleep := st.takersAsleep - n,
                           takersWoken := st.takersWoken + n))
            && (step.NotifyPop? ==>
                var n := if st.puttersAsleep > 0 then 1 else 0;
                st' == st.(popNotifies := st.popNotifies - 1, puttersAsleep := st.puttersAsleep - n,
                           puttersWoken := st.puttersWoken + n))
  {
  }

  function Initial(capacity: nat): State {
    State(0, capacity, 0, 0, 0, 0, 0, 0)
  }

  /** While a consumer sleeps every stored item, and while a producer sleeps every free slot,
      is matched by a woken thread or a notification still to come. */
  predicate Matched(st: State) {
    && st.size <= st.capacity
    && (st.takersAsleep > 0 ==> st.size <= st.pushNotifies + st.takersWoken)
    && (st.puttersAsleep > 0 ==> st.capacity - st.size <= st.popNotifies + st.puttersWoken)
  }

  lemma {:induction false} RunMatched(st: State, steps: seq<Step>)
    requires Matched(st) && Runs(st, steps)
    ensures Matched(After(st, steps))
    decreases steps
  {
    if steps != [] {
      assert Matched(Apply(st, steps[0]));
      hide Matched, Apply, Enabled;
      RunMatched(Apply(st, steps[0]), steps[1..]);
    }
  }

  /** Once all notifications have been given and all woken threads have looked, consumers
      sleep only at an empty queue and producers only at a full one. */
  lemma NoLostWakeup(capacity: nat, steps: seq<Step>)
    requires Runs(Initial(capacity), steps)
    ensures var st := After(Initial(capacity), steps);
            && (st.pushNotifies == 0 && st.takersWoken == 0 && st.takersAsleep > 0 ==> st.size == 0)
            && (st.popNotifies == 0 && st.puttersWoken == 0 && st.puttersAsleep > 0 ==> st.size == capacity)
  {
    RunMatched(Initial(capacity), steps);
    SameCapacity(Initial(capacity), steps);
  }

  lemma {:induction false} SameCapacity(st: State, steps: seq<Step>)
    requires Runs(st, steps)
    ensures After(st, steps).capacity == st.capacity
    decreases steps
  {
    if steps != [] {
      SameCapacity(Apply(st, steps[0]), steps[1..]);
    }
  }
}
