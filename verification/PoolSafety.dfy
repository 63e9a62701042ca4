/** What every interleaving of submitters, workers and the waiter keeps. */
module PoolSafety {
  import opened PoolModel

  /** `tasks_running` counts the workers that are starting up or have a task. */
  predicate Counted(st: State) {
    st.running == Sum(Busy, st.workers)
  }

  lemma CountedStep(st: State, step: Step)
    requires Counted(st) && Enabled(st, step)
    ensures Counted(Apply(st, step))
  {
    match step
    case NotifyOne(w) => SumUpdate(Busy, st.workers, w, Notified);
    case Retire(w) => LookCounted(CountDown(st), w);
    case Wake(w) => LookCounted(st, w);
    case Return(w) =>
      SumUpdate(Busy, st.workers, w, Finished);
      SumUpdate(Busy, st.workers, w, Erasing(st.workers[w].task));
    case Throw(w) => SumUpdate(Busy, st.workers, w, Finished);
    case Erase(w) => SumUpdate(Busy, st.workers, w, Finished);
    case Spurious(w) => SumUpdate(Busy, st.workers, w, Notified);
    case _ =>
  }

  lemma LookCounted(st: State, w: nat)
    requires w < |st.workers| && st.running == Sum(Busy, st.workers) - Busy(st.workers[w])
    ensures Counted(Look(st, w))
  {
    SumUpdate(Busy, st.workers, w, Asleep);
    if st.queue != [] { SumUpdate(Busy, st.workers, w, Executing(st.queue[0])); }
  }

  /** Tasks start in the order in which they were queued, none is skipped. */
  predicate Ordered(st: State) {
    st.submitted == st.started + st.queue
  }

  lemma OrderedStep(st: State, step: Step)
    requires Ordered(st) && Enabled(st, step)
    ensures Ordered(Apply(st, step))
  {
    match step
    case Enqueue(t) => assert st.started + (st.queue + [t]) == (st.started + st.queue) + [t];
    case Retire(w) => LookOrdered(CountDown(st), w);
    case Wake(w) => LookOrdered(st, w);
    case _ =>
  }

  lemma LookOrdered(st: State, w: nat)
    requires w < |st.workers| && Ordered(st)
    ensures Ordered(Look(st, w))
  {
    if st.queue != [] {
      assert (st.started + [st.queue[0]]) + st.queue[1..] == st.started + st.queue;
    }
  }

  /** A started task is in the hands of one worker or done. */
  predicate Kept(st: State, t: Task) {
    Times(t, st.started) == Sum(Holding(t), st.workers) + Times(t, st.done)
  }

  lemma KeptStep(st: State, step: Step, t: Task)
    requires Kept(st, t) && Enabled(st, step)
    ensures Kept(Apply(st, step), t)
  {
    hide Sum, Look, Times, AnyAsleep;
    match step
    case NotifyOne(w) => SumUpdate(Holding(t), st.workers, w, Notified);
    case Retire(w) => LookKept(CountDown(st), w, t);
    case Wake(w) => LookKept(st, w, t);
    case Return(w) =>
      SumUpdate(Holding(t), st.workers, w, Finished);
      SumUpdate(Holding(t), st.workers, w, Erasing(st.workers[w].task));
      TimesMore(t, st.done, st.workers[w].task);
    case Throw(w) =>
      SumUpdate(Holding(t), st.workers, w, Finished);
      TimesMore(t, st.done, st.workers[w].task);
    case Erase(w) =>
      SumUpdate(Holding(t), st.workers, w, Finished);
      TimesMore(t, st.done, st.workers[w].task);
    case Spurious(w) => SumUpdate(Holding(t), st.workers, w, Notified);
    case _ =>
  }

  lemma TimesMore(t: Task, s: seq<Task>, u: Task)
    ensures Times(t, s + [u]) == Times(t, s) + if u == t then 1 else 0
  {
  }

  lemma LookKept(st: State, w: nat, t: Task)
    requires w < |st.workers| && Kept(st, t) && Holding(t)(st.workers[w]) == 0
    ensures Kept(Look(st, w), t)
  {
    SumUpdate(Holding(t), st.workers, w, Asleep);
    if st.queue != [] {
      SumUpdate(Holding(t), st.workers, w, Executing(st.queue[0]));
      TimesMore(t, st.started, st.queue[0]);
    }
  }

  /** No task is submitted twice. */
  ghost predicate Once(st: State) {
    && (forall i, j :: 0 <= i < j < |st.submitted| ==> st.submitted[i] != st.submitted[j])
    && (forall i :: 0 <= i < |st.submitted| ==> st.submitted[i].id < st.nextId && st.submitted[i] !in st.admitted)
    && (forall t :: t in st.admitted ==> t.id < st.nextId)
  }

  lemma OnceStep(st: State, step: Step)
    requires Once(st) && Enabled(st, step)
    ensures Once(Apply(st, step))
  {
    hide AnyAsleep;
    match step
    case Admit(key) =>
    case Enqueue(t) =>
    case Retire(w) => LookOnce(CountDown(st), w);
    case Wake(w) => LookOnce(st, w);
    case _ =>
  }

  lemma LookOnce(st: State, w: nat)
    requires w < |st.workers| && Once(st)
    ensures Once(Look(st, w))
  {
  }

  /** While a worker sleeps, every queued task is matched by a woken worker or by a
      submitter about to notify. */
  predicate Wakeful(st: State) {
    AnyAsleep(st.workers) ==> |st.queue| <= st.notifies + Sum(Woken, st.workers)
  }

  lemma WakefulStep(st: State, step: Step)
    requires Wakeful(st) && Enabled(st, step)
    ensures Wakeful(Apply(st, step))
  {
    hide Sum;
    match step
    case NotifyOne(w) =>
      SumUpdate(Woken, st.workers, w, Notified);
    case Retire(w) => LookWakeful(CountDown(st), w);
    case Wake(w) => LookWakeful(st, w);
    case Return(w) =>
      AsleepKept(st.workers, w, Finished);
      AsleepKept(st.workers, w, Erasing(st.workers[w].task));
      SumUpdate(Woken, st.workers, w, Finished);
      SumUpdate(Woken, st.workers, w, Erasing(st.workers[w].task));
    case Throw(w) =>
      AsleepKept(st.workers, w, Finished);
      SumUpdate(Woken, st.workers, w, Finished);
    case Erase(w) =>
      AsleepKept(st.workers, w, Finished);
      SumUpdate(Woken, st.workers, w, Finished);
    case Spurious(w) => SumUpdate(Woken, st.workers, w, Notified);
    case _ =>
  }

  lemma AsleepKept(ws: seq<Worker>, w: nat, x: Worker)
    requires w < |ws| && !x.Asleep?
    ensures AnyAsleep(ws[w := x]) ==> AnyAsleep(ws)
  {
  }

  lemma LookWakeful(st: State, w: nat)
    requires w < |st.workers| && Wakeful(st) && !st.workers[w].Asleep?
    ensures Wakeful(Look(st, w))
  {
    if st.queue != [] {
      hide Sum;
      AsleepKept(st.workers, w, Executing(st.queue[0]));
      SumUpdate(Woken, st.workers, w, Executing(st.queue[0]));
    }
  }

  /** The waiter does not sleep once everything is quiet. */
  predicate Waitful(st: State) {
    && (st.waiting <==> !st.waiter.Idle?)
    && (st.waiter.WaitAsleep? ==> !AllQuiet(st))
  }

  lemma WaitfulStep(st: State, step: Step)
    requires Waitful(st) && Counted(st) && Enabled(st, step)
    ensures Waitful(Apply(st, step))
  {
    if step.Retire? { Underflow(st, step.worker); }
  }

  /** The decrement at the head of the worker loop never underflows. */
  lemma Underflow(st: State, w: nat)
    requires Counted(st) && Enabled(st, Retire(w))
    ensures st.running >= 1
  {
    SumAtLeast(Busy, st.workers, w);
  }

  // ---------------------------------------------------------------- keys

  /** A task between the key test and the end of its function. */
  ghost predicate InFlight(st: State, t: Task) {
    t in st.admitted || t in st.queue || Held(st.workers, t)
  }

  ghost predicate Held(ws: seq<Worker>, t: Task) {
    exists i :: 0 <= i < |ws| && (ws[i].Executing? || ws[i].Erasing?) && ws[i].task == t
  }

  /** At most one task in flight for each key; a key is pending exactly while it has a task
      in flight or was left behind by a function that threw. */
  ghost predicate Keyed(st: State) {
    && (forall t, u :: InFlight(st, t) && InFlight(st, u) && t.key == u.key && t.key != 0 ==> t == u)
    && (forall t :: InFlight(st, t) && t.key != 0 ==> t.key in st.pendingKeys && t.key !in st.stuck)
    && (forall k :: k in st.pendingKeys ==> k in st.stuck || exists t :: InFlight(st, t) && t.key == k)
    && st.stuck <= st.pendingKeys && 0 !in st.pendingKeys
  }

  lemma {:induction false} SumTwo(f: Worker -> nat, ws: seq<Worker>, i: nat, j: nat)
    requires i < j < |ws|
    ensures Sum(f, ws) >= f(ws[i]) + f(ws[j])
  {
    if i == 0 {
      SumAtLeast(f, ws[1..], j - 1);
    } else {
      SumTwo(f, ws[1..], i - 1, j - 1);
    }
  }

  lemma {:induction false} TimesOnce(t: Task, s: seq<Task>)
    requires forall i, j :: 0 <= i < j < |s| ==> s[i] != s[j]
    ensures Times(t, s) <= 1
  {
    if s != [] {
      var front, last := s[..|s| - 1], s[|s| - 1];
      TimesOnce(t, front);
      assert s == front + [last];
      TimesMore(t, front, last);
      if t == last {
        assert t !in front;
        assert t !in multiset(front);
      }
    }
  }

  lemma TimesParts(t: Task, x: seq<Task>, y: seq<Task>)
    ensures Times(t, x + y) == Times(t, x) + Times(t, y)
    ensures t in y <==> Times(t, y) > 0
  {
    assert t in y <==> t in multiset(y);
  }

  /** A task in the hands of a worker is nowhere else. */
  lemma Alone(st: State, w: nat, t: Task)
    requires Ordered(st) && Kept(st, t) && Once(st) && w < |st.workers| && Holding(t)(st.workers[w]) == 1
    ensures t !in st.admitted && t !in st.queue
    ensures forall i :: 0 <= i < |st.workers| && i != w ==> Holding(t)(st.workers[i]) == 0
  {
    SumAtLeast(Holding(t), st.workers, w);
    TimesOnce(t, st.submitted);
    TimesParts(t, st.started, st.queue);
    TimesParts(t, [], st.submitted);
    forall i | 0 <= i < |st.workers| && i != w ensures Holding(t)(st.workers[i]) == 0 {
      if i < w { SumTwo(Holding(t), st.workers, i, w); } else { SumTwo(Holding(t), st.workers, w, i); }
    }
  }

  /** Two states with the same tasks in flight. */
  ghost predicate SameFlight(a: State, b: State) {
    forall t :: InFlight(a, t) <==> InFlight(b, t)
  }

  lemma KeyedSame(a: State, b: State)
    requires Keyed(a) && SameFlight(a, b) && a.pendingKeys == b.pendingKeys && a.stuck == b.stuck
    ensures Keyed(b)
  {
    hide InFlight;
    forall k | k in b.pendingKeys ensures k in b.stuck || exists t :: InFlight(b, t) && t.key == k {
      if k !in b.stuck {
        var t :| InFlight(a, t) && t.key == k;
        assert InFlight(b, t);
      }
    }
  }

  lemma HeldUpdate(ws: seq<Worker>, w: nat, x: Worker, t: Task)
    requires w < |ws|
    ensures Held(ws[w := x], t) ==> Held(ws, t) || Holding(t)(x) == 1
    ensures Holding(t)(x) == 1 ==> Held(ws[w := x], t)
    ensures Held(ws, t) && Holding(t)(ws[w]) == 0 ==> Held(ws[w := x], t)
  {
    if Held(ws, t) && Holding(t)(ws[w]) == 0 {
      var i :| 0 <= i < |ws| && (ws[i].Executing? || ws[i].Erasing?) && ws[i].task == t;
      assert ws[w := x][i] == ws[i];
    }
    if Holding(t)(x) == 1 {
      assert ws[w := x][w] == x;
    }
  }

  lemma EnqueueFlight(st: State, t: Task)
    requires Enabled(st, Enqueue(t))
    ensures SameFlight(st, Apply(st, Enqueue(t)))
  {
    hide Held;
  }

  lemma LookFlight(st: State, w: nat)
    requires w < |st.workers| && Hands(st.workers[w]) == {}
    ensures SameFlight(st, Look(st, w))
  {
    var st' := Look(st, w);
    forall t ensures InFlight(st, t) <==> InFlight(st', t) {
      HeldUpdate(st.workers, w, st'.workers[w], t);
      hide Held;
      if st.queue != [] {
        assert st.queue == [st.queue[0]] + st.queue[1..];
      }
    }
  }

  /** The task in a worker's hands, if any. */
  function Hands(w: Worker): set<Task> {
    if w.Executing? || w.Erasing? then {w.task} else {}
  }

  /** A worker that changes without touching its task. */
  lemma WorkerFlight(st: State, w: nat, x: Worker)
    requires w < |st.workers| && Hands(x) == Hands(st.workers[w])
    ensures SameFlight(st, st.(workers := st.workers[w := x]))
  {
    forall t ensures Held(st.workers, t) <==> Held(st.workers[w := x], t) {
      assert Holding(t)(x) == 1 <==> t in Hands(x);
      HeldUpdate(st.workers, w, x, t);
      HeldUpdate(st.workers[w := x], w, st.workers[w], t);
      assert st.workers[w := x][w := st.workers[w]] == st.workers;
    }
  }

  /** A worker that lets go of its task: exactly that one is no longer in flight. */
  lemma ReleaseFlight(st: State, w: nat, t: Task)
    requires Ordered(st) && Kept(st, t) && Once(st) && w < |st.workers| && Hands(st.workers[w]) == {t}
    ensures forall u :: InFlight(st.(workers := st.workers[w := Finished]), u) <==> InFlight(st, u) && u != t
  {
    assert t in Hands(st.workers[w]);
    Alone(st, w, t);
    var ws' := st.workers[w := Finished];
    assert !Held(ws', t);
    forall u | u != t ensures Held(ws', u) <==> Held(st.workers, u) {
      assert Holding(u)(st.workers[w]) == 0;
      HeldUpdate(st.workers, w, Finished, u);
    }
    hide Held;
    assert InFlight(st, t) by { HeldBy(st.workers, w, t); }
  }

  lemma HeldBy(ws: seq<Worker>, w: nat, t: Task)
    requires w < |ws| && Hands(ws[w]) == {t}
    ensures Held(ws, t)
  {
    assert t in Hands(ws[w]);
  }

  lemma AdmitKeyed(st: State, key: nat)
    requires Keyed(st)
    ensures Keyed(Apply(st, Admit(key)))
  {
    var st', added := Apply(st, Admit(key)), Task(st.nextId, key);
    if !(key != 0 && key in st.pendingKeys) {
      forall t ensures InFlight(st', t) <==> InFlight(st, t) || t == added {
        hide Held;
      }
      hide InFlight;
      forall k | k in st'.pendingKeys ensures k in st'.stuck || exists t :: InFlight(st', t) && t.key == k {
        if k == key {
          assert InFlight(st', added);
        } else if k !in st'.stuck {
          var t :| InFlight(st, t) && t.key == k;
          assert InFlight(st', t);
        }
      }
    }
  }

  /** The end of a task: its key is forgotten, or left behind when it threw. */
  lemma ReleaseKeyed(st: State, w: nat, t: Task, st': State)
    requires Keyed(st) && Ordered(st) && Kept(st, t) && Once(st) && w < |st.workers| && Hands(st.workers[w]) == {t}
    requires st'.admitted == st.admitted && st'.queue == st.queue && st'.workers == st.workers[w := Finished]
    requires t.key == 0 ==> st'.pendingKeys == st.pendingKeys && st'.stuck == st.stuck
    requires t.key != 0 ==> || (st'.pendingKeys == st.pendingKeys - {t.key} && st'.stuck == st.stuck)
                            || (st'.pendingKeys == st.pendingKeys && st'.stuck == st.stuck + {t.key})
    ensures Keyed(st')
  {
    ReleaseFlight(st, w, t);
    assert InFlight(st, t) by { HeldBy(st.workers, w, t); }
    forall u ensures InFlight(st', u) <==> InFlight(st, u) && u != t {
      assert InFlight(st', u) <==> InFlight(st.(workers := st.workers[w := Finished]), u);
    }
    hide InFlight;
    forall k | k in st'.pendingKeys ensures k in st'.stuck || exists u :: InFlight(st', u) && u.key == k {
      if k !in st'.stuck {
        var u :| InFlight(st, u) && u.key == k;
        assert InFlight(st', u);
      }
    }
  }

  lemma KeyedZero(st: State)
    requires Keyed(st)
    ensures 0 !in st.pendingKeys
  {
  }

  lemma KeyedLike(a: State, b: State)
    requires Keyed(a) && a.admitted == b.admitted && a.queue == b.queue && a.workers == b.workers
    requires a.pendingKeys == b.pendingKeys && a.stuck == b.stuck
    ensures Keyed(b)
  {
    forall t ensures InFlight(a, t) <==> InFlight(b, t) { hide Held; }
    KeyedSame(a, b);
  }

  lemma KeyedStep(st: State, step: Step)
    requires Keyed(st) && Ordered(st) && Once(st) && (forall t :: Kept(st, t)) && Enabled(st, step)
    ensures Keyed(Apply(st, step))
  {
    hide Keyed, Kept, Ordered, Once, InFlight, SameFlight, AnyAsleep;
    var st' := Apply(st, step);
    match step
    case Admit(key) => AdmitKeyed(st, key);
    case Enqueue(t) =>
      EnqueueFlight(st, t);
      KeyedSame(st, st');
    case NotifyOne(w) =>
      WorkerFlight(st, w, if st.workers[w].Asleep? then Notified else st.workers[w]);
      var mid := st.(workers := st'.workers);
      assert st.workers[w := st.workers[w]] == st.workers;
      KeyedSame(st, mid);
      KeyedLike(mid, st');
    case Retire(w) =>
      KeyedLike(st, CountDown(st));
      LookFlight(CountDown(st), w);
      KeyedSame(CountDown(st), st');
    case Wake(w) =>
      LookFlight(st, w);
      KeyedSame(st, st');
    case Return(w) =>
      var t := st.workers[w].task;
      if t.key == 0 {
        ReleaseKeyed(st, w, t, st');
      } else {
        WorkerFlight(st, w, Erasing(t));
        KeyedSame(st, st');
      }
    case Throw(w) => ReleaseKeyed(st, w, st.workers[w].task, st');
    case Erase(w) =>
      KeyedZero(st);
      ReleaseKeyed(st, w, st.workers[w].task, st');
    case Spurious(w) =>
      WorkerFlight(st, w, Notified);
      KeyedSame(st, st');
    case _ => KeyedLike(st, st');
  }
}
