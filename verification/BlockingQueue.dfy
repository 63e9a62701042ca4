/** The multi-producer multi-consumer queue of the logger, one locked section per call. */
module BlockingQueue {
  import opened Options
  import opened CircularQueue

  // ---------------------------------------------------------------- meaning

  /** How an item left the queue. */
  datatype Departure<T> = Dequeued(item: T) | Overrun(item: T)

  /** What the queue holds and what has happened to it: `accepted` items in order of
      arrival, `departed` ones in order of leaving, and the count of refused ones. */
  datatype View<T> = View(capacity: nat, contents: seq<T>, accepted: seq<T>, departed: seq<Departure<T>>,
                          discarded: nat)

  datatype Op<T> =
    | Enqueue(item: T)            // `enqueue`, one look at the queue
    | EnqueueNowait(item: T)
    | EnqueueIfRoom(item: T)
    | Dequeue                     // `dequeue` or `dequeue_for`, one look at the queue

  predicate Room<T>(v: View<T>) {
    |v.contents| < v.capacity
  }

  function Accept<T>(v: View<T>, item: T): View<T> {
    v.(contents := v.contents + [item], accepted := v.accepted + [item])
  }

  /** The oldest item leaves; in a queue without room for anything that is the new one. */
  function AcceptOver<T>(v: View<T>, item: T): View<T> {
    var all := v.contents + [item];
    v.(contents := all[1..], accepted := v.accepted + [item], departed := v.departed + [Overrun(all[0])])
  }

  /** A waiting call that finds no room, or nothing to take, changes nothing. */
  function Apply<T>(v: View<T>, op: Op<T>): View<T> {
    match op
    case Enqueue(x) => if Room(v) then Accept(v, x) else v
    case EnqueueNowait(x) => if Room(v) then Accept(v, x) else AcceptOver(v, x)
    case EnqueueIfRoom(x) => if Room(v) then Accept(v, x) else v.(discarded := v.discarded + 1)
    case Dequeue =>
      if v.contents == [] then v
      else v.(contents := v.contents[1..], departed := v.departed + [Dequeued(v.contents[0])])
  }

  function Run<T>(v: View<T>, ops: seq<Op<T>>): View<T>
    decreases ops
  {
    if ops == [] then v else Run(Apply(v, ops[0]), ops[1..])
  }

  function Fresh<T>(capacity: nat): View<T> {
    View(capacity, [], [], [], 0)
  }

  /** The items that left, either way. */
  function Items<T>(d: seq<Departure<T>>): (r: seq<T>)
    ensures |r| == |d|
  {
    if d == [] then [] else Items(d[..|d| - 1]) + [d[|d| - 1].item]
  }

  /** The items that were dequeued. */
  function Delivered<T>(d: seq<Departure<T>>): seq<T> {
    if d == [] then [] else Delivered(d[..|d| - 1]) + if d[|d| - 1].Dequeued? then [d[|d| - 1].item] else []
  }

  function Overruns<T>(d: seq<Departure<T>>): nat {
    if d == [] then 0 else Overruns(d[..|d| - 1]) + if d[|d| - 1].Overrun? then 1 else 0
  }

  /** Every accepted item is stored or has left, in order. */
  ghost predicate Conserves<T>(v: View<T>) {
    v.accepted == Items(v.departed) + v.contents && |v.contents| <= v.capacity
  }

  lemma DepartMore<T>(d: seq<Departure<T>>, x: Departure<T>)
    ensures Items(d + [x]) == Items(d) + [x.item]
    ensures Delivered(d + [x]) == Delivered(d) + if x.Dequeued? then [x.item] else []
    ensures Overruns(d + [x]) == Overruns(d) + if x.Overrun? then 1 else 0
  {
    assert (d + [x])[..|d|] == d;
  }

  lemma ApplyConserves<T>(v: View<T>, op: Op<T>)
    requires Conserves(v)
    ensures Conserves(Apply(v, op))
  {
    hide Items;
    match op
    case Enqueue(x) => AcceptConserves(v, x);
    case EnqueueNowait(x) =>
      AcceptConserves(v, x);
      OverConserves(v, x);
    case EnqueueIfRoom(x) => AcceptConserves(v, x);
    case Dequeue =>
      if v.contents != [] {
        DepartMore(v.departed, Dequeued(v.contents[0]));
        Shift(Items(v.departed), v.contents);
      }
  }

  lemma AcceptConserves<T>(v: View<T>, x: T)
    requires Conserves(v)
    ensures Room(v) ==> Conserves(Accept(v, x))
  {
    hide Items;
    assert (Items(v.departed) + v.contents) + [x] == Items(v.departed) + (v.contents + [x]);
  }

  lemma OverConserves<T>(v: View<T>, x: T)
    requires Conserves(v)
    ensures !Room(v) ==> Conserves(AcceptOver(v, x))
  {
    hide Items;
    var all := v.contents + [x];
    DepartMore(v.departed, Overrun(all[0]));
    Shift(Items(v.departed), all);
    assert (Items(v.departed) + v.contents) + [x] == Items(v.departed) + all;
  }

  lemma Shift<T>(x: seq<T>, y: seq<T>)
    requires y != []
    ensures (x + [y[0]]) + y[1..] == x + y
  {
  }

  lemma {:induction false} RunConserves<T>(v: View<T>, ops: seq<Op<T>>)
    requires Conserves(v)
    ensures Conserves(Run(v, ops))
    decreases ops
  {
    if ops != [] {
      ApplyConserves(v, ops[0]);
      hide Apply, Conserves;
      RunConserves(Apply(v, ops[0]), ops[1..]);
    }
  }

  /** Every departure is a delivery or an overrun. */
  lemma {:induction false} DeparturesSplit<T>(d: seq<Departure<T>>)
    ensures |d| == |Delivered(d)| + Overruns(d)
    ensures Overruns(d) == 0 ==> Delivered(d) == Items(d)
  {
    if d != [] {
      DeparturesSplit(d[..|d| - 1]);
    }
  }

  ghost predicate UsesNowait<T>(ops: seq<Op<T>>) {
    exists i :: 0 <= i < |ops| && ops[i].EnqueueNowait?
  }

  lemma {:induction false} OnlyNowaitOverruns<T>(v: View<T>, ops: seq<Op<T>>)
    requires !UsesNowait(ops)
    ensures Overruns(Run(v, ops).departed) == Overruns(v.departed)
    decreases ops
  {
    if ops != [] {
      assert !ops[0].EnqueueNowait?;
      assert !UsesNowait(ops[1..]) by {
        assert forall i :: 0 <= i < |ops[1..]| ==> ops[1..][i] == ops[i + 1];
      }
      if ops[0].Dequeue? && v.contents != [] {
        DepartMore(v.departed, Dequeued(v.contents[0]));
      }
      OnlyNowaitOverruns(Apply(v, ops[0]), ops[1..]);
    }
  }

  /** Over any run: accepted = dequeued + stored + overrun, and without `enqueue_nowait` the
      consumers get exactly the accepted items, in order. */
  lemma QueueRun<T>(capacity: nat, ops: seq<Op<T>>)
    ensures var v := Run(Fresh(capacity), ops);
            && |v.accepted| == |Delivered(v.departed)| + |v.contents| + Overruns(v.departed)
            && v.accepted == Items(v.departed) + v.contents && |v.contents| <= capacity
            && (!UsesNowait(ops) ==> Delivered(v.departed) + v.contents == v.accepted)
  {
    var v := Run(Fresh(capacity), ops);
    SameCapacity(Fresh(capacity), ops);
    RunConserves(Fresh(capacity), ops);
    DeparturesSplit(v.departed);
    if !UsesNowait(ops) {
      OnlyNowaitOverruns(Fresh(capacity), ops);
    }
  }

  lemma {:induction false} SameCapacity<T>(v: View<T>, ops: seq<Op<T>>)
    ensures Run(v, ops).capacity == v.capacity
    decreases ops
  {
    if ops != [] {
      SameCapacity(Apply(v, ops[0]), ops[1..]);
    }
  }

  // ---------------------------------------------------------------- the class

  class Queue<T(0)> {
    const q: CircularQ<T>
    var discards: nat
    ghost var accepted: seq<T>
    ghost var departed: seq<Departure<T>>

    ghost predicate Valid()
      reads this, q
    {
      q.Valid() && q.maxItems > 0 && q.overrun == Overruns(departed)
    }

    ghost function Seen(): View<T>
      requires Valid()
      reads this, q, q.v
    {
      View(q.Capacity(), q.Contents(), accepted, departed, discards)
    }

    constructor (maxItems: nat)
      ensures Valid() && Seen() == Fresh(maxItems) && fresh(q) && fresh(q.v)
    {
      q := new CircularQ<T>(maxItems);
      discards := 0;
      accepted, departed := [], [];
    }

    /** One look of `enqueue`: it goes on waiting when there is no room. */
    method Enqueue(item: T) returns (done: bool)
      requires Valid()
      modifies this, q, q.v
      ensures Valid() && q.v == old(q.v) && Seen() == Apply(old(Seen()), Op.Enqueue(item))
      ensures done <==> |old(q.Contents())| < q.Capacity()
      ensures q.Contents() == (if done then old(q.Contents()) + [item] else old(q.Contents()))
      ensures accepted == (if done then old(accepted) + [item] else old(accepted)) && departed == old(departed)
      ensures q.overrun == old(q.overrun) && discards == old(discards)
    {
      var full := q.Full();
      done := !full;
      if done {
        q.PushBack(item);
        accepted := accepted + [item];
      }
    }

    /** `enqueue_nowait`. */
    method EnqueueNowait(item: T)
      requires Valid()
      modifies this, q, q.v
      ensures Valid() && q.v == old(q.v) && Seen() == Apply(old(Seen()), Op.EnqueueNowait(item))
      ensures accepted == old(accepted) + [item] && discards == old(discards)
      ensures var all, n := old(q.Contents()) + [item], q.Capacity();
              q.Contents() == if |all| <= n then all else all[|all| - n..]
      ensures var all := old(q.Contents()) + [item];
              departed == if |all| <= q.Capacity() then old(departed) else old(departed) + [Overrun(all[0])]
    {
      hide Overruns, Delivered, Items, Ring;
      ghost var all := q.Contents() + [item];
      DepartMore(departed, Overrun(all[0]));
      if |q.Contents()| >= q.Capacity() {
        departed := departed + [Overrun(all[0])];
      }
      q.PushBack(item);
      accepted := accepted + [item];
    }

    /** `enqueue_if_have_room`. */
    method EnqueueIfRoom(item: T)
      requires Valid()
      modifies this, q, q.v
      ensures Valid() && q.v == old(q.v) && Seen() == Apply(old(Seen()), Op.EnqueueIfRoom(item))
      ensures if |old(q.Contents())| < q.Capacity()
              then q.Contents() == old(q.Contents()) + [item] && accepted == old(accepted) + [item]
                   && discards == old(discards)
              else q.Contents() == old(q.Contents()) && accepted == old(accepted) && discards == old(discards) + 1
      ensures q.overrun == old(q.overrun) && departed == old(departed)
    {
      var pushed := false;
      var full := q.Full();
      if !full {
        q.PushBack(item);
        accepted := accepted + [item];
        pushed := true;
      }
      if !pushed {
        discards := discards + 1;
      }
    }

    /** One look of `dequeue` or `dequeue_for`. */
    method Dequeue() returns (item: Option<T>)
      requires Valid()
      modifies this, q
      ensures Valid() && q.v == old(q.v) && Seen() == Apply(old(Seen()), Op.Dequeue)
      ensures item == if old(q.Contents()) == [] then None else Some(old(q.Contents())[0])
      ensures q.Contents() == if old(q.Contents()) == [] then [] else old(q.Contents())[1..]
      ensures departed == if item.None? then old(departed) else old(departed) + [Dequeued(item.value)]
      ensures accepted == old(accepted) && discards == old(discards) && q.overrun == old(q.overrun)
    {
      hide Overruns, Delivered, Items, Ring;
      item := None;
      var empty := q.Empty();
      if !empty {
        var popped := q.Front();
        DepartMore(departed, Dequeued(popped));
        departed := departed + [Dequeued(popped)];
        q.PopFront();
        item := Some(popped);
      }
    }

    /** `overrun_counter`: exactly the items that were overrun. */
    method OverrunCounter() returns (n: nat)
      requires Valid()
      ensures n == Overruns(departed)
    {
      n := q.overrun;
    }
  }
}
