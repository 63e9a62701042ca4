/** The ring buffer of the logger: a vector with one slot kept free to tell full from
    empty. */
module CircularQueue {
  import opened RateMath

  /** The index `i` places behind `h` in a ring of `n` slots. */
  function Slot(h: nat, i: nat, n: nat): nat
    requires h < n && i <= n
  {
    if h + i < n then h + i else h + i - n
  }

  /** The same as the code computes it. */
  function Index(h: nat, i: nat, n: nat): nat
    requires n > 0
  {
    (h + i) % n
  }

  lemma IndexIsSlot(h: nat, i: nat, n: nat)
    requires h < n && i <= n
    ensures Index(h, i, n) == Slot(h, i, n) < n
  {
    if h + i < n {
      DivModUnique(h + i, n, 0, h + i);
    } else {
      DivModUnique(h + i, n, 1, h + i - n);
    }
  }

  /** How many slots lie between head and tail. */
  function Distance(head: nat, tail: nat, n: nat): nat
    requires head <= n
  {
    if tail >= head then tail - head else n - (head - tail)
  }

  /** What the ring holds, oldest first. */
  function Ring<T>(v: seq<T>, head: nat, size: nat): (r: seq<T>)
    requires head < |v| && size <= |v|
    ensures |r| == size
  {
    seq(size, i requires 0 <= i < size => v[Slot(head, i, |v|)])
  }

  /** A bounded queue: the oldest element leaves when there is no room. */
  function Pushed<T>(s: seq<T>, x: T, capacity: nat): seq<T> {
    if |s| < capacity then s + [x] else (s + [x])[1..]
  }

  /** Storing in the free slot appends. */
  lemma RingStore<T>(v: seq<T>, head: nat, size: nat, x: T)
    requires head < |v| && size < |v|
    ensures Ring(v[Slot(head, size, |v|) := x], head, size + 1) == Ring(v, head, size) + [x]
  {
    var w := v[Slot(head, size, |v|) := x];
    forall i | 0 <= i < size ensures Ring(w, head, size + 1)[i] == Ring(v, head, size)[i] {
      assert Slot(head, i, |v|) != Slot(head, size, |v|);
    }
  }

  /** Moving the head drops the oldest. */
  lemma RingDrop<T>(v: seq<T>, head: nat, size: nat)
    requires head < |v| && 0 < size <= |v|
    ensures Ring(v, Slot(head, 1, |v|), size - 1) == Ring(v, head, size)[1..]
  {
    var next := Slot(head, 1, |v|);
    forall i | 0 <= i < size - 1 ensures Ring(v, next, size - 1)[i] == Ring(v, head, size)[1..][i] {
      assert Slot(next, i, |v|) == Slot(head, i + 1, |v|);
    }
  }

  class CircularQ<T(0)> {
    var maxItems: nat
    var head: nat
    var tail: nat
    var overrun: nat
    var v: array<T>

    /** A disabled queue has no slots; any other has one more than its capacity. */
    ghost predicate Valid()
      reads this
    {
      && v.Length == maxItems
      && (if maxItems == 0 then head == 0 && tail == 0 else head < maxItems && tail < maxItems)
    }

    ghost function Contents(): (s: seq<T>)
      requires Valid()
      reads this, v
      ensures |s| == (if maxItems == 0 then 0 else Distance(head, tail, maxItems))
    {
      if maxItems == 0 then [] else Ring(v[..], head, Distance(head, tail, maxItems))
    }

    /** How many elements fit. */
    ghost function Capacity(): nat
      reads this
    {
      if maxItems == 0 then 0 else maxItems - 1
    }

    constructor Disabled()
      ensures Valid() && fresh(v) && maxItems == 0 && overrun == 0 && Contents() == []
    {
      maxItems, head, tail, overrun := 0, 0, 0, 0;
      v := new T[0];
    }

    constructor (items: nat)
      ensures Valid() && fresh(v) && maxItems == items + 1 && overrun == 0 && Contents() == []
    {
      maxItems, head, tail, overrun := items + 1, 0, 0, 0;
      v := new T[items + 1];
    }

    /** `push_back`: a disabled queue ignores the item, a full one loses its oldest. */
    method PushBack(item: T)
      requires Valid()
      modifies this, v
      ensures Valid() && v == old(v) && maxItems == old(maxItems)
      ensures maxItems > 0 ==> Contents() == Pushed(old(Contents()), item, Capacity())
      ensures maxItems > 0 ==> var all := old(Contents()) + [item];
              Contents() == if |all| <= maxItems - 1 then all else all[1..]
      ensures maxItems == 0 ==> Contents() == []
      ensures overrun == old(overrun) + if maxItems > 0 && |old(Contents())| >= Capacity() then 1 else 0
    {
      hide Index, Ring;
      if maxItems > 0 {
        ghost var before, size := v[..], Distance(head, tail, maxItems);
        IndexIsSlot(tail, 1, maxItems);
        assert tail == Slot(head, size, maxItems);
        v[tail] := item;
        RingStore(before, head, size, item);
        assert v[..] == before[Slot(head, size, maxItems) := item];
        tail := Index(tail, 1, maxItems);
        if tail == head {
          IndexIsSlot(head, 1, maxItems);
          RingDrop(v[..], head, size + 1);
          head := Index(head, 1, maxItems);
          overrun := overrun + 1;
        }
      }
    }

    /** `size`. */
    method Size() returns (n: nat)
      requires Valid()
      ensures n == |Contents()|
    {
      if tail >= head {
        n := tail - head;
      } else {
        n := maxItems - (head - tail);
      }
    }

    /** `front`. */
    method Front() returns (item: T)
      requires Valid() && Contents() != []
      ensures item == Contents()[0]
    {
      item := v[head];
    }

    /** `at`. */
    method At(i: nat) returns (item: T)
      requires Valid() && i < |Contents()|
      ensures item == Contents()[i]
    {
      IndexIsSlot(head, i, maxItems);
      item := v[Index(head, i, maxItems)];
    }

    /** `pop_front`. */
    method PopFront()
      requires Valid() && Contents() != []
      modifies this`head
      ensures Valid() && Contents() == old(Contents())[1..]
    {
      hide Index, Ring;
      IndexIsSlot(head, 1, maxItems);
      RingDrop(v[..], head, Distance(head, tail, maxItems));
      head := Index(head, 1, maxItems);
    }

    /** `empty`. */
    method Empty() returns (b: bool)
      requires Valid()
      ensures b <==> Contents() == []
    {
      b := tail == head;
    }

    /** `full`: a disabled queue is never full, one without room for any item always is. */
    method Full() returns (b: bool)
      requires Valid()
      ensures b <==> maxItems > 0 && |Contents()| == Capacity()
    {
      b := false;
      if maxItems > 0 {
        IndexIsSlot(tail, 1, maxItems);
        b := Index(tail, 1, maxItems) == head;
      }
    }

    /** Moving out of another queue leaves that one disabled; a queue moved into itself ends
        up disabled and loses everything. */
    method MoveFrom(other: CircularQ<T>)
      requires other.Valid()
      modifies this, other
      ensures Valid() && other.Valid()
      ensures other.maxItems == 0 && other.Contents() == [] && other.overrun == 0 && fresh(other.v)
      ensures other != this ==> Contents() == old(other.Contents()) && maxItems == old(other.maxItems)
      ensures other != this ==> overrun == old(other.overrun) && v == old(other.v)
    {
      maxItems, head, tail, overrun := other.maxItems, other.head, other.tail, other.overrun;
      v := other.v;
      other.maxItems, other.head, other.tail, other.overrun := 0, 0, 0, 0;
      other.v := new T[0];
    }
  }
}
