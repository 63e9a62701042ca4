/** The second half of `update_filter`: moving every channel's pending samples when
    the filter length, and with it the slot size, changes. */
module Relayout {
  import opened RateMath
  import opened StreamSpec

  // ---------------------------------------------------------------- moves inside the flat buffer

  /** Copy `shift` places towards higher indices, last element first. */
  method MoveUp<S>(mem: array<S>, src: nat, shift: nat, len: nat)
    requires src + shift + len <= mem.Length
    modifies mem
    ensures forall k :: src + shift <= k < src + shift + len ==> mem[k] == old(mem[k - shift])
    ensures forall k :: 0 <= k < mem.Length && !(src + shift <= k < src + shift + len) ==> mem[k] == old(mem[k])
  {
    for j := len downto 0
      invariant forall k :: src + shift + j <= k < src + shift + len ==> mem[k] == old(mem[k - shift])
      invariant forall k :: 0 <= k < mem.Length && !(src + shift + j <= k < src + shift + len) ==> mem[k] == old(mem[k])
    {
      mem[src + shift + j] := mem[src + j];
    }
  }

  /** Copy `shift` places towards lower indices, first element first. */
  method MoveDown<S>(mem: array<S>, dst: nat, shift: nat, len: nat)
    requires dst + shift + len <= mem.Length
    modifies mem
    ensures forall k :: dst <= k < dst + len ==> mem[k] == old(mem[k + shift])
    ensures forall k :: 0 <= k < mem.Length && !(dst <= k < dst + len) ==> mem[k] == old(mem[k])
  {
    for j := 0 to len
      invariant forall k :: dst <= k < dst + j ==> mem[k] == old(mem[k + shift])
      invariant forall k :: 0 <= k < mem.Length && !(dst <= k < dst + j) ==> mem[k] == old(mem[k])
    {
      mem[dst + j] := mem[dst + shift + j];
    }
  }

  /** Store `data[from..from+len]` at `at`. */
  method CopyIn<S>(mem: array<S>, at: nat, data: seq<S>, from: nat, len: nat)
    requires at + len <= mem.Length && from + len <= |data|
    modifies mem
    ensures forall k :: at <= k < at + len ==> mem[k] == data[k - at + from]
    ensures forall k :: 0 <= k < mem.Length && !(at <= k < at + len) ==> mem[k] == old(mem[k])
  {
    for j := 0 to len
      invariant forall k :: at <= k < at + j ==> mem[k] == data[k - at + from]
      invariant forall k :: 0 <= k < mem.Length && !(at <= k < at + j) ==> mem[k] == old(mem[k])
    {
      mem[at + j] := data[from + j];
    }
  }

  method Fill<S>(mem: array<S>, at: nat, len: nat, v: S)
    requires at + len <= mem.Length
    modifies mem
    ensures forall k :: at <= k < at + len ==> mem[k] == v
    ensures forall k :: 0 <= k < mem.Length && !(at <= k < at + len) ==> mem[k] == old(mem[k])
  {
    for j := 0 to len
      invariant forall k :: at <= k < at + j ==> mem[k] == v
      invariant forall k :: 0 <= k < mem.Length && !(at <= k < at + j) ==> mem[k] == old(mem[k])
    {
      mem[at + j] := v;
    }
  }

  // ---------------------------------------------------------------- slots

  /** Where channel `ch` starts in the flat buffer. */
  function Slot(ch: nat, size: nat): nat {
    ch * size
  }

  /** Slots are in range and disjoint. */
  lemma SlotBounds(ch: nat, channels: nat, size: nat)
    requires ch < channels
    ensures Slot(ch, size) + size <= Slot(channels, size)
  {
    MulMono(size, ch + 1, channels);
    assert size * (ch + 1) == ch * size + size;
  }

  lemma SlotMono(ch: nat, size: nat, size2: nat)
    requires size <= size2
    ensures Slot(ch, size) <= Slot(ch, size2)
  {
    MulMono(ch, size, size2);
  }

  /** The buffer holds `p` at `at`. */
  ghost predicate Holds<S>(mem: array<S>, at: nat, p: seq<S>)
    reads mem
  {
    at + |p| <= mem.Length && forall k :: at <= k < at + |p| ==> mem[k] == p[k - at]
  }

  /** The state of one channel around a filter change. */
  function Refitted<S>(ops: Ops<S>, p: seq<S>, last: nat, oldTaps: nat, taps: nat): (r: Chan<S>)
    requires 2 <= oldTaps && oldTaps - 1 <= |p| && 2 <= taps
    requires oldTaps % 2 == 0 && taps % 2 == 0
    ensures taps <= oldTaps ==> |r.pending| <= |p|
  {
    Refit(ops, Chan(p, last, 0), oldTaps, taps)
  }

  /** Index `k` lies outside both stretches from `dst`. */
  predicate OutsideGrown(k: int, dst: nat, len: int, len2: int) {
    k < dst || (dst + len <= k && dst + len2 <= k)
  }

  /** Lengthen the filter of one channel, moving its slot from `src` up to `dst`. */
  method GrowChannel<S>(ops: Ops<S>, mem: array<S>, src: nat, dst: nat, oldTaps: nat, taps: nat,
                        last0: nat, magic0: nat, ghost p: seq<S>)
    returns (last: nat, magic: nat)
    requires 2 <= oldTaps < taps && oldTaps % 2 == 0 && taps % 2 == 0
    requires |p| == oldTaps - 1 + magic0 && src <= dst && Holds(mem, src, p)
    requires dst + (oldTaps - 1 + 2 * magic0) <= mem.Length && dst + (taps - 1) <= mem.Length
    modifies mem
    ensures var r := Refitted(ops, p, last0, oldTaps, taps);
            && Holds(mem, dst, r.pending) && last == r.last && |r.pending| == taps - 1 + magic
    ensures forall k :: 0 <= k < mem.Length && OutsideGrown(k, dst, oldTaps - 1 + 2 * magic0, taps - 1) ==>
      mem[k] == old(mem[k])
  {
    hide Refitted;
    var olen := oldTaps + 2 * magic0;
    MoveToSlot(ops, mem, src, dst, magic0, oldTaps - 1 + magic0, p);
    magic, last := 0, last0;
    if taps > olen {
      PadMore(ops, mem, dst, magic0, taps - olen, olen - 1, p);
      last := last + (taps - olen) / 2;
      HoldsPadded(ops, mem, dst, magic0 + (taps - olen), p);
    } else {
      magic := (olen - taps) / 2;
      PadLess(ops, mem, dst, magic0, magic, taps - 1 + magic, p);
      HoldsPadded(ops, mem, dst, magic0 - magic, p);
    }
    GrownIs(ops, p, last0, oldTaps, taps, magic0);
  }

  /** The buffer holds `z` zeros and then `p` at `at`. */
  ghost predicate Padded<S>(ops: Ops<S>, mem: array<S>, at: nat, z: nat, p: seq<S>)
    reads mem
  {
    && at + z + |p| <= mem.Length
    && (forall k :: at <= k < at + z ==> mem[k] == ops.zero)
    && (forall k :: at + z <= k < at + z + |p| ==> mem[k] == p[k - at - z])
  }

  /** Relocate a channel: its samples go to the new slot behind `z` zeros. */
  method MoveToSlot<S>(ops: Ops<S>, mem: array<S>, src: nat, dst: nat, z: nat, len: nat, ghost p: seq<S>)
    requires src <= dst && len == |p| && Holds(mem, src, p) && dst + z + len <= mem.Length
    modifies mem
    ensures Padded(ops, mem, dst, z, p)
    ensures forall k :: 0 <= k < mem.Length && !(dst <= k < dst + z + len) ==> mem[k] == old(mem[k])
  {
    MoveUp(mem, src, dst - src + z, len);
    Fill(mem, dst, z, ops.zero);
  }

  method PadMore<S>(ops: Ops<S>, mem: array<S>, at: nat, ghost z: nat, more: nat, len: nat, ghost p: seq<S>)
    requires Padded(ops, mem, at, z, p) && len == z + |p| && at + more + len <= mem.Length
    modifies mem
    ensures Padded(ops, mem, at, z + more, p)
    ensures forall k :: 0 <= k < mem.Length && !(at <= k < at + more + len) ==> mem[k] == old(mem[k])
  {
    MoveUp(mem, at, more, len);
    assert forall k :: at + z + more <= k < at + z + more + |p| ==> mem[k] == p[k - more - at - z];
    Fill(mem, at, more, ops.zero);
  }

  method PadLess<S>(ops: Ops<S>, mem: array<S>, at: nat, ghost z: nat, less: nat, len: nat, ghost p: seq<S>)
    requires Padded(ops, mem, at, z, p) && less <= z && len == z - less + |p|
    modifies mem
    ensures Padded(ops, mem, at, z - less, p)
    ensures forall k :: 0 <= k < mem.Length && !(at <= k < at + len) ==> mem[k] == old(mem[k])
  {
    MoveDown(mem, at, less, len);
  }

  /** The grown channel is the old one behind zeros. */
  lemma GrownIs<S>(ops: Ops<S>, p: seq<S>, last0: nat, oldTaps: nat, taps: nat, magic0: nat)
    requires 2 <= oldTaps < taps && oldTaps % 2 == 0 && taps % 2 == 0
    requires |p| == oldTaps - 1 + magic0
    ensures var olen := oldTaps + 2 * magic0;
            var magic := if taps > olen then 0 else (olen - taps) / 2;
            && taps - 1 + magic >= |p|
            && Refitted(ops, p, last0, oldTaps, taps).pending == Zeros(ops, taps - 1 + magic - |p|) + p
            && Refitted(ops, p, last0, oldTaps, taps).last == last0 + if taps > olen then (taps - olen) / 2 else 0
  {
  }

  lemma HoldsPadded<S>(ops: Ops<S>, mem: array<S>, at: nat, z: nat, p: seq<S>)
    requires Padded(ops, mem, at, z, p)
    ensures Holds(mem, at, Zeros(ops, z) + p)
  {
  }

  /** Shorten the filter of one channel in place: half the difference is parked. */
  method ShrinkChannel<S>(ops: Ops<S>, mem: array<S>, at: nat, oldTaps: nat, taps: nat,
                          magic0: nat, ghost last: nat, ghost p: seq<S>)
    returns (magic: nat)
    requires 2 <= taps < oldTaps && oldTaps % 2 == 0 && taps % 2 == 0
    requires |p| == oldTaps - 1 + magic0 && Holds(mem, at, p)
    modifies mem
    ensures var r := Refitted(ops, p, last, oldTaps, taps);
            && Holds(mem, at, r.pending) && last == r.last && |r.pending| == taps - 1 + magic
    ensures forall k :: 0 <= k < mem.Length && !(at <= k < at + |p|) ==> mem[k] == old(mem[k])
  {
    magic := (oldTaps - taps) / 2;
    MoveDown(mem, at, magic, taps - 1 + magic + magic0);
    magic := magic + magic0;
  }

  /** All channels hold their pending samples, in slots of `alloc` samples. */
  ghost predicate AllHold<S>(mem: array<S>, alloc: nat, ps: seq<seq<S>>, from: nat, to: nat)
    reads mem
    requires to <= |ps|
  {
    forall c :: from <= c < to ==> Holds(mem, Slot(c, alloc), ps[c])
  }

  ghost predicate Pendings<S>(ps: seq<seq<S>>, magic: seq<nat>, taps: nat)
    requires 1 <= taps
  {
    |ps| == |magic| && forall c :: 0 <= c < |ps| ==> |ps[c]| == taps - 1 + magic[c]
  }

  /** What `update_filter` leaves for every channel: the refitted pending samples,
      positions and parked counts. */
  ghost predicate AllRefitted<S>(ops: Ops<S>, mem: array<S>, alloc: nat, ps: seq<seq<S>>, lasts: seq<nat>,
                                 oldTaps: nat, taps: nat, last: seq<nat>, magic: seq<nat>, from: nat, to: nat)
    reads mem
    requires 2 <= oldTaps && oldTaps % 2 == 0 && 2 <= taps && taps % 2 == 0
    requires to <= |ps| == |lasts| == |last| == |magic|
    requires forall c :: 0 <= c < |ps| ==> oldTaps - 1 <= |ps[c]|
  {
    forall c :: from <= c < to ==>
      var r := Refitted(ops, ps[c], lasts[c], oldTaps, taps);
      Holds(mem, Slot(c, alloc), r.pending) && last[c] == r.last && |r.pending| == taps - 1 + magic[c]
  }

  /** A reallocated buffer still holds everything. */
  lemma AllHoldCopied<S>(m0: array<S>, m1: array<S>, alloc: nat, ps: seq<seq<S>>, n: nat)
    requires n <= |ps| && m0.Length <= m1.Length && AllHold(m0, alloc, ps, 0, n)
    requires forall k :: 0 <= k < m0.Length ==> m1[k] == m0[k]
    ensures AllHold(m1, alloc, ps, 0, n)
  {
    hide Slot;
    forall c | 0 <= c < n
      ensures Holds(m1, Slot(c, alloc), ps[c])
    {
      assert Holds(m0, Slot(c, alloc), ps[c]);
    }
  }

  /** A stretch outside the written region still holds its samples. */
  lemma HoldsFrame<S>(was: seq<S>, mem: array<S>, at: nat, p: seq<S>, lo: nat, hi: nat)
    requires |was| == mem.Length && at + |p| <= |was| && (at + |p| <= lo || hi <= at)
    requires forall k :: at <= k < at + |p| ==> was[k] == p[k - at]
    requires forall k :: 0 <= k < mem.Length && !(lo <= k < hi) ==> mem[k] == was[k]
    ensures Holds(mem, at, p)
  {
  }

  /** Growth, last channel first: no unread sample is overwritten although the slots
      move up inside the same buffer. */
  method GrowAll<S>(ops: Ops<S>, mem: array<S>, channels: nat, oldAlloc: nat, alloc: nat, oldTaps: nat, taps: nat,
                    last0: seq<nat>, magic0: seq<nat>, ghost ps: seq<seq<S>>)
    returns (last: seq<nat>, magic: seq<nat>)
    requires 2 <= oldTaps < taps && oldTaps % 2 == 0 && taps % 2 == 0
    requires |last0| == |ps| == channels && Pendings(ps, magic0, oldTaps)
    requires oldAlloc <= alloc && taps - 1 <= alloc && Slot(channels, alloc) == mem.Length
    requires forall c :: 0 <= c < channels ==> oldTaps - 1 + 2 * magic0[c] <= oldAlloc
    requires AllHold(mem, oldAlloc, ps, 0, channels)
    modifies mem
    ensures |last| == |magic| == channels
    ensures AllRefitted(ops, mem, alloc, ps, last0, oldTaps, taps, last, magic, 0, channels)
  {
    hide Slot, Refitted;
    last, magic := last0, magic0;
    for i := channels downto 0
      invariant |last| == |magic| == channels && last[..i] == last0[..i] && magic[..i] == magic0[..i]
      invariant AllHold(mem, oldAlloc, ps, 0, i)
      invariant AllRefitted(ops, mem, alloc, ps, last0, oldTaps, taps, last, magic, i, channels)
    {
      SlotBounds(i, channels, alloc);
      SlotMono(i, oldAlloc, alloc);
      ghost var base := Slot(i, alloc);
      ghost var was := mem[..];
      var l, m := GrowChannel(ops, mem, Slot(i, oldAlloc), Slot(i, alloc), oldTaps, taps, last[i], magic[i], ps[i]);
      assert forall k :: 0 <= k < mem.Length && !(base <= k < base + alloc) ==> mem[k] == was[k];
      forall c | 0 <= c < i
        ensures Holds(mem, Slot(c, oldAlloc), ps[c])
      {
        SlotBounds(c, i, oldAlloc);
        HoldsFrame(was, mem, Slot(c, oldAlloc), ps[c], base, base + alloc);
      }
      forall c | i < c < channels
        ensures Holds(mem, Slot(c, alloc), Refitted(ops, ps[c], last0[c], oldTaps, taps).pending)
      {
        SlotBounds(i, c, alloc);
        HoldsFrame(was, mem, Slot(c, alloc), Refitted(ops, ps[c], last0[c], oldTaps, taps).pending, base, base + alloc);
      }
      last, magic := last[i := l], magic[i := m];
    }
  }

  /** Shrinking, each channel in place. */
  method ShrinkAll<S>(ops: Ops<S>, mem: array<S>, channels: nat, alloc: nat, oldTaps: nat, taps: nat,
                      last: seq<nat>, magic0: seq<nat>, ghost ps: seq<seq<S>>)
    returns (magic: seq<nat>)
    requires 2 <= taps < oldTaps && oldTaps % 2 == 0 && taps % 2 == 0
    requires |last| == |ps| == channels && Pendings(ps, magic0, oldTaps) && Slot(channels, alloc) == mem.Length
    requires forall c :: 0 <= c < channels ==> oldTaps - 1 + magic0[c] <= alloc
    requires AllHold(mem, alloc, ps, 0, channels)
    modifies mem
    ensures |magic| == channels
    ensures AllRefitted(ops, mem, alloc, ps, last, oldTaps, taps, last, magic, 0, channels)
  {
    hide Slot, Refitted;
    magic := magic0;
    for i := 0 to channels
      invariant |magic| == channels && magic[i..] == magic0[i..]
      invariant AllHold(mem, alloc, ps, i, channels)
      invariant AllRefitted(ops, mem, alloc, ps, last, oldTaps, taps, last, magic, 0, i)
    {
      SlotBounds(i, channels, alloc);
      ghost var base := Slot(i, alloc);
      ghost var was := mem[..];
      var m := ShrinkChannel(ops, mem, Slot(i, alloc), oldTaps, taps, magic[i], last[i], ps[i]);
      assert forall k :: 0 <= k < mem.Length && !(base <= k < base + alloc) ==> mem[k] == was[k];
      forall c | i < c < channels
        ensures Holds(mem, Slot(c, alloc), ps[c])
      {
        SlotBounds(i, c, alloc);
        HoldsFrame(was, mem, Slot(c, alloc), ps[c], base, base + alloc);
      }
      forall c | 0 <= c < i
        ensures Holds(mem, Slot(c, alloc), Refitted(ops, ps[c], last[c], oldTaps, taps).pending)
      {
        SlotBounds(c, i, alloc);
        HoldsFrame(was, mem, Slot(c, alloc), Refitted(ops, ps[c], last[c], oldTaps, taps).pending, base, base + alloc);
      }
      magic := magic[i := m];
    }
  }
}
