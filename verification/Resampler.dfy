/** The resampler object: rates, filter, and one history slot per channel in a flat
    buffer, with the calls that process samples or change the filter. */
module Resampling {
  import opened Options
  import opened RateMath
  import opened StreamSpec
  import opened FilterDesign
  import opened Relayout
  import P = Processing

  /** The error codes, and a success that the source reports although the filter it leaves
      has no taps or steps that wrap. */
  datatype Error = Success | AllocFailed | InvalidArg | Overflow | Unusable

  /** The abstract state of channel `ch` in the buffer contents `m`. */
  ghost function ChanAt<S>(m: seq<S>, ch: nat, size: nat, filtLen: nat, magic: nat, last: nat, frac: nat): Chan<S>
    requires 1 <= filtLen && Slot(ch, size) + (filtLen - 1 + magic) <= |m|
  {
    Chan(m[Slot(ch, size)..Slot(ch, size) + (filtLen - 1 + magic)], last, frac)
  }

  lemma ChanHere<S>(mem: array<S>, ch: nat, size: nat, filtLen: nat, magic: nat, last: nat, frac: nat)
    requires 1 <= filtLen && Slot(ch, size) + (filtLen - 1 + magic) <= mem.Length
    ensures ChanAt(mem[..], ch, size, filtLen, magic, last, frac)
            == Chan(mem[Slot(ch, size)..Slot(ch, size) + (filtLen - 1 + magic)], last, frac)
  {
    hide Slot;
  }

  /** A slot outside the written one keeps its samples. */
  lemma ChanKept<S>(was: seq<S>, mem: array<S>, ch: nat, c: nat, channels: nat, size: nat,
                    filtLen: nat, magic: nat, last: nat, frac: nat)
    requires c != ch && c < channels && 1 <= filtLen && filtLen - 1 + magic <= size
    requires |was| == mem.Length == Slot(channels, size)
    requires forall k :: 0 <= k < mem.Length && !(Slot(ch, size) <= k < Slot(ch, size) + size) ==> mem[k] == was[k]
    ensures Slot(c, size) + (filtLen - 1 + magic) <= mem.Length
    ensures ChanAt(mem[..], c, size, filtLen, magic, last, frac) == ChanAt(was, c, size, filtLen, magic, last, frac)
  {
    SlotBounds(c, channels, size);
    if c < ch { SlotBounds(c, ch, size); } else { SlotBounds(ch, c, size); }
    hide Slot;
    var at, n := Slot(c, size), filtLen - 1 + magic;
    assert mem[..][at..at + n] == was[at..at + n];
  }

  /** Size of the input part of a slot. */
  const BUFFER_SIZE: nat := 160

  /** Room for a filter, twice the parked samples and one input buffer; a read
      position far from the 32-bit limit. */
  ghost predicate RoomOk(filtLen: nat, allocSize: nat, magic: nat, last: nat) {
    && filtLen + 2 * magic + BUFFER_SIZE <= allocSize + 1
    && last <= POSITION_SLACK + magic + filtLen / 2
  }

  /** A processed channel still has its room: a step is at most an eighth of the filter. */
  lemma RoomAfter(d: Design, quality: int, num: nat, den: nat, allocSize: nat,
                  parked0: nat, last0: nat, parked: nat, last: nat, used: nat)
    requires GoodDesign(d, quality, num, den) && RoomOk(d.taps, allocSize, parked0, last0) && parked <= parked0
    requires last + (parked0 - parked) + used == last0 || last <= IntAdvance(d)
    ensures RoomOk(d.taps, allocSize, parked, last)
  {
    hide IntAdvance, TableLength;
  }

  /** A refitted channel has its room: the slot grew with the filter, or the parked
      samples pay for the change. */
  lemma RoomRefit(oldTaps: nat, oldAlloc: nat, magic: nat, last: nat, taps: nat, alloc: nat, magic2: nat, last2: nat)
    requires RoomOk(oldTaps, oldAlloc, magic, last) && oldAlloc <= alloc && taps - 1 + BUFFER_SIZE <= alloc
    requires last2 - magic2 - taps / 2 == last - magic - oldTaps / 2
    requires taps + 2 * magic2 == oldTaps + 2 * magic || magic2 == 0
    ensures RoomOk(taps, alloc, magic2, last2)
  {
  }

  lemma RefittedRoom<S>(ops: Ops<S>, p: seq<S>, last: nat, oldTaps: nat, magic: nat, taps: nat, oldAlloc: nat,
                        alloc: nat)
    requires 8 <= oldTaps && oldTaps % 2 == 0 && 8 <= taps && taps % 2 == 0 && |p| == oldTaps - 1 + magic
    requires RoomOk(oldTaps, oldAlloc, magic, last) && oldAlloc <= alloc && taps - 1 + BUFFER_SIZE <= alloc
    ensures var r := Refitted(ops, p, last, oldTaps, taps);
            0 <= Parked(r, taps) && RoomOk(taps, alloc, Parked(r, taps), r.last)
  {
    hide Refit, RoomOk;
    RefitBalance(ops, Chan(p, last, 0), oldTaps, taps);
    var r := Refitted(ops, p, last, oldTaps, taps);
    RoomRefit(oldTaps, oldAlloc, magic, last, taps, alloc, Parked(r, taps), r.last);
  }

  lemma RefitSame<S>(ops: Ops<S>, p: seq<S>, last: nat, taps: nat)
    requires 2 <= taps && taps % 2 == 0 && taps - 1 <= |p|
    ensures Refitted(ops, p, last, taps, taps) == Chan(p, last, 0)
  {
    assert p[0..] == p;
  }

  lemma NoTapsBad(d: Design, quality: int, num: nat, den: nat)
    requires d.taps == 0
    ensures !GoodDesign(d, quality, num, den)
  {
  }

  /** A layout exists and the allocator grants what is missing. */
  ghost predicate CanBuild(channels: nat, quality: int, num: nat, den: nat, tableLength: nat, allocSize: nat,
                           tableGranted: bool, memGranted: bool)
    requires 0 < channels && 0 <= quality <= 10 && 0 < num <= UINT32_MAX && 0 < den <= UINT32_MAX
  {
    var r := DesignFilter(quality, num, den);
    && r.Some?
    && (TableLength(r.value) <= tableLength || tableGranted)
    && (r.value.taps - 1 + BUFFER_SIZE <= allocSize
        || (r.value.taps - 1 + BUFFER_SIZE <= MAX_ELEMENTS / channels && memGranted))
  }

  /** The outcome of building a filter. */
  ghost function Answer(channels: nat, quality: int, num: nat, den: nat, tableLength: nat, allocSize: nat,
                        tableGranted: bool, memGranted: bool): (r: Error)
    requires 0 < channels && 0 <= quality <= 10 && 0 < num <= UINT32_MAX && 0 < den <= UINT32_MAX
    ensures r.AllocFailed? || r == if Usable(quality, num, den) then Success else Unusable
    ensures r.Success? ==> RoundUpSafe(quality, num, den)
  {
    if !CanBuild(channels, quality, num, den, tableLength, allocSize, tableGranted, memGranted) then AllocFailed
    else if Usable(quality, num, den) then Success
    else Unusable
  }

  /** A channel before and after a filter change. */
  ghost predicate Follows<S>(ops: Ops<S>, was: Chan<S>, now: Chan<S>, oldTaps: nat, taps: nat) {
    && 2 <= taps && taps % 2 == 0 && 2 <= oldTaps && oldTaps % 2 == 0 && oldTaps - 1 <= |was.pending|
    && now == Refit(ops, was, oldTaps, taps)
  }

  lemma RefittedFollows<S>(ops: Ops<S>, was: Chan<S>, oldTaps: nat, taps: nat)
    requires 2 <= taps && taps % 2 == 0 && 2 <= oldTaps && oldTaps % 2 == 0 && oldTaps - 1 <= |was.pending|
    ensures var r := Refitted(ops, was.pending, was.last, oldTaps, taps);
            Follows(ops, was, Chan(r.pending, r.last, was.frac), oldTaps, taps)
  {
  }

  /** The "safety net" of `speex_resampler_set_rate_frac`. */
  function Clamp(f: nat, den: nat): nat
    requires 0 < den
  {
    if f >= den then den - 1 else f
  }

  /** A phase rescales exactly when its product fits 32 bits, and then stays a phase. */
  lemma PhaseRescaled(frac: nat, den: nat, oldDen: nat)
    requires frac < oldDen <= UINT32_MAX && 0 < den <= UINT32_MAX
    ensures MultiplyFrac(frac, den, oldDen).Some? <==> frac * den <= UINT32_MAX
    ensures MultiplyFrac(frac, den, oldDen).Some? ==>
      && MultiplyFrac(frac, den, oldDen).value == frac * den / oldDen
      && frac * den / oldDen < den
  {
    hide MultiplyFrac;
    MultiplyFracExact(frac, den, oldDen);
    RescaledBelow(frac, den, oldDen);
    DivModUnique(frac, oldDen, 0, frac);
  }

  /** The same channels at other phases. */
  ghost function Rephased<S>(vs: seq<Chan<S>>, frac: seq<nat>): (r: seq<Chan<S>>)
    requires |vs| == |frac|
    ensures |r| == |vs| && forall c :: 0 <= c < |r| ==> r[c] == vs[c].(frac := frac[c])
  {
    seq(|vs|, c requires 0 <= c < |vs| == |frac| => vs[c].(frac := frac[c]))
  }

  /** A held stretch, read back as a channel. */
  lemma HeldIsChan<S>(mem: array<S>, ch: nat, size: nat, filtLen: nat, magic: nat, p: seq<S>, last: nat, frac: nat)
    requires 1 <= filtLen && |p| == filtLen - 1 + magic && Holds(mem, Slot(ch, size), p)
    ensures ChanAt(mem[..], ch, size, filtLen, magic, last, frac) == Chan(p, last, frac)
  {
    hide Slot;
  }

  /** A sample as a client hands it in or gets it back. */
  datatype Sample<S> = Float(value: S) | Int(number: int)

  function Value<S>(ops: Ops<S>, s: Sample<S>): S {
    match s case Float(x) => x case Int(k) => ops.fromInt(k)
  }

  /** The signal that samples of either kind stand for. */
  function Signal<S>(ops: Ops<S>, x: seq<Sample<S>>): (r: seq<S>)
    ensures |r| == |x|
  {
    seq(|x|, i requires 0 <= i < |x| => Value(ops, x[i]))
  }

  predicate AllInts<S>(x: seq<Sample<S>>) {
    forall i :: 0 <= i < |x| ==> x[i].Int?
  }

  lemma IntsPart<S>(x: seq<Sample<S>>, from: nat, to: nat)
    requires from <= to <= |x|
    ensures AllInts(x) ==> AllInts(x[from..to])
  {
  }

  function Numbers<S>(x: seq<Sample<S>>): (r: seq<int>)
    requires AllInts(x)
    ensures |r| == |x|
  {
    seq(|x|, i requires 0 <= i < |x| => x[i].number)
  }

  function Floats<S>(outs: seq<S>): (r: seq<Sample<S>>)
    ensures |r| == |outs|
  {
    seq(|outs|, i requires 0 <= i < |outs| => Float(outs[i]))
  }

  function Ints<S>(numbers: seq<int>): (r: seq<Sample<S>>)
    ensures |r| == |numbers|
  {
    seq(|numbers|, i requires 0 <= i < |numbers| => Int(numbers[i]))
  }

  /** What a client gets is the output itself or its rounding, one kind only if so asked. */
  ghost predicate Delivers<S>(ops: Ops<S>, got: seq<Sample<S>>, outs: seq<S>, allFloat: bool, allInt: bool) {
    && |got| == |outs|
    && (forall i :: 0 <= i < |got| ==> got[i] == Float(outs[i]) || got[i] == Int(ops.toInt(outs[i])))
    && (allFloat ==> forall i :: 0 <= i < |got| ==> got[i] == Float(outs[i]))
    && (allInt ==> forall i :: 0 <= i < |got| ==> got[i] == Int(ops.toInt(outs[i])))
  }

  lemma DeliversMore<S>(ops: Ops<S>, got: seq<Sample<S>>, outs: seq<S>, got2: seq<Sample<S>>, outs2: seq<S>,
                        allFloat: bool, allInt: bool, float2: bool, int2: bool)
    requires Delivers(ops, got, outs, allFloat, allInt) && Delivers(ops, got2, outs2, float2, int2)
    requires (allFloat ==> float2) && (allInt ==> int2)
    ensures Delivers(ops, got + got2, outs + outs2, allFloat, allInt)
  {
  }

  lemma DeliversMeans<S>(ops: Ops<S>, got: seq<Sample<S>>, outs: seq<S>, allFloat: bool, allInt: bool)
    requires Delivers(ops, got, outs, allFloat, allInt)
    ensures |got| == |outs|
    ensures forall k :: 0 <= k < |got| ==> got[k] == Float(outs[k]) || got[k] == Int(ops.toInt(outs[k]))
    ensures allFloat ==> forall k :: 0 <= k < |got| ==> got[k] == Float(outs[k])
    ensures allInt ==> forall k :: 0 <= k < |got| ==> got[k] == Int(ops.toInt(outs[k]))
  {
  }

  lemma DeliversNothing<S>(ops: Ops<S>, allFloat: bool, allInt: bool)
    ensures Delivers(ops, [], [], allFloat, allInt)
  {
  }

  /** One call of a client: how much input it offers, how much output room it gives and
      which entry point it uses. */
  datatype Call = Call(offer: nat, room: nat, asFloat: bool)

  lemma TakenBound<S>(ops: Ops<S>, d: Design, c: Chan<S>, input: seq<S>, c2: Chan<S>, used: nat, outs: seq<S>)
    requires Sound(d) && Advances(ops, d, c, input, c2, used, outs)
    ensures used <= |input|
  {
  }

  /** From rest, a stream of calls computes the one-shot definition over the taps-1 zeros
      followed by the input, and with all input taken it misses no output. */
  lemma StreamedIsOneShot<S>(ops: Ops<S>, d: Design, input: seq<S>, c2: Chan<S>, used: nat, outs: seq<S>, n: nat)
    requires Sound(d) && Advances(ops, d, Chan(Zeros(ops, d.taps - 1), 0, 0), input, c2, used, outs)
    ensures var x := Zeros(ops, d.taps - 1) + input;
            var p: nat := d.num * n;
            var at := p / d.den;
            && AllFit(d, 0, |x|, |outs|) && outs == OneShot(ops, d, 0, x, |outs|)
            && (n < |outs| ==> at + d.taps <= |x| && outs[n] == PhaseOut(ops, d, p % d.den, x[at..at + d.taps]))
            && (used == |input| && |c2.pending| == d.taps - 1 ==> (n < |outs| <==> at + d.taps <= |x|))
  {
    var c := Chan(Zeros(ops, d.taps - 1), 0, 0);
    assert Pos(d, c) == 0;
    if n < |outs| {
      OneShotAt(ops, d, 0, c.pending + input, |outs|, n);
    }
    if used == |input| && |c2.pending| == d.taps - 1 {
      NothingMissing(ops, d, c, input, c2, used, outs, n);
    }
  }

  class Resampler<S> {
    const ops: Ops<S>
    const channels: nat

    var inRate: nat
    var outRate: nat
    var num: nat
    var den: nat
    var quality: int
    var filtLen: nat
    var allocSize: nat
    var oversample: nat
    var started: bool
    var mode: Option<Mode>        // None: the resampler that only produces zeros

    var lastSample: seq<nat>
    var fracNum: seq<nat>
    var magic: seq<nat>
    var mem: array<S>
    var table: array<S>

    /** The zeroed state before the first filter is built. */
    constructor (ops: Ops<S>, channels: nat)
      ensures this.ops == ops && this.channels == channels
      ensures fresh(mem) && fresh(table) && mem != table && mem.Length == 0 && table.Length == 0
      ensures num == 0 && den == 0 && quality == -1 && inRate == 0 && outRate == 0
      ensures filtLen == 0 && allocSize == 0 && !started
      ensures lastSample == fracNum == magic == seq(channels, _ => 0)
    {
      this.ops, this.channels := ops, channels;
      inRate, outRate, num, den, quality := 0, 0, 0, 0, -1;
      filtLen, allocSize, oversample := 0, 0, 0;
      started, mode := false, None;
      lastSample, fracNum, magic := seq(channels, _ => 0), seq(channels, _ => 0), seq(channels, _ => 0);
      mem := new S[0];
      table := new S[0];
    }

    // -------------------------------------------------------------- invariant

    /** The filter in force. */
    ghost function Current(): Design
      reads this
    {
      Design(quality, num, den, filtLen, oversample, if mode.Some? then mode.value else Direct)
    }

    /** Before the first sample nothing is parked and every history is silent. */
    ghost predicate Silent()
      reads this`lastSample, this`magic, this`mem, mem
    {
      && (forall k :: 0 <= k < mem.Length ==> mem[k] == ops.zero)
      && (forall ch :: 0 <= ch < |magic| ==> magic[ch] == 0)
      && (forall ch :: 0 <= ch < |lastSample| ==> lastSample[ch] <= POSITION_SLACK)
    }

    ghost predicate Shape()
      reads this`lastSample, this`fracNum, this`magic, this`allocSize, this`mem, this`table
    {
      && 0 < channels
      && |lastSample| == |fracNum| == |magic| == channels
      && Slot(channels, allocSize) == mem.Length <= MAX_ELEMENTS
      && mem != table
    }

    ghost predicate Layout()
      reads this`lastSample, this`fracNum, this`magic, this`allocSize, this`mem, this`table, this`filtLen,
        this`started, mem
    {
      && Shape()
      && filtLen % 2 == 0 && 8 <= filtLen <= MAX_ELEMENTS
      && (forall ch :: 0 <= ch < channels ==> RoomOk(filtLen, allocSize, magic[ch], lastSample[ch]))
      && (!started ==> Silent())
    }

    ghost predicate Rated()
      reads this`num, this`den, this`quality, this`fracNum
    {
      && 0 < num <= UINT32_MAX && 0 < den <= UINT32_MAX && Coprime(num, den)
      && 0 <= quality <= 10
      && |fracNum| == channels && forall ch :: 0 <= ch < channels ==> fracNum[ch] < den
    }

    ghost predicate Valid()
      reads this, mem, table
    {
      && Layout() && Rated() && mode.Some?
      && Some(Current()) == DesignFilter(quality, num, den)
      && GoodDesign(Current(), quality, num, den) && Usable(quality, num, den)
      && TableOk(ops, Current(), table)
    }

    /** The abstract state of a channel. */
    ghost function View(ch: nat): Chan<S>
      reads this`lastSample, this`fracNum, this`magic, this`allocSize, this`mem, this`table, this`filtLen,
        this`started, mem
      requires Layout() && ch < channels
    {
      SlotBounds(ch, channels, allocSize);
      assert RoomOk(filtLen, allocSize, magic[ch], lastSample[ch]);
      ChanAt(mem[..], ch, allocSize, filtLen, magic[ch], lastSample[ch], fracNum[ch])
    }

    // -------------------------------------------------------------- processing

    /** Store the new state of channel `ch` after its slot has been processed. */
    method Commit(ch: nat, last: nat, frac: nat, parked: nat, ghost was: seq<S>)
      requires Layout() && Rated() && started && ch < channels && frac < den && |was| == mem.Length
      requires RoomOk(filtLen, allocSize, parked, last)
      requires forall k :: 0 <= k < mem.Length && !(Slot(ch, allocSize) <= k < Slot(ch, allocSize) + allocSize) ==>
               mem[k] == was[k]
      modifies this`lastSample, this`fracNum, this`magic
      ensures Layout() && Rated()
      ensures Slot(ch, allocSize) + (filtLen - 1 + parked) <= mem.Length
      ensures View(ch) == Chan(mem[Slot(ch, allocSize)..Slot(ch, allocSize) + (filtLen - 1 + parked)], last, frac)
      ensures magic == old(magic[ch := parked])
      ensures lastSample == old(lastSample[ch := last]) && fracNum == old(fracNum[ch := frac])
      ensures forall c :: 0 <= c < channels && c != ch ==>
        && Slot(c, allocSize) + (filtLen - 1 + old(magic)[c]) <= |was|
        && View(c) == ChanAt(was, c, allocSize, filtLen, old(magic)[c], old(lastSample)[c], old(fracNum)[c])
    {
      assert filtLen - 1 + parked <= allocSize;
      hide Slot, Coprime, ChanAt, RoomOk, Silent;
      SlotBounds(ch, channels, allocSize);
      ChanHere(mem, ch, allocSize, filtLen, parked, last, frac);
      OthersKept(was, ch);
      lastSample, fracNum, magic := lastSample[ch := last], fracNum[ch := frac], magic[ch := parked];
    }

    /** What the invariant gives for one channel. */
    lemma ChannelFacts(ch: nat)
      requires Valid() && ch < channels
      ensures Sound(Current()) && StepsExactly(Current()) && den <= UINT32_MAX && mem.Length <= MAX_ELEMENTS
      ensures Slot(ch, allocSize) + allocSize <= mem.Length
      ensures filtLen - 1 + magic[ch] <= allocSize && filtLen - 1 < allocSize && 8 <= filtLen
      ensures RoomOk(filtLen, allocSize, magic[ch], lastSample[ch]) && fracNum[ch] < den
      ensures View(ch) == Chan(mem[Slot(ch, allocSize)..Slot(ch, allocSize) + (filtLen - 1 + magic[ch])],
                               lastSample[ch], fracNum[ch])
    {
      SlotBounds(ch, channels, allocSize);
      hide Slot;
      ChanHere(mem, ch, allocSize, filtLen, magic[ch], lastSample[ch], fracNum[ch]);
    }

    lemma OthersKept(was: seq<S>, ch: nat)
      requires Shape() && ch < channels && 1 <= filtLen && |was| == mem.Length
      requires forall c :: 0 <= c < channels ==> RoomOk(filtLen, allocSize, magic[c], lastSample[c])
      requires forall k :: 0 <= k < mem.Length && !(Slot(ch, allocSize) <= k < Slot(ch, allocSize) + allocSize) ==>
               mem[k] == was[k]
      ensures forall c :: 0 <= c < channels && c != ch ==>
        && Slot(c, allocSize) + (filtLen - 1 + magic[c]) <= mem.Length
        && ChanAt(mem[..], c, allocSize, filtLen, magic[c], lastSample[c], fracNum[c])
           == ChanAt(was, c, allocSize, filtLen, magic[c], lastSample[c], fracNum[c])
    {
      hide Slot, ChanAt;
      forall c | 0 <= c < channels && c != ch
        ensures Slot(c, allocSize) + (filtLen - 1 + magic[c]) <= mem.Length
        ensures ChanAt(mem[..], c, allocSize, filtLen, magic[c], lastSample[c], fracNum[c])
                == ChanAt(was, c, allocSize, filtLen, magic[c], lastSample[c], fracNum[c])
      {
        assert RoomOk(filtLen, allocSize, magic[c], lastSample[c]);
        ChanKept(was, mem, ch, c, channels, allocSize, filtLen, magic[c], lastSample[c], fracNum[c]);
      }
    }

    /** The part of `speex_resampler_process_float` that touches the channel. */
    method RunFloat(ch: nat, input: Input<S>, outLen: nat)
      returns (used: nat, outs: seq<S>, ends: bool, ghost x: seq<S>)
      requires Valid() && ch < channels && outLen <= UINT32_MAX
      modifies this`started, this`lastSample, this`fracNum, this`magic, mem
      ensures Valid() && Current() == old(Current())
      ensures input.Samples? ==> |x| == |input.data| && forall k :: 0 <= k < |x| ==> x[k] == input.data[k]
      ensures input.Silence? ==> |x| == input.length && forall k :: 0 <= k < |x| ==> x[k] == ops.zero
      ensures ends <==> P.FloatEnds(outLen, old(lastSample[ch]), old(magic[ch]), |x|)
      ensures !ends ==> 0x8000_0000 <= outLen && outs == [] && used < |x|
      ensures !ends ==> magic[ch] == 0 && lastSample[ch] == 0 && fracNum[ch] == old(fracNum[ch])
      ensures |outs| <= Room(outLen)
      ensures |outs| == Room(outLen) || (used == |x| && magic[ch] == 0)
      ensures forall c :: 0 <= c < channels && c != ch ==> View(c) == old(View(c))
      ensures Advances(ops, Current(), old(View(ch)), x, View(ch), used, outs)
    {
      hide TableOk, DesignFilter, Advances, Slot, Coprime, GoodDesign, Usable, IntAdvance, ChanAt, RoomOk, Silent;
      ghost var was := mem[..];
      var d := Design(quality, num, den, filtLen, oversample, mode.value);
      ChannelFacts(ch);
      var last, frac, parked;
      last, frac, parked, used, outs, ends, x :=
        P.ProcessFloat(ops, d, table, mem, Slot(ch, allocSize), allocSize,
                       lastSample[ch], fracNum[ch], magic[ch], input, outLen);
      RoomAfter(d, quality, num, den, allocSize, magic[ch], lastSample[ch], parked, last, used);
      started := true;
      Commit(ch, last, frac, parked, was);
    }

    /** `speex_resampler_process_float`: the channel advances along the input as far as
        the output room allows; the other channels and the filter do not change. Where the
        source loops for ever the model stops and says so. `x` is the signal handed in. */
    method ProcessFloat(ch: nat, input: Input<S>, outLen: nat)
      returns (used: nat, outs: seq<S>, ends: bool, ghost x: seq<S>)
      requires Valid() && ch < channels && outLen <= UINT32_MAX
      modifies this`started, this`lastSample, this`fracNum, this`magic, mem
      ensures Valid() && Current() == old(Current())
      ensures input.Samples? ==> |x| == |input.data| && forall k :: 0 <= k < |x| ==> x[k] == input.data[k]
      ensures input.Silence? ==> |x| == input.length && forall k :: 0 <= k < |x| ==> x[k] == ops.zero
      ensures ends <==> P.FloatEnds(outLen, old(lastSample[ch]), old(magic[ch]), |x|)
      ensures !ends ==> 0x8000_0000 <= outLen && outs == [] && used < |x|
      ensures !ends ==> magic[ch] == 0 && lastSample[ch] == 0 && fracNum[ch] == old(fracNum[ch])
      ensures |outs| <= Room(outLen)
      ensures |outs| == Room(outLen) || (used == |x| && magic[ch] == 0)
      ensures forall c :: 0 <= c < channels && c != ch ==> View(c) == old(View(c))
      ensures Advances(ops, Current(), old(View(ch)), x, View(ch), used, outs)
    {
      hide TableOk, DesignFilter, Advances, Slot, Coprime, GoodDesign, Usable, IntAdvance, ChanAt, RoomOk, Silent;
      if magic[ch] == 0 && (|Offered(ops, input)| == 0 || outLen == 0) {
        ChannelFacts(ch);
        used, outs, ends, x := 0, [], true, Offered(ops, input);
        AdvancesStart(ops, Current(), View(ch), x);
      } else {
        used, outs, ends, x := RunFloat(ch, input, outLen);
      }
    }

    /** The part of `speex_resampler_process_int` that touches the channel. */
    method RunInt(ch: nat, input: Input<int>, outLen: nat)
      returns (used: nat, samples: seq<int>, ghost outs: seq<S>, ghost x: seq<S>)
      requires Valid() && ch < channels && outLen <= UINT32_MAX
      modifies this`started, this`lastSample, this`fracNum, this`magic, mem
      ensures Valid() && Current() == old(Current())
      ensures input.Samples? ==>
              |x| == |input.data| && forall k :: 0 <= k < |x| ==> x[k] == ops.fromInt(input.data[k])
      ensures input.Silence? ==> |x| == input.length && forall k :: 0 <= k < |x| ==> x[k] == ops.zero
      ensures |samples| == |outs| && forall k :: 0 <= k < |outs| ==> samples[k] == ops.toInt(outs[k])
      ensures |outs| <= outLen && (|outs| == outLen || used == |x|)
      ensures forall c :: 0 <= c < channels && c != ch ==> View(c) == old(View(c))
      ensures Advances(ops, Current(), old(View(ch)), x, View(ch), used, outs)
    {
      hide TableOk, DesignFilter, Advances, Slot, Coprime, GoodDesign, Usable, IntAdvance, ChanAt, RoomOk, Silent;
      ghost var was := mem[..];
      var d := Design(quality, num, den, filtLen, oversample, mode.value);
      ChannelFacts(ch);
      var last, frac, parked;
      last, frac, parked, used, samples, outs, x :=
        P.ProcessInt(ops, d, table, mem, Slot(ch, allocSize), allocSize,
                     lastSample[ch], fracNum[ch], magic[ch], input, outLen);
      RoomAfter(d, quality, num, den, allocSize, magic[ch], lastSample[ch], parked, last, used);
      started := true;
      Commit(ch, last, frac, parked, was);
    }

    /** `speex_resampler_process_int`: the same law for 16-bit samples, `outs` being the
        outputs before rounding. */
    method ProcessInt(ch: nat, input: Input<int>, outLen: nat)
      returns (used: nat, samples: seq<int>, ghost outs: seq<S>, ghost x: seq<S>)
      requires Valid() && ch < channels && outLen <= UINT32_MAX
      modifies this`started, this`lastSample, this`fracNum, this`magic, mem
      ensures Valid() && Current() == old(Current())
      ensures input.Samples? ==>
              |x| == |input.data| && forall k :: 0 <= k < |x| ==> x[k] == ops.fromInt(input.data[k])
      ensures input.Silence? ==> |x| == input.length && forall k :: 0 <= k < |x| ==> x[k] == ops.zero
      ensures |samples| == |outs| && forall k :: 0 <= k < |outs| ==> samples[k] == ops.toInt(outs[k])
      ensures |outs| <= outLen && (|outs| == outLen || used == |x|)
      ensures forall c :: 0 <= c < channels && c != ch ==> View(c) == old(View(c))
      ensures Advances(ops, Current(), old(View(ch)), x, View(ch), used, outs)
    {
      hide TableOk, DesignFilter, Advances, Slot, Coprime, GoodDesign, Usable, IntAdvance, ChanAt, RoomOk, Silent;
      if |Converted(ops, input)| == 0 || outLen == 0 {
        ChannelFacts(ch);
        used, samples, outs, x := 0, [], [], Converted(ops, input);
        AdvancesStart(ops, Current(), View(ch), x);
      } else {
        used, samples, outs, x := RunInt(ch, input, outLen);
      }
    }

    // -------------------------------------------------------------- filter changes

    /** The sinc table part of `update_filter`; `granted` is the allocator's answer. */
    method BuildTable(d: Design, granted: bool) returns (ok: bool)
      requires Sound(d) && mem != table
      modifies this`table, table
      ensures ok <==> TableLength(d) <= old(table.Length) || granted
      ensures ok ==> TableOk(ops, d, table)
      ensures table == old(table) || fresh(table)
    {
      ok := true;
      if table.Length < TableLength(d) {
        if !granted {
          return false;
        }
        table := Realloc(table, TableLength(d), ops.zero);
      }
      FillTable(ops, d, table);
    }

    /** The buffer part of `update_filter`: a larger slot size, old contents in front. */
    method EnsureMem(minAlloc: nat, granted: bool) returns (ok: bool)
      requires Shape()
      modifies this`mem, this`allocSize
      ensures Shape()
      ensures ok <==> minAlloc <= old(allocSize) || (minAlloc <= MAX_ELEMENTS / channels && granted)
      ensures ok ==> minAlloc <= allocSize && old(allocSize) <= allocSize
      ensures !ok || minAlloc <= old(allocSize) ==> mem == old(mem) && allocSize == old(allocSize)
      ensures mem == old(mem) || fresh(mem)
      ensures old(mem.Length) <= mem.Length
      ensures forall k :: 0 <= k < old(mem.Length) ==> mem[k] == old(mem[k])
    {
      ok := true;
      if minAlloc > allocSize {
        if MAX_ELEMENTS / channels < minAlloc || !granted {
          return false;
        }
        QuotientBound(minAlloc, MAX_ELEMENTS, channels);
        SlotMono(channels, allocSize, minAlloc);
        mem := Realloc(mem, Slot(channels, minAlloc), ops.zero);
        allocSize := minAlloc;
      }
    }

    /** A change that finds a started resampler: samples and positions are refitted. */
    method RefitChannels(taps: nat, oldAlloc: nat, ghost ps: seq<seq<S>>)
      returns (last: seq<nat>, parked: seq<nat>)
      requires Shape() && 8 <= filtLen && filtLen % 2 == 0 && 8 <= taps && taps % 2 == 0
      requires |ps| == channels && Pendings(ps, magic, filtLen) && AllHold(mem, oldAlloc, ps, 0, channels)
      requires oldAlloc <= allocSize && taps - 1 + BUFFER_SIZE <= allocSize
               && (taps <= filtLen ==> oldAlloc == allocSize)
      requires forall c :: 0 <= c < channels ==> RoomOk(filtLen, oldAlloc, magic[c], lastSample[c])
      modifies mem
      ensures |last| == |parked| == channels
      ensures AllRefitted(ops, mem, allocSize, ps, lastSample, filtLen, taps, last, parked, 0, channels)
      ensures forall c :: 0 <= c < channels ==> RoomOk(taps, allocSize, parked[c], last[c])
    {
      hide Slot, Refitted;
      if taps > filtLen {
        last, parked := GrowAll(ops, mem, channels, oldAlloc, allocSize, filtLen, taps, lastSample, magic, ps);
      } else if taps < filtLen {
        parked := ShrinkAll(ops, mem, channels, allocSize, filtLen, taps, lastSample, magic, ps);
        last := lastSample;
      } else {
        last, parked := lastSample, magic;
        forall c | 0 <= c < channels
          ensures Refitted(ops, ps[c], last[c], taps, taps) == Chan(ps[c], last[c], 0)
        {
          RefitSame(ops, ps[c], last[c], taps);
        }
      }
      forall c | 0 <= c < channels
        ensures RoomOk(taps, allocSize, parked[c], last[c])
      {
        RefittedRoom(ops, ps[c], lastSample[c], filtLen, magic[c], taps, oldAlloc, allocSize);
        assert RoomOk(filtLen, oldAlloc, magic[c], lastSample[c]);
      }
    }

    /** A resampler that has no filter yet. */
    ghost predicate Newborn()
      reads this`lastSample, this`fracNum, this`magic, this`allocSize, this`mem, this`table, this`filtLen,
        this`started, mem
    {
      Shape() && filtLen == 0 && !started && Silent()
    }

    ghost function ViewsTo(n: nat): (r: seq<Chan<S>>)
      reads this`lastSample, this`fracNum, this`magic, this`allocSize, this`mem, this`table, this`filtLen,
        this`started, mem
      requires Layout() && n <= channels
      ensures |r| == n && forall c :: 0 <= c < n ==> r[c] == View(c)
    {
      if n == 0 then [] else ViewsTo(n - 1) + [View(n - 1)]
    }

    /** Every channel. */
    ghost function Views(): (r: seq<Chan<S>>)
      reads this`lastSample, this`fracNum, this`magic, this`allocSize, this`mem, this`table, this`filtLen,
        this`started, mem
      requires Layout()
      ensures |r| == channels && forall c :: 0 <= c < channels ==> r[c] == View(c)
    {
      ViewsTo(channels)
    }

    /** Every channel is the refitted former one. */
    ghost predicate Refiltered(was: seq<Chan<S>>, oldTaps: nat)
      reads this`lastSample, this`fracNum, this`magic, this`allocSize, this`mem, this`table, this`filtLen,
        this`started, mem
      requires Layout()
    {
      |was| == channels && forall ch :: 0 <= ch < channels ==> Follows(ops, was[ch], View(ch), oldTaps, filtLen)
    }

    /** Every channel has a silent history and its former position. */
    ghost predicate Rebuilt(last: seq<nat>)
      reads this`lastSample, this`fracNum, this`magic, this`allocSize, this`mem, this`table, this`filtLen,
        this`started, mem
      requires Layout()
    {
      && |last| == channels
      && forall ch :: 0 <= ch < channels ==> View(ch) == Chan(Zeros(ops, filtLen - 1), last[ch], fracNum[ch])
    }

    /** Every channel is the former one at its present phase, refitted or silent. */
    ghost predicate Moved(was: seq<Chan<S>>, oldTaps: nat, last: seq<nat>)
      reads this`lastSample, this`fracNum, this`magic, this`allocSize, this`mem, this`table, this`filtLen,
        this`started, mem
    {
      && Layout() && |was| == channels
      && if started then Refiltered(Rephased(was, fracNum), oldTaps) else Rebuilt(last)
    }

    /** The state after the channels have been refitted. */
    lemma RefitDone(was: seq<Chan<S>>, oldTaps: nat, ps: seq<seq<S>>, lasts: seq<nat>)
      requires Shape() && started && |was| == |ps| == |lasts| == channels
      requires 8 <= filtLen <= MAX_ELEMENTS && filtLen % 2 == 0 && 8 <= oldTaps && oldTaps % 2 == 0
      requires forall c :: 0 <= c < channels ==> was[c] == Chan(ps[c], lasts[c], fracNum[c]) && oldTaps - 1 <= |ps[c]|
      requires forall c :: 0 <= c < channels ==> RoomOk(filtLen, allocSize, magic[c], lastSample[c])
      requires AllRefitted(ops, mem, allocSize, ps, lasts, oldTaps, filtLen, lastSample, magic, 0, channels)
      ensures Layout() && Refiltered(was, oldTaps)
    {
      hide Slot, Refitted, Follows, ChanAt, RoomOk;
      forall c | 0 <= c < channels
        ensures Follows(ops, was[c], View(c), oldTaps, filtLen)
      {
        var r := Refitted(ops, ps[c], lasts[c], oldTaps, filtLen);
        HeldIsChan(mem, c, allocSize, filtLen, magic[c], r.pending, lastSample[c], fracNum[c]);
        RefittedFollows(ops, was[c], oldTaps, filtLen);
      }
    }

    /** The state after a filter has been built before the first sample. */
    lemma SilenceDone()
      requires Shape() && !started && Silent()
      requires 8 <= filtLen <= MAX_ELEMENTS && filtLen % 2 == 0 && filtLen - 1 + BUFFER_SIZE <= allocSize
      ensures Layout() && Rebuilt(lastSample)
    {
      hide Slot;
      assert forall c :: 0 <= c < channels ==> RoomOk(filtLen, allocSize, magic[c], lastSample[c]);
      forall c | 0 <= c < channels
        ensures View(c) == Chan(Zeros(ops, filtLen - 1), lastSample[c], fracNum[c])
      {
        SlotBounds(c, channels, allocSize);
        HeldIsChan(mem, c, allocSize, filtLen, magic[c], Zeros(ops, filtLen - 1), lastSample[c], fracNum[c]);
      }
    }

    /** The pending samples sit at the front of their slots. */
    lemma PendingHeld(was: seq<Chan<S>>, ps: seq<seq<S>>)
      requires Layout() && was == Views() && |ps| == channels
      requires forall c :: 0 <= c < channels ==> ps[c] == was[c].pending
      ensures Pendings(ps, magic, filtLen) && AllHold(mem, allocSize, ps, 0, channels)
      ensures filtLen - 1 + BUFFER_SIZE <= allocSize
      ensures forall c :: 0 <= c < channels ==> was[c] == Chan(ps[c], lastSample[c], fracNum[c])
    {
      forall c | 0 <= c < channels
        ensures |ps[c]| == filtLen - 1 + magic[c] && Holds(mem, Slot(c, allocSize), ps[c])
      {
        SlotBounds(c, channels, allocSize);
        hide Slot;
        assert RoomOk(filtLen, allocSize, magic[c], lastSample[c]);
      }
      assert RoomOk(filtLen, allocSize, magic[0], lastSample[0]);
    }

    /** The last part of `update_filter` on a started resampler. */
    method RefitStarted(d: Design, oldAlloc: nat, ghost was: seq<Chan<S>>, ghost ps: seq<seq<S>>)
      requires Shape() && started && 8 <= filtLen && filtLen % 2 == 0 && 8 <= d.taps <= MAX_ELEMENTS && d.taps % 2 == 0
      requires |was| == |ps| == channels && Pendings(ps, magic, filtLen) && AllHold(mem, oldAlloc, ps, 0, channels)
      requires forall c :: 0 <= c < channels ==> was[c] == Chan(ps[c], lastSample[c], fracNum[c])
      requires oldAlloc <= allocSize && d.taps - 1 + BUFFER_SIZE <= allocSize
               && (d.taps <= filtLen ==> oldAlloc == allocSize)
      requires forall c :: 0 <= c < channels ==> RoomOk(filtLen, oldAlloc, magic[c], lastSample[c])
      modifies this`filtLen, this`oversample, this`mode, this`lastSample, this`magic, mem
      ensures Layout() && Refiltered(was, old(filtLen))
      ensures filtLen == d.taps && oversample == d.oversample && mode == Some(d.mode)
    {
      hide Slot, RoomOk, ChanAt, AllRefitted, Refiltered;
      ghost var oldTaps, lasts := filtLen, lastSample;
      var last, parked := RefitChannels(d.taps, oldAlloc, ps);
      lastSample, magic := last, parked;
      filtLen, oversample, mode := d.taps, d.oversample, Some(d.mode);
      RefitDone(was, oldTaps, ps, lasts);
    }

    /** The last part of `update_filter` before the first sample. */
    method ClearUnstarted(d: Design)
      requires Shape() && !started && 8 <= d.taps <= MAX_ELEMENTS && d.taps % 2 == 0
      requires d.taps - 1 + BUFFER_SIZE <= allocSize
      requires forall c :: 0 <= c < channels ==> magic[c] == 0 && lastSample[c] <= POSITION_SLACK
      modifies this`filtLen, this`oversample, this`mode, mem
      ensures Layout() && Rebuilt(lastSample)
      ensures filtLen == d.taps && oversample == d.oversample && mode == Some(d.mode)
    {
      hide Slot, ChanAt, Rebuilt;
      Fill(mem, 0, mem.Length, ops.zero);
      filtLen, oversample, mode := d.taps, d.oversample, Some(d.mode);
      SilenceDone();
    }

    /** The design, table and buffer parts of `update_filter`. */
    method PrepareFilter(tableGranted: bool, memGranted: bool) returns (ok: bool, d: Design)
      requires Shape() && 0 <= quality <= 10 && 0 < num <= UINT32_MAX && 0 < den <= UINT32_MAX
      modifies this`allocSize, this`mode, this`mem, this`table, table
      ensures ok <==> CanBuild(channels, quality, num, den, old(table.Length), old(allocSize), tableGranted, memGranted)
      ensures Shape() && (mem == old(mem) || fresh(mem)) && (table == old(table) || fresh(table))
      ensures !ok ==> mode.None? && mem == old(mem) && allocSize == old(allocSize)
      ensures ok ==> Some(d) == DesignFilter(quality, num, den)
      ensures ok ==> (GoodDesign(d, quality, num, den) <==> Usable(quality, num, den))
      ensures ok ==> d.quality == quality && d.num == num && d.den == den
      ensures ok ==> (RoundUpSafe(quality, num, den) <==> d.taps != 0)
      ensures ok && d.taps != 0 ==> TableOk(ops, d, table) && 8 <= d.taps <= MAX_ELEMENTS && d.taps % 2 == 0
      ensures ok ==> d.taps - 1 + BUFFER_SIZE <= allocSize && old(allocSize) <= allocSize
      ensures d.taps - 1 + BUFFER_SIZE <= old(allocSize) ==> allocSize == old(allocSize)
      ensures old(mem.Length) <= mem.Length && forall k :: 0 <= k < old(mem.Length) ==> mem[k] == old(mem[k])
    {
      hide TableOk, DesignFilter, Slot, GoodDesign, RoundUpSafe, Usable, TableLength;
      var design := DesignFilter(quality, num, den);
      ok := false;
      if design.None? {
        mode := None;
        d := Design(quality, num, den, 1, 1, Direct);
        return;
      }
      d := design.value;
      DesignIsGood(quality, num, den);
      DesignShape(quality, num, den);
      if d.taps == 0 {
        ok := true;
      } else {
        ok := BuildTable(d, tableGranted);
      }
      if !ok {
        mode := None;
        return;
      }
      ok := EnsureMem(d.taps - 1 + BUFFER_SIZE, memGranted);
      if !ok {
        mode := None;
      }
    }

    /** `update_filter`: on success every channel is refitted to the new design; on
        failure nothing but the kind of resampler has changed. A filter that cannot be used
        ends the run. */
    method UpdateFilter(tableGranted: bool, memGranted: bool) returns (err: Error)
      requires (Layout() || Newborn()) && Rated()
      modifies this`filtLen, this`allocSize, this`oversample, this`mode, this`lastSample, this`magic,
        this`mem, this`table, mem, table
      ensures err == Answer(channels, quality, num, den, old(table.Length), old(allocSize), tableGranted, memGranted)
      ensures (mem == old(mem) || fresh(mem)) && (table == old(table) || fresh(table))
      ensures err.Success? ==> Valid()
      ensures !err.AllocFailed? && RoundUpSafe(quality, num, den) ==>
              Layout() && mode.Some? && Some(Current()) == DesignFilter(quality, num, den)
      ensures !err.AllocFailed? && RoundUpSafe(quality, num, den) && started ==>
              Refiltered(old(Views()), old(filtLen))
      ensures !err.AllocFailed? && RoundUpSafe(quality, num, den) && !started ==> Rebuilt(old(lastSample))
      ensures err.AllocFailed? ==> mode.None? && filtLen == old(filtLen) && lastSample == old(lastSample)
                                   && magic == old(magic) && mem == old(mem) && mem[..] == old(mem[..])
    {
      hide TableOk, DesignFilter, Slot, Coprime, RoomOk, GoodDesign, Usable, ChanAt, Refiltered, Rebuilt, TableLength,
        Views, View, AllHold, Pendings, CanBuild, RoundUpSafe;
      ghost var was: seq<Chan<S>>, ps: seq<seq<S>> := [], [];
      if started {
        was := Views();
        ps := seq(channels, c requires 0 <= c < |was| => was[c].pending);
        PendingHeld(was, ps);
      }
      ghost var mem0 := mem;
      var oldAlloc := allocSize;
      var ok, d := PrepareFilter(tableGranted, memGranted);
      if !ok {
        return AllocFailed;
      }
      if d.taps == 0 {
        assert !GoodDesign(d, quality, num, den) by { NoTapsBad(d, quality, num, den); }
        return Unusable;
      }
      err := if Usable(quality, num, den) then Success else Unusable;
      if !started {
        ClearUnstarted(d);
      } else {
        AllHoldCopied(mem0, mem, oldAlloc, ps, channels);
        RefitStarted(d, oldAlloc, was, ps);
      }
    }

    /** `speex_resampler_set_quality`. */
    method SetQuality(newQuality: int, tableGranted: bool, memGranted: bool) returns (err: Error)
      requires Valid()
      modifies this`quality, this`filtLen, this`allocSize, this`oversample, this`mode, this`lastSample, this`magic,
        this`mem, this`table, mem, table
      ensures err == if !(0 <= newQuality <= 10) then InvalidArg else if newQuality == old(quality) then Success
                     else Answer(channels, newQuality, num, den, old(table.Length), old(allocSize), tableGranted,
                                 memGranted)
      ensures err.InvalidArg? ==> Valid() && Views() == old(Views()) && Current() == old(Current())
      ensures err.Success? ==> Valid() && quality == newQuality && num == old(num) && den == old(den)
      ensures err.Success? && started ==> Refiltered(old(Views()), old(filtLen))
      ensures err.Success? && !started ==> Rebuilt(old(lastSample))
      ensures err.Unusable? ==> !RoundUpSafe(newQuality, num, den)
      ensures err.Success? ==> RoundUpSafe(newQuality, num, den)
      ensures err.AllocFailed? ==> mode.None? && filtLen == old(filtLen) && lastSample == old(lastSample)
                                   && magic == old(magic) && mem == old(mem) && mem[..] == old(mem[..])
      ensures (mem == old(mem) || fresh(mem)) && (table == old(table) || fresh(table))
    {
      hide TableOk, DesignFilter, Slot, Coprime, RoomOk, GoodDesign, Usable, ChanAt, Refiltered, Rebuilt, TableLength;
      if newQuality > 10 || newQuality < 0 {
        return InvalidArg;
      }
      StillSteps();
      if quality == newQuality {
        SameFilter();
        return Success;
      }
      quality := newQuality;
      err := UpdateFilter(tableGranted, memGranted);
    }

    /** The filter in force can be used, and so can others as far as the ratio goes. */
    lemma StillSteps()
      requires Valid()
      ensures Usable(quality, num, den)
      ensures forall q :: 0 <= q <= 10 ==> (Usable(q, num, den) <==> RoundUpSafe(q, num, den))
    {
      hide RoundUpSafe, Slot, TableOk;
    }

    /** Keeping the filter is a refit that changes nothing. */
    lemma SameFilter()
      requires Layout()
      ensures started ==> Refiltered(Views(), filtLen)
      ensures !started ==> Rebuilt(lastSample)
    {
      if started {
        forall c | 0 <= c < channels
          ensures Follows(ops, View(c), View(c), filtLen, filtLen)
        {
          SlotBounds(c, channels, allocSize);
          hide Slot;
          var v := View(c);
          assert v.pending[0..] == v.pending;
        }
      } else {
        assert RoomOk(filtLen, allocSize, magic[0], lastSample[0]);
        SilenceDone();
      }
    }

    /** Rescale every phase to a new denominator, with the clamp of the source behind an
        exact product that never needs it. */
    method RescalePhases(oldDen: nat) returns (ok: bool)
      requires |fracNum| == channels && 0 < oldDen <= UINT32_MAX && 0 < den <= UINT32_MAX
      requires forall ch :: 0 <= ch < channels ==> fracNum[ch] < oldDen
      modifies this`fracNum
      ensures |fracNum| == channels
      ensures ok <==> forall ch :: 0 <= ch < channels ==> old(fracNum)[ch] * den <= UINT32_MAX
      ensures ok ==> forall ch :: 0 <= ch < channels ==>
              fracNum[ch] < den && fracNum[ch] == old(fracNum)[ch] * den / oldDen
    {
      ghost var phases := fracNum;
      for i := 0 to channels
        invariant |fracNum| == channels && fracNum[i..] == phases[i..]
        invariant forall ch :: 0 <= ch < i ==> phases[ch] * den <= UINT32_MAX
        invariant forall ch :: 0 <= ch < i ==> fracNum[ch] < den && fracNum[ch] == phases[ch] * den / oldDen
      {
        PhaseRescaled(fracNum[i], den, oldDen);
        var scaled := MultiplyFrac(fracNum[i], den, oldDen);
        if scaled.None? {
          return false;
        }
        fracNum := fracNum[i := Clamp(scaled.value, den)];
      }
      ok := true;
    }

    /** Reduce and store a new ratio. */
    method StoreRatio(ratioNum: nat, ratioDen: nat, newIn: nat, newOut: nat)
      requires 0 < ratioNum <= UINT32_MAX && 0 < ratioDen <= UINT32_MAX
      modifies this`num, this`den, this`inRate, this`outRate
      ensures 0 < num <= ratioNum && 0 < den <= ratioDen && Coprime(num, den)
      ensures num * ratioDen == den * ratioNum
      ensures inRate == newIn && outRate == newOut
      ensures forall q :: 0 <= q <= 10 ==> (RoundUpSafe(q, ratioNum, ratioDen) <==> RoundUpSafe(q, num, den))
    {
      hide Coprime, RoundUpSafe;
      inRate, outRate := newIn, newOut;
      var fact := ComputeGcd(ratioNum, ratioDen);
      ReducedRatio(fact, ratioNum, ratioDen);
      ReducedIsCoprime(fact, ratioNum, ratioDen);
      forall q | 0 <= q <= 10
        ensures RoundUpSafe(q, ratioNum, ratioDen) <==> RoundUpSafe(q, ratioNum / fact, ratioDen / fact)
      {
        SafeReduced(q, fact, ratioNum, ratioDen);
      }
      num, den := ratioNum / fact, ratioDen / fact;
    }

    /** `speex_resampler_set_rate_frac`: a coprime ratio equal to the requested one, every
        phase scaled exactly, every channel refitted; overflow exactly when some scaled
        phase does not fit 32 bits. */
    method SetRateFrac(ratioNum: nat, ratioDen: nat, newIn: nat, newOut: nat, tableGranted: bool, memGranted: bool)
      returns (err: Error)
      requires Valid() && ratioNum <= UINT32_MAX && ratioDen <= UINT32_MAX
      modifies this`num, this`den, this`inRate, this`outRate, this`fracNum, this`filtLen, this`allocSize,
        this`oversample, this`mode, this`lastSample, this`magic, this`mem, this`table, mem, table
      ensures err.InvalidArg? <==> ratioNum == 0 || ratioDen == 0
      ensures err.InvalidArg? ==> Valid() && Views() == old(Views()) && Current() == old(Current())
      ensures !err.InvalidArg? ==> 0 < num <= UINT32_MAX && 0 < den <= UINT32_MAX
      ensures !err.InvalidArg? ==> num * ratioDen == den * ratioNum && Coprime(num, den)
      ensures !err.InvalidArg? ==> inRate == newIn && outRate == newOut
      ensures !err.InvalidArg? ==>
        err == if old(inRate == newIn && outRate == newOut && num == ratioNum && den == ratioDen) then Success
               else if exists ch :: 0 <= ch < |old(fracNum)| && old(fracNum)[ch] * den > UINT32_MAX then Overflow
               else Answer(channels, quality, num, den, old(table.Length), old(allocSize), tableGranted, memGranted)
      ensures err.Success? ==> Valid() && quality == old(quality) && Usable(quality, num, den)
      ensures !err.InvalidArg? ==> (RoundUpSafe(quality, num, den) <==> RoundUpSafe(quality, ratioNum, ratioDen))
      ensures |fracNum| == channels
      ensures !err.InvalidArg? && !err.Overflow? ==>
              forall ch :: 0 <= ch < channels ==> fracNum[ch] == old(fracNum)[ch] * den / old(den)
      ensures err.Success? || (err.Unusable? && RoundUpSafe(quality, num, den)) ==>
              Moved(old(Views()), old(filtLen), old(lastSample))
      ensures err.AllocFailed? || err.Overflow? ==> filtLen == old(filtLen) && lastSample == old(lastSample)
                                                    && magic == old(magic) && mem == old(mem) && mem[..] == old(mem[..])
      ensures (mem == old(mem) || fresh(mem)) && (table == old(table) || fresh(table))
    {
      hide TableOk, DesignFilter, Slot, Coprime, RoomOk, GoodDesign, Usable, RoundUpSafe, ChanAt, Refiltered, Rebuilt,
        TableLength, Views, View, Silent, Answer;
      if ratioNum == 0 || ratioDen == 0 {
        return InvalidArg;
      }
      ghost var before, phases := Views(), fracNum;
      ViewsAre(before);
      StillSteps();
      if inRate == newIn && outRate == newOut && num == ratioNum && den == ratioDen {
        SameFilter();
        SamePhases(before, phases, den);
        return Success;
      }
      var oldDen := den;
      StoreRatio(ratioNum, ratioDen, newIn, newOut);
      var ok := RescalePhases(oldDen);
      if !ok {
        return Overflow;
      }
      RephasedViews(before, phases);
      err := UpdateFilter(tableGranted, memGranted);
    }

    lemma ViewsAre(before: seq<Chan<S>>)
      requires Layout() && before == Views()
      ensures forall c :: 0 <= c < channels ==>
        && Slot(c, allocSize) + (filtLen - 1 + magic[c]) <= mem.Length
        && before[c] == ChanAt(mem[..], c, allocSize, filtLen, magic[c], lastSample[c], fracNum[c])
    {
      forall c | 0 <= c < channels
        ensures Slot(c, allocSize) + (filtLen - 1 + magic[c]) <= mem.Length
      {
        SlotBounds(c, channels, allocSize);
        assert RoomOk(filtLen, allocSize, magic[c], lastSample[c]);
      }
    }

    /** New phases leave samples and positions alone. */
    lemma RephasedViews(before: seq<Chan<S>>, phases: seq<nat>)
      requires Layout() && |before| == |phases| == channels
      requires forall c :: 0 <= c < channels ==>
        && Slot(c, allocSize) + (filtLen - 1 + magic[c]) <= mem.Length
        && before[c] == ChanAt(mem[..], c, allocSize, filtLen, magic[c], lastSample[c], phases[c])
      ensures Views() == Rephased(before, fracNum)
    {
      hide Slot;
      assert forall c :: 0 <= c < channels ==> View(c) == before[c].(frac := fracNum[c]);
    }

    lemma SamePhases(before: seq<Chan<S>>, phases: seq<nat>, den: nat)
      requires Layout() && before == Views() && phases == fracNum && 0 < den
      ensures Rephased(before, fracNum) == before
      ensures forall ch :: 0 <= ch < channels ==> phases[ch] * den / den == phases[ch]
    {
      ViewsAre(before);
      forall ch | 0 <= ch < channels
        ensures phases[ch] * den / den == phases[ch]
      {
        DivModUnique(phases[ch] * den, den, phases[ch], 0);
      }
    }

    /** `speex_resampler_skip_zeros`. */
    method SkipZeros()
      requires Valid()
      modifies this`lastSample
      ensures Valid() && Current() == old(Current())
      ensures forall c :: 0 <= c < channels ==> View(c) == old(View(c)).(last := filtLen / 2)
    {
      hide TableOk, DesignFilter, Slot, Coprime, GoodDesign, Usable;
      var half := filtLen / 2;
      ghost var was := lastSample;
      assert forall c :: 0 <= c < channels ==> RoomOk(filtLen, allocSize, magic[c], was[c]);
      lastSample := seq(channels, _ => half);
      assert forall c :: 0 <= c < channels ==>
             RoomOk(filtLen, allocSize, magic[c], was[c]) && RoomOk(filtLen, allocSize, magic[c], half);
    }

    /** A client that hands over `input` in any pieces, with any output room per call and
        through either entry point: the outputs put together are those of one pass. The
        client goes on until a call does not return. */
    method Feed(ch: nat, input: seq<Sample<S>>, calls: seq<Call>)
      returns (used: nat, got: seq<Sample<S>>, ghost outs: seq<S>, ends: bool, ghost x: seq<S>)
      requires Valid() && ch < channels && forall i :: 0 <= i < |calls| ==> calls[i].room <= UINT32_MAX
      modifies this`started, this`lastSample, this`fracNum, this`magic, mem
      ensures Valid() && Current() == old(Current())
      ensures |x| == |input|
      ensures forall k :: 0 <= k < |input| && input[k].Float? ==> x[k] == input[k].value
      ensures forall k :: 0 <= k < |input| && input[k].Int? ==> x[k] == ops.fromInt(input[k].number)
      ensures Advances(ops, Current(), old(View(ch)), x, View(ch), used, outs)
      ensures |got| == |outs|
      ensures forall k :: 0 <= k < |got| ==> got[k] == Float(outs[k]) || got[k] == Int(ops.toInt(outs[k]))
      ensures (forall i :: 0 <= i < |calls| ==> calls[i].asFloat) ==>
              forall k :: 0 <= k < |got| ==> got[k] == Float(outs[k])
      ensures AllInts(input) && (forall i :: 0 <= i < |calls| ==> !calls[i].asFloat) ==>
              forall k :: 0 <= k < |got| ==> got[k] == Int(ops.toInt(outs[k]))
      ensures (forall i :: 0 <= i < |calls| ==> calls[i].room < 0x8000_0000 || (!calls[i].asFloat && AllInts(input)))
              ==> ends
      ensures forall c :: 0 <= c < channels && c != ch ==> View(c) == old(View(c))
    {
      hide TableOk, DesignFilter, Advances, Slot, Coprime, RoomOk, ChanAt, Silent, TableLength, IntAdvance,
        GoodDesign, Usable, Delivers, AllInts;
      x := Signal(ops, input);
      ghost var d, c0 := Current(), View(ch);
      ChannelFacts(ch);
      AdvancesStart(ops, d, c0, x);
      used, got, outs, ends := 0, [], [], true;
      ghost var allFloat := forall i :: 0 <= i < |calls| ==> calls[i].asFloat;
      ghost var allInt := AllInts(input) && forall i :: 0 <= i < |calls| ==> !calls[i].asFloat;
      assert Delivers(ops, got, outs, allFloat, allInt) by { DeliversNothing(ops, allFloat, allInt); }
      for i := 0 to |calls|
        invariant Valid() && Current() == d && used <= |input| && ends
        invariant Advances(ops, d, c0, x, View(ch), used, outs) && Delivers(ops, got, outs, allFloat, allInt)
        invariant forall c :: 0 <= c < channels && c != ch ==> View(c) == old(View(c))
      {
        var offer := if calls[i].offer > |input| - used then |input| - used else calls[i].offer;
        var piece := input[used..used + offer];
        IntsPart(input, used, used + offer);
        ghost var c1 := View(ch);
        var u: nat, o: seq<Sample<S>>;
        ghost var raw: seq<S>, y: seq<S>;
        u, o, raw, ends, y := OneCall(ch, piece, calls[i]);
        assert y == x[used..used + offer];
        TakenBound(ops, d, c1, y, View(ch), u, raw);
        AdvancesChunk(ops, d, c0, x, c1, used, outs, offer, View(ch), u, raw);
        DeliversMore(ops, got, outs, o, raw, allFloat, allInt, calls[i].asFloat,
                     !calls[i].asFloat && AllInts(piece));
        used, got, outs := used + u, got + o, outs + raw;
        if !ends {
          break;
        }
      }
      DeliversMeans(ops, got, outs, allFloat, allInt);
    }

    /** One call: the integer entry point for whole pieces of 16-bit samples, if asked for. */
    method OneCall(ch: nat, piece: seq<Sample<S>>, call: Call)
      returns (used: nat, got: seq<Sample<S>>, ghost outs: seq<S>, ends: bool, ghost x: seq<S>)
      requires Valid() && ch < channels && call.room <= UINT32_MAX
      modifies this`started, this`lastSample, this`fracNum, this`magic, mem
      ensures Valid() && Current() == old(Current())
      ensures |x| == |piece|
      ensures forall k :: 0 <= k < |piece| && piece[k].Float? ==> x[k] == piece[k].value
      ensures forall k :: 0 <= k < |piece| && piece[k].Int? ==> x[k] == ops.fromInt(piece[k].number)
      ensures Advances(ops, Current(), old(View(ch)), x, View(ch), used, outs)
      ensures Delivers(ops, got, outs, call.asFloat, !call.asFloat && AllInts(piece))
      ensures call.room < 0x8000_0000 || (!call.asFloat && AllInts(piece)) ==> ends
      ensures forall c :: 0 <= c < channels && c != ch ==> View(c) == old(View(c))
    {
      hide TableOk, DesignFilter, Advances, Slot, Coprime, RoomOk, ChanAt, Silent, TableLength, IntAdvance,
        GoodDesign, Usable;
      if !call.asFloat && AllInts(piece) {
        var samples;
        used, samples, outs, x := ProcessInt(ch, Samples(Numbers(piece)), call.room);
        got, ends := Ints(samples), true;
      } else {
        var floats;
        used, floats, ends, x := ProcessFloat(ch, Samples(Signal(ops, piece)), call.room);
        outs := floats;
        got := Floats(floats);
      }
    }

    /** The part of `speex_resampler_init_frac` before the first filter is built. */
    static method Begin(ops: Ops<S>, channels: nat, ratioNum: nat, ratioDen: nat, newIn: nat, newOut: nat,
                        newQuality: int)
      returns (st: Resampler<S>)
      requires 0 < channels && 0 < ratioNum <= UINT32_MAX && 0 < ratioDen <= UINT32_MAX && 0 <= newQuality <= 10
      ensures fresh(st) && fresh(st.mem) && fresh(st.table) && st.Newborn() && st.Rated()
      ensures st.ops == ops && st.channels == channels && st.quality == newQuality && !st.started
      ensures 0 < st.num && 0 < st.den && st.num * ratioDen == st.den * ratioNum
      ensures st.lastSample == st.fracNum == seq(channels, _ => 0)
      ensures st.table.Length == 0 && st.allocSize == 0 && st.inRate == newIn && st.outRate == newOut
    {
      hide Coprime;
      st := new Resampler<S>(ops, channels);
      st.quality := newQuality;
      st.StoreRatio(ratioNum, ratioDen, newIn, newOut);
    }

    /** `speex_resampler_init_frac`: a resampler at rest, or the reason why not. */
    static method Create(ops: Ops<S>, channels: nat, ratioNum: nat, ratioDen: nat, newIn: nat, newOut: nat,
                         newQuality: int, tableGranted: bool, memGranted: bool)
      returns (r: Resampler?<S>, err: Error, ghost num: nat, ghost den: nat)
      requires ratioNum <= UINT32_MAX && ratioDen <= UINT32_MAX
      ensures err.InvalidArg? <==> channels == 0 || ratioNum == 0 || ratioDen == 0 || !(0 <= newQuality <= 10)
      ensures !err.InvalidArg? ==>
        && 0 < num <= UINT32_MAX && 0 < den <= UINT32_MAX && Coprime(num, den) && num * ratioDen == den * ratioNum
        && err == Answer(channels, newQuality, num, den, 0, 0, tableGranted, memGranted)
      ensures err.Success? <==> r != null
      ensures r != null ==> 0 <= r.quality <= 10 && 0 < r.den && Usable(r.quality, r.num, r.den)
      ensures r != null ==> fresh(r) && fresh(r.mem) && fresh(r.table) && r.Valid() && !r.started
      ensures r != null ==> r.ops == ops && r.channels == channels && r.quality == newQuality
                            && r.num == num && r.den == den && r.inRate == newIn && r.outRate == newOut
      ensures r != null ==> forall c :: 0 <= c < channels ==> r.View(c) == Chan(Zeros(ops, r.filtLen - 1), 0, 0)
    {
      hide TableOk, DesignFilter, Slot, Coprime, RoomOk, GoodDesign, Usable, ChanAt, TableLength, Answer, RoundUpSafe;
      r, num, den := null, 0, 0;
      if channels == 0 || ratioNum == 0 || ratioDen == 0 || newQuality > 10 || newQuality < 0 {
        err := InvalidArg;
        return;
      }
      var st := Begin(ops, channels, ratioNum, ratioDen, newIn, newOut, newQuality);
      num, den := st.num, st.den;
      err := st.UpdateFilter(tableGranted, memGranted);
      if err.Success? {
        r := st;
      }
    }
  }
}
