/** Processing one channel: the stepping loop, the sliding history, parked samples and
    the chunked loops of the float and integer entry points. */
module Processing {
  import opened RateMath
  import opened StreamSpec
  import opened FilterDesign
  import opened Relayout

  lemma WindowInside<S>(mem: array<S>, base: nat, len: nat, at: nat, n: nat)
    requires base + len <= mem.Length && at + n <= len
    ensures mem[base..base + len][at..at + n] == mem[base + at..base + at + n]
  {
    var a, b := mem[base..base + len][at..at + n], mem[base + at..base + at + n];
    assert forall i :: 0 <= i < n ==> a[i] == b[i];
  }

  /** One step of the position: whole advance, fractional advance, carry. The sum of the
      phases wraps at 32 bits. */
  function Step(d: Design, last: nat, frac: nat): (nat, nat)
    requires 0 < d.den && frac < d.den
  {
    var f := Wrap32(frac + FracAdvance(d));
    if f >= d.den then (last + IntAdvance(d) + 1, f - d.den) else (last + IntAdvance(d), f)
  }

  /** A step adds exactly num/den to the position if and only if the sum does not wrap. */
  lemma StepExactly(d: Design, last: nat, frac: nat)
    requires 0 < d.den <= UINT32_MAX && frac < d.den
    ensures var r := Step(d, last, frac);
            PosOf(d, r.0, r.1) == PosOf(d, last, frac) + d.num <==> frac + FracAdvance(d) <= UINT32_MAX
  {
    var q, f := IntAdvance(d), frac + FracAdvance(d);
    assert d.num == d.den * q + FracAdvance(d);
    hide IntAdvance, FracAdvance;
    Distribute(d.den, last, q);
    Distribute(d.den, last + q, 1);
    WrapOnce(f);
  }

  lemma WrapOnce(x: nat)
    requires x < 2 * TWO32
    ensures Wrap32(x) == if x <= UINT32_MAX then x else x - TWO32
  {
    DivModUnique(x, TWO32, if x <= UINT32_MAX then 0 else 1, if x <= UINT32_MAX then x else x - TWO32);
  }

  /** Every phase steps exactly if and only if the largest one does. */
  lemma EveryStepExact(d: Design)
    requires 0 < d.den <= UINT32_MAX
    ensures StepsExactly(d) <==>
            forall frac: nat :: frac < d.den ==>
              var r := Step(d, 0, frac); PosOf(d, r.0, r.1) == PosOf(d, 0, frac) + d.num
  {
    hide Step, PosOf, FracAdvance;
    StepExactly(d, 0, d.den - 1);
    forall frac: nat | frac < d.den
      ensures (var r := Step(d, 0, frac); PosOf(d, r.0, r.1) == PosOf(d, 0, frac) + d.num)
              <==> frac + FracAdvance(d) <= UINT32_MAX
    {
      StepExactly(d, 0, frac);
    }
  }

  /** A ratio that is accepted with a filter of 8 taps and steps backwards at its largest
      phase, whose sum wraps. */
  lemma PhaseSumWraps()
    ensures var num, den := 0xFFFF_FFFE, 0xFFFF_FFFF;
            var r := DesignFilter(0, num, den);
            && r.Some? && r.value.taps == 8 && r.value.num == num && r.value.den == den
            && Step(r.value, 0, den - 1) == (0, den - 3)
            && PosOf(r.value, 0, den - 3) != PosOf(r.value, 0, den - 1) + num
  {
    var num, den := 0xFFFF_FFFE, 0xFFFF_FFFF;
    assert num % den == num;
    assert TapCount(0, num, den) == 8 && Oversampling(0, num, den) == 4;
    var d := DesignFilter(0, num, den).value;
    WrapOnce(den - 1 + num);
    StepExactly(d, 0, den - 1);
  }

  /** A step adds exactly num/den to the position. */
  lemma StepPosition(d: Design, last: nat, frac: nat, p0: nat, n: nat)
    requires 0 < d.den <= UINT32_MAX && StepsExactly(d) && frac < d.den && PosOf(d, last, frac) == OutPos(d, p0, n)
    ensures var r := Step(d, last, frac); PosOf(d, r.0, r.1) == OutPos(d, p0, n + 1)
    ensures var r := Step(d, last, frac); r.1 < d.den && r.0 <= last + IntAdvance(d) + 1
  {
    StepExactly(d, last, frac);
    hide IntAdvance, PosOf;
    Distribute(d.num, n, 1);
  }

  lemma Distribute(a: int, x: int, y: int)
    ensures a * (x + y) == a * x + a * y
  {
  }

  /** The window at the current position is the next output of the stream in `b`. */
  lemma NextOutput<S>(ops: Ops<S>, d: Design, p0: nat, b: seq<S>, last: nat, frac: nat, outs: seq<S>)
    requires Sound(d) && frac < d.den && last + d.taps <= |b|
    requires PosOf(d, last, frac) == OutPos(d, p0, |outs|)
    requires AllFit(d, p0, |b|, |outs|) && outs == OneShot(ops, d, p0, b, |outs|)
    ensures AllFit(d, p0, |b|, |outs| + 1)
    ensures outs + [PhaseOut(ops, d, frac, b[last..last + d.taps])] == OneShot(ops, d, p0, b, |outs| + 1)
  {
    hide PhaseOut;
    DivModUnique(OutPos(d, p0, |outs|), d.den, last, frac);
  }

  lemma NoOutput<S>(ops: Ops<S>, d: Design, p0: nat, b: seq<S>)
    requires Sound(d)
    ensures p0 == OutPos(d, p0, 0) && AllFit(d, p0, |b|, 0) && OneShot(ops, d, p0, b, 0) == []
  {
  }

  method WindowProduct<S>(ops: Ops<S>, d: Design, table: array<S>, mem: array<S>, at: nat, frac: nat)
    returns (sum: S)
    requires Sound(d) && TableOk(ops, d, table)
    requires frac < d.den && at + d.taps <= mem.Length
    ensures sum == PhaseOut(ops, d, frac, mem[at..at + d.taps])
  {
    match d.mode
    case Direct => sum := ProductDirect(ops, d, table, mem, at, frac);
    case Interpolated => sum := ProductInterpolated(ops, d, table, mem, at, frac);
  }

  /** The stepping loop shared by the basic resamplers, over the buffer at `base`. */
  method BasicResample<S>(ops: Ops<S>, d: Design, table: array<S>, mem: array<S>, base: nat,
                          last0: nat, frac0: nat, inLen: nat, outLen: nat)
    returns (last: nat, frac: nat, outs: seq<S>)
    requires Sound(d) && StepsExactly(d) && TableOk(ops, d, table) && frac0 < d.den <= UINT32_MAX
    requires base + (History(d) + inLen) <= mem.Length <= MAX_ELEMENTS && outLen <= UINT32_MAX
    ensures frac < d.den
    ensures PosOf(d, last, frac) == OutPos(d, PosOf(d, last0, frac0), |outs|)
    ensures |outs| <= Room(outLen) && (last >= inLen || |outs| == Room(outLen))
    ensures outs == [] <==> last0 >= inLen || Room(outLen) == 0
    ensures if outs == [] then last == last0 && frac == frac0 else last <= inLen + IntAdvance(d)
    ensures AllFit(d, PosOf(d, last0, frac0), History(d) + inLen, |outs|)
    ensures outs == OneShot(ops, d, PosOf(d, last0, frac0), mem[base..base + (History(d) + inLen)], |outs|)
  {
    hide PosOf, OutPos, AllFit, OneShot, TableOk, PhaseOut, IntAdvance, FracAdvance;
    ghost var b := mem[base..base + (History(d) + inLen)];
    ghost var p0 := PosOf(d, last0, frac0);
    var intAdvance: nat, fracAdvance: nat := IntAdvance(d), FracAdvance(d);
    last, frac, outs := last0, frac0, [];
    NoOutput(ops, d, p0, b);
    while !(last >= inLen || |outs| >= Signed32(outLen))
      invariant frac < d.den && |outs| <= Room(outLen)
      invariant outs == [] ==> last == last0 && frac == frac0
      invariant outs != [] ==> last0 < inLen && 0 < Room(outLen)
      invariant PosOf(d, last, frac) == OutPos(d, p0, |outs|)
      invariant if outs == [] then last == last0 else last <= inLen + intAdvance
      invariant AllFit(d, p0, |b|, |outs|) && outs == OneShot(ops, d, p0, b, |outs|)
      decreases outLen - |outs|
    {
      var sum := WindowProduct(ops, d, table, mem, base + last, frac);
      WindowInside(mem, base, History(d) + inLen, last, d.taps);
      NextOutput(ops, d, p0, b, last, frac, outs);
      StepPosition(d, last, frac, p0, |outs|);
      ghost var next := Step(d, last, frac);
      outs := outs + [sum];
      last := last + intAdvance;
      frac := Wrap32(frac + fracAdvance);
      if frac >= d.den {
        frac := frac - d.den;
        last := last + 1;
      }
      assert (last, frac) == next;
    }
  }

  /** Stepping over history and input, then dropping the passed samples, advances the
      channel along the input. */
  lemma PassedAdvances<S>(ops: Ops<S>, d: Design, b: seq<S>, last0: nat, frac0: nat,
                          passed: nat, frac: nat, used: nat, outs: seq<S>)
    requires Sound(d) && frac0 < d.den && frac < d.den
    requires used <= passed && History(d) + used <= |b|
    requires PosOf(d, passed, frac) == OutPos(d, PosOf(d, last0, frac0), |outs|)
    requires AllFit(d, PosOf(d, last0, frac0), |b|, |outs|)
    requires outs == OneShot(ops, d, PosOf(d, last0, frac0), b, |outs|)
    ensures Advances(ops, d, Chan(b[..History(d)], last0, frac0), b[History(d)..],
                     Chan(b[used..used + History(d)], passed - used, frac), used, outs)
  {
    hide OutPos, AllFit, OneShot, Conserved;
    var c := Chan(b[..History(d)], last0, frac0);
    assert c.pending + b[History(d)..] == b;
    PassedConserved(d, Pos(d, c), passed, frac, used, |outs|);
  }

  lemma PassedConserved(d: Design, p0: nat, passed: nat, frac: nat, used: nat, k: nat)
    requires used <= passed && PosOf(d, passed, frac) == OutPos(d, p0, k)
    ensures Conserved(d, p0, used, PosOf(d, passed - used, frac), k)
  {
    assert d.den * passed == d.den * (passed - used) + d.den * used;
  }

  /** `speex_resampler_process_native`: step over the buffer, drop what was passed and
      slide the history down. */
  method ProcessNative<S>(ops: Ops<S>, d: Design, table: array<S>, mem: array<S>, base: nat,
                          last0: nat, frac0: nat, inLen: nat, outLen: nat)
    returns (last: nat, frac: nat, used: nat, outs: seq<S>)
    requires Sound(d) && StepsExactly(d) && TableOk(ops, d, table) && mem != table && frac0 < d.den <= UINT32_MAX
    requires base + (History(d) + inLen) <= mem.Length <= MAX_ELEMENTS && outLen <= UINT32_MAX
    modifies mem
    ensures used <= inLen && |outs| <= Room(outLen) && frac < d.den
    ensures used == inLen || (|outs| == Room(outLen) && last == 0)
    ensures last + used == last0 || last <= IntAdvance(d)
    ensures 0 < inLen ==> (0 < used || 0 < |outs| <==> 0 < Room(outLen) || 0 < last0)
    ensures outs == [] ==> last + used == last0 && frac == frac0
    ensures forall k :: 0 <= k < mem.Length && !(base <= k < base + History(d)) ==> mem[k] == old(mem[k])
    ensures forall k :: base <= k < base + History(d) ==> mem[k] == old(mem[k + used])
    ensures var b := old(mem[base..base + (History(d) + inLen)]);
            Advances(ops, d, Chan(b[..History(d)], last0, frac0), b[History(d)..],
                     Chan(b[used..used + History(d)], last, frac), used, outs)
  {
    hide PosOf, OutPos, AllFit, OneShot, TableOk, Advances, IntAdvance;
    ghost var b := mem[base..base + (History(d) + inLen)];
    var passed: nat;
    passed, frac, outs := BasicResample(ops, d, table, mem, base, last0, frac0, inLen, outLen);
    used := if passed < inLen then passed else inLen;
    last := passed - used;
    MoveDown(mem, base, used, History(d));
    PassedAdvances(ops, d, b, last0, frac0, passed, frac, used, outs);
  }

  /** A stretch of the buffer that holds `p` from `used` on. */
  lemma StretchIs<S>(mem: array<S>, base: nat, len: nat, p: seq<S>, used: nat)
    requires base + len <= mem.Length && used + len <= |p|
    requires forall k :: base <= k < base + len ==> mem[k] == p[k - base + used]
    ensures mem[base..base + len] == p[used..used + len]
  {
  }

  /** `speex_resampler_magic`: the parked samples are processed first; what does not
      fit the output stays parked. */
  method DrainParked<S>(ops: Ops<S>, d: Design, table: array<S>, mem: array<S>, base: nat,
                        last0: nat, frac0: nat, parked0: nat, outLen: nat)
    returns (last: nat, frac: nat, parked: nat, outs: seq<S>)
    requires Sound(d) && StepsExactly(d) && TableOk(ops, d, table) && mem != table && frac0 < d.den <= UINT32_MAX
    requires base + (History(d) + parked0) <= mem.Length <= MAX_ELEMENTS && outLen <= UINT32_MAX
    modifies mem
    ensures parked <= parked0 && |outs| <= Room(outLen) && frac < d.den
    ensures parked == 0 || (|outs| == Room(outLen) && last == 0)
    ensures last + (parked0 - parked) == last0 || last <= IntAdvance(d)
    ensures 0 < parked0 ==> (parked < parked0 || 0 < |outs| <==> 0 < Room(outLen) || 0 < last0)
    ensures outs == [] ==> last + (parked0 - parked) == last0 && frac == frac0
    ensures forall k :: 0 <= k < mem.Length && !(base <= k < base + (History(d) + parked)) ==> mem[k] == old(mem[k])
    ensures Advances(ops, d, Chan(old(mem[base..base + (History(d) + parked0)]), last0, frac0), [],
                     Chan(mem[base..base + (History(d) + parked)], last, frac), 0, outs)
  {
    hide TableOk, Advances, IntAdvance;
    ghost var p := mem[base..base + (History(d) + parked0)];
    var used;
    last, frac, used, outs := ProcessNative(ops, d, table, mem, base, last0, frac0, parked0, outLen);
    parked := parked0 - used;
    MoveDown(mem, base + History(d), used, parked);
    StretchIs(mem, base, History(d) + parked, p, used);
    assert p[used..used + (History(d) + parked)] == p[used..];
    AdvancesParked(ops, d, p, last0, frac0, last, frac, used, outs);
  }

  lemma BufferSplits<S>(mem: array<S>, base: nat, n: nat, len: nat, h: seq<S>, data: seq<S>, from: nat)
    requires base + (n + len) <= mem.Length && |h| == n && from + len <= |data|
    requires forall k :: base <= k < base + n ==> mem[k] == h[k - base]
    requires forall k :: base + n <= k < base + n + len ==> mem[k] == data[k - (base + n) + from]
    ensures mem[base..base + (n + len)][..n] == h
    ensures mem[base..base + (n + len)][n..] == data[from..from + len]
  {
  }

  /** One pass of the input loop: copy a chunk behind the history and process it. */
  method ProcessChunk<S>(ops: Ops<S>, d: Design, table: array<S>, mem: array<S>, base: nat,
                         last0: nat, frac0: nat, offered: seq<S>, from: nat, chunk: nat, outLen: nat)
    returns (last: nat, frac: nat, used: nat, outs: seq<S>)
    requires Sound(d) && StepsExactly(d) && TableOk(ops, d, table) && mem != table && frac0 < d.den <= UINT32_MAX
    requires base + (History(d) + chunk) <= mem.Length <= MAX_ELEMENTS && from + chunk <= |offered|
             && outLen <= UINT32_MAX
    modifies mem
    ensures used <= chunk && |outs| <= Room(outLen) && frac < d.den
    ensures used == chunk || (|outs| == Room(outLen) && last == 0)
    ensures last + used == last0 || last <= IntAdvance(d)
    ensures 0 < chunk ==> (0 < used || 0 < |outs| <==> 0 < Room(outLen) || 0 < last0)
    ensures outs == [] ==> last + used == last0 && frac == frac0
    ensures forall k :: 0 <= k < mem.Length && !(base <= k < base + (History(d) + chunk)) ==> mem[k] == old(mem[k])
    ensures Advances(ops, d, Chan(old(mem[base..base + History(d)]), last0, frac0), offered[from..from + chunk],
                     Chan(mem[base..base + History(d)], last, frac), used, outs)
  {
    hide TableOk, Advances, IntAdvance;
    ghost var h := mem[base..base + History(d)];
    CopyIn(mem, base + History(d), offered, from, chunk);
    BufferSplits(mem, base, History(d), chunk, h, offered, from);
    ghost var b := mem[base..base + (History(d) + chunk)];
    last, frac, used, outs := ProcessNative(ops, d, table, mem, base, last0, frac0, chunk, outLen);
    StretchIs(mem, base, History(d), b, used);
  }

  /** When the loop of `speex_resampler_process_float` ends: the output length is not
      negative as a signed integer, or some parked samples stay, or the read position lies
      behind everything there is. */
  predicate FloatEnds(outLen: nat, last: nat, parked: nat, offered: nat) {
    outLen < 0x8000_0000 || last < parked || parked + offered <= last
  }

  /** Once the read position is at the first fresh sample and the output length is negative
      as a signed integer, no number of passes takes a sample or makes an output: each leaves
      history, position and phase as they were, and so the condition of the loop. */
  method FloatHangs<S>(ops: Ops<S>, d: Design, table: array<S>, mem: array<S>, base: nat, size: nat,
                       frac0: nat, offered: seq<S>, from: nat, outLen: nat, passes: nat)
    returns (last: nat, frac: nat, used: nat, outs: seq<S>)
    requires Sound(d) && StepsExactly(d) && TableOk(ops, d, table) && mem != table && frac0 < d.den <= UINT32_MAX
    requires base + size <= mem.Length <= MAX_ELEMENTS && History(d) < size
    requires from < |offered| && 0x8000_0000 <= outLen <= UINT32_MAX
    modifies mem
    ensures last == 0 && frac == frac0 && used == from && outs == []
    ensures used < |offered| && |outs| < outLen
    ensures mem[base..base + History(d)] == old(mem[base..base + History(d)])
    ensures forall k :: 0 <= k < mem.Length && !(base <= k < base + size) ==> mem[k] == old(mem[k])
  {
    hide TableOk, Advances, IntAdvance;
    ghost var h := mem[base..base + History(d)];
    var xlen := size - History(d);
    last, frac, used, outs := 0, frac0, from, [];
    for i := 0 to passes
      invariant last == 0 && frac == frac0 && used == from && outs == []
      invariant TableOk(ops, d, table) && mem[base..base + History(d)] == h
      invariant forall k :: 0 <= k < mem.Length && !(base <= k < base + size) ==> mem[k] == old(mem[k])
    {
      var chunk := if |offered| - used > xlen then xlen else |offered| - used;
      var u, o;
      last, frac, u, o := ProcessChunk(ops, d, table, mem, base, last, frac, offered, used, chunk, outLen - |outs|);
      NothingTaken(ops, d, h, frac0, offered[used..used + chunk], mem[base..base + History(d)]);
      used, outs := used + u, outs + o;
    }
  }

  /** A channel that has advanced over nothing is the same. */
  lemma NothingTaken<S>(ops: Ops<S>, d: Design, h: seq<S>, frac: nat, input: seq<S>, h2: seq<S>)
    requires Sound(d) && |h| == |h2| && Advances(ops, d, Chan(h, 0, frac), input, Chan(h2, 0, frac), 0, [])
    ensures h2 == h
  {
  }

  /** The loop of `speex_resampler_process_float` over the input, nothing being parked. A pass
      that takes nothing and makes nothing leaves everything as it was, so the source repeats
      it for ever (`FloatHangs`); the model stops there and says so. */
  method FeedChunks<S>(ops: Ops<S>, d: Design, table: array<S>, mem: array<S>, base: nat, size: nat,
                       last0: nat, frac0: nat, offered: seq<S>, outLen: nat)
    returns (last: nat, frac: nat, used: nat, outs: seq<S>, ends: bool)
    requires Sound(d) && StepsExactly(d) && TableOk(ops, d, table) && mem != table && frac0 < d.den <= UINT32_MAX
    requires base + size <= mem.Length <= MAX_ELEMENTS && History(d) < size && outLen <= UINT32_MAX
    modifies mem
    ensures ends <==> FloatEnds(outLen, last0, 0, |offered|)
    ensures !ends ==> last == 0 && outs == [] && used < |offered|
    ensures used <= |offered| && |outs| <= Room(outLen) && frac < d.den
    ensures used == |offered| || |outs| == Room(outLen)
    ensures outs == [] ==> last + used == last0 && frac == frac0
    ensures last + used == last0 || last <= IntAdvance(d)
    ensures forall k :: 0 <= k < mem.Length && !(base <= k < base + size) ==> mem[k] == old(mem[k])
    ensures Advances(ops, d, Chan(old(mem[base..base + History(d)]), last0, frac0), offered,
                     Chan(mem[base..base + History(d)], last, frac), used, outs)
  {
    hide TableOk, Advances, IntAdvance;
    var xlen := size - History(d);
    ghost var c0 := Chan(mem[base..base + History(d)], last0, frac0);
    last, frac, used, outs, ends := last0, frac0, 0, [], true;
    AdvancesStart(ops, d, c0, offered);
    while used < |offered| && |outs| < outLen
      invariant used <= |offered| && |outs| <= Room(outLen) && frac < d.den
      invariant outs == [] ==> last + used == last0 && frac == frac0
      invariant last + used == last0 || last <= IntAdvance(d)
      invariant forall k :: 0 <= k < mem.Length && !(base <= k < base + size) ==> mem[k] == old(mem[k])
      invariant TableOk(ops, d, table)
      invariant Advances(ops, d, c0, offered, Chan(mem[base..base + History(d)], last, frac), used, outs)
      invariant ends
      decreases |offered| - used + (outLen - |outs|)
    {
      var chunk := if |offered| - used > xlen then xlen else |offered| - used;
      ghost var c := Chan(mem[base..base + History(d)], last, frac);
      var u, o;
      last, frac, u, o := ProcessChunk(ops, d, table, mem, base, last, frac, offered, used, chunk, outLen - |outs|);
      AdvancesChunk(ops, d, c0, offered, c, used, outs, chunk,
                    Chan(mem[base..base + History(d)], last, frac), u, o);
      used, outs := used + u, outs + o;
      if u == 0 && o == [] {
        ends := false;
        break;
      }
    }
  }

  /** `speex_resampler_process_float` on one channel slot of `size` samples: drain the
      parked samples, then feed the input chunk by chunk. `x` is the signal handed in. */
  method ProcessFloat<S>(ops: Ops<S>, d: Design, table: array<S>, mem: array<S>, base: nat, size: nat,
                         last0: nat, frac0: nat, parked0: nat, input: Input<S>, outLen: nat)
    returns (last: nat, frac: nat, parked: nat, used: nat, outs: seq<S>, ends: bool, ghost x: seq<S>)
    requires Sound(d) && StepsExactly(d) && TableOk(ops, d, table) && mem != table && frac0 < d.den <= UINT32_MAX
    requires base + size <= mem.Length <= MAX_ELEMENTS && History(d) + parked0 <= size && History(d) < size
    requires outLen <= UINT32_MAX
    modifies mem
    ensures input.Samples? ==> |x| == |input.data| && forall k :: 0 <= k < |x| ==> x[k] == input.data[k]
    ensures input.Silence? ==> |x| == input.length && forall k :: 0 <= k < |x| ==> x[k] == ops.zero
    ensures ends <==> FloatEnds(outLen, last0, parked0, |x|)
    ensures !ends ==> parked == 0 && last == 0 && frac == frac0 && outs == []
    ensures !ends ==> used < |x| && 0x8000_0000 <= outLen
    ensures parked <= parked0 && used <= |x| && |outs| <= Room(outLen) && frac < d.den
    ensures (used == |x| && parked == 0) || |outs| == Room(outLen)
    ensures 0 < parked ==> last == 0
    ensures last + (parked0 - parked) + used == last0 || last <= IntAdvance(d)
    ensures forall k :: 0 <= k < mem.Length && !(base <= k < base + size) ==> mem[k] == old(mem[k])
    ensures Advances(ops, d, Chan(old(mem[base..base + (History(d) + parked0)]), last0, frac0),
                     x, Chan(mem[base..base + (History(d) + parked)], last, frac), used, outs)
  {
    hide TableOk, Advances, IntAdvance;
    var offered := Offered(ops, input);
    x := offered;
    ghost var c0 := Chan(mem[base..base + (History(d) + parked0)], last0, frac0);
    last, frac, parked, used, outs, ends := last0, frac0, parked0, 0, [], true;
    if parked != 0 {
      last, frac, parked, outs := DrainParked(ops, d, table, mem, base, last0, frac0, parked0, outLen);
      AdvancesExtend(ops, d, c0, [], offered, Chan(mem[base..base + (History(d) + parked)], last, frac), 0, outs);
      assert [] + offered == offered;
    } else {
      AdvancesStart(ops, d, c0, offered);
    }
    if parked == 0 {
      assert base + (History(d) + parked) == base + History(d);
      ghost var c := Chan(mem[base..base + History(d)], last, frac);
      var o;
      last, frac, used, o, ends := FeedChunks(ops, d, table, mem, base, size, last, frac, offered, outLen - |outs|);
      assert offered[0..] == offered;
      AdvancesTrans(ops, d, c0, offered, c, 0, outs, Chan(mem[base..base + History(d)], last, frac), used, o);
      outs := outs + o;
    }
  }

  /** Elements of the stack buffer that `speex_resampler_process_int` fills per pass. */
  const FIXED_STACK_ALLOC: nat := 1024

  /** One pass of the `speex_resampler_process_int` loop: at most `room` outputs, parked
      samples first, input only when nothing stays parked. */
  method IntPass<S>(ops: Ops<S>, d: Design, table: array<S>, mem: array<S>, base: nat, size: nat,
                    last0: nat, frac0: nat, parked0: nat, offered: seq<S>, from: nat, chunk: nat, room: nat)
    returns (last: nat, frac: nat, parked: nat, used: nat, outs: seq<S>)
    requires Sound(d) && StepsExactly(d) && TableOk(ops, d, table) && mem != table && frac0 < d.den <= UINT32_MAX
    requires base + size <= mem.Length <= MAX_ELEMENTS && History(d) + parked0 <= size && History(d) + chunk <= size
    requires from + chunk <= |offered| && room <= FIXED_STACK_ALLOC
    modifies mem
    ensures parked <= parked0 && used <= chunk && |outs| <= room && frac < d.den
    ensures 0 < parked ==> last == 0
    ensures last + (parked0 - parked) + used == last0 || last <= IntAdvance(d)
    ensures 0 < chunk && 0 < room ==> 0 < used || 0 < |outs| || parked < parked0
    ensures forall k :: 0 <= k < mem.Length && !(base <= k < base + size) ==> mem[k] == old(mem[k])
    ensures Advances(ops, d, Chan(old(mem[base..base + (History(d) + parked0)]), last0, frac0),
                     offered[from..from + chunk],
                     Chan(mem[base..base + (History(d) + parked)], last, frac), used, outs)
  {
    hide TableOk, Advances, IntAdvance;
    ghost var c0 := Chan(mem[base..base + (History(d) + parked0)], last0, frac0);
    ghost var part := offered[from..from + chunk];
    last, frac, parked, used, outs := last0, frac0, parked0, 0, [];
    if parked != 0 {
      last, frac, parked, outs := DrainParked(ops, d, table, mem, base, last0, frac0, parked0, room);
      AdvancesExtend(ops, d, c0, [], part, Chan(mem[base..base + (History(d) + parked)], last, frac), 0, outs);
      assert [] + part == part;
    } else {
      AdvancesStart(ops, d, c0, part);
    }
    if parked == 0 {
      assert base + (History(d) + parked) == base + History(d);
      ghost var c := Chan(mem[base..base + History(d)], last, frac);
      var o;
      last, frac, used, o := ProcessChunk(ops, d, table, mem, base, last, frac, offered, from, chunk, room - |outs|);
      assert part[0..] == part;
      AdvancesTrans(ops, d, c0, part, c, 0, outs, Chan(mem[base..base + History(d)], last, frac), used, o);
      outs := outs + o;
    }
  }

  /** Samples rounded to 16 bits. */
  function Rounded<S>(ops: Ops<S>, outs: seq<S>): (r: seq<int>)
    ensures |r| == |outs|
  {
    seq(|outs|, i requires 0 <= i < |outs| => ops.toInt(outs[i]))
  }

  lemma RoundedConcat<S>(ops: Ops<S>, x: seq<S>, y: seq<S>)
    ensures Rounded(ops, x + y) == Rounded(ops, x) + Rounded(ops, y)
  {
  }

  /** The loop that rounds the outputs of a pass. */
  method RoundPass<S>(ops: Ops<S>, outs: seq<S>) returns (r: seq<int>)
    ensures r == Rounded(ops, outs)
  {
    r := [];
    for j := 0 to |outs|
      invariant r == Rounded(ops, outs[..j])
    {
      assert outs[..j + 1] == outs[..j] + [outs[j]];
      RoundedConcat(ops, outs[..j], [outs[j]]);
      r := r + [ops.toInt(outs[j])];
    }
    assert outs[..|outs|] == outs;
  }

  /** The loop of `speex_resampler_process_int`: it ends because every pass takes input, makes
      output or drains parked samples. `outs` are the outputs before rounding. */
  method IntChunks<S>(ops: Ops<S>, d: Design, table: array<S>, mem: array<S>, base: nat, size: nat,
                      last0: nat, frac0: nat, parked0: nat, offered: seq<S>, outLen: nat)
    returns (last: nat, frac: nat, parked: nat, used: nat, samples: seq<int>, ghost outs: seq<S>)
    requires Sound(d) && StepsExactly(d) && TableOk(ops, d, table) && mem != table && frac0 < d.den <= UINT32_MAX
    requires base + size <= mem.Length <= MAX_ELEMENTS && History(d) + parked0 <= size && History(d) < size
    requires outLen <= UINT32_MAX
    modifies mem
    ensures samples == Rounded(ops, outs)
    ensures parked <= parked0 && used <= |offered| && |outs| <= outLen && frac < d.den
    ensures used == |offered| || |outs| == outLen
    ensures parked == parked0 || parked == 0 || last == 0
    ensures last + (parked0 - parked) + used == last0 || last <= IntAdvance(d)
    ensures forall k :: 0 <= k < mem.Length && !(base <= k < base + size) ==> mem[k] == old(mem[k])
    ensures Advances(ops, d, Chan(old(mem[base..base + (History(d) + parked0)]), last0, frac0), offered,
                     Chan(mem[base..base + (History(d) + parked)], last, frac), used, outs)
  {
    hide TableOk, Advances, IntAdvance, Rounded;
    var xlen := size - History(d);
    ghost var c0 := Chan(mem[base..base + (History(d) + parked0)], last0, frac0);
    last, frac, parked, used, samples, outs := last0, frac0, parked0, 0, [], [];
    RoundedNone(ops);
    AdvancesStart(ops, d, c0, offered);
    while used < |offered| && |samples| < outLen
      invariant samples == Rounded(ops, outs) && |samples| == |outs|
      invariant used <= |offered| && |outs| <= outLen && frac < d.den && parked <= parked0
      invariant parked == parked0 || parked == 0 || last == 0
      invariant last + (parked0 - parked) + used == last0 || last <= IntAdvance(d)
      invariant forall k :: 0 <= k < mem.Length && !(base <= k < base + size) ==> mem[k] == old(mem[k])
      invariant TableOk(ops, d, table)
      invariant Advances(ops, d, c0, offered, Chan(mem[base..base + (History(d) + parked)], last, frac), used, outs)
      decreases |offered| - used + (outLen - |samples|) + parked
    {
      var chunk := if |offered| - used > xlen then xlen else |offered| - used;
      var room := if outLen - |samples| > FIXED_STACK_ALLOC then FIXED_STACK_ALLOC else outLen - |samples|;
      ghost var c := Chan(mem[base..base + (History(d) + parked)], last, frac);
      var u, o;
      last, frac, parked, u,
        o := IntPass(ops, d, table, mem, base, size, last, frac, parked, offered, used, chunk, room);
      AdvancesChunk(ops, d, c0, offered, c, used, outs, chunk,
                    Chan(mem[base..base + (History(d) + parked)], last, frac), u, o);
      var rounded := RoundPass(ops, o);
      RoundedConcat(ops, outs, o);
      used, samples, outs := used + u, samples + rounded, outs + o;
    }
  }

  /** `speex_resampler_process_int` on one channel slot of `size` samples. `x` is the signal handed in, `outs` are the
      outputs before rounding. */
  method ProcessInt<S>(ops: Ops<S>, d: Design, table: array<S>, mem: array<S>, base: nat, size: nat,
                       last0: nat, frac0: nat, parked0: nat, input: Input<int>, outLen: nat)
    returns (last: nat, frac: nat, parked: nat, used: nat, samples: seq<int>, ghost outs: seq<S>,
             ghost x: seq<S>)
    requires Sound(d) && StepsExactly(d) && TableOk(ops, d, table) && mem != table && frac0 < d.den <= UINT32_MAX
    requires base + size <= mem.Length <= MAX_ELEMENTS && History(d) + parked0 <= size && History(d) < size
    requires outLen <= UINT32_MAX
    modifies mem
    ensures input.Samples? ==> |x| == |input.data| && forall k :: 0 <= k < |x| ==> x[k] == ops.fromInt(input.data[k])
    ensures input.Silence? ==> |x| == input.length && forall k :: 0 <= k < |x| ==> x[k] == ops.zero
    ensures |samples| == |outs| && forall k :: 0 <= k < |outs| ==> samples[k] == ops.toInt(outs[k])
    ensures parked <= parked0 && used <= |x| && |outs| <= outLen && frac < d.den
    ensures used == |x| || |outs| == outLen
    ensures parked == parked0 || parked == 0 || last == 0
    ensures last + (parked0 - parked) + used == last0 || last <= IntAdvance(d)
    ensures forall k :: 0 <= k < mem.Length && !(base <= k < base + size) ==> mem[k] == old(mem[k])
    ensures Advances(ops, d, Chan(old(mem[base..base + (History(d) + parked0)]), last0, frac0),
                     x, Chan(mem[base..base + (History(d) + parked)], last, frac), used, outs)
  {
    hide TableOk, Advances, IntAdvance, Rounded;
    x := Converted(ops, input);
    last, frac, parked, used, samples, outs :=
      IntChunks(ops, d, table, mem, base, size, last0, frac0, parked0, Converted(ops, input), outLen);
    RoundedAre(ops, outs);
  }

  lemma RoundedAre<S>(ops: Ops<S>, outs: seq<S>)
    ensures forall k :: 0 <= k < |outs| ==> Rounded(ops, outs)[k] == ops.toInt(outs[k])
  {
  }

  lemma RoundedNone<S>(ops: Ops<S>)
    ensures Rounded(ops, []) == []
  {
  }
}
