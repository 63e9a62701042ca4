/** What the streaming resampler computes, stated without its buffers: a channel
    is a stretch of pending samples with a rational read position, and one call
    advances it along an input stream. */
module StreamSpec {
  import opened RateMath

  /** How a filter is laid out in the coefficient table. */
  datatype Mode = Direct | Interpolated

  /** The argument of the windowed sinc: a whole tap minus phase/den, or a step of
      the oversampled table. */
  datatype Position = Tap(tap: int, phase: nat) | Fine(step: int)

  /** One filter: the quality level, the reduced ratio num/den, the number of taps. */
  datatype Design = Design(quality: int, num: nat, den: nat, taps: nat, oversample: nat, mode: Mode)

  /** Sample arithmetic, left abstract: zero, multiply-accumulate, the sinc value of
      a position, the cubic blend of four accumulators, and the conversions from and to
      16-bit samples. */
  datatype Ops<!S> = Ops(zero: S,
                         mac: (S, S, S) -> S,
                         sinc: (Design, Position) -> S,
                         blend: (nat, nat, seq<S>) -> S,
                         fromInt: int -> S,
                         toInt: S -> int)

  ghost predicate Sound(d: Design) {
    0 < d.num && 0 < d.den && 2 <= d.taps && d.taps % 2 == 0 && 0 < d.oversample
  }

  /** Samples kept before the input: all taps but one. */
  function History(d: Design): nat
    requires 1 <= d.taps
  {
    d.taps - 1
  }

  /** Whole and fractional part of num/den. */
  function IntAdvance(d: Design): nat
    requires 0 < d.den
  {
    Quotient(d.num, d.den)
  }

  function FracAdvance(d: Design): (r: nat)
    requires 0 < d.den
    ensures r < d.den
  {
    d.num % d.den
  }

  /** Adding the fractional advance to any phase fits 32 bits. */
  predicate StepsExactly(d: Design)
    requires 0 < d.den
  {
    d.den - 1 + FracAdvance(d) <= UINT32_MAX
  }

  // ---------------------------------------------------------------- one output sample

  /** Row of the oversampled table; the product wraps at 32 bits as in the source. */
  function Offset(d: Design, frac: nat): (r: nat)
    requires 0 < d.den
  {
    Wrap32(frac * d.oversample) / d.den
  }

  /** The wrapped product never leaves the table: the offset is below `oversample`. */
  lemma OffsetInRange(d: Design, frac: nat)
    requires Sound(d) && frac < d.den
    ensures Offset(d, frac) < d.oversample
  {
    hide Wrap32;
    var w := Wrap32(frac * d.oversample);
    ProductBelow(frac, d.oversample, d.den);
    QuotientBound(d.oversample, w, d.den);
  }

  lemma ProductBelow(f: nat, o: nat, d: nat)
    requires f < d && 0 < o
    ensures 0 <= f * o < o * d
  {
    MulMono(o, f, d - 1);
    assert o * (d - 1) == o * d - o;
  }

  /** Position between two rows of the oversampled table, in units of 1/den. */
  function FinePhase(d: Design, frac: nat): nat
    requires 0 < d.den
  {
    Wrap32(frac * d.oversample) % d.den
  }

  /** Distance of tap `j` in the oversampled table. */
  function Stride(d: Design, j: nat): int {
    (j + 1) * d.oversample
  }

  /** The position whose sinc weighs window sample `j` in accumulator `lane`. */
  function TapPosition(d: Design, lane: nat, frac: nat, j: nat): Position
    requires 0 < d.den
  {
    match d.mode
    case Direct => Tap(j - d.taps / 2 + 1, frac)
    case Interpolated => Fine(Stride(d, j) - Offset(d, frac) - 2 + lane)
  }

  /** The inner product of the first `k` samples of a window. */
  function Accumulate<S>(ops: Ops<S>, d: Design, lane: nat, frac: nat, w: seq<S>, k: nat): S
    requires 0 < d.den && k <= |w|
  {
    if k == 0 then ops.zero
    else ops.mac(Accumulate(ops, d, lane, frac, w, k - 1),
                 ops.sinc(d, TapPosition(d, lane, frac, k - 1)), w[k - 1])
  }

  /** The output sample at phase `frac` of a full window. */
  function PhaseOut<S>(ops: Ops<S>, d: Design, frac: nat, w: seq<S>): S
    requires 0 < d.den && |w| == d.taps
  {
    match d.mode
    case Direct => Accumulate(ops, d, 0, frac, w, d.taps)
    case Interpolated =>
      ops.blend(FinePhase(d, frac), d.den,
                [Accumulate(ops, d, 0, frac, w, d.taps), Accumulate(ops, d, 1, frac, w, d.taps),
                 Accumulate(ops, d, 2, frac, w, d.taps), Accumulate(ops, d, 3, frac, w, d.taps)])
  }

  /** The partial sums of one accumulator. */
  lemma {:induction false} PartialSums<S>(ops: Ops<S>, d: Design, lane: nat, frac: nat, w: seq<S>, k: nat)
    returns (acc: seq<S>)
    requires 0 < d.den && k <= |w|
    ensures |acc| == k + 1 && acc[0] == ops.zero && acc[k] == Accumulate(ops, d, lane, frac, w, k)
    ensures forall j :: 0 <= j < k ==>
            acc[j + 1] == ops.mac(acc[j], ops.sinc(d, TapPosition(d, lane, frac, j)), w[j])
  {
    hide TapPosition;
    if k == 0 {
      acc := [ops.zero];
    } else {
      var front := PartialSums(ops, d, lane, frac, w, k - 1);
      acc := front + [Accumulate(ops, d, lane, frac, w, k)];
    }
  }

  /** An output with the direct table: the window samples, weighed by the sinc values of
      their distances from the centre, added up in order. */
  lemma DirectOutput<S>(ops: Ops<S>, d: Design, frac: nat, w: seq<S>) returns (acc: seq<S>)
    requires 0 < d.den && |w| == d.taps && d.mode.Direct?
    ensures |acc| == d.taps + 1 && acc[0] == ops.zero && acc[d.taps] == PhaseOut(ops, d, frac, w)
    ensures forall j :: 0 <= j < d.taps ==>
            acc[j + 1] == ops.mac(acc[j], ops.sinc(d, Tap(j - d.taps / 2 + 1, frac)), w[j])
  {
    acc := PartialSums(ops, d, 0, frac, w, d.taps);
  }

  /** One of the four sums with the oversampled table. */
  ghost predicate LaneSums<S>(ops: Ops<S>, d: Design, lane: nat, frac: nat, w: seq<S>, acc: seq<S>)
    requires 0 < d.den && |w| == d.taps
  {
    && |acc| == d.taps + 1 && acc[0] == ops.zero
    && forall j :: 0 <= j < d.taps ==>
         var at := (j + 1) * d.oversample - frac * d.oversample % 0x1_0000_0000 / d.den - 2 + lane;
         acc[j + 1] == ops.mac(acc[j], ops.sinc(d, Fine(at)), w[j])
  }

  lemma LaneOutput<S>(ops: Ops<S>, d: Design, lane: nat, frac: nat, w: seq<S>) returns (acc: seq<S>)
    requires 0 < d.den && |w| == d.taps && d.mode.Interpolated?
    ensures LaneSums(ops, d, lane, frac, w, acc) && acc[d.taps] == Accumulate(ops, d, lane, frac, w, d.taps)
  {
    hide Accumulate;
    acc := PartialSums(ops, d, lane, frac, w, d.taps);
  }

  /** An output with the oversampled table: four such sums over neighbouring entries, blended
      by the rest of the phase. */
  lemma InterpolatedOutput<S>(ops: Ops<S>, d: Design, frac: nat, w: seq<S>)
    returns (a0: seq<S>, a1: seq<S>, a2: seq<S>, a3: seq<S>)
    requires 0 < d.den && |w| == d.taps && d.mode.Interpolated?
    ensures LaneSums(ops, d, 0, frac, w, a0) && LaneSums(ops, d, 1, frac, w, a1)
    ensures LaneSums(ops, d, 2, frac, w, a2) && LaneSums(ops, d, 3, frac, w, a3)
    ensures PhaseOut(ops, d, frac, w)
            == ops.blend(frac * d.oversample % 0x1_0000_0000 % d.den, d.den,
                         [a0[d.taps], a1[d.taps], a2[d.taps], a3[d.taps]])
  {
    hide Accumulate, LaneSums;
    a0 := LaneOutput(ops, d, 0, frac, w);
    a1 := LaneOutput(ops, d, 1, frac, w);
    a2 := LaneOutput(ops, d, 2, frac, w);
    a3 := LaneOutput(ops, d, 3, frac, w);
  }

  // ---------------------------------------------------------------- channels

  /** `pending` holds the taps-1 history samples and then the parked "magic" samples. */
  datatype Chan<S> = Chan(pending: seq<S>, last: nat, frac: nat)

  ghost predicate ChanOk<S>(d: Design, c: Chan<S>) {
    d.taps - 1 <= |c.pending| && c.frac < d.den
  }

  /** A read position in units of 1/den samples. */
  function PosOf(d: Design, last: nat, frac: nat): nat {
    d.den * last + frac
  }

  function Pos<S>(d: Design, c: Chan<S>): nat {
    PosOf(d, c.last, c.frac)
  }

  /** Position of output `n` when output 0 is at `p0`. */
  function OutPos(d: Design, p0: nat, n: nat): nat {
    p0 + d.num * n
  }

  /** Conservation: dropping `dropped` samples and producing `k` outputs takes the
      position from `p` to `p2`. */
  predicate Conserved(d: Design, p: nat, dropped: nat, p2: nat, k: nat) {
    p2 + d.den * dropped == OutPos(d, p, k)
  }

  /** Output `n` of the one-shot definition has its whole window inside `len` samples. */
  predicate Fits(d: Design, p0: nat, len: nat, n: nat)
    requires 0 < d.den
  {
    OutPos(d, p0, n) / d.den + d.taps <= len
  }

  /** Output `n` of the one-shot definition: the window starts at the whole part of
      the position, the phase is its fractional part. */
  function OutputAt<S>(ops: Ops<S>, d: Design, p0: nat, x: seq<S>, n: nat): S
    requires Sound(d) && Fits(d, p0, |x|, n)
  {
    var p := OutPos(d, p0, n);
    PhaseOut(ops, d, p % d.den, x[p / d.den..p / d.den + d.taps])
  }

  /** The first `k` windows fit. */
  predicate AllFit(d: Design, p0: nat, len: nat, k: nat)
    requires 0 < d.den
  {
    k == 0 || (Fits(d, p0, len, k - 1) && AllFit(d, p0, len, k - 1))
  }

  /** The first `k` outputs over the whole signal `x`, with no buffering at all. */
  ghost function OneShot<S>(ops: Ops<S>, d: Design, p0: nat, x: seq<S>, k: nat): (r: seq<S>)
    requires Sound(d) && AllFit(d, p0, |x|, k)
    ensures |r| == k
  {
    if k == 0 then [] else OneShot(ops, d, p0, x, k - 1) + [OutputAt(ops, d, p0, x, k - 1)]
  }

  lemma {:induction false} OneShotAt<S>(ops: Ops<S>, d: Design, p0: nat, x: seq<S>, k: nat, n: nat)
    requires Sound(d) && AllFit(d, p0, |x|, k) && n < k
    ensures Fits(d, p0, |x|, n) && OneShot(ops, d, p0, x, k)[n] == OutputAt(ops, d, p0, x, n)
  {
    if n < k - 1 {
      OneShotAt(ops, d, p0, x, k - 1, n);
    }
  }

  /** `c` moves to `c2` along `input`: it takes `used` samples of it, produces `outs`,
      and drops what lies before the new read position. */
  ghost predicate Advances<S>(ops: Ops<S>, d: Design, c: Chan<S>, input: seq<S>,
                              c2: Chan<S>, used: nat, outs: seq<S>)
    requires Sound(d)
  {
    var x := c.pending + input;
    var dropped := |c.pending| + used - |c2.pending|;
    && ChanOk(d, c) && ChanOk(d, c2)
    && used <= |input| && 0 <= dropped
    && c2.pending == x[dropped..|c.pending| + used]
    && Conserved(d, Pos(d, c), dropped, Pos(d, c2), |outs|)
    && AllFit(d, Pos(d, c), |x|, |outs|)
    && outs == OneShot(ops, d, Pos(d, c), x, |outs|)
  }

  lemma AdvancesStart<S>(ops: Ops<S>, d: Design, c: Chan<S>, input: seq<S>)
    requires Sound(d) && History(d) <= |c.pending| && c.frac < d.den
    ensures Advances(ops, d, c, input, c, 0, [])
  {
    var x := c.pending + input;
    assert x[0..|c.pending|] == c.pending;
    assert d.den * 0 == 0 && d.num * 0 == 0;
  }

  lemma {:induction false} OneShotExtend<S>(ops: Ops<S>, d: Design, p0: nat, x: seq<S>, y: seq<S>, k: nat)
    requires Sound(d) && AllFit(d, p0, |x|, k) && x <= y
    ensures AllFit(d, p0, |y|, k) && OneShot(ops, d, p0, y, k) == OneShot(ops, d, p0, x, k)
  {
    hide OutPos, PhaseOut;
    if k != 0 {
      OneShotExtend(ops, d, p0, x, y, k - 1);
      var s := OutPos(d, p0, k - 1) / d.den;
      assert x[s..s + d.taps] == y[s..s + d.taps];
    }
  }

  /** More input behind the offered input changes nothing. */
  lemma AdvancesExtend<S>(ops: Ops<S>, d: Design, c: Chan<S>, input: seq<S>, more: seq<S>,
                          c2: Chan<S>, used: nat, outs: seq<S>)
    requires Sound(d) && Advances(ops, d, c, input, c2, used, outs)
    ensures Advances(ops, d, c, input + more, c2, used, outs)
  {
    var x, y := c.pending + input, c.pending + (input + more);
    assert y[..|x|] == x;
    OneShotExtend(ops, d, Pos(d, c), x, y, |outs|);
  }

  /** An output of the advanced channel is a later output of the first one. */
  lemma OutputShift<S>(ops: Ops<S>, d: Design, p: nat, p2: nat, x: seq<S>, dropped: nat, k: nat, n: nat)
    requires Sound(d) && dropped <= |x|
    requires Conserved(d, p, dropped, p2, k)
    requires Fits(d, p2, |x| - dropped, n)
    ensures Fits(d, p, |x|, k + n)
    ensures OutputAt(ops, d, p, x, k + n) == OutputAt(ops, d, p2, x[dropped..], n)
  {
    var q := OutPos(d, p, k + n);
    assert d.num * (k + n) == d.num * k + d.num * n;
    assert OutPos(d, p2, n) == q - d.den * dropped;
    DivModShift(q, d.den, dropped);
    var s := q / d.den;
    assert x[dropped..][s - dropped..s - dropped + d.taps] == x[s..s + d.taps];
  }

  /** The one-shot outputs split at any point, the rest taken from the dropped signal. */
  lemma {:induction false} OneShotSplit<S>(ops: Ops<S>, d: Design, p: nat, p2: nat, x: seq<S>,
                                           dropped: nat, k: nat, n: nat)
    requires Sound(d) && dropped <= |x|
    requires Conserved(d, p, dropped, p2, k)
    requires AllFit(d, p, |x|, k) && AllFit(d, p2, |x| - dropped, n)
    ensures AllFit(d, p, |x|, k + n)
    ensures OneShot(ops, d, p, x, k + n) == OneShot(ops, d, p, x, k) + OneShot(ops, d, p2, x[dropped..], n)
  {
    hide Conserved, Fits, OutputAt;
    if n != 0 {
      OneShotSplit(ops, d, p, p2, x, dropped, k, n - 1);
      OutputShift(ops, d, p, p2, x, dropped, k, n - 1);
    }
  }

  lemma SliceTwice<S>(x: seq<S>, input: seq<S>, y: seq<S>, used: nat)
    requires used <= |input| && |y| <= |x| + used
    requires y == (x + input)[|x| + used - |y|..|x| + used]
    ensures y + input[used..] == (x + input)[|x| + used - |y|..]
  {
    var s, at := x + input, |x| + used;
    assert input[used..] == s[at..];
    assert s[at - |y|..] == s[at - |y|..at] + s[at..];
  }

  lemma SlicePast<S>(x: seq<S>, from: nat, more: nat, to: nat)
    requires from + more <= to <= |x|
    ensures x[from..][more..to - from] == x[from + more..to]
  {
  }

  /** Two advances in a row are one: the law that makes chunking invisible. */
  lemma AdvancesTrans<S>(ops: Ops<S>, d: Design, c: Chan<S>, input: seq<S>,
                         c2: Chan<S>, used: nat, outs: seq<S>,
                         c3: Chan<S>, used2: nat, outs2: seq<S>)
    requires Sound(d) && Advances(ops, d, c, input, c2, used, outs)
    requires Advances(ops, d, c2, input[used..], c3, used2, outs2)
    ensures Advances(ops, d, c, input, c3, used + used2, outs + outs2)
  {
    hide PosOf, OutPos, Conserved, AllFit, OneShot;
    var x, y := c.pending + input, c2.pending + input[used..];
    var dropped := |c.pending| + used - |c2.pending|;
    var dropped2 := |c2.pending| + used2 - |c3.pending|;
    SliceTwice(c.pending, input, c2.pending, used);
    SlicePast(x, dropped, dropped2, |c.pending| + used + used2);
    ConservedTrans(d, Pos(d, c), dropped, Pos(d, c2), |outs|, dropped2, Pos(d, c3), |outs2|);
    OneShotSplit(ops, d, Pos(d, c), Pos(d, c2), x, dropped, |outs|, |outs2|);
  }

  /** A chunk of the remaining input extends an advance. */
  lemma AdvancesChunk<S>(ops: Ops<S>, d: Design, c: Chan<S>, input: seq<S>,
                         c2: Chan<S>, used: nat, outs: seq<S>, chunk: nat,
                         c3: Chan<S>, used2: nat, outs2: seq<S>)
    requires Sound(d) && Advances(ops, d, c, input, c2, used, outs)
    requires used + chunk <= |input| && Advances(ops, d, c2, input[used..used + chunk], c3, used2, outs2)
    ensures Advances(ops, d, c, input, c3, used + used2, outs + outs2)
  {
    hide Advances;
    AdvancesExtend(ops, d, c2, input[used..used + chunk], input[used + chunk..], c3, used2, outs2);
    assert input[used..used + chunk] + input[used + chunk..] == input[used..];
    AdvancesTrans(ops, d, c, input, c2, used, outs, c3, used2, outs2);
  }

  lemma ConservedTrans(d: Design, p: nat, dropped: nat, p2: nat, k: nat, dropped2: nat, p3: nat, k2: nat)
    requires Conserved(d, p, dropped, p2, k) && Conserved(d, p2, dropped2, p3, k2)
    ensures Conserved(d, p, dropped + dropped2, p3, k + k2)
  {
    assert d.den * (dropped + dropped2) == d.den * dropped + d.den * dropped2;
    assert d.num * (k + k2) == d.num * k + d.num * k2;
  }

  /** Parked samples are input that has already been handed over. */
  lemma AdvancesParked<S>(ops: Ops<S>, d: Design, p: seq<S>, last: nat, frac: nat,
                          last2: nat, frac2: nat, used: nat, outs: seq<S>)
    requires Sound(d) && History(d) + used <= |p|
    requires Advances(ops, d, Chan(p[..History(d)], last, frac), p[History(d)..],
                      Chan(p[used..used + History(d)], last2, frac2), used, outs)
    ensures Advances(ops, d, Chan(p, last, frac), [], Chan(p[used..], last2, frac2), 0, outs)
  {
    hide PosOf, Conserved, AllFit, OneShot;
    assert p[..History(d)] + p[History(d)..] == p;
    assert p + [] == p;
    assert Pos(d, Chan(p[..History(d)], last, frac)) == Pos(d, Chan(p, last, frac));
  }

  lemma {:induction false} AllFitAt(d: Design, p0: nat, len: nat, k: nat, n: nat)
    requires 0 < d.den && AllFit(d, p0, len, k) && n < k
    ensures Fits(d, p0, len, n)
  {
    if n < k - 1 {
      AllFitAt(d, p0, len, k - 1, n);
    }
  }

  /** With the whole input taken and nothing parked, the outputs are exactly the
      windows that fit: output `n` exists if and only if its window lies inside. */
  lemma NothingMissing<S>(ops: Ops<S>, d: Design, c: Chan<S>, input: seq<S>,
                          c2: Chan<S>, used: nat, outs: seq<S>, n: nat)
    requires Sound(d) && Advances(ops, d, c, input, c2, used, outs)
    requires used == |input| && |c2.pending| == d.taps - 1
    ensures n < |outs| <==> Fits(d, Pos(d, c), |c.pending + input|, n)
  {
    var x := c.pending + input;
    var dropped := |x| - (d.taps - 1);
    if n < |outs| {
      AllFitAt(d, Pos(d, c), |x|, |outs|, n);
    } else {
      MulMono(d.num, |outs|, n);
      assert d.den * dropped <= OutPos(d, Pos(d, c), n);
      QuotientBound(dropped, OutPos(d, Pos(d, c), n), d.den);
    }
  }

  function Zeros<S>(ops: Ops<S>, n: nat): (z: seq<S>)
    ensures |z| == n && forall i :: 0 <= i < n ==> z[i] == ops.zero
  {
    seq(n, i => ops.zero)
  }

  // ---------------------------------------------------------------- filter length changes

  /** `update_filter` on one channel of a started resampler: the half difference in
      length is parked, taken from the parked samples, or padded with zeros. */
  function Refit<S>(ops: Ops<S>, c: Chan<S>, oldTaps: nat, taps: nat): (r: Chan<S>)
    requires 2 <= oldTaps && oldTaps - 1 <= |c.pending| && 2 <= taps
    requires oldTaps % 2 == 0 && taps % 2 == 0
  {
    var magic := |c.pending| - (oldTaps - 1);
    if taps <= oldTaps then
      c.(pending := c.pending[(oldTaps - taps) / 2..])
    else
      var e := (taps - oldTaps) / 2;
      if e <= magic then c.(pending := Zeros(ops, e) + c.pending)
      else c.(pending := Zeros(ops, 2 * e - magic) + c.pending, last := c.last + (e - magic))
  }

  /** The signal a channel reads, by distance from the centre of its next output:
      what lies before the kept history is silence. */
  function AtCentre<S>(ops: Ops<S>, taps: nat, c: Chan<S>, future: seq<S>, t: int): S {
    var k := c.last + taps / 2 + t;
    if 0 <= k < |c.pending + future| then (c.pending + future)[k] else ops.zero
  }

  /** A refit keeps the next output centred on the same sample and loses no pending
      or future input: seen from the centre the signal is the same, apart from the
      (old-new)/2 oldest samples that a shorter filter can no longer reach. */
  lemma RefitKeepsCentre<S>(ops: Ops<S>, c: Chan<S>, oldTaps: nat, taps: nat, future: seq<S>, t: int)
    requires 2 <= oldTaps && oldTaps - 1 <= |c.pending| && 2 <= taps
    requires oldTaps % 2 == 0 && taps % 2 == 0
    requires 0 <= Refit(ops, c, oldTaps, taps).last + taps / 2 + t
    ensures AtCentre(ops, taps, Refit(ops, c, oldTaps, taps), future, t)
            == AtCentre(ops, oldTaps, c, future, t)
  {
    var magic := |c.pending| - (oldTaps - 1);
    var r := Refit(ops, c, oldTaps, taps);
    var shift := |c.pending| - |r.pending|;
    assert r.last + taps / 2 + t == c.last + oldTaps / 2 + t - shift;
    var k := c.last + oldTaps / 2 + t;
    if shift <= k < |c.pending + future| {
      if k >= 0 {
        assert (r.pending + future)[k - shift] == (c.pending + future)[k];
      }
    }
  }

  /** Parked samples of a channel under a filter of `taps` taps. */
  function Parked<S>(c: Chan<S>, taps: nat): int {
    |c.pending| - (taps - 1)
  }

  /** A refit balances: last - parked - taps/2 does not move, and taps + 2*parked does
      not move either unless the longer filter uses up every parked sample. */
  lemma RefitBalance<S>(ops: Ops<S>, c: Chan<S>, oldTaps: nat, taps: nat)
    requires 2 <= oldTaps && oldTaps - 1 <= |c.pending| && 2 <= taps
    requires oldTaps % 2 == 0 && taps % 2 == 0
    ensures var r := Refit(ops, c, oldTaps, taps);
            && r.frac == c.frac && 0 <= Parked(r, taps)
            && r.last - Parked(r, taps) - taps / 2 == c.last - Parked(c, oldTaps) - oldTaps / 2
            && (taps + 2 * Parked(r, taps) == oldTaps + 2 * Parked(c, oldTaps)
                || (Parked(r, taps) == 0 && taps > oldTaps + 2 * Parked(c, oldTaps)))
  {
  }

  /** Shrinking and growing back restores everything but the oldest half difference,
      which comes back as zeros. */
  lemma ShrinkThenGrow<S>(ops: Ops<S>, c: Chan<S>, taps: nat, shorter: nat)
    requires 2 <= shorter <= taps <= |c.pending| + 1
    requires taps % 2 == 0 && shorter % 2 == 0
    ensures var e := (taps - shorter) / 2;
            Refit(ops, Refit(ops, c, taps, shorter), shorter, taps)
            == c.(pending := Zeros(ops, e) + c.pending[e..])
  {
    var e := (taps - shorter) / 2;
    var s := Refit(ops, c, taps, shorter);
    assert |s.pending| - (shorter - 1) >= e;
    if e == 0 {
      assert Zeros(ops, 0) + c.pending[0..] == c.pending;
    }
  }
}
