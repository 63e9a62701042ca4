/** Filter design, coefficient table and inner products. */
module FilterDesign {
  import opened Options
  import opened RateMath
  import opened StreamSpec

  /** INT_MAX / sizeof(float): the largest element count an allocation may have. */
  const MAX_ELEMENTS: nat := 536870911

  /** Slack of the read position beyond the parked samples and half a filter. */
  const POSITION_SLACK: nat := 0x1000_0000

  /** Input of a process call: samples, or a null pointer standing for silence. */
  datatype Input<S> = Samples(data: seq<S>) | Silence(length: nat)

  function Offered<S>(ops: Ops<S>, i: Input<S>): seq<S> {
    match i
    case Samples(data) => data
    case Silence(n) => Zeros(ops, n)
  }

  /** 16-bit input, converted to samples. */
  function Converted<S>(ops: Ops<S>, i: Input<int>): (r: seq<S>)
    ensures |r| == match i case Samples(data) => |data| case Silence(n) => n
  {
    match i
    case Samples(data) => seq(|data|, k requires 0 <= k < |data| => ops.fromInt(data[k]))
    case Silence(n) => Zeros(ops, n)
  }

  // ---------------------------------------------------------------- filter design

  function BaseLength(quality: int): (r: nat)
    requires 0 <= quality <= 10
    ensures r % 8 == 0 && 8 <= r <= 256
  {
    [8, 16, 32, 48, 64, 80, 96, 128, 160, 192, 256][quality]
  }

  function BaseOversample(quality: int): (r: nat)
    requires 0 <= quality <= 10
    ensures 4 <= r <= 32
  {
    [4, 4, 4, 8, 8, 16, 16, 16, 16, 32, 32][quality]
  }

  function Halve(cond: bool, x: nat): (r: nat)
    ensures r <= x
  {
    if cond then x / 2 else x
  }

  /** The oversampling factor after the four halvings of a steep down-sampling ratio. */
  function Oversampling(quality: int, num: nat, den: nat): (r: nat)
    requires 0 <= quality <= 10
    ensures 1 <= r <= 32
  {
    var o := BaseOversample(quality);
    if num > den then
      var o4 := Halve(Wrap32(16 * den) < num,
                Halve(Wrap32(8 * den) < num,
                Halve(Wrap32(4 * den) < num,
                Halve(Wrap32(2 * den) < num, o))));
      if o4 < 1 then 1 else o4
    else o
  }

  /** Scaled length before the round-up to a multiple of 8. */
  function ScaledLength(quality: int, num: nat, den: nat): Option<nat>
    requires 0 <= quality <= 10 && 0 < num && 0 < den
  {
    if num > den then MultiplyFrac(BaseLength(quality), num, den) else Some(BaseLength(quality))
  }

  /** The ratios whose scaled length does not fall into the last seven values below 2^32,
      where the round-up to a multiple of 8 would wrap. */
  predicate RoundUpSafe(quality: int, num: nat, den: nat)
    requires 0 <= quality <= 10 && 0 < den
  {
    !(UINT32_MAX - 7 < BaseLength(quality) * num / den <= UINT32_MAX)
  }

  /** The range in which the round-up at the down-sampling branch does not wrap. */
  predicate LengthFits(quality: int, num: nat, den: nat)
    requires 0 <= quality <= 10 && 0 < num && 0 < den
  {
    var l := ScaledLength(quality, num, den);
    l.Some? ==> l.value <= UINT32_MAX - 7
  }

  /** Round up to a multiple of 8, which wraps to 0 for the last seven 32-bit values. */
  function RoundUp8(l: nat): (r: nat)
    requires 1 <= l <= UINT32_MAX
    ensures l <= UINT32_MAX - 7 ==> r % 8 == 0 && l <= r <= l + 7
    ensures l > UINT32_MAX - 7 ==> r == 0
  {
    Wrap32(((l - 1) / 8) * 8 + 8)
  }

  /** The number of taps after the round-up. */
  function TapCount(quality: int, num: nat, den: nat): (r: nat)
    requires 0 <= quality <= 10 && 0 < num <= UINT32_MAX && 0 < den <= UINT32_MAX
    requires ScaledLength(quality, num, den).Some?
    ensures LengthFits(quality, num, den) ==> r % 8 == 0 && 8 <= r && Quotient(num, den) <= r / 8
    ensures !LengthFits(quality, num, den) ==> r == 0
  {
    LengthLowerBound(quality, num, den);
    var l := ScaledLength(quality, num, den).value;
    if num > den then RoundUp8(l) else l
  }

  /** Direct table when it is no larger than the oversampled one and fits; otherwise
      the oversampled table if that fits. */
  function ChooseMode(taps: nat, den: nat, os: nat): (r: Option<Mode>)
    requires 0 < den && 0 < os
    ensures r == Some(Direct) ==> taps * den <= MAX_ELEMENTS
    ensures r == Some(Interpolated) ==> taps * os + 8 <= MAX_ELEMENTS
  {
    QuotientBound(taps, MAX_ELEMENTS, den);
    QuotientBound(taps, MAX_ELEMENTS - 8, os);
    if Wrap32(taps * den) <= Wrap32(Wrap32(taps * os) + 8) && taps <= MAX_ELEMENTS / den then Some(Direct)
    else if (MAX_ELEMENTS - 8) / os < taps then None
    else Some(Interpolated)
  }

  /** The first half of `update_filter`: length, oversampling and table layout, or
      failure when no layout fits the allocation limit. */
  function DesignFilter(quality: int, num: nat, den: nat): (r: Option<Design>)
    requires 0 <= quality <= 10 && 0 < num <= UINT32_MAX && 0 < den <= UINT32_MAX
  {
    if ScaledLength(quality, num, den).None? then None
    else
      var taps := TapCount(quality, num, den);
      var os := Oversampling(quality, num, den);
      match ChooseMode(taps, den, os)
      case None => None
      case Some(mode) => Some(Design(quality, num, den, taps, os, mode))
  }

  lemma AtLeastFactor(a: nat, b: nat)
    requires 0 < b
    ensures a <= a * b
  {
    MulMono(a, 1, b);
  }

  /** What a usable design satisfies: an even filter of whole groups of 8, a table within
      the allocation limit, a step of at most an eighth of the filter that no phase sum
      wraps. */
  ghost predicate GoodDesign(d: Design, quality: int, num: nat, den: nat) {
    && Sound(d) && StepsExactly(d) && d.quality == quality && d.num == num && d.den == den
    && d.taps % 8 == 0 && 8 <= d.taps <= MAX_ELEMENTS
    && IntAdvance(d) <= d.taps / 8
    && TableLength(d) <= MAX_ELEMENTS
  }

  function TableLength(d: Design): nat {
    if d.mode.Direct? then d.taps * d.den else d.taps * d.oversample + 8
  }

  /** The ratios for which an accepted design can be used. */
  predicate Usable(quality: int, num: nat, den: nat)
    requires 0 <= quality <= 10 && 0 < den
  {
    RoundUpSafe(quality, num, den) && den - 1 + num % den <= UINT32_MAX
  }

  lemma FitsExactly(quality: int, num: nat, den: nat)
    requires 0 <= quality <= 10 && 0 < num <= UINT32_MAX && 0 < den && ScaledLength(quality, num, den).Some?
    ensures LengthFits(quality, num, den) <==> RoundUpSafe(quality, num, den)
  {
    var b := BaseLength(quality);
    if num > den {
      hide MultiplyFrac;
      MultiplyFracExact(b, num, den);
    } else {
      MulMono(b, num, den);
      QuotientBound(b + 1, b * num, den);
      assert (b + 1) * den == b * den + den;
    }
  }

  /** Safety is a property of the ratio, not of the way it is written. */
  lemma SafeReduced(quality: int, g: nat, num: nat, den: nat)
    requires 0 <= quality <= 10 && Divides(g, num) && Divides(g, den) && 0 < den && 0 < den / g
    ensures RoundUpSafe(quality, num, den) <==> RoundUpSafe(quality, num / g, den / g)
  {
    DividesTimes(g, num);
    DividesTimes(g, den);
    EqualRatiosScale(BaseLength(quality), g, num / g, den / g);
  }

  /** An accepted design is good exactly when the round-up and the phase sums do not wrap. */
  lemma DesignIsGood(quality: int, num: nat, den: nat)
    requires 0 <= quality <= 10 && 0 < num <= UINT32_MAX && 0 < den <= UINT32_MAX
    ensures var r := DesignFilter(quality, num, den);
            r.Some? ==> (GoodDesign(r.value, quality, num, den) <==> Usable(quality, num, den))
  {
    var r := DesignFilter(quality, num, den);
    if r.Some? {
      FitsExactly(quality, num, den);
      hide ScaledLength, TapCount, Oversampling, ChooseMode, Quotient, TableLength, RoundUpSafe, LengthFits;
      var taps, os := TapCount(quality, num, den), Oversampling(quality, num, den);
      if LengthFits(quality, num, den) { EvenEight(taps); }
      TableFits(taps, den, os, r.value);
    }
  }

  // ---------------------------------------------------------------- which filter it is

  /** The least multiple of 8 not below `l`. */
  lemma RoundUpLeast(l: nat)
    requires 1 <= l <= UINT32_MAX - 7
    ensures RoundUp8(l) == (l + 7) / 8 * 8
  {
    var q := (l - 1) / 8;
    DivModUnique(l + 7, 8, q + 1, (l - 1) % 8);
  }

  /** The number of taps: the base length, scaled with a steep ratio. */
  lemma TapsAre(quality: int, num: nat, den: nat)
    requires 0 <= quality <= 10 && 0 < num <= UINT32_MAX && 0 < den <= UINT32_MAX
    ensures var base := [8, 16, 32, 48, 64, 80, 96, 128, 160, 192, 256][quality];
            && (ScaledLength(quality, num, den).Some?
                <==> num <= den || (base % den * num <= UINT32_MAX && base * num / den <= UINT32_MAX))
            && (ScaledLength(quality, num, den).Some? ==>
                TapCount(quality, num, den) == if num <= den then base
                                               else if base * num / den <= UINT32_MAX - 7
                                               then (base * num / den + 7) / 8 * 8 else 0)
  {
    var base := BaseLength(quality);
    if num > den {
      MultiplyFracExact(base, num, den);
      var l := ScaledLength(quality, num, den);
      if l.Some? {
        LengthLowerBound(quality, num, den);
        hide MultiplyFrac;
        if l.value <= UINT32_MAX - 7 { RoundUpLeast(l.value); }
      }
    }
  }

  lemma HalvedTwice(x: nat, n: nat)
    requires 0 < n
    ensures x / n / 2 == x / (2 * n)
  {
    var q, r := x / n, x % n;
    assert x == n * q + r;
    var h, b := q / 2, q % 2;
    assert n * q == n * (2 * h + b) == 2 * n * h + n * b;
    DivModUnique(x, 2 * n, h, n * b + r);
  }

  function Times(c: bool): nat {
    if c then 1 else 0
  }

  /** Halving under four conditions divides by two once for each that holds. */
  lemma HalvedFour(x: nat, a: bool, b: bool, c: bool, d: bool)
    ensures Halve(d, Halve(c, Halve(b, Halve(a, x)))) == x / [1, 2, 4, 8, 16][Times(a) + Times(b) + Times(c) + Times(d)]
  {
    HalvedTwice(x, 2);
    HalvedTwice(x, 4);
    HalvedTwice(x, 8);
  }

  /** Which filter the design part picks. The taps are the base length of the quality, or with
      num > den the least multiple of 8 not below floor(base * num / den). The oversampling
      factor is the base value halved once for each of 2, 4, 8 and 16 times den that lies
      below num, and at least 1. The table is direct exactly when that is no longer than the
      oversampled one and within the allocation limit. Products and sums are as 32 bits hold
      them. */
  lemma FilterChosen(quality: int, num: nat, den: nat)
    requires 0 <= quality <= 10 && 0 < num <= UINT32_MAX && 0 < den <= UINT32_MAX
    requires DesignFilter(quality, num, den).Some?
    ensures var d := DesignFilter(quality, num, den).value;
            var length := [8, 16, 32, 48, 64, 80, 96, 128, 160, 192, 256][quality];
            var rows := [4, 4, 4, 8, 8, 16, 16, 16, 16, 32, 32][quality];
            var halvings := Times(2 * den % 0x1_0000_0000 < num) + Times(4 * den % 0x1_0000_0000 < num)
                            + Times(8 * den % 0x1_0000_0000 < num) + Times(16 * den % 0x1_0000_0000 < num);
            var halved := rows / [1, 2, 4, 8, 16][halvings];
            && d.quality == quality && d.num == num && d.den == den
            && d.taps == (if num <= den then length
                          else if length * num / den <= UINT32_MAX - 7 then (length * num / den + 7) / 8 * 8 else 0)
            && d.oversample == (if num <= den then rows else if halved < 1 then 1 else halved)
            && (d.mode.Direct? <==> && d.taps * den % 0x1_0000_0000 <= (d.taps * d.oversample + 8) % 0x1_0000_0000
                                    && d.taps * den <= 536870911)
  {
    TapsAre(quality, num, den);
    OversamplingIs(quality, num, den);
    hide ScaledLength, TapCount, Oversampling, DesignFilter, ChooseMode;
    DesignParts(quality, num, den);
    var d := DesignFilter(quality, num, den).value;
    ModeIs(d.taps, den, d.oversample);
  }

  lemma OversamplingIs(quality: int, num: nat, den: nat)
    requires 0 <= quality <= 10
    ensures var rows := [4, 4, 4, 8, 8, 16, 16, 16, 16, 32, 32][quality];
            var halvings := Times(2 * den % 0x1_0000_0000 < num) + Times(4 * den % 0x1_0000_0000 < num)
                            + Times(8 * den % 0x1_0000_0000 < num) + Times(16 * den % 0x1_0000_0000 < num);
            var halved := rows / [1, 2, 4, 8, 16][halvings];
            Oversampling(quality, num, den) == if num <= den then rows else if halved < 1 then 1 else halved
  {
    hide Halve;
    HalvedFour(BaseOversample(quality), Wrap32(2 * den) < num, Wrap32(4 * den) < num, Wrap32(8 * den) < num,
               Wrap32(16 * den) < num);
  }

  lemma DesignParts(quality: int, num: nat, den: nat)
    requires 0 <= quality <= 10 && 0 < num <= UINT32_MAX && 0 < den <= UINT32_MAX
    requires DesignFilter(quality, num, den).Some?
    ensures var d := DesignFilter(quality, num, den).value;
            && ScaledLength(quality, num, den).Some?
            && d.quality == quality && d.num == num && d.den == den
            && d.taps == TapCount(quality, num, den) && d.oversample == Oversampling(quality, num, den)
            && ChooseMode(d.taps, den, d.oversample) == Some(d.mode)
  {
    hide ScaledLength, TapCount, Oversampling, ChooseMode;
  }

  /** The layout, or none when neither fits. */
  lemma ModeIs(taps: nat, den: nat, os: nat)
    requires 0 < den && 0 < os
    ensures var direct := taps * den % 0x1_0000_0000 <= (taps * os + 8) % 0x1_0000_0000 && taps * den <= 536870911;
            ChooseMode(taps, den, os)
            == if direct then Some(Direct) else if taps * os + 8 <= 536870911 then Some(Interpolated) else None
  {
    QuotientBound(taps, MAX_ELEMENTS, den);
    QuotientBound(taps, MAX_ELEMENTS - 8, os);
    WrapTwice(taps * os, 8);
  }

  lemma WrapTwice(x: nat, y: nat)
    ensures Wrap32(Wrap32(x) + y) == (x + y) % 0x1_0000_0000
  {
    assert x + y == TWO32 * (x / TWO32) + (Wrap32(x) + y);
  }

  /** A filter is refused exactly when its length does not fit 32 bits on the way or neither
      table is within the allocation limit. */
  lemma RefusedExactly(quality: int, num: nat, den: nat)
    requires 0 <= quality <= 10 && 0 < num <= UINT32_MAX && 0 < den <= UINT32_MAX
    ensures DesignFilter(quality, num, den).None?
            <==> if ScaledLength(quality, num, den).None? then true
                 else
                   var taps, os := TapCount(quality, num, den), Oversampling(quality, num, den);
                   && !(&& taps * den % 0x1_0000_0000 <= (taps * os + 8) % 0x1_0000_0000 && taps * den <= 536870911)
                   && taps * os + 8 > 536870911
  {
    if ScaledLength(quality, num, den).Some? {
      hide ScaledLength, TapCount, Oversampling, ChooseMode;
      ModeIs(TapCount(quality, num, den), den, Oversampling(quality, num, den));
    }
  }

  /** Where 32 bits hold both sizes, the table is no longer than any layout within the
      allocation limit, and a tie goes to the direct one. */
  lemma LeastTable(quality: int, num: nat, den: nat)
    requires 0 <= quality <= 10 && 0 < num <= UINT32_MAX && 0 < den <= UINT32_MAX
    requires DesignFilter(quality, num, den).Some?
    ensures var d := DesignFilter(quality, num, den).value;
            var direct, fine := d.taps * den, d.taps * d.oversample + 8;
            var size := if d.mode.Direct? then direct else fine;
            direct <= UINT32_MAX && fine <= UINT32_MAX ==>
              && size <= 536870911
              && (direct <= 536870911 ==> size <= direct)
              && (fine <= 536870911 ==> size <= fine)
              && (direct == fine ==> d.mode.Direct?)
  {
    var d := DesignFilter(quality, num, den).value;
    DesignParts(quality, num, den);
    hide DesignFilter, ScaledLength, TapCount, Oversampling, ChooseMode;
    LeastMode(d.taps, den, d.oversample, d.mode);
  }

  lemma LeastMode(taps: nat, den: nat, os: nat, mode: Mode)
    requires 0 < den && 0 < os && ChooseMode(taps, den, os) == Some(mode)
    ensures var direct, fine := taps * den, taps * os + 8;
            var size := if mode.Direct? then direct else fine;
            direct <= UINT32_MAX && fine <= UINT32_MAX ==>
              && size <= 536870911
              && (direct <= 536870911 ==> size <= direct)
              && (fine <= 536870911 ==> size <= fine)
              && (direct == fine ==> mode.Direct?)
  {
    hide ChooseMode;
    ModeIs(taps, den, os);
    var direct, fine := taps * den, taps * os + 8;
    assert direct <= UINT32_MAX ==> direct % 0x1_0000_0000 == direct;
    assert fine <= UINT32_MAX ==> fine % 0x1_0000_0000 == fine;
  }

  /** A ratio whose filter ends up without taps. */
  lemma RoundUpWraps()
    ensures var r := DesignFilter(0, 0x3FFF_FFFF, 2); r.Some? && r.value.taps == 0
  {
    var num := 0x3FFF_FFFF;
    assert BaseLength(0) == 8;
    MultiplyFracExact(8, num, 2);
    assert ScaledLength(0, num, 2) == Some(UINT32_MAX - 3);
    hide ScaledLength, TapCount, Oversampling;
    assert TapCount(0, num, 2) == 0;
    EmptyMode(2, Oversampling(0, num, 2));
  }

  lemma EmptyMode(den: nat, os: nat)
    requires 0 < den && 0 < os
    ensures ChooseMode(0, den, os) == Some(Direct)
  {
  }

  /** The shape of any accepted design; one without taps needs no table. */
  lemma DesignShape(quality: int, num: nat, den: nat)
    requires 0 <= quality <= 10 && 0 < num <= UINT32_MAX && 0 < den <= UINT32_MAX
    ensures var r := DesignFilter(quality, num, den);
            r.Some? ==> && r.value.quality == quality && r.value.num == num && r.value.den == den
                        && (RoundUpSafe(quality, num, den) <==> r.value.taps != 0)
                        && (r.value.taps != 0 ==> Sound(r.value) && 8 <= r.value.taps <= MAX_ELEMENTS)
                        && (r.value.taps == 0 ==> TableLength(r.value) == 0)
  {
    var r := DesignFilter(quality, num, den);
    if r.Some? {
      FitsExactly(quality, num, den);
      hide ScaledLength, TapCount, Oversampling, ChooseMode, Quotient, RoundUpSafe, LengthFits;
      var taps, os := TapCount(quality, num, den), Oversampling(quality, num, den);
      TableFits(taps, den, os, r.value);
      if taps == 0 {
        EmptyMode(den, os);
      } else {
        EvenEight(taps);
      }
    }
  }

  lemma EvenEight(n: nat)
    requires n % 8 == 0
    ensures n % 2 == 0
  {
    var k := n / 8;
    assert n == 2 * (4 * k);
    DivModUnique(n, 2, 4 * k, 0);
  }

  /** The chosen table fits, and so does the filter. */
  lemma TableFits(taps: nat, den: nat, os: nat, d: Design)
    requires 0 < den && 0 < os && ChooseMode(taps, den, os) == Some(d.mode)
    requires d.taps == taps && d.den == den && d.oversample == os
    ensures TableLength(d) <= MAX_ELEMENTS && taps <= MAX_ELEMENTS
  {
    hide ChooseMode;
    AtLeastFactor(taps, den);
    AtLeastFactor(taps, os);
  }

  lemma ScaledAtLeast(b: nat, num: nat, den: nat)
    requires 0 < den && 8 <= b
    ensures 8 * Quotient(num, den) <= b * num / den
  {
    var q := Quotient(num, den);
    QuotientBound(q, num, den);
    MulMono(8, q * den, num);
    MulMono(num, 8, b);
    assert (8 * q) * den == 8 * (q * den);
    QuotientBound(8 * q, b * num, den);
  }

  lemma LengthLowerBound(quality: int, num: nat, den: nat)
    requires 0 <= quality <= 10 && 0 < num <= UINT32_MAX && 0 < den <= UINT32_MAX
    requires ScaledLength(quality, num, den).Some?
    ensures 8 <= ScaledLength(quality, num, den).value
    ensures Quotient(num, den) <= ScaledLength(quality, num, den).value / 8
  {
    hide MultiplyFrac;
    var b := BaseLength(quality);
    QuotientBound(1, num, den);
    QuotientBound(2, num, den);
    if num > den {
      MultiplyFracExact(b, num, den);
      ScaledAtLeast(b, num, den);
    }
    hide Quotient;
  }

  // ---------------------------------------------------------------- coefficient table

  /** The coefficient that belongs at index `k` of the table. */
  function Coefficient<S>(ops: Ops<S>, d: Design, k: nat): S
    requires 0 < d.taps
  {
    if d.mode.Direct? then ops.sinc(d, Tap(k % d.taps - d.taps / 2 + 1, k / d.taps))
    else ops.sinc(d, Fine(k - 4))
  }

  ghost predicate TableOk<S>(ops: Ops<S>, d: Design, table: array<S>)
    reads table
    requires 0 < d.taps
  {
    && TableLength(d) <= table.Length
    && forall k :: 0 <= k < TableLength(d) ==> table[k] == Coefficient(ops, d, k)
  }

  /** Grows an array, keeping its contents; what lies behind them is unspecified. */
  method Realloc<S>(a: array<S>, size: nat, filler: S) returns (b: array<S>)
    requires a.Length <= size
    ensures fresh(b) && b.Length == size
    ensures forall k :: 0 <= k < a.Length ==> b[k] == a[k]
  {
    b := new S[size](_ => filler);
    for k := 0 to a.Length
      invariant forall i :: 0 <= i < k ==> b[i] == a[i]
      invariant forall i :: 0 <= i < a.Length ==> a[i] == old(a[i])
    {
      b[k] := a[k];
    }
  }

  method FillTable<S>(ops: Ops<S>, d: Design, table: array<S>)
    requires Sound(d) && TableLength(d) <= table.Length
    modifies table
    ensures TableOk(ops, d, table)
  {
    if d.mode.Direct? {
      for i := 0 to d.den
        invariant i * d.taps <= d.den * d.taps
        invariant forall k :: 0 <= k < i * d.taps ==> table[k] == Coefficient(ops, d, k)
      {
        MulMono(d.taps, i + 1, d.den);
        assert (i + 1) * d.taps == i * d.taps + d.taps;
        for j := 0 to d.taps
          invariant forall k :: 0 <= k < i * d.taps + j ==> table[k] == Coefficient(ops, d, k)
        {
          DivModUnique(i * d.taps + j, d.taps, i, j);
          table[i * d.taps + j] := ops.sinc(d, Tap(j - d.taps / 2 + 1, i));
        }
      }
    } else {
      for i := -4 to d.oversample * d.taps + 4
        invariant forall k :: 0 <= k < i + 4 ==> table[k] == Coefficient(ops, d, k)
      {
        table[i + 4] := ops.sinc(d, Fine(i));
      }
    }
  }

  /** Row `frac` of the direct table holds the taps of that phase. */
  lemma DirectIndex<S>(ops: Ops<S>, d: Design, frac: nat, j: nat)
    requires Sound(d) && d.mode.Direct? && frac < d.den && j < d.taps
    ensures frac * d.taps + j < TableLength(d)
    ensures Coefficient(ops, d, frac * d.taps + j) == ops.sinc(d, TapPosition(d, 0, frac, j))
  {
    MulMono(d.taps, frac + 1, d.den);
    assert d.taps * (frac + 1) == frac * d.taps + d.taps;
    DivModUnique(frac * d.taps + j, d.taps, frac, j);
  }

  /** The four oversampled entries around tap `j` are inside the table. */
  lemma InterpolatedIndex(d: Design, frac: nat, j: nat)
    requires Sound(d) && d.mode.Interpolated? && frac < d.den && j < d.taps
    ensures 2 <= 4 + Stride(d, j) - Offset(d, frac)
    ensures 4 + Stride(d, j) - Offset(d, frac) + 1 < TableLength(d)
  {
    OffsetInRange(d, frac);
    MulMono(d.oversample, 1, j + 1);
    MulMono(d.oversample, j + 1, d.taps);
  }

  /** The loop of `resampler_basic_direct_single` over one window. */
  method ProductDirect<S>(ops: Ops<S>, d: Design, table: array<S>, mem: array<S>, at: nat, frac: nat)
    returns (sum: S)
    requires Sound(d) && d.mode.Direct? && TableOk(ops, d, table)
    requires frac < d.den && at + d.taps <= mem.Length
    ensures sum == PhaseOut(ops, d, frac, mem[at..at + d.taps])
  {
    hide TableLength, Coefficient, TapPosition;
    ghost var w := mem[at..at + d.taps];
    sum := ops.zero;
    for j := 0 to d.taps
      invariant sum == Accumulate(ops, d, 0, frac, w, j)
    {
      DirectIndex(ops, d, frac, j);
      sum := ops.mac(sum, table[frac * d.taps + j], mem[at + j]);
    }
  }

  /** The entry that accumulator `lane` uses for tap `j`. */
  lemma InterpolatedTap<S>(ops: Ops<S>, d: Design, table: array<S>, frac: nat, j: nat, lane: nat)
    requires Sound(d) && d.mode.Interpolated? && TableOk(ops, d, table) && frac < d.den && j < d.taps && lane < 4
    ensures var k := 4 + Stride(d, j) - Offset(d, frac) - 2 + lane;
            0 <= k < table.Length && table[k] == ops.sinc(d, TapPosition(d, lane, frac, j))
  {
    hide TableLength, Stride, Offset;
    InterpolatedIndex(d, frac, j);
  }

  /** The loop of `resampler_basic_interpolate_single`: four accumulators over the
      oversampled table, then the blend. */
  method ProductInterpolated<S>(ops: Ops<S>, d: Design, table: array<S>, mem: array<S>, at: nat, frac: nat)
    returns (sum: S)
    requires Sound(d) && d.mode.Interpolated? && TableOk(ops, d, table)
    requires frac < d.den && at + d.taps <= mem.Length
    ensures sum == PhaseOut(ops, d, frac, mem[at..at + d.taps])
  {
    hide TableLength, Stride, Offset, FinePhase, TableOk, TapPosition;
    ghost var w := mem[at..at + d.taps];
    var offset := Offset(d, frac);
    var a0, a1, a2, a3 := ops.zero, ops.zero, ops.zero, ops.zero;
    for j := 0 to d.taps
      invariant a0 == Accumulate(ops, d, 0, frac, w, j)
      invariant a1 == Accumulate(ops, d, 1, frac, w, j)
      invariant a2 == Accumulate(ops, d, 2, frac, w, j)
      invariant a3 == Accumulate(ops, d, 3, frac, w, j)
    {
      InterpolatedTap(ops, d, table, frac, j, 0);
      InterpolatedTap(ops, d, table, frac, j, 1);
      InterpolatedTap(ops, d, table, frac, j, 2);
      InterpolatedTap(ops, d, table, frac, j, 3);
      var k := 4 + Stride(d, j) - offset;
      a0 := ops.mac(a0, table[k - 2], mem[at + j]);
      a1 := ops.mac(a1, table[k - 1], mem[at + j]);
      a2 := ops.mac(a2, table[k], mem[at + j]);
      a3 := ops.mac(a3, table[k + 1], mem[at + j]);
    }
    sum := ops.blend(FinePhase(d, frac), d.den, [a0, a1, a2, a3]);
  }
}
