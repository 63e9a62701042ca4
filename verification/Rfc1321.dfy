/** MD5 as sections 3.1 to 3.5 of RFC 1321 define it, over an abstract function for one
    16-word block. */
module Rfc1321 {
  type Byte = x: int | 0 <= x < 256
  type Word = x: int | 0 <= x < WORD

  const WORD := 0x1_0000_0000
  const LONG := 0x1_0000_0000_0000_0000

  /** The registers A, B, C and D. */
  datatype Abcd = Abcd(a: Word, b: Word, c: Word, d: Word)

  /** Section 3.3. */
  const START: Abcd := Abcd(0x67452301, 0xefcdab89, 0x98badcfe, 0x10325476)

  type Compress = (Abcd, seq<Byte>) -> Abcd

  function Zeros(n: nat): (r: seq<Byte>)
    ensures |r| == n
  {
    seq(n, _ => 0)
  }

  /** How many zero bytes follow the first padding byte. */
  function ZeroCount(n: nat): (r: nat)
    ensures r < 64
  {
    (55 - n) % 64
  }

  /** Byte `k` of a word, low-order byte first. */
  function ByteOf(w: Word, k: nat): Byte
    requires k < 4
  {
    (if k == 0 then w else if k == 1 then w / 0x100 else if k == 2 then w / 0x1_0000 else w / 0x100_0000) % 256
  }

  function WordBytes(w: Word): (r: seq<Byte>)
    ensures |r| == 4
  {
    [ByteOf(w, 0), ByteOf(w, 1), ByteOf(w, 2), ByteOf(w, 3)]
  }

  /** A 64-bit length as two words, low-order word first. */
  function LengthBytes(bits: nat): (r: seq<Byte>)
    ensures |r| == 8
  {
    WordBytes(bits % WORD) + WordBytes(bits / WORD % WORD)
  }

  /** Sections 3.1 and 3.2: a bit 1, zeros up to 448 modulo 512 bits, and the length. */
  function Padded(m: seq<Byte>): seq<Byte> {
    m + ([0x80] + Zeros(ZeroCount(|m|))) + LengthBytes(8 * |m|)
  }

  /** Section 3.4: the blocks of a message, one after the other; what is left of a last
      block is not looked at. */
  function Blocks(f: Compress, h: Abcd, m: seq<Byte>): Abcd
    decreases |m|
  {
    if |m| < 64 then h else Blocks(f, f(h, m[..64]), m[64..])
  }

  /** Section 3.5. */
  function DigestBytes(h: Abcd): (r: seq<Byte>)
    ensures |r| == 16
  {
    WordBytes(h.a) + WordBytes(h.b) + WordBytes(h.c) + WordBytes(h.d)
  }

  function DigestOf(f: Compress, m: seq<Byte>): seq<Byte> {
    DigestBytes(Blocks(f, START, Padded(m)))
  }

  // ---------------------------------------------------------------- padding

  /** Padding fills whole blocks. */
  lemma PaddedWhole(m: seq<Byte>)
    ensures |Padded(m)| % 64 == 0
  {
    hide LengthBytes, Zeros;
    PadLength(|m|);
  }

  lemma PadLength(n: nat)
    ensures (n + 1 + ZeroCount(n) + 8) % 64 == 0
  {
    var q := (55 - n) / 64;
    assert n + 1 + ZeroCount(n) + 8 == 64 * (1 - q);
    WholeBlocks(1 - q);
  }

  lemma WholeBlocks(k: int)
    ensures 64 * k % 64 == 0
  {
  }

  lemma WordBytesInjective(v: Word, w: Word)
    requires WordBytes(v) == WordBytes(w)
    ensures v == w
  {
    var x, y := WordBytes(v), WordBytes(w);
    assert x[0] == y[0] && x[1] == y[1] && x[2] == y[2] && x[3] == y[3];
    FromBytes(v);
    FromBytes(w);
  }

  lemma FromBytes(w: Word)
    ensures w == ByteOf(w, 0) + 0x100 * ByteOf(w, 1) + 0x1_0000 * ByteOf(w, 2) + 0x100_0000 * ByteOf(w, 3)
  {
  }

  lemma LengthBytesInjective(x: nat, y: nat)
    requires x < LONG && y < LONG && LengthBytes(x) == LengthBytes(y)
    ensures x == y
  {
    hide WordBytes;
    assert LengthBytes(x)[..4] == WordBytes(x % WORD) && LengthBytes(y)[..4] == WordBytes(y % WORD);
    assert LengthBytes(x)[4..] == WordBytes(x / WORD % WORD) && LengthBytes(y)[4..] == WordBytes(y / WORD % WORD);
    WordBytesInjective(x % WORD, y % WORD);
    WordBytesInjective(x / WORD % WORD, y / WORD % WORD);
  }

  /** Messages shorter than 2^64 bits are padded differently. */
  lemma PaddedInjective(m: seq<Byte>, n: seq<Byte>)
    requires 8 * |m| < LONG && 8 * |n| < LONG && Padded(m) == Padded(n)
    ensures m == n
  {
    var p := Padded(m);
    assert p[|p| - 8..] == LengthBytes(8 * |m|);
    assert p[|p| - 8..] == LengthBytes(8 * |n|);
    LengthBytesInjective(8 * |m|, 8 * |n|);
    assert p[..|m|] == m && p[..|n|] == n;
  }

  // ---------------------------------------------------------------- blocks

  lemma {:induction false} BlocksMore(f: Compress, h: Abcd, m: seq<Byte>, done: nat)
    requires done % 64 == 0 && done + 64 <= |m|
    ensures Blocks(f, h, m[..done + 64]) == f(Blocks(f, h, m[..done]), m[done..done + 64])
    decreases |m|
  {
    if done == 0 {
      assert m[..64][..64] == m[0..64] && m[..64][64..] == [];
    } else {
      assert m[..done + 64][..64] == m[..64] && m[..done + 64][64..] == m[64..][..done];
      assert m[..done][..64] == m[..64] && m[..done][64..] == m[64..][..done - 64];
      assert m[64..][done - 64..done] == m[done..done + 64];
      BlocksMore(f, f(h, m[..64]), m[64..], done - 64);
    }
  }

  // ---------------------------------------------------------------- byte by byte

  /** The number that bytes write, low-order byte first. */
  function Little(b: seq<Byte>): nat {
    if b == [] then 0 else b[0] + 0x100 * Little(b[1..])
  }

  lemma WordLittle(w: Word)
    ensures Little(WordBytes(w)) == w
  {
    var b := WordBytes(w);
    var b1, b2, b3, b4 := b[1..], b[2..], b[3..], b[4..];
    assert b1[1..] == b2 && b2[1..] == b3 && b3[1..] == b4;
    FromBytes(w);
    hide ByteOf;
    assert Little(b4) == 0;
    assert Little(b3) == b[3];
    assert Little(b2) == b2[0] + 0x100 * Little(b3);
    assert Little(b1) == b1[0] + 0x100 * Little(b2);
  }

  lemma LengthLittle(bits: nat)
    ensures Little(LengthBytes(bits)[..4]) + WORD * Little(LengthBytes(bits)[4..]) == bits % LONG
  {
    var lo, hi := bits % WORD, bits / WORD % WORD;
    hide WordBytes, Little;
    assert LengthBytes(bits)[..4] == WordBytes(lo) && LengthBytes(bits)[4..] == WordBytes(hi);
    WordLittle(lo);
    WordLittle(hi);
    assert bits == LONG * (bits / WORD / WORD) + (lo + WORD * hi);
    LongRest(bits / WORD / WORD, lo + WORD * hi, bits);
  }

  lemma LongRest(q: nat, r: nat, x: nat)
    requires x == LONG * q + r && r < LONG
    ensures x % LONG == r
  {
  }

  /** The padded message: the message, a byte 0x80, zeros, and the length in bits modulo 2^64
      as eight bytes, filling up the shortest possible number of blocks. */
  ghost predicate IsPadded(m: seq<Byte>, p: seq<Byte>) {
    && |p| % 64 == 0 && |m| + 9 <= |p| < |m| + 73
    && p[..|m|] == m && p[|m|] == 0x80
    && (forall i :: |m| < i < |p| - 8 ==> p[i] == 0)
    && Little(p[|p| - 8..|p| - 4]) + WORD * Little(p[|p| - 4..]) == 8 * |m| % LONG
  }

  lemma PaddedIs(m: seq<Byte>)
    ensures IsPadded(m, Padded(m))
  {
    hide LengthBytes, Little, ZeroCount, Zeros;
    var p := Padded(m);
    PaddedWhole(m);
    LengthLittle(8 * |m|);
    PaddingLaid(m, ZeroCount(|m|), LengthBytes(8 * |m|));
    hide Padded;
    LastEight(p);
  }

  lemma LastEight(p: seq<Byte>)
    requires |p| >= 8
    ensures p[|p| - 8..|p| - 4] == p[|p| - 8..][..4] && p[|p| - 4..] == p[|p| - 8..][4..]
  {
  }

  lemma PaddingLaid(m: seq<Byte>, k: nat, l: seq<Byte>)
    requires |l| == 8
    ensures var p := m + ([0x80] + Zeros(k)) + l;
            && |p| == |m| + k + 9 && p[..|m|] == m && p[|m|] == 0x80 && p[|p| - 8..] == l
            && forall i :: |m| < i < |p| - 8 ==> p[i] == 0
  {
  }

  /** The registers after each block. */
  lemma {:induction false} BlockStates(f: Compress, h: Abcd, p: seq<Byte>) returns (hs: seq<Abcd>)
    requires |p| % 64 == 0
    ensures |hs| == |p| / 64 + 1 && hs[0] == h && hs[|p| / 64] == Blocks(f, h, p)
    ensures forall j :: 0 <= j < |p| / 64 ==> hs[j + 1] == f(hs[j], p[64 * j..64 * j + 64])
    decreases |p|
  {
    if |p| == 0 {
      hs := [h];
    } else {
      var rest := p[64..];
      var more := BlockStates(f, f(h, p[..64]), rest);
      hs := [h] + more;
      forall j | 0 <= j < |p| / 64 ensures hs[j + 1] == f(hs[j], p[64 * j..64 * j + 64]) {
        if j == 0 {
          assert p[0..64] == p[..64];
        } else {
          assert rest[64 * (j - 1)..64 * (j - 1) + 64] == p[64 * j..64 * j + 64];
        }
      }
    }
  }

  lemma DigestLittle(h: Abcd)
    ensures var d := DigestBytes(h);
            && |d| == 16 && Little(d[..4]) == h.a && Little(d[4..8]) == h.b
            && Little(d[8..12]) == h.c && Little(d[12..]) == h.d
  {
    hide WordBytes, Little;
    var d := DigestBytes(h);
    assert d[..4] == WordBytes(h.a) && d[4..8] == WordBytes(h.b) && d[8..12] == WordBytes(h.c)
           && d[12..] == WordBytes(h.d);
    WordLittle(h.a);
    WordLittle(h.b);
    WordLittle(h.c);
    WordLittle(h.d);
  }

  /** One application of the block function for each block. */
  ghost predicate AreStates(f: Compress, p: seq<Byte>, hs: seq<Abcd>) {
    && |hs| == |p| / 64 + 1
    && forall j :: 0 <= j < |p| / 64 ==> hs[j + 1] == f(hs[j], p[64 * j..64 * j + 64])
  }

  /** The digest: from the registers of section 3.3 on, one application of the block function
      for each block of the padded message; the last registers, low-order bytes first. */
  lemma DigestMeans(f: Compress, m: seq<Byte>) returns (p: seq<Byte>, hs: seq<Abcd>)
    ensures IsPadded(m, p) && AreStates(f, p, hs)
    ensures hs[0] == Abcd(0x67452301, 0xefcdab89, 0x98badcfe, 0x10325476)
    ensures var d, h := DigestOf(f, m), hs[|p| / 64];
            && |d| == 16 && Little(d[..4]) == h.a && Little(d[4..8]) == h.b
            && Little(d[8..12]) == h.c && Little(d[12..]) == h.d
  {
    p := Padded(m);
    PaddedIs(m);
    PaddedWhole(m);
    hide Padded, IsPadded, Blocks, Little, DigestBytes;
    hs := BlockStates(f, START, p);
    DigestLittle(hs[|p| / 64]);
  }
}
