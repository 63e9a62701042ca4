/** Streaming MD5: a message arrives in pieces of any size. */
module Md5 {
  import opened Rfc1321

  // ---------------------------------------------------------------- the split bit counter

  /** The carry between the halves of the counter. */
  function CountLow(c0: Word, n: nat): Word {
    (c0 + 8 * n % WORD) % WORD
  }

  function CountHigh(c0: Word, c1: Word, n: nat): Word {
    (c1 + n / 0x2000_0000 + if CountLow(c0, n) < 8 * n % WORD then 1 else 0) % WORD
  }

  lemma HighPart(n: nat)
    ensures 8 * n == 8 * n % WORD + WORD * (n / 0x2000_0000)
  {
  }

  lemma LowSum(c0: Word, b: Word)
    ensures var s := (c0 + b) % WORD; c0 + b == s + if s < b then WORD else 0
  {
  }

  lemma HighSum(x: nat, lo: nat)
    requires lo < WORD
    ensures (lo + WORD * x) % LONG == lo + WORD * (x % WORD)
  {
    var q, r := x / WORD, x % WORD;
    assert lo + WORD * x == LONG * q + (lo + WORD * r);
  }

  /** The halves hold the length in bits modulo 2^64. */
  predicate CountIs(c0: Word, c1: Word, len: nat) {
    c0 + WORD * c1 == 8 * len % LONG
  }

  /** The two halves add up to the length in bits modulo 2^64. */
  lemma CountAdds(c0: Word, c1: Word, len: nat, n: nat)
    requires CountIs(c0, c1, len)
    ensures CountIs(CountLow(c0, n), CountHigh(c0, c1, n), len + n)
  {
    var b, hi := 8 * n % WORD, n / 0x2000_0000;
    var lo := CountLow(c0, n);
    HighPart(n);
    LowSum(c0, b);
    var x := c1 + hi + if lo < b then 1 else 0;
    assert c0 + WORD * c1 + 8 * n == lo + WORD * x;
    HighSum(x, lo);
    ModAdd(8 * len, 8 * n);
  }

  lemma ModAdd(x: nat, y: nat)
    ensures (x % LONG + y) % LONG == (x + y) % LONG
  {
    assert x + y == LONG * (x / LONG) + (x % LONG + y);
  }

  /** Where the next byte goes. */
  function Offset(c0: Word): nat {
    c0 / 8 % 64
  }

  lemma OffsetIs(c0: Word, c1: Word, len: nat)
    requires CountIs(c0, c1, len)
    ensures Offset(c0) == Part(len)
  {
    var q := 8 * len / LONG;
    assert 8 * len == c0 + WORD * (WORD * q + c1);
    OffsetOf(c0, WORD * q + c1, len);
  }

  lemma OffsetOf(c0: Word, x: nat, len: nat)
    requires 8 * len == c0 + WORD * x
    ensures Offset(c0) == Part(len)
  {
    var y := len - 0x2000_0000 * x;
    assert c0 == 8 * y;
    AddBlocks(y, 0x80_0000 * x);
  }

  lemma AddBlocks(y: nat, z: nat)
    ensures (y + 64 * z) % 64 == y % 64
  {
  }

  // ---------------------------------------------------------------- the state

  /** The bytes of a message in whole blocks. */
  function Whole(len: nat): nat {
    len / 64 * 64
  }

  /** The bytes of the last, partial block. */
  function Part(len: nat): (r: nat)
    ensures r < 64
  {
    len % 64
  }

  class State {
    const f: Compress
    var count0: Word
    var count1: Word
    var abcd: Abcd
    const buf: array<Byte>
    /** Everything appended so far. */
    ghost var message: seq<Byte>

    /** The counter is the length in bits modulo 2^64, the registers hold the whole blocks,
        the buffer the bytes of the last, partial one. */
    ghost predicate Valid()
      reads this, buf
    {
      && buf.Length == 64
      && CountIs(count0, count1, |message|)
      && abcd == Blocks(f, START, message[..Whole(|message|)])
      && buf[..Part(|message|)] == message[Whole(|message|)..]
    }

    /** `md5_init`. */
    constructor (f: Compress)
      ensures Valid() && message == [] && this.f == f && fresh(buf)
    {
      this.f := f;
      count0, count1 := 0, 0;
      abcd := START;
      buf := new Byte[64];
      message := [];
      new;
      assert message[..0] == [];
    }

    /** The message length in two words, `len` being the length so far. */
    method AddLength(nbytes: nat, ghost len: nat)
      requires CountIs(count0, count1, len)
      modifies this`count0, this`count1
      ensures CountIs(count0, count1, len + nbytes)
    {
      CountAdds(count0, count1, len, nbytes);
      HighStep(count0, count1, nbytes);
      hide CountIs;
      var nbits := nbytes * 8 % WORD;
      count1 := (count1 + nbytes / 0x2000_0000) % WORD;
      count0 := (count0 + nbits) % WORD;
      if count0 < nbits {
        count1 := (count1 + 1) % WORD;
      }
    }

    /** `md5_append`. The sum of buffered and new bytes must fit a signed 32-bit integer. */
    method Append(data: seq<Byte>, nbytes: int)
      requires Valid() && nbytes <= |data| && Part(|message|) + nbytes < 0x8000_0000
      modifies this, buf
      ensures Valid()
      ensures message == old(message) + if nbytes <= 0 then [] else data[..nbytes]
    {
      hide Blocks, Whole, CountIs, Part, Offset;
      var offset := Offset(count0);
      assert offset == Part(|message|) by { OffsetIs(count0, count1, |message|); }
      if nbytes <= 0 {
        assert message + [] == message;
        return;
      }
      ghost var was, added := message, data[..nbytes];
      AddLength(nbytes, |message|);
      message := message + added;
      ghost var done := Whole(|was|);
      WholeIs(|was|);
      TakeFront(was, added, done);
      var p, left := 0, nbytes;
      if offset != 0 {
        var copy := if offset + nbytes > 64 then 64 - offset else nbytes;
        FillBuffer(data, nbytes, offset, copy, was);
        if offset + copy < 64 {
          return;
        }
        p, left := p + copy, left - copy;
        done := done + 64;
      } else {
        assert was[done..] == [] && [] + added == data[p..nbytes];
      }
      TakeRest(data, nbytes, p, left, done);
    }

    /** `md5_finish`: padding and length go through the same append, which leaves the digest
        of everything appended before. */
    method Finish() returns (digest: seq<Byte>)
      requires Valid()
      modifies this, buf
      ensures Valid() && message == Padded(old(message))
      ensures digest == DigestOf(f, old(message))
    {
      hide Blocks, Whole, Part, CountIs, Padded, ByteOf;
      ghost var was := message;
      CountWords(count0, count1, |message|);
      var data: seq<Byte> := [];
      for i := 0 to 8
        invariant |data| == i
        invariant forall j :: 0 <= j < i ==> data[j] == ByteOf(if j < 4 then count0 else count1, j % 4)
      {
        data := data + [ByteOf(if i / 4 == 0 then count0 else count1, i % 4)];
      }
      LengthIs(data, count0, count1);
      var pad: seq<Byte> := [0x80] + Zeros(63);
      var n := (55 - count0 / 8) % 64 + 1;
      assert n == ZeroCount(|message|) + 1 by { PadCount(count0, count1, |message|); }
      Append(pad, n);
      Append(data, 8);
      assert message == Padded(was) by { PaddedParts(was, pad, n, data); }
      WholePadded(was);
      digest := [];
      for i := 0 to 16
        invariant |digest| == i
        invariant forall j :: 0 <= j < i ==> digest[j] == ByteOf(Register(abcd, j / 4), j % 4)
      {
        digest := digest + [ByteOf(Register(abcd, i / 4), i % 4)];
      }
      DigestIs(digest, abcd);
    }

    /** The initial partial block: `copy` bytes go into the buffer, which is processed once
        it is full. */
    method FillBuffer(data: seq<Byte>, nbytes: nat, offset: nat, copy: nat, ghost was: seq<Byte>)
      requires 0 < nbytes <= |data| && message == was + data[..nbytes] && buf.Length == 64
      requires offset == Part(|was|) && copy == if offset + nbytes > 64 then 64 - offset else nbytes
      requires abcd == Blocks(f, START, was[..Whole(|was|)]) && buf[..offset] == was[Whole(|was|)..]
      modifies this`abcd, buf
      ensures offset + copy < 64 ==> abcd == Blocks(f, START, message[..Whole(|message|)])
      ensures offset + copy < 64 ==> buf[..Part(|message|)] == message[Whole(|message|)..]
      ensures offset + copy == 64 ==> abcd == Blocks(f, START, message[..Whole(|was|) + 64])
      ensures offset + copy == 64 ==> message[Whole(|was|) + 64..] == data[copy..nbytes]
    {
      hide Blocks, Whole, Part;
      ghost var added, done := data[..nbytes], Whole(|was|);
      WholeIs(|was|);
      TakeFront(was, added, done);
      CopyIn(buf, offset, data, 0, copy);
      Joins(was, added, done, copy);
      assert data[0..copy] == added[..copy];
      if offset + copy < 64 {
        ShortFill(|was|, nbytes);
        assert added[..copy] == added;
      } else {
        BlocksMore(f, START, message, done);
        assert buf[..64] == buf[..];
        abcd := f(abcd, buf[..]);
        assert added[copy..] == data[copy..nbytes];
      }
    }

    /** The full blocks of a piece, and what is left of it. */
    method TakeRest(data: seq<Byte>, nbytes: nat, p0: nat, left0: nat, ghost done0: nat)
      requires p0 + left0 == nbytes <= |data| && buf.Length == 64
      requires done0 % 64 == 0 && done0 + left0 == |message| && message[done0..] == data[p0..nbytes]
      requires abcd == Blocks(f, START, message[..done0])
      modifies this`abcd, buf
      ensures abcd == Blocks(f, START, message[..Whole(|message|)])
      ensures buf[..Part(|message|)] == message[Whole(|message|)..]
    {
      hide Blocks, Whole, Part;
      var p, left := p0, left0;
      ghost var done := done0;
      while left >= 64
        invariant 0 <= p && 0 <= left && p + left == nbytes
        invariant done % 64 == 0 && done + left == |message| && message[done..] == data[p..nbytes]
        invariant abcd == Blocks(f, START, message[..done])
        modifies this`abcd
      {
        BlocksMore(f, START, message, done);
        NextBlock(message, done, data, p, nbytes);
        abcd := f(abcd, data[p..p + 64]);
        p, left, done := p + 64, left - 64, done + 64;
      }
      RestIs(|message|, done);
      if left != 0 {
        CopyIn(buf, 0, data, p, left);
        assert [] + data[p..nbytes] == data[p..nbytes];
      }
    }
  }

  /** Register `k` of the four. */
  function Register(h: Abcd, k: nat): Word {
    if k == 0 then h.a else if k == 1 then h.b else if k == 2 then h.c else h.d
  }

  lemma CountWords(c0: Word, c1: Word, len: nat)
    requires CountIs(c0, c1, len)
    ensures c0 == 8 * len % WORD && c1 == 8 * len / WORD % WORD
  {
    var q := 8 * len / LONG;
    assert 8 * len == c0 + WORD * (c1 + WORD * q);
    WordsOf(c0, c1 + WORD * q, 8 * len);
    WordsOf(c1, q, c1 + WORD * q);
  }

  lemma WordsOf(lo: Word, hi: nat, x: nat)
    requires x == lo + WORD * hi
    ensures x % WORD == lo && x / WORD == hi
  {
  }

  lemma LengthIs(data: seq<Byte>, c0: Word, c1: Word)
    requires |data| == 8 && forall j :: 0 <= j < 8 ==> data[j] == ByteOf(if j < 4 then c0 else c1, j % 4)
    ensures data == WordBytes(c0) + WordBytes(c1)
  {
    hide ByteOf;
  }

  lemma DigestIs(digest: seq<Byte>, h: Abcd)
    requires |digest| == 16 && forall j :: 0 <= j < 16 ==> digest[j] == ByteOf(Register(h, j / 4), j % 4)
    ensures digest == DigestBytes(h)
  {
    hide ByteOf;
    var r := DigestBytes(h);
    assert forall j :: 0 <= j < 8 ==> digest[j] == r[j];
    assert forall j :: 8 <= j < 16 ==> digest[j] == r[j];
  }

  lemma PadCount(c0: Word, c1: Word, len: nat)
    requires CountIs(c0, c1, len)
    ensures (55 - c0 / 8) % 64 == ZeroCount(len)
  {
    OffsetIs(c0, c1, len);
    hide CountIs;
    SubMod(c0 / 8);
    SubMod(len);
  }

  lemma SubMod(x: nat)
    ensures (55 - x) % 64 == (55 - x % 64) % 64
  {
  }

  lemma PaddedParts(m: seq<Byte>, pad: seq<Byte>, n: nat, data: seq<Byte>)
    requires pad == [0x80] + Zeros(63) && n == ZeroCount(|m|) + 1 <= 64 && data == LengthBytes(8 * |m|)
    ensures Padded(m) == m + pad[..n] + data[..8]
  {
    hide LengthBytes;
    assert pad[..n] == [0x80] + Zeros(n - 1);
    assert data[..8] == data;
  }

  lemma WholePadded(m: seq<Byte>)
    ensures Padded(m)[..Whole(|Padded(m)|)] == Padded(m)
  {
    PaddedWhole(m);
    hide Padded;
    WholeIs(|Padded(m)|);
  }

  /** All pieces, one after the other. */
  function Concat(pieces: seq<seq<Byte>>): seq<Byte> {
    if pieces == [] then [] else Concat(pieces[..|pieces| - 1]) + pieces[|pieces| - 1]
  }

  /** However a message is cut into pieces, the digest is that of the whole message. */
  method Digest(f: Compress, pieces: seq<seq<Byte>>) returns (digest: seq<Byte>)
    requires forall i :: 0 <= i < |pieces| ==> Part(|Concat(pieces[..i])|) + |pieces[i]| < 0x8000_0000
    ensures digest == DigestOf(f, Concat(pieces))
  {
    hide Rfc1321.DigestOf, Blocks, Whole, Part, CountIs, Padded, Concat;
    var st := new State(f);
    ConcatNone();
    assert pieces[..0] == [];
    for i := 0 to |pieces|
      invariant st.Valid() && fresh(st) && fresh(st.buf) && st.f == f && st.message == Concat(pieces[..i])
    {
      var piece := pieces[i];
      ConcatMore(pieces, i);
      st.Append(piece, |piece|);
    }
    assert pieces[..|pieces|] == pieces;
    digest := st.Finish();
  }

  lemma ConcatNone()
    ensures Concat([]) == []
  {
  }

  lemma ConcatMore(pieces: seq<seq<Byte>>, i: nat)
    requires i < |pieces|
    ensures Concat(pieces[..i + 1]) == Concat(pieces[..i]) + if |pieces[i]| <= 0 then [] else pieces[i][..|pieces[i]|]
  {
    assert pieces[..i + 1][..i] == pieces[..i];
    assert pieces[i][..|pieces[i]|] == pieces[i];
  }

  lemma NextBlock(m: seq<Byte>, done: nat, data: seq<Byte>, p: nat, n: nat)
    requires done + 64 <= |m| && p + 64 <= n <= |data| && m[done..] == data[p..n]
    ensures m[done..done + 64] == data[p..p + 64] && m[done + 64..] == data[p + 64..n]
  {
    assert m[done..done + 64] == m[done..][..64] && data[p..p + 64] == data[p..n][..64];
    assert m[done + 64..] == m[done..][64..] && data[p + 64..n] == data[p..n][64..];
  }

  /** `memcpy` of `n` bytes of `data` from index `from` into `buf` at index `at`. */
  method CopyIn(buf: array<Byte>, at: nat, data: seq<Byte>, from: nat, n: nat)
    requires at + n <= buf.Length && from + n <= |data|
    modifies buf
    ensures buf[..at + n] == old(buf[..at]) + data[from..from + n]
  {
    for i := 0 to n
      invariant buf[..at + i] == old(buf[..at]) + data[from..from + i]
    {
      assert data[from..from + i + 1] == data[from..from + i] + [data[from + i]];
      buf[at + i] := data[from + i];
      assert buf[..at + i + 1] == buf[..at + i] + [data[from + i]];
    }
  }

  /** The high word as the code computes it. */
  lemma HighStep(c0: Word, c1: Word, n: nat)
    ensures CountHigh(c0, c1, n)
            == var h := (c1 + n / 0x2000_0000) % WORD; if CountLow(c0, n) < 8 * n % WORD then (h + 1) % WORD else h
  {
    hide CountLow;
    WrapTwice(c1 + n / 0x2000_0000);
  }

  lemma WrapTwice(x: nat)
    ensures (x % WORD + 1) % WORD == (x + 1) % WORD
  {
  }

  lemma WholeIs(len: nat)
    ensures Whole(len) % 64 == 0 && Whole(len) + Part(len) == len
  {
  }

  lemma ShortFill(len: nat, n: nat)
    requires Part(len) + n < 64
    ensures Whole(len + n) == Whole(len) && Part(len + n) == Part(len) + n
  {
  }

  lemma RestIs(len: nat, done: nat)
    requires done % 64 == 0 && done <= len < done + 64
    ensures Whole(len) == done && Part(len) == len - done
  {
  }

  lemma TakeFront(was: seq<Byte>, added: seq<Byte>, done: nat)
    requires done <= |was|
    ensures (was + added)[..done] == was[..done]
    ensures (was + added)[done..] == was[done..] + added
  {
  }

  lemma Joins(was: seq<Byte>, added: seq<Byte>, done: nat, copy: nat)
    requires done <= |was| && copy <= |added|
    ensures (was + added)[done..|was| + copy] == was[done..] + added[..copy]
    ensures (was + added)[|was| + copy..] == added[copy..]
  {
  }
}
