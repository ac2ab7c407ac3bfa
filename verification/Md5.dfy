/** MD5 message digests: feeding a message in pieces gives the digest of the whole message, as sections 3.1 to
    3.5 of RFC 1321 define it. */
module Md5 {
  import opened Md5Rounds

  type Byte = b: nat | b < 256

  // ---- RFC 1321 ----

  /** Words are stored with the low-order byte first. */
  function WordOf(b0: Byte, b1: Byte, b2: Byte, b3: Byte): Word {
    b0 + 0x100 * b1 + 0x1_0000 * b2 + 0x100_0000 * b3
  }

  function BytesOf(w: Word): (b: seq<Byte>)
    ensures |b| == 4
  {
    [w % 0x100, w / 0x100 % 0x100, w / 0x1_0000 % 0x100, w / 0x100_0000]
  }

  function WordsOf(block: seq<Byte>): (x: seq<Word>)
    requires |block| == 64
    ensures |x| == 16
  {
    seq(16, i requires 0 <= i < 16 => WordOf(block[4 * i], block[4 * i + 1], block[4 * i + 2], block[4 * i + 3]))
  }

  /** Section 3.3 */
  const START: Vec := Vec(0x67452301, 0xefcdab89, 0x98badcfe, 0x10325476)

  function Compress(v: Vec, block: seq<Byte>): Vec
    requires |block| == 64
  {
    Compressed(v, WordsOf(block))
  }

  /** Section 3.4: the first k blocks of 64 bytes */
  function Fold(data: seq<Byte>, k: nat): Vec
    requires 64 * k <= |data|
  {
    if k == 0 then START else Compress(Fold(data, k - 1), data[64 * (k - 1)..64 * k])
  }

  function Zeros(n: nat): (z: seq<Byte>)
    ensures |z| == n
  {
    seq(n, i => 0)
  }

  /** Section 3.2: the number of bits, modulo 2 ^ 64 */
  function LengthBytes(n: nat): (b: seq<Byte>)
    ensures |b| == 8
  {
    BytesOf(8 * n % MOD32) + BytesOf(8 * n / MOD32 % MOD32)
  }

  /** Section 3.1: a one bit and zero bits, up to 56 bytes modulo 64 */
  function Padded(msg: seq<Byte>): seq<Byte> {
    msg + [0x80] + Zeros((55 - |msg|) % 64) + LengthBytes(|msg|)
  }

  /** Section 3.5 */
  function Output(v: Vec): seq<Byte> {
    BytesOf(v.a) + BytesOf(v.b) + BytesOf(v.c) + BytesOf(v.d)
  }

  function Digest(msg: seq<Byte>): seq<Byte> {
    Output(Fold(Padded(msg), |Padded(msg)| / 64))
  }

  lemma {:induction false} FoldPrefix(data: seq<Byte>, more: seq<Byte>, k: nat)
    requires 64 * k <= |data|
    ensures Fold(data + more, k) == Fold(data, k)
  {
    hide Compress;
    if k > 0 {
      assert (data + more)[64 * (k - 1)..64 * k] == data[64 * (k - 1)..64 * k];
      FoldPrefix(data, more, k - 1);
    }
  }

  // ---- the code ----

  /** How much of n bytes is in whole blocks. */
  function Whole(n: nat): (w: nat)
    ensures w <= n < w + 64 && w % 64 == 0 && n - w == n % 64
  {
    n / 64 * 64
  }

  lemma WholeIs(n: nat, q: nat)
    requires q % 64 == 0 && q <= n < q + 64
    ensures Whole(n) == q
  {
  }

  /** The two words of the bit count after len more bytes. */
  lemma CountBits(n: nat, low: Word, high: Word, len: nat)
    requires low + MOD32 * high == 8 * n % (MOD32 * MOD32) && len < MOD32
    ensures var low1 := (low + 8 * len % MOD32) % MOD32;
      var carried := if low1 < low then (high + 1) % MOD32 else high;
      low1 + MOD32 * ((carried + len / 0x2000_0000) % MOD32) == 8 * (n + len) % (MOD32 * MOD32)
  {
    var top := len / 0x2000_0000;
    assert 8 * len == 8 * len % MOD32 + MOD32 * top;
    Carried(low, 8 * len % MOD32);
    var low1 := (low + 8 * len % MOD32) % MOD32;
    var c := if low1 < low then 1 else 0;
    var h := high + c + top;
    assert low + MOD32 * high + 8 * len == low1 + MOD32 * h;
    WrapTop(low1, h);
    WrapSum(8 * n, 8 * len);
    CarryLater(high, c, top);
  }

  /** The sum of two words has wrapped around exactly if it is less than the first. */
  lemma Carried(x: Word, y: Word)
    ensures var s := (x + y) % MOD32; x + y == s + MOD32 * (if s < x then 1 else 0)
  {
  }

  lemma CarryLater(high: Word, c: nat, top: nat)
    requires c <= 1
    ensures ((if c == 1 then (high + 1) % MOD32 else high) + top) % MOD32 == (high + c + top) % MOD32
  {
  }

  lemma WrapTop(low: nat, h: nat)
    requires low < MOD32
    ensures (low + MOD32 * h) % (MOD32 * MOD32) == low + MOD32 * (h % MOD32)
  {
    var q := h / MOD32;
    assert h == q * MOD32 + h % MOD32;
    assert low + MOD32 * h == (low + MOD32 * (h % MOD32)) + q * (MOD32 * MOD32);
    Dropped(low + MOD32 * (h % MOD32), q);
  }

  lemma Dropped(x: nat, q: nat)
    requires x < MOD32 * MOD32
    ensures (x + q * (MOD32 * MOD32)) % (MOD32 * MOD32) == x
  {
  }

  lemma WrapSum(x: nat, y: nat)
    ensures (x % (MOD32 * MOD32) + y) % (MOD32 * MOD32) == (x + y) % (MOD32 * MOD32)
  {
  }

  /** MD5Context */
  class Context {
    var buf: Vec
    var bits0: Word
    var bits1: Word
    const block: array<Byte>          // in

    /** The first q bytes are folded. */
    ghost predicate Folded(all: seq<Byte>, q: int)
      reads this`buf
    {
      0 <= q <= |all| && q % 64 == 0 && block.Length == 64 && buf == Fold(all, q / 64)
    }

    /** The whole blocks of msg are folded, and the rest is in the buffer. */
    ghost predicate Buffered(msg: seq<Byte>)
      reads this`buf, block
    {
      Folded(msg, Whole(|msg|)) && block[..|msg| - Whole(|msg|)] == msg[Whole(|msg|)..]
    }

    ghost predicate Counted(n: nat)
      reads this`bits0, this`bits1
    {
      bits0 + MOD32 * bits1 == 8 * n % (MOD32 * MOD32)
    }

    /** The context after msg */
    ghost predicate Absorbed(msg: seq<Byte>)
      reads this, block
    {
      Buffered(msg) && Counted(|msg|)
    }

    /** MD5Init */
    constructor ()
      ensures Absorbed([]) && fresh(block)
    {
      buf, bits0, bits1 := START, 0, 0;
      block := new Byte[64](i => 0);
    }

    /** memcpy into the buffer */
    method Fill(at: nat, data: seq<Byte>)
      requires at + |data| <= block.Length
      modifies block
      ensures block[..at] == old(block[..at]) && block[at..at + |data|] == data
      ensures block[at + |data|..] == old(block[at + |data|..])
    {
      forall i | 0 <= i < |data| {
        block[at + i] := data[i];
      }
    }

    method Count(len: nat, ghost n: nat)
      requires Counted(n) && len < MOD32
      modifies this`bits0, this`bits1
      ensures Counted(n + len)
    {
      CountBits(n, bits0, bits1, len);
      var t := bits0;
      bits0 := (t + 8 * len % MOD32) % MOD32;
      if bits0 < t {
        bits1 := (bits1 + 1) % MOD32;
      }
      bits1 := (bits1 + len / 0x2000_0000) % MOD32;
    }

    /** byteReverse, which does nothing to bytes in this order, and MD5Transform */
    method Digested(ghost all: seq<Byte>, ghost q: nat)
      requires Folded(all, q) && q + 64 <= |all| && block[..] == all[q..q + 64]
      modifies this`buf
      ensures Folded(all, q + 64)
    {
      hide Compressed;
      assert (q + 64) / 64 == q / 64 + 1 && q == 64 * (q / 64);
      buf := Transform(buf, WordsOf(block[..]));
    }

    lemma Extends(msg: seq<Byte>, data: seq<Byte>, q: nat)
      requires Folded(msg, q)
      ensures Folded(msg + data, q)
    {
      FoldPrefix(msg, data, q / 64);
    }

    lemma InBuffer(all: seq<Byte>, q: nat)
      requires Folded(all, q) && |all| < q + 64 && block[..|all| - q] == all[q..]
      ensures Buffered(all)
    {
      hide Fold;
      WholeIs(|all|, q);
      hide Whole;
    }

    /** What comes first fills up the buffer, if it is not empty; more tells whether it is full then. */
    method FillUp(data: seq<Byte>, ghost msg: seq<Byte>, t: nat) returns (p: nat, more: bool)
      requires Buffered(msg) && t == |msg| % 64
      modifies this`buf, block
      ensures more ==> p <= |data| && Folded(msg + data, |msg| + p)
      ensures !more ==> Buffered(msg + data)
    {
      hide Fold, Folded;
      ghost var all, n := msg + data, |msg|;
      ghost var q := Whole(n);
      Extends(msg, data, q);
      BufferLength(msg);
      p, more := 0, true;
      if t != 0 {
        var room := 64 - t;
        if |data| < room {
          Fill(t, data);
          assert block[..t + |data|] == block[..t] + block[t..t + |data|];
          assert all[q..] == msg[q..] + data;
          InBuffer(all, q);
          more := false;
        } else {
          Fill(t, data[..room]);
          assert block[..] == block[..t] + block[t..t + room];
          assert all[q..q + 64] == msg[q..] + data[..room];
          Digested(all, q);
          p := room;
        }
      }
    }

    lemma BufferLength(msg: seq<Byte>)
      requires Buffered(msg)
      ensures block.Length == 64
    {
    }

    /** A whole block of the data */
    method FillBlock(chunk: seq<Byte>, ghost all: seq<Byte>, ghost q: nat)
      requires Folded(all, q) && |chunk| == 64 && q + 64 <= |all| && chunk == all[q..q + 64]
      modifies this`buf, block
      ensures Folded(all, q + 64)
    {
      assert block.Length == 64;
      hide Folded;
      Fill(0, chunk);
      assert block[..] == block[0..64];
      Digested(all, q);
    }

    /** What remains of the data */
    method FillRest(chunk: seq<Byte>, ghost all: seq<Byte>, ghost q: nat)
      requires Folded(all, q) && |chunk| < 64 && q + |chunk| == |all| && chunk == all[q..]
      modifies this`buf, block
      ensures Buffered(all)
    {
      assert block.Length == 64;
      hide Folded, Buffered;
      Fill(0, chunk);
      assert block[..|chunk|] == block[0..|chunk|];
      InBuffer(all, q);
    }

    method FillBlocks(data: seq<Byte>, p0: nat, ghost msg: seq<Byte>)
      requires p0 <= |data| && Folded(msg + data, |msg| + p0)
      modifies this`buf, block
      ensures Buffered(msg + data)
    {
      hide Folded, Buffered;
      ghost var all, n := msg + data, |msg|;
      var p := p0;
      while |data| - p >= 64
        invariant 0 <= p <= |data| && Folded(all, n + p)
        decreases |data| - p
      {
        assert data[p..p + 64] == all[n + p..n + p + 64];
        FillBlock(data[p..p + 64], all, n + p);
        p := p + 64;
      }
      assert data[p..] == all[n + p..];
      FillRest(data[p..], all, n + p);
    }

    /** MD5Update */
    method Update(data: seq<Byte>, ghost msg: seq<Byte>)
      requires Absorbed(msg) && |data| < MOD32
      modifies this, block
      ensures Absorbed(msg + data)
    {
      hide Buffered, Counted, Folded, Fold, Compress;
      var t := BufferedBytes(|msg|);
      Count(|data|, |msg|);
      var p, more := FillUp(data, msg, t);
      if more {
        FillBlocks(data, p, msg);
      }
    }

    method BufferedBytes(ghost n: nat) returns (t: nat)
      requires Counted(n)
      ensures t == n % 64 < 64
    {
      TailLength(n, bits0, bits1);
      t := bits0 / 8 % 64;
    }

    /** The padding up to the length, in one block or in two. */
    method Pad(ghost all: seq<Byte>, ghost q: nat, count: nat) returns (ghost last: nat)
      requires Folded(all, q) && count < 64 && q + 64 <= |all| && block.Length == 64
      requires block[..count] == all[q..q + count]
      requires |all| == q + (if count < 56 then 64 else 128)
      requires forall i {:trigger all[i]} | q + count <= i < |all| - 8 :: all[i] == if i == q + count then 0x80 else 0
      modifies this`buf, block
      ensures Folded(all, last) && last + 64 == |all| && block[..56] == all[last..last + 56]
    {
      hide Fold, Folded;
      Fill(count, [0x80]);
      var p := count + 1;
      var left := 64 - 1 - count;
      last := q;
      if left < 8 {
        Fill(p, Zeros(left));
        PaddingIs(block[..], all, q, count, 64);
        Digested(all, q);
        last := q + 64;
        Fill(0, Zeros(56));
        assert block[..56] == block[0..56] == all[last..last + 56];
      } else {
        Fill(p, Zeros(left - 8));
        assert block[..56] == block[..][..56];
        PaddingIs(block[..56], all, q, count, 56);
      }
    }

    /** The length in bits is appended. */
    method AppendLength(ghost all: seq<Byte>, ghost q: nat)
      requires Folded(all, q) && q + 64 == |all| && block.Length == 64 && block[..56] == all[q..q + 56]
      requires BytesOf(bits0) + BytesOf(bits1) == all[|all| - 8..]
      modifies this`buf, block
      ensures Folded(all, |all|)
    {
      hide Folded, BytesOf;
      Fill(56, BytesOf(bits0) + BytesOf(bits1));
      assert block[..] == block[..56] + block[56..64];
      Digested(all, q);
    }

    lemma PadReady(msg: seq<Byte>)
      requires Absorbed(msg)
      ensures var n, q, all := |msg|, Whole(|msg|), Padded(msg);
        && Folded(all, q) && |all| == q + (if n % 64 < 56 then 64 else 128)
        && block.Length == 64 && n == q + n % 64 && block[..n % 64] == all[q..q + n % 64]
        && (forall i {:trigger all[i]} | q + n % 64 <= i < |all| - 8 :: all[i] == if i == q + n % 64 then 0x80 else 0)
        && BytesOf(bits0) + BytesOf(bits1) == all[|all| - 8..] && Counted(n)
    {
      var n, all := |msg|, Padded(msg);
      PaddedLength(msg);
      PaddedAt(msg);
      Lengths(n, bits0, bits1);
      hide Padded, LengthBytes, BytesOf;
      Extends(msg, all[n..], Whole(n));
      assert msg + all[n..] == all;
    }

    /** MD5Final */
    method Final(ghost msg: seq<Byte>) returns (digest: seq<Byte>)
      requires Absorbed(msg)
      modifies this, block
      ensures digest == Digest(msg)
    {
      ghost var all := Padded(msg);
      PadReady(msg);
      hide Absorbed, Padded, Counted, LengthBytes, BytesOf, Output, Whole, Compress;
      var count := BufferedBytes(|msg|);
      ghost var last := Pad(all, Whole(|msg|), count);
      AppendLength(all, last);
      digest := Output(buf);
    }
  }

  /** A beginning of the message's last block, the byte 0x80 and zeros are what the padded message has there. */
  lemma PaddingIs(b: seq<Byte>, all: seq<Byte>, q: nat, count: nat, end: nat)
    requires count < end == |b| && q + end <= |all| - (if end == 64 then 64 else 8)
    requires b[..count] == all[q..q + count] && b[count..count + 1] == [0x80]
    requires b[count + 1..] == Zeros(end - count - 1)
    requires forall i {:trigger all[i]} | q + count <= i < |all| - 8 :: all[i] == if i == q + count then 0x80 else 0
    ensures b == all[q..q + end]
  {
    forall i | 0 <= i < end ensures b[i] == all[q + i] {
      if i < count {
        assert b[i] == b[..count][i];
      } else if i == count {
        assert b[i] == b[count..count + 1][0];
      } else {
        assert b[i] == b[count + 1..][i - count - 1];
      }
    }
  }

  lemma Digits(low: Word, x: nat)
    ensures (low + MOD32 * x) % MOD32 == low && (low + MOD32 * x) / MOD32 == x
  {
  }

  lemma Lengths(n: nat, low: Word, high: Word)
    requires low + MOD32 * high == 8 * n % (MOD32 * MOD32)
    ensures LengthBytes(n) == BytesOf(low) + BytesOf(high)
  {
    var q := 8 * n / (MOD32 * MOD32);
    hide BytesOf;
    assert 8 * n == low + MOD32 * (high + MOD32 * q);
    Digits(low, high + MOD32 * q);
    Digits(high, q);
  }

  lemma PaddedAt(msg: seq<Byte>)
    ensures var n, all := |msg|, Padded(msg);
      && |all| >= n + 9 && all[..n] == msg && all[|all| - 8..] == LengthBytes(n)
      && forall i {:trigger all[i]} | n <= i < |all| - 8 :: all[i] == if i == n then 0x80 else 0
  {
    hide LengthBytes;
  }

  lemma PaddedLength(msg: seq<Byte>)
    ensures var n, q := |msg|, Whole(|msg|);
      |Padded(msg)| == q + (if n % 64 < 56 then 64 else 128)
  {
    hide LengthBytes, Zeros;
    var n := |msg|;
    assert (55 - n) % 64 == if n % 64 < 56 then 55 - n % 64 else 119 - n % 64;
  }

  /** The low word tells how many bytes are buffered. */
  lemma TailLength(n: nat, low: Word, high: Word)
    requires low + MOD32 * high == 8 * n % (MOD32 * MOD32)
    ensures low / 8 % 64 == n % 64
  {
    var q := 8 * n / (MOD32 * MOD32);
    var y := high + MOD32 * q;
    assert 8 * n == low + MOD32 * y;
    assert n == low / 8 + 64 * (0x80_0000 * y);
    Tail(low / 8, 0x80_0000 * y);
  }

  lemma Tail(x: nat, k: nat)
    ensures (x + 64 * k) % 64 == x % 64
  {
  }

  function Joined(chunks: seq<seq<Byte>>): seq<Byte> {
    if chunks == [] then [] else Joined(chunks[..|chunks| - 1]) + chunks[|chunks| - 1]
  }

  /** mdfile: whatever pieces a file is read in, the digest is that of the whole file. */
  method DigestOf(chunks: seq<seq<Byte>>) returns (digest: seq<Byte>)
    requires forall c | c in chunks :: |c| < MOD32
    ensures digest == Digest(Joined(chunks))
  {
    hide Digest;
    var ctx := new Context();
    var i := 0;
    while i < |chunks|
      invariant 0 <= i <= |chunks| && ctx.Absorbed(Joined(chunks[..i])) && fresh(ctx) && fresh(ctx.block)
    {
      hide Context.Absorbed;
      ctx.Update(chunks[i], Joined(chunks[..i]));
      assert chunks[..i + 1][..i] == chunks[..i];
      i := i + 1;
    }
    assert chunks[..i] == chunks;
    digest := ctx.Final(Joined(chunks));
  }
}
