/** The compression function of MD5: the unrolled code, and the four rounds of section 3.4 of RFC 1321. */
module Md5Rounds {
  const MOD32: nat := 0x1_0000_0000
  type Word = w: nat | w < MOD32

  /** A word as bits, for the bitwise operations. */
  function Bits(w: Word): bv32 {
    w as bv32
  }

  function OfBits(b: bv32): Word {
    b as nat
  }

  /** Addition modulo 2 ^ 32 */
  function Sum(x: Word, y: Word): Word {
    (x + y) % MOD32
  }

  datatype Vec = Vec(a: Word, b: Word, c: Word, d: Word)

  // ---- section 3.4 of RFC 1321 ----

  /** The bits of y where x has a one, and those of z where it has a zero. */
  function Choose(x: bv32, y: bv32, z: bv32): bv32 {
    (x & y) | (!x & z)
  }

  function F(x: Word, y: Word, z: Word): Word {
    OfBits(Choose(Bits(x), Bits(y), Bits(z)))
  }

  function G(x: Word, y: Word, z: Word): Word {
    OfBits(Choose(Bits(z), Bits(x), Bits(y)))
  }

  function H(x: Word, y: Word, z: Word): Word {
    OfBits(Bits(x) ^ Bits(y) ^ Bits(z))
  }

  function I(x: Word, y: Word, z: Word): Word {
    OfBits(Bits(y) ^ (Bits(x) | !Bits(z)))
  }

  function Rotate(w: Word, s: nat): Word
    requires 0 < s < 32
  {
    OfBits((Bits(w) << s) | (Bits(w) >> (32 - s)))
  }

  /** The table of the integer parts of 4294967296 * abs(sin(i + 1)). */
  function T(i: nat): Word {
    match i
    case 0 => 0xd76aa478 case 1 => 0xe8c7b756 case 2 => 0x242070db case 3 => 0xc1bdceee
    case 4 => 0xf57c0faf case 5 => 0x4787c62a case 6 => 0xa8304613 case 7 => 0xfd469501
    case 8 => 0x698098d8 case 9 => 0x8b44f7af case 10 => 0xffff5bb1 case 11 => 0x895cd7be
    case 12 => 0x6b901122 case 13 => 0xfd987193 case 14 => 0xa679438e case 15 => 0x49b40821
    case 16 => 0xf61e2562 case 17 => 0xc040b340 case 18 => 0x265e5a51 case 19 => 0xe9b6c7aa
    case 20 => 0xd62f105d case 21 => 0x02441453 case 22 => 0xd8a1e681 case 23 => 0xe7d3fbc8
    case 24 => 0x21e1cde6 case 25 => 0xc33707d6 case 26 => 0xf4d50d87 case 27 => 0x455a14ed
    case 28 => 0xa9e3e905 case 29 => 0xfcefa3f8 case 30 => 0x676f02d9 case 31 => 0x8d2a4c8a
    case 32 => 0xfffa3942 case 33 => 0x8771f681 case 34 => 0x6d9d6122 case 35 => 0xfde5380c
    case 36 => 0xa4beea44 case 37 => 0x4bdecfa9 case 38 => 0xf6bb4b60 case 39 => 0xbebfbc70
    case 40 => 0x289b7ec6 case 41 => 0xeaa127fa case 42 => 0xd4ef3085 case 43 => 0x04881d05
    case 44 => 0xd9d4d039 case 45 => 0xe6db99e5 case 46 => 0x1fa27cf8 case 47 => 0xc4ac5665
    case 48 => 0xf4292244 case 49 => 0x432aff97 case 50 => 0xab9423a7 case 51 => 0xfc93a039
    case 52 => 0x655b59c3 case 53 => 0x8f0ccc92 case 54 => 0xffeff47d case 55 => 0x85845dd1
    case 56 => 0x6fa87e4f case 57 => 0xfe2ce6e0 case 58 => 0xa3014314 case 59 => 0x4e0811a1
    case 60 => 0xf7537e82 case 61 => 0xbd3af235 case 62 => 0x2ad7d2bb case 63 => 0xeb86d391
    case _ => 0
  }

  function Mix(i: nat, x: Word, y: Word, z: Word): Word {
    if i < 16 then F(x, y, z) else if i < 32 then G(x, y, z) else if i < 48 then H(x, y, z) else I(x, y, z)
  }

  /** Which word of the block step i takes. */
  function Index(i: nat): (k: nat)
    ensures k < 16
  {
    if i < 16 then i else if i < 32 then (5 * i + 1) % 16 else if i < 48 then (3 * i + 5) % 16 else 7 * i % 16
  }

  function Pick(i: nat, s0: nat, s1: nat, s2: nat, s3: nat): nat {
    if i % 4 == 0 then s0 else if i % 4 == 1 then s1 else if i % 4 == 2 then s2 else s3
  }

  function Shift(i: nat): (s: nat)
    ensures 0 < s < 32
  {
    if i < 16 then Pick(i, 7, 12, 17, 22) else if i < 32 then Pick(i, 5, 9, 14, 20)
    else if i < 48 then Pick(i, 4, 11, 16, 23) else Pick(i, 6, 10, 15, 21)
  }

  /** a = b + ((a + f + X[k] + T(i)) <<< s) */
  function Stepped(f: Word, a: Word, b: Word, x: Word, t: Word, s: nat): Word
    requires 0 < s < 32
  {
    Sum(b, Rotate(Sum(Sum(Sum(a, f), x), t), s))
  }

  /** Step i, after which the registers change their roles: [abcd], [dabc], [cdab], [bcda], and again [abcd]. */
  function One(v: Vec, x: seq<Word>, i: nat): Vec
    requires |x| == 16 && i < 64
  {
    Vec(v.d, Stepped(Mix(i, v.b, v.c, v.d), v.a, v.b, x[Index(i)], T(i), Shift(i)), v.b, v.c)
  }

  function Rounds(v: Vec, x: seq<Word>, n: nat): Vec
    requires |x| == 16 && n <= 64
  {
    if n == 0 then v else One(Rounds(v, x, n - 1), x, n - 1)
  }

  function Plus(v: Vec, w: Vec): Vec {
    Vec(Sum(v.a, w.a), Sum(v.b, w.b), Sum(v.c, w.c), Sum(v.d, w.d))
  }

  function Compressed(v: Vec, x: seq<Word>): Vec
    requires |x| == 16
  {
    Plus(v, Rounds(v, x, 4 * |x|))
  }

  // ---- the code ----

  function Mask(x: bv32, y: bv32, z: bv32): bv32 {
    z ^ (x & (y ^ z))
  }

  function F1(x: Word, y: Word, z: Word): Word {
    OfBits(Mask(Bits(x), Bits(y), Bits(z)))
  }

  function F2(x: Word, y: Word, z: Word): Word {
    F1(z, x, y)
  }

  function F3(x: Word, y: Word, z: Word): Word {
    OfBits(Bits(x) ^ Bits(y) ^ Bits(z))
  }

  function F4(x: Word, y: Word, z: Word): Word {
    OfBits(Bits(y) ^ (Bits(x) | !Bits(z)))
  }

  /** MD5STEP: w += f + data, w = w<<s | w>>(32-s), w += x */
  function Md5Step(f: Word, w: Word, x: Word, data: Word, s: nat): Word
    requires 0 < s < 32
  {
    Sum(Rotate(Sum(w, Sum(f, data)), s), x)
  }

  lemma MaskedBits(x: bv32, y: bv32, z: bv32)
    ensures z ^ (x & (y ^ z)) == (x & y) | (!x & z)
  {
  }

  lemma MaskChooses(x: bv32, y: bv32, z: bv32)
    ensures Mask(x, y, z) == Choose(x, y, z)
  {
    MaskedBits(x, y, z);
  }

  lemma F1IsF(x: Word, y: Word, z: Word)
    ensures F1(x, y, z) == F(x, y, z)
  {
    hide Mask, Choose, Bits, OfBits;
    MaskChooses(Bits(x), Bits(y), Bits(z));
  }

  lemma F2IsG(x: Word, y: Word, z: Word)
    ensures F2(x, y, z) == G(x, y, z)
  {
    hide Mask, Choose, Bits, OfBits;
    MaskChooses(Bits(z), Bits(x), Bits(y));
  }

  lemma SumAssociates(x: Word, y: Word, z: Word)
    ensures Sum(x, Sum(y, z)) == Sum(Sum(x, y), z)
  {
  }

  lemma SumCommutes(x: Word, y: Word)
    ensures Sum(x, y) == Sum(y, x)
  {
  }

  lemma StepIs(f: Word, w: Word, x: Word, data: Word, t: Word, s: nat)
    requires 0 < s < 32
    ensures Md5Step(f, w, x, Sum(data, t), s) == Stepped(f, w, x, data, t, s)
  {
    hide Rotate, Sum;
    SumAssociates(f, data, t);
    SumAssociates(w, Sum(f, data), t);
    SumAssociates(w, f, data);
    SumCommutes(Rotate(Sum(Sum(Sum(w, f), data), t), s), x);
  }

  /** The function that the code uses in the round of step i. */
  function Coded(i: nat, x: Word, y: Word, z: Word): Word {
    if i < 16 then F1(x, y, z) else if i < 32 then F2(x, y, z) else if i < 48 then F3(x, y, z) else F4(x, y, z)
  }

  lemma CodedIs(i: nat, x: Word, y: Word, z: Word)
    ensures Coded(i, x, y, z) == Mix(i, x, y, z)
  {
    F1IsF(x, y, z);
    F2IsG(x, y, z);
    hide F1, F2, F, G;
  }

  /** The arguments of one MD5STEP in the code: in[k] + t, and s. */
  datatype Line = Line(k: nat, t: Word, s: nat)

  ghost predicate Agrees(l: Line, i: nat) {
    i < 64 && l == Line(Index(i), T(i), Shift(i))
  }

  predicate Usable(l: Line) {
    l.k < 16 && 0 < l.s < 32
  }

  /** Four of the 64 lines of MD5Transform, from line n on. */
  function Lines(n: nat, v: Vec, x: seq<Word>, l0: Line, l1: Line, l2: Line, l3: Line): Vec
    requires |x| == 16 && Usable(l0) && Usable(l1) && Usable(l2) && Usable(l3)
  {
    var a := Md5Step(Coded(n, v.b, v.c, v.d), v.a, v.b, Sum(x[l0.k], l0.t), l0.s);
    var d := Md5Step(Coded(n, a, v.b, v.c), v.d, a, Sum(x[l1.k], l1.t), l1.s);
    var c := Md5Step(Coded(n, d, a, v.b), v.c, d, Sum(x[l2.k], l2.t), l2.s);
    var b := Md5Step(Coded(n, c, d, a), v.b, c, Sum(x[l3.k], l3.t), l3.s);
    Vec(a, b, c, d)
  }

  lemma LineIs(v: Vec, x: seq<Word>, i: nat, l: Line)
    requires |x| == 16 && Agrees(l, i)
    ensures Usable(l)
    ensures One(v, x, i) == Vec(v.d, Md5Step(Coded(i, v.b, v.c, v.d), v.a, v.b, Sum(x[l.k], l.t), l.s), v.b, v.c)
  {
    hide Md5Step, Stepped, Sum, T, Index, Shift, Coded, Mix;
    CodedIs(i, v.b, v.c, v.d);
    StepIs(Coded(i, v.b, v.c, v.d), v.a, v.b, x[l.k], l.t, l.s);
  }

  lemma SameRound(n: nat, i: nat, x: Word, y: Word, z: Word)
    requires n % 4 == 0 && n <= i < n + 4
    ensures Coded(i, x, y, z) == Coded(n, x, y, z)
  {
    hide F1, F2, F3, F4;
  }

  /** After four steps, the registers are back in their roles. */
  lemma FourLines(v0: Vec, x: seq<Word>, n: nat, l0: Line, l1: Line, l2: Line, l3: Line)
    requires |x| == 16 && n % 4 == 0 && n + 4 <= 64
    requires Agrees(l0, n) && Agrees(l1, n + 1) && Agrees(l2, n + 2) && Agrees(l3, n + 3)
    ensures Usable(l0) && Usable(l1) && Usable(l2) && Usable(l3)
    ensures Lines(n, Rounds(v0, x, n), x, l0, l1, l2, l3) == Rounds(v0, x, n + 4)
  {
    hide Agrees, Coded, Md5Step, Sum, One;
    var v := Rounds(v0, x, n);
    var w1 := One(v, x, n);
    var w2 := One(w1, x, n + 1);
    var w3 := One(w2, x, n + 2);
    assert Rounds(v0, x, n + 1) == w1;
    assert Rounds(v0, x, n + 2) == w2;
    assert Rounds(v0, x, n + 3) == w3;
    assert Rounds(v0, x, n + 4) == One(w3, x, n + 3);
    LineIs(v, x, n, l0);
    LineIs(w1, x, n + 1, l1);
    LineIs(w2, x, n + 2, l2);
    LineIs(w3, x, n + 3, l3);
    SameRound(n, n + 1, w1.b, w1.c, w1.d);
    SameRound(n, n + 2, w2.b, w2.c, w2.d);
    SameRound(n, n + 3, w3.b, w3.c, w3.d);
  }

  /** The lines of MD5Transform with F1. */
  method Round1(v0: Vec, x: seq<Word>) returns (v: Vec)
    requires |x| == 16
    ensures v == Rounds(v0, x, 16)
  {
    hide Lines, Rounds;
    v := v0;
    Start(v0, x);
    FourLines(v0, x, 0, Line(0, 0xd76aa478, 7), Line(1, 0xe8c7b756, 12),
              Line(2, 0x242070db, 17), Line(3, 0xc1bdceee, 22));
    v := Lines(0, v, x, Line(0, 0xd76aa478, 7), Line(1, 0xe8c7b756, 12),
               Line(2, 0x242070db, 17), Line(3, 0xc1bdceee, 22));
    FourLines(v0, x, 4, Line(4, 0xf57c0faf, 7), Line(5, 0x4787c62a, 12),
              Line(6, 0xa8304613, 17), Line(7, 0xfd469501, 22));
    v := Lines(4, v, x, Line(4, 0xf57c0faf, 7), Line(5, 0x4787c62a, 12),
               Line(6, 0xa8304613, 17), Line(7, 0xfd469501, 22));
    FourLines(v0, x, 8, Line(8, 0x698098d8, 7), Line(9, 0x8b44f7af, 12),
              Line(10, 0xffff5bb1, 17), Line(11, 0x895cd7be, 22));
    v := Lines(8, v, x, Line(8, 0x698098d8, 7), Line(9, 0x8b44f7af, 12),
               Line(10, 0xffff5bb1, 17), Line(11, 0x895cd7be, 22));
    FourLines(v0, x, 12, Line(12, 0x6b901122, 7), Line(13, 0xfd987193, 12),
              Line(14, 0xa679438e, 17), Line(15, 0x49b40821, 22));
    v := Lines(12, v, x, Line(12, 0x6b901122, 7), Line(13, 0xfd987193, 12),
               Line(14, 0xa679438e, 17), Line(15, 0x49b40821, 22));
  }

  /** The lines of MD5Transform with F2. */
  method Round2(u: Vec, x: seq<Word>, ghost v0: Vec) returns (v: Vec)
    requires |x| == 16 && u == Rounds(v0, x, 16)
    ensures v == Rounds(v0, x, 32)
  {
    hide Lines, Rounds;
    v := u;
    FourLines(v0, x, 16, Line(1, 0xf61e2562, 5), Line(6, 0xc040b340, 9),
              Line(11, 0x265e5a51, 14), Line(0, 0xe9b6c7aa, 20));
    v := Lines(16, v, x, Line(1, 0xf61e2562, 5), Line(6, 0xc040b340, 9),
               Line(11, 0x265e5a51, 14), Line(0, 0xe9b6c7aa, 20));
    FourLines(v0, x, 20, Line(5, 0xd62f105d, 5), Line(10, 0x02441453, 9),
              Line(15, 0xd8a1e681, 14), Line(4, 0xe7d3fbc8, 20));
    v := Lines(20, v, x, Line(5, 0xd62f105d, 5), Line(10, 0x02441453, 9),
               Line(15, 0xd8a1e681, 14), Line(4, 0xe7d3fbc8, 20));
    FourLines(v0, x, 24, Line(9, 0x21e1cde6, 5), Line(14, 0xc33707d6, 9),
              Line(3, 0xf4d50d87, 14), Line(8, 0x455a14ed, 20));
    v := Lines(24, v, x, Line(9, 0x21e1cde6, 5), Line(14, 0xc33707d6, 9),
               Line(3, 0xf4d50d87, 14), Line(8, 0x455a14ed, 20));
    FourLines(v0, x, 28, Line(13, 0xa9e3e905, 5), Line(2, 0xfcefa3f8, 9),
              Line(7, 0x676f02d9, 14), Line(12, 0x8d2a4c8a, 20));
    v := Lines(28, v, x, Line(13, 0xa9e3e905, 5), Line(2, 0xfcefa3f8, 9),
               Line(7, 0x676f02d9, 14), Line(12, 0x8d2a4c8a, 20));
  }

  /** The lines of MD5Transform with F3. */
  method Round3(u: Vec, x: seq<Word>, ghost v0: Vec) returns (v: Vec)
    requires |x| == 16 && u == Rounds(v0, x, 32)
    ensures v == Rounds(v0, x, 48)
  {
    hide Lines, Rounds;
    v := u;
    FourLines(v0, x, 32, Line(5, 0xfffa3942, 4), Line(8, 0x8771f681, 11),
              Line(11, 0x6d9d6122, 16), Line(14, 0xfde5380c, 23));
    v := Lines(32, v, x, Line(5, 0xfffa3942, 4), Line(8, 0x8771f681, 11),
               Line(11, 0x6d9d6122, 16), Line(14, 0xfde5380c, 23));
    FourLines(v0, x, 36, Line(1, 0xa4beea44, 4), Line(4, 0x4bdecfa9, 11),
              Line(7, 0xf6bb4b60, 16), Line(10, 0xbebfbc70, 23));
    v := Lines(36, v, x, Line(1, 0xa4beea44, 4), Line(4, 0x4bdecfa9, 11),
               Line(7, 0xf6bb4b60, 16), Line(10, 0xbebfbc70, 23));
    FourLines(v0, x, 40, Line(13, 0x289b7ec6, 4), Line(0, 0xeaa127fa, 11),
              Line(3, 0xd4ef3085, 16), Line(6, 0x04881d05, 23));
    v := Lines(40, v, x, Line(13, 0x289b7ec6, 4), Line(0, 0xeaa127fa, 11),
               Line(3, 0xd4ef3085, 16), Line(6, 0x04881d05, 23));
    FourLines(v0, x, 44, Line(9, 0xd9d4d039, 4), Line(12, 0xe6db99e5, 11),
              Line(15, 0x1fa27cf8, 16), Line(2, 0xc4ac5665, 23));
    v := Lines(44, v, x, Line(9, 0xd9d4d039, 4), Line(12, 0xe6db99e5, 11),
               Line(15, 0x1fa27cf8, 16), Line(2, 0xc4ac5665, 23));
  }

  /** The lines of MD5Transform with F4. */
  method Round4(u: Vec, x: seq<Word>, ghost v0: Vec) returns (v: Vec)
    requires |x| == 16 && u == Rounds(v0, x, 48)
    ensures v == Rounds(v0, x, 64)
  {
    hide Lines, Rounds;
    v := u;
    FourLines(v0, x, 48, Line(0, 0xf4292244, 6), Line(7, 0x432aff97, 10),
              Line(14, 0xab9423a7, 15), Line(5, 0xfc93a039, 21));
    v := Lines(48, v, x, Line(0, 0xf4292244, 6), Line(7, 0x432aff97, 10),
               Line(14, 0xab9423a7, 15), Line(5, 0xfc93a039, 21));
    FourLines(v0, x, 52, Line(12, 0x655b59c3, 6), Line(3, 0x8f0ccc92, 10),
              Line(10, 0xffeff47d, 15), Line(1, 0x85845dd1, 21));
    v := Lines(52, v, x, Line(12, 0x655b59c3, 6), Line(3, 0x8f0ccc92, 10),
               Line(10, 0xffeff47d, 15), Line(1, 0x85845dd1, 21));
    FourLines(v0, x, 56, Line(8, 0x6fa87e4f, 6), Line(15, 0xfe2ce6e0, 10),
              Line(6, 0xa3014314, 15), Line(13, 0x4e0811a1, 21));
    v := Lines(56, v, x, Line(8, 0x6fa87e4f, 6), Line(15, 0xfe2ce6e0, 10),
               Line(6, 0xa3014314, 15), Line(13, 0x4e0811a1, 21));
    FourLines(v0, x, 60, Line(4, 0xf7537e82, 6), Line(11, 0xbd3af235, 10),
              Line(2, 0x2ad7d2bb, 15), Line(9, 0xeb86d391, 21));
    v := Lines(60, v, x, Line(4, 0xf7537e82, 6), Line(11, 0xbd3af235, 10),
               Line(2, 0x2ad7d2bb, 15), Line(9, 0xeb86d391, 21));
  }

  lemma Start(v: Vec, x: seq<Word>)
    requires |x| == 16
    ensures Rounds(v, x, 0) == v
  {
  }

  /** MD5Transform: the compression function of RFC 1321. */
  method Transform(buf: Vec, x: seq<Word>) returns (r: Vec)
    requires |x| == 16
    ensures r == Compressed(buf, x)
  {
    var v := Round1(buf, x);
    v := Round2(v, x, buf);
    v := Round3(v, x, buf);
    v := Round4(v, x, buf);
    hide Plus;
    r := Plus(buf, v);
  }
}
