/** Which treebin holds a size: compute_tree_index and the macros around it. */
module TreeIndex {
  import opened Config
  import opened Prefixes
  import opened BinMaps

  /** Position of the highest set bit. */
  function Log2(x: nat): (k: nat) {
    if x < 2 then 0 else 1 + Log2(x / 2)
  }

  /** compute_tree_index(S, I): the bin index by the position of the highest bit, as the variants with
      __builtin_clz and _bit_scan_reverse compute it, with X of type size_t. */
  function Index(s: nat): (i: nat)
    ensures i < NBINS
  {
    var x := Prefix(s, 8);
    if x == 0 then 0
    else if x > 0xFFFF then NBINS - 1
    else
      Log2Bound(x);
      2 * Log2(x) + Bit(s, Log2(x) + 7)
  }

  /** compute_tree_index(S, I) where X is an unsigned int, as with gcc on x86: the high bits of S >> 8 are lost. */
  function X86Index(s: nat): nat {
    var x := Prefix(s, 8) % 0x1_0000_0000;
    if x == 0 then 0
    else if x > 0xFFFF then NBINS - 1
    else 2 * Log2(x) + Bit(s, Log2(x) + 7)
  }

  /** That variant is right exactly for the sizes whose lost bits make no difference. */
  lemma X86Exact(s: nat)
    ensures X86Index(s) == Index(s) <==> Prefix(s, 8) < 0x1_0000_0000 || Prefix(s, 8) % 0x1_0000_0000 >= 0xC000
  {
    hide Log2, Prefix;
    var x := Prefix(s, 8);
    var y := x % 0x1_0000_0000;
    if 0x1_0000_0000 <= x && 0 < y <= 0xFFFF {
      HighBits(y);
      BitOfShift(s);
    }
  }

  lemma HighBits(y: nat)
    requires y <= 0xFFFF
    ensures Log2(y) == 15 <==> y >= 0x8000
    ensures Log2(y) <= 15
  {
    Log2Bound(y);
    if y >= 0x8000 {
      Pow2Table();
      LeadingBit(y, 15);
    } else {
      LowerBit(y);
    }
  }

  lemma BitOfShift(s: nat)
    ensures Bit(s, 22) == Prefix(s, 8) % 0x1_0000_0000 / 0x4000 % 2
  {
    var x := Prefix(s, 8);
    PrefixAdd(s, 8, 14);
    PrefixIsShift(x, 14);
    Pow2Table();
    var q, y := x / 0x1_0000_0000, x % 0x1_0000_0000;
    assert x / 0x4000 == 0x4_0000 * q + y / 0x4000;
  }

  lemma LowerBit(y: nat)
    requires y < 0x8000
    ensures Log2(y) <= 14
  {
    Log2Mono(y, 0x7FFF);
    Pow2Table();
    LeadingBit(0x7FFF, 14);
  }

  /** A chunk of 1 TiB goes into the first treebin there, where it belongs into the last. */
  lemma X86TooLarge()
    ensures X86Index(0x100_0000_0000) == 0 && Index(0x100_0000_0000) == NBINS - 1
  {
    PrefixIsShift(0x100_0000_0000, 8);
    Pow2Table();
    DivUnique(0x100_0000_0000, 0x100, 0x1_0000_0000);
  }

  /** (y - c) >> 16 & m in 32-bit unsigned arithmetic: m if the subtraction borrows, for small operands. */
  function Borrow(y: nat, c: nat, m: nat): nat {
    And((y - c) % 0x1_0000_0000 / 0x1_0000, m)
  }

  lemma BorrowIs(y: nat, c: nat, m: nat)
    requires y < 0x1_0000 && 0 < c < 0x1_0000 && (m == 8 || m == 4 || m == 2)
    ensures Borrow(y, c, m) == if y < c then m else 0
  {
    if y < c {
      assert (y - c) % 0x1_0000_0000 == 0x1_0000_0000 + y - c;
      assert (y - c) % 0x1_0000_0000 / 0x1_0000 == 0xFFFF;
      assert And(0xFFFF, m) == m by {
        assert And(0x1FFF, 1) == 1;
        assert And(0x3FFF, 2) == 2;
        assert And(0x7FFF, 4) == 4;
      }
    } else {
      assert (y - c) % 0x1_0000_0000 / 0x1_0000 == 0;
    }
  }

  /** y << k, and the same in 32-bit unsigned arithmetic */
  function Up(y: nat, k: nat): nat {
    y * Pow2(k)
  }

  function Up32(y: nat, k: nat): nat {
    Up(y, k) % 0x1_0000_0000
  }

  lemma UpUp(y: nat, j: nat, k: nat)
    ensures Up(Up(y, j), k) == Up(y, j + k)
  {
    Pow2Add(j, k);
    assert y * Pow2(j) * Pow2(k) == y * (Pow2(j) * Pow2(k));
  }

  /** compute_tree_index(S, I) by shifts and masks: three borrows find out how far the leading bit is from the
      top of the low half-word. */
  function PortableIndex(s: nat): nat {
    var x := Prefix(s, 8);
    if x == 0 then 0
    else if x > 0xFFFF then NBINS - 1
    else
      var y0 := x;
      var n0 := Borrow(y0, 0x100, 8);
      var y1 := Up32(y0, n0);
      var k1 := Borrow(y1, 0x1000, 4);
      var n1 := n0 + k1;
      var y2 := Up32(y1, k1);
      var k2 := Borrow(y2, 0x4000, 2);
      var n2 := n1 + k2;
      var y3 := Up32(y2, k2);
      var k := (14 - n2 + y3 / 0x8000) % 0x1_0000_0000;
      2 * k + Bit(s, k + 7)
  }

  /** Both variants agree on all sizes. */
  lemma PortableIsIndex(s: nat)
    ensures PortableIndex(s) == Index(s)
  {
    hide Pow2, Borrow, Log2, Prefix, Up, Up32;
    var x := Prefix(s, 8);
    if 0 < x <= 0xFFFF {
      var y1, k0 := Shifted(x, 0x100, 8);
      var y2, k1 := Shifted(y1, 0x1000, 4);
      var y3, k2 := Shifted(y2, 0x4000, 2);
      UpUp(x, k0, k1);
      UpUp(x, k0 + k1, k2);
      Position(x, k0 + k1 + k2);
    }
  }

  /** One turn: what is below c is shifted up by m bits. */
  lemma Shifted(y: nat, c: nat, m: nat) returns (z: nat, k: nat)
    requires 0 < y < 0x1_0000
    requires (m == 8 && c == 0x100) || (m == 4 && c == 0x1000 && y >= 0x100) || (m == 2 && c == 0x4000 && y >= 0x1000)
    ensures k == Borrow(y, c, m) && k <= m && z == Up(y, k) == Up32(y, k)
    ensures z < 0x1_0000 && z >= if m == 8 then 0x100 else if m == 4 then 0x1000 else 0x4000
  {
    Pow2Table();
    assert Pow2(0) == 1 && Pow2(2) == 4;
    BorrowIs(y, c, m);
    k := Borrow(y, c, m);
    z := if y < c then (if m == 8 then 0x100 * y else if m == 4 then 0x10 * y else 4 * y) else y;
  }

  /** Once the leading bit is one of the two highest of the half-word, the shift tells where it was. */
  lemma Position(x: nat, n: nat)
    requires 0 < x <= 0xFFFF && n <= 14 && 0x4000 <= Up(x, n) < 0x1_0000
    ensures Log2(x) == 14 - n + Up(x, n) / 0x8000
  {
    hide Up, Pow2, Log2;
    Pow2Table();
    PositionAt(x, n, if Up(x, n) < 0x8000 then 14 - n else 15 - n);
  }

  lemma PositionAt(x: nat, n: nat, k: nat)
    requires 0 < x <= 0xFFFF && k <= 15 && Pow2(k + n) <= Up(x, n) < Pow2(k + 1 + n)
    ensures Log2(x) == k
  {
    hide Pow2, Log2;
    Pow2Add(k, n);
    Pow2Add(k + 1, n);
    assert (x + 1) * Pow2(n) == Up(x, n) + Pow2(n);
    Cancel(Pow2(k), x + 1, Pow2(n));
    Cancel(x, Pow2(k + 1), Pow2(n));
    LeadingBit(x, k);
  }

  /** The position of the leading bit is determined by the range that a number lies in. */
  lemma LeadingBit(x: nat, k: nat)
    requires 0 < x <= 0xFFFF && k <= 15 && Pow2(k) <= x < Pow2(k + 1)
    ensures Log2(x) == k
  {
    PrefixIsShift(x, k);
    DivUnique(x, Pow2(k), 1);
    Log2Unique(x, k);
  }

  /** Number of low bits of a size that treebin i still has to tell apart: the bit that
      leftshift_for_tree_index(i) brings to the sign position is bit TopBits(i) - 1. */
  function TopBits(i: nat): (e: nat)
    requires i < NBINS
    ensures 7 <= e <= WORD_BITS
  {
    if i == NBINS - 1 then WORD_BITS else i / 2 + 7
  }

  /** leftshift_for_tree_index(i) */
  function LeftShift(i: nat): (r: nat)
    requires i < NBINS
    ensures r == WORD_BITS - TopBits(i)
  {
    if i == NBINS - 1 then 0 else (WORD_BITS - 1) - (i / 2 + 8 - 2)
  }

  /** minsize_for_tree_index(i) */
  function MinSize(i: nat): nat {
    Pow2(i / 2 + 8) + i % 2 * Pow2(i / 2 + 7)
  }

  lemma {:induction false} Log2Prefix(x: nat)
    requires x > 0
    ensures Prefix(x, Log2(x)) == 1
    decreases x
  {
    if x >= 2 {
      Log2Prefix(x / 2);
      PrefixAdd(x, 1, Log2(x / 2));
      assert Prefix(x, 1) == x / 2;
    }
  }

  lemma {:induction false} Log2Unique(x: nat, k: nat)
    requires Prefix(x, k) == 1
    ensures x > 0 && Log2(x) == k
    decreases k
  {
    if k == 0 {
      assert x == 1;
    } else {
      PrefixAdd(x, 1, k - 1);
      assert Prefix(x, 1) == x / 2;
      Log2Unique(x / 2, k - 1);
    }
  }

  lemma {:induction false} Log2Mono(x: nat, y: nat)
    requires x <= y
    ensures Log2(x) <= Log2(y)
    decreases y
  {
    if x >= 2 {
      Log2Mono(x / 2, y / 2);
    }
  }

  lemma Log2Bound(x: nat)
    requires x <= 0xFFFF
    ensures Log2(x) <= 15
  {
    Log2Mono(x, 0xFFFF);
    assert Log2(0xFFFF) == 15 by {
      assert Prefix(0xFFFF, 15) == 1 by {
        PrefixIsShift(0xFFFF, 15);
        assert Pow2(15) == 32768;
      }
      Log2Unique(0xFFFF, 15);
    }
  }

  /** The two leading bits of a large size below the last bin are what its bin index says. */
  lemma IndexLeading(s: nat)
    requires 0 < Prefix(s, 8) <= 0xFFFF
    ensures var i := Index(s); Prefix(s, i / 2 + 8) == 1 && Prefix(s, i / 2 + 7) == 2 + i % 2
  {
    var x := Prefix(s, 8);
    var k := Log2(x);
    Log2Prefix(x);
    PrefixAdd(s, 8, k);
    assert Prefix(s, 8 + k) == Prefix(s, 7 + k) / 2;
  }

  /** All sizes of one treebin hang below the same cell. */
  lemma SameRoot(s: nat, t: nat)
    requires MIN_LARGE <= s < MOD && MIN_LARGE <= t < MOD && Index(s) == Index(t)
    ensures Prefix(s, TopBits(Index(s))) == Prefix(t, TopBits(Index(s)))
  {
    LargePrefix(s);
    LargePrefix(t);
    if Index(s) == NBINS - 1 {
      Pow2Words();
      PrefixZero(s, WORD_BITS);
      PrefixZero(t, WORD_BITS);
    } else {
      IndexLeading(s);
      IndexLeading(t);
    }
  }

  lemma LargePrefix(s: nat)
    requires MIN_LARGE <= s
    ensures Prefix(s, 8) > 0
  {
    PrefixIsShift(s, 8);
    assert Pow2(8) == 256;
  }

  /** Larger sizes are never in an earlier bin. */
  lemma IndexMono(s: nat, t: nat)
    requires MIN_LARGE <= s <= t
    ensures Index(s) <= Index(t)
  {
    LargePrefix(s);
    PrefixMono(s, t, 8);
    var x, y := Prefix(s, 8), Prefix(t, 8);
    if y <= 0xFFFF {
      Log2Mono(x, y);
      if Log2(x) == Log2(y) {
        IndexLeading(s);
        IndexLeading(t);
        PrefixMono(s, t, Log2(x) + 7);
      }
    }
  }

  /** minsize_for_tree_index(I) <= S, and S < minsize_for_tree_index(I+1) below the last bin. */
  lemma IndexInverse(s: nat)
    requires MIN_LARGE <= s
    ensures MinSize(Index(s)) <= s
    ensures Index(s) < NBINS - 1 ==> s < MinSize(Index(s) + 1)
  {
    LargePrefix(s);
    var x, i := Prefix(s, 8), Index(s);
    if x > 0xFFFF {
      PrefixIsShift(s, 8);
      SmallPowers();
    } else {
      IndexLeading(s);
      InverseArith(s, i);
    }
  }

  lemma SmallPowers()
    ensures Pow2(8) == 256 && Pow2(22) == 0x40_0000 && Pow2(23) == 0x80_0000
  {
    assert Pow2(8) == 256;
    assert Pow2(7) == 128;
    assert Pow2(15) == 32768 by { Pow2Add(7, 8); }
    assert Pow2(22) == 0x40_0000 by { Pow2Add(7, 15); }
  }

  lemma InverseArith(s: nat, i: nat)
    requires Prefix(s, i / 2 + 7) == 2 + i % 2
    ensures MinSize(i) <= s < MinSize(i + 1)
  {
    var p := Pow2(i / 2 + 7);
    PrefixIsShift(s, i / 2 + 7);
    assert Pow2(i / 2 + 8) == 2 * p;
    if i % 2 == 0 {
      assert i / 2 == (i + 1) / 2;
      assert MinSize(i) == 2 * p && MinSize(i + 1) == 3 * p;
    } else {
      assert (i + 1) / 2 == i / 2 + 1 && (i + 1) % 2 == 0;
      assert MinSize(i) == 3 * p && MinSize(i + 1) == Pow2((i + 1) / 2 + 8) == 4 * p;
    }
  }

  /** x << n in a size_t */
  function WordShl(x: nat, n: nat): (r: nat)
    ensures r < MOD
  {
    if n == 0 then x % MOD else 2 * WordShl(x, n - 1) % MOD
  }

  /** (k >> (SIZE_T_BITSIZE - 1)) & 1 */
  function SignBit(k: nat): (b: nat)
    ensures b < 2
  {
    if 2 * k >= MOD then 1 else 0
  }

  lemma {:induction false} WordShlIs(x: nat, n: nat)
    ensures WordShl(x, n) == x * Pow2(n) % MOD
  {
    if n > 0 {
      WordShlIs(x, n - 1);
      TwiceWrapped(x * Pow2(n - 1), MOD);
      TwiceShift(x, n - 1);
    }
  }

  /** After all but e bits of a size have been shifted out, the sign bit is bit e-1 of the size. */
  lemma SignBitOfSize(s: nat, e: nat)
    requires 1 <= e <= WORD_BITS
    ensures SignBit(WordShl(s, WORD_BITS - e)) == Bit(s, e - 1)
  {
    var k := WordShl(s, WORD_BITS - e);
    WordShlIs(s, WORD_BITS - e);
    Pow2Words();
    SignBitStep(s, WORD_BITS, e, k);
    assert Pow2(WORD_BITS) == 2 * Pow2(WORD_BITS - 1);
    if 2 * k >= MOD {
      DivUnique(k, Pow2(WORD_BITS - 1), 1);
    } else {
      DivUnique(k, Pow2(WORD_BITS - 1), 0);
    }
  }
}
