/** The two 32-bit bin maps and the bit tricks that search them without visiting empty bins.

    A word of n bits is a number below 2^n; the operators work bit by bit. */
module BinMaps {
  import opened Config
  import opened Prefixes

  const FULL: nat := 0x1_0000_0000        // 2 ^ 32

  type BinMap = m: nat | m < FULL

  function And(x: nat, y: nat): nat {
    if x == 0 || y == 0 then 0 else 2 * And(x / 2, y / 2) + x % 2 * (y % 2)
  }

  function Or(x: nat, y: nat): nat
    decreases x + y
  {
    if x == 0 then y else if y == 0 then x
    else 2 * Or(x / 2, y / 2) + if x % 2 == 1 || y % 2 == 1 then 1 else 0
  }

  /** -x in a word of n bits */
  function Neg(x: nat, n: nat): nat
    requires x < Pow2(n)
  {
    if x == 0 then 0 else Pow2(n) - x
  }

  /** idx2bit(i) */
  function IdxBit(i: nat): nat
    requires i < NBINS
  {
    Pow2(i)
  }

  /** smallmap_is_marked, treemap_is_marked */
  predicate Marked(m: nat, i: nat) {
    Bit(m, i) == 1
  }

  /** mark_smallmap, mark_treemap */
  function Mark(m: BinMap, i: nat): (r: BinMap)
    requires i < NBINS
  {
    Full();
    Pow2Mono(i + 1, NBINS);
    OrBound(m, IdxBit(i), NBINS);
    Or(m, IdxBit(i))
  }

  /** clear_smallmap, clear_treemap: the map and-ed with the complement of the bit. */
  function Clear(m: BinMap, i: nat): (r: BinMap)
    requires i < NBINS
  {
    Full();
    Pow2Mono(i + 1, NBINS);
    AndBound(m, FULL - 1 - IdxBit(i));
    And(m, FULL - 1 - IdxBit(i))
  }

  /** least_bit(x) */
  function LeastBit(x: BinMap): (r: BinMap) {
    Full();
    AndBound(x, Neg(x, NBINS));
    And(x, Neg(x, NBINS))
  }

  /** x << 1 */
  function Double(x: BinMap): BinMap {
    2 * x % FULL
  }

  /** left_bits(x) */
  function LeftBits(x: BinMap): (r: BinMap) {
    Full();
    OrBound(Double(x), Neg(Double(x), NBINS), NBINS);
    Or(Double(x), Neg(Double(x), NBINS))
  }

  /** m << i */
  function Shl(m: BinMap, i: nat): BinMap {
    if i == 0 then m else Double(Shl(m, i - 1))
  }

  /** m >> i is Prefix(m, i). compute_bit2idx(X, I): the number of trailing zeros. */
  function Bit2Idx(x: nat): nat
    requires x != 0
  {
    if x % 2 == 1 then 0 else Bit2Idx(x / 2) + 1
  }

  lemma Full()
    ensures Pow2(NBINS) == FULL
  {
    assert Pow2(8) == 256;
    assert Pow2(16) == 65536 by { Pow2Add(8, 8); }
    Pow2Add(16, 16);
  }

  lemma {:induction false} OrBound(x: nat, y: nat, n: nat)
    requires x < Pow2(n) && y < Pow2(n)
    ensures Or(x, y) < Pow2(n)
    decreases n
  {
    if x != 0 && y != 0 {
      OrBound(x / 2, y / 2, n - 1);
    }
  }

  lemma {:induction false} AndBound(x: nat, y: nat)
    ensures And(x, y) <= x
  {
    if x != 0 && y != 0 {
      AndBound(x / 2, y / 2);
    }
  }

  lemma {:induction false} BitShift(x: nat, i: nat)
    ensures Bit(x, i + 1) == Bit(x / 2, i)
  {
    PrefixAdd(x, 1, i);
    assert Prefix(x, 1) == x / 2;
  }

  lemma {:induction false} ZeroBits(i: nat)
    ensures Bit(0, i) == 0
  {
    if i > 0 {
      BitShift(0, i - 1);
      ZeroBits(i - 1);
    }
  }

  lemma {:induction false} AndBits(x: nat, y: nat, i: nat)
    ensures Marked(And(x, y), i) <==> Marked(x, i) && Marked(y, i)
    decreases i
  {
    ZeroBits(i);
    if x != 0 && y != 0 && i > 0 {
      BitShift(And(x, y), i - 1);
      BitShift(x, i - 1);
      BitShift(y, i - 1);
      AndBits(x / 2, y / 2, i - 1);
      assert And(x, y) / 2 == And(x / 2, y / 2);
    }
  }

  lemma {:induction false} OrBits(x: nat, y: nat, i: nat)
    ensures Marked(Or(x, y), i) <==> Marked(x, i) || Marked(y, i)
    decreases i
  {
    ZeroBits(i);
    if x != 0 && y != 0 && i > 0 {
      assert Or(x, y) / 2 == Or(x / 2, y / 2);
      hide Or, Bit;
      BitShift(Or(x, y), i - 1);
      BitShift(x, i - 1);
      BitShift(y, i - 1);
      OrBits(x / 2, y / 2, i - 1);
    }
  }

  lemma {:induction false} PowerBits(i: nat, j: nat)
    ensures Marked(Pow2(i), j) <==> i == j
    decreases j
  {
    if i == 0 {
      if j > 0 {
        BitShift(1, j - 1);
        ZeroBits(j - 1);
      }
    } else if j > 0 {
      BitShift(Pow2(i), j - 1);
      PowerBits(i - 1, j - 1);
    }
  }

  lemma {:induction false} ComplementBits(x: nat, n: nat, j: nat)
    requires x < Pow2(n) && j < n
    ensures Marked(Pow2(n) - 1 - x, j) <==> !Marked(x, j)
    decreases n
  {
    var c := Pow2(n) - 1 - x;
    if j > 0 {
      assert c / 2 == Pow2(n - 1) - 1 - x / 2;
      BitShift(c, j - 1);
      BitShift(x, j - 1);
      ComplementBits(x / 2, n - 1, j - 1);
    }
  }

  /** Marking and clearing a bin changes the map at that bin and nowhere else. */
  lemma MarkClear(m: BinMap, i: nat, j: nat)
    requires i < NBINS && j < NBINS
    ensures Marked(Mark(m, i), j) <==> i == j || Marked(m, j)
    ensures Marked(Clear(m, i), j) <==> i != j && Marked(m, j)
  {
    OrBits(m, Pow2(i), j);
    PowerBits(i, j);
    Full();
    Pow2Mono(i + 1, NBINS);
    ComplementBits(Pow2(i), NBINS, j);
    AndBits(m, FULL - 1 - Pow2(i), j);
  }

  lemma {:induction false} AndComplement(x: nat, n: nat)
    requires x < Pow2(n)
    ensures And(x, Pow2(n) - 1 - x) == 0
    decreases n
  {
    var c := Pow2(n) - 1 - x;
    if x != 0 && c != 0 {
      assert c / 2 == Pow2(n - 1) - 1 - x / 2;
      AndComplement(x / 2, n - 1);
    }
  }

  /** x & -x isolates the lowest set bit. */
  lemma {:induction false} LeastBitIsPower(x: nat, n: nat)
    requires 0 < x < Pow2(n)
    ensures And(x, Neg(x, n)) == Pow2(Bit2Idx(x)) && Bit2Idx(x) < n
    decreases n
  {
    var y := Neg(x, n);
    if x % 2 == 1 {
      assert y / 2 == Pow2(n - 1) - 1 - x / 2;
      AndComplement(x / 2, n - 1);
    } else {
      assert y / 2 == Neg(x / 2, n - 1);
      LeastBitIsPower(x / 2, n - 1);
    }
  }

  lemma {:induction false} FirstBit(x: nat, j: nat)
    requires x != 0 && j <= Bit2Idx(x)
    ensures Marked(x, j) <==> j == Bit2Idx(x)
    decreases j
  {
    if j > 0 {
      BitShift(x, j - 1);
      FirstBit(x / 2, j - 1);
    }
  }

  lemma {:induction false} IndexOfPower(i: nat)
    ensures Bit2Idx(Pow2(i)) == i
  {
    if i > 0 {
      IndexOfPower(i - 1);
    }
  }

  // ---- compute_bit2idx by shifts and masks ----

  lemma {:induction false} AndPower(x: nat, k: nat)
    ensures And(x, Pow2(k)) == Pow2(k) * Bit(x, k)
    decreases k
  {
    if k == 0 {
      assert And(x / 2, 0) == 0;
    } else if x == 0 {
      ZeroBits(k);
    } else {
      assert And(x, Pow2(k)) == 2 * And(x / 2, Pow2(k - 1));
      hide And, Bit;
      BitShift(x, k - 1);
      AndPower(x / 2, k - 1);
    }
  }

  /** i ones, shifted right by k */
  lemma {:induction false} OnesPrefix(i: nat, k: nat)
    ensures Prefix(Pow2(i) - 1, k) == if k <= i then Pow2(i - k) - 1 else 0
  {
    if k > 0 {
      OnesPrefix(i, k - 1);
    }
  }

  /** Y >> (m - j) & m for m = 2 ^ j: the bit m of Y, in its place. */
  function Masked(y: nat, j: nat): nat {
    And(Prefix(y, Pow2(j) - Less(j)), Pow2(j))
  }

  function Less(j: nat): (k: nat)
    ensures k < Pow2(j) && k == j
  {
    if j == 0 then 0 else Less(j - 1) + 1
  }

  /** The lines from that for m = 2 ^ j on: N += K = Y >> (m - j) & m, Y >>= K, and at last N + Y */
  function Turns(y: nat, j: nat): nat
    decreases j
  {
    var k := Masked(y, j);
    k + if j == 0 then Prefix(y, k) else Turns(Prefix(y, k), j - 1)
  }

  /** The variant of compute_bit2idx without bit instructions. */
  function PortableBit2Idx(x: nat): nat
    requires x > 0
  {
    Turns(x - 1, 4)
  }

  lemma OnesBit(i: nat, m: nat)
    ensures Bit(Pow2(i) - 1, m) == if i > m then 1 else 0
  {
    OnesPrefix(i, m);
    hide Prefix;
  }

  /** One turn on i ones: what is above m is shifted away. */
  lemma TurnOnes(i: nat, j: nat)
    ensures var m := Pow2(j);
      && Masked(Pow2(i) - 1, j) == (if i > m then m else 0)
      && Prefix(Pow2(i) - 1, Masked(Pow2(i) - 1, j)) == Pow2(if i > m then i - m else i) - 1
  {
    var y, m := Pow2(i) - 1, Pow2(j);
    var z := Prefix(y, m - Less(j));
    OnesBit(i, m);
    AndPower(z, j);
    PrefixAdd(y, m - j, j);
    assert Bit(z, j) == Bit(y, m);
    OnesPrefix(i, m);
    OnesPrefix(i, 0);
    hide And, Bit, Prefix, Pow2;
    assert Masked(y, j) == m * Bit(y, m);
  }

  lemma {:induction false} TurnsCount(i: nat, j: nat)
    requires i <= 2 * Pow2(j)
    ensures Turns(Pow2(i) - 1, j) == i
  {
    TurnOnes(i, j);
    var rest := if i > Pow2(j) then i - Pow2(j) else i;
    hide Masked, Prefix;
    if j > 0 {
      TurnsCount(rest, j - 1);
    } else {
      assert rest <= 1;
    }
  }

  /** Both variants agree on the single bits that they are used for. */
  lemma PortableIsBit2Idx(i: nat)
    requires i < NBINS
    ensures PortableBit2Idx(Pow2(i)) == i == Bit2Idx(Pow2(i))
  {
    hide Turns, Bit2Idx, Pow2;
    IndexOfPower(i);
    Pow2Table();
    TurnsCount(i, 4);
  }

  /** least_bit followed by compute_bit2idx is the first marked bin of a linear search. */
  lemma FirstMarked(x: BinMap)
    requires x != 0
    ensures LeastBit(x) != 0
    ensures var i := Bit2Idx(LeastBit(x)); i < NBINS && Marked(x, i) && forall j | 0 <= j < i :: !Marked(x, j)
  {
    Full();
    LeastBitIsPower(x, NBINS);
    var i := Bit2Idx(x);
    IndexOfPower(i);
    forall j | 0 <= j <= i ensures Marked(x, j) <==> j == i {
      FirstBit(x, j);
    }
  }

  lemma {:induction false} NegPowerBits(i: nat, n: nat, j: nat)
    requires i < n && j < n
    ensures Pow2(i) < Pow2(n) && (Marked(Neg(Pow2(i), n), j) <==> i <= j)
    decreases i
  {
    Pow2Mono(i + 1, n);
    var x := Neg(Pow2(i), n);
    if i == 0 {
      ZeroBits(j);
      ComplementBits(0, n, j);
    } else if j > 0 {
      BitShift(x, j - 1);
      assert x / 2 == Pow2(n - 1) - Pow2(i - 1);
      NegPowerBits(i - 1, n - 1, j - 1);
    }
  }

  /** left_bits(idx2bit(i)) & m keeps exactly the bins above i. */
  lemma AboveMarked(m: BinMap, i: nat, j: nat)
    requires i < NBINS && j < NBINS
    ensures IdxBit(i) < FULL
    ensures Marked(And(LeftBits(IdxBit(i)), m), j) <==> i < j && Marked(m, j)
  {
    Full();
    Pow2Mono(i + 1, NBINS);
    assert IdxBit(i) < FULL;
    var d := Double(IdxBit(i));
    AndBits(LeftBits(IdxBit(i)), m, j);
    OrBits(d, Neg(d, NBINS), j);
    if i + 1 == NBINS {
      assert d == 0;
      ZeroBits(j);
    } else {
      Pow2Mono(i + 2, NBINS);
      assert d == Pow2(i + 1);
      PowerBits(i + 1, j);
      NegPowerBits(i + 1, NBINS, j);
    }
  }

  lemma {:induction false} ShiftedRight(m: nat, i: nat, k: nat)
    ensures Marked(Prefix(m, i), k) <==> Marked(m, i + k)
  {
    PrefixAdd(m, i, k);
  }

  lemma {:induction false} ShiftedLeft(m: BinMap, i: nat, k: nat)
    requires k < NBINS
    ensures Marked(Shl(m, i), k) <==> i <= k && Marked(m, k - i)
    decreases i
  {
    if i > 0 {
      var x := Shl(m, i - 1);
      DoubledBits(x, k);
      if k > 0 {
        ShiftedLeft(m, i - 1, k - 1);
      }
    }
  }

  lemma {:induction false} DoubledBits(x: BinMap, k: nat)
    requires k < NBINS
    ensures Marked(Double(x), k) <==> k > 0 && Marked(x, k - 1)
  {
    if k > 0 {
      BitShift(2 * x, k - 1);
      BitShift(Double(x), k - 1);
      if 2 * x >= FULL {
        Full();
        DroppedTop(x, NBINS - 1, k - 1);
        assert Double(x) / 2 == x - FULL / 2;
      }
    }
  }

  lemma {:induction false} DroppedTop(x: nat, n: nat, k: nat)
    requires Pow2(n) <= x && k < n
    ensures Marked(x - Pow2(n), k) <==> Marked(x, k)
    decreases n
  {
    if k > 0 {
      BitShift(x, k - 1);
      BitShift(x - Pow2(n), k - 1);
      DroppedTop(x / 2, n - 1, k - 1);
      assert (x - Pow2(n)) / 2 == x / 2 - Pow2(n - 1);
    }
  }

  /** A map is zero exactly when no bin is marked. */
  lemma EmptyMap(m: BinMap)
    ensures m == 0 <==> forall i | 0 <= i < NBINS :: !Marked(m, i)
  {
    if m != 0 {
      FirstMarked(m);
    } else {
      forall i | 0 <= i < NBINS ensures !Marked(m, i) {
        ZeroBits(i);
      }
    }
  }

  lemma NoBitAbove(m: BinMap, i: nat)
    requires i >= NBINS
    ensures Prefix(m, i) == 0 && !Marked(m, i)
  {
    Full();
    Pow2Mono(NBINS, i);
    PrefixIsShift(m, i);
  }

  lemma AndThree(b: nat)
    ensures And(b, 3) != 0 <==> b % 2 == 1 || b / 2 % 2 == 1
  {
    assert And(b / 2, 1) == b / 2 % 2 by {
      assert And(b / 2 / 2, 0) == 0;
    }
    assert And(b, 3) == if b == 0 then 0 else 2 * And(b / 2, 1) + b % 2;
  }

  /** The tests of malloc on smallbits, which is smallmap >> i. */
  lemma ShiftedTests(m: BinMap, i: nat)
    requires i < NBINS
    ensures Prefix(m, i) < FULL
    ensures And(Prefix(m, i), 3) != 0 <==> Marked(m, i) || Marked(m, i + 1)
    ensures Prefix(m, i) != 0 <==> exists j {:trigger Marked(m, j)} | i <= j < NBINS :: Marked(m, j)
  {
    var b := Prefix(m, i);
    PrefixIsShift(m, i);
    AndThree(b);
    assert Prefix(m, i + 1) == b / 2;
    EmptyMap(b);
    if b != 0 {
      FirstMarked(b);
      var k := Bit2Idx(LeastBit(b));
      ShiftedRight(m, i, k);
      if i + k >= NBINS {
        NoBitAbove(m, i + k);
      }
      assert Marked(m, i + k);
    }
    forall j | i <= j < NBINS && Marked(m, j) ensures b != 0 {
      ShiftedRight(m, i, j - i);
      ZeroBits(j - i);
    }
  }

  /** leftbits of malloc: (smallbits << i) & left_bits(idx2bit(i)), where smallbits is smallmap >> i */
  function BitsBehind(m: BinMap, i: nat): BinMap
    requires i < NBINS
  {
    ShiftedTests(m, i);
    AboveMarked(m, i, i);
    AndBound(Shl(Prefix(m, i), i), LeftBits(IdxBit(i)));
    And(Shl(Prefix(m, i), i), LeftBits(IdxBit(i)))
  }

  /** The first marked bin behind i, as malloc finds it. */
  lemma FirstBehind(m: BinMap, i: nat)
    requires i < NBINS && Prefix(m, i) != 0 && And(Prefix(m, i), 3) == 0
    ensures LeastBit(BitsBehind(m, i)) != 0
    ensures var b := Bit2Idx(LeastBit(BitsBehind(m, i)));
      i < b < NBINS && Marked(m, b) && forall j {:trigger Marked(m, j)} | i <= j < b :: !Marked(m, j)
  {
    hide And, Bit, Prefix, BitsBehind, LeastBit, Bit2Idx;
    ShiftedTests(m, i);
    var leftbits := BitsBehind(m, i);
    forall j: nat {:trigger Marked(leftbits, j)} | j < NBINS ensures Marked(leftbits, j) <==> i < j && Marked(m, j) {
      BehindMarked(m, i, j);
    }
    EmptyMap(leftbits);
    var k: nat :| i <= k < NBINS && Marked(m, k);
    assert Marked(leftbits, k);
    FirstMarked(leftbits);
    forall j: nat {:trigger Marked(m, j)} | i <= j < Bit2Idx(LeastBit(leftbits)) ensures !Marked(m, j) {
      assert !Marked(leftbits, j);
    }
  }

  lemma BehindMarked(m: BinMap, i: nat, j: nat)
    requires i < NBINS && j < NBINS
    ensures Marked(BitsBehind(m, i), j) <==> i < j && Marked(m, j)
  {
    ShiftedTests(m, i);
    var s := Shl(Prefix(m, i), i);
    AboveMarked(s, i, j);
    AndBits(LeftBits(IdxBit(i)), s, j);
    AndBits(s, LeftBits(IdxBit(i)), j);
    ShiftedLeft(Prefix(m, i), i, j);
    if i <= j {
      ShiftedRight(m, i, j - i);
    }
  }
}
