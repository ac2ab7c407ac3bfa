/** Powers of two as internal_memalign tests, makes and uses them, and calloc's overflow test. */
module Alignments {
  import opened Config
  import opened Prefixes
  import opened BinMaps

  ghost predicate PowerOfTwo(x: nat) {
    exists k: nat {:trigger Pow2(k)} :: x == Pow2(k)
  }

  /** The least power of two that is not below x. */
  ghost predicate NextPower(a: nat, x: nat) {
    PowerOfTwo(a) && x <= a && forall k: nat {:trigger Pow2(k)} | x <= Pow2(k) :: a <= Pow2(k)
  }

  /** (x & (x - 1)) == 0 */
  lemma {:induction false} PowerTest(x: nat)
    requires x > 0
    ensures And(x, x - 1) == 0 <==> PowerOfTwo(x)
  {
    if x % 2 == 1 {
      assert (x - 1) / 2 == x / 2 && And(x / 2, x / 2) == 0 <==> x / 2 == 0 by { AndSelf(x / 2); }
      forall k: nat {:trigger Pow2(k)} | x == Pow2(k) ensures k == 0 {
      }
      assert Pow2(0) == 1;
    } else {
      PowerTest(x / 2);
      assert (x - 1) / 2 == x / 2 - 1;
      if PowerOfTwo(x / 2) {
        var k: nat :| x / 2 == Pow2(k);
        assert x == Pow2(k + 1);
      }
      if PowerOfTwo(x) {
        var k: nat :| x == Pow2(k);
        assert k > 0;
        assert x / 2 == Pow2(k - 1);
      }
    }
  }

  lemma {:induction false} AndSelf(x: nat)
    ensures And(x, x) == x
  {
    if x > 0 {
      AndSelf(x / 2);
    }
  }

  lemma ModIsPower()
    ensures MOD == Pow2(WORD_BITS) && MIN_CHUNK == Pow2(if W == 4 then 4 else 5) && HALF == Pow2(WORD_BITS - 1)
    ensures Pow2(4) == 16
  {
    Pow2Table();
    Pow2Words();
  }

  const HALF: nat := MOD / 2

  /** a <<= 1 */
  function Twice(a: nat): nat {
    Wrap(2 * a)
  }

  /** a after k turns of the loop that rounds an alignment up, starting with MALLOC_ALIGNMENT << 1. */
  function After(k: nat): nat {
    if k == 0 then MIN_CHUNK else Twice(After(k - 1))
  }

  lemma TwiceIs(a: nat)
    ensures 2 * a < MOD ==> Twice(a) == 2 * a
    ensures 2 * a == MOD ==> Twice(a) == 0
  {
  }

  lemma {:induction false} AfterIs(k: nat)
    ensures var e := (if W == 4 then 4 else 5) + k; After(k) == if e < WORD_BITS then Pow2(e) else 0
  {
    hide Twice, Wrap;
    ModIsPower();
    if k > 0 {
      AfterIs(k - 1);
      TwiceIs(After(k - 1));
      var e := (if W == 4 then 4 else 5) + k;
      if e < WORD_BITS {
        Pow2Mono(e + 1, WORD_BITS);
        assert Pow2(e) == 2 * Pow2(e - 1);
      } else if e == WORD_BITS {
        assert 2 * After(k - 1) == MOD;
      }
    }
  }

  /** The loop ends exactly if the alignment is at most half of the address space: otherwise the doubled value
      drops to zero before it gets there, and stays zero. */
  lemma RoundingEnds(alignment: nat)
    ensures (exists k: nat {:trigger After(k)} :: After(k) >= alignment) <==> alignment <= HALF
  {
    ModIsPower();
    if alignment <= HALF {
      AfterIs(WORD_BITS - 1 - (if W == 4 then 4 else 5));
    }
    forall k: nat {:trigger After(k)} | After(k) >= alignment ensures alignment <= HALF {
      AfterIs(k);
      var e := (if W == 4 then 4 else 5) + k;
      if e < WORD_BITS {
        Pow2Mono(e, WORD_BITS - 1);
      }
    }
  }

  /** No alignment above half of the address space passes for a power of two, so the loop is entered for it, and
      it never ends. */
  lemma RoundingStuck(alignment: nat)
    requires HALF < alignment < MOD
    ensures And(alignment, alignment - 1) != 0
    ensures forall k: nat {:trigger After(k)} :: After(k) < alignment
  {
    PowerTest(alignment);
    ModIsPower();
    forall k: nat {:trigger Pow2(k)} | alignment == Pow2(k) ensures k < WORD_BITS - 1 {
      if k >= WORD_BITS {
        Pow2Mono(WORD_BITS, k);
      }
    }
    forall k: nat {:trigger Pow2(k)} | k < WORD_BITS - 1 ensures Pow2(k) <= HALF {
      Pow2Mono(k, WORD_BITS - 1);
    }
    RoundingEnds(alignment);
  }

  /** For example one byte more than half of the address space. */
  lemma RoundingExample(k: nat)
    ensures And(HALF + 1, HALF) != 0 && After(k) < HALF + 1
  {
    RoundingStuck(HALF + 1);
    Recall(After(k) < HALF + 1);
  }

  /** The doubling loop of internal_memalign. */
  method RoundAlignment(alignment: nat) returns (a: nat)
    requires alignment <= HALF
    ensures NextPower(a, if alignment < MIN_CHUNK then MIN_CHUNK else alignment) && a <= HALF
  {
    ModIsPower();
    a := MIN_CHUNK;
    ghost var e: nat := if W == 4 then 4 else 5;
    while a < alignment
      invariant MIN_CHUNK <= a == Pow2(e) <= HALF && e < WORD_BITS
      invariant a == MIN_CHUNK || (e > 0 && Pow2(e - 1) < alignment)
      decreases WORD_BITS - e
    {
      Doubled(e);
      a := Twice(a);
      e := e + 1;
    }
    NextPowerIs(e, if alignment < MIN_CHUNK then MIN_CHUNK else alignment);
  }

  lemma Doubled(e: nat)
    requires Pow2(e) < HALF && e < WORD_BITS
    ensures e + 1 < WORD_BITS && Twice(Pow2(e)) == Pow2(e + 1) <= HALF
  {
    ModIsPower();
    if e + 1 >= WORD_BITS {
      Pow2Mono(WORD_BITS - 1, e);
    }
    Pow2Mono(e + 1, WORD_BITS - 1);
    TwiceIs(Pow2(e));
  }

  lemma NextPowerIs(e: nat, x: nat)
    requires x <= Pow2(e) && ((e > 0 && Pow2(e - 1) < x) || x == Pow2(e))
    ensures NextPower(Pow2(e), x)
  {
    forall k: nat {:trigger Pow2(k)} | x <= Pow2(k) ensures Pow2(e) <= Pow2(k) {
      if k < e {
        Pow2Mono(k, e - 1);
      } else {
        Pow2Mono(e, k);
      }
    }
  }

  lemma OwnPower(x: nat)
    requires PowerOfTwo(x)
    ensures NextPower(x, x)
  {
    var e: nat :| x == Pow2(e);
    NextPowerIs(e, x);
  }

  // ---- the arithmetic of memalign ----

  /** (x + a - 1) & -a, for a power of two a */
  function NextMultiple(x: nat, a: nat): nat
    requires a > 0
  {
    (x + (a - 1)) / a * a
  }

  lemma NextMultipleBounds(x: nat, a: nat)
    requires a > 0
    ensures x <= NextMultiple(x, a) < x + a && NextMultiple(x, a) % a == 0 && (NextMultiple(x, a) + a) % a == 0
  {
    var q := (x + (a - 1)) / a;
    MultipleMod(q, a);
    MultipleMod(q + 1, a);
    assert (q + 1) * a == q * a + a;
    DivBounds(x + (a - 1), a);
  }

  lemma MultipleMod(q: int, a: nat)
    requires a > 0
    ensures (q * a) % a == 0
  {
    var m := q * a / a;
    assert q * a == a * m + (q * a) % a;
    RemainderZero(q, m, (q * a) % a, a);
  }

  lemma RemainderZero(q: int, m: int, r: nat, a: nat)
    requires 0 <= r < a && q * a == a * m + r
    ensures r == 0
  {
    assert (q - m) * a == r;
    Magnitude(q - m, a);
  }

  lemma Magnitude(d: int, a: nat)
    ensures d >= 1 ==> d * a >= a
    ensures d <= -1 ==> d * a <= 0 - a
    ensures d == 0 ==> d * a == 0
  {
    if d >= 1 {
      assert d * a == (d - 1) * a + a;
    } else if d <= -1 {
      assert d * a == (d + 1) * a - a;
    }
  }

  /** Multiples of a large power of two are aligned. */
  lemma MultipleAligned(x: nat, a: nat)
    requires PowerOfTwo(a) && a >= MIN_CHUNK && x % a == 0
    ensures Aligned(x) && Aligned(a)
  {
    ModIsPower();
    var k: nat :| a == Pow2(k);
    if k < 4 {
      Pow2Mono(k, 4);
      assert Pow2(k) * 2 <= Pow2(k + 1);
      Pow2Mono(k + 1, 4);
    }
    Pow2Add(4, k - 4);
    DivBounds(x, a);
    SixteenFold(x, x / a, Pow2(k - 4));
    SixteenFold(a, 1, Pow2(k - 4));
  }

  lemma SixteenFold(x: int, m: int, p: int)
    requires x == m * (16 * p)
    ensures Aligned(x)
  {
    Regroup(m, p);
    var y := m * p;
    assert x == 16 * y;
  }

  lemma Regroup(m: int, p: int)
    ensures m * (16 * p) == 16 * (m * p)
  {
  }

  // ---- calloc ----

  /** The size that calloc asks for: all ones if the test for overflow says so. */
  function CallocSize(n: nat, size: nat): nat
    requires n < MOD && size < MOD
  {
    if n == 0 then 0
    else
      var req := Wrap(n * size);
      if (n > 0xffff || size > 0xffff) && req / n != size then MOD - 1 else req
  }

  /** The test finds every overflow, and nothing else. */
  lemma CallocExact(n: nat, size: nat)
    requires n < MOD && size < MOD
    ensures CallocSize(n, size) == if n * size < MOD then n * size else MOD - 1
  {
    hide Wrap;
    if n > 0 {
      if n * size < MOD {
        ProductDiv(n, size);
        WrapId(n * size);
      } else {
        TooSmall(n, size, Wrap(n * size));
      }
    } else {
      assert n * size == 0;
    }
  }

  /** A number that is smaller than the product does not pass the test. */
  lemma TooSmall(n: nat, size: nat, req: nat)
    requires 0 < n && req < MOD <= n * size
    ensures (n > 0xffff || size > 0xffff) && req / n != size
  {
    if n <= 0xffff && size <= 0xffff {
      SmallProduct(n, size);
    }
    DivBounds(req, n);
  }

  lemma ProductDiv(n: nat, size: nat)
    requires n > 0
    ensures n * size / n == size
  {
    assert (size + 1) * n == n * size + n;
    DivUnique(n * size, n, size);
  }

  lemma SmallProduct(n: nat, size: nat)
    requires n <= 0xffff && size <= 0xffff
    ensures n * size < MOD
  {
    assert n * size <= 0xffff * size;
  }

  lemma WrapId(x: nat)
    requires x < MOD
    ensures Wrap(x) == x
  {
  }
}
