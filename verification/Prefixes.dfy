/** Numbers read as bit strings.  The tries of large chunks branch on the bits of a chunk's size
    from the top; a cell of a trie is what is left of the size after its low bits are dropped. */
module Prefixes {
  import opened Config

  function Pow2(n: nat): (r: nat)
    ensures r > 0
  {
    if n == 0 then 1 else 2 * Pow2(n - 1)
  }

  /** s >> e */
  function Prefix(s: nat, e: nat): nat {
    if e == 0 then s else Prefix(s, e - 1) / 2
  }

  /** (s >> e) & 1 */
  function Bit(s: nat, e: nat): nat {
    Prefix(s, e) % 2
  }

  lemma {:induction false} PrefixIsShift(s: nat, e: nat)
    ensures Prefix(s, e) == s / Pow2(e)
    ensures Prefix(s, e) * Pow2(e) <= s < (Prefix(s, e) + 1) * Pow2(e)
  {
    if e > 0 {
      PrefixIsShift(s, e - 1);
      HalveBounds(s, Prefix(s, e - 1), Pow2(e - 1));
    }
  }

  lemma HalveBounds(s: nat, h: nat, p: nat)
    requires p > 0 && h * p <= s < (h + 1) * p
    ensures h / 2 * (2 * p) <= s < (h / 2 + 1) * (2 * p) && h / 2 == s / (2 * p)
  {
    var q := h / 2;
    assert q * (2 * p) == (2 * q) * p;
    assert (q + 1) * (2 * p) == (2 * q + 2) * p;
    MulMono(2 * q, h, p);
    MulMono(h + 1, 2 * q + 2, p);
    DivUnique(s, 2 * p, q);
  }

  lemma MulMono(a: nat, b: nat, p: nat)
    requires a <= b
    ensures a * p <= b * p
  {
    assert b * p == a * p + (b - a) * p;
  }

  lemma Cancel(a: nat, b: nat, p: nat)
    requires a * p < b * p
    ensures a < b
  {
    if b <= a {
      MulMono(b, a, p);
    }
  }

  lemma DivUnique(s: nat, p: nat, q: nat)
    requires p > 0 && q * p <= s < (q + 1) * p
    ensures s / p == q
  {
    var r := s / p;
    assert s == r * p + s % p;
    if r < q {
      MulMono(r + 1, q, p);
    } else if q < r {
      MulMono(q + 1, r, p);
    }
  }

  /** Numbers that agree above bit e agree above every higher bit. */
  lemma {:induction false} Coarser(s: nat, t: nat, e: nat, f: nat)
    requires e <= f && Prefix(s, e) == Prefix(t, e)
    ensures Prefix(s, f) == Prefix(t, f)
    decreases f
  {
    if e < f {
      Coarser(s, t, e, f - 1);
    }
  }

  /** Order is decided by the highest bit in which two numbers differ. */
  lemma {:induction false} PrefixMono(s: nat, t: nat, e: nat)
    ensures s <= t ==> Prefix(s, e) <= Prefix(t, e)
    ensures Prefix(s, e) < Prefix(t, e) ==> s < t
  {
    if e > 0 {
      PrefixMono(s, t, e - 1);
    }
  }

  lemma {:induction false} PrefixAdd(s: nat, a: nat, b: nat)
    ensures Prefix(Prefix(s, a), b) == Prefix(s, a + b)
  {
    if b > 0 {
      PrefixAdd(s, a, b - 1);
    }
  }

  lemma {:induction false} PrefixZero(s: nat, e: nat)
    requires s < Pow2(e)
    ensures Prefix(s, e) == 0
  {
    PrefixIsShift(s, e);
    if Prefix(s, e) > 0 {
      MulMono(1, Prefix(s, e), Pow2(e));
    }
  }

  lemma {:induction false} Pow2Add(a: nat, b: nat)
    ensures Pow2(a + b) == Pow2(a) * Pow2(b)
  {
    if a > 0 {
      Pow2Add(a - 1, b);
      assert Pow2(a) * Pow2(b) == 2 * (Pow2(a - 1) * Pow2(b));
    }
  }

  /** The word s << (n - e), of n bits: its sign bit is bit e-1 of s, and shifting the word left
      once more gives the word for e-1. */
  lemma SignBitStep(s: nat, n: nat, e: nat, k: nat)
    requires 1 <= e <= n && k == s * Pow2(n - e) % Pow2(n)
    ensures k / Pow2(n - 1) == Bit(s, e - 1)
    ensures 2 * k % Pow2(n) == s * Pow2(n - (e - 1)) % Pow2(n)
  {
    var h, p, u := Prefix(s, e - 1), Pow2(e - 1), Pow2(n - e);
    var low := s - h * p;
    assert 0 <= low < p by {
      PrefixIsShift(s, e - 1);
      assert (h + 1) * p == h * p + p;
    }
    assert p * u == Pow2(n - 1) by { Pow2Add(e - 1, n - e); }
    SplitShift(h, p, low, u);
    assert Pow2(n) == 2 * Pow2(n - 1);
    hide Prefix, Pow2;
    TwiceWrapped(s * u, Pow2(n));
    TwiceShift(s, n - e);
  }

  lemma TwiceShift(s: nat, d: nat)
    ensures s * Pow2(d + 1) == 2 * (s * Pow2(d))
  {
  }

  lemma SplitShift(h: nat, p: nat, low: nat, u: nat)
    requires low < p && u > 0
    ensures 2 * (p * u) > 0 && p * u > 0
    ensures (h * p + low) * u % (2 * (p * u)) / (p * u) == h % 2
  {
    var t := p * u;
    assert t > 0 by { MulMono(1, p, u); }
    var r := h % 2 * t + low * u;
    assert low * u + u <= t by {
      MulMono(low + 1, p, u);
      assert (low + 1) * u == low * u + u;
    }
    SplitShiftSum(h, p, low, u);
    assert 0 <= low * u < t;
    assert r < 2 * t by { MulMono(h % 2, 1, t); }
    ModUnique((h * p + low) * u, 2 * t, h / 2, r);
    assert (h % 2 + 1) * t == h % 2 * t + t;
    DivUnique(r, t, h % 2);
  }

  lemma SplitShiftSum(h: nat, p: nat, low: nat, u: nat)
    ensures (h * p + low) * u == h / 2 * (2 * (p * u)) + (h % 2 * (p * u) + low * u)
  {
    var t := p * u;
    assert (h * p + low) * u == h * t + low * u by {
      assert (h * p + low) * u == h * p * u + low * u;
      assert h * p * u == h * t;
    }
    assert h == 2 * (h / 2) + h % 2;
    assert h * t == (2 * (h / 2)) * t + h % 2 * t;
    assert (2 * (h / 2)) * t == h / 2 * (2 * t);
  }

  lemma TwiceWrapped(x: nat, m: nat)
    requires m > 0
    ensures 2 * (x % m) % m == 2 * x % m
  {
    var q, r := x / m, x % m;
    var c, d := 2 * r / m, 2 * r % m;
    assert x == q * m + r;
    assert 2 * r == c * m + d;
    assert 2 * x == (2 * q + c) * m + d;
    ModUnique(2 * x, m, 2 * q + c, d);
  }

  lemma ModUnique(x: nat, m: nat, q: nat, r: nat)
    requires m > 0 && r < m && x == q * m + r
    ensures x % m == r
  {
    assert (q + 1) * m == q * m + m;
    DivUnique(x, m, q);
  }

  /** The powers of two that the code uses as constants. */
  lemma {:induction false} Pow2Mono(a: nat, b: nat)
    requires a <= b
    ensures Pow2(a) <= Pow2(b)
  {
    if a < b {
      Pow2Mono(a, b - 1);
    }
  }

  lemma Pow2Table()
    ensures Pow2(4) == 16 && Pow2(5) == 32 && Pow2(8) == 256 && Pow2(12) == 4096 && Pow2(16) == 0x1_0000
    ensures Pow2(14) == 0x4000 && Pow2(15) == 0x8000 && Pow2(24) == 0x100_0000 && Pow2(32) == 0x1_0000_0000
  {
    assert Pow2(5) == 32;
    Pow2Add(4, 4);
    Pow2Add(8, 4);
    Pow2Add(8, 8);
    assert Pow2(16) == 2 * Pow2(15) && Pow2(15) == 2 * Pow2(14);
    Pow2Add(12, 12);
    Pow2Add(16, 16);
  }

  lemma Pow2Words()
    ensures Pow2(WORD_BITS) == MOD && Pow2(WORD_BITS - 1) == MOD / 2
  {
    Pow2Table();
    if W == 8 {
      Pow2Add(32, 32);
    }
    assert Pow2(WORD_BITS) == 2 * Pow2(WORD_BITS - 1);
  }

  lemma DivBounds(x: nat, u: nat)
    requires u > 0
    ensures x / u * u <= x < x / u * u + u && 0 <= x / u && (u <= x ==> 1 <= x / u)
  {
  }
}
