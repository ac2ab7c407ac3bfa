/** Pointers in memory that holds bytes: the low byte comes first. */
module Pointers {
  import opened Config
  import opened Prefixes

  /** Bytes were stored only from lo to hi. */
  ghost predicate StoredOnly(d: Words, e: Words, lo: Addr, hi: Addr) {
    forall x {:trigger At(e, x)} | !(lo <= x < hi) :: At(e, x) == At(d, x)
  }

  /** n bytes of v, from a on */
  function StoreBytes(d: Words, a: Addr, v: nat, n: nat): Words
    decreases n
  {
    if n == 0 then d else StoreBytes(Put(d, a, v % 256), a + 1, v / 256, n - 1)
  }

  /** What the n bytes from a on say. */
  function LoadBytes(d: Words, a: Addr, n: nat): int
    decreases n
  {
    if n == 0 then 0 else At(d, a) + 256 * LoadBytes(d, a + 1, n - 1)
  }

  lemma {:induction false} BytesAt(d: Words, a: Addr, v: nat, n: nat, x: Addr)
    requires !(a <= x < a + n)
    ensures At(StoreBytes(d, a, v, n), x) == At(d, x)
    decreases n
  {
    if n > 0 {
      BytesAt(Put(d, a, v % 256), a + 1, v / 256, n - 1, x);
    }
  }

  lemma {:induction false} LoadedSame(d: Words, e: Words, a: Addr, n: nat)
    requires forall x {:trigger At(e, x)} | a <= x < a + n :: At(e, x) == At(d, x)
    ensures LoadBytes(e, a, n) == LoadBytes(d, a, n)
    decreases n
  {
    if n > 0 {
      Recall(At(e, a) == At(d, a));
      LoadedSame(d, e, a + 1, n - 1);
    }
  }

  /** What is stored is loaded, if it fits. */
  lemma {:induction false} BytesLoaded(d: Words, a: Addr, v: nat, n: nat)
    requires v < Pow2(8 * n)
    ensures LoadBytes(StoreBytes(d, a, v, n), a, n) == v
    decreases n
  {
    if n > 0 {
      var b := Put(d, a, v % 256);
      EightBits(n);
      BytesAt(b, a + 1, v / 256, n - 1, a);
      BytesLoaded(b, a + 1, v / 256, n - 1);
    }
  }

  lemma EightBits(n: nat)
    requires n > 0
    ensures Pow2(8 * n) == 256 * Pow2(8 * (n - 1))
  {
    var k := 8 * (n - 1);
    Pow2Add(8, k);
    Pow2Table();
  }

  /** A pointer takes W bytes. */
  lemma PointerLoaded(d: Words, a: Addr, v: nat)
    requires v < MOD
    ensures LoadBytes(StoreBytes(d, a, v, W), a, W) == v
  {
    Pow2Words();
    BytesLoaded(d, a, v, W);
  }

  /** The i-th pointer of an array at dst. */
  function Place(dst: Addr, i: nat): Addr {
    dst + i * W
  }

  lemma PlacesApart(dst: Addr, i: nat, j: nat)
    requires i < j
    ensures Place(dst, i) + W <= Place(dst, j)
  {
    assert (i + 1) * W == i * W + W;
    MulMono(i + 1, j, W);
  }
}
