/** Page and granularity arithmetic, the sizes of segments, and what the system may answer. */
module Systems {
  import opened Config
  import opened Prefixes
  import opened Segments
  import opened Regions

  type Shift = n: nat | 12 <= n <= 24 witness 16

  const PAGE_SHIFT: Shift
  const GRAN_SHIFT: Shift
  const PAGE: nat := Pow2(PAGE_SHIFT)              // mparams.page_size
  const GRANULARITY: nat := Pow2(GRAN_SHIFT)       // mparams.granularity
  const PADDING: nat := TOP_FOOT + ALIGN           // SYS_ALLOC_PADDING
  const HALF_MAX: nat := (MOD - 1) / 2             // HALF_MAX_SIZE_T
  const FAIL: Addr := MOD - 1                      // CMFAIL
  const MAX_RELEASE_CHECK_RATE: nat := 4095
  const TRIM_THRESHOLD: nat := 2 * 1024 * 1024     // mparams.trim_threshold

  lemma Granules()
    ensures 4096 <= GRANULARITY <= 0x100_0000 && 4096 <= PAGE <= 0x100_0000
  {
    Pow2Table();
    Pow2Mono(12, GRAN_SHIFT);
    Pow2Mono(GRAN_SHIFT, 24);
    Pow2Mono(12, PAGE_SHIFT);
    Pow2Mono(PAGE_SHIFT, 24);
  }

  /** x & ~(u - 1), for a power of two u */
  function RoundDown(x: nat, u: nat): (r: nat)
    requires u > 0
    ensures r <= x < r + u
  {
    x / u * u
  }

  /** granularity_align and page_align; the sum wraps around. */
  function AlignTo(x: nat, u: nat): nat
    requires u > 0
  {
    RoundDown(Wrap(x + (u - 1)), u)
  }

  function GranAlign(x: nat): nat {
    AlignTo(x, GRANULARITY)
  }

  /** A multiple of the granularity. */
  ghost predicate Granular(x: int) {
    exists m: int :: x == m * GRANULARITY
  }

  lemma GranularSum(x: int, y: int)
    requires Granular(x) && Granular(y)
    ensures Granular(x + y) && Granular(x - y)
  {
    var m: int :| x == m * GRANULARITY;
    var n: int :| y == n * GRANULARITY;
    assert x + y == (m + n) * GRANULARITY;
    assert x - y == (m - n) * GRANULARITY;
  }

  lemma GranularZero()
    ensures Granular(0)
  {
    assert 0 == 0 * GRANULARITY;
  }

  lemma GranularLarge(x: int)
    requires Granular(x) && x > 0
    ensures x >= GRANULARITY
  {
    var m: int :| x == m * GRANULARITY;
    PositiveProduct(m, GRANULARITY);
  }

  lemma PositiveProduct(m: int, u: nat)
    requires m * u > 0
    ensures m * u >= u
  {
    if m >= 1 {
      assert m * u == (m - 1) * u + u;
    }
  }

  /** Rounding up without wrap-around. */
  lemma GranAligned(x: nat)
    requires x + GRANULARITY <= MOD
    ensures x <= GranAlign(x) < x + GRANULARITY && Granular(GranAlign(x))
  {
    WrapSmall(x + (GRANULARITY - 1));
    assert GranAlign(x) == (x + (GRANULARITY - 1)) / GRANULARITY * GRANULARITY;
  }

  lemma WrapSmall(x: nat)
    ensures x < MOD ==> Wrap(x) == x
    ensures MOD <= x < 2 * MOD ==> Wrap(x) == x - MOD
  {
  }

  /** asize of sys_alloc; what does not wrap around is large enough. */
  function AskedSize(nb: nat): nat {
    GranAlign(Wrap(nb + PADDING))
  }

  lemma AskedEnough(nb: nat)
    requires nb < MOD && AskedSize(nb) > nb
    ensures nb + PADDING <= AskedSize(nb) < nb + PADDING + GRANULARITY <= MOD && Granular(AskedSize(nb))
  {
    Granules();
    WrapSmall(nb + PADDING);
    var s := Wrap(nb + PADDING);
    WrapSmall(s + (GRANULARITY - 1));
    if s + GRANULARITY <= MOD {
      GranAligned(s);
    }
  }

  lemma AskedBelow(nb: nat)
    ensures AskedSize(nb) < MOD
  {
  }

  /** What the first request adds so that it ends on a page boundary. */
  function PageGap(base: nat): nat {
    Wrap(AlignTo(base, PAGE) - base)
  }

  lemma PageGapSmall(base: nat)
    requires base < MOD
    ensures PageGap(base) < PAGE
  {
    Granules();
    WrapSmall(base + (PAGE - 1));
    var r := AlignTo(base, PAGE);
    if base + (PAGE - 1) < MOD {
      RoundUpBound(base, PAGE);
      WrapSmall(r - base);
    } else {
      RoundDownSmall(base + (PAGE - 1) - MOD, PAGE);
      WrapNegative(base);
    }
  }

  lemma RoundDownSmall(x: nat, u: nat)
    requires x < u
    ensures RoundDown(x, u) == 0
  {
  }

  lemma WrapNegative(x: nat)
    requires 0 < x < MOD
    ensures Wrap(0 - x) == MOD - x
  {
  }

  lemma RoundUpBound(x: nat, u: nat)
    requires u > 0
    ensures x <= RoundDown(x + (u - 1), u) < x + u
  {
  }

  /** The size of the very first MORECORE request; the code goes on only if it exceeds nb. */
  function FirstAsk(nb: nat, base: nat): nat {
    if base % PAGE != 0 then Wrap(AskedSize(nb) + PageGap(base)) else AskedSize(nb)
  }

  lemma FirstAskEnough(nb: nat, base: nat)
    requires nb < MOD && AskedSize(nb) > nb && base < MOD && FirstAsk(nb, base) > nb
    ensures FirstAsk(nb, base) >= nb + PADDING
  {
    hide Wrap, AskedSize, PageGap, GranAlign, AlignTo, RoundDown, Pow2;
    Granules();
    AskedEnough(nb);
    PageGapSmall(base);
    WrapSmall(AskedSize(nb) + PageGap(base));
  }

  /** The size of a MORECORE request that is to extend top. */
  function NextAsk(nb: nat, topsize: nat): nat {
    GranAlign(Wrap(Wrap(nb - topsize) + PADDING))
  }

  lemma NextAskEnough(nb: nat, topsize: nat)
    requires nb < MOD && AskedSize(nb) > nb && topsize <= nb
    ensures nb - topsize + PADDING <= NextAsk(nb, topsize)
  {
    hide Wrap, AskedSize, GranAlign, AlignTo, RoundDown, Pow2;
    AskedEnough(nb);
    WrapSmall(nb - topsize);
    WrapSmall(nb - topsize + PADDING);
    GranAligned(nb - topsize + PADDING);
  }

  // ---- how much memory the segments take ----

  function Total(segs: seq<Segment>): nat {
    if segs == [] then 0 else segs[0].size + Total(segs[1..])
  }

  lemma {:induction false} TotalConcat(a: seq<Segment>, b: seq<Segment>)
    ensures Total(a + b) == Total(a) + Total(b)
  {
    if a == [] {
      assert a + b == b;
    } else {
      assert (a + b)[1..] == a[1..] + b;
      TotalConcat(a[1..], b);
    }
  }

  lemma TotalAt(segs: seq<Segment>, k: nat)
    requires k < |segs|
    ensures Total(segs) == Total(segs[..k]) + segs[k].size + Total(segs[k + 1..])
  {
    var b := segs[k..];
    TotalConcat(segs[..k], b);
    assert segs == segs[..k] + b;
    assert b[1..] == segs[k + 1..];
  }

  lemma TotalUpdate(segs: seq<Segment>, k: nat, s: Segment)
    requires k < |segs|
    ensures Total(segs[k := s]) == Total(segs) - segs[k].size + s.size
  {
    TotalAt(segs, k);
    TotalAt(segs[k := s], k);
    assert segs[k := s][..k] == segs[..k];
    assert segs[k := s][k + 1..] == segs[k + 1..];
  }

  lemma TotalPushed(segs: seq<Segment>, c: Addr, seg: Segment)
    requires |segs| > 0
    ensures Total(Pushed(segs, c, seg)) == seg.size + Total(segs)
  {
    var s := Pushed(segs, c, seg);
    assert s[1..] == [segs[0].(at := c + 2 * W)] + segs[1..];
    assert s[1..][1..] == segs[1..];
  }

  // ---- the answers of the system ----

  /** What MMAP and MORECORE hand out is fresh, and never the whole address space. */
  predicate Grantable(segs: seq<Segment>, base: Addr, size: nat) {
    Granted(segs, base, size) && Total(segs) + size < MOD
  }

  /** CALL_MMAP(size), or CALL_MORECORE(size) for a positive size */
  method Obtain(segs: seq<Segment>, size: nat) returns (base: Addr)
    ensures base != FAIL ==> Grantable(segs, base, size)
  {
    base := *;
    if !Grantable(segs, base, size) {
      base := FAIL;
    }
  }

  /** MORECORE has given size bytes that do not continue top, too few for nb, and sys_alloc does not ask for
      the rest: size, or the rest, looks negative. */
  predicate Short(nb: nat, size: nat) {
    size < nb + PADDING && (size >= HALF_MAX || GranAlign(Wrap(nb + PADDING - size)) >= HALF_MAX)
  }

  /** That takes a top of about half of the address space. */
  lemma ShortNeedsTop(nb: nat, topsize: nat)
    requires topsize <= nb < AskedSize(nb) && nb < MOD
    requires NextAsk(nb, topsize) < HALF_MAX && Short(nb, NextAsk(nb, topsize))
    ensures topsize + GRANULARITY > HALF_MAX
  {
    hide Wrap, AskedSize, GranAlign, NextAsk;
    AskedEnough(nb);
    NextAskEnough(nb, topsize);
    var rest := nb + PADDING - NextAsk(nb, topsize);
    WrapSmall(rest);
    GranAligned(rest);
  }

  /** With a top that is large enough, that is how it is. */
  lemma ShortExample()
    ensures var nb, topsize := HALF_MAX + 1 + 2 * GRANULARITY, HALF_MAX + 1 + 2 * GRANULARITY;
      && topsize <= nb < AskedSize(nb) && Short(nb, NextAsk(nb, topsize))
  {
    Granules();
    var nb, g := HALF_MAX + 1 + 2 * GRANULARITY, GRANULARITY;
    assert nb + PADDING + g < MOD;
    WrapSmall(nb + PADDING);
    GranAligned(nb + PADDING);
    WrapSmall(0);
    WrapSmall(PADDING);
    GranAligned(PADDING);
    WrapSmall(nb + PADDING - NextAsk(nb, nb));
    GranAligned(nb + PADDING - NextAsk(nb, nb));
  }

  /** CALL_MORECORE(size) that is to continue the memory up to end.  It is assumed that memory from elsewhere is
      not short. */
  method ObtainNext(segs: seq<Segment>, size: nat, end: Addr, nb: nat) returns (base: Addr)
    ensures base != FAIL ==> Grantable(segs, base, size) && (base == end || !Short(nb, size))
  {
    base := Obtain(segs, size);
    if base != end && Short(nb, size) {
      base := FAIL;
    }
  }

  /** CALL_MORECORE(0): where the break is. */
  method Break() returns (base: Addr)
    ensures 0 <= base < MOD
  {
    base := *;
    if !(0 <= base < MOD) {
      base := FAIL;
    }
  }

  /** A second CALL_MORECORE(more) right behind one that has returned br: nobody else moves the break
      while the global lock is held. */
  method ObtainMore(segs: seq<Segment>, br: Addr, size: nat, more: nat) returns (end: Addr)
    ensures end != FAIL ==> end == br + size && Grantable(segs, br, size + more)
  {
    end := *;
    if end != br + size || !Grantable(segs, br, size + more) {
      end := FAIL;
    }
  }

  /** CALL_MORECORE(asize) and CALL_MORECORE(0): the space between the two answers is ours. */
  method ObtainRegion(segs: seq<Segment>) returns (br: Addr, end: Addr)
    ensures br != FAIL && end != FAIL && br < end ==> Grantable(segs, br, end - br)
  {
    br, end := *, *;
    if br < end && !Grantable(segs, br, end - br) {
      br := FAIL;
    }
  }

  /** CALL_MUNMAP or CALL_MREMAP of memory that is ours: it may fail. */
  method Unmap() returns (done: bool) {
    done := *;
  }

  /** CALL_MORECORE(-extra) and then CALL_MORECORE(0): the break does not fall below what was asked for. */
  method Shrink(old_br: Addr, extra: nat) returns (rel_br: Addr, new_br: Addr)
    ensures old_br - extra <= new_br
  {
    rel_br, new_br := *, *;
    if new_br < old_br - extra {
      new_br := old_br;
    }
  }

  /** What sys_trim wants to give back when x bytes of top are not needed. */
  function TrimExtra(x: nat): int {
    ((x + (GRANULARITY - 1)) / GRANULARITY - 1) * GRANULARITY
  }

  /** It is granular and keeps at least one byte and at most one granule. */
  lemma TrimExtraFits(x: nat)
    requires x > 0
    ensures 0 <= TrimExtra(x) < x <= TrimExtra(x) + GRANULARITY && Granular(TrimExtra(x))
  {
    var q := (x + (GRANULARITY - 1)) / GRANULARITY;
    DivBounds(x + (GRANULARITY - 1), GRANULARITY);
    assert q * GRANULARITY == (q - 1) * GRANULARITY + GRANULARITY;
    NonNegativeProduct(q - 1, GRANULARITY);
  }

  lemma NonNegativeProduct(a: int, b: nat)
    requires a >= 0
    ensures a * b >= 0
  {
  }

  /** Where sys_trim avoids a request that would look negative, it asks for less, which is still granular. */
  lemma HalfGranular()
    ensures Granular(HALF_MAX + 1 - GRANULARITY) && HALF_MAX + 1 - GRANULARITY > 0
  {
    Granules();
    Pow2Words();
    Pow2Add(WORD_BITS - 1 - GRAN_SHIFT, GRAN_SHIFT);
    assert HALF_MAX + 1 == Pow2(WORD_BITS - 1 - GRAN_SHIFT) * GRANULARITY;
    assert Granular(HALF_MAX + 1);
    assert GRANULARITY == 1 * GRANULARITY;
    GranularSum(HALF_MAX + 1, GRANULARITY);
  }
}
