/** The checkers of the file's own debugging support: on every state between calls all their assertions hold. */
module Checks {
  import opened Config
  import opened Tiling
  import opened Segments
  import opened Layouts
  import opened Stores
  import opened Systems
  import opened Mstate
  import opened Canonical
  import B = Bins

  // ---- the walk through a segment ----

  /** Up to where segment k is tiled by chunks: to top, or to the fenceposts. */
  ghost function Stop(h: Heap, segs: seq<Segment>, k: nat): Addr
    requires k < |segs|
  {
    if k == 0 then h.top else Limit(segs, k)
  }

  /** The chunks of segment k that start in front of q. */
  ghost predicate Visited(h: Heap, segs: seq<Segment>, k: nat, q: Addr, seen: set<Addr>)
    requires k < |segs|
  {
    forall c {:trigger c in seen} :: c in seen <==> c in h.chunks && HoldsAddr(segs[k], c) && c < q
  }

  /** The walk of segment k stands at q, between its first chunk and its stop. */
  ghost predicate Walking(h: Heap, segs: seq<Segment>, least: Addr, k: nat, q: Addr) {
    && Wf(h, segs, least) && k < |segs| && First(segs[k]) <= q <= Stop(h, segs, k)
    && (q in h.chunks || q == Stop(h, segs, k))
  }

  lemma WalkStart(h: Heap, segs: seq<Segment>, least: Addr, k: nat)
    requires Wf(h, segs, least) && k < |segs|
    ensures Walking(h, segs, least, k, First(segs[k])) && Visited(h, segs, k, First(segs[k]), {})
    ensures PInUse(h, First(segs[k]))
  {
    Recall(FirstOk(h, segs, k));
    Recall(SegmentOk(segs, k, least));
    Recall(Contained(h, segs, 0, h.top));
    forall c {:trigger c in h.chunks} | c in h.chunks && HoldsAddr(segs[k], c) ensures First(segs[k]) <= c {
      Recall(Contained(h, segs, k, c));
    }
  }

  /** The test of the walk's loop is whether the stop has been reached. */
  lemma WalkTest(h: Heap, segs: seq<Segment>, least: Addr, k: nat, q: Addr)
    requires Walking(h, segs, least, k, q)
    ensures HoldsAddr(segs[k], q) && q != h.top && HeadAt(h.hd, q) != FENCE <==> q != Stop(h, segs, k)
  {
    Recall(SegmentOk(segs, k, least));
    if k != 0 {
      Recall(RecordOk(h, segs, k));
      Recall(FenceOk(h, Limit(segs, k)));
      Recall(SegApart(segs, 0, k));
    }
    if q != Stop(h, segs, k) {
      Recall(ChunkOk(h, q));
    }
  }

  /** From a chunk that is not the stop, the walk goes to the next chunk, or to the stop. */
  lemma WalkNext(h: Heap, segs: seq<Segment>, least: Addr, k: nat, q: Addr, seen: set<Addr>)
    requires Walking(h, segs, least, k, q) && q != Stop(h, segs, k) && Visited(h, segs, k, q, seen)
    ensures Chunk(h, q) && q !in seen && q < Next(h, q) && Walking(h, segs, least, k, Next(h, q))
    ensures Visited(h, segs, k, Next(h, q), seen + {q})
  {
    var n := Next(h, q);
    WalkTest(h, segs, least, k, q);
    Recall(SegmentOk(segs, k, least));
    Recall(ChunkOk(h, q));
    Recall(Contained(h, segs, k, q));
    Recall(Apart(h, q, h.top));
    Recall(FencePlaced(segs, k, n));
    forall c {:trigger c in h.chunks} | c in h.chunks && HoldsAddr(segs[k], c) && c < n ensures c <= q {
      Recall(Apart(h, q, c));
    }
  }

  /** At the stop, the walk has visited every chunk of the segment but top. */
  lemma WalkEnd(h: Heap, segs: seq<Segment>, least: Addr, k: nat, seen: set<Addr>)
    requires Wf(h, segs, least) && k < |segs| && Visited(h, segs, k, Stop(h, segs, k), seen)
    ensures forall c {:trigger c in seen} :: c in seen <==> Chunk(h, c) && HoldsAddr(segs[k], c)
  {
    forall c {:trigger c in seen} ensures c in seen <==> Chunk(h, c) && HoldsAddr(segs[k], c) {
      if Chunk(h, c) && HoldsAddr(segs[k], c) {
        Recall(ChunkOk(h, c));
        Recall(Contained(h, segs, k, c));
        if k == 0 && h.top < c {
          NothingBehindTop(h, segs, least, k, c);
        }
      }
      if k != 0 {
        Recall(SegApart(segs, 0, k));
      }
    }
  }

  // ---- the chunks ----

  /** do_check_any_chunk */
  method CheckAnyChunk(m: Mstate, p: Addr)
    requires m.Ready() && m.sys.least <= p && Aligned(p)
  {
    AlignedSum(p, 2 * W);
    hide Aligned;
    var fence := HeadAt(m.st.hd, p) == FENCE;
    assert Aligned(m.Mem(p)) || fence;
    assert p >= m.sys.least;
  }

  /** do_check_inuse_chunk */
  method CheckInuseChunk(m: Mstate, p: Addr)
    requires m.Ready() && Used(m.H(), p)
  {
    hide B.Bins.Valid, B.Bins.Content, B.Bins.Fields;
    ghost var h := m.H();
    ChunkAligned(h, p);
    AboveLeast(h, m.sys.segs, m.sys.least, p);
    Recall(ChunkOk(h, p));
    Recall(PrevOk(h, p));
    CheckAnyChunk(m, p);
    var n := p + HeadAt(m.st.hd, p).size;
    var prev := p - At(m.st.ft, p);
    assert m.IsInUse(p);
    assert HeadAt(m.st.hd, n).pinuse;
    assert HeadAt(m.st.hd, p).pinuse || prev + HeadAt(m.st.hd, prev).size == p;
  }

  /** do_check_free_chunk */
  method CheckFreeChunk(m: Mstate, p: Addr)
    requires m.Ready() && Free(m.H(), p)
  {
    hide B.Bins.Valid, B.Bins.Content, B.Bins.Fields, B.Bins.LinksOk;
    ghost var h := m.H();
    ChunkAligned(h, p);
    AboveLeast(h, m.sys.segs, m.sys.least, p);
    Recall(ChunkOk(h, p));
    AfterFree(h, p);
    CheckAnyChunk(m, p);
    var sz := HeadAt(m.st.hd, p).size;
    var next := p + sz;
    assert !m.IsInUse(p);
    assert !HeadAt(m.st.hd, next).pinuse;
    if p != m.st.dv && p != m.st.top {
      assert sz >= MIN_CHUNK;
      assert Aligned(sz) && Aligned(m.Mem(p));
      assert At(m.st.ft, next) == sz;
      assert HeadAt(m.st.hd, p).pinuse;
      assert next == m.st.top || m.IsInUse(next);
      Recall(BinnedAt(h, {m.st.dv}, m.bins.Content(), p));
      m.bins.BinnedLinked(p);
      assert m.bins.LinksOk(p, sz);
    }
  }

  /** do_check_top_chunk */
  method CheckTopChunk(m: Mstate)
    requires m.Ready()
  {
    hide B.Bins.Valid, B.Bins.Content, B.Bins.Fields;
    var p := m.st.top;
    m.CurrentHoldsTop(0);
    AboveLeast(m.H(), m.sys.segs, m.sys.least, p);
    Recall(Aligned(p));
    var k := m.SegmentHolding(p);
    m.CurrentHoldsTop(k);
    var sz := HeadAt(m.st.hd, p).size;
    assert Aligned(m.Mem(p)) && p >= m.sys.least;
    assert sz == m.st.topsize > 0;
    assert sz == End(m.sys.segs[k]) - p - TOP_FOOT;
    assert HeadAt(m.st.hd, p).pinuse;
    assert !HeadAt(m.st.hd, p + sz).pinuse;
  }

  // ---- traverse_and_check ----

  /** The bytes of the chunks of segment k, with the reserve behind top in the current segment. */
  ghost function Extent(m: Mstate, k: nat): int
    requires k < |m.sys.segs|
    reads m
  {
    Stop(m.H(), m.sys.segs, k) - First(m.sys.segs[k]) + if k == 0 then m.st.topsize + TOP_FOOT else 0
  }

  lemma ExtentFits(m: Mstate, k: nat)
    requires m.st.top != NULL && m.Running(m.H()) && k < |m.sys.segs|
    ensures 0 <= Extent(m, k) <= m.sys.segs[k].size && First(m.sys.segs[k]) <= Stop(m.H(), m.sys.segs, k)
  {
    Recall(SegmentOk(m.sys.segs, k, m.sys.least));
    WalkStart(m.H(), m.sys.segs, m.sys.least, k);
  }

  /** The inner loop: from the first chunk of segment k to its stop, each chunk checked. */
  method TraverseSegment(m: Mstate, k: nat) returns (sum: nat, ghost seen: set<Addr>)
    requires m.Ready() && k < |m.sys.segs|
    ensures sum == Stop(m.H(), m.sys.segs, k) - First(m.sys.segs[k])
    ensures forall c {:trigger c in seen} :: c in seen <==> Chunk(m.H(), c) && HoldsAddr(m.sys.segs[k], c)
  {
    hide B.Bins.Valid, B.Bins.Content, B.Bins.Fields, B.Bins.Backed, Tiled, Placed, SegmentsOk, Grid, Binned;
    ghost var h, segs, least := m.H(), m.sys.segs, m.sys.least;
    var q := First(m.sys.segs[k]);
    var lastq := NULL;
    sum, seen := 0, {};
    WalkStart(h, segs, least, k);
    WalkTest(h, segs, least, k, q);
    assert HeadAt(m.st.hd, q).pinuse;
    while HoldsAddr(m.sys.segs[k], q) && q != m.st.top && HeadAt(m.st.hd, q) != FENCE
      invariant Walking(h, segs, least, k, q) && Visited(h, segs, k, q, seen) && sum == q - First(segs[k])
      invariant lastq != NULL ==> Chunk(h, lastq) && Next(h, lastq) == q
      invariant HoldsAddr(segs[k], q) && q != h.top && HeadAt(h.hd, q) != FENCE <==> q != Stop(h, segs, k)
      decreases Stop(h, segs, k) - q
    {
      WalkNext(h, segs, least, k, q, seen);
      TraverseChunk(m, q, lastq);
      sum := sum + HeadAt(m.st.hd, q).size;
      seen := seen + {q};
      lastq := q;
      q := q + HeadAt(m.st.hd, q).size;
      WalkTest(h, segs, least, k, q);
    }
    WalkEnd(h, segs, least, k, seen);
  }

  /** The body of that loop: a used chunk is in no bin, a free one is dv or in its bin, and no free chunk
      follows another. */
  method TraverseChunk(m: Mstate, q: Addr, lastq: Addr)
    requires m.Ready() && Chunk(m.H(), q)
    requires lastq != NULL ==> Chunk(m.H(), lastq) && Next(m.H(), lastq) == q
  {
    hide B.Bins.Valid, B.Bins.Content, B.Bins.Fields, B.Bins.Backed, B.Bins.LinksOk, Placed, SegmentsOk;
    ghost var h := m.H();
    m.Backed(h, {m.st.dv}, m.st.hd);
    ChunkAligned(h, q);
    AboveLeast(h, m.sys.segs, m.sys.least, q);
    Recall(ChunkOk(h, q));
    Recall(ChunkOk(h, lastq));
    Recall(BinnedAt(h, {m.st.dv}, m.bins.Content(), q));
    var found := m.bins.BinFind(m.st.hd, m.sys.least, q);
    if m.IsInUse(q) {
      assert !found;
      CheckInuseChunk(m, q);
    } else {
      assert q == m.st.dv || found;
      assert lastq == NULL || m.IsInUse(lastq);
      CheckFreeChunk(m, q);
    }
  }

  /** traverse_and_check: the walk over all segments visits every chunk but top, and what it adds up to is
      within the footprint. */
  method TraverseAndCheck(m: Mstate) returns (sum: nat, ghost seen: set<Addr>)
    requires m.Valid()
    ensures sum <= m.sys.footprint <= m.sys.maxFootprint
    ensures m.st.top != NULL ==> forall c {:trigger c in seen} :: c in seen <==> Chunk(m.H(), c)
  {
    hide B.Bins.Valid, B.Bins.Content, B.Bins.Fields, Tiled, Placed, SegmentsOk, Grid, Binned, Mstate.Running;
    sum, seen := 0, {};
    if m.st.top != NULL {
      m.SegmentsTell();
      sum := m.st.topsize + TOP_FOOT;
      ghost var segs, topPart: nat := m.sys.segs, sum;
      var k: nat := 0;
      assert segs[..0] == [];
      assert Total([]) == 0;
      while k < |m.sys.segs|
        invariant k <= |segs| && sum <= Total(segs[..k]) + if k == 0 then topPart else 0
        invariant forall c {:trigger c in seen} :: c in seen <==> Chunk(m.H(), c) && InSome(segs, k, c)
      {
        ExtentFits(m, k);
        ghost var before := seen;
        var s, part := TraverseSegment(m, k);
        sum := sum + s;
        seen := seen + part;
        TotalNext(segs, k);
        forall c {:trigger c in seen} ensures c in seen <==> Chunk(m.H(), c) && InSome(segs, k + 1, c) {
          assert c in seen <==> c in before || c in part;
        }
        k := k + 1;
      }
      assert segs[..k] == segs;
      forall c {:trigger c in seen} ensures c in seen <==> Chunk(m.H(), c) {
        ChunkInSome(m, c);
      }
    }
  }

  /** One of the first k segments holds c. */
  ghost predicate InSome(segs: seq<Segment>, k: nat, c: Addr)
    requires k <= |segs|
  {
    exists j {:trigger segs[j]} | 0 <= j < k :: HoldsAddr(segs[j], c)
  }

  lemma ChunkInSome(m: Mstate, c: Addr)
    requires m.st.top != NULL && m.Running(m.H())
    ensures Chunk(m.H(), c) ==> InSome(m.sys.segs, |m.sys.segs|, c)
  {
    Recall(Homed(m.sys.segs, c));
  }

  lemma TotalNext(segs: seq<Segment>, k: nat)
    requires k < |segs|
    ensures Total(segs[..k + 1]) == Total(segs[..k]) + segs[k].size
  {
    assert segs[..k + 1] == segs[..k] + [segs[k]];
    TotalConcat(segs[..k], [segs[k]]);
    assert [segs[k]][1..] == [];
  }

  /** do_check_malloc_state, without the loops that check each bin by itself. */
  method CheckMallocState(m: Mstate)
    requires m.Valid()
  {
    hide B.Bins.Valid, B.Bins.Content, B.Bins.Fields, B.Bins.Backed, Placed, SegmentsOk;
    if m.st.top != NULL {
      m.Backed(m.H(), {m.st.dv}, m.st.hd);
      if m.st.dvsize != 0 {
        var dv := m.st.dv;
        ChunkAligned(m.H(), dv);
        AboveLeast(m.H(), m.sys.segs, m.sys.least, dv);
        Recall(ChunkOk(m.H(), dv));
        Recall(BinnedAt(m.H(), {dv}, m.bins.Content(), dv));
        CheckAnyChunk(m, dv);
        assert m.st.dvsize == HeadAt(m.st.hd, dv).size >= MIN_CHUNK;
        var found := m.bins.BinFind(m.st.hd, m.sys.least, dv);
        assert !found;
      }
      CheckTopChunk(m);
    }
    var total, _ := TraverseAndCheck(m);
    assert total <= m.sys.footprint;
    assert m.sys.footprint <= m.sys.maxFootprint;
  }
}
