/** The segments obtained from the system, and how chunks lie in them. */
module Segments {
  import opened Config
  import opened Tiling

  /** malloc_segment; at is the address of the record, or null for the one inside malloc_state. */
  datatype Segment = Segment(base: Addr, size: nat, mmapped: bool, at: Addr)

  const RECORD: nat := 6 * W     // pad_request(sizeof(struct malloc_segment))

  function End(s: Segment): Addr {
    s.base + s.size
  }

  /** segment_holds(S, A) */
  predicate HoldsAddr(s: Segment, a: Addr) {
    s.base <= a < End(s)
  }

  /** align_as_chunk(s.base): the first chunk of a segment. */
  function First(s: Segment): Addr {
    if s.base < 0 then 0 else AlignUp(s.base)
  }

  /** The chunk that holds the record of an older segment. */
  function RecordChunk(s: Segment): Addr {
    s.at - 2 * W
  }

  /** Where the chunks of a segment end: behind top in the current segment, and at the fenceposts in
      the older ones. */
  function Limit(segs: seq<Segment>, k: nat): Addr
    requires k < |segs|
  {
    if k == 0 then End(segs[0]) - TOP_FOOT else RecordChunk(segs[k]) + RECORD
  }

  predicate SegmentOk(segs: seq<Segment>, k: nat, least: Addr)
    requires k < |segs|
  {
    && 0 < least <= segs[k].base && End(segs[k]) <= MOD
    && First(segs[k]) < Limit(segs, k) <= End(segs[k]) - 4 * W
    && (k > 0 ==> RecordChunk(segs[k]) <= End(segs[k]) - TOP_FOOT && End(segs[k]) <= Limit(segs, k) + 12 * W)
  }

  predicate SegApart(segs: seq<Segment>, j: nat, k: nat)
    requires j < |segs| && k < |segs|
  {
    End(segs[j]) <= segs[k].base || End(segs[k]) <= segs[j].base
  }

  /** The segments by themselves. */
  ghost predicate SegmentsOk(segs: seq<Segment>, least: Addr) {
    && |segs| > 0
    && (forall k: nat {:trigger SegmentOk(segs, k, least)} | k < |segs| :: SegmentOk(segs, k, least))
    && (forall j: nat, k: nat {:trigger SegApart(segs, j, k)} | j < |segs| && k < |segs| && j != k ::
          SegApart(segs, j, k))
  }

  ghost predicate FirstOk(h: Heap, segs: seq<Segment>, k: nat)
    requires k < |segs|
  {
    First(segs[k]) in h.chunks && PInUse(h, First(segs[k]))
  }

  /** The record of an older segment is the last chunk in it. */
  ghost predicate RecordOk(h: Heap, segs: seq<Segment>, k: nat)
    requires k < |segs|
  {
    k > 0 ==> RecordChunk(segs[k]) in h.pins && SizeAt(h, RecordChunk(segs[k])) == RECORD && Limit(segs, k) in h.fences
  }

  ghost predicate Contained(h: Heap, segs: seq<Segment>, k: nat, p: Addr)
    requires k < |segs|
  {
    HoldsAddr(segs[k], p) ==> First(segs[k]) <= p && Next(h, p) <= Limit(segs, k)
  }

  /** A fencepost stands behind the record of an older segment. */
  ghost predicate FencePlaced(segs: seq<Segment>, k: nat, f: Addr)
    requires k < |segs|
  {
    HoldsAddr(segs[k], f) ==> k > 0 && f == Limit(segs, k)
  }

  ghost predicate Homed(segs: seq<Segment>, p: Addr) {
    exists k: nat {:trigger segs[k]} | k < |segs| :: HoldsAddr(segs[k], p)
  }

  ghost predicate IsRecord(segs: seq<Segment>, r: Addr) {
    exists k: nat {:trigger segs[k]} | 0 < k < |segs| :: r == RecordChunk(segs[k])
  }

  ghost predicate Placed(h: Heap, segs: seq<Segment>) {
    && |segs| > 0 && h.top < End(segs[0]) && segs[0].base <= h.top && Next(h, h.top) == Limit(segs, 0)
    && (forall k: nat {:trigger FirstOk(h, segs, k)} | k < |segs| :: FirstOk(h, segs, k))
    && (forall k: nat {:trigger RecordOk(h, segs, k)} | k < |segs| :: RecordOk(h, segs, k))
    && (forall p {:trigger Homed(segs, p)} | Stands(h, p) :: Homed(segs, p))
    && (forall k: nat, p {:trigger Contained(h, segs, k, p)} | k < |segs| && p in h.chunks :: Contained(h, segs, k, p))
    && (forall k: nat, f {:trigger FencePlaced(segs, k, f)} | k < |segs| && f in h.fences :: FencePlaced(segs, k, f))
    && (forall r {:trigger IsRecord(segs, r)} | r in h.pins :: IsRecord(segs, r))
  }

  ghost predicate Grid(h: Heap) {
    forall p {:trigger Aligned(p)} | Stands(h, p) :: Aligned(p)
  }

  /** A well-formed heap. */
  ghost predicate Wf(h: Heap, segs: seq<Segment>, least: Addr) {
    SegmentsOk(segs, least) && Tiled(h) && Grid(h) && Placed(h, segs)
  }

  lemma AlignedSum(x: int, y: int)
    requires Aligned(x) && Aligned(y)
    ensures Aligned(x + y) && Aligned(x - y)
  {
    if W == 4 {
      EightSum(x, y);
    } else {
      SixteenSum(x, y);
    }
  }

  lemma EightSum(x: int, y: int)
    requires x % 8 == 0 && y % 8 == 0
    ensures (x + y) % 8 == 0 && (x - y) % 8 == 0
  {
  }

  lemma SixteenSum(x: int, y: int)
    requires x % 16 == 0 && y % 16 == 0
    ensures (x + y) % 16 == 0 && (x - y) % 16 == 0
  {
  }

  lemma ChunkAligned(h: Heap, p: Addr)
    requires Tiled(h) && Grid(h) && Chunk(h, p)
    ensures Aligned(p) && Aligned(SizeAt(h, p)) && SizeAt(h, p) >= MIN_CHUNK
  {
    Recall(ChunkOk(h, p));
    Recall(Aligned(p));
    Recall(Aligned(Next(h, p)));
    AlignedSum(Next(h, p), p);
  }

  lemma AboveLeast(h: Heap, segs: seq<Segment>, least: Addr, p: Addr)
    requires Wf(h, segs, least) && Stands(h, p)
    ensures least <= p < MOD && (p in h.chunks ==> Next(h, p) < MOD)
  {
    Recall(Homed(segs, p));
    var k: nat :| k < |segs| && HoldsAddr(segs[k], p);
    Recall(SegmentOk(segs, k, least));
    Recall(Contained(h, segs, k, p));
  }

  // ---- steps that keep every chunk inside its segment ----

  /** The new chunk a starts inside the old chunk b, and ends no later than b's successor. */
  ghost predicate Spans(h: Heap, w: Heap, a: Addr, b: Addr) {
    && b in h.chunks && b <= a < Next(h, b)
    && (Next(w, a) <= Next(h, b) || (Next(h, b) in h.chunks && Next(w, a) <= Next(h, Next(h, b))))
  }

  lemma SpansContained(h: Heap, segs: seq<Segment>, least: Addr, w: Heap, a: Addr, b: Addr, k: nat)
    requires Wf(h, segs, least) && Spans(h, w, a, b) && k < |segs|
    ensures Contained(w, segs, k, a) && Homed(segs, a)
  {
    Recall(Homed(segs, b));
    var j: nat :| j < |segs| && HoldsAddr(segs[j], b);
    Recall(SegmentOk(segs, j, least));
    Recall(SegmentOk(segs, k, least));
    Recall(Contained(h, segs, j, b));
    assert HoldsAddr(segs[j], a);
    if j != k {
      Recall(SegApart(segs, j, k));
    } else if Next(h, b) in h.chunks {
      Recall(Contained(h, segs, j, Next(h, b)));
    }
  }

  /** No first chunk of a segment has a chunk in front of it. */
  lemma NotFirst(h: Heap, segs: seq<Segment>, least: Addr, b: Addr, k: nat)
    requires Wf(h, segs, least) && Chunk(h, b) && k < |segs|
    ensures First(segs[k]) != Next(h, b)
  {
    Recall(ChunkOk(h, b));
    Recall(Homed(segs, b));
    var j: nat :| j < |segs| && HoldsAddr(segs[j], b);
    Recall(SegmentOk(segs, j, least));
    Recall(SegmentOk(segs, k, least));
    Recall(Contained(h, segs, j, b));
    if j != k {
      Recall(SegApart(segs, j, k));
    }
  }

  ghost predicate Sits(h: Heap, w: Heap, a: Addr) {
    Aligned(a) && exists b {:trigger Spans(h, w, a, b)} :: Spans(h, w, a, b)
  }

  /** Some chunk ends where x starts. */
  ghost predicate Follows(h: Heap, x: Addr) {
    exists b {:trigger Chunk(h, b)} :: Chunk(h, b) && Next(h, b) == x
  }

  ghost predicate PInUseKept(h: Heap, w: Heap, a: Addr) {
    PInUse(h, a) ==> PInUse(w, a) || Follows(h, a)
  }

  ghost predicate PinKept(h: Heap, w: Heap, r: Addr) {
    SizeAt(w, r) == SizeAt(h, r)
  }

  /** A step that rearranges chunks inside the segments; removed are the starts that disappear. */
  ghost predicate Inside(h: Heap, w: Heap, removed: set<Addr>) {
    && w.fences == h.fences && w.pins == h.pins
    && Next(w, w.top) == Next(h, h.top)
    && h.chunks - removed <= w.chunks
    && (forall x {:trigger Follows(h, x)} | x in removed :: Follows(h, x))
    && (forall a {:trigger Sits(h, w, a)} | a in w.chunks :: Sits(h, w, a))
    && (forall r {:trigger PinKept(h, w, r)} | r in h.pins :: PinKept(h, w, r))
    && (forall a {:trigger PInUseKept(h, w, a)} | a in h.chunks - removed :: PInUseKept(h, w, a))
  }

  lemma InsideWf(h: Heap, segs: seq<Segment>, least: Addr, w: Heap, removed: set<Addr>)
    requires Wf(h, segs, least) && Tiled(w) && Inside(h, w, removed)
    ensures Wf(w, segs, least)
  {
    forall k: nat | k < |segs| ensures FirstOk(w, segs, k) {
      Recall(FirstOk(h, segs, k));
      InsideFirst(h, segs, least, w, removed, k);
    }
    forall k: nat | k < |segs| ensures RecordOk(w, segs, k) {
      Recall(RecordOk(h, segs, k));
      Recall(PinKept(h, w, RecordChunk(segs[k])));
    }
    forall k: nat, p | k < |segs| && p in w.chunks ensures Contained(w, segs, k, p) {
      Recall(Sits(h, w, p));
      var b :| Spans(h, w, p, b);
      SpansContained(h, segs, least, w, p, b, k);
    }
    forall p | p in w.chunks ensures Homed(segs, p) && Aligned(p) {
      Recall(Sits(h, w, p));
      var b :| Spans(h, w, p, b);
      SpansContained(h, segs, least, w, p, b, 0);
    }
    forall p | p in w.fences ensures Homed(segs, p) && Aligned(p) {
      Recall(Homed(segs, p));
      Recall(Aligned(p));
    }
    InsideTop(h, segs, least, w, removed);
  }

  lemma InsideFirst(h: Heap, segs: seq<Segment>, least: Addr, w: Heap, removed: set<Addr>, k: nat)
    requires Wf(h, segs, least) && Inside(h, w, removed) && k < |segs|
    ensures FirstOk(w, segs, k)
  {
    var f := First(segs[k]);
    Recall(FirstOk(h, segs, k));
    Recall(Follows(h, f));
    Recall(PInUseKept(h, w, f));
    if f in removed || !PInUse(w, f) {
      var b :| Chunk(h, b) && Next(h, b) == f;
      NotFirst(h, segs, least, b, k);
    }
  }

  lemma InsideTop(h: Heap, segs: seq<Segment>, least: Addr, w: Heap, removed: set<Addr>)
    requires Wf(h, segs, least) && Tiled(w) && Inside(h, w, removed)
    ensures segs[0].base <= w.top < End(segs[0])
  {
    Recall(Sits(h, w, w.top));
    var b :| Spans(h, w, w.top, b);
    SpansContained(h, segs, least, w, w.top, b, 0);
    Recall(Homed(segs, b));
    var j: nat :| j < |segs| && HoldsAddr(segs[j], b);
    Recall(Contained(h, segs, j, b));
    Recall(SegmentOk(segs, j, least));
    Recall(SegmentOk(segs, 0, least));
    if j != 0 {
      Recall(SegApart(segs, 0, j));
      Recall(Contained(h, segs, j, Next(h, b)));
    }
  }

  // ---- the eight steps on well-formed heaps ----

  lemma MergePrevWf(h: Heap, segs: seq<Segment>, least: Addr, p: Addr)
    requires Wf(h, segs, least) && Live(h, p) && !PInUse(h, p)
    ensures var q, w := p - At(h.ft, p), MergePrev(h, p);
      Free(h, q) && Next(h, q) == p && Live(w, q) && PInUse(w, q) && Next(w, q) == Next(h, p) && Wf(w, segs, least)
  {
    var q, w := p - At(h.ft, p), MergePrev(h, p);
    MergePrevTiled(h, p);
    Recall(ChunkOk(h, p));
    Recall(ChunkOk(h, q));
    forall a {:trigger Sits(h, w, a)} | a in w.chunks ensures Sits(h, w, a) {
      Recall(Aligned(a));
      Recall(ChunkOk(h, a));
      assert Spans(h, w, a, a);
    }
    forall r {:trigger PinKept(h, w, r)} | r in h.pins ensures PinKept(h, w, r) {
      Recall(PinOk(h, r));
    }
    assert Follows(h, p);
    InsideWf(h, segs, least, w, {p});
  }

  lemma MergeNextWf(h: Heap, segs: seq<Segment>, least: Addr, p: Addr)
    requires Wf(h, segs, least) && Live(h, p) && Chunk(h, Next(h, p)) && Next(h, p) !in h.pins
    ensures var n, w := Next(h, p), MergeNext(h, p);
      Live(w, p) && Next(w, p) == Next(h, n) && PInUse(w, p) == PInUse(h, p) && Wf(w, segs, least)
  {
    var n, w := Next(h, p), MergeNext(h, p);
    MergeNextTiled(h, p);
    forall a {:trigger Sits(h, w, a)} | a in w.chunks ensures Sits(h, w, a) {
      Recall(Aligned(a));
      Recall(ChunkOk(h, a));
      assert Spans(h, w, a, a);
    }
    forall r {:trigger PinKept(h, w, r)} | r in h.pins ensures PinKept(h, w, r) {
      Recall(PinOk(h, r));
    }
    assert Follows(h, n);
    InsideWf(h, segs, least, w, {n});
  }

  lemma MergeTopWf(h: Heap, segs: seq<Segment>, least: Addr, p: Addr)
    requires Wf(h, segs, least) && Live(h, p) && Next(h, p) == h.top && PInUse(h, p)
    ensures Wf(MergeTop(h, p), segs, least)
  {
    var w := MergeTop(h, p);
    MergeTopTiled(h, p);
    forall a {:trigger Sits(h, w, a)} | a in w.chunks ensures Sits(h, w, a) {
      Recall(Aligned(a));
      Recall(ChunkOk(h, a));
      assert Spans(h, w, a, a);
    }
    forall r {:trigger PinKept(h, w, r)} | r in h.pins ensures PinKept(h, w, r) {
      Recall(PinOk(h, r));
    }
    assert Follows(h, h.top);
    InsideWf(h, segs, least, w, {h.top});
  }

  lemma ReleaseWf(h: Heap, segs: seq<Segment>, least: Addr, p: Addr)
    requires Wf(h, segs, least) && CanRelease(h, p)
    ensures var w := Release(h, p); Free(w, p) && Next(w, p) == Next(h, p) && Wf(w, segs, least)
  {
    var w := Release(h, p);
    ReleaseTiled(h, p);
    forall a {:trigger Sits(h, w, a)} | a in w.chunks ensures Sits(h, w, a) {
      Recall(Aligned(a));
      Recall(ChunkOk(h, a));
      assert Spans(h, w, a, a);
    }
    forall r {:trigger PinKept(h, w, r)} | r in h.pins ensures PinKept(h, w, r) {
      Recall(PinOk(h, r));
    }
    assert Follows(h, Next(h, p));
    InsideWf(h, segs, least, w, {});
  }

  lemma AcquireWf(h: Heap, segs: seq<Segment>, least: Addr, p: Addr)
    requires Wf(h, segs, least) && Free(h, p)
    ensures var w := Acquire(h, p); Live(w, p) && Next(w, p) == Next(h, p) && PInUse(w, p) && Wf(w, segs, least)
  {
    var w := Acquire(h, p);
    AcquireTiled(h, p);
    forall a {:trigger Sits(h, w, a)} | a in w.chunks ensures Sits(h, w, a) {
      Recall(Aligned(a));
      Recall(ChunkOk(h, a));
      assert Spans(h, w, a, a);
    }
    forall r {:trigger PinKept(h, w, r)} | r in h.pins ensures PinKept(h, w, r) {
      Recall(PinOk(h, r));
    }
    InsideWf(h, segs, least, w, {});
  }

  lemma SplitWf(h: Heap, segs: seq<Segment>, least: Addr, p: Addr, nb: nat)
    requires Wf(h, segs, least) && CanSplit(h, p, nb) && Aligned(nb)
    ensures var w, r := Split(h, p, nb), p + nb;
      && !Stands(h, r) && Live(w, p) && Live(w, r) && PInUse(w, p) == PInUse(h, p) && PInUse(w, r)
      && Next(w, p) == r && Next(w, r) == Next(h, p) && Wf(w, segs, least)
  {
    var w, r := Split(h, p, nb), p + nb;
    SplitTiled(h, p, nb);
    Recall(Aligned(p));
    AlignedSum(p, nb);
    forall a {:trigger Sits(h, w, a)} | a in w.chunks ensures Sits(h, w, a) {
      Recall(Aligned(a));
      Recall(ChunkOk(h, a));
      assert Spans(h, w, a, if a == r then p else a);
    }
    forall x {:trigger PinKept(h, w, x)} | x in h.pins ensures PinKept(h, w, x) {
      Recall(PinOk(h, x));
    }
    InsideWf(h, segs, least, w, {});
  }

  lemma SplitTopWf(h: Heap, segs: seq<Segment>, least: Addr, nb: nat)
    requires Wf(h, segs, least) && CanSplitTop(h, nb) && Aligned(nb)
    ensures var w, p := SplitTop(h, nb), h.top;
      && !Stands(h, w.top) && Live(w, p) && Next(w, p) == w.top && SizeAt(w, w.top) == SizeAt(h, p) - nb
      && Wf(w, segs, least)
  {
    var w, p := SplitTop(h, nb), h.top;
    SplitTopTiled(h, nb);
    Recall(Aligned(p));
    AlignedSum(p, nb);
    forall a {:trigger Sits(h, w, a)} | a in w.chunks ensures Sits(h, w, a) {
      Recall(Aligned(a));
      Recall(ChunkOk(h, a));
      assert Spans(h, w, a, if a == w.top then p else a);
    }
    forall r {:trigger PinKept(h, w, r)} | r in h.pins ensures PinKept(h, w, r) {
      Recall(PinOk(h, r));
    }
    InsideWf(h, segs, least, w, {});
  }

  lemma GrowTopWf(h: Heap, segs: seq<Segment>, least: Addr, p: Addr, nb: nat)
    requires Wf(h, segs, least) && CanGrowTop(h, p, nb) && Aligned(nb)
    ensures var w := GrowTop(h, p, nb);
      && !Stands(h, w.top) && Live(w, p) && Next(w, p) == w.top && PInUse(w, p) == PInUse(h, p)
      && SizeAt(w, w.top) == SizeAt(h, p) + SizeAt(h, h.top) - nb && Wf(w, segs, least)
  {
    var w, n := GrowTop(h, p, nb), p + nb;
    GrowTopTiled(h, p, nb);
    Recall(Aligned(p));
    AlignedSum(p, nb);
    forall a {:trigger Sits(h, w, a)} | a in w.chunks ensures Sits(h, w, a) {
      Recall(Aligned(a));
      Recall(ChunkOk(h, a));
      assert Spans(h, w, a, if a == n then h.top else a);
    }
    forall r {:trigger PinKept(h, w, r)} | r in h.pins ensures PinKept(h, w, r) {
      Recall(PinOk(h, r));
    }
    assert Follows(h, h.top);
    InsideWf(h, segs, least, w, {h.top});
  }
}
