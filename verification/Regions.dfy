/** How the heap grows and shrinks with the memory obtained from the system. */
module Regions {
  import opened Config
  import opened Tiling
  import opened Segments
  import opened Frames
  import opened Layouts
  import opened Stores
  import opened Bins

  /** [base, base + size) is free address space, apart from all segments. */
  predicate Granted(segs: seq<Segment>, base: Addr, size: nat) {
    base > 0 && size > 0 && base + size < MOD
    && forall k {:trigger segs[k]} | 0 <= k < |segs| :: base + size <= segs[k].base || End(segs[k]) <= base
  }

  lemma LowerLeast(h: Heap, segs: seq<Segment>, least: Addr, low: Addr)
    requires Wf(h, segs, least) && 0 < low <= least
    ensures Wf(h, segs, low)
  {
    forall k: nat {:trigger SegmentOk(segs, k, low)} | k < |segs| ensures SegmentOk(segs, k, low) {
      Recall(SegmentOk(segs, k, least));
    }
  }

  // ---- top changes its size: memory has been appended to its segment, or trimmed from it ----

  function ResizeTop(h: Heap, n: nat): Heap {
    h.(hd := PutHead(PutHead(h.hd, h.top, Head(n, false, true)), h.top + n, TAIL))
  }

  function Resized(segs: seq<Segment>, size: nat): seq<Segment>
    requires |segs| > 0
  {
    segs[0 := segs[0].(size := size)]
  }

  ghost predicate CanResize(h: Heap, segs: seq<Segment>, least: Addr, size: nat, n: nat) {
    && Wf(h, segs, least) && n > 0 && h.top + n == segs[0].base + size - TOP_FOOT
    && SegmentsOk(Resized(segs, size), least)
  }

  lemma ResizedOk(h: Heap, segs: seq<Segment>, least: Addr, size: nat, n: nat)
    requires Wf(h, segs, least) && n > 0 && n - SizeAt(h, h.top) == size - segs[0].size
    requires size > segs[0].size ==> Granted(segs, End(segs[0]), size - segs[0].size)
    ensures CanResize(h, segs, least, size, n)
  {
    var s := Resized(segs, size);
    Recall(Contained(h, segs, 0, h.top));
    forall k: nat {:trigger SegmentOk(s, k, least)} | k < |s| ensures SegmentOk(s, k, least) {
      Recall(SegmentOk(segs, k, least));
      if k == 0 {
        assert First(s[0]) == First(segs[0]) && Limit(s, 0) == h.top + n;
      } else {
        assert s[k] == segs[k] && Limit(s, k) == Limit(segs, k);
      }
    }
    forall j: nat, k: nat {:trigger SegApart(s, j, k)} | j < |s| && k < |s| && j != k ensures SegApart(s, j, k) {
      Recall(SegApart(segs, j, k));
      Recall(SegmentOk(segs, j, least));
      Recall(SegmentOk(segs, k, least));
      assert (j > 0 ==> s[j] == segs[j]) && (k > 0 ==> s[k] == segs[k]);
    }
  }

  /** Chunks and fenceposts other than top stand in front of top or in other segments. */
  lemma AwayFromTop(h: Heap, segs: seq<Segment>, least: Addr, size: nat, n: nat, q: Addr)
    requires CanResize(h, segs, least, size, n) && Stands(h, q) && q != h.top
    ensures q < h.top || h.top + n < q
    ensures q in h.chunks && q < h.top ==> Next(h, q) <= h.top
    ensures q in h.chunks && q > h.top ==> h.top + n < q
    ensures q in h.chunks ==> Next(h, q) != h.top + n
  {
    Recall(Homed(segs, q));
    var j: nat :| j < |segs| && HoldsAddr(segs[j], q);
    Recall(SegmentOk(Resized(segs, size), 0, least));
    Recall(SegmentOk(segs, 0, least));
    Recall(SegmentOk(segs, j, least));
    Recall(Apart(h, q, h.top));
    Recall(Apart(h, h.top, q));
    Recall(ChunkOk(h, q));
    if j == 0 {
      Recall(FencePlaced(segs, 0, q));
      Recall(Contained(h, segs, 0, q));
    } else {
      Recall(SegApart(Resized(segs, size), 0, j));
      Recall(Contained(h, segs, j, q));
    }
  }

  lemma ResizeTiled(h: Heap, segs: seq<Segment>, least: Addr, size: nat, n: nat)
    requires CanResize(h, segs, least, size, n)
    ensures var w := ResizeTop(h, n); Tiled(w) && Frame(h, w, {})
  {
    var w := ResizeTop(h, n);
    forall q | Stands(h, q)
      ensures q != h.top + n && HeadAt(w.hd, q) == if q == h.top then Head(n, false, true) else HeadAt(h.hd, q)
    {
      if q != h.top {
        AwayFromTop(h, segs, least, size, n, q);
      }
    }
    Recall(Stands(h, h.top + n));
    forall a {:trigger ChunkOk(w, a)} | a in w.chunks && a != w.top ensures ChunkOk(w, a) {
      Recall(ChunkOk(h, a));
      Recall(Stands(h, Next(h, a)));
    }
    forall a {:trigger PrevOk(w, a)} | a in w.chunks ensures PrevOk(w, a) {
      Recall(PrevOk(h, a));
    }
    forall a, b {:trigger Apart(w, a, b)} | a in w.chunks && Stands(w, b) ensures Apart(w, a, b) {
      Recall(Apart(h, a, b));
      if b != h.top {
        AwayFromTop(h, segs, least, size, n, b);
      }
    }
    forall r {:trigger PinOk(w, r)} | r in w.pins ensures PinOk(w, r) {
      Recall(PinOk(h, r));
    }
    forall f {:trigger FenceOk(w, f)} | f in w.fences ensures FenceOk(w, f) {
      Recall(FenceOk(h, f));
    }
    forall b {:trigger SameChunk(h, w, b)} ensures SameChunk(h, w, b) {
      if Used(h, b) {
        AwayFromTop(h, segs, least, size, n, b);
        StandsOutside(h, b, h.top);
        HeadsIntact(h, w, b, h.top, h.top + n);
      }
    }
  }

  lemma ResizePlaced(h: Heap, segs: seq<Segment>, least: Addr, size: nat, n: nat)
    requires CanResize(h, segs, least, size, n)
    ensures Placed(ResizeTop(h, n), Resized(segs, size))
  {
    var w, s := ResizeTop(h, n), Resized(segs, size);
    forall q | Stands(h, q) ensures HeadAt(w.hd, q) == if q == h.top then Head(n, false, true) else HeadAt(h.hd, q) {
      if q != h.top {
        AwayFromTop(h, segs, least, size, n, q);
      }
    }
    forall k: nat | k < |segs| ensures First(s[k]) == First(segs[k]) && (k > 0 ==> Limit(s, k) == Limit(segs, k)) {
    }
    forall k: nat {:trigger FirstOk(w, s, k)} | k < |s| ensures FirstOk(w, s, k) {
      Recall(FirstOk(h, segs, k));
    }
    forall k: nat {:trigger RecordOk(w, s, k)} | k < |s| ensures RecordOk(w, s, k) {
      Recall(RecordOk(h, segs, k));
      Recall(PinOk(h, RecordChunk(segs[k])));
    }
    forall p {:trigger Homed(s, p)} | Stands(w, p) ensures Homed(s, p) {
      ResizeHomed(h, segs, least, size, n, p);
    }
    forall k: nat, p {:trigger Contained(w, s, k, p)} | k < |s| && p in w.chunks ensures Contained(w, s, k, p) {
      ResizeContained(h, segs, least, size, n, k, p);
    }
    forall k: nat, f {:trigger FencePlaced(s, k, f)} | k < |s| && f in w.fences ensures FencePlaced(s, k, f) {
      Recall(FencePlaced(segs, k, f));
      Recall(FenceOk(h, f));
      ResizeFence(h, segs, least, size, n, f);
    }
    forall r {:trigger IsRecord(s, r)} | r in h.pins ensures IsRecord(s, r) {
      Recall(IsRecord(segs, r));
      var k: nat :| 0 < k < |segs| && r == RecordChunk(segs[k]);
      assert r == RecordChunk(s[k]);
    }
    Recall(SegmentOk(s, 0, least));
  }

  lemma ResizeFence(h: Heap, segs: seq<Segment>, least: Addr, size: nat, n: nat, f: Addr)
    requires CanResize(h, segs, least, size, n) && f in h.fences
    ensures !HoldsAddr(Resized(segs, size)[0], f)
  {
    Recall(Homed(segs, f));
    var j: nat :| j < |segs| && HoldsAddr(segs[j], f);
    Recall(FencePlaced(segs, j, f));
    Recall(SegApart(Resized(segs, size), 0, j));
  }

  lemma ResizeHomed(h: Heap, segs: seq<Segment>, least: Addr, size: nat, n: nat, p: Addr)
    requires CanResize(h, segs, least, size, n) && Stands(h, p)
    ensures Homed(Resized(segs, size), p)
  {
    var s := Resized(segs, size);
    Recall(Homed(segs, p));
    var j: nat :| j < |segs| && HoldsAddr(segs[j], p);
    Recall(SegmentOk(segs, 0, least));
    if j == 0 {
      Recall(FencePlaced(segs, 0, p));
      if p != h.top {
        Recall(Apart(h, h.top, p));
        Recall(Contained(h, segs, 0, p));
        Recall(ChunkOk(h, p));
      }
      assert HoldsAddr(s[0], p);
    } else {
      assert HoldsAddr(s[j], p);
    }
  }

  lemma ResizeContained(h: Heap, segs: seq<Segment>, least: Addr, size: nat, n: nat, k: nat, p: Addr)
    requires CanResize(h, segs, least, size, n) && k < |segs| && p in h.chunks
    ensures Contained(ResizeTop(h, n), Resized(segs, size), k, p)
  {
    var w, s := ResizeTop(h, n), Resized(segs, size);
    Recall(SegmentOk(segs, 0, least));
    Recall(SegmentOk(s, 0, least));
    Recall(Contained(h, segs, k, p));
    if p != h.top {
      AwayFromTop(h, segs, least, size, n, p);
    }
    if k == 0 {
      Recall(Homed(segs, p));
      var j: nat :| j < |segs| && HoldsAddr(segs[j], p);
      Recall(Apart(h, h.top, p));
      Recall(ChunkOk(h, p));
      Recall(Contained(h, segs, 0, p));
      if j != 0 {
        Recall(SegApart(s, 0, j));
      }
    } else if p == h.top {
      Recall(SegApart(segs, 0, k));
    }
  }

  lemma ResizeStep(h: Heap, segs: seq<Segment>, least: Addr, size: nat, n: nat, out: set<Addr>, t: Table, l: Links,
                   dv: Addr)
    requires CanResize(h, segs, least, size, n) && Binned(h, out, t)
    ensures var w := ResizeTop(h, n);
      && Wf(w, Resized(segs, size), least) && Binned(w, out, t) && Spared(Store(h, l), Store(w, l), {})
      && (Free(h, dv) ==> Free(w, dv) && SizeAt(w, dv) == SizeAt(h, dv)) && SizeAt(w, w.top) == n
  {
    var w := ResizeTop(h, n);
    ResizeTiled(h, segs, least, size, n);
    ResizePlaced(h, segs, least, size, n);
    assert {h.top, h.top} == {h.top};
    StepEffect(h, w, h.top, h.top, out, t, out, l, dv);
    KeptHeap(h, w, l, {});
    Sparing(Store(h, l), Store(w, l), {}, {});
  }

  // ---- the first segment ----

  ghost predicate CanStart(w: Heap, seg: Segment, hd: Heads) {
    var t := First(seg);
    var n := End(seg) - TOP_FOOT - t;
    && seg.base > 0 && End(seg) < MOD && n > 0
    && w == Heap({t}, {}, {}, PutHead(PutHead(hd, t, Head(n, false, true)), t + n, TAIL), w.ft, t)
  }

  lemma StartWf(w: Heap, seg: Segment, hd: Heads, least: Addr)
    requires CanStart(w, seg, hd) && 0 < least <= seg.base
    ensures Wf(w, [seg], least) && (forall p :: !Chunk(w, p))
  {
    var segs := [seg];
    assert SegmentOk(segs, 0, least);
    assert HoldsAddr(segs[0], w.top);
    assert FirstOk(w, segs, 0) && RecordOk(w, segs, 0) && Contained(w, segs, 0, w.top);
    assert Homed(segs, w.top);
  }

  /** No chunk before, and none but top after. */
  lemma StartStep(h: Heap, w: Heap, seg: Segment, hd: Heads, least: Addr, t: Table, l: Links)
    requires CanStart(w, seg, hd) && 0 < least <= seg.base && h.chunks == {} && t == imap[]
    ensures Wf(w, [seg], least) && Binned(w, {NULL}, t) && SpareLive(Store(h, l), Store(w, l), {})
  {
    StartWf(w, seg, hd, least);
    forall a {:trigger BinnedAt(w, {NULL}, t, a)} ensures BinnedAt(w, {NULL}, t, a) {
      Recall(Chunk(w, a));
    }
    forall b {:trigger SameBlock(Store(h, l), Store(w, l), b)} ensures SameBlock(Store(h, l), Store(w, l), b) {
      Recall(Chunk(w, b));
    }
  }

  // ---- memory is prepended to segment k: a used chunk appears in front of its first chunk ----

  function Prepended(segs: seq<Segment>, k: nat, base: Addr): seq<Segment>
    requires k < |segs| && base <= End(segs[k])
  {
    segs[k := segs[k].(base := base, size := End(segs[k]) - base)]
  }

  function AddFirst(h: Heap, p: Addr, psize: nat): Heap {
    h.(chunks := h.chunks + {p}, hd := PutHead(h.hd, p, Head(psize, true, true)))
  }

  ghost predicate CanPrepend(h: Heap, segs: seq<Segment>, least: Addr, k: nat, base: nat, psize: nat, low: Addr) {
    && Wf(h, segs, least) && k < |segs| && base <= segs[k].base && 0 < low <= least
    && SegmentsOk(Prepended(segs, k, base), low)
    && AlignUp(base) + psize == First(segs[k]) && psize >= MIN_CHUNK
  }

  lemma AlignUpMono(x: nat, y: nat)
    requires x <= y
    ensures AlignUp(x) <= AlignUp(y)
  {
  }

  lemma PrependedOk(segs: seq<Segment>, least: Addr, k: nat, base: nat, size: nat, low: Addr)
    requires SegmentsOk(segs, least) && k < |segs| && Granted(segs, base, size) && base + size == segs[k].base
    requires 0 < low <= least && low <= base
    ensures SegmentsOk(Prepended(segs, k, base), low)
  {
    hide Aligned, AlignUp;
    var s := Prepended(segs, k, base);
    Recall(SegmentOk(segs, k, least));
    AlignUpMono(base, segs[k].base);
    forall i: nat {:trigger SegmentOk(s, i, low)} | i < |s| ensures SegmentOk(s, i, low) {
      Recall(SegmentOk(segs, i, least));
      assert Limit(s, i) == Limit(segs, i);
      if i != k {
        assert s[i] == segs[i];
      }
    }
    forall i: nat, j: nat {:trigger SegApart(s, i, j)} | i < |s| && j < |s| && i != j ensures SegApart(s, i, j) {
      Recall(SegApart(segs, i, j));
      Recall(SegmentOk(segs, i, least));
      Recall(SegmentOk(segs, j, least));
      assert (i != k ==> s[i] == segs[i]) && (j != k ==> s[j] == segs[j]);
    }
  }

  lemma AwayFromNew(h: Heap, segs: seq<Segment>, least: Addr, k: nat, base: nat, psize: nat, low: Addr, q: Addr)
    requires CanPrepend(h, segs, least, k, base, psize, low) && Stands(h, q)
    ensures q < base || First(segs[k]) <= q
    ensures q in h.chunks && q < base ==> Next(h, q) <= base
    ensures base < First(segs[k]) && q != AlignUp(base) && (q in h.chunks ==> Next(h, q) != AlignUp(base) || q < base)
  {
    Recall(Homed(segs, q));
    var j: nat :| j < |segs| && HoldsAddr(segs[j], q);
    var s := Prepended(segs, k, base);
    Recall(SegmentOk(s, k, low));
    Recall(SegmentOk(segs, k, least));
    Recall(SegmentOk(segs, j, least));
    Recall(Contained(h, segs, j, q));
    Recall(FencePlaced(segs, j, q));
    Recall(ChunkOk(h, q));
    if j != k {
      Recall(SegApart(s, j, k));
    }
  }

  lemma PrependTiled(h: Heap, segs: seq<Segment>, least: Addr, k: nat, base: nat, psize: nat, low: Addr)
    requires CanPrepend(h, segs, least, k, base, psize, low)
    ensures var p, w := AlignUp(base), AddFirst(h, AlignUp(base), psize);
      Tiled(w) && !Stands(h, p) && Live(w, p) && PInUse(w, p) && Next(w, p) == First(segs[k]) && Frame(h, w, {p})
  {
    var p, w := AlignUp(base), AddFirst(h, AlignUp(base), psize);
    Recall(FirstOk(h, segs, k));
    AwayFromNew(h, segs, least, k, base, psize, low, h.top);
    AwayFromNew(h, segs, least, k, base, psize, low, First(segs[k]));
    forall q {:trigger Stands(h, q)} | Stands(h, q) ensures q != p && HeadAt(w.hd, q) == HeadAt(h.hd, q) {
      AwayFromNew(h, segs, least, k, base, psize, low, q);
    }
    Recall(Stands(h, p));
    Recall(Stands(h, First(segs[k])));
    Recall(SegmentOk(Prepended(segs, k, base), k, low));
    TopNotNew(h, segs, least, k, base, psize, low);
    forall a {:trigger ChunkOk(w, a)} | a in w.chunks && a != w.top ensures ChunkOk(w, a) {
      Recall(ChunkOk(h, a));
      Recall(Stands(h, Next(h, a)));
    }
    forall a {:trigger PrevOk(w, a)} | a in w.chunks ensures PrevOk(w, a) {
      Recall(PrevOk(h, a));
    }
    forall a, b {:trigger Apart(w, a, b)} | a in w.chunks && Stands(w, b) ensures Apart(w, a, b) {
      Recall(Apart(h, a, b));
      if b != p {
        AwayFromNew(h, segs, least, k, base, psize, low, b);
      } else if a != p {
        AwayFromNew(h, segs, least, k, base, psize, low, a);
      }
    }
    forall r {:trigger PinOk(w, r)} | r in w.pins ensures PinOk(w, r) {
      Recall(PinOk(h, r));
    }
    forall f {:trigger FenceOk(w, f)} | f in w.fences ensures FenceOk(w, f) {
      Recall(FenceOk(h, f));
    }
    Recall(PinOk(h, p));
    forall b {:trigger SameChunk(h, w, b)} | b !in {p} ensures SameChunk(h, w, b) {
      if Used(h, b) {
        AwayFromNew(h, segs, least, k, base, psize, low, b);
        HeadsIntact(h, w, b, p, p);
      }
    }
  }

  lemma TopNotNew(h: Heap, segs: seq<Segment>, least: Addr, k: nat, base: nat, psize: nat, low: Addr)
    requires CanPrepend(h, segs, least, k, base, psize, low)
    ensures Next(h, h.top) != AlignUp(base)
  {
    Recall(SegmentOk(segs, 0, least));
    Recall(SegmentOk(segs, k, least));
    Recall(SegmentOk(Prepended(segs, k, base), k, low));
    if k != 0 {
      Recall(SegApart(Prepended(segs, k, base), 0, k));
    }
  }

  lemma PrependPlaced(h: Heap, segs: seq<Segment>, least: Addr, k: nat, base: nat, psize: nat, low: Addr)
    requires CanPrepend(h, segs, least, k, base, psize, low)
    ensures Placed(AddFirst(h, AlignUp(base), psize), Prepended(segs, k, base))
  {
    var p, w, s := AlignUp(base), AddFirst(h, AlignUp(base), psize), Prepended(segs, k, base);
    Recall(SegmentOk(segs, 0, least));
    Recall(SegmentOk(segs, k, least));
    forall q {:trigger Stands(h, q)} | Stands(h, q) ensures q != p && HeadAt(w.hd, q) == HeadAt(h.hd, q) {
      AwayFromNew(h, segs, least, k, base, psize, low, q);
    }
    Recall(Stands(h, h.top));
    forall i: nat {:trigger FirstOk(w, s, i)} | i < |s| ensures FirstOk(w, s, i) {
      Recall(FirstOk(h, segs, i));
      Recall(Stands(h, First(segs[i])));
    }
    forall i: nat {:trigger RecordOk(w, s, i)} | i < |s| ensures RecordOk(w, s, i) {
      Recall(RecordOk(h, segs, i));
      Recall(PinOk(h, RecordChunk(segs[i])));
      Recall(Stands(h, RecordChunk(segs[i])));
    }
    forall q {:trigger Homed(s, q)} | Stands(w, q) ensures Homed(s, q) {
      PrependHomed(h, segs, least, k, base, psize, low, q);
    }
    forall i: nat, q {:trigger Contained(w, s, i, q)} | i < |s| && q in w.chunks ensures Contained(w, s, i, q) {
      PrependContained(h, segs, least, k, base, psize, low, i, q);
    }
    forall i: nat, f {:trigger FencePlaced(s, i, f)} | i < |s| && f in w.fences ensures FencePlaced(s, i, f) {
      Recall(FencePlaced(segs, i, f));
      AwayFromNew(h, segs, least, k, base, psize, low, f);
    }
    forall r {:trigger IsRecord(s, r)} | r in h.pins ensures IsRecord(s, r) {
      Recall(IsRecord(segs, r));
      var i: nat :| 0 < i < |segs| && r == RecordChunk(segs[i]);
      assert r == RecordChunk(s[i]);
    }
  }

  lemma PrependHomed(h: Heap, segs: seq<Segment>, least: Addr, k: nat, base: nat, psize: nat, low: Addr, q: Addr)
    requires CanPrepend(h, segs, least, k, base, psize, low) && (Stands(h, q) || q == AlignUp(base))
    ensures Homed(Prepended(segs, k, base), q)
  {
    var s := Prepended(segs, k, base);
    if q == AlignUp(base) {
      Recall(SegmentOk(s, k, low));
      assert HoldsAddr(s[k], q);
    } else {
      Recall(Homed(segs, q));
      var j: nat :| j < |segs| && HoldsAddr(segs[j], q);
      assert HoldsAddr(s[j], q);
    }
  }

  lemma PrependContained(h: Heap, segs: seq<Segment>, least: Addr, k: nat, base: nat, psize: nat, low: Addr, i: nat,
                         q: Addr)
    requires CanPrepend(h, segs, least, k, base, psize, low) && i < |segs| && (q in h.chunks || q == AlignUp(base))
    ensures Contained(AddFirst(h, AlignUp(base), psize), Prepended(segs, k, base), i, q)
  {
    var s := Prepended(segs, k, base);
    Recall(SegmentOk(s, i, low));
    Recall(SegmentOk(s, k, low));
    Recall(SegmentOk(segs, k, least));
    assert Limit(s, i) == Limit(segs, i);
    if q in h.chunks {
      Recall(Contained(h, segs, i, q));
      Recall(Stands(h, q));
      AwayFromNew(h, segs, least, k, base, psize, low, q);
    } else if i != k {
      Recall(SegApart(s, i, k));
    }
  }

  lemma PrependStep(h: Heap, segs: seq<Segment>, least: Addr, k: nat, base: nat, psize: nat, low: Addr,
                    out: set<Addr>, t: Table, l: Links, dv: Addr)
    requires CanPrepend(h, segs, least, k, base, psize, low) && Binned(h, out, t)
    ensures var p, w := AlignUp(base), AddFirst(h, AlignUp(base), psize);
      && Wf(w, Prepended(segs, k, base), low) && Live(w, p) && PInUse(w, p) && SizeAt(w, p) == psize && !Stands(h, p)
      && Binned(w, out, t) && Spared(Store(h, l), Store(w, l), {p})
      && (Free(h, dv) ==> Free(w, dv) && SizeAt(w, dv) == SizeAt(h, dv)) && SizeAt(w, w.top) == SizeAt(h, h.top)
  {
    var p, w := AlignUp(base), AddFirst(h, AlignUp(base), psize);
    PrependTiled(h, segs, least, k, base, psize, low);
    PrependPlaced(h, segs, least, k, base, psize, low);
    Recall(Stands(h, h.top));
    assert {p, p} == {p};
    StepEffect(h, w, p, p, out, t, out, l, dv);
  }

  // ---- a new segment: the old top becomes a free chunk and a segment record ----

  /** The segment list after add_segment; c is the chunk that holds the record of the old segment. */
  function Pushed(segs: seq<Segment>, c: Addr, seg: Segment): seq<Segment>
    requires |segs| > 0
  {
    [seg, segs[0].(at := c + 2 * W)] + segs[1..]
  }

  lemma PushedOk(h: Heap, segs: seq<Segment>, least: Addr, c: Addr, seg: Segment, low: Addr)
    requires Wf(h, segs, least) && Granted(segs, seg.base, seg.size) && seg.size > TOP_FOOT + ALIGN
    requires 0 < low <= least && low <= seg.base
    requires h.top <= c <= Next(h, h.top) && End(segs[0]) <= c + RECORD + 12 * W
    ensures SegmentsOk(Pushed(segs, c, seg), low)
  {
    var s := Pushed(segs, c, seg);
    Recall(SegmentOk(segs, 0, least));
    Recall(Contained(h, segs, 0, h.top));
    forall k: nat {:trigger SegmentOk(s, k, low)} | k < |s| ensures SegmentOk(s, k, low) {
      PushedAt(segs, c, seg, k);
      if k > 1 {
        Recall(SegmentOk(segs, k - 1, least));
      }
    }
    forall j: nat, k: nat {:trigger SegApart(s, j, k)} | j < |s| && k < |s| && j != k ensures SegApart(s, j, k) {
      PushedAt(segs, c, seg, j);
      PushedAt(segs, c, seg, k);
      if j > 0 && k > 0 {
        Recall(SegApart(segs, j - 1, k - 1));
      }
    }
  }

  /** w differs from h by a new top in segment seg, by the record chunk c, by the used chunk in front of c
      if there is room for one, and by the fenceposts behind c. */
  ghost predicate Seals(h: Heap, w: Heap, segs: seq<Segment>, least: Addr, c: Addr, seg: Segment, low: Addr) {
    var t, n, e := First(seg), End(seg) - TOP_FOOT - First(seg), h.top;
    && Wf(h, segs, least) && 0 < low <= least && low <= seg.base && n > 0 && SegmentsOk(Pushed(segs, c, seg), low)
    && Aligned(c) && (c == e || e + MIN_CHUNK <= c) && c <= Next(h, e)
    && w == Heap(h.chunks + {c, t}, h.fences + {c + RECORD}, h.pins + {c}, w.hd, h.ft, t)
    && HeadAt(w.hd, t) == Head(n, false, true) && HeadAt(w.hd, t + n) == TAIL
    && HeadAt(w.hd, c) == Head(RECORD, true, true) && HeadAt(w.hd, c + RECORD) == FENCE
    && (c != e ==> HeadAt(w.hd, e) == Head(c - e, true, true))
    && forall a {:trigger HeadAt(w.hd, a)} |
         a != e && a != c && a != t && a != t + n && !(c + RECORD <= a < End(segs[0])) ::
         HeadAt(w.hd, a) == HeadAt(h.hd, a)
  }

  /** The head words after the writes of add_segment: of the new top, of the record, and of the fenceposts. */
  ghost predicate SealWrites(h: Heap, hd: Heads, segs: seq<Segment>, c: Addr, seg: Segment)
    requires |segs| > 0
  {
    var t, n := First(seg), End(seg) - TOP_FOOT - First(seg);
    && n >= 0 && HeadAt(hd, c + RECORD) == FENCE
    && forall a {:trigger HeadAt(hd, a)} | !(c + RECORD <= a < End(segs[0])) ::
         HeadAt(hd, a)
         == HeadAt(PutHead(PutHead(PutHead(h.hd, t, Head(n, false, true)), t + n, TAIL),
                           c, Head(RECORD, true, true)), a)
  }

  function SealHeap(h: Heap, hd: Heads, c: Addr, seg: Segment): Heap {
    Heap(h.chunks + {c, First(seg)}, h.fences + {c + RECORD}, h.pins + {c},
         if c <= h.top then hd else PutHead(hd, h.top, Head(c - h.top, true, true)), h.ft, First(seg))
  }

  lemma SealWritten(h: Heap, hd: Heads, segs: seq<Segment>, least: Addr, c: Addr, seg: Segment)
    requires Wf(h, segs, least) && Granted(segs, seg.base, seg.size) && seg.size > TOP_FOOT + ALIGN
    requires 0 < least <= seg.base
    requires Aligned(c) && (c == h.top || h.top + MIN_CHUNK <= c) && c <= Next(h, h.top)
    requires End(segs[0]) <= c + RECORD + 12 * W && c + RECORD + 4 * W <= End(segs[0])
    requires SealWrites(h, hd, segs, c, seg)
    ensures Seals(h, SealHeap(h, hd, c, seg), segs, least, c, seg, least)
  {
    var w := SealHeap(h, hd, c, seg);
    PushedOk(h, segs, least, c, seg, least);
    assert End(seg) <= segs[0].base || End(segs[0]) <= seg.base;
    forall a {:trigger HeadAt(w.hd, a)}
      ensures HeadAt(w.hd, a) == if a == h.top != c then Head(c - h.top, true, true) else HeadAt(hd, a) {
    }
  }

  /** Where everything else stands. */
  lemma AwayFromSeal(h: Heap, w: Heap, segs: seq<Segment>, least: Addr, c: Addr, seg: Segment, low: Addr, q: Addr)
    requires Seals(h, w, segs, least, c, seg, low) && Stands(h, q) && q != h.top
    ensures HeadAt(w.hd, q) == HeadAt(h.hd, q)
    ensures q < h.top || End(segs[0]) <= q
    ensures q < seg.base || End(seg) <= q
    ensures q in h.chunks && q < h.top ==> Next(h, q) <= h.top
    ensures q in h.chunks && q < seg.base ==> Next(h, q) <= seg.base
    ensures q in h.chunks ==> q >= End(segs[0]) || Next(h, q) <= h.top
    ensures q in h.chunks ==> q >= End(seg) || Next(h, q) <= seg.base
  {
    var s := Pushed(segs, c, seg);
    Recall(Homed(segs, q));
    var j: nat :| j < |segs| && HoldsAddr(segs[j], q);
    assert s[j + 1].base == segs[j].base && s[j + 1].size == segs[j].size;
    assert s[0] == seg && s[1].base == segs[0].base && s[1].size == segs[0].size;
    Recall(SegApart(s, 0, j + 1));
    Recall(SegmentOk(segs, j, least));
    Recall(SegmentOk(segs, 0, least));
    Recall(SegmentOk(s, 0, low));
    Recall(Contained(h, segs, j, q));
    Recall(Apart(h, q, h.top));
    Recall(Apart(h, h.top, q));
    Recall(ChunkOk(h, q));
    if j != 0 {
      Recall(SegApart(segs, 0, j));
    } else {
      Recall(FencePlaced(segs, 0, q));
    }
  }

  /** The new chunks by themselves. */
  lemma SealParts(h: Heap, w: Heap, segs: seq<Segment>, least: Addr, c: Addr, seg: Segment, low: Addr)
    requires Seals(h, w, segs, least, c, seg, low)
    ensures var t, n, e := First(seg), End(seg) - TOP_FOOT - First(seg), h.top;
      && End(segs[0]) == Next(h, e) + TOP_FOOT && seg.base <= t && t + n == End(seg) - TOP_FOOT
      && (End(segs[0]) <= seg.base || End(seg) <= segs[0].base) && segs[0].base <= e
      && Aligned(t) && Aligned(e) && Aligned(c + RECORD)
      && TopOk(w) && ChunkOk(w, c) && (c != e ==> ChunkOk(w, e))
      && PrevOk(w, e) && PrevOk(w, c) && PrevOk(w, t)
      && (c == e ==> PInUse(w, e)) && FenceOk(w, c + RECORD) && PinOk(w, c)
  {
    var t, e, s := First(seg), h.top, Pushed(segs, c, seg);
    assert s[0] == seg && s[1].base == segs[0].base && s[1].size == segs[0].size;
    Recall(SegApart(s, 0, 1));
    Recall(SegmentOk(segs, 0, least));
    Recall(SegmentOk(s, 0, low));
    Recall(Aligned(e));
    AlignedSum(c, RECORD);
    forall q {:trigger Stands(h, q)} | Stands(h, q) && q != e
      ensures q != t + (End(seg) - TOP_FOOT - t) && q != c + RECORD && q != c && q != t {
      AwayFromSeal(h, w, segs, least, c, seg, low, q);
    }
    Recall(Stands(h, t + (End(seg) - TOP_FOOT - t)));
    Recall(Stands(h, c + RECORD));
    Recall(Stands(h, c));
    Recall(Stands(h, t));
  }

  lemma SealTiled(h: Heap, w: Heap, segs: seq<Segment>, least: Addr, c: Addr, seg: Segment, low: Addr)
    requires Seals(h, w, segs, least, c, seg, low)
    ensures Tiled(w) && Frame(h, w, {h.top, c})
  {
    var t, e := First(seg), h.top;
    SealParts(h, w, segs, least, c, seg, low);
    forall q {:trigger Stands(h, q)} | Stands(h, q) && q != e
      ensures HeadAt(w.hd, q) == HeadAt(h.hd, q) && q != c && q != t
    {
      AwayFromSeal(h, w, segs, least, c, seg, low, q);
    }
    forall a {:trigger ChunkOk(w, a)} | a in w.chunks && a != w.top ensures ChunkOk(w, a) {
      if a != c && a != e {
        Recall(ChunkOk(h, a));
        Recall(Stands(h, a));
        Recall(Stands(h, Next(h, a)));
        SealChunk(h, w, segs, least, c, seg, low, a);
      }
    }
    forall a {:trigger PrevOk(w, a)} | a in w.chunks ensures PrevOk(w, a) {
      if a != c && a != e && a != t {
        SealPrev(h, w, segs, least, c, seg, low, a);
      }
    }
    forall a, b {:trigger Apart(w, a, b)} | a in w.chunks && Stands(w, b) ensures Apart(w, a, b) {
      SealApart(h, w, segs, least, c, seg, low, a, b);
    }
    forall r {:trigger PinOk(w, r)} | r in w.pins ensures PinOk(w, r) {
      if r != c {
        Recall(PinOk(h, r));
        Recall(Stands(h, r));
      }
    }
    forall f {:trigger FenceOk(w, f)} | f in w.fences ensures FenceOk(w, f) {
      if f != c + RECORD {
        Recall(FenceOk(h, f));
        Recall(Stands(h, f));
      }
    }
    SealFrame(h, w, segs, least, c, seg, low);
  }

  lemma SealPrev(h: Heap, w: Heap, segs: seq<Segment>, least: Addr, c: Addr, seg: Segment, low: Addr, a: Addr)
    requires Seals(h, w, segs, least, c, seg, low) && Chunk(h, a)
    ensures PrevOk(w, a)
  {
    Recall(PrevOk(h, a));
    AwayFromSeal(h, w, segs, least, c, seg, low, a);
    var q := a - At(h.ft, a);
    if Stands(h, q) && q != h.top {
      AwayFromSeal(h, w, segs, least, c, seg, low, q);
    }
  }

  lemma SealChunk(h: Heap, w: Heap, segs: seq<Segment>, least: Addr, c: Addr, seg: Segment, low: Addr, a: Addr)
    requires Seals(h, w, segs, least, c, seg, low) && Chunk(h, a)
    ensures ChunkOk(w, a)
  {
    SealParts(h, w, segs, least, c, seg, low);
    Recall(ChunkOk(h, a));
    AwayFromSeal(h, w, segs, least, c, seg, low, a);
    if Next(h, a) != h.top {
      AwayFromSeal(h, w, segs, least, c, seg, low, Next(h, a));
    }
  }

  lemma SealApart(h: Heap, w: Heap, segs: seq<Segment>, least: Addr, c: Addr, seg: Segment, low: Addr, a: Addr, b: Addr)
    requires Seals(h, w, segs, least, c, seg, low) && a in w.chunks && Stands(w, b)
    ensures Apart(w, a, b)
  {
    var t, e := First(seg), h.top;
    SealParts(h, w, segs, least, c, seg, low);
    if Stands(h, a) && a != e {
      AwayFromSeal(h, w, segs, least, c, seg, low, a);
      Recall(Apart(h, a, b));
    }
    if Stands(h, b) && b != e {
      AwayFromSeal(h, w, segs, least, c, seg, low, b);
    }
  }

  lemma SealFrame(h: Heap, w: Heap, segs: seq<Segment>, least: Addr, c: Addr, seg: Segment, low: Addr)
    requires Seals(h, w, segs, least, c, seg, low)
    ensures Frame(h, w, {h.top, c})
  {
    var t, e := First(seg), h.top;
    SealParts(h, w, segs, least, c, seg, low);
    forall b {:trigger SameChunk(h, w, b)} | b !in {e, c} ensures SameChunk(h, w, b) {
      if Stands(h, b) {
        AwayFromSeal(h, w, segs, least, c, seg, low, b);
      }
      if Stands(h, t) && t != e {
        AwayFromSeal(h, w, segs, least, c, seg, low, t);
      }
      if Used(h, b) {
        forall x {:trigger Word(w, x)} | b + 2 * W <= x < Next(h, b) + W ensures Word(w, x) == Word(h, x) {
          Recall(HeadAt(w.hd, x - W) == FENCE);
        }
      }
    }
  }

  lemma SealPlaced(h: Heap, w: Heap, segs: seq<Segment>, least: Addr, c: Addr, seg: Segment, low: Addr)
    requires Seals(h, w, segs, least, c, seg, low)
    ensures Placed(w, Pushed(segs, c, seg))
  {
    var s := Pushed(segs, c, seg);
    SealParts(h, w, segs, least, c, seg, low);
    Recall(SegmentOk(s, 0, low));
    forall k: nat {:trigger FirstOk(w, s, k)} | k < |s| ensures FirstOk(w, s, k) && RecordOk(w, s, k) {
      SealSegment(h, w, segs, least, c, seg, low, k);
    }
    forall k: nat {:trigger RecordOk(w, s, k)} | k < |s| ensures RecordOk(w, s, k) {
      Recall(FirstOk(w, s, k));
    }
    forall q {:trigger Homed(s, q)} | Stands(w, q) ensures Homed(s, q) {
      SealHomed(h, w, segs, least, c, seg, low, q);
    }
    forall k: nat, q {:trigger Contained(w, s, k, q)} | k < |s| && q in w.chunks ensures Contained(w, s, k, q) {
      SealContained(h, w, segs, least, c, seg, low, k, q);
    }
    forall k: nat, f {:trigger FencePlaced(s, k, f)} | k < |s| && f in w.fences ensures FencePlaced(s, k, f) {
      SealFence(h, w, segs, least, c, seg, low, k, f);
    }
    forall r {:trigger IsRecord(s, r)} | r in w.pins ensures IsRecord(s, r) {
      if r == c {
        assert r == RecordChunk(s[1]);
      } else {
        Recall(IsRecord(segs, r));
        var k: nat :| 0 < k < |segs| && r == RecordChunk(segs[k]);
        assert r == RecordChunk(s[k + 1]);
      }
    }
  }

  /** Where segment k of the new list comes from. */
  lemma PushedAt(segs: seq<Segment>, c: Addr, seg: Segment, k: nat)
    requires |segs| > 0 && k < |segs| + 1
    ensures var s := Pushed(segs, c, seg);
      && (k == 0 ==> s[k] == seg && Limit(s, k) == End(seg) - TOP_FOOT)
      && (k == 1 ==> s[k].base == segs[0].base && s[k].size == segs[0].size && First(s[k]) == First(segs[0])
                     && RecordChunk(s[k]) == c && Limit(s, k) == c + RECORD)
      && (k > 1 ==> s[k] == segs[k - 1] && Limit(s, k) == Limit(segs, k - 1))
  {
  }

  lemma SealSegment(h: Heap, w: Heap, segs: seq<Segment>, least: Addr, c: Addr, seg: Segment, low: Addr, k: nat)
    requires Seals(h, w, segs, least, c, seg, low) && k < |segs| + 1
    ensures FirstOk(w, Pushed(segs, c, seg), k) && RecordOk(w, Pushed(segs, c, seg), k)
  {
    SealParts(h, w, segs, least, c, seg, low);
    PushedAt(segs, c, seg, k);
    if k > 0 {
      Recall(FirstOk(h, segs, k - 1));
      if First(segs[k - 1]) != h.top {
        AwayFromSeal(h, w, segs, least, c, seg, low, First(segs[k - 1]));
      }
      if k > 1 {
        Recall(RecordOk(h, segs, k - 1));
        Recall(PinOk(h, RecordChunk(segs[k - 1])));
        AwayFromSeal(h, w, segs, least, c, seg, low, RecordChunk(segs[k - 1]));
      }
    }
  }

  lemma SealHomed(h: Heap, w: Heap, segs: seq<Segment>, least: Addr, c: Addr, seg: Segment, low: Addr, q: Addr)
    requires Seals(h, w, segs, least, c, seg, low) && Stands(w, q)
    ensures Homed(Pushed(segs, c, seg), q)
  {
    var s := Pushed(segs, c, seg);
    SealParts(h, w, segs, least, c, seg, low);
    PushedAt(segs, c, seg, 0);
    PushedAt(segs, c, seg, 1);
    if q == First(seg) {
      assert HoldsAddr(s[0], q);
    } else if q == c || q == c + RECORD {
      assert HoldsAddr(s[1], q);
    } else {
      Recall(Homed(segs, q));
      var j: nat :| j < |segs| && HoldsAddr(segs[j], q);
      PushedAt(segs, c, seg, j + 1);
      assert HoldsAddr(s[j + 1], q);
    }
  }

  lemma SealContained(h: Heap, w: Heap, segs: seq<Segment>, least: Addr, c: Addr, seg: Segment, low: Addr, k: nat,
                      q: Addr)
    requires Seals(h, w, segs, least, c, seg, low) && k < |segs| + 1 && q in w.chunks
    ensures Contained(w, Pushed(segs, c, seg), k, q)
  {
    var s := Pushed(segs, c, seg);
    SealParts(h, w, segs, least, c, seg, low);
    PushedAt(segs, c, seg, k);
    PushedAt(segs, c, seg, 0);
    PushedAt(segs, c, seg, 1);
    Recall(SegmentOk(segs, 0, least));
    Recall(SegmentOk(s, 0, low));
    Recall(SegApart(s, 0, k));
    Recall(SegApart(s, 1, k));
    Recall(Contained(h, segs, 0, h.top));
    if Stands(h, q) && q != h.top {
      AwayFromSeal(h, w, segs, least, c, seg, low, q);
    }
    if k > 0 {
      Recall(Contained(h, segs, k - 1, q));
    }
  }

  lemma SealFence(h: Heap, w: Heap, segs: seq<Segment>, least: Addr, c: Addr, seg: Segment, low: Addr, k: nat, f: Addr)
    requires Seals(h, w, segs, least, c, seg, low) && k < |segs| + 1 && f in w.fences
    ensures FencePlaced(Pushed(segs, c, seg), k, f)
  {
    var s := Pushed(segs, c, seg);
    SealParts(h, w, segs, least, c, seg, low);
    PushedAt(segs, c, seg, k);
    PushedAt(segs, c, seg, 1);
    Recall(SegApart(s, 1, k));
    if f != c + RECORD {
      Recall(FenceOk(h, f));
      AwayFromSeal(h, w, segs, least, c, seg, low, f);
      if k > 0 {
        Recall(FencePlaced(segs, k - 1, f));
      }
    }
  }

  lemma SealStep(h: Heap, w: Heap, segs: seq<Segment>, least: Addr, c: Addr, seg: Segment, low: Addr,
                 dv: Addr, t: Table, l: Links)
    requires Seals(h, w, segs, least, c, seg, low) && Binned(h, {dv}, t)
    ensures var e := h.top;
      && Wf(w, Pushed(segs, c, seg), low) && Binned(w, {dv}, t) && SpareLive(Store(h, l), Store(w, l), {e})
      && !Live(w, c) && SizeAt(w, w.top) == End(seg) - TOP_FOOT - First(seg)
      && (c != e ==> Live(w, e) && PInUse(w, e) && SizeAt(w, e) == c - e && Used(w, c))
      && (Free(h, dv) ==> Free(w, dv) && SizeAt(w, dv) == SizeAt(h, dv)) && !Used(h, e)
  {
    var e, s := h.top, Pushed(segs, c, seg);
    SealTiled(h, w, segs, least, c, seg, low);
    SealPlaced(h, w, segs, least, c, seg, low);
    SealParts(h, w, segs, least, c, seg, low);
    forall q {:trigger Aligned(q)} | Stands(w, q) ensures Aligned(q) {
      if Stands(h, q) {
        Recall(Aligned(q));
      }
    }
    if Stands(h, c) && c != e {
      AwayFromSeal(h, w, segs, least, c, seg, low, c);
    }
    Recall(PinOk(h, e));
    BinnedStep(h, w, e, c, {dv}, t, {dv});
    KeptHeap(h, w, l, {e, c});
    KeptLive(Store(h, l), Store(w, l), {e, c}, {e});
    Recall(SameChunk(h, w, dv));
  }
}
