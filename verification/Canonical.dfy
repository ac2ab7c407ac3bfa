/** The blocks in use determine the whole layout: coalescing leaves no freedom in where free chunks lie. */
module Canonical {
  import opened Config
  import opened Tiling
  import opened Segments
  import opened Layouts
  import opened Stores

  /** The same chunks are in use, with the same sizes. */
  ghost predicate SameUses(h: Heap, w: Heap) {
    forall b {:trigger Used(h, b)} {:trigger Used(w, b)} ::
      (Used(h, b) <==> Used(w, b)) && (Used(h, b) ==> SizeAt(h, b) == SizeAt(w, b))
  }

  lemma SameUsesSym(h: Heap, w: Heap)
    requires SameUses(h, w)
    ensures SameUses(w, h)
  {
  }

  /** The client's blocks and the segment list tell which chunks are in use. */
  lemma BlocksTell(h: Heap, w: Heap, segs: seq<Segment>, least: Addr)
    requires Wf(h, segs, least) && Wf(w, segs, least) && Blocks(h) == Blocks(w)
    ensures SameUses(h, w)
  {
    forall b ensures Used(h, b) ==> Used(w, b) && SizeAt(h, b) == SizeAt(w, b) {
      OneUse(h, w, segs, least, b);
    }
    forall b ensures Used(w, b) ==> Used(h, b) && SizeAt(h, b) == SizeAt(w, b) {
      OneUse(w, h, segs, least, b);
    }
  }

  lemma OneUse(h: Heap, w: Heap, segs: seq<Segment>, least: Addr, b: Addr)
    requires Wf(h, segs, least) && Wf(w, segs, least) && Blocks(h) == Blocks(w)
    ensures Used(h, b) ==> Used(w, b) && SizeAt(h, b) == SizeAt(w, b)
  {
    if Used(h, b) {
      if b in h.pins {
        Recall(IsRecord(segs, b));
        var k: nat :| 0 < k < |segs| && b == RecordChunk(segs[k]);
        Recall(RecordOk(h, segs, k));
        Recall(RecordOk(w, segs, k));
        PinsUsed(w, b);
      } else {
        assert b in Blocks(h) && Blocks(h)[b] == SizeAt(h, b);
        assert b in Blocks(w);
      }
    }
  }

  /** p starts a chunk of segment k in both heaps, preceded by chunks of the same kind. */
  ghost predicate Both(h: Heap, w: Heap, segs: seq<Segment>, least: Addr, k: nat, p: Addr) {
    && Wf(h, segs, least) && Wf(w, segs, least) && SameUses(h, w) && k < |segs| && HoldsAddr(segs[k], p)
    && p in h.chunks && p in w.chunks && PInUse(h, p) == PInUse(w, p)
  }

  /** A chunk that is free in h does not start top in w. */
  lemma FreeNotTop(h: Heap, w: Heap, segs: seq<Segment>, least: Addr, k: nat, p: Addr)
    requires Both(h, w, segs, least, k, p) && Free(h, p)
    ensures p != w.top
  {
    var n := Next(h, p);
    AfterFree(h, p);
    if p == w.top {
      Recall(Used(w, n));
      Recall(Contained(h, segs, k, p));
      Recall(SegmentOk(segs, k, least));
      if k != 0 {
        Recall(SegApart(segs, 0, k));
      }
      Recall(Apart(w, p, n));
      Recall(Contained(w, segs, 0, n));
      Recall(ChunkOk(w, n));
    }
  }

  /** Chunks that start at the same place have the same head. */
  lemma SameHead(h: Heap, w: Heap, segs: seq<Segment>, least: Addr, k: nat, p: Addr)
    requires Both(h, w, segs, least, k, p)
    ensures HeadAt(h.hd, p) == HeadAt(w.hd, p) && (p == h.top <==> p == w.top)
  {
    Recall(Used(h, p));
    SameUsesSym(h, w);
    if Free(h, p) {
      FreeNotTop(h, w, segs, least, k, p);
      AfterFree(h, p);
      AfterFree(w, p);
      Recall(Used(h, Next(w, p)));
      Recall(Used(w, Next(h, p)));
      Recall(Apart(h, p, Next(w, p)));
      Recall(Apart(w, p, Next(h, p)));
    } else if Free(w, p) {
      FreeNotTop(w, h, segs, least, k, p);
    }
  }

  /** A chunk behind p is not reached past the end of its segment. */
  lemma {:induction false} Walk(h: Heap, w: Heap, segs: seq<Segment>, least: Addr, k: nat, p: Addr, c: Addr)
    requires Both(h, w, segs, least, k, p) && p <= c && c in h.chunks && HoldsAddr(segs[k], c)
    ensures c in w.chunks && HeadAt(h.hd, c) == HeadAt(w.hd, c) && (c == h.top <==> c == w.top)
    decreases c - p
  {
    SameHead(h, w, segs, least, k, p);
    if p < c {
      WalkOn(h, w, segs, least, k, p, c);
      Walk(h, w, segs, least, k, Next(h, p), c);
    }
  }

  lemma NothingBehindTop(h: Heap, segs: seq<Segment>, least: Addr, k: nat, c: Addr)
    requires Wf(h, segs, least) && k < |segs| && c in h.chunks && HoldsAddr(segs[k], c) && h.top < c
    ensures !HoldsAddr(segs[k], h.top)
  {
    Recall(Apart(h, h.top, c));
    Recall(Contained(h, segs, k, c));
    Recall(ChunkOk(h, c));
    if k != 0 {
      Recall(SegApart(segs, 0, k));
    }
  }

  lemma WalkOn(h: Heap, w: Heap, segs: seq<Segment>, least: Addr, k: nat, p: Addr, c: Addr)
    requires Both(h, w, segs, least, k, p) && p < c && c in h.chunks && HoldsAddr(segs[k], c)
    requires HeadAt(h.hd, p) == HeadAt(w.hd, p) && (p == h.top <==> p == w.top)
    ensures p < Next(h, p) <= c && Both(h, w, segs, least, k, Next(h, p))
  {
    var n := Next(h, p);
    Recall(Apart(h, p, c));
    Recall(Contained(h, segs, k, c));
    Recall(ChunkOk(h, c));
    Recall(SegmentOk(segs, k, least));
    if h.top < c {
      NothingBehindTop(h, segs, least, k, c);
    }
    Recall(ChunkOk(h, p));
    Recall(ChunkOk(w, p));
    Recall(FencePlaced(segs, k, n));
  }

  /** Two well-formed heaps over the same segments in which the client owns the same blocks are laid out alike:
      the same chunks, with the same heads, and the same top. */
  lemma LayoutIsCanonical(h: Heap, w: Heap, segs: seq<Segment>, least: Addr)
    requires Wf(h, segs, least) && Wf(w, segs, least) && Blocks(h) == Blocks(w)
    ensures h.chunks == w.chunks && h.top == w.top
    ensures forall c | c in h.chunks :: HeadAt(h.hd, c) == HeadAt(w.hd, c)
    ensures forall c | c in h.chunks :: Free(h, c) <==> Free(w, c)
  {
    BlocksTell(h, w, segs, least);
    SameUsesSym(h, w);
    forall c {:trigger c in h.chunks} | c in h.chunks
      ensures c in w.chunks && HeadAt(h.hd, c) == HeadAt(w.hd, c) && (c == h.top <==> c == w.top)
    {
      Reached(h, w, segs, least, c);
    }
    assert h.top in h.chunks;
    forall c {:trigger c in w.chunks} | c in w.chunks ensures c in h.chunks {
      Reached(w, h, segs, least, c);
    }
  }

  lemma Reached(h: Heap, w: Heap, segs: seq<Segment>, least: Addr, c: Addr)
    requires Wf(h, segs, least) && Wf(w, segs, least) && SameUses(h, w) && c in h.chunks
    ensures c in w.chunks && HeadAt(h.hd, c) == HeadAt(w.hd, c) && (c == h.top <==> c == w.top)
  {
    Recall(Homed(segs, c));
    var k: nat :| k < |segs| && HoldsAddr(segs[k], c);
    Recall(Contained(h, segs, k, c));
    Recall(SegmentOk(segs, k, least));
    Recall(FirstOk(h, segs, k));
    Recall(FirstOk(w, segs, k));
    Walk(h, w, segs, least, k, First(segs[k]), c);
  }
}
