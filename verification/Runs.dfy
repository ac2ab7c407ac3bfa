/** Whole runs of the allocator: two ways to free several blocks, and any sequence of client calls. */
module Runs {
  import opened Config
  import opened Tiling
  import opened Segments
  import opened Stores
  import opened Canonical
  import opened Mstate
  import B = Bins

  /** The same chunks with the same heads, the same top, and so the same free spans. */
  ghost predicate SameLayout(h: Heap, w: Heap) {
    && h.chunks == w.chunks && h.top == w.top
    && (forall c {:trigger HeadAt(h.hd, c)} | c in h.chunks :: HeadAt(h.hd, c) == HeadAt(w.hd, c))
    && (forall c {:trigger Free(h, c)} :: Free(h, c) <==> Free(w, c))
  }

  /** internal_bulk_free, up to trimming, leaves the layout that freeing the same blocks one by one leaves. */
  method BulkRefinesEach(m: Mstate, n: Mstate, mems: array<Addr>)
    requires m != n && m.bins != n.bins && m.bins.small != n.bins.small && m.bins.large != n.bins.large
    requires m.Valid() && n.Valid() && m.H() == n.H() && m.sys == n.sys && m.st.top != NULL && m.Owned(m.H(), mems[..])
    modifies m`st, m`lay, m.bins.small, m.bins.large, n`st, n`lay, n.bins.small, n.bins.large, mems
    ensures m.Valid() && n.Valid() && SameLayout(m.H(), n.H())
    ensures Blocks(m.H()) == old(Blocks(m.H())) - m.ChunksOf(old(mems[..]))
  {
    hide B.Bins.Valid, B.Bins.Content, B.Bins.Fields, Placed, SegmentsOk, Grid, Binned, Accounted, Tiled;
    m.SegmentsTell();
    n.FreeEach(mems[..]);
    n.SegmentsTell();
    m.FreeArray(mems);
    m.SegmentsTell();
    LayoutIsCanonical(m.H(), n.H(), m.sys.segs, m.sys.least);
  }
}
