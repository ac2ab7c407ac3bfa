/** What the steps leave alone: every step touches only the chunks it names. */
module Frames {
  import opened Config
  import opened Tiling
  import opened Segments

  /** What the allocator keeps at address x: a prev_foot word, or a head word. */
  function Word(h: Heap, x: Addr): (int, Head) {
    (At(h.ft, x), HeadAt(h.hd, x - W))
  }

  /** The payload of a used chunk b, which reaches into the prev_foot of its successor, is not written. */
  ghost predicate Intact(h: Heap, w: Heap, b: Addr) {
    forall x {:trigger Word(w, x)} | b + 2 * W <= x < Next(h, b) + W :: Word(w, x) == Word(h, x)
  }

  ghost predicate SameChunk(h: Heap, w: Heap, b: Addr) {
    && (Used(w, b) <==> Used(h, b)) && (Free(w, b) <==> Free(h, b)) && (b in w.pins <==> b in h.pins)
    && (Chunk(h, b) ==> SizeAt(w, b) == SizeAt(h, b))
    && (Used(h, b) ==> Intact(h, w, b))
  }

  /** Chunks outside of act stay as they are. */
  ghost predicate Frame(h: Heap, w: Heap, act: set<Addr>) {
    forall b {:trigger SameChunk(h, w, b)} | b !in act :: SameChunk(h, w, b)
  }

  lemma FrameTrans(h: Heap, w: Heap, z: Heap, a: set<Addr>, b: set<Addr>)
    requires Frame(h, w, a) && Frame(w, z, b)
    ensures Frame(h, z, a + b)
  {
    forall c {:trigger SameChunk(h, z, c)} | c !in a + b ensures SameChunk(h, z, c) {
      Recall(SameChunk(h, w, c));
      Recall(SameChunk(w, z, c));
      if Used(h, c) {
        IntactTrans(h, w, z, c);
      }
    }
  }

  lemma IntactTrans(h: Heap, w: Heap, z: Heap, c: Addr)
    requires Intact(h, w, c) && Intact(w, z, c) && SizeAt(w, c) == SizeAt(h, c)
    ensures Intact(h, z, c)
  {
    forall x {:trigger Word(z, x)} | c + 2 * W <= x < Next(h, c) + W ensures Word(z, x) == Word(h, x) {
      Recall(Word(w, x) == Word(h, x));
    }
  }

  lemma AlignedGap(x: int, y: int)
    requires Aligned(x) && Aligned(y) && x < y
    ensures x + ALIGN <= y
  {
  }

  /** The head word of a stands outside of the payload of b. */
  ghost predicate Outside(h: Heap, b: Addr, a: Addr) {
    a <= b || Next(h, b) <= a
  }

  lemma StandsOutside(h: Heap, b: Addr, a: Addr)
    requires Tiled(h) && Chunk(h, b) && Stands(h, a)
    ensures Outside(h, b, a)
  {
    Recall(Apart(h, b, a));
  }

  lemma InsideOutside(h: Heap, b: Addr, p: Addr, a: Addr)
    requires Tiled(h) && Chunk(h, b) && p in h.chunks && p != b && p < a < Next(h, p)
    ensures Outside(h, b, a)
  {
    Recall(Apart(h, b, p));
    Recall(Apart(h, p, b));
  }

  /** Heads written at a0 and a1 only, and no foot. */
  lemma HeadsIntact(h: Heap, w: Heap, b: Addr, a0: Addr, a1: Addr)
    requires w.ft == h.ft && Outside(h, b, a0) && Outside(h, b, a1)
    requires forall a {:trigger HeadAt(w.hd, a)} | a != a0 && a != a1 :: HeadAt(w.hd, a) == HeadAt(h.hd, a)
    ensures Intact(h, w, b)
  {
  }

  lemma MergePrevFrame(h: Heap, p: Addr)
    requires Tiled(h) && Live(h, p) && !PInUse(h, p)
    ensures Frame(h, MergePrev(h, p), {p, p - At(h.ft, p)})
  {
    var q, w := p - At(h.ft, p), MergePrev(h, p);
    Recall(PrevOk(h, p));
    forall b {:trigger SameChunk(h, w, b)} | b !in {p, q} ensures SameChunk(h, w, b) {
      if Used(h, b) {
        StandsOutside(h, b, q);
        HeadsIntact(h, w, b, q, q);
      }
    }
  }

  lemma MergeNextFrame(h: Heap, p: Addr)
    requires Tiled(h) && Live(h, p) && Chunk(h, Next(h, p)) && Next(h, p) !in h.pins
    ensures Frame(h, MergeNext(h, p), {p, Next(h, p)})
  {
    var n, w := Next(h, p), MergeNext(h, p);
    Recall(ChunkOk(h, n));
    forall b {:trigger SameChunk(h, w, b)} | b !in {p, n} ensures SameChunk(h, w, b) {
      if Used(h, b) {
        StandsOutside(h, b, p);
        StandsOutside(h, b, Next(h, n));
        HeadsIntact(h, w, b, p, Next(h, n));
      }
    }
  }

  lemma MergeTopFrame(h: Heap, p: Addr)
    requires Tiled(h) && Live(h, p) && Next(h, p) == h.top && PInUse(h, p)
    ensures Frame(h, MergeTop(h, p), {p})
  {
    var w := MergeTop(h, p);
    forall b {:trigger SameChunk(h, w, b)} | b !in {p} ensures SameChunk(h, w, b) {
      if Used(h, b) {
        StandsOutside(h, b, p);
        HeadsIntact(h, w, b, p, p);
      }
    }
  }

  lemma ReleaseFrame(h: Heap, p: Addr)
    requires CanRelease(h, p) && Grid(h)
    ensures Frame(h, Release(h, p), {p})
  {
    var w, n := Release(h, p), Next(h, p);
    forall b {:trigger SameChunk(h, w, b)} | b !in {p} ensures SameChunk(h, w, b) {
      if Used(h, b) {
        StandsOutside(h, b, p);
        StandsOutside(h, b, n);
        FootOutside(h, p, b);
        forall x {:trigger Word(w, x)} | b + 2 * W <= x < Next(h, b) + W ensures Word(w, x) == Word(h, x) {
        }
      }
    }
  }

  /** The foot of p does not reach into the payload of another chunk. */
  lemma FootOutside(h: Heap, p: Addr, b: Addr)
    requires Tiled(h) && Grid(h) && Chunk(h, p) && Chunk(h, b) && b != p
    ensures Next(h, p) < b + 2 * W || Next(h, b) + W <= Next(h, p)
  {
    var n := Next(h, p);
    Recall(ChunkOk(h, p));
    Recall(ChunkOk(h, b));
    Recall(Apart(h, b, p));
    Recall(Apart(h, p, b));
    if b < p {
      Recall(Aligned(n));
      Recall(Aligned(Next(h, b)));
      AlignedGap(Next(h, b), n);
    }
  }

  lemma AcquireFrame(h: Heap, p: Addr)
    requires Tiled(h) && Free(h, p)
    ensures Frame(h, Acquire(h, p), {p})
  {
    var w := Acquire(h, p);
    Recall(ChunkOk(h, p));
    forall b {:trigger SameChunk(h, w, b)} | b !in {p} ensures SameChunk(h, w, b) {
      if Used(h, b) {
        StandsOutside(h, b, p);
        StandsOutside(h, b, Next(h, p));
        HeadsIntact(h, w, b, p, Next(h, p));
      }
    }
  }

  lemma SplitFrame(h: Heap, p: Addr, nb: nat)
    requires CanSplit(h, p, nb)
    ensures Frame(h, Split(h, p, nb), {p, p + nb})
  {
    var w := Split(h, p, nb);
    SplitFresh(h, p, nb);
    forall b {:trigger SameChunk(h, w, b)} | b !in {p, p + nb} ensures SameChunk(h, w, b) {
      if Used(h, b) {
        StandsOutside(h, b, p);
        InsideOutside(h, b, p, p + nb);
        HeadsIntact(h, w, b, p, p + nb);
      }
    }
  }

  lemma SplitTopFrame(h: Heap, nb: nat)
    requires CanSplitTop(h, nb)
    ensures Frame(h, SplitTop(h, nb), {h.top})
  {
    var w, r := SplitTop(h, nb), h.top + nb;
    Recall(Apart(h, h.top, r));
    forall b {:trigger SameChunk(h, w, b)} | b !in {h.top} ensures SameChunk(h, w, b) {
      if Used(h, b) {
        StandsOutside(h, b, h.top);
        InsideOutside(h, b, h.top, r);
        HeadsIntact(h, w, b, h.top, r);
      }
    }
  }

  lemma GrowTopFrame(h: Heap, p: Addr, nb: nat)
    requires CanGrowTop(h, p, nb)
    ensures Frame(h, GrowTop(h, p, nb), {p})
  {
    var w, n := GrowTop(h, p, nb), p + nb;
    Recall(ChunkOk(h, p));
    GrowTopTiled(h, p, nb);
    forall b {:trigger SameChunk(h, w, b)} | b !in {p} ensures SameChunk(h, w, b) {
      if Used(h, b) {
        StandsOutside(h, b, p);
        InsideOutside(h, b, h.top, n);
        HeadsIntact(h, w, b, p, n);
      }
    }
  }
}
