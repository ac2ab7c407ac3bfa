/** The heap as memory holds it: chunks that tile their segments, with sizes and in-use bits in their
    heads and the sizes of free chunks repeated in their feet.

    All operations of the allocator are compositions of eight steps on this layout. */
module Tiling {
  import opened Config

  datatype Heap = Heap(
    chunks: set<Addr>,       // where chunks start, including top
    fences: set<Addr>,       // where the fenceposts behind older segments start
    pins: set<Addr>,         // used chunks that hold segment records
    hd: Heads, ft: Words,    // head and prev_foot words
    top: Addr)

  function SizeAt(h: Heap, p: Addr): nat {
    HeadAt(h.hd, p).size
  }

  /** next_chunk(p) */
  function Next(h: Heap, p: Addr): Addr {
    p + SizeAt(h, p)
  }

  predicate InUse(h: Heap, p: Addr) {
    HeadAt(h.hd, p).cinuse
  }

  predicate PInUse(h: Heap, p: Addr) {
    HeadAt(h.hd, p).pinuse
  }

  predicate Stands(h: Heap, p: Addr) {
    p in h.chunks || p in h.fences
  }

  ghost predicate ChunkOk(h: Heap, p: Addr) {
    && p > 0 && SizeAt(h, p) >= MIN_CHUNK
    && Stands(h, Next(h, p))
    && PInUse(h, Next(h, p)) == InUse(h, p)
    && (!InUse(h, p) ==> PInUse(h, p) && Next(h, p) in h.chunks && At(h.ft, Next(h, p)) == SizeAt(h, p))
  }

  /** A clear PINUSE_BIT means that there is a free chunk in front, and the foot tells where. */
  ghost predicate PrevOk(h: Heap, p: Addr) {
    !PInUse(h, p) ==>
      var q := p - At(h.ft, p);
      q in h.chunks && q != h.top && Next(h, q) == p && !InUse(h, q)
  }

  ghost predicate Apart(h: Heap, p: Addr, q: Addr) {
    p < q ==> Next(h, p) <= q
  }

  ghost predicate TopOk(h: Heap) {
    && h.top > 0 && h.top in h.chunks && !InUse(h, h.top) && PInUse(h, h.top) && SizeAt(h, h.top) > 0
    && !Stands(h, Next(h, h.top)) && HeadAt(h.hd, Next(h, h.top)) == TAIL
  }

  ghost predicate FenceOk(h: Heap, f: Addr) {
    HeadAt(h.hd, f) == FENCE && f !in h.chunks
  }

  ghost predicate PinOk(h: Heap, r: Addr) {
    r in h.chunks && r != h.top && InUse(h, r) && Next(h, r) in h.fences
  }

  ghost predicate Tiled(h: Heap) {
    && TopOk(h)
    && (forall r {:trigger PinOk(h, r)} | r in h.pins :: PinOk(h, r))
    && (forall p {:trigger ChunkOk(h, p)} | p in h.chunks && p != h.top :: ChunkOk(h, p))
    && (forall p {:trigger PrevOk(h, p)} | p in h.chunks :: PrevOk(h, p))
    && (forall p, q {:trigger Apart(h, p, q)} | p in h.chunks && Stands(h, q) :: Apart(h, p, q))
    && (forall f {:trigger FenceOk(h, f)} | f in h.fences :: FenceOk(h, f))
  }

  ghost predicate Chunk(h: Heap, p: Addr) {
    p in h.chunks && p != h.top
  }

  ghost predicate Used(h: Heap, p: Addr) {
    Chunk(h, p) && InUse(h, p)
  }

  /** A used chunk that belongs to the client, or that the allocator is about to hand out or bin. */
  ghost predicate Live(h: Heap, p: Addr) {
    Used(h, p) && p !in h.pins
  }

  ghost predicate Free(h: Heap, p: Addr) {
    Chunk(h, p) && !InUse(h, p)
  }

  function SetPInUse(hd: Heads, p: Addr, b: bool): Heads {
    PutHead(hd, p, HeadAt(hd, p).(pinuse := b))
  }

  // ---- 1: a used chunk absorbs the free chunk in front of it ----

  function MergePrev(h: Heap, p: Addr): Heap {
    var q := p - At(h.ft, p);
    h.(chunks := h.chunks - {p}, hd := PutHead(h.hd, q, Head(SizeAt(h, q) + SizeAt(h, p), true, true)))
  }

  lemma MergePrevTiled(h: Heap, p: Addr)
    requires Tiled(h) && Live(h, p) && !PInUse(h, p)
    ensures var q, w := p - At(h.ft, p), MergePrev(h, p);
      Free(h, q) && Next(h, q) == p && Tiled(w) && Live(w, q) && PInUse(w, q) && Next(w, q) == Next(h, p)
  {
    var q, w := p - At(h.ft, p), MergePrev(h, p);
    Recall(PrevOk(h, p));
    Recall(ChunkOk(h, p));
    Recall(ChunkOk(h, q));
    Recall(PinOk(h, q));
    forall a {:trigger ChunkOk(w, a)} | a in w.chunks && a != w.top ensures ChunkOk(w, a) {
      MergePrevChunk(h, p, a);
    }
    forall a {:trigger PrevOk(w, a)} | a in w.chunks ensures PrevOk(w, a) {
      MergePrevPrev(h, p, a);
    }
    forall a, b {:trigger Apart(w, a, b)} | a in w.chunks && Stands(w, b) ensures Apart(w, a, b) {
      Recall(FenceOk(h, b));
      MergePrevApart(h, p, a, b);
    }
    forall r {:trigger PinOk(w, r)} | r in w.pins ensures PinOk(w, r) {
      MergePrevPin(h, p, r);
    }
    forall f {:trigger FenceOk(w, f)} | f in w.fences ensures FenceOk(w, f) {
      Recall(FenceOk(h, f));
    }
  }

  lemma MergePrevPin(h: Heap, p: Addr, r: Addr)
    requires Tiled(h) && Live(h, p) && !PInUse(h, p) && r in h.pins
    ensures PinOk(MergePrev(h, p), r)
  {
    Recall(PinOk(h, r));
    Recall(PrevOk(h, p));
  }

  lemma MergePrevApart(h: Heap, p: Addr, a: Addr, b: Addr)
    requires Tiled(h) && Live(h, p) && !PInUse(h, p) && a in h.chunks && a != p && Stands(h, b) && b != p
    ensures Apart(MergePrev(h, p), a, b)
  {
    Recall(PrevOk(h, p));
    Recall(Apart(h, a, b));
    Recall(Apart(h, p, b));
  }

  lemma MergePrevChunk(h: Heap, p: Addr, a: Addr)
    requires Tiled(h) && Live(h, p) && !PInUse(h, p) && Chunk(h, a) && a != p
    ensures ChunkOk(MergePrev(h, p), a)
  {
    var q := p - At(h.ft, p);
    Recall(PrevOk(h, p));
    Recall(ChunkOk(h, p));
    Recall(ChunkOk(h, q));
    Recall(ChunkOk(h, a));
    Recall(Apart(h, q, a));
    Recall(Apart(h, a, q));
    Recall(FenceOk(h, q));
  }

  lemma MergePrevPrev(h: Heap, p: Addr, a: Addr)
    requires Tiled(h) && Live(h, p) && !PInUse(h, p) && a in h.chunks && a != p
    ensures PrevOk(MergePrev(h, p), a)
  {
    var q := p - At(h.ft, p);
    Recall(PrevOk(h, p));
    Recall(PrevOk(h, a));
    Recall(ChunkOk(h, q));
    Recall(ChunkOk(h, p));
  }

  // ---- 2: a used chunk absorbs the chunk behind it ----

  function MergeNext(h: Heap, p: Addr): Heap {
    var n := Next(h, p);
    var hd := PutHead(h.hd, p, HeadAt(h.hd, p).(size := SizeAt(h, p) + SizeAt(h, n)));
    h.(chunks := h.chunks - {n}, hd := SetPInUse(hd, Next(h, n), true))
  }

  lemma MergeNextTiled(h: Heap, p: Addr)
    requires Tiled(h) && Live(h, p) && Chunk(h, Next(h, p)) && Next(h, p) !in h.pins
    ensures var n, w := Next(h, p), MergeNext(h, p);
      && Tiled(w) && Live(w, p) && Next(w, p) == Next(h, n) && PInUse(w, p) == PInUse(h, p)
      && Stands(h, Next(h, n)) && p < n < Next(h, n)
  {
    var n, w := Next(h, p), MergeNext(h, p);
    Recall(ChunkOk(h, p));
    Recall(ChunkOk(h, n));
    forall a {:trigger ChunkOk(w, a)} | a in w.chunks && a != w.top ensures ChunkOk(w, a) {
      MergeNextChunk(h, p, a);
    }
    forall a {:trigger PrevOk(w, a)} | a in w.chunks ensures PrevOk(w, a) {
      MergeNextPrev(h, p, a);
    }
    forall a, b {:trigger Apart(w, a, b)} | a in w.chunks && Stands(w, b) ensures Apart(w, a, b) {
      Recall(FenceOk(h, b));
      MergeNextApart(h, p, a, b);
    }
    forall r {:trigger PinOk(w, r)} | r in w.pins ensures PinOk(w, r) {
      MergeNextPin(h, p, r);
    }
    forall f {:trigger FenceOk(w, f)} | f in w.fences ensures FenceOk(w, f) {
      Recall(FenceOk(h, f));
      MergeNextFence(h, p, f);
    }
  }

  lemma MergeNextPin(h: Heap, p: Addr, r: Addr)
    requires Tiled(h) && Live(h, p) && Chunk(h, Next(h, p)) && Next(h, p) !in h.pins && r in h.pins
    ensures PinOk(MergeNext(h, p), r)
  {
    Recall(PinOk(h, r));
  }

  lemma MergeNextFence(h: Heap, p: Addr, f: Addr)
    requires Tiled(h) && Live(h, p) && Chunk(h, Next(h, p)) && Next(h, p) !in h.pins && f in h.fences
    ensures FenceOk(MergeNext(h, p), f)
  {
    Recall(FenceOk(h, f));
  }

  lemma MergeNextApart(h: Heap, p: Addr, a: Addr, b: Addr)
    requires Tiled(h) && Live(h, p) && Chunk(h, Next(h, p)) && Next(h, p) !in h.pins && a in h.chunks
    requires a != Next(h, p) && Stands(h, b) && b != Next(h, p)
    ensures Apart(MergeNext(h, p), a, b)
  {
    Recall(Apart(h, a, b));
    Recall(Apart(h, Next(h, p), b));
  }

  lemma MergeNextChunk(h: Heap, p: Addr, a: Addr)
    requires Tiled(h) && Live(h, p) && Chunk(h, Next(h, p)) && Next(h, p) !in h.pins && Chunk(h, a) && a != Next(h, p)
    ensures ChunkOk(MergeNext(h, p), a)
  {
    var n := Next(h, p);
    Recall(ChunkOk(h, p));
    Recall(ChunkOk(h, n));
    Recall(ChunkOk(h, a));
    Recall(Apart(h, a, p));
    Recall(Apart(h, p, a));
    Recall(Apart(h, a, n));
    Recall(Apart(h, n, a));
  }

  lemma MergeNextPrev(h: Heap, p: Addr, a: Addr)
    requires Tiled(h) && Live(h, p) && Chunk(h, Next(h, p)) && Next(h, p) !in h.pins && a in h.chunks && a != Next(h, p)
    ensures PrevOk(MergeNext(h, p), a)
  {
    var n := Next(h, p);
    var q := a - At(h.ft, a);
    Recall(ChunkOk(h, p));
    Recall(ChunkOk(h, n));
    Recall(PrevOk(h, a));
    Recall(ChunkOk(h, q));
    Recall(Apart(h, q, n));
    Recall(Apart(h, n, q));
  }

  // ---- 3: a used chunk in front of top becomes top ----

  function MergeTop(h: Heap, p: Addr): Heap {
    h.(chunks := h.chunks - {h.top}, top := p,
       hd := PutHead(h.hd, p, Head(SizeAt(h, p) + SizeAt(h, h.top), false, true)))
  }

  lemma MergeTopTiled(h: Heap, p: Addr)
    requires Tiled(h) && Live(h, p) && Next(h, p) == h.top && PInUse(h, p)
    ensures var w := MergeTop(h, p); Tiled(w) && Next(w, p) == Next(h, h.top)
  {
    var w := MergeTop(h, p);
    Recall(ChunkOk(h, p));
    forall a {:trigger ChunkOk(w, a)} | a in w.chunks && a != w.top ensures ChunkOk(w, a) {
      Recall(ChunkOk(h, a));
      Recall(Apart(h, a, p));
      Recall(Apart(h, p, a));
    }
    forall a {:trigger PrevOk(w, a)} | a in w.chunks ensures PrevOk(w, a) {
      Recall(PrevOk(h, a));
    }
    forall a, b {:trigger Apart(w, a, b)} | a in w.chunks && Stands(w, b) ensures Apart(w, a, b) {
      Recall(Apart(h, a, b));
      Recall(Apart(h, h.top, b));
      Recall(FenceOk(h, b));
    }
    forall r {:trigger PinOk(w, r)} | r in w.pins ensures PinOk(w, r) {
      MergeTopPin(h, p, r);
    }
    forall f {:trigger FenceOk(w, f)} | f in w.fences ensures FenceOk(w, f) {
      Recall(FenceOk(h, f));
    }
  }

  lemma MergeTopPin(h: Heap, p: Addr, r: Addr)
    requires Tiled(h) && Live(h, p) && Next(h, p) == h.top && PInUse(h, p) && r in h.pins
    ensures PinOk(MergeTop(h, p), r)
  {
    Recall(PinOk(h, r));
  }

  // ---- 4: a used chunk between used neighbours becomes free ----

  function Release(h: Heap, p: Addr): Heap {
    var s := SizeAt(h, p);
    h.(hd := SetPInUse(PutHead(h.hd, p, Head(s, false, true)), p + s, false), ft := Put(h.ft, p + s, s))
  }

  ghost predicate CanRelease(h: Heap, p: Addr) {
    Tiled(h) && Live(h, p) && PInUse(h, p) && Used(h, Next(h, p))
  }

  lemma ReleaseTiled(h: Heap, p: Addr)
    requires CanRelease(h, p)
    ensures var w := Release(h, p); Tiled(w) && Free(w, p) && Next(w, p) == Next(h, p)
  {
    var w := Release(h, p);
    ReleaseSelf(h, p);
    forall a {:trigger ChunkOk(w, a)} | a in w.chunks && a != w.top ensures ChunkOk(w, a) {
      ReleaseChunk(h, p, a);
    }
    forall a {:trigger PrevOk(w, a)} | a in w.chunks ensures PrevOk(w, a) {
      ReleasePrev(h, p, a);
    }
    forall a, b {:trigger Apart(w, a, b)} | a in w.chunks && Stands(w, b) ensures Apart(w, a, b) {
      ReleaseApart(h, p, a, b);
    }
    forall r {:trigger PinOk(w, r)} | r in w.pins ensures PinOk(w, r) {
      ReleasePin(h, p, r);
    }
    forall f {:trigger FenceOk(w, f)} | f in w.fences ensures FenceOk(w, f) {
      ReleaseFence(h, p, f);
    }
  }

  lemma ReleasePin(h: Heap, p: Addr, r: Addr)
    requires CanRelease(h, p) && r in h.pins
    ensures PinOk(Release(h, p), r)
  {
    Recall(PinOk(h, r));
  }

  lemma ReleaseSelf(h: Heap, p: Addr)
    requires CanRelease(h, p)
    ensures var w := Release(h, p);
      w.chunks == h.chunks && w.fences == h.fences && TopOk(w) && Free(w, p) && Next(w, p) == Next(h, p) != p
  {
    Recall(ChunkOk(h, p));
  }

  lemma ReleaseApart(h: Heap, p: Addr, a: Addr, b: Addr)
    requires CanRelease(h, p) && a in h.chunks && Stands(h, b)
    ensures Apart(Release(h, p), a, b)
  {
    Recall(Apart(h, a, b));
  }

  lemma ReleaseFence(h: Heap, p: Addr, f: Addr)
    requires CanRelease(h, p) && f in h.fences
    ensures FenceOk(Release(h, p), f)
  {
    Recall(FenceOk(h, f));
  }

  lemma ReleasePrev(h: Heap, p: Addr, a: Addr)
    requires CanRelease(h, p) && a in h.chunks
    ensures PrevOk(Release(h, p), a)
  {
    Recall(ChunkOk(h, p));
    Recall(PrevOk(h, a));
    Recall(ChunkOk(h, a - At(h.ft, a)));
  }

  lemma ReleaseChunk(h: Heap, p: Addr, a: Addr)
    requires CanRelease(h, p) && Chunk(h, a)
    ensures ChunkOk(Release(h, p), a)
  {
    var n := Next(h, p);
    Recall(ChunkOk(h, p));
    Recall(ChunkOk(h, n));
    Recall(ChunkOk(h, a));
    Recall(Apart(h, a, p));
    Recall(Apart(h, p, a));
  }

  // ---- 5: a free chunk becomes used ----

  function Acquire(h: Heap, p: Addr): Heap {
    h.(hd := SetPInUse(PutHead(h.hd, p, HeadAt(h.hd, p).(cinuse := true)), Next(h, p), true))
  }

  lemma AcquireTiled(h: Heap, p: Addr)
    requires Tiled(h) && Free(h, p)
    ensures var w := Acquire(h, p); Tiled(w) && Live(w, p) && Next(w, p) == Next(h, p) && PInUse(w, p)
  {
    var w, n := Acquire(h, p), Next(h, p);
    Recall(PinOk(h, p));
    Recall(ChunkOk(h, p));
    Recall(PrevOk(h, n));
    forall a {:trigger ChunkOk(w, a)} | a in w.chunks && a != w.top ensures ChunkOk(w, a) {
      AcquireChunk(h, p, a);
    }
    forall a {:trigger PrevOk(w, a)} | a in w.chunks ensures PrevOk(w, a) {
      AcquirePrev(h, p, a);
    }
    forall a, b {:trigger Apart(w, a, b)} | a in w.chunks && Stands(w, b) ensures Apart(w, a, b) {
      Recall(Apart(h, a, b));
    }
    forall r {:trigger PinOk(w, r)} | r in w.pins ensures PinOk(w, r) {
      AcquirePin(h, p, r);
    }
    forall f {:trigger FenceOk(w, f)} | f in w.fences ensures FenceOk(w, f) {
      Recall(FenceOk(h, f));
    }
  }

  lemma AcquirePin(h: Heap, p: Addr, r: Addr)
    requires Tiled(h) && Free(h, p) && r in h.pins
    ensures PinOk(Acquire(h, p), r)
  {
    Recall(PinOk(h, r));
  }

  lemma AcquirePrev(h: Heap, p: Addr, a: Addr)
    requires Tiled(h) && Free(h, p) && a in h.chunks
    ensures PrevOk(Acquire(h, p), a)
  {
    Recall(ChunkOk(h, p));
    Recall(PrevOk(h, a));
    Recall(ChunkOk(h, a - At(h.ft, a)));
  }

  lemma AcquireChunk(h: Heap, p: Addr, a: Addr)
    requires Tiled(h) && Free(h, p) && Chunk(h, a)
    ensures ChunkOk(Acquire(h, p), a)
  {
    Recall(ChunkOk(h, p));
    Recall(ChunkOk(h, a));
    Recall(ChunkOk(h, Next(h, p)));
    Recall(Apart(h, a, p));
    Recall(Apart(h, p, a));
  }

  // ---- 6: a used chunk is cut in two ----

  function Split(h: Heap, p: Addr, nb: nat): Heap {
    var s := SizeAt(h, p);
    h.(chunks := h.chunks + {p + nb},
       hd := PutHead(PutHead(h.hd, p, HeadAt(h.hd, p).(size := nb)), p + nb,
                     Head(if s >= nb then s - nb else 0, true, true)))
  }

  ghost predicate CanSplit(h: Heap, p: Addr, nb: nat) {
    Tiled(h) && Live(h, p) && MIN_CHUNK <= nb && nb + MIN_CHUNK <= SizeAt(h, p)
  }

  lemma SplitTiled(h: Heap, p: Addr, nb: nat)
    requires CanSplit(h, p, nb)
    ensures var w, r := Split(h, p, nb), p + nb;
      && Tiled(w) && !Stands(h, r) && Live(w, p) && Live(w, r) && PInUse(w, p) == PInUse(h, p) && PInUse(w, r)
      && Next(w, p) == r && Next(w, r) == Next(h, p)
  {
    var w, r := Split(h, p, nb), p + nb;
    SplitFresh(h, p, nb);
    forall a {:trigger ChunkOk(w, a)} | a in w.chunks && a != w.top ensures ChunkOk(w, a) {
      if a != r {
        SplitChunk(h, p, nb, a);
      }
    }
    forall a {:trigger PrevOk(w, a)} | a in w.chunks ensures PrevOk(w, a) {
      Recall(PrevOk(h, a));
    }
    forall a, b {:trigger Apart(w, a, b)} | a in w.chunks && Stands(w, b) ensures Apart(w, a, b) {
      SplitApart(h, p, nb, a, b);
    }
    forall x {:trigger PinOk(w, x)} | x in w.pins ensures PinOk(w, x) {
      SplitPin(h, p, nb, x);
    }
    forall f {:trigger FenceOk(w, f)} | f in w.fences ensures FenceOk(w, f) {
      Recall(FenceOk(h, f));
    }
  }

  lemma SplitPin(h: Heap, p: Addr, nb: nat, r: Addr)
    requires CanSplit(h, p, nb) && r in h.pins
    ensures PinOk(Split(h, p, nb), r)
  {
    Recall(PinOk(h, r));
    SplitFresh(h, p, nb);
  }

  lemma SplitFresh(h: Heap, p: Addr, nb: nat)
    requires CanSplit(h, p, nb)
    ensures var w, r := Split(h, p, nb), p + nb;
      && !Stands(h, r) && r !in h.pins && TopOk(w) && Live(w, p) && Live(w, r) && PInUse(w, p) == PInUse(h, p)
      && PInUse(w, r)
      && Next(w, p) == r && Next(w, r) == Next(h, p) && ChunkOk(w, r)
  {
    Recall(ChunkOk(h, p));
    Recall(Apart(h, p, p + nb));
    Recall(Apart(h, p, h.top));
    Recall(Apart(h, h.top, p));
    Recall(PinOk(h, p + nb));
  }

  lemma SplitChunk(h: Heap, p: Addr, nb: nat, a: Addr)
    requires CanSplit(h, p, nb) && Chunk(h, a) && !Stands(h, p + nb)
    ensures ChunkOk(Split(h, p, nb), a)
  {
    Recall(ChunkOk(h, p));
    Recall(ChunkOk(h, a));
  }

  lemma SplitApart(h: Heap, p: Addr, nb: nat, a: Addr, b: Addr)
    requires CanSplit(h, p, nb) && (a in h.chunks || a == p + nb) && (Stands(h, b) || b == p + nb)
    ensures Apart(Split(h, p, nb), a, b)
  {
    Recall(ChunkOk(h, p));
    Recall(Apart(h, a, b));
    Recall(Apart(h, a, p));
    Recall(Apart(h, p, a));
    Recall(Apart(h, p, b));
    Recall(FenceOk(h, b));
  }

  // ---- 7: a used chunk is cut off the low end of top ----

  function SplitTop(h: Heap, nb: nat): Heap {
    var s, r := SizeAt(h, h.top), h.top + nb;
    h.(chunks := h.chunks + {r}, top := r,
       hd := PutHead(PutHead(h.hd, h.top, Head(nb, true, true)), r, Head(if s >= nb then s - nb else 0, false, true)))
  }

  ghost predicate CanSplitTop(h: Heap, nb: nat) {
    Tiled(h) && MIN_CHUNK <= nb < SizeAt(h, h.top)
  }

  lemma SplitTopTiled(h: Heap, nb: nat)
    requires CanSplitTop(h, nb)
    ensures var w, p := SplitTop(h, nb), h.top;
      && Tiled(w) && !Stands(h, w.top) && Live(w, p) && Next(w, p) == w.top && Next(w, w.top) == Next(h, p)
      && SizeAt(w, w.top) == SizeAt(h, p) - nb
  {
    var w, p := SplitTop(h, nb), h.top;
    Recall(PinOk(h, p));
    Recall(Apart(h, p, p + nb));
    assert !Stands(h, w.top);
    forall a {:trigger ChunkOk(w, a)} | a in w.chunks && a != w.top ensures ChunkOk(w, a) {
      Recall(ChunkOk(h, a));
    }
    forall a {:trigger PrevOk(w, a)} | a in w.chunks ensures PrevOk(w, a) {
      Recall(PrevOk(h, a));
    }
    forall a, b {:trigger Apart(w, a, b)} | a in w.chunks && Stands(w, b) ensures Apart(w, a, b) {
      SplitTopApart(h, nb, a, b);
    }
    forall x {:trigger PinOk(w, x)} | x in w.pins ensures PinOk(w, x) {
      SplitTopPin(h, nb, x);
    }
    forall f {:trigger FenceOk(w, f)} | f in w.fences ensures FenceOk(w, f) {
      Recall(FenceOk(h, f));
    }
  }

  lemma SplitTopPin(h: Heap, nb: nat, r: Addr)
    requires CanSplitTop(h, nb) && r in h.pins
    ensures PinOk(SplitTop(h, nb), r)
  {
    Recall(PinOk(h, r));
    Recall(Apart(h, h.top, h.top + nb));
  }

  lemma SplitTopApart(h: Heap, nb: nat, a: Addr, b: Addr)
    requires CanSplitTop(h, nb) && (a in h.chunks || a == h.top + nb) && (Stands(h, b) || b == h.top + nb)
    ensures Apart(SplitTop(h, nb), a, b)
  {
    Recall(Apart(h, a, b));
    Recall(Apart(h, a, h.top));
    Recall(Apart(h, h.top, b));
    Recall(Apart(h, h.top, a));
  }

  // ---- 8: a used chunk in front of top takes the low end of top ----

  function GrowTop(h: Heap, p: Addr, nb: nat): Heap {
    var s, n := SizeAt(h, p) + SizeAt(h, h.top), p + nb;
    h.(chunks := h.chunks - {h.top} + {n}, top := n,
       hd := PutHead(PutHead(h.hd, p, HeadAt(h.hd, p).(size := nb)), n,
                     Head(if s >= nb then s - nb else 0, false, true)))
  }

  ghost predicate CanGrowTop(h: Heap, p: Addr, nb: nat) {
    Tiled(h) && Live(h, p) && Next(h, p) == h.top && SizeAt(h, p) < nb < SizeAt(h, p) + SizeAt(h, h.top)
  }

  lemma GrowTopTiled(h: Heap, p: Addr, nb: nat)
    requires CanGrowTop(h, p, nb)
    ensures var w := GrowTop(h, p, nb);
      && Tiled(w) && !Stands(h, w.top) && Live(w, p) && Next(w, p) == w.top && Next(w, w.top) == Next(h, h.top)
      && PInUse(w, p) == PInUse(h, p) && h.top < w.top
  {
    var w, n := GrowTop(h, p, nb), p + nb;
    Recall(ChunkOk(h, p));
    Recall(Apart(h, h.top, n));
    assert !Stands(h, n);
    forall a {:trigger ChunkOk(w, a)} | a in w.chunks && a != w.top ensures ChunkOk(w, a) {
      Recall(ChunkOk(h, a));
      Recall(Apart(h, a, p));
      Recall(Apart(h, p, a));
    }
    forall a {:trigger PrevOk(w, a)} | a in w.chunks ensures PrevOk(w, a) {
      Recall(PrevOk(h, a));
    }
    forall a, b {:trigger Apart(w, a, b)} | a in w.chunks && Stands(w, b) ensures Apart(w, a, b) {
      Recall(FenceOk(h, b));
      GrowTopApart(h, p, nb, a, b);
    }
    forall r {:trigger PinOk(w, r)} | r in w.pins ensures PinOk(w, r) {
      Recall(PinOk(h, r));
    }
    forall f {:trigger FenceOk(w, f)} | f in w.fences ensures FenceOk(w, f) {
      Recall(FenceOk(h, f));
    }
  }

  lemma GrowTopApart(h: Heap, p: Addr, nb: nat, a: Addr, b: Addr)
    requires CanGrowTop(h, p, nb) && (a in h.chunks || a == p + nb) && (Stands(h, b) || b == p + nb) && a != h.top
    requires b != h.top
    ensures Apart(GrowTop(h, p, nb), a, b)
  {
    Recall(ChunkOk(h, p));
    Recall(Apart(h, a, b));
    Recall(Apart(h, p, b));
    Recall(Apart(h, h.top, b));
    Recall(Apart(h, a, p));
    Recall(Apart(h, h.top, a));
    Recall(Apart(h, a, h.top));
  }
}
