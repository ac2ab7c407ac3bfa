/** Steps composed as the operations of the allocator use them, on well-formed heaps. */
module Layouts {
  import opened Config
  import opened Tiling
  import opened Segments
  import opened Frames
  import opened Stores
  import opened Bins

  /** A block of the client is followed by a chunk, never by a fencepost. */
  lemma NextOfLive(h: Heap, segs: seq<Segment>, least: Addr, p: Addr)
    requires Wf(h, segs, least) && Live(h, p)
    ensures var n := Next(h, p); n in h.chunks && PInUse(h, n) && n !in h.fences && least <= n && p < n
  {
    var n := Next(h, p);
    Recall(ChunkOk(h, p));
    AboveLeast(h, segs, least, n);
    if n in h.fences {
      Recall(Homed(segs, p));
      var k: nat :| k < |segs| && HoldsAddr(segs[k], p);
      Recall(SegmentOk(segs, k, least));
      Recall(Contained(h, segs, k, p));
      Recall(FencePlaced(segs, k, n));
      Recall(RecordOk(h, segs, k));
      Recall(PinOk(h, RecordChunk(segs[k])));
      Recall(Apart(h, p, RecordChunk(segs[k])));
      Recall(Apart(h, RecordChunk(segs[k]), p));
    }
  }

  /** A free chunk is followed by a used one, and so is preceded by one. */
  lemma AfterFree(h: Heap, n: Addr)
    requires Tiled(h) && Free(h, n)
    ensures Used(h, Next(h, n)) && n < Next(h, n) && PInUse(h, n) && !PInUse(h, Next(h, n))
  {
    Recall(ChunkOk(h, n));
    Recall(ChunkOk(h, Next(h, n)));
  }

  lemma PinsUsed(h: Heap, q: Addr)
    requires Tiled(h)
    ensures q in h.pins ==> Used(h, q)
  {
    Recall(PinOk(h, q));
  }

  /** A pinned chunk is not followed by a chunk. */
  lemma FreeNotPinned(h: Heap, n: Addr)
    requires Tiled(h) && Free(h, n)
    ensures n !in h.pins && Next(h, n) !in h.fences
  {
    Recall(PinOk(h, n));
    Recall(ChunkOk(h, n));
    Recall(FenceOk(h, Next(h, n)));
  }

  /** A used chunk and the free chunk behind it become one free chunk. */
  function AbsorbFree(h: Heap, p: Addr): Heap {
    var n := Next(h, p);
    var s := SizeAt(h, p) + SizeAt(h, n);
    h.(chunks := h.chunks - {n}, hd := PutHead(h.hd, p, Head(s, false, true)), ft := Put(h.ft, p + s, s))
  }

  lemma AbsorbFreeWf(h: Heap, segs: seq<Segment>, least: Addr, p: Addr)
    requires Wf(h, segs, least) && Live(h, p) && PInUse(h, p) && Free(h, Next(h, p))
    ensures var n, w := Next(h, p), AbsorbFree(h, p);
      && Wf(w, segs, least) && Free(w, p) && !Chunk(w, n) && Frame(h, w, {p, n})
      && SizeAt(w, p) == SizeAt(h, p) + SizeAt(h, n)
  {
    var n, w := Next(h, p), AbsorbFree(h, p);
    var m := MergeNext(h, p);
    FreeNotPinned(h, n);
    AfterFree(h, n);
    MergeNextWf(h, segs, least, p);
    MergeNextFrame(h, p);
    Recall(SameChunk(h, m, Next(h, n)));
    ReleaseWf(m, segs, least, p);
    ReleaseFrame(m, p);
    assert Release(m, p).hd == w.hd;
    FrameTrans(h, m, Release(m, p), {p, n}, {p});
    assert {p, n} + {p} == {p, n};
  }

  /** A free chunk is cut in two: the low part is used, and the rest is free. */
  function Carve(h: Heap, p: Addr, nb: nat): Heap {
    var s, r := SizeAt(h, p), p + nb;
    var rs := if s >= nb then s - nb else 0;
    h.(chunks := h.chunks + {r}, hd := PutHead(PutHead(h.hd, p, Head(nb, true, true)), r, Head(rs, false, true)),
       ft := Put(h.ft, r + rs, rs))
  }

  lemma CarveWf(h: Heap, segs: seq<Segment>, least: Addr, p: Addr, nb: nat)
    requires Wf(h, segs, least) && Free(h, p) && Aligned(nb) && MIN_CHUNK <= nb && nb + MIN_CHUNK <= SizeAt(h, p)
    ensures var r, w := p + nb, Carve(h, p, nb);
      && Wf(w, segs, least) && Live(w, p) && SizeAt(w, p) == nb && Free(w, r) && SizeAt(w, r) == SizeAt(h, p) - nb
      && !Chunk(h, r) && Frame(h, w, {p, r})
  {
    var r, w := p + nb, Carve(h, p, nb);
    var a := Acquire(h, p);
    var b := Split(a, p, nb);
    AfterFree(h, p);
    AcquireWf(h, segs, least, p);
    AcquireFrame(h, p);
    Recall(SameChunk(h, a, Next(h, p)));
    SplitWf(a, segs, least, p, nb);
    SplitFrame(a, p, nb);
    Recall(SameChunk(a, b, Next(h, p)));
    ReleaseWf(b, segs, least, r);
    ReleaseFrame(b, r);
    assert Release(b, r).hd == w.hd;
    FrameTrans(h, a, b, {p}, {p, r});
    FrameTrans(h, b, w, {p} + {p, r}, {r});
    assert {p} + {p, r} + {r} == {p, r};
  }

  // ---- what the steps that give back a chunk do to the bins, to dv and to the used chunks ----

  ghost predicate FreeOrNull(h: Heap, dv: Addr, dvsize: int) {
    if dv == NULL then dvsize == 0 else Free(h, dv) && SizeAt(h, dv) == dvsize
  }

  ghost predicate Leaves(h: Heap, segs: seq<Segment>, least: Addr, p: Addr, dv: Addr, dvsize: int, t: Table) {
    && Wf(h, segs, least) && Live(h, p) && PInUse(h, p) && Binned(h, {dv}, t)
    && (if dv == p then !InUse(h, Next(h, p)) else FreeOrNull(h, dv, dvsize))
  }

  lemma JoinTopStep(h: Heap, segs: seq<Segment>, least: Addr, p: Addr, dv: Addr, dvsize: int, t: Table, l: Links)
    requires Leaves(h, segs, least, p, dv, dvsize, t) && Next(h, p) == h.top
    ensures var w, dv', dvsize' := MergeTop(h, p), if dv == p then NULL else dv, if dv == p then 0 else dvsize;
      && Wf(w, segs, least) && Binned(w, {dv'}, t) && FreeOrNull(w, dv', dvsize')
      && Spared(Store(h, l), Store(w, l), {p})
  {
    var w := MergeTop(h, p);
    MergeTopWf(h, segs, least, p);
    MergeTopFrame(h, p);
    Recall(ChunkOk(h, NULL));
    assert {p, p} == {p};
    StepEffect(h, w, p, p, {dv}, t, {if dv == p then NULL else dv}, l, dv);
  }

  lemma JoinDvStep(h: Heap, segs: seq<Segment>, least: Addr, p: Addr, dv: Addr, dvsize: int, t: Table, l: Links)
    requires Leaves(h, segs, least, p, dv, dvsize, t) && Next(h, p) == dv && Free(h, dv)
    ensures var w := AbsorbFree(h, p);
      && Wf(w, segs, least) && Binned(w, {p}, t) && FreeOrNull(w, p, SizeAt(h, p) + dvsize)
      && Spared(Store(h, l), Store(w, l), {p})
  {
    var w := AbsorbFree(h, p);
    Recall(ChunkOk(h, p));
    AbsorbFreeWf(h, segs, least, p);
    FreeNotPinned(h, dv);
    StepEffect(h, w, p, dv, {dv}, t, {p}, l, NULL);
  }

  /** The chunk behind p has just been unlinked. */
  lemma JoinNextStep(h: Heap, segs: seq<Segment>, least: Addr, p: Addr, dv: Addr, dvsize: int, t: Table, l: Links)
    requires Wf(h, segs, least) && Live(h, p) && PInUse(h, p) && Free(h, Next(h, p)) && Next(h, p) != dv
    requires Binned(h, {dv, Next(h, p)}, t) && (dv == p || FreeOrNull(h, dv, dvsize))
    ensures var w := AbsorbFree(h, p);
      && Wf(w, segs, least) && Binned(w, {dv, p}, t) && Free(w, p)
      && SizeAt(w, p) == SizeAt(h, p) + SizeAt(h, Next(h, p))
      && (dv != p ==> FreeOrNull(w, dv, dvsize))
      && Spared(Store(h, l), Store(w, l), {p})
  {
    var n, w := Next(h, p), AbsorbFree(h, p);
    AbsorbFreeWf(h, segs, least, p);
    FreeNotPinned(h, n);
    StepEffect(h, w, p, n, {dv, n}, t, {dv, p}, l, dv);
  }

  lemma JoinNoneStep(h: Heap, segs: seq<Segment>, least: Addr, p: Addr, dv: Addr, dvsize: int, t: Table, l: Links)
    requires Leaves(h, segs, least, p, dv, dvsize, t) && Used(h, Next(h, p))
    ensures var w := Release(h, p);
      && Wf(w, segs, least) && Binned(w, {dv, p}, t) && Free(w, p) && SizeAt(w, p) == SizeAt(h, p)
      && FreeOrNull(w, dv, dvsize)
      && Spared(Store(h, l), Store(w, l), {p})
  {
    var w := Release(h, p);
    ReleaseWf(h, segs, least, p);
    ReleaseFrame(h, p);
    assert {p, p} == {p};
    StepEffect(h, w, p, p, {dv}, t, {dv, p}, l, dv);
  }

  /** A used chunk takes in the free chunk in front of it, which has been unlinked unless it is dv. */
  lemma MergePrevStep(h: Heap, segs: seq<Segment>, least: Addr, p: Addr, dv: Addr, dvsize: int, t: Table, l: Links)
    requires Wf(h, segs, least) && Live(h, p) && !PInUse(h, p) && FreeOrNull(h, dv, dvsize)
    requires Binned(h, {dv, p - At(h.ft, p)}, t)
    ensures var q, w := p - At(h.ft, p), MergePrev(h, p);
      && Wf(w, segs, least) && Live(w, q) && PInUse(w, q) && SizeAt(w, q) == SizeAt(h, q) + SizeAt(h, p)
      && Free(h, q) && Next(h, q) == p && q < p && Next(w, q) == Next(h, p) && Binned(w, {dv}, t)
      && (dv != q ==> FreeOrNull(w, dv, dvsize))
      && !Chunk(w, p) && Spared(Store(h, l), Store(w, l), {p, q})
  {
    var q, w := p - At(h.ft, p), MergePrev(h, p);
    MergePrevWf(h, segs, least, p);
    MergePrevFrame(h, p);
    Recall(ChunkOk(h, q));
    Recall(ChunkOk(w, q));
    BinnedStep(h, w, p, q, {dv, q}, t, {dv});
    KeptHeap(h, w, l, {p, q});
    Sparing(Store(h, l), Store(w, l), {p, q}, {p, q});
    Recall(SameChunk(h, w, dv));
  }

  /** dv and the chunk behind it become the new dv. */
  lemma GrowDvStep(h: Heap, segs: seq<Segment>, least: Addr, q: Addr, t: Table, l: Links)
    requires Wf(h, segs, least) && Live(h, q) && PInUse(h, q) && Binned(h, {q}, t) && Used(h, Next(h, q))
    ensures var w := Release(h, q);
      && Wf(w, segs, least) && Binned(w, {q}, t) && FreeOrNull(w, q, SizeAt(h, q))
      && Spared(Store(h, l), Store(w, l), {q})
  {
    var w := Release(h, q);
    Recall(ChunkOk(h, q));
    ReleaseWf(h, segs, least, q);
    ReleaseFrame(h, q);
    assert {q, q} == {q};
    StepEffect(h, w, q, q, {q}, t, {q}, l, NULL);
  }

  // ---- handing out chunks ----

  lemma UseWholeStep(h: Heap, segs: seq<Segment>, least: Addr, p: Addr, out: set<Addr>, t: Table, out': set<Addr>,
                     l: Links, dv: Addr)
    requires Wf(h, segs, least) && Free(h, p) && Binned(h, out, t) && p in out
    requires forall a {:trigger Free(h, a)} | a != p && Free(h, a) :: a in out <==> a in out'
    ensures var w := Acquire(h, p);
      && Wf(w, segs, least) && Live(w, p) && PInUse(w, p) && SizeAt(w, p) == SizeAt(h, p) && Binned(w, out', t)
      && Spared(Store(h, l), Store(w, l), {p})
      && (dv != p && Free(h, dv) ==> Free(w, dv) && SizeAt(w, dv) == SizeAt(h, dv))
  {
    var w := Acquire(h, p);
    AcquireWf(h, segs, least, p);
    AcquireFrame(h, p);
    assert {p, p} == {p};
    StepEffect(h, w, p, p, out, t, out', l, dv);
  }

  lemma UseFrontStep(h: Heap, segs: seq<Segment>, least: Addr, p: Addr, nb: nat, out: set<Addr>, t: Table,
                     out': set<Addr>, l: Links, dv: Addr)
    requires Wf(h, segs, least) && Free(h, p) && Aligned(nb) && MIN_CHUNK <= nb && nb + MIN_CHUNK <= SizeAt(h, p)
    requires Binned(h, out, t) && p in out && p + nb in out'
    requires forall a {:trigger Free(h, a)} | a != p && a != p + nb && Free(h, a) :: a in out <==> a in out'
    ensures var w, r := Carve(h, p, nb), p + nb;
      && Wf(w, segs, least) && Live(w, p) && PInUse(w, p) && SizeAt(w, p) == nb && Free(w, r)
      && SizeAt(w, r) == SizeAt(h, p) - nb
      && Binned(w, out', t) && Spared(Store(h, l), Store(w, l), {p}) && !Chunk(h, r)
      && (dv != p && Free(h, dv) ==> dv != r && Free(w, dv) && SizeAt(w, dv) == SizeAt(h, dv))
  {
    var w, r := Carve(h, p, nb), p + nb;
    CarveWf(h, segs, least, p, nb);
    FreeNotPinned(w, r);
    PinsUsed(h, r);
    StepEffect(h, w, p, r, out, t, out', l, dv);
  }

  lemma UseTopStep(h: Heap, segs: seq<Segment>, least: Addr, nb: nat, out: set<Addr>, t: Table, l: Links, dv: Addr)
    requires Wf(h, segs, least) && CanSplitTop(h, nb) && Aligned(nb) && Binned(h, out, t)
    ensures var w, p := SplitTop(h, nb), h.top;
      && Wf(w, segs, least) && Live(w, p) && PInUse(w, p) && SizeAt(w, p) == nb && SizeAt(w, w.top) == SizeAt(h, p) - nb
      && Binned(w, out, t) && Spared(Store(h, l), Store(w, l), {p})
      && (Free(h, dv) ==> Free(w, dv) && SizeAt(w, dv) == SizeAt(h, dv))
  {
    var w, p := SplitTop(h, nb), h.top;
    SplitTopWf(h, segs, least, nb);
    SplitTopFrame(h, nb);
    assert {p, p} == {p};
    StepEffect(h, w, p, p, out, t, out, l, dv);
  }

  /** A used chunk is cut in two used ones. */
  lemma SplitStep(h: Heap, segs: seq<Segment>, least: Addr, p: Addr, nb: nat, out: set<Addr>, t: Table, l: Links,
                  dv: Addr)
    requires Wf(h, segs, least) && CanSplit(h, p, nb) && Aligned(nb) && Binned(h, out, t)
    ensures var w, r := Split(h, p, nb), p + nb;
      && Wf(w, segs, least) && Live(w, p) && SizeAt(w, p) == nb && PInUse(w, p) == PInUse(h, p)
      && Live(w, r) && PInUse(w, r) && SizeAt(w, r) == SizeAt(h, p) - nb && !Chunk(h, r)
      && Binned(w, out, t) && Spared(Store(h, l), Store(w, l), {p, r})
      && (Free(h, dv) ==> Free(w, dv) && SizeAt(w, dv) == SizeAt(h, dv))
      && SizeAt(w, w.top) == SizeAt(h, h.top)
  {
    var w, r := Split(h, p, nb), p + nb;
    SplitWf(h, segs, least, p, nb);
    SplitFrame(h, p, nb);
    BinnedStep(h, w, p, r, out, t, out);
    KeptHeap(h, w, l, {p, r});
    Sparing(Store(h, l), Store(w, l), {p, r}, {p, r});
    Recall(SameChunk(h, w, dv));
  }

  // ---- changing the size of a used chunk ----

  /** No word of the payload of p up to size n is written by a step that writes heads only at p and behind. */
  lemma SelfUntouched(h: Heap, w: Heap, p: Addr, n: nat, l: Links)
    requires forall a {:trigger HeadAt(w.hd, a)} | p < a < p + n :: HeadAt(w.hd, a) == HeadAt(h.hd, a)
    requires forall x {:trigger At(w.ft, x)} | p + 2 * W <= x < p + n + W :: At(w.ft, x) == At(h.ft, x)
    ensures Untouched(Store(h, l), Store(w, l), p, n)
  {
  }

  lemma GrowTopStep(h: Heap, segs: seq<Segment>, least: Addr, p: Addr, nb: nat, out: set<Addr>, t: Table, l: Links,
                    dv: Addr)
    requires Wf(h, segs, least) && CanGrowTop(h, p, nb) && Aligned(nb) && Binned(h, out, t)
    ensures var w := GrowTop(h, p, nb);
      && Wf(w, segs, least) && Live(w, p) && SizeAt(w, p) == nb
      && SizeAt(w, w.top) == SizeAt(h, p) + SizeAt(h, h.top) - nb
      && Binned(w, out, t) && Spared(Store(h, l), Store(w, l), {p})
      && (Free(h, dv) ==> Free(w, dv) && SizeAt(w, dv) == SizeAt(h, dv))
      && Untouched(Store(h, l), Store(w, l), p, SizeAt(h, p))
  {
    var w := GrowTop(h, p, nb);
    GrowTopWf(h, segs, least, p, nb);
    GrowTopFrame(h, p, nb);
    assert {p, p} == {p};
    StepEffect(h, w, p, p, out, t, out, l, dv);
    SelfUntouched(h, w, p, SizeAt(h, p), l);
  }

  /** A used chunk takes in the free chunk behind it, which has been unlinked or is dv. */
  lemma TakeNextStep(h: Heap, segs: seq<Segment>, least: Addr, p: Addr, out: set<Addr>, t: Table, out': set<Addr>,
                     l: Links, dv: Addr)
    requires Wf(h, segs, least) && Live(h, p) && Free(h, Next(h, p)) && Binned(h, out, t) && Next(h, p) in out
    requires forall a {:trigger Free(h, a)} | a != p && a != Next(h, p) && Free(h, a) :: a in out <==> a in out'
    ensures var n, w := Next(h, p), MergeNext(h, p);
      && Wf(w, segs, least) && Live(w, p) && SizeAt(w, p) == SizeAt(h, p) + SizeAt(h, n) && PInUse(w, p) == PInUse(h, p)
      && Binned(w, out', t) && Spared(Store(h, l), Store(w, l), {p}) && Used(w, Next(h, n)) && n < Next(h, n) && n != p
      && (dv != n && Free(h, dv) ==> Free(w, dv) && SizeAt(w, dv) == SizeAt(h, dv))
      && SizeAt(w, w.top) == SizeAt(h, h.top)
      && Untouched(Store(h, l), Store(w, l), p, SizeAt(h, p))
  {
    var n, w := Next(h, p), MergeNext(h, p);
    Recall(ChunkOk(h, p));
    FreeNotPinned(h, n);
    AfterFree(h, n);
    MergeNextWf(h, segs, least, p);
    MergeNextFrame(h, p);
    Recall(SameChunk(h, w, Next(h, n)));
    StepEffect(h, w, p, n, out, t, out', l, dv);
    SelfUntouched(h, w, p, SizeAt(h, p), l);
  }

  lemma SplitSelf(h: Heap, p: Addr, nb: nat, n: nat, l: Links)
    requires CanSplit(h, p, nb) && n <= nb
    ensures Untouched(Store(h, l), Store(Split(h, p, nb), l), p, n)
  {
    SelfUntouched(h, Split(h, p, nb), p, n, l);
  }

  lemma ReleaseSelfUntouched(h: Heap, p: Addr, r: Addr, n: nat, l: Links)
    requires CanRelease(h, r) && p < r && p + n <= r
    ensures Untouched(Store(h, l), Store(Release(h, r), l), p, n)
  {
    Recall(ChunkOk(h, r));
    SelfUntouched(h, Release(h, r), p, n, l);
  }

  /** A used chunk takes in the used chunk behind it. */
  lemma JoinUsedStep(h: Heap, segs: seq<Segment>, least: Addr, p: Addr, out: set<Addr>, t: Table, l: Links, dv: Addr)
    requires Wf(h, segs, least) && Live(h, p) && Live(h, Next(h, p)) && Binned(h, out, t)
    ensures var n, w := Next(h, p), MergeNext(h, p);
      && Wf(w, segs, least) && Live(w, p) && SizeAt(w, p) == SizeAt(h, p) + SizeAt(h, n) && !Live(w, n) && n != p
      && PInUse(h, Next(h, n)) && Binned(w, out, t) && SpareLive(Store(h, l), Store(w, l), {p, n})
      && (Free(h, dv) ==> Free(w, dv) && SizeAt(w, dv) == SizeAt(h, dv)) && SizeAt(w, w.top) == SizeAt(h, h.top)
  {
    var n, w := Next(h, p), MergeNext(h, p);
    Recall(ChunkOk(h, p));
    Recall(ChunkOk(h, n));
    MergeNextWf(h, segs, least, p);
    MergeNextFrame(h, p);
    BinnedStep(h, w, p, n, out, t, out);
    KeptHeap(h, w, l, {p, n});
    KeptLive(Store(h, l), Store(w, l), {p, n}, {p, n});
    Recall(SameChunk(h, w, dv));
  }

  /** Two operations of which the second ends the use of q that the first has begun. */
  lemma SparedVia(s: Store, y: Store, z: Store, p: Addr, q: Addr)
    requires Spared(s, y, {p, q}) && Spared(y, z, {q}) && p != q && Tiled(s.h) && Tiled(z.h) && !Used(s.h, q)
    requires !Used(z.h, q)
    ensures Spared(s, z, {p})
    ensures (Used(z.h, p) <==> Used(y.h, p)) && (Live(z.h, p) <==> Live(y.h, p))
    ensures (Used(y.h, p) ==> SizeAt(z.h, p) == SizeAt(y.h, p))
  {
    SparedTrans(s, y, z, {p, q}, {q});
    Recall(SameUse(y, z, p));
    PinsUsed(s.h, q);
    PinsUsed(z.h, q);
    SparedBetween(s, z, {p, q} + {q}, {p});
  }

  /** A used chunk takes in the free chunk behind it and is cut. */
  lemma TakeCutStep(h: Heap, segs: seq<Segment>, least: Addr, p: Addr, nb: nat, t: Table, l: Links)
    requires Wf(h, segs, least) && Live(h, p) && Free(h, Next(h, p)) && Binned(h, {Next(h, p)}, t)
    requires Aligned(nb) && MIN_CHUNK <= nb && SizeAt(h, p) < nb
    requires nb + MIN_CHUNK <= SizeAt(h, p) + SizeAt(h, Next(h, p))
    ensures var n, r, c := Next(h, p), p + nb, Split(MergeNext(h, p), p, nb);
      && Wf(c, segs, least) && Binned(c, {NULL}, t) && Live(c, p) && SizeAt(c, p) == nb && !Used(h, r) && r > p
      && Live(c, r) && PInUse(c, r) && SizeAt(c, r) == SizeAt(h, p) + SizeAt(h, n) - nb && Used(c, Next(c, r))
      && Spared(Store(h, l), Store(c, l), {p, r}) && Untouched(Store(h, l), Store(c, l), p, SizeAt(h, p))
      && SizeAt(c, c.top) == SizeAt(h, h.top)
  {
    var n, m, r := Next(h, p), MergeNext(h, p), p + nb;
    Recall(ChunkOk(h, NULL));
    TakeNextStep(h, segs, least, p, {n}, t, {NULL}, l, NULL);
    var c := Split(m, p, nb);
    SplitStep(m, segs, least, p, nb, {NULL}, t, l, NULL);
    SplitSelf(m, p, nb, SizeAt(h, p), l);
    Recall(SameUse(Store(m, l), Store(c, l), Next(h, n)));
    Recall(SameUse(Store(h, l), Store(m, l), r));
    UntouchedTrans(Store(h, l), Store(m, l), Store(c, l), p, SizeAt(h, p));
    SparedTrans(Store(h, l), Store(m, l), Store(c, l), {p}, {p, r});
    assert {p} + {p, r} == {p, r};
  }

  lemma PutTwice(m: Heads, a: Addr, x: Head, y: Head)
    ensures PutHead(PutHead(m, a, x), a, y) == PutHead(m, a, y)
  {
  }

  lemma PutSwap(m: Heads, a: Addr, b: Addr, x: Head, y: Head)
    requires a != b
    ensures PutHead(PutHead(m, a, x), b, y) == PutHead(PutHead(m, b, y), a, x)
  {
  }

  lemma HeadPut(m: Heads, a: Addr, x: Head, b: Addr)
    ensures HeadAt(PutHead(m, a, x), b) == if a == b then x else HeadAt(m, b)
  {
  }

  /** The head words that are written when a used chunk takes in its successor, is cut at r, and its rest is
      released, and those that try_realloc_chunk writes for that. */
  lemma CutHeads(hd: Heads, p: Addr, r: Addr, e: Addr, s: nat, nb: nat, dsize: nat)
    requires p != r && r != e && p != e && HeadAt(hd, p).cinuse
    ensures var m := SetPInUse(PutHead(hd, p, HeadAt(hd, p).(size := s)), e, true);
      var c := PutHead(PutHead(m, p, HeadAt(m, p).(size := nb)), r, Head(dsize, true, true));
      var u := SetPInUse(PutHead(hd, p, Head(nb, true, HeadAt(hd, p).pinuse)), r, true);
      SetPInUse(PutHead(c, r, Head(dsize, false, true)), e, false)
      == SetPInUse(PutHead(u, r, Head(dsize, false, true)), e, false)
  {
    hide PutHead, HeadAt;
    var big, low, rest := HeadAt(hd, p).(size := s), Head(nb, true, HeadAt(hd, p).pinuse), Head(dsize, false, true);
    var set1, x := HeadAt(hd, e).(pinuse := true), PutHead(hd, p, low);
    HeadPut(hd, p, big, e);
    HeadPut(hd, p, big, p);
    HeadPut(PutHead(hd, p, big), e, set1, p);
    var m := PutHead(PutHead(hd, p, big), e, set1);
    PutSwap(PutHead(hd, p, big), e, p, set1, low);
    PutTwice(hd, p, big, low);
    var y := PutHead(x, e, set1);
    var z := PutHead(x, r, rest);
    assert PutHead(m, p, HeadAt(m, p).(size := nb)) == y;
    PutTwice(y, r, Head(dsize, true, true), rest);
    PutSwap(x, e, r, set1, rest);
    HeadPut(z, e, set1, e);
    HeadPut(x, r, rest, e);
    HeadPut(hd, p, low, e);
    PutTwice(z, e, set1, HeadAt(hd, e).(pinuse := false));
    PutTwice(x, r, HeadAt(x, r).(pinuse := true), rest);
  }
}
