/** malloc_state and the operations that move memory between used and free chunks. */
module Mstate {
  import opened Config
  import opened Tiling
  import opened Segments
  import opened Frames
  import opened Layouts
  import opened Stores
  import opened Choices
  import opened Regions
  import opened Dropping
  import opened Systems
  import opened Alignments
  import opened Pointers
  import BinMaps
  import Prefixes
  import TrieSearch
  import B = Bins

  /** The words of all chunks, and the chunks that are in no bin. */
  datatype State = State(hd: Heads, ft: Words, dv: Addr, dvsize: nat, top: Addr, topsize: nat)

  /** set_inuse */
  function SetInUse(m: State, p: Addr, s: nat): State {
    m.(hd := SetPInUse(PutHead(m.hd, p, Head(s, true, HeadAt(m.hd, p).pinuse)), p + s, true))
  }

  /** set_inuse_and_pinuse */
  function SetInUseAndPInUse(m: State, p: Addr, s: nat): State {
    m.(hd := SetPInUse(PutHead(m.hd, p, Head(s, true, true)), p + s, true))
  }

  /** set_size_and_pinuse_of_inuse_chunk */
  function SetUsed(m: State, p: Addr, s: nat): State {
    m.(hd := PutHead(m.hd, p, Head(s, true, true)))
  }

  /** set_size_and_pinuse_of_free_chunk */
  function SetFree(m: State, p: Addr, s: nat): State {
    m.(hd := PutHead(m.hd, p, Head(s, false, true)), ft := Put(m.ft, p + s, s))
  }

  /** set_free_with_pinuse */
  function SetFreeWithPInUse(m: State, p: Addr, s: nat, n: Addr): State {
    SetFree(m.(hd := SetPInUse(m.hd, n, false)), p, s)
  }

  /** Writing the head of a chunk that was about to be written anyway. */
  lemma Overwritten(m: State, h: Heap, p: Addr, s: nat, x: Head)
    requires PutHead(m.hd, p, Head(s, true, true)) == h.hd
    ensures PutHead(m.hd, p, x) == PutHead(h.hd, p, x)
    ensures forall a | a != p :: HeadAt(m.hd, a) == HeadAt(h.hd, a)
  {
    assert PutHead(h.hd, p, x) == PutHead(PutHead(m.hd, p, Head(s, true, true)), p, x);
    forall a | a != p ensures HeadAt(m.hd, a) == HeadAt(h.hd, a) {
      assert HeadAt(h.hd, a) == HeadAt(PutHead(m.hd, p, Head(s, true, true)), a);
    }
  }

  lemma ReleaseWritten(m: State, h: Heap, p: Addr, s: nat)
    requires PutHead(m.hd, p, Head(s, true, true)) == h.hd && m.ft == h.ft && SizeAt(h, p) == s > 0
    ensures var n := SetFreeWithPInUse(m, p, s, p + s); n.hd == Release(h, p).hd && n.ft == Release(h, p).ft
  {
    var x := Head(s, false, true);
    Overwritten(m, h, p, s, x);
    assert PutHead(SetPInUse(m.hd, p + s, false), p, x) == SetPInUse(PutHead(m.hd, p, x), p + s, false);
  }

  /** Where chunks, fenceposts and segment records are. */
  datatype Layout = Layout(chunks: set<Addr>, fences: set<Addr>, pins: set<Addr>)

  /** What became of a chunk that was given back: it has been merged into dv or top, or it is still to be binned. */
  datatype Outcome = Settled | ToTop | Loose(size: nat)

  datatype System = System(
    segs: seq<Segment>,        // the segment list; its head is the record inside malloc_state
    least: Addr,               // least_addr
    footprint: nat, maxFootprint: nat, limit: nat,
    contiguous: bool,          // MORECORE is still expected to extend the heap contiguously
    trimCheck: nat, releaseChecks: nat)

  /** init_top */
  function InitTop(s: State, p: nat, psize: nat): State
    requires psize >= AlignUp(p) - p
  {
    var q, qsize := AlignUp(p), psize - (AlignUp(p) - p);
    s.(top := q, topsize := qsize, hd := PutHead(PutHead(s.hd, q, Head(qsize, false, true)), q + qsize, TAIL))
  }

  /** Segments from MMAP have a granular size, and there is none as long as MORECORE is used contiguously. */
  ghost predicate MappedOk(s: System, k: nat) {
    k < |s.segs| && s.segs[k].mmapped ==> Granular(s.segs[k].size) && !s.contiguous
  }

  /** The books of malloc_state: the footprint is what the segments take. */
  ghost predicate Accounted(s: System) {
    && s.footprint == Total(s.segs) && s.footprint <= s.maxFootprint && s.footprint < MOD
    && forall k: nat {:trigger MappedOk(s, k)} :: MappedOk(s, k)
  }

  /** The books after one segment has grown by new memory, or a new one has come. */
  lemma AccountGrown(s: System, z: System, size: nat, mmapped: bool, k: nat, base: Addr)
    requires Accounted(s) && Grantable(s.segs, base, size) && (mmapped ==> Granular(size) && !s.contiguous)
    requires z.contiguous == s.contiguous && z.footprint == s.footprint + size <= z.maxFootprint
    requires k < |s.segs| && s.segs[k].mmapped == mmapped && |z.segs| == |s.segs|
    requires z.segs[k].size == s.segs[k].size + size && z.segs[k].mmapped == mmapped && z.segs == s.segs[k := z.segs[k]]
    ensures Accounted(z)
  {
    TotalUpdate(s.segs, k, z.segs[k]);
    forall j: nat {:trigger MappedOk(z, j)} ensures MappedOk(z, j) {
      Recall(MappedOk(s, j));
      if j == k && mmapped {
        GranularSum(s.segs[k].size, size);
      }
    }
  }

  lemma AccountPushed(s: System, z: System, seg: Segment, c: Addr)
    requires Accounted(s) && Grantable(s.segs, seg.base, seg.size)
    requires (seg.mmapped ==> Granular(seg.size) && !s.contiguous)
    requires z.contiguous == s.contiguous && z.footprint == s.footprint + seg.size <= z.maxFootprint
    requires if s.segs == [] then z.segs == [seg] else z.segs == Pushed(s.segs, c, seg)
    ensures Accounted(z)
  {
    if s.segs == [] {
      assert Total(z.segs) == seg.size;
    } else {
      TotalPushed(s.segs, c, seg);
    }
    forall j: nat {:trigger MappedOk(z, j)} ensures MappedOk(z, j) {
      if j > 0 {
        Recall(MappedOk(s, j - 1));
      }
    }
  }

  lemma AccountSame(s: System, z: System)
    requires Accounted(s) && z.segs == s.segs && z.contiguous == s.contiguous
    requires z.footprint == s.footprint && z.maxFootprint == s.maxFootprint
    ensures Accounted(z)
  {
    forall j: nat {:trigger MappedOk(z, j)} ensures MappedOk(z, j) {
      Recall(MappedOk(s, j));
    }
  }

  lemma AccountedSize(s: System, n: nat)
    requires Accounted(s) && |s.segs| > 0 && n <= s.segs[0].size
    ensures n <= s.footprint
  {
    TotalAt(s.segs, 0);
  }

  /** The books after segment k has gone. */
  lemma AccountDropped(s: System, z: System, k: nat)
    requires Accounted(s) && k < |s.segs| && z.segs == Dropped(s.segs, k)
    requires z.contiguous == s.contiguous && z.footprint == s.footprint - s.segs[k].size <= z.maxFootprint
    ensures Accounted(z)
  {
    TotalAt(s.segs, k);
    TotalConcat(s.segs[..k], s.segs[k + 1..]);
    forall j: nat {:trigger MappedOk(z, j)} ensures MappedOk(z, j) {
      Recall(MappedOk(s, OldIndex(k, j)));
    }
  }

  /** The books after the current segment has lost n bytes. */
  lemma AccountTrimmed(s: System, z: System, n: nat)
    requires Accounted(s) && |s.segs| > 0 && n <= s.segs[0].size && z.segs == Resized(s.segs, s.segs[0].size - n)
    requires z.contiguous == s.contiguous && z.footprint == s.footprint - n <= z.maxFootprint
    requires s.segs[0].mmapped ==> Granular(n)
    ensures Accounted(z)
  {
    TotalUpdate(s.segs, 0, z.segs[0]);
    forall j: nat {:trigger MappedOk(z, j)} ensures MappedOk(z, j) {
      Recall(MappedOk(s, j));
      if j == 0 && s.segs[0].mmapped {
        GranularSum(s.segs[0].size, n);
      }
    }
  }

  const NONE: set<Addr> := {}

  class Mstate {
    var st: State
    var sys: System
    var data: Words                  // what the client has stored, by byte address
    ghost var lay: Layout
    const bins: B.Bins

    /** The zero-initialized malloc_state.  limit is the footprint limit; 0 means none. */
    constructor (st: State, links: B.Links, limit: nat)
      requires st.top == st.dv == NULL && st.topsize == st.dvsize == 0
      ensures this.st == st && sys.segs == [] && sys.limit == limit && Blocks(H()) == map[]
      ensures Valid() && fresh(bins) && fresh(bins.small) && fresh(bins.large)
    {
      this.st := st;
      sys := System([], 0, 0, 0, limit, true, 0, 0);
      data := imap[];
      lay := Layout({}, {}, {});
      bins := new B.Bins(links);
      new;
      Granules();
    }

    ghost function H(): Heap
      reads this
    {
      Heap(lay.chunks, lay.fences, lay.pins, st.hd, st.ft, st.top)
    }

    ghost function Image(): Store
      reads this, bins, bins.small, bins.large
    {
      Store(H(), bins.Fields())
    }

    /** st.dv is null, or a free chunk that is in no bin. */
    ghost predicate DvOk(h: Heap)
      reads this
    {
      FreeOrNull(h, st.dv, st.dvsize)
    }

    ghost predicate Running(h: Heap)
      reads this
    {
      Wf(h, sys.segs, sys.least) && h.top == st.top && SizeAt(h, st.top) == st.topsize
    }

    /** The bins hold the free chunks that are not in out. */
    ghost predicate Filled(h: Heap, out: set<Addr>)
      reads this, bins, bins.small, bins.large
    {
      bins.Valid() && Binned(h, out, bins.Content())
    }

    /** Sizes in memory are those in the bins. */
    lemma Backed(h: Heap, out: set<Addr>, hd: Heads)
      requires Wf(h, sys.segs, sys.least) && Binned(h, out, bins.Content())
      requires forall p | p !in out && Free(h, p) :: HeadAt(hd, p).size == SizeAt(h, p)
      ensures bins.Backed(hd, sys.least)
    {
      var t := bins.Content();
      forall p {:trigger p in t} | p in t ensures HeadAt(hd, p).size == t[p] && sys.least <= p {
        Recall(BinnedAt(h, out, t, p));
        AboveLeast(h, sys.segs, sys.least, p);
      }
      Recall(SegmentOk(sys.segs, 0, sys.least));
    }

    // ---- giving a chunk back ----

    /** The used chunk p of size psize is about to be free, and t is what the bins hold.  The head of p
        itself need not say that it is used. */
    ghost predicate Leaving(h: Heap, p: Addr, psize: nat, t: B.Table)
      reads this
    {
      && Running(h) && SizeAt(h, p) == psize && Leaves(h, sys.segs, sys.least, p, st.dv, st.dvsize, t)
      && st.ft == h.ft && PutHead(st.hd, p, Head(psize, true, true)) == h.hd
      && lay == Layout(h.chunks, h.fences, h.pins)
    }

    /** p has been given back, and the bins that hold t need not change except for p itself. */
    ghost predicate Left(p: Addr, t: B.Table, how: Outcome)
      reads this
    {
      && Running(H()) && DvOk(H()) && !Used(H(), p)
      && if how.Loose? then p != st.dv && Free(H(), p) && SizeAt(H(), p) == how.size && Binned(H(), {st.dv, p}, t)
         else Binned(H(), {st.dv}, t)
    }

    /** Consolidation with the next chunk, as in free, dispose_chunk and prepend_alloc. */
    method ConsolidateForward(p: Addr, psize: nat, ghost h: Heap) returns (how: Outcome)
      requires bins.Valid() && Leaving(h, p, psize, bins.Content())
      modifies this`st, this`lay, bins.small, bins.large
      ensures bins.Valid() && Left(p, bins.Content(), how)
      ensures Spared(Store(h, old(bins.Fields())), Image(), {p})
    {
      hide B.Bins.Valid, B.Bins.Content, B.Bins.Fields;
      var next := p + psize;
      ghost var t, l := bins.Content(), bins.Fields();
      NextOfLive(h, sys.segs, sys.least, p);
      if sys.least <= next && p < next && HeadAt(st.hd, next).pinuse {       // RTCHECK
        if !HeadAt(st.hd, next).cinuse {
          if next == st.top {
            how := ToTop;
            JoinTop(p, psize, h, t, l);
          } else if next == st.dv {
            how := Settled;
            JoinDv(p, psize, h, t, l);
          } else {
            how := JoinNext(p, psize, h);
          }
        } else {
          JoinNone(p, psize, h, t, l);
          how := Outcome.Loose(psize);
        }
      } else {
        assert false;
      }
    }

    /** The chunk becomes the low end of top. */
    method JoinTop(p: Addr, psize: nat, ghost h: Heap, ghost t: B.Table, ghost l: B.Links)
      requires Leaving(h, p, psize, t) && p + psize == st.top
      modifies this`st, this`lay
      ensures Left(p, t, ToTop) && Spared(Store(h, l), Store(H(), l), {p})
    {
      JoinTopStep(h, sys.segs, sys.least, p, st.dv, st.dvsize, t, l);
      Overwritten(st, h, p, psize, Head(st.topsize + psize, false, true));
      var tsize := st.topsize + psize;
      lay := lay.(chunks := lay.chunks - {st.top});
      st := st.(topsize := tsize, top := p, hd := PutHead(st.hd, p, Head(tsize, false, true)));
      if p == st.dv {
        st := st.(dv := NULL, dvsize := 0);
      }
      assert H() == MergeTop(h, p);
    }

    /** The chunk and dv become the new dv. */
    method JoinDv(p: Addr, psize: nat, ghost h: Heap, ghost t: B.Table, ghost l: B.Links)
      requires Leaving(h, p, psize, t) && p + psize == st.dv && Free(h, st.dv)
      modifies this`st, this`lay
      ensures Left(p, t, Settled) && Spared(Store(h, l), Store(H(), l), {p})
    {
      Recall(ChunkOk(h, p));
      JoinDvStep(h, sys.segs, sys.least, p, st.dv, st.dvsize, t, l);
      Overwritten(st, h, p, psize, Head(st.dvsize + psize, false, true));
      lay := lay.(chunks := lay.chunks - {st.dv});
      var dsize := st.dvsize + psize;
      st := SetFree(st.(dvsize := dsize, dv := p), p, dsize);
      assert H() == AbsorbFree(h, p);
    }

    /** The chunk and the binned chunk behind it become one free chunk. */
    method JoinNext(p: Addr, psize: nat, ghost h: Heap) returns (how: Outcome)
      requires bins.Valid() && Leaving(h, p, psize, bins.Content()) && p + psize != st.dv && Free(h, p + psize)
      modifies this`st, this`lay, bins.small, bins.large
      ensures bins.Valid() && Left(p, bins.Content(), how)
      ensures Spared(Store(h, old(bins.Fields())), Image(), {p})
    {
      hide B.Bins.Valid, B.Bins.Content, B.Bins.Fields;
      ghost var l := bins.Fields();
      Overwritten(st, h, p, psize, FENCE);
      var nsize := HeadAt(st.hd, p + psize).size;
      UnlinkFree(h, p + psize, nsize);
      how := Absorb(p, psize, nsize, h, bins.Content(), bins.Fields());
      SparedTrans(Store(h, l), Store(h, bins.Fields()), Image(), {}, {p});
      assert {} + {p} == {p};
    }

    /** set_size_and_pinuse_of_free_chunk(p, psize + nsize) */
    method Absorb(p: Addr, psize: nat, nsize: nat, ghost h: Heap, ghost t: B.Table,
                  ghost l: B.Links) returns (how: Outcome)
      requires Running(h) && Live(h, p) && PInUse(h, p) && SizeAt(h, p) == psize
      requires Free(h, p + psize) && p + psize != st.dv && SizeAt(h, p + psize) == nsize
      requires st.ft == h.ft && PutHead(st.hd, p, Head(psize, true, true)) == h.hd
      requires lay == Layout(h.chunks, h.fences, h.pins)
      requires Binned(h, {st.dv, p + psize}, t) && (st.dv == p || DvOk(h))
      modifies this`st, this`lay
      ensures Left(p, t, how) && Spared(Store(h, l), Store(H(), l), {p})
    {
      Recall(ChunkOk(h, p));
      JoinNextStep(h, sys.segs, sys.least, p, st.dv, st.dvsize, t, l);
      Overwritten(st, h, p, psize, Head(psize + nsize, false, true));
      lay := lay.(chunks := lay.chunks - {p + psize});
      st := SetFree(st, p, psize + nsize);
      assert H() == AbsorbFree(h, p);
      if p == st.dv {
        st := st.(dvsize := psize + nsize);
        how := Settled;
        assert {st.dv, p} == {st.dv};
      } else {
        how := Outcome.Loose(psize + nsize);
      }
    }

    /** unlink_chunk(m, n, nsize) */
    method UnlinkFree(ghost h: Heap, n: Addr, nsize: nat)
      requires Running(h) && Filled(h, {st.dv}) && Free(h, n) && n != st.dv && SizeAt(h, n) == nsize
      requires forall p {:trigger Free(h, p)} | Free(h, p) && p != st.dv :: HeadAt(st.hd, p).size == SizeAt(h, p)
      modifies bins.small, bins.large
      ensures Filled(h, {st.dv, n})
      ensures Spared(Store(h, old(bins.Fields())), Store(h, bins.Fields()), {})
    {
      hide B.Bins.Valid, B.Bins.Content, B.Bins.Fields, B.Bins.Backed;
      ghost var t := bins.Content();
      Recall(BinnedAt(h, {st.dv}, t, n));
      Recall(ChunkOk(h, n));
      Backed(h, {st.dv}, st.hd);
      bins.UnlinkChunk(st.hd, sys.least, n, nsize);
      BinnedCut(h, {st.dv}, t, n, {st.dv, n});
      KeptLinks(h, {st.dv}, t, old(bins.Fields()), bins.Fields());
      Sparing(Store(h, old(bins.Fields())), Store(h, bins.Fields()), {}, {});
    }

    /** Nothing to consolidate. */
    method JoinNone(p: Addr, psize: nat, ghost h: Heap, ghost t: B.Table, ghost l: B.Links)
      requires Leaving(h, p, psize, t) && Used(h, p + psize)
      modifies this`st
      ensures st.dv == old(st.dv) && st.topsize == old(st.topsize) && Left(p, t, Outcome.Loose(psize))
      ensures Spared(Store(h, l), Store(H(), l), {p})
    {
      Recall(ChunkOk(h, p));
      JoinNoneStep(h, sys.segs, sys.least, p, st.dv, st.dvsize, t, l);
      ReleaseWritten(st, h, p, psize);
      st := SetFreeWithPInUse(st, p, psize, p + psize);
      assert H() == Release(h, p);
    }
  
    /** Between operations, once there is memory: all structures agree. */
    ghost predicate Ready()
      reads this, bins, bins.small, bins.large
    {
      st.top != NULL && Running(H()) && DvOk(H()) && Filled(H(), {st.dv})
    }

    /** Consolidation with both neighbours, as in free and dispose_chunk: the result starts at q. */
    method Coalesce(p: Addr, psize: nat) returns (how: Outcome, q: Addr)
      requires Ready() && Live(H(), p) && SizeAt(H(), p) == psize
      modifies this`st, this`lay, bins.small, bins.large
      ensures bins.Valid() && Left(q, bins.Content(), how)
      ensures Spared(old(Image()), Image(), {p}) && !Used(H(), p)
    {
      ghost var h := H();
      Recall(ChunkOk(h, p));
      if !HeadAt(st.hd, p).pinuse {
        assert HeadAt(st.hd, p).cinuse;             // not a directly mapped chunk
        how, q := CoalesceBack(p, psize);
      } else {
        q := p;
        assert PutHead(st.hd, p, Head(psize, true, true)) == st.hd;
        how := ConsolidateForward(p, psize, h);
      }
    }

    /** The chunk in front is free. */
    method CoalesceBack(p: Addr, psize: nat) returns (how: Outcome, q: Addr)
      requires Ready() && Live(H(), p) && SizeAt(H(), p) == psize && !PInUse(H(), p)
      modifies this`st, this`lay, bins.small, bins.large
      ensures bins.Valid() && Left(q, bins.Content(), how)
      ensures Spared(old(Image()), Image(), {p}) && !Used(H(), p)
    {
      hide B.Bins.Valid, B.Bins.Content, B.Bins.Fields;
      ghost var h, l := H(), bins.Fields();
      var prevsize: int := At(st.ft, p);
      q := p - prevsize;
      PrevFacts(h, p);
      if sys.least <= q {                           // RTCHECK(ok_address(m, prev))
        if q != st.dv {
          UnlinkFree(h, q, prevsize);
        } else {
          assert {st.dv, q} == {st.dv};
          SparedRefl(Store(h, l));
        }
        ghost var m := bins.Fields();
        how := MergeBack(p, psize, q, prevsize, bins.Content());
        SparedTrans(Store(h, l), Store(h, m), Image(), {}, {p});
        assert {} + {p} == {p};
      } else {
        assert false;
      }
    }

    /** The chunk in front has been unlinked, unless it is dv. */
    method MergeBack(p: Addr, psize: nat, q: Addr, prevsize: nat, ghost t: B.Table) returns (how: Outcome)
      requires Running(H()) && DvOk(H()) && bins.Valid() && t == bins.Content() && Binned(H(), {st.dv, q}, t)
      requires Live(H(), p) && SizeAt(H(), p) == psize && !PInUse(H(), p) && At(st.ft, p) == prevsize
      requires q == p - prevsize
      modifies this`st, this`lay, bins.small, bins.large
      ensures bins.Valid() && Left(q, bins.Content(), how)
      ensures Spared(old(Image()), Image(), {p}) && !Used(H(), p)
    {
      hide B.Bins.Valid, B.Bins.Content, B.Bins.Fields;
      var next := p + psize;
      ghost var h, w, l := H(), MergePrev(H(), p), bins.Fields();
      PrevFacts(h, p);
      MergePrevStep(h, sys.segs, sys.least, p, st.dv, st.dvsize, t, l);
      lay := lay.(chunks := w.chunks);
      if q == st.dv && HeadAt(st.hd, next).cinuse && HeadAt(st.hd, next).pinuse {
        GrowDv(q, psize + prevsize, w, t, l);
        how := Settled;
      } else {
        how := ConsolidateForward(q, psize + prevsize, w);
      }
      SparedTrans(Store(h, l), Store(w, l), Image(), {p, q}, {q});
      Recall(SameUse(Store(w, l), Image(), p));
      PinsUsed(H(), q);
      SparedBetween(Store(h, l), Image(), {p, q} + {q}, {p});
    }

    lemma PrevFacts(h: Heap, p: Addr)
      requires Running(h) && Live(h, p) && !PInUse(h, p)
      ensures var q := p - At(h.ft, p);
        && Free(h, q) && SizeAt(h, q) == At(h.ft, p) && q !in h.pins && sys.least <= q && q < p < Next(h, p)
        && Next(h, p) in h.chunks && PInUse(h, Next(h, p)) && (InUse(h, Next(h, p)) ==> Used(h, Next(h, p)))
    {
      Recall(PrevOk(h, p));
      Recall(ChunkOk(h, p - At(h.ft, p)));
      FreeNotPinned(h, p - At(h.ft, p));
      AboveLeast(h, sys.segs, sys.least, p - At(h.ft, p));
      NextOfLive(h, sys.segs, sys.least, p);
    }

    /** dv takes in the chunk behind it. */
    method GrowDv(q: Addr, dsize: nat, ghost h: Heap, ghost t: B.Table, ghost l: B.Links)
      requires Running(h) && Live(h, q) && PInUse(h, q) && SizeAt(h, q) == dsize && q == st.dv && Binned(h, {q}, t)
      requires Used(h, q + dsize)
      requires st.ft == h.ft && PutHead(st.hd, q, Head(dsize, true, true)) == h.hd
      requires lay == Layout(h.chunks, h.fences, h.pins)
      modifies this`st
      ensures Left(q, t, Settled) && Spared(Store(h, l), Store(H(), l), {q})
    {
      Recall(ChunkOk(h, q));
      GrowDvStep(h, sys.segs, sys.least, q, t, l);
      ReleaseWritten(st, h, q, dsize);
      st := SetFreeWithPInUse(st.(dvsize := dsize), q, dsize, q + dsize);
      assert H() == Release(h, q);
    }
  
    /** insert_chunk(m, p, s) for a free chunk that is in no bin */
    method InsertFree(p: Addr, s: nat)
      requires Running(H()) && Filled(H(), {st.dv, p}) && Free(H(), p) && SizeAt(H(), p) == s && p != st.dv
      modifies bins.small, bins.large
      ensures Filled(H(), {st.dv}) && Spared(old(Image()), Image(), {})
    {
      hide B.Bins.Valid, B.Bins.Content, B.Bins.Fields, B.Bins.Backed;
      ghost var h, t, l := H(), bins.Content(), bins.Fields();
      ChunkAligned(h, p);
      AboveLeast(h, sys.segs, sys.least, p);
      Backed(h, {st.dv, p}, st.hd);
      BinnedPut(h, {st.dv, p}, t, p, {st.dv});
      bins.InsertChunk(st.hd, sys.least, p, s);
      KeptLinks(h, {st.dv}, bins.Content(), l, bins.Fields());
      Sparing(Store(h, l), Image(), {}, {});
    }

    /** Consolidation with the next chunk, and into a bin. */
    method SettleForward(p: Addr, psize: nat, ghost h: Heap)
      requires bins.Valid() && Leaving(h, p, psize, bins.Content())
      modifies this`st, this`lay, bins.small, bins.large
      ensures Ready() && Spared(Store(h, old(bins.Fields())), Image(), {p}) && !Used(H(), p)
    {
      hide B.Bins.Valid, B.Bins.Content, B.Bins.Fields;
      ghost var s := Store(h, bins.Fields());
      var how := ConsolidateForward(p, psize, h);
      if how.Loose? {
        ghost var y := Image();
        InsertFree(p, how.size);
        SparedTrans(s, y, Image(), {p}, {});
        assert {p} + {} == {p};
      }
    }

    /** dispose_chunk */
    method DisposeChunk(p: Addr, psize: nat)
      requires Ready() && Live(H(), p) && SizeAt(H(), p) == psize
      modifies this`st, this`lay, bins.small, bins.large
      ensures Ready() && Spared(old(Image()), Image(), {p}) && !Used(H(), p)
    {
      hide B.Bins.Valid, B.Bins.Content, B.Bins.Fields;
      ghost var s := Image();
      var how, q := Coalesce(p, psize);
      if how.Loose? {
        ghost var y := Image();
        InsertFree(q, how.size);
        SparedTrans(s, y, Image(), {p}, {});
        assert {p} + {} == {p};
      }
    }

    // ---- handing out a chunk ----

    /** set_inuse_and_pinuse for a chunk that has just been unlinked */
    method UseWhole(p: Addr, s: nat, ghost t: B.Table, ghost l: B.Links)
      requires Running(H()) && DvOk(H()) && Free(H(), p) && p != st.dv && SizeAt(H(), p) == s
      requires Binned(H(), {st.dv, p}, t)
      modifies this`st
      ensures Running(H()) && DvOk(H()) && Live(H(), p) && PInUse(H(), p) && SizeAt(H(), p) == s
      ensures Binned(H(), {st.dv}, t)
      ensures Spared(Store(old(H()), l), Store(H(), l), {p})
    {
      ghost var h := H();
      UseWholeStep(h, sys.segs, sys.least, p, {st.dv, p}, t, {st.dv}, l, st.dv);
      Recall(ChunkOk(h, p));
      st := SetInUseAndPInUse(st, p, s);
      assert H() == Acquire(h, p);
    }

    /** The low part of a chunk that has just been unlinked is used; the rest stays free. */
    method UseFront(p: Addr, nb: nat, rsize: nat, ghost t: B.Table, ghost l: B.Links)
      requires Running(H()) && DvOk(H()) && Free(H(), p) && p != st.dv && SizeAt(H(), p) == nb + rsize
      requires Binned(H(), {st.dv, p}, t)
      requires Aligned(nb) && MIN_CHUNK <= nb && MIN_CHUNK <= rsize
      modifies this`st, this`lay
      ensures st.dv == old(st.dv) && st.dvsize == old(st.dvsize) && Running(H()) && DvOk(H())
      ensures Live(H(), p) && PInUse(H(), p) && SizeAt(H(), p) == nb && Free(H(), p + nb)
      ensures SizeAt(H(), p + nb) == rsize
      ensures p + nb != st.dv && Binned(H(), {st.dv, p + nb}, t)
      ensures Spared(Store(old(H()), l), Store(H(), l), {p})
    {
      ghost var h := H();
      Recall(ChunkOk(h, p));
      UseFrontStep(h, sys.segs, sys.least, p, nb, {st.dv, p}, t, {st.dv, p + nb}, l, st.dv);
      st := SetUsed(st, p, nb);
      st := SetFree(st, p + nb, rsize);
      lay := lay.(chunks := lay.chunks + {p + nb});
      assert H() == Carve(h, p, nb);
    }

    /** Splitting or exhausting dv. */
    method UseDv(nb: nat, ghost t: B.Table, ghost l: B.Links) returns (p: Addr)
      requires Running(H()) && DvOk(H()) && Binned(H(), {st.dv}, t) && Aligned(nb) && MIN_CHUNK <= nb <= st.dvsize
      modifies this`st, this`lay
      ensures p == old(st.dv) && Running(H()) && DvOk(H()) && Binned(H(), {st.dv}, t)
      ensures Live(H(), p) && PInUse(H(), p) && nb <= SizeAt(H(), p) < nb + MIN_CHUNK
      ensures Spared(Store(old(H()), l), Store(H(), l), {p})
    {
      ghost var h := H();
      var rsize := st.dvsize - nb;
      p := st.dv;
      Recall(ChunkOk(h, p));
      Recall(ChunkOk(h, NULL));
      if rsize >= MIN_CHUNK {
        var r := p + nb;
        UseFrontStep(h, sys.segs, sys.least, p, nb, {p}, t, {r}, l, NULL);
        st := st.(dv := r, dvsize := rsize);
        st := SetFree(st, r, rsize);
        st := SetUsed(st, p, nb);
        lay := lay.(chunks := lay.chunks + {r});
        assert H().hd == Carve(h, p, nb).hd;
        assert H() == Carve(h, p, nb);
      } else {
        UseWholeStep(h, sys.segs, sys.least, p, {p}, t, {NULL}, l, NULL);
        var dvs := st.dvsize;
        st := st.(dvsize := 0, dv := NULL);
        st := SetInUseAndPInUse(st, p, dvs);
        assert H() == Acquire(h, p);
      }
    }

    /** Splitting top. */
    method UseTop(nb: nat, ghost t: B.Table, ghost l: B.Links) returns (p: Addr)
      requires Running(H()) && DvOk(H()) && Binned(H(), {st.dv}, t) && Aligned(nb) && MIN_CHUNK <= nb < st.topsize
      modifies this`st, this`lay
      ensures p == old(st.top) && Running(H()) && DvOk(H()) && Binned(H(), {st.dv}, t)
      ensures Live(H(), p) && PInUse(H(), p) && SizeAt(H(), p) == nb
      ensures Spared(Store(old(H()), l), Store(H(), l), {p})
    {
      ghost var h := H();
      UseTopStep(h, sys.segs, sys.least, nb, {st.dv}, t, l, st.dv);
      var rsize := st.topsize - nb;
      p := st.top;
      var r := p + nb;
      st := st.(topsize := rsize, top := r, hd := PutHead(st.hd, r, Head(rsize, false, true)));
      st := SetUsed(st, p, nb);
      lay := lay.(chunks := lay.chunks + {r});
      assert H().hd == SplitTop(h, nb).hd;
      assert H() == SplitTop(h, nb);
    }
  
    // ---- malloc ----

    /** p has been handed out for nb bytes, and otherwise the same chunks are in use as in s. */
    ghost predicate Served(s: Store, nb: nat, p: Addr)
      reads this, bins, bins.small, bins.large
    {
      && Ready() && Live(H(), p) && PInUse(H(), p) && nb <= SizeAt(H(), p) < nb + MIN_CHUNK
      && Spared(s, Image(), {p}) && !Used(s.h, p)
    }

    /** unlink_first_small_chunk */
    method TakeSmall(i: nat) returns (p: Addr)
      requires Ready() && i < NBINS && BinMaps.Marked(bins.small.smallmap, i)
      modifies bins.small
      ensures Filled(H(), {st.dv, p}) && Free(H(), p) && p != st.dv && SizeAt(H(), p) == 8 * i
      ensures p in old(bins.Content()) && old(bins.Content())[p] == 8 * i
      ensures Spared(old(Image()), Image(), {})
    {
      hide B.Bins.Valid, B.Bins.Content, B.Bins.Fields, B.Bins.Backed;
      ghost var h, t, l := H(), bins.Content(), bins.Fields();
      Backed(h, {st.dv}, st.hd);
      p := bins.TakeFirst(st.hd, sys.least, i);
      Recall(BinnedAt(h, {st.dv}, t, p));
      BinnedCut(h, {st.dv}, t, p, {st.dv, p});
      KeptLinks(h, {st.dv}, t, l, bins.Fields());
      Sparing(Store(h, l), Image(), {}, {});
    }

    /** replace_dv, for a dv that is known to be small */
    method ReplaceDv(r: Addr, rsize: nat)
      requires Running(H()) && DvOk(H()) && Filled(H(), {st.dv, r}) && Free(H(), r) && SizeAt(H(), r) == rsize
      requires r != st.dv
      requires B.IsSmall(st.dvsize)
      modifies this`st, bins.small, bins.large
      ensures H() == old(H()) && Ready() && Spared(old(Image()), Image(), {})
    {
      hide B.Bins.Valid, B.Bins.Content, B.Bins.Fields;
      var dvs := st.dvsize;
      ghost var h, l := H(), bins.Fields();
      Recall(ChunkOk(h, r));
      Recall(ChunkOk(h, st.dv));
      Recall(ChunkOk(h, NULL));
      if dvs != 0 {
        BinDv(r);
      } else {
        SparedRefl(Image());
        DropNull(h, r, bins.Content());
      }
      st := st.(dvsize := rsize, dv := r);
      assert H() == h;
    }

    lemma DropNull(h: Heap, r: Addr, t: B.Table)
      requires Tiled(h) && Binned(h, {NULL, r}, t)
      ensures Binned(h, {r}, t)
    {
      forall a {:trigger BinnedAt(h, {r}, t, a)} ensures BinnedAt(h, {r}, t, a) {
        Recall(BinnedAt(h, {NULL, r}, t, a));
        Recall(ChunkOk(h, NULL));
      }
    }

    /** insert_small_chunk(M, DV, DVS) */
    method BinDv(ghost r: Addr)
      requires Running(H()) && DvOk(H()) && Filled(H(), {st.dv, r}) && r != st.dv && st.dvsize != 0
      modifies bins.small, bins.large
      ensures Filled(H(), {r}) && Spared(old(Image()), Image(), {})
    {
      hide B.Bins.Valid, B.Bins.Content, B.Bins.Fields, B.Bins.Backed;
      ghost var h, t, l := H(), bins.Content(), bins.Fields();
      ChunkAligned(h, st.dv);
      AboveLeast(h, sys.segs, sys.least, st.dv);
      Backed(h, {st.dv, r}, st.hd);
      BinnedPut(h, {st.dv, r}, t, st.dv, {r});
      bins.InsertChunk(st.hd, sys.least, st.dv, st.dvsize);
      KeptLinks(h, {r}, bins.Content(), l, bins.Fields());
      Sparing(Store(h, l), Image(), {}, {});
    }
  
    /** A request whose size malloc looks up in the smallbins. */
    ghost predicate SmallRequest(nb: nat) {
      Aligned(nb) && MIN_CHUNK <= nb < MIN_LARGE
    }

    /** What smallbits = smallmap >> idx says about the binned chunks. */
    lemma SmallBits(nb: nat)
      requires bins.Valid() && SmallRequest(nb)
      ensures var idx := nb / 8;
        var smallbits := Prefixes.Prefix(bins.small.smallmap, idx);
        && idx < NBINS && nb == 8 * idx
        && (BinMaps.And(smallbits, 3) != 0 <==> HasExact(bins.Content(), nb))
        && (smallbits % 2 == 1 <==> B.HasSize(bins.Content(), nb))
        && (smallbits % 2 == 1 ==> BinMaps.Marked(bins.small.smallmap, idx))
        && (smallbits % 2 == 0 && HasExact(bins.Content(), nb) ==>
              idx + 1 < NBINS && BinMaps.Marked(bins.small.smallmap, idx + 1))
    {
      hide B.Bins.Valid, B.Bins.Content;
      var idx := nb / 8;
      BinMaps.ShiftedTests(bins.small.smallmap, idx);
      bins.SmallMapTells(idx);
      if idx + 1 < NBINS {
        bins.SmallMapTells(idx + 1);
      } else {
        BinMaps.NoBitAbove(bins.small.smallmap, idx + 1);
      }
    }

    /** A remainderless fit in a smallbin: that of nb, or the next one if the former is empty. */
    method MallocExact(nb: nat) returns (p: Addr)
      requires Ready() && SmallRequest(nb) && HasExact(bins.Content(), nb)
      modifies this`st, bins.small
      ensures Served(old(Image()), nb, p)
      ensures SmallChoice(old(bins.Content()), old(st.dv), old(st.dvsize), old(st.top), nb, p)
    {
      hide B.Bins.Valid, B.Bins.Content, B.Bins.Fields, B.Bins.Backed;
      SmallBits(nb);
      ghost var s := Image();
      var idx := nb / 8;
      var smallbits := Prefixes.Prefix(bins.small.smallmap, idx);
      idx := idx + (1 - smallbits % 2);             // idx += ~smallbits & 1
      p := TakeSmall(idx);
      ghost var y := Image();
      UseWhole(p, 8 * idx, bins.Content(), bins.Fields());
      SparedTrans(s, y, Image(), {}, {p});
      assert {} + {p} == {p};
    }

    /** No chunk of a size from nb on lies in front of the first bin that is marked. */
    lemma NoneBetween(nb: nat, i: nat, c: Addr)
      requires bins.Valid() && c in bins.Content() && nb <= bins.Content()[c] < MIN_LARGE && i < NBINS
      requires forall j | nb / 8 <= j < i :: !BinMaps.Marked(bins.small.smallmap, j)
      ensures 8 * i <= bins.Content()[c]
    {
      hide B.Bins.Content, B.Bins.Valid;
      bins.SizeForm(c);
      var j := bins.Content()[c] / 8;
      assert bins.Content()[c] == 8 * j;
      bins.SmallMapTells(j);
    }

    lemma BinGap(nb: nat, i: nat)
      requires SmallRequest(nb) && nb / 8 < i && 8 * i != nb + 8
      ensures nb + 8 < 8 * i && (W == 4 ==> nb + MIN_CHUNK <= 8 * i)
    {
      assert nb % 8 == 0;
    }

    /** The first non-empty bin behind that of nb holds the best fit. */
    lemma LeastBin(nb: nat, i: nat)
      requires bins.Valid() && SmallRequest(nb) && !HasExact(bins.Content(), nb)
      requires nb / 8 < i < NBINS && BinMaps.Marked(bins.small.smallmap, i)
      requires forall j | nb / 8 <= j < i :: !BinMaps.Marked(bins.small.smallmap, j)
      ensures nb + 8 < 8 * i && HasFit(bins.Content(), nb) && (W == 4 ==> nb + MIN_CHUNK <= 8 * i)
      ensures forall p | p in bins.Content() && bins.Content()[p] == 8 * i :: LeastFit(bins.Content(), nb, p)
    {
      var t := bins.Content();
      hide B.Bins.Content, B.Bins.Valid, SmallRequest;
      bins.SmallMapTells(i);
      BinGap(nb, i);
      forall c {:trigger t[c]} | c in t && t[c] >= nb ensures 8 * i <= t[c] {
        if t[c] < MIN_LARGE {
          NoneBetween(nb, i, c);
        }
      }
    }

    /** The rest of a chunk that has been cut becomes dv. */
    method SplitToDv(p: Addr, nb: nat, rsize: nat)
      requires Running(H()) && DvOk(H()) && Filled(H(), {st.dv, p}) && Free(H(), p) && p != st.dv
      requires SizeAt(H(), p) == nb + rsize
      requires Aligned(nb) && MIN_CHUNK <= nb && MIN_CHUNK <= rsize && B.IsSmall(st.dvsize)
      modifies this`st, this`lay, bins.small, bins.large
      ensures Ready() && Live(H(), p) && PInUse(H(), p) && SizeAt(H(), p) == nb && Spared(old(Image()), Image(), {p})
    {
      hide B.Bins.Valid, B.Bins.Content, B.Bins.Fields, B.Bins.Backed;
      ghost var s := Image();
      UseFront(p, nb, rsize, bins.Content(), bins.Fields());
      ghost var y := Image();
      ReplaceDv(p + nb, rsize);
      Recall(SameUse(y, Image(), p));
      SparedTrans(s, y, Image(), {p}, {});
      assert {p} + {} == {p};
    }

    /** The first chunk of the next non-empty smallbin behind that of nb is unlinked. */
    method TakeNextBin(nb: nat) returns (p: Addr, rsize: nat)
      requires Ready() && SmallRequest(nb) && !HasExact(bins.Content(), nb) && st.dvsize < nb
      requires Prefixes.Prefix(bins.small.smallmap, nb / 8) != 0
      modifies bins.small
      ensures Filled(H(), {st.dv, p}) && Free(H(), p) && p != st.dv && SizeAt(H(), p) == nb + rsize
      ensures Spared(old(Image()), Image(), {}) && (W == 4 ==> MIN_CHUNK <= rsize)
      ensures SmallChoice(old(bins.Content()), st.dv, st.dvsize, st.top, nb, p)
    {
      hide B.Bins.Valid, B.Bins.Content, B.Bins.Fields, B.Bins.Backed, Placed, SegmentsOk, Grid, Binned, Tiled;
      SmallBits(nb);
      var idx := nb / 8;
      BinMaps.FirstBehind(bins.small.smallmap, idx);
      var i := BinMaps.Bit2Idx(BinMaps.LeastBit(BinMaps.BitsBehind(bins.small.smallmap, idx)));
      LeastBin(nb, i);
      p := TakeSmall(i);
      rsize := 8 * i - nb;
    }

    /** The next non-empty smallbin behind that of nb. */
    method MallocNext(nb: nat) returns (p: Addr)
      requires Ready() && SmallRequest(nb) && !HasExact(bins.Content(), nb) && st.dvsize < nb
      requires Prefixes.Prefix(bins.small.smallmap, nb / 8) != 0
      modifies this`st, this`lay, bins.small, bins.large
      ensures Served(old(Image()), nb, p)
      ensures SmallChoice(old(bins.Content()), old(st.dv), old(st.dvsize), old(st.top), nb, p)
    {
      hide B.Bins.Valid, B.Bins.Content, B.Bins.Fields, B.Bins.Backed, Placed, SegmentsOk, Grid, Binned, SmallChoice;
      ghost var s := Image();
      var rsize;
      p, rsize := TakeNextBin(nb);
      ghost var y := Image();
      if W != 4 && rsize < MIN_CHUNK {
        UseWhole(p, nb + rsize, bins.Content(), bins.Fields());
      } else {
        SplitToDv(p, nb, rsize);
      }
      SparedTrans(s, y, Image(), {}, {p});
      assert {} + {p} == {p};
    }

    /** If no smallbin from that of nb on is marked, only large chunks fit. */
    lemma NoSmallFit(nb: nat)
      requires bins.Valid() && SmallRequest(nb) && Prefixes.Prefix(bins.small.smallmap, nb / 8) == 0
      ensures !HasExact(bins.Content(), nb)
      ensures forall c | c in bins.Content() && bins.Content()[c] >= nb :: bins.Content()[c] >= MIN_LARGE
    {
      var t := bins.Content();
      SmallBits(nb);
      BinMaps.ShiftedTests(bins.small.smallmap, nb / 8);
      hide B.Bins.Content;
      assert BinMaps.And(0, 3) == 0;
      forall c {:trigger t[c]} | c in t && t[c] >= nb ensures t[c] >= MIN_LARGE {
        bins.SizeForm(c);
        if t[c] < MIN_LARGE {
          assert t[c] == 8 * (t[c] / 8);
          bins.SmallMapTells(t[c] / 8);
        }
      }
    }

    /** unlink_large_chunk(m, v) */
    method TakeTree(v: Addr, ghost size: nat)
      requires Ready() && v in bins.Content() && bins.Content()[v] == size >= MIN_LARGE
      modifies bins.small, bins.large
      ensures Filled(H(), {st.dv, v}) && Free(H(), v) && v != st.dv && SizeAt(H(), v) == size
      ensures Spared(old(Image()), Image(), {})
    {
      hide B.Bins.Valid, B.Bins.Content, B.Bins.Fields, B.Bins.Backed;
      ghost var h, t, l := H(), bins.Content(), bins.Fields();
      Backed(h, {st.dv}, st.hd);
      Recall(BinnedAt(h, {st.dv}, t, v));
      bins.UnlinkTree(st.hd, sys.least, v);
      BinnedCut(h, {st.dv}, t, v, {st.dv, v});
      KeptLinks(h, {st.dv}, t, l, bins.Fields());
      Sparing(Store(h, l), Image(), {}, {});
    }

    /** A chunk found in the trees passes the checks on it. */
    lemma FoundOk(v: Addr, nb: nat, rsize: nat)
      requires Ready() && v in bins.Content() && bins.Content()[v] == nb + rsize
      ensures sys.least <= v && SizeAt(H(), v) == nb + rsize && (Aligned(nb) ==> Aligned(rsize))
    {
      hide B.Bins.Valid, B.Bins.Content, Tiled, SegmentsOk, Placed;
      Recall(BinnedAt(H(), {st.dv}, bins.Content(), v));
      AboveLeast(H(), sys.segs, sys.least, v);
      ChunkAligned(H(), v);
      if Aligned(nb) {
        AlignedSum(nb + rsize, nb);
      }
    }

    /** tmalloc_small */
    method TmallocSmall(nb: nat) returns (p: Addr)
      requires Ready() && SmallRequest(nb) && st.dvsize < nb && bins.large.treemap != 0
      requires Prefixes.Prefix(bins.small.smallmap, nb / 8) == 0
      modifies this`st, this`lay, bins.small, bins.large
      ensures Served(old(Image()), nb, p)
      ensures SmallChoice(old(bins.Content()), old(st.dv), old(st.dvsize), old(st.top), nb, p)
    {
      hide B.Bins.Valid, B.Bins.Content, B.Bins.Fields, B.Bins.Backed;
      ghost var s := Image();
      NoSmallFit(nb);
      Backed(H(), {st.dv}, st.hd);
      var v, rsize := bins.FindSmallest(st.hd, sys.least, nb);
      p := v;
      FoundOk(v, nb, rsize);
      if sys.least <= v {                                        // RTCHECK(ok_address(m, v))
        assert HeadAt(st.hd, v).size == rsize + nb;
        if v < v + nb {                                          // RTCHECK(ok_next(v, r))
          TakeTree(v, nb + rsize);
          ghost var y := Image();
          if rsize < MIN_CHUNK {
            UseWhole(v, rsize + nb, bins.Content(), bins.Fields());
          } else {
            SplitToDv(v, nb, rsize);
          }
          SparedTrans(s, y, Image(), {}, {p});
          assert {} + {p} == {p};
        } else {
          assert false;
        }
      } else {
        assert false;
      }
    }

    /** The rest of a chunk that has been cut is binned. */
    method SplitToBin(p: Addr, nb: nat, rsize: nat)
      requires Running(H()) && DvOk(H()) && Filled(H(), {st.dv, p}) && Free(H(), p) && p != st.dv
      requires SizeAt(H(), p) == nb + rsize
      requires Aligned(nb) && MIN_CHUNK <= nb && MIN_CHUNK <= rsize
      modifies this`st, this`lay, bins.small, bins.large
      ensures Ready() && Live(H(), p) && PInUse(H(), p) && SizeAt(H(), p) == nb && Spared(old(Image()), Image(), {p})
    {
      hide B.Bins.Valid, B.Bins.Content, B.Bins.Fields, B.Bins.Backed;
      ghost var s := Image();
      UseFront(p, nb, rsize, bins.Content(), bins.Fields());
      ghost var y := Image();
      InsertFree(p + nb, rsize);
      Recall(SameUse(y, Image(), p));
      SparedTrans(s, y, Image(), {p}, {});
      assert {p} + {} == {p};
    }

    /** tmalloc_large */
    method TmallocLarge(nb: nat) returns (p: Addr)
      requires Ready() && Aligned(nb) && MIN_LARGE <= nb < MOD && bins.large.treemap != 0
      modifies this`st, this`lay, bins.small, bins.large
      ensures p != NULL ==> Served(old(Image()), nb, p)
      ensures p != NULL ==> LargeChoice(old(bins.Content()), old(st.dv), old(st.dvsize), old(st.top), nb, p)
      ensures p == NULL ==> Idle(old(st), old(lay), old(bins.Content()), old(bins.Fields()))
      ensures p != NULL <==> BeatsDv(old(bins.Content()), old(st.dvsize), nb)
    {
      hide B.Bins.Valid, B.Bins.Content, B.Bins.Fields, B.Bins.Backed;
      ghost var s := Image();
      Backed(H(), {st.dv}, st.hd);
      var v, rsize := bins.FindBest(st.hd, sys.least, nb);
      Unsigned(nb, v, rsize);
      if v != NULL && rsize < Wrap(st.dvsize - nb) {
        p := v;
        FoundOk(v, nb, rsize);
        if sys.least <= v {                                      // RTCHECK(ok_address(m, v))
          assert HeadAt(st.hd, v).size == rsize + nb;
          if v < v + nb {                                        // RTCHECK(ok_next(v, r))
            TakeTree(v, nb + rsize);
            ghost var y := Image();
            if rsize < MIN_CHUNK {
              UseWhole(v, rsize + nb, bins.Content(), bins.Fields());
            } else {
              SplitToBin(v, nb, rsize);
            }
            SparedTrans(s, y, Image(), {}, {p});
            assert {} + {p} == {p};
          } else {
            assert false;
          }
        } else {
          assert false;
        }
      } else {
        p := NULL;
      }
    }

    /** Nothing has happened. */
    ghost predicate Idle(s: State, lay: Layout, t: B.Table, l: B.Links)
      reads this, bins, bins.small, bins.large
    {
      Ready() && st == s && this.lay == lay && bins.Content() == t && bins.Fields() == l
    }

    /** The unsigned comparison of the remainders is exact: it tells whether the best binned fit beats dv. */
    lemma Unsigned(nb: nat, v: Addr, rsize: nat)
      requires Ready() && MIN_LARGE <= nb < MOD && B.BestChunk(bins.Content(), nb, v, rsize)
      ensures v != NULL ==> LeastFit(bins.Content(), nb, v)
      ensures v != NULL && rsize < Wrap(st.dvsize - nb) <==> BeatsDv(bins.Content(), st.dvsize, nb)
    {
      hide B.Bins.Valid, B.Bins.Content;
      if st.dv != NULL {
        AboveLeast(H(), sys.segs, sys.least, st.dv);
        Recall(ChunkOk(H(), st.dv));
      }
      TrieSearch.WrapSub(st.dvsize, nb);
      if v != NULL && rsize < Wrap(st.dvsize - nb) {
        Recall(bins.Content()[v] == 0);
      }
    }

    // ---- memory from the system ----

    /** Before the first memory has been obtained. */
    ghost predicate Pristine()
      reads this, bins, bins.small, bins.large
    {
      && st.top == NULL && st.dv == NULL && st.topsize == 0 && st.dvsize == 0 && sys.segs == [] && sys.least == 0
      && lay == Layout({}, {}, {}) && bins.Content() == imap[]
    }

    /** The invariant of the allocator between calls. */
    ghost predicate Valid()
      reads this, bins, bins.small, bins.large
    {
      bins.Valid() && Accounted(sys) && if st.top == NULL then Pristine() else Ready()
    }

    /** There is memory exactly if there is a segment. */
    lemma SegmentsTell()
      requires Valid()
      ensures st.top != NULL <==> sys.segs != []
      ensures st.top != NULL ==> Ready()
    {
      hide B.Bins.Valid, B.Bins.Content;
    }

    /** segment_holding */
    method SegmentHolding(a: Addr) returns (k: nat)
      ensures k <= |sys.segs| && (k < |sys.segs| ==> HoldsAddr(sys.segs[k], a))
      ensures forall j | 0 <= j < k :: !HoldsAddr(sys.segs[j], a)
    {
      k := 0;
      while k < |sys.segs| && !HoldsAddr(sys.segs[k], a)
        invariant k <= |sys.segs| && forall j | 0 <= j < k :: !HoldsAddr(sys.segs[j], a)
      {
        k := k + 1;
      }
    }

    /** The new memory is large enough for nb by itself, or extends top, which is large enough with it. */
    ghost predicate Enough(nb: nat, base: Addr, size: nat)
      reads this
    {
      || nb + PADDING <= size
      || (st.top != NULL && |sys.segs| > 0 && base == End(sys.segs[0]) && nb + PADDING <= st.topsize + size)
    }

    /** The first attempt of sys_alloc: extend the heap contiguously by MORECORE. */
    method AskContiguous(nb: nat, asize: nat) returns (tbase: Addr, tsize: nat)
      requires st.top != NULL ==> Running(H())
      requires Accounted(sys) && st.topsize <= nb < asize == AskedSize(nb) && sys.contiguous
      modifies this`sys
      ensures sys == old(sys).(contiguous := tbase != FAIL)
      ensures tbase != FAIL ==> Grantable(sys.segs, tbase, tsize) && Enough(nb, tbase, tsize)
    {
      AskedEnough(nb);
      hide Wrap, GranAlign, AskedSize, PageGap, NextAsk, FirstAsk, Grantable, Tiled, SegmentsOk, Placed;
      tbase, tsize := FAIL, 0;
      var br, ssize := FAIL, asize;
      var ss := |sys.segs|;
      if st.top != NULL {
        ss := SegmentHolding(st.top);
      }
      if ss == |sys.segs| {
        var base := Break();
        if base != FAIL {
          ssize := FirstAsk(nb, base);
          if ssize > nb {
            FirstAskEnough(nb, base);
          }
          var fp := Wrap(sys.footprint + ssize);
          if ssize > nb && ssize < HALF_MAX && (sys.limit == 0 || (fp > sys.footprint && fp <= sys.limit)) {
            br := Obtain(sys.segs, ssize);
            if br == base {
              tbase, tsize := base, ssize;
            }
          }
        }
      } else {
        NextAskEnough(nb, st.topsize);
        TopInCurrent();
        ssize := NextAsk(nb, st.topsize);
        if ssize < HALF_MAX {
          br := ObtainNext(sys.segs, ssize, End(sys.segs[ss]), nb);
          if br == End(sys.segs[ss]) {
            tbase, tsize := br, ssize;
          }
        }
      }
      if tbase == FAIL {
        if br != FAIL {
          br, ssize := Complete(nb, br, ssize);
        }
        if br != FAIL {
          tbase, tsize := br, ssize;
        } else {
          sys := sys.(contiguous := false);          // disable_contiguous
        }
      }
    }

    lemma TopInCurrent()
      requires Running(H())
      ensures |sys.segs| > 0 && HoldsAddr(sys.segs[0], st.top)
    {
      Recall(SegmentOk(sys.segs, 0, sys.least));
    }

    /** Extending what a MORECORE that was not contiguous has returned, or giving it back: what is left is
        large enough exactly if it was not short. */
    method Complete(nb: nat, br0: Addr, ssize0: nat) returns (br: Addr, ssize: nat)
      requires br0 != FAIL && Grantable(sys.segs, br0, ssize0) && nb + PADDING + GRANULARITY <= MOD
      ensures br != FAIL ==> Grantable(sys.segs, br, ssize) && (nb + PADDING <= ssize <==> !Short(nb, ssize0))
    {
      br, ssize := br0, ssize0;
      if ssize < HALF_MAX && ssize < nb + PADDING {
        GranAligned(nb + PADDING - ssize);
        WrapSmall(nb + PADDING - ssize);
        hide Wrap, GranAlign, Grantable, Granular;
        var esize := GranAlign(Wrap(nb + PADDING - ssize));
        if esize < HALF_MAX {
          var end := ObtainMore(sys.segs, br, ssize, esize);
          if end != FAIL {
            ssize := ssize + esize;
          } else {
            br := FAIL;                             // CALL_MORECORE(-ssize)
          }
        }
      }
    }
  
    /** Space for the record chunk and what InitTop needs. */
    ghost predicate Roomy(base: Addr, size: nat)
      reads this
    {
      Granted(sys.segs, base, size) && size > TOP_FOOT + ALIGN
    }

    /** First-time initialization. */
    method Start(tbase: Addr, tsize: nat, mmapped: bool)
      requires Pristine() && bins.Valid() && Roomy(tbase, tsize)
      modifies this`st, this`sys, this`lay
      ensures Ready() && SpareLive(old(Image()), Image(), {}) && st.topsize > tsize - PADDING
      ensures sys == old(sys).(least := tbase, segs := [Segment(tbase, tsize, mmapped, NULL)],
                               trimCheck := TRIM_THRESHOLD, releaseChecks := MAX_RELEASE_CHECK_RATE)
    {
      hide B.Bins.Valid, B.Bins.Content, B.Bins.Fields;
      if sys.least == 0 || tbase < sys.least {
        sys := sys.(least := tbase);
      }
      sys := sys.(segs := [Segment(tbase, tsize, mmapped, NULL)], releaseChecks := MAX_RELEASE_CHECK_RATE);
      StartTop(tbase, tsize, bins.Content(), bins.Fields());
    }

    method StartTop(tbase: nat, tsize: nat, ghost t: B.Table, ghost l: B.Links)
      requires |sys.segs| == 1 && sys.segs[0].base == tbase == sys.least > 0
      requires sys.segs[0].size == tsize > TOP_FOOT + ALIGN
      requires tbase + tsize < MOD && st.dv == NULL && st.dvsize == 0 && lay == Layout({}, {}, {}) && t == imap[]
      modifies this`st, this`sys, this`lay
      ensures sys == old(sys).(trimCheck := TRIM_THRESHOLD) && st.top != NULL && Running(H()) && DvOk(H())
      ensures Binned(H(), {st.dv}, t)
      ensures SpareLive(Store(old(H()), l), Store(H(), l), {}) && st.topsize > tsize - PADDING
    {
      hide Tiled, Placed, SegmentsOk, Grid, Binned, SpareLive, Aligned;
      ghost var h, hd := H(), st.hd;
      sys := sys.(trimCheck := TRIM_THRESHOLD);
      st := InitTop(st, tbase, tsize - TOP_FOOT);
      lay := Layout({st.top}, {}, {});
      assert sys.segs == [sys.segs[0]];
      StartStep(h, H(), sys.segs[0], hd, tbase, t, l);
    }

    /** Memory that continues the current segment becomes part of top. */
    method Append(tsize: nat)
      requires Ready() && Granted(sys.segs, End(sys.segs[0]), tsize)
      modifies this`st, this`sys
      ensures Ready() && SpareLive(old(Image()), Image(), {}) && st.topsize == old(st.topsize) + tsize
      ensures sys == old(sys).(segs := Resized(old(sys.segs), old(sys.segs[0].size) + tsize),
                               trimCheck := TRIM_THRESHOLD)
    {
      hide B.Bins.Valid, B.Bins.Content, B.Bins.Fields;
      ResizeCurrent(sys.segs[0].size + tsize, st.topsize + tsize, bins.Content(), bins.Fields());
    }

    /** The current segment gets another size, and top with it. */
    method ResizeCurrent(size: nat, n: nat, ghost t: B.Table, ghost l: B.Links)
      requires st.top != NULL && Running(H()) && DvOk(H()) && Binned(H(), {st.dv}, t)
      requires n > 0 && n - st.topsize == size - sys.segs[0].size
      requires size > sys.segs[0].size ==> Granted(sys.segs, End(sys.segs[0]), size - sys.segs[0].size)
      modifies this`st, this`sys
      ensures st.top == old(st.top) && st.topsize == n && Running(H()) && DvOk(H()) && Binned(H(), {st.dv}, t)
      ensures SpareLive(Store(old(H()), l), Store(H(), l), {})
      ensures sys == old(sys).(segs := Resized(old(sys.segs), size), trimCheck := TRIM_THRESHOLD)
    {
      ghost var h := H();
      ResizedOk(h, sys.segs, sys.least, size, n);
      ResizeStep(h, sys.segs, sys.least, size, n, {st.dv}, t, l, st.dv);
      Recall(Aligned(st.top));
      AlreadyAligned(st.top);
      sys := sys.(segs := Resized(sys.segs, size), trimCheck := TRIM_THRESHOLD);
      st := InitTop(st, st.top, n);
      assert H() == ResizeTop(h, n);
      SparedLive(Store(h, l), Store(H(), l), {});
    }

    lemma AlreadyAligned(p: nat)
      requires Aligned(p)
      ensures AlignUp(p) == p
    {
      var q := AlignUp(p);
      hide AlignUp, Aligned;
      if p < q {
        AlignedGap(p, q);
      }
    }
  
    /** The new memory becomes two used chunks: one for the request, and its rest. */
    method TakeFront(k: nat, newbase: nat, size: nat, nb: nat, ghost t: B.Table, ghost l: B.Links)
      returns (p: Addr, q: Addr, qsize: nat, ghost z: Heap)
      requires Running(H()) && DvOk(H()) && Binned(H(), {st.dv}, t) && k < |sys.segs| && Roomy(newbase, size)
      requires newbase + size == sys.segs[k].base && Aligned(nb) && MIN_CHUNK <= nb && nb + TOP_FOOT < size
      modifies this`st, this`sys, this`lay
      ensures Leaving(z, q, qsize, t) && Live(z, p) && SizeAt(z, p) == nb && !Used(old(H()), p) && !Used(old(H()), q)
      ensures p != q && Spared(Store(old(H()), l), Store(z, l), {p, q})
      ensures sys == old(sys).(segs := Prepended(old(sys.segs), k, newbase),
                               least := if newbase < old(sys.least) then newbase else old(sys.least))
      ensures p == First(sys.segs[k])
    {
      hide Tiled, Placed, SegmentsOk, Grid, Binned, Granted, Spared, AlignUp;
      ghost var h := H();
      var low := if newbase < sys.least then newbase else sys.least;
      var oldfirst := First(sys.segs[k]);
      p := AlignUp(newbase);
      var psize := oldfirst - p;
      PrependSplit(h, k, newbase, size, nb, low, t, l);
      z, q := Split(AddFirst(h, p, psize), p, nb), p + nb;
      sys := sys.(segs := Prepended(sys.segs, k, newbase), least := low);
      qsize := psize - nb;
      st := SetUsed(st, p, nb);
      lay := Layout(z.chunks, z.fences, z.pins);
      assert PutHead(st.hd, q, Head(qsize, true, true)) == z.hd;
      assert oldfirst > q && HeadAt(st.hd, oldfirst).pinuse && qsize >= MIN_CHUNK;
    }

    /** prepend_alloc: new memory in front of segment k serves the request, and its rest is consolidated
        with the first chunk that the segment had. */
    method PrependAlloc(k: nat, newbase: nat, size: nat, nb: nat) returns (p: Addr)
      requires Ready() && k < |sys.segs| && Roomy(newbase, size) && newbase + size == sys.segs[k].base
      requires Aligned(nb) && MIN_CHUNK <= nb && nb + TOP_FOOT < size
      modifies this`st, this`sys, this`lay, bins.small, bins.large
      ensures Ready() && Live(H(), p) && PInUse(H(), p) && SizeAt(H(), p) == nb && !Used(old(H()), p)
      ensures SpareLive(old(Image()), Image(), {p})
      ensures sys == old(sys).(segs := Prepended(old(sys.segs), k, newbase),
                               least := if newbase < old(sys.least) then newbase else old(sys.least))
    {
      hide B.Bins.Valid, B.Bins.Content, B.Bins.Fields, Placed, SegmentsOk, Grid, Binned, Spared, SpareLive, First;
      ghost var s, l := Image(), bins.Fields();
      var q, qsize;
      ghost var z;
      p, q, qsize, z := TakeFront(k, newbase, size, nb, bins.Content(), l);
      SettleForward(q, qsize, z);
      SparedVia(s, Store(z, l), Image(), p, q);
      FirstPInUse(H(), sys.segs, sys.least, k);
      SparedLive(s, Image(), {p});
    }

    lemma FirstPInUse(h: Heap, segs: seq<Segment>, least: Addr, k: nat)
      requires Wf(h, segs, least) && k < |segs|
      ensures PInUse(h, First(segs[k]))
    {
      Recall(FirstOk(h, segs, k));
    }

    /** The new memory as two used chunks. */
    lemma PrependSplit(h: Heap, k: nat, newbase: nat, size: nat, nb: nat, low: Addr, t: B.Table, l: B.Links)
      requires Running(h) && DvOk(h) && Binned(h, {st.dv}, t) && k < |sys.segs| && Roomy(newbase, size)
      requires newbase + size == sys.segs[k].base && low == if newbase < sys.least then newbase else sys.least
      requires Aligned(nb) && MIN_CHUNK <= nb && nb + TOP_FOOT < size
      ensures var p, psize := AlignUp(newbase), First(sys.segs[k]) - AlignUp(newbase);
        && psize > nb + TOP_FOOT - ALIGN
        && var w, z, q := AddFirst(h, p, psize), Split(AddFirst(h, p, psize), p, nb), p + nb;
        && z == Split(w, p, nb) && Wf(z, Prepended(sys.segs, k, newbase), low) && z.top == st.top
        && SizeAt(z, z.top) == st.topsize
        && Live(z, p) && SizeAt(z, p) == nb && Live(z, q) && PInUse(z, q) && SizeAt(z, q) == psize - nb
        && Binned(z, {st.dv}, t) && FreeOrNull(z, st.dv, st.dvsize) && Spared(Store(h, l), Store(z, l), {p, q})
        && !Used(h, p) && !Used(h, q) && PInUse(z, First(sys.segs[k])) && st.dv != q
    {
      hide Binned, Spared, Grid, AlignUp, Placed;
      var p, psize := AlignUp(newbase), First(sys.segs[k]) - AlignUp(newbase);
      Recall(SegmentOk(sys.segs, k, sys.least));
      PrependedOk(sys.segs, sys.least, k, newbase, size, low);
      assert CanPrepend(h, sys.segs, sys.least, k, newbase, psize, low);
      PrependStep(h, sys.segs, sys.least, k, newbase, psize, low, {st.dv}, t, l, st.dv);
      var w := AddFirst(h, p, psize);
      SplitStep(w, Prepended(sys.segs, k, newbase), low, p, nb, {st.dv}, t, l, st.dv);
      var z, q := Split(w, p, nb), p + nb;
      SparedTrans(Store(h, l), Store(w, l), Store(z, l), {p}, {p, q});
      assert {p} + {p, q} == {p, q};
      Recall(SameUse(Store(h, l), Store(w, l), q));
      Recall(FirstOk(z, Prepended(sys.segs, k, newbase), k));
      Recall(ChunkOk(z, q));
    }
  
    /** Where add_segment puts the record of the old segment: as high as it fits, or over all of old top. */
    lemma RecordPlace(h: Heap, asp: nat)
      requires Running(h) && End(sys.segs[0]) >= RECORD + 4 * W + ALIGN - 1
      requires asp == AlignUp(End(sys.segs[0]) - (RECORD + 4 * W + ALIGN - 1))
      ensures var e := h.top;
        var c := if asp < e + MIN_CHUNK then e else asp;
        && Aligned(c) && (c == e || e + MIN_CHUNK <= c) && c <= Next(h, e) && End(sys.segs[0]) <= c + RECORD + 12 * W
        && c + RECORD + 4 * W <= End(sys.segs[0]) && e <= c && sys.least > 0
    {
      Recall(Aligned(h.top));
      Recall(SegmentOk(sys.segs, 0, sys.least));
    }

    /** The trailing fenceposts: at least two, and nothing outside of [p0, end) is written. */
    method WriteFences(p0: Addr, end: Addr) returns (nfences: nat)
      requires p0 + 4 * W <= end
      modifies this`st
      ensures st == old(st).(hd := st.hd) && nfences >= 2 && HeadAt(st.hd, p0) == FENCE
      ensures forall a {:trigger HeadAt(st.hd, a)} | !(p0 <= a < end) :: HeadAt(st.hd, a) == HeadAt(old(st.hd), a)
    {
      var p := p0;
      st := st.(hd := PutHead(st.hd, p, FENCE));
      nfences := 1;
      while p + 2 * W < end
        invariant p0 <= p < end && (nfences == 1 ==> p == p0) && nfences >= 1
        invariant st == old(st).(hd := st.hd) && HeadAt(st.hd, p0) == FENCE
        invariant forall a {:trigger HeadAt(st.hd, a)} | !(p0 <= a < end) :: HeadAt(st.hd, a) == HeadAt(old(st.hd), a)
        decreases end - p
      {
        ghost var hd := st.hd;
        p := p + W;
        st := st.(hd := PutHead(st.hd, p, FENCE));
        nfences := nfences + 1;
        forall a {:trigger HeadAt(st.hd, a)} | !(p0 <= a < end) ensures HeadAt(st.hd, a) == HeadAt(old(st.hd), a) {
          Recall(HeadAt(hd, a) == FENCE);
        }
      }
    }
  
    /** add_segment: the old top becomes a free chunk and a record, and the new space becomes top. */
    method AddSegment(tbase: nat, tsize: nat, mmapped: bool) returns (ghost c: Addr)
      requires Ready() && Roomy(tbase, tsize) && sys.least <= tbase
      modifies this`st, this`sys, this`lay, bins.small, bins.large
      ensures Ready() && SpareLive(old(Image()), Image(), {}) && st.topsize > tsize - PADDING
      ensures sys == old(sys).(segs := Pushed(old(sys.segs), c, Segment(tbase, tsize, mmapped, NULL)),
                               trimCheck := TRIM_THRESHOLD)
    {
      hide B.Bins.Valid, B.Bins.Content, B.Bins.Fields;
      ghost var s, h, t, l := Image(), H(), bins.Content(), bins.Fields();
      var csp, oldTop := Seal(tbase, tsize, mmapped, t, l);
      c := csp;
      if csp != oldTop {
        ghost var y := Store(Sealed(oldTop, csp - oldTop), l);
        JoinNone(oldTop, csp - oldTop, Sealed(oldTop, csp - oldTop), t, l);
        SparedLive(y, Image(), {oldTop});
        LiveTrans(s, y, Image(), {oldTop}, {oldTop});
        ghost var z := Image();
        InsertFree(oldTop, csp - oldTop);
        SparedLive(z, Image(), {});
        LiveTrans(s, z, Image(), {oldTop} + {oldTop}, {});
        LiveBetween(s, Image(), {oldTop} + {oldTop} + {}, {});
      } else {
        LiveBetween(s, Image(), {oldTop}, {});
      }
    }

    /** The heap in which the part of old top in front of the record counts as used. */
    ghost function Sealed(oldTop: Addr, psize: nat): Heap
      reads this
    {
      H().(hd := PutHead(st.hd, oldTop, Head(psize, true, true)))
    }

    /** The new top, the record and the fenceposts behind it are written. */
    method WriteSeal(tbase: nat, tsize: nat, mmapped: bool, csp: Addr, oldEnd: Addr)
      requires |sys.segs| > 0 && oldEnd == End(sys.segs[0]) && Roomy(tbase, tsize) && csp + RECORD + 4 * W <= oldEnd
      modifies this`st
      ensures var seg := Segment(tbase, tsize, mmapped, NULL);
        && SealWrites(old(H()), st.hd, sys.segs, csp, seg) && tsize > TOP_FOOT + ALIGN
        && st == old(st).(hd := st.hd, top := First(seg), topsize := tbase + tsize - TOP_FOOT - First(seg))
    {
      hide AlignUp, Aligned;
      st := InitTop(st, tbase, tsize - TOP_FOOT);
      st := SetUsed(st, csp, RECORD);
      var nfences := WriteFences(csp + RECORD, oldEnd);
      assert nfences >= 2;
    }

    /** add_segment up to the binning of the rest of old top. */
    method Seal(tbase: nat, tsize: nat, mmapped: bool, ghost t: B.Table, ghost l: B.Links)
      returns (csp: Addr, oldTop: Addr)
      requires st.top != NULL && Running(H()) && DvOk(H()) && Binned(H(), {st.dv}, t) && Roomy(tbase, tsize)
      requires sys.least <= tbase
      modifies this`st, this`sys, this`lay
      ensures oldTop == old(st.top) && st.dv == old(st.dv) && st.topsize > tsize - PADDING
      ensures sys == old(sys).(segs := Pushed(old(sys.segs), csp, Segment(tbase, tsize, mmapped, NULL)),
                               trimCheck := TRIM_THRESHOLD)
      ensures csp != oldTop ==>
        csp - oldTop >= MIN_CHUNK && Leaving(Sealed(oldTop, csp - oldTop), oldTop, csp - oldTop, t)
      ensures csp != oldTop ==> Used(Sealed(oldTop, csp - oldTop), csp)
      ensures csp == oldTop ==> Running(H()) && DvOk(H()) && Binned(H(), {st.dv}, t) && !Live(H(), oldTop)
      ensures !Used(old(H()), oldTop)
      ensures SpareLive(Store(old(H()), l), Store(if csp == oldTop then H() else Sealed(oldTop, csp - oldTop), l),
                        {oldTop})
    {
      hide Tiled, Placed, SegmentsOk, Grid, Granted, AlignUp, Aligned, Binned;
      ghost var h := H();
      oldTop := st.top;
      var k := SegmentHolding(oldTop);
      CurrentHoldsTop(k);
      var oldEnd := End(sys.segs[k]);
      var rawsp := oldEnd - (RECORD + 4 * W + ALIGN - 1);
      var asp := AlignUp(rawsp);
      RecordPlace(h, asp);
      csp := if asp < oldTop + MIN_CHUNK then oldTop else asp;
      var seg := Segment(tbase, tsize, mmapped, NULL);
      WriteSeal(tbase, tsize, mmapped, csp, oldEnd);
      sys := sys.(segs := Pushed(sys.segs, csp, seg), trimCheck := TRIM_THRESHOLD);
      lay := Layout(lay.chunks + {csp, st.top}, lay.fences + {csp + RECORD}, lay.pins + {csp});
      SealWritten(h, st.hd, old(sys.segs), sys.least, csp, seg);
      ghost var w := SealHeap(h, st.hd, csp, seg);
      assert w == if csp == oldTop then H() else Sealed(oldTop, csp - oldTop);
      hide SealHeap;
      SealStep(h, w, old(sys.segs), sys.least, csp, seg, sys.least, st.dv, t, l);
    }

    lemma CurrentHoldsTop(k: nat)
      requires Running(H()) && k <= |sys.segs| && (forall j | 0 <= j < k :: !HoldsAddr(sys.segs[j], st.top))
      ensures k == 0 && |sys.segs| > 0 && HoldsAddr(sys.segs[0], st.top)
      ensures End(sys.segs[0]) >= RECORD + 4 * W + ALIGN - 1
    {
      Recall(SegmentOk(sys.segs, 0, sys.least));
      Recall(Aligned(st.top));
      assert HoldsAddr(sys.segs[0], st.top);
      AlignedGap(0, st.top);
    }
  
    /** p has been handed out for nb bytes; apart from it the client owns what it owned in s. */
    ghost predicate Allocated(s: Store, nb: nat, p: Addr)
      reads this, bins, bins.small, bins.large
    {
      && Ready() && Live(H(), p) && PInUse(H(), p) && nb <= SizeAt(H(), p) < nb + MIN_CHUNK
      && SpareLive(s, Image(), {p}) && !Live(s.h, p)
    }

    /** The first segment that ends at a. */
    method FindEnd(a: Addr) returns (k: nat)
      ensures k <= |sys.segs| && (k < |sys.segs| ==> End(sys.segs[k]) == a)
      ensures forall j | 0 <= j < k :: End(sys.segs[j]) != a
    {
      k := 0;
      while k < |sys.segs| && a != End(sys.segs[k])
        invariant k <= |sys.segs| && forall j | 0 <= j < k :: End(sys.segs[j]) != a
      {
        k := k + 1;
      }
    }

    /** The first segment that starts at a. */
    method FindBase(a: Addr) returns (k: nat)
      ensures k <= |sys.segs| && (k < |sys.segs| ==> sys.segs[k].base == a)
    {
      k := 0;
      while k < |sys.segs| && sys.segs[k].base != a
        invariant k <= |sys.segs|
      {
        k := k + 1;
      }
    }

    ghost predicate Fit(nb: nat, tbase: Addr, tsize: nat, mmapped: bool)
      reads this
    {
      && Grantable(sys.segs, tbase, tsize) && (mmapped ==> Granular(tsize) && !sys.contiguous)
      && (nb + TOP_FOOT < tsize || Sufficient(nb, tbase, tsize))
    }

    /** The new memory is padded as sys_alloc asks for it, or is the continuation of the current segment
        that it asks for. */
    ghost predicate Sufficient(nb: nat, tbase: Addr, tsize: nat)
      reads this
    {
      nb + PADDING <= tsize || (Enough(nb, tbase, tsize) && sys.contiguous)
    }

    method AddFootprint(tsize: nat)
      requires sys.footprint + tsize < MOD
      modifies this`sys
      ensures sys == old(sys).(footprint := sys.footprint, maxFootprint := sys.maxFootprint)
      ensures sys.footprint == old(sys.footprint) + tsize <= sys.maxFootprint
    {
      WrapSmall(sys.footprint + tsize);
      sys := sys.(footprint := Wrap(sys.footprint + tsize));
      if sys.footprint > sys.maxFootprint {
        sys := sys.(maxFootprint := sys.footprint);
      }
    }

    /** What sys_alloc does with memory that it has got. */
    method UseRegion(nb: nat, tbase: Addr, tsize: nat, mmapped: bool) returns (p: Addr)
      requires Valid() && Aligned(nb) && MIN_CHUNK <= nb && st.topsize <= nb && Fit(nb, tbase, tsize, mmapped)
      modifies this`st, this`sys, this`lay, bins.small, bins.large
      ensures Valid() && (p != NULL ==> Allocated(old(Image()), nb, p))
      ensures p == NULL ==> SpareLive(old(Image()), Image(), {})
      ensures sys.footprint == old(sys.footprint) + tsize
      ensures old(Sufficient(nb, tbase, tsize)) ==> p != NULL
    {
      hide B.Bins.Valid, B.Bins.Content, B.Bins.Fields, Granted, Tiled, Placed, SegmentsOk, Grid, Binned;
      ghost var s, z := Image(), sys;
      AddFootprint(tsize);
      p := NULL;
      if st.top == NULL {
        Start(tbase, tsize, mmapped);
        AccountPushed(z, sys, sys.segs[0], 0);
      } else {
        p := Extend(nb, tbase, tsize, mmapped, z);
      }
      if p == NULL && nb < st.topsize {
        p := ServeTop(nb, s);
      }
    }

    /** Allocating from top, in malloc and in sys_alloc. */
    method ServeTop(nb: nat, ghost s: Store) returns (p: Addr)
      requires Ready() && Aligned(nb) && MIN_CHUNK <= nb < st.topsize && SpareLive(s, Image(), {})
      modifies this`st, this`lay
      ensures p == old(st.top) && p != NULL && Allocated(s, nb, p)
    {
      hide B.Bins.Valid, B.Bins.Content, B.Bins.Fields, Spared;
      ghost var y := Image();
      p := UseTop(nb, bins.Content(), bins.Fields());
      SparedLive(y, Image(), {p});
      LiveTrans(s, y, Image(), {}, {p});
      Recall(SameBlock(s, y, p));
      assert {} + {p} == {p};
    }

    method Extend(nb: nat, tbase: Addr, tsize: nat, mmapped: bool, ghost z: System) returns (p: Addr)
      requires Ready() && Aligned(nb) && MIN_CHUNK <= nb && st.topsize <= nb && Fit(nb, tbase, tsize, mmapped)
      requires Accounted(z) && sys == z.(footprint := z.footprint + tsize, maxFootprint := sys.maxFootprint)
      requires sys.footprint <= sys.maxFootprint
      modifies this`st, this`sys, this`lay, bins.small, bins.large
      ensures Ready() && Accounted(sys) && sys.footprint == old(sys.footprint)
      ensures p != NULL ==> Allocated(old(Image()), nb, p)
      ensures p == NULL ==> SpareLive(old(Image()), Image(), {})
      ensures p == NULL && old(Sufficient(nb, tbase, tsize)) ==> nb < st.topsize
    {
      hide B.Bins.Valid, B.Bins.Content, B.Bins.Fields, Tiled, Placed, SegmentsOk, Grid, Binned, SpareLive;
      p := NULL;
      var k := FindEnd(tbase);
      CurrentEnd(k, tbase);
      Recall(MappedOk(z, 0));
      if k < |sys.segs| && sys.segs[k].mmapped == mmapped && HoldsAddr(sys.segs[k], st.top) {
        Append(tsize);
        AccountGrown(z, sys, tsize, mmapped, 0, tbase);
      } else {
        p := ExtendElsewhere(nb, tbase, tsize, mmapped, z);
      }
    }

    /** The memory does not continue the current segment: it is in front of another one, or a segment of its own. */
    method ExtendElsewhere(nb: nat, tbase: Addr, tsize: nat, mmapped: bool, ghost z: System) returns (p: Addr)
      requires Ready() && Aligned(nb) && MIN_CHUNK <= nb && nb + TOP_FOOT < tsize && Fit(nb, tbase, tsize, mmapped)
      requires Accounted(z) && sys == z.(footprint := z.footprint + tsize, maxFootprint := sys.maxFootprint)
      requires sys.footprint <= sys.maxFootprint && |sys.segs| > 0
      modifies this`st, this`sys, this`lay, bins.small, bins.large
      ensures Ready() && Accounted(sys) && sys.footprint == old(sys.footprint)
      ensures p != NULL ==> Allocated(old(Image()), nb, p)
      ensures p == NULL ==> SpareLive(old(Image()), Image(), {}) && st.topsize > tsize - PADDING
    {
      hide B.Bins.Valid, B.Bins.Content, B.Bins.Fields, Tiled, Placed, SegmentsOk, Grid, Binned, SpareLive;
      p := NULL;
      if tbase < sys.least {
        LowerLeast(H(), sys.segs, sys.least, tbase);
        sys := sys.(least := tbase);
      }
      var j := FindBase(tbase + tsize);
      if j < |sys.segs| && sys.segs[j].mmapped == mmapped {
        p := PrependAlloc(j, tbase, tsize, nb);
        LiveNotNull(p);
        AccountGrown(z, sys, tsize, mmapped, j, tbase);
      } else {
        ghost var c := AddSegment(tbase, tsize, mmapped);
        AccountPushed(z, sys, Segment(tbase, tsize, mmapped, NULL), c);
      }
    }

    lemma LiveNotNull(p: Addr)
      requires Tiled(H()) && Live(H(), p)
      ensures p != NULL
    {
      Recall(ChunkOk(H(), p));
    }

    lemma CurrentEnd(k: nat, a: Addr)
      requires Running(H()) && k <= |sys.segs| && (k < |sys.segs| ==> End(sys.segs[k]) == a)
      requires forall j | 0 <= j < k :: End(sys.segs[j]) != a
      ensures |sys.segs| > 0 && HoldsAddr(sys.segs[0], st.top)
      ensures k < |sys.segs| && HoldsAddr(sys.segs[k], st.top) ==> k == 0
      ensures a == End(sys.segs[0]) ==> k == 0
    {
      Recall(SegmentOk(sys.segs, 0, sys.least));
      if 0 < k < |sys.segs| {
        Recall(SegApart(sys.segs, 0, k));
      }
    }
  
    /** sys_alloc without directly mapped chunks: contiguous MORECORE, then MMAP, then any MORECORE.  padded
        says that one of the first two, which pad the request, has succeeded; then the request is served. */
    method SysAlloc(nb: nat) returns (p: Addr, ghost padded: bool)
      requires Valid() && st.topsize <= nb < MOD && (nb == MOD - 1 || (Aligned(nb) && MIN_CHUNK <= nb))
      modifies this`st, this`sys, this`lay, bins.small, bins.large
      ensures Valid() && (p != NULL ==> nb < MOD - 1 && Allocated(old(Image()), nb, p))
      ensures p == NULL ==> SpareLive(old(Image()), Image(), {}) && !padded
    {
      hide B.Bins.Valid, B.Bins.Content, B.Bins.Fields, Wrap, AskedSize, Grantable;
      p, padded := NULL, false;
      var asize := AskedSize(nb);
      AskedBelow(nb);
      LiveRefl(Image());
      if asize <= nb {
        return;
      }
      AskedEnough(nb);
      if sys.limit != 0 {
        var fp := Wrap(sys.footprint + asize);
        if fp <= sys.footprint || fp > sys.limit {
          return;
        }
      }
      var tbase, tsize, mmapped;
      tbase, tsize, mmapped, padded := AskSystem(nb, asize);
      if tbase != FAIL {
        p := UseRegion(nb, tbase, tsize, mmapped);
      }
    }

    method AskSystem(nb: nat, asize: nat) returns (tbase: Addr, tsize: nat, mmapped: bool, ghost padded: bool)
      requires Valid() && st.topsize <= nb < asize == AskedSize(nb) && nb < MOD
      modifies this`sys
      ensures Valid() && Image() == old(Image()) && st.topsize <= nb
      ensures tbase != FAIL ==> Fit(nb, tbase, tsize, mmapped)
      ensures padded ==> tbase != FAIL && Sufficient(nb, tbase, tsize)
    {
      hide B.Bins.Valid, B.Bins.Content, B.Bins.Fields, Wrap, AskedSize, Grantable, Tiled, Placed, SegmentsOk;
      AskedEnough(nb);
      ghost var z := sys;
      tbase, tsize, mmapped := FAIL, 0, false;
      if sys.contiguous {
        tbase, tsize := AskContiguous(nb, asize);
        forall k: nat {:trigger MappedOk(sys, k)} ensures MappedOk(sys, k) {
          Recall(MappedOk(z, k));
        }
      }
      if tbase == FAIL {
        var mp := Obtain(sys.segs, asize);
        if mp != FAIL {
          tbase, tsize, mmapped := mp, asize, true;
        }
      }
      padded := tbase != FAIL;
      if tbase == FAIL {
        if asize < HALF_MAX {
          var br, end := ObtainRegion(sys.segs);
          if br != FAIL && end != FAIL && br < end {
            var ssize := end - br;
            if ssize > nb + TOP_FOOT {
              tbase, tsize := br, ssize;
            }
          }
        }
      }
    }

    /** The chunk that malloc takes for nb bytes without the system's help. */
    ghost predicate Choice(bytes: nat, t: B.Table, s: State, nb: nat, p: Addr) {
      if bytes <= MAX_SMALL_REQUEST then SmallChoice(t, s.dv, s.dvsize, s.top, nb, p)
      else LargeChoice(t, s.dv, s.dvsize, s.top, nb, p)
    }

    /** Some chunk has room for nb bytes. */
    ghost predicate Available(t: B.Table, s: State, nb: nat) {
      HasFit(t, nb) || nb <= s.dvsize || nb < s.topsize
    }

    /** Nothing has happened. */
    ghost predicate Unmoved(s: State, lay: Layout, t: B.Table, l: B.Links)
      reads this, bins, bins.small, bins.large
    {
      Valid() && st == s && this.lay == lay && bins.Content() == t && bins.Fields() == l
    }

    lemma ServedAllocated(s: Store, nb: nat, p: Addr)
      requires Served(s, nb, p)
      ensures Allocated(s, nb, p) && p != NULL
    {
      hide B.Bins.Valid, B.Bins.Content, B.Bins.Fields;
      SparedLive(s, Image(), {p});
      LiveNotNull(p);
    }

    lemma BinnedReady(c: Addr)
      requires Valid() && c in bins.Content()
      ensures Ready()
    {
      hide B.Bins.Valid, B.Bins.Content;
    }

    /** The part of malloc for small requests that looks into the bins. */
    method MallocSmall(nb: nat) returns (p: Addr)
      requires Valid() && SmallRequest(nb)
      modifies this`st, this`lay, bins.small, bins.large
      ensures p != NULL ==> Allocated(old(Image()), nb, p)
      ensures p != NULL ==> SmallChoice(old(bins.Content()), old(st.dv), old(st.dvsize), old(st.top), nb, p)
      ensures p == NULL ==> Unmoved(old(st), old(lay), old(bins.Content()), old(bins.Fields()))
      ensures p == NULL ==> !HasExact(bins.Content(), nb) && (st.dvsize < nb ==> !HasFit(bins.Content(), nb))
    {
      hide B.Bins.Valid, B.Bins.Content, B.Bins.Fields, Tiled, Placed, SegmentsOk, Grid, Binned;
      ghost var s := Image();
      p := NULL;
      SmallBits(nb);
      var smallbits := Prefixes.Prefix(bins.small.smallmap, nb / 8);
      if BinMaps.And(smallbits, 3) != 0 {
        BinnedReady(SomeExact(nb));
        p := MallocExact(nb);
        ServedAllocated(s, nb, p);
      } else if nb > st.dvsize {
        if smallbits != 0 {
          BinnedReady(SomeBehind(nb));
          p := MallocNext(nb);
          ServedAllocated(s, nb, p);
        } else {
          NoSmallFit(nb);
          bins.TreeMapTells();
          if bins.large.treemap != 0 {
            BinnedReady(SomeTree());
            p := TmallocSmall(nb);
            ServedAllocated(s, nb, p);
          }
        }
      }
    }

    ghost function SomeExact(nb: nat): (c: Addr)
      requires HasExact(bins.Content(), nb)
      reads bins, bins.small, bins.large
      ensures c in bins.Content()
    {
      if B.HasSize(bins.Content(), nb) then
        var c :| c in bins.Content() && bins.Content()[c] == nb; c
      else
        var c :| c in bins.Content() && bins.Content()[c] == nb + 8; c
    }

    ghost function SomeTree(): (c: Addr)
      requires exists p {:trigger bins.Content()[p]} | p in bins.Content() :: bins.Content()[p] >= MIN_LARGE
      reads bins, bins.small, bins.large
      ensures c in bins.Content()
    {
      var c :| c in bins.Content() && bins.Content()[c] >= MIN_LARGE; c
    }

    ghost function SomeBehind(nb: nat): (c: Addr)
      requires bins.Valid() && SmallRequest(nb) && !HasExact(bins.Content(), nb)
      requires Prefixes.Prefix(bins.small.smallmap, nb / 8) != 0
      reads bins, bins.small, bins.large
      ensures c in bins.Content()
    {
      SmallBits(nb);
      BinMaps.FirstBehind(bins.small.smallmap, nb / 8);
      LeastBin(nb, BinMaps.Bit2Idx(BinMaps.LeastBit(BinMaps.BitsBehind(bins.small.smallmap, nb / 8))));
      var c :| c in bins.Content() && bins.Content()[c] >= nb; c
    }

    /** The part of malloc for large requests that looks into the trees. */
    method MallocLarge(nb: nat) returns (p: Addr)
      requires Valid() && Aligned(nb) && MIN_LARGE <= nb < MOD
      modifies this`st, this`lay, bins.small, bins.large
      ensures p != NULL ==> Allocated(old(Image()), nb, p)
      ensures p != NULL ==> LargeChoice(old(bins.Content()), old(st.dv), old(st.dvsize), old(st.top), nb, p)
      ensures p == NULL ==> Unmoved(old(st), old(lay), old(bins.Content()), old(bins.Fields()))
      ensures p == NULL ==> !BeatsDv(bins.Content(), st.dvsize, nb)
    {
      hide B.Bins.Valid, B.Bins.Content, B.Bins.Fields, Tiled, Placed, SegmentsOk, Grid, Binned;
      ghost var s := Image();
      p := NULL;
      bins.TreeMapTells();
      if bins.large.treemap != 0 {
        BinnedReady(SomeTree());
        p := TmallocLarge(nb);
        if p != NULL {
          ServedAllocated(s, nb, p);
        }
      }
    }

    /** The rest of malloc: dv, top, the system. */
    method MallocRest(nb: nat) returns (p: Addr)
      requires Valid() && nb < MOD && (nb == MOD - 1 || (Aligned(nb) && MIN_CHUNK <= nb))
      modifies this`st, this`sys, this`lay, bins.small, bins.large
      ensures Valid() && (p != NULL ==> nb < MOD - 1 && Allocated(old(Image()), nb, p))
      ensures p == NULL ==> SpareLive(old(Image()), Image(), {})
      ensures nb <= old(st.dvsize) ==> p == old(st.dv) && p != NULL
      ensures old(st.dvsize) < nb < old(st.topsize) ==> p == old(st.top) && p != NULL
    {
      hide B.Bins.Valid, B.Bins.Content, B.Bins.Fields, Placed, SegmentsOk, Binned;
      if nb <= st.dvsize {
        DvBelow();
        p := UseDv(nb, bins.Content(), bins.Fields());
        SparedLive(old(Image()), Image(), {p});
        LiveNotNull(p);
      } else if nb < st.topsize {
        DvBelow();
        LiveRefl(Image());
        p := ServeTop(nb, Image());
      } else {
        ghost var padded;
        p, padded := SysAlloc(nb);
      }
    }

    lemma DvBelow()
      requires Valid()
      ensures st.dvsize < MOD - 1 && st.topsize < MOD - 1
    {
      hide B.Bins.Valid, B.Bins.Content;
      if st.top != NULL {
        AboveLeast(H(), sys.segs, sys.least, st.top);
        Recall(SegmentOk(sys.segs, 0, sys.least));
        if st.dv != NULL {
          AboveLeast(H(), sys.segs, sys.least, st.dv);
          Recall(ChunkOk(H(), st.dv));
        }
      }
    }

    /** dlmalloc, on chunks: the result is the chunk, not the memory behind its header. */
    method DlMalloc(bytes: nat) returns (p: Addr)
      requires Valid() && bytes < MOD
      modifies this`st, this`sys, this`lay, bins.small, bins.large
      ensures Valid()
      ensures p != NULL ==> bytes < MAX_REQUEST && Allocated(old(Image()), Request2Size(bytes), p)
      ensures p != NULL ==> Blocks(H()) == old(Blocks(H()))[p := SizeAt(H(), p)]
      ensures p == NULL ==> SpareLive(old(Image()), Image(), {}) && Blocks(H()) == old(Blocks(H()))
      ensures bytes < MAX_REQUEST && Available(old(bins.Content()), old(st), Request2Size(bytes))
        ==> p != NULL && Choice(bytes, old(bins.Content()), old(st), Request2Size(bytes), p)
    {
      hide B.Bins.Valid, B.Bins.Content, B.Bins.Fields;
      var nb: nat;
      p := NULL;
      LiveRefl(Image());
      Sizes(bytes);
      if bytes <= MAX_SMALL_REQUEST {
        nb := Request2Size(bytes);
        p := MallocSmall(nb);
      } else if bytes >= MAX_REQUEST {
        nb := MOD - 1;
      } else {
        nb := PadRequest(bytes);
        p := MallocLarge(nb);
      }
      if p == NULL {
        p := MallocRest(nb);
      }
      if p == NULL {
        BlocksSame(old(Image()), Image());
      } else {
        BlockAdded(old(Image()), Image(), p);
      }
    }

    /** The padded size of a request. */
    lemma Sizes(bytes: nat)
      requires bytes < MOD
      ensures bytes <= MAX_SMALL_REQUEST ==> SmallRequest(Request2Size(bytes))
      ensures MAX_SMALL_REQUEST < bytes ==> Request2Size(bytes) == PadRequest(bytes) && MIN_LARGE <= PadRequest(bytes)
      ensures bytes < MAX_REQUEST ==> Request2Size(bytes) < MOD - 1
    {
    }
  
    // ---- giving memory back to the system ----

    /** is_inuse */
    predicate IsInUse(p: Addr)
      reads this
    {
      !(HeadAt(st.hd, p).pinuse && !HeadAt(st.hd, p).cinuse)
    }

    /** The test of release_unused_segments: the first chunk is free and reaches the reserve at the end. */
    predicate Unused(k: nat)
      requires k < |sys.segs|
      reads this
    {
      Vacant(st.hd, sys.segs[k])
    }

    lemma UnusedDroppable(k: nat)
      requires st.top != NULL && Running(H()) && Accounted(sys) && 0 < k < |sys.segs| && Unused(k)
      ensures var p := First(sys.segs[k]);
        && CanDrop(H(), sys.segs, sys.least, k) && Free(H(), p) && MIN_LARGE <= SizeAt(H(), p)
        && HoldsAddr(sys.segs[k], sys.segs[k].at)
    {
      var p := First(sys.segs[k]);
      Recall(FirstOk(H(), sys.segs, k));
      Recall(SegmentOk(sys.segs, k, sys.least));
      Recall(SegmentOk(sys.segs, 0, sys.least));
      Recall(SegApart(sys.segs, 0, k));
      Recall(MappedOk(sys, k));
      GranularLarge(sys.segs[k].size);
      Granules();
      assert HoldsAddr(sys.segs[k], p);
    }

    /** One turn of release_unused_segments: unmap an unused segment, or put its chunk back. */
    method ReleaseSegment(k: nat) returns (gone: bool)
      requires Ready() && Accounted(sys) && 0 < k < |sys.segs| && Unused(k)
      modifies this`st, this`sys, this`lay, bins.small, bins.large
      ensures Ready() && Accounted(sys) && SpareLive(old(Image()), Image(), {})
      ensures st.topsize == old(st.topsize) && st.hd == old(st.hd)
      ensures gone ==> sys == old(sys).(segs := Dropped(old(sys.segs), k), footprint := sys.footprint)
      ensures gone ==> sys.footprint == old(sys.footprint) - old(sys.segs)[k].size
      ensures !gone ==> sys == old(sys)
    {
      hide B.Bins.Valid, B.Bins.Content, B.Bins.Fields, Tiled, Placed, SegmentsOk, Total;
      ghost var s, z := Image(), sys;
      UnusedDroppable(k);
      var p := First(sys.segs[k]);
      var psize := HeadAt(st.hd, p).size;
      assert HoldsAddr(sys.segs[k], sys.segs[k].at);
      TakeUnused(p, psize);
      ghost var y := Image();
      gone := Unmap();
      if gone {
        TotalAt(sys.segs, k);
        Drop(k, p, bins.Content(), bins.Fields());
        AccountDropped(z, sys, k);
        LiveTrans(s, y, Image(), {}, {});
      } else {
        InsertFree(p, psize);
        SparedLive(y, Image(), {});
        LiveTrans(s, y, Image(), {}, {});
      }
      assert {} + {} == NONE;
    }

    /** dv, or a binned chunk, is set aside. */
    method TakeUnused(p: Addr, psize: nat)
      requires Ready() && Free(H(), p) && SizeAt(H(), p) == psize >= MIN_LARGE
      modifies this`st, bins.small, bins.large
      ensures Running(H()) && DvOk(H()) && Filled(H(), {st.dv, p}) && p != st.dv && H() == old(H())
      ensures st == old(st).(dv := st.dv, dvsize := st.dvsize) && SpareLive(old(Image()), Image(), {})
    {
      hide B.Bins.Valid, B.Bins.Content, B.Bins.Fields;
      ghost var h := H();
      Recall(ChunkOk(h, p));
      if p == st.dv {
        st := st.(dv := NULL, dvsize := 0);
        assert H() == h;
        ghost var t := bins.Content();
        forall a {:trigger BinnedAt(h, {NULL, p}, t, a)} ensures BinnedAt(h, {NULL, p}, t, a) {
          Recall(BinnedAt(h, {p}, t, a));
          Recall(ChunkOk(h, NULL));
        }
        LiveRefl(Image());
      } else {
        Recall(BinnedAt(h, {st.dv}, bins.Content(), p));
        TakeTree(p, psize);
        SparedLive(old(Image()), Image(), {});
      }
    }

    method Drop(k: nat, p: Addr, ghost t: B.Table, ghost l: B.Links)
      requires Running(H()) && DvOk(H()) && Binned(H(), {st.dv, p}, t) && p != st.dv
      requires k < |sys.segs| && CanDrop(H(), sys.segs, sys.least, k) && p == First(sys.segs[k])
      requires sys.segs[k].size <= sys.footprint
      modifies this`sys, this`lay
      ensures Running(H()) && DvOk(H()) && Binned(H(), {st.dv}, t) && SpareLive(Store(old(H()), l), Store(H(), l), {})
      ensures sys == old(sys).(segs := Dropped(old(sys.segs), k),
                               footprint := old(sys.footprint) - old(sys.segs)[k].size)
    {
      ghost var h := H();
      DropStep(h, sys.segs, sys.least, k, {st.dv, p}, t, {st.dv}, l, st.dv);
      lay := Layout(DropSegment(h, sys.segs, k).chunks, DropSegment(h, sys.segs, k).fences,
                    DropSegment(h, sys.segs, k).pins);
      assert H() == DropSegment(h, sys.segs, k);
      sys := sys.(footprint := sys.footprint - sys.segs[k].size, segs := Dropped(sys.segs, k));
    }

    /** release_unused_segments: the segments at ks remain, all others are vacant, and all heads stay. */
    method ReleaseUnused() returns (released: nat, ghost ks: seq<nat>)
      requires Ready() && Accounted(sys)
      modifies this`st, this`sys, this`lay, bins.small, bins.large
      ensures Ready() && Accounted(sys) && SpareLive(old(Image()), Image(), {})
      ensures Thinned(st.hd, old(sys.segs), sys.segs, ks) && st.hd == old(st.hd)
      ensures sys.footprint + released == old(sys.footprint) && st.topsize == old(st.topsize)
    {
      hide B.Bins.Valid, B.Bins.Content, B.Bins.Fields, Tiled, Placed, SegmentsOk, Total, Accounted;
      hide Thinned, Vacant;
      released := 0;
      var nsegs, k := 0, 1;
      LiveRefl(Image());
      ks := AllRemain(st.hd, sys.segs);
      while k < |sys.segs|
        invariant Ready() && Accounted(sys) && SpareLive(old(Image()), Image(), {}) && k >= 1
        invariant sys.footprint + released == old(sys.footprint) && st.topsize == old(st.topsize)
        invariant Thinned(st.hd, old(sys.segs), sys.segs, ks) && st.hd == old(st.hd)
        decreases |sys.segs| - k
      {
        nsegs := nsegs + 1;
        var gone := false;
        if Unused(k) {
          ghost var y, segs := Image(), sys.segs;
          var n := sys.segs[k].size;
          gone := ReleaseSegment(k);
          LiveTrans(old(Image()), y, Image(), {}, {});
          assert {} + {} == NONE;
          if gone {
            released := released + n;
            ks := OneLess(st.hd, old(sys.segs), segs, ks, k);
          }
        }
        if !gone {
          k := k + 1;
        }
      }
      ghost var z := sys;
      sys := sys.(releaseChecks := if nsegs > MAX_RELEASE_CHECK_RATE then nsegs else MAX_RELEASE_CHECK_RATE);
      AccountSame(z, sys);
    }
  
    /** has_segment_link */
    method HasSegmentLink(k: nat) returns (linked: bool)
      requires k < |sys.segs|
      ensures linked
        <==> exists j {:trigger sys.segs[j]} | 0 <= j < |sys.segs| :: HoldsAddr(sys.segs[k], sys.segs[j].at)
    {
      var j := 0;
      while j < |sys.segs|
        invariant j <= |sys.segs| && forall i | 0 <= i < j :: !HoldsAddr(sys.segs[k], sys.segs[i].at)
      {
        if HoldsAddr(sys.segs[k], sys.segs[j].at) {
          return true;
        }
        j := j + 1;
      }
      linked := false;
    }

    /** How many bytes at the end of the current segment sys_trim gets the system to take back. */
    method TrimTop(pad: nat) returns (released: nat)
      requires Ready() && Accounted(sys) && TOP_FOOT <= pad < st.topsize
      ensures released < st.topsize - pad && (sys.segs[0].mmapped ==> Granular(released))
    {
      hide TrimExtra, Accounted, Granular, B.Bins.Valid, B.Bins.Content, B.Bins.Fields, Tiled, Grid, Binned, Placed,
           SegmentsOk;
      var extra := TrimExtra(st.topsize - pad);
      TrimExtraFits(st.topsize - pad);
      GranularZero();
      released := 0;
      var k := SegmentHolding(st.top);
      CurrentHoldsTop(k);
      if sys.segs[k].mmapped {
        var linked := HasSegmentLink(k);
        if sys.segs[k].size >= extra && !linked {
          var done := Unmap();
          if done {
            released := extra;
          }
        }
      } else {
        released := TrimBreak(extra, End(sys.segs[k]));
      }
    }

    /** MORECORE takes back the end of a segment that reaches the break, if it can. */
    method TrimBreak(extra0: nat, end: Addr) returns (released: nat)
      ensures released <= extra0
    {
      var extra := extra0;
      released := 0;
      if extra >= HALF_MAX {
        extra := HALF_MAX + 1 - GRANULARITY;                // Avoid wrapping negative
        HalfGranular();
      }
      var old_br := Break();
      if old_br == end {
        var rel_br, new_br := Shrink(old_br, extra);
        if rel_br != FAIL && new_br < old_br {
          released := old_br - new_br;
        }
      }
    }

    /** sys_trim: the end of top and unused segments go back to the system. */
    method SysTrim(pad: nat) returns (trimmed: bool)
      requires Valid()
      modifies this`st, this`sys, this`lay, bins.small, bins.large
      ensures Valid() && SpareLive(old(Image()), Image(), {}) && (old(Ready()) ==> Ready())
      ensures sys.footprint <= old(sys.footprint) && (trimmed <==> sys.footprint < old(sys.footprint))
      ensures pad < MAX_REQUEST && pad + TOP_FOOT < old(st.topsize) ==> pad + TOP_FOOT < st.topsize
    {
      hide B.Bins.Valid, B.Bins.Content, B.Bins.Fields, Tiled, Placed, SegmentsOk, Total;
      var released := 0;
      LiveRefl(Image());
      if pad < MAX_REQUEST && st.top != NULL {
        var room := pad + TOP_FOOT;                 // room for segment overhead
        if st.topsize > room {
          released := TrimTop(room);
          if released != 0 {
            CutTop(released);
          }
        }
        ghost var y := Image();
        var unmapped, _ := ReleaseUnused();
        released := released + unmapped;
        LiveTrans(old(Image()), y, Image(), {}, {});
        assert {} + {} == NONE;
        if released == 0 && st.topsize > sys.trimCheck {
          ghost var z := sys;
          sys := sys.(trimCheck := MOD - 1);
          AccountSame(z, sys);
        }
      }
      trimmed := released != 0;
    }

    method CutTop(released: nat)
      requires Ready() && Accounted(sys) && 0 < released < st.topsize && (sys.segs[0].mmapped ==> Granular(released))
      modifies this`st, this`sys
      ensures Ready() && Accounted(sys) && SpareLive(old(Image()), Image(), {})
      ensures st.topsize == old(st.topsize) - released && sys.footprint == old(sys.footprint) - released
    {
      hide B.Bins.Valid, B.Bins.Content, B.Bins.Fields, Tiled, Total;
      ghost var z := sys;
      TopInSegment();
      AccountedSize(sys, released);
      sys := sys.(footprint := sys.footprint - released);
      ResizeCurrent(sys.segs[0].size - released, st.topsize - released, bins.Content(), bins.Fields());
      AccountTrimmed(z, sys, released);
    }

    lemma TopInSegment()
      requires Running(H())
      ensures st.topsize <= sys.segs[0].size
    {
    }
  
    // ---- free ----

    /** A block of the client passes the checks of free, realloc and bulk_free. */
    lemma LiveOk(p: Addr)
      requires Valid() && Live(H(), p)
      ensures Ready() && p > 0 && sys.least <= p && HeadAt(st.hd, p).cinuse && IsInUse(p)
      ensures var n := p + SizeAt(H(), p); p < n && sys.least <= n && HeadAt(st.hd, n).pinuse
      ensures !HeadAt(st.hd, p).pinuse ==> p - At(st.ft, p) + SizeAt(H(), p - At(st.ft, p)) == p
    {
      hide B.Bins.Valid, B.Bins.Content;
      AboveLeast(H(), sys.segs, sys.least, p);
      Recall(SegmentOk(sys.segs, 0, sys.least));
      NextOfLive(H(), sys.segs, sys.least, p);
      Recall(PrevOk(H(), p));
    }

    /** dlfree, on the chunk in front of the memory */
    method DlFree(p: Addr)
      requires Valid() && (p == NULL || Live(H(), p))
      modifies this`st, this`sys, this`lay, bins.small, bins.large
      ensures Valid() && SpareLive(old(Image()), Image(), {p}) && !Live(H(), p)
      ensures Blocks(H()) == old(Blocks(H())) - {p}
    {
      hide B.Bins.Valid, B.Bins.Content, B.Bins.Fields, Placed, SegmentsOk, Grid, Binned, Accounted;
      ghost var s := Image();
      if p != NULL {
        LiveOk(p);
        if sys.least <= p && IsInUse(p) {                   // RTCHECK(ok_address(fm, p) && ok_inuse(p))
          var psize := HeadAt(st.hd, p).size;
          var how, q := Coalesce(p, psize);
          SparedLive(s, Image(), {p});
          ghost var y := Image();
          match how {
            case Settled =>
              LiveRefl(y);
            case ToTop =>
              if st.topsize > sys.trimCheck {               // should_trim
                var _ := SysTrim(0);
              } else {
                LiveRefl(y);
              }
            case Loose(size) =>
              BinFreed(q, size);
          }
          Recall(SameBlock(y, Image(), p));
          LiveTrans(s, y, Image(), {p}, {});
          assert {p} + {} == {p};
        } else {
          assert false;
        }
      } else {
        LiveRefl(s);
        NullNotLive();
      }
      BlockRemoved(s, Image(), p);
    }

    /** Binning what has been freed; every so often after a large chunk, unused segments are looked for. */
    method BinFreed(q: Addr, size: nat)
      requires Running(H()) && DvOk(H()) && Filled(H(), {st.dv, q}) && Free(H(), q) && SizeAt(H(), q) == size
      requires q != st.dv
      requires Accounted(sys)
      modifies this`st, this`sys, this`lay, bins.small, bins.large
      ensures Ready() && Accounted(sys) && SpareLive(old(Image()), Image(), {})
    {
      hide B.Bins.Valid, B.Bins.Content, B.Bins.Fields, Placed, SegmentsOk, Grid, Binned, Accounted;
      InsertFree(q, size);
      SparedLive(old(Image()), Image(), {});
      if !B.IsSmall(size) {
        ghost var y := Image();
        CountRelease();
        LiveTrans(old(Image()), y, Image(), {}, {});
        assert {} + {} == NONE;
      }
    }

    lemma NullNotLive()
      requires Valid()
      ensures !Live(H(), NULL)
    {
      if Live(H(), NULL) {
        Recall(ChunkOk(H(), NULL));
      }
    }

    /** if (--release_checks == 0) release_unused_segments */
    method CountRelease()
      requires Ready() && Accounted(sys)
      modifies this`st, this`sys, this`lay, bins.small, bins.large
      ensures Ready() && Accounted(sys) && SpareLive(old(Image()), Image(), {})
    {
      hide B.Bins.Valid, B.Bins.Content, B.Bins.Fields, Tiled, Placed, SegmentsOk, Grid, Binned;
      ghost var z := sys;
      sys := sys.(releaseChecks := Wrap(sys.releaseChecks - 1));
      AccountSame(z, sys);
      LiveRefl(Image());
      if sys.releaseChecks == 0 {
        var _, _ := ReleaseUnused();
      }
    }
  
    // ---- realloc ----

    /** A used chunk is cut in two used ones. */
    method CutUsed(p: Addr, nb: nat, rsize: nat, ghost t: B.Table, ghost l: B.Links)
      requires Running(H()) && DvOk(H()) && Binned(H(), {st.dv}, t) && st.top != NULL && CanSplit(H(), p, nb)
      requires Aligned(nb) && SizeAt(H(), p) == nb + rsize
      modifies this`st, this`lay
      ensures Running(H()) && DvOk(H()) && Binned(H(), {st.dv}, t) && st.top != NULL
      ensures Live(H(), p) && SizeAt(H(), p) == nb && Live(H(), p + nb) && SizeAt(H(), p + nb) == rsize
      ensures PInUse(H(), p) == old(PInUse(H(), p)) && !Used(old(H()), p + nb)
      ensures Spared(Store(old(H()), l), Store(H(), l), {p, p + nb})
      ensures Untouched(Store(old(H()), l), Store(H(), l), p, nb)
    {
      ghost var h := H();
      Recall(ChunkOk(h, p));
      SplitStep(h, sys.segs, sys.least, p, nb, {st.dv}, t, l, st.dv);
      SplitSelf(h, p, nb, nb, l);
      st := SetInUse(st, p, nb);
      st := SetInUse(st, p + nb, rsize);
      lay := lay.(chunks := lay.chunks + {p + nb});
      assert st.hd == Split(h, p, nb).hd;
      assert H() == Split(h, p, nb);
    }

    /** A used chunk takes in the chunk behind it, which has been unlinked. */
    method TakeNext(p: Addr, newsize: nat, ghost t: B.Table, ghost l: B.Links)
      requires Running(H()) && DvOk(H()) && Live(H(), p) && Free(H(), Next(H(), p)) && st.top != NULL
      requires Binned(H(), {st.dv, Next(H(), p)}, t) && st.dv != Next(H(), p)
      requires newsize == SizeAt(H(), p) + SizeAt(H(), Next(H(), p))
      modifies this`st, this`lay
      ensures Running(H()) && DvOk(H()) && Binned(H(), {st.dv}, t) && st.top != NULL
      ensures Live(H(), p) && SizeAt(H(), p) == newsize && PInUse(H(), p) == old(PInUse(H(), p))
      ensures Spared(Store(old(H()), l), Store(H(), l), {p})
      ensures Untouched(Store(old(H()), l), Store(H(), l), p, old(SizeAt(H(), p)))
    {
      ghost var h, n := H(), Next(H(), p);
      TakeNextStep(h, sys.segs, sys.least, p, {st.dv, n}, t, {st.dv}, l, st.dv);
      st := SetInUse(st, p, newsize);
      lay := lay.(chunks := lay.chunks - {n});
      assert st.hd == MergeNext(h, p).hd;
      assert H() == MergeNext(h, p);
    }

    /** Extending into top. */
    method ExtendTop(p: Addr, nb: nat, ghost t: B.Table, ghost l: B.Links)
      requires Running(H()) && DvOk(H()) && Binned(H(), {st.dv}, t) && CanGrowTop(H(), p, nb) && Aligned(nb)
      modifies this`st, this`lay
      ensures Running(H()) && DvOk(H()) && Binned(H(), {st.dv}, t) && st.top != NULL
      ensures Live(H(), p) && SizeAt(H(), p) == nb
      ensures Spared(Store(old(H()), l), Store(H(), l), {p})
      ensures Untouched(Store(old(H()), l), Store(H(), l), p, old(SizeAt(H(), p)))
    {
      ghost var h := H();
      GrowTopStep(h, sys.segs, sys.least, p, nb, {st.dv}, t, l, st.dv);
      var newsize := HeadAt(st.hd, p).size + st.topsize;
      var newtopsize := newsize - nb;
      var newtop := p + nb;
      lay := lay.(chunks := lay.chunks - {st.top} + {newtop});
      st := SetInUse(st, p, nb);
      st := st.(hd := PutHead(st.hd, newtop, Head(newtopsize, false, true)), top := newtop, topsize := newtopsize);
      assert st.hd == GrowTop(h, p, nb).hd;
      assert H() == GrowTop(h, p, nb);
    }

    /** Extending over all of dv. */
    method TakeDv(p: Addr, dvs: nat, ghost t: B.Table, ghost l: B.Links)
      requires Running(H()) && DvOk(H()) && Binned(H(), {st.dv}, t) && st.top != NULL && Live(H(), p)
      requires p + SizeAt(H(), p) == st.dv && st.dv != NULL && dvs == st.dvsize
      modifies this`st, this`lay
      ensures Running(H()) && DvOk(H()) && Binned(H(), {st.dv}, t) && st.top != NULL
      ensures Live(H(), p) && SizeAt(H(), p) == old(SizeAt(H(), p)) + dvs
      ensures Spared(Store(old(H()), l), Store(H(), l), {p})
      ensures Untouched(Store(old(H()), l), Store(H(), l), p, old(SizeAt(H(), p)))
    {
      hide Placed, SegmentsOk, Grid, Binned, Spared, Untouched;
      ghost var h, n := H(), st.dv;
      var oldsize := HeadAt(st.hd, p).size;
      Recall(ChunkOk(h, NULL));
      TakeNextStep(h, sys.segs, sys.least, p, {n}, t, {NULL}, l, NULL);
      st := SetInUse(st, p, oldsize + dvs);
      st := st.(dvsize := 0, dv := NULL);
      lay := lay.(chunks := lay.chunks - {n});
      assert st.hd == MergeNext(h, p).hd;
      assert H() == MergeNext(h, p);
    }

    /** Extending into dv. */
    method ExtendDv(p: Addr, nb: nat, ghost t: B.Table, ghost l: B.Links)
      requires Running(H()) && DvOk(H()) && Binned(H(), {st.dv}, t) && st.top != NULL && Live(H(), p)
      requires p + SizeAt(H(), p) == st.dv && st.dv != NULL && Aligned(nb) && MIN_CHUNK <= nb
      requires SizeAt(H(), p) < nb <= SizeAt(H(), p) + st.dvsize
      modifies this`st, this`lay
      ensures Running(H()) && DvOk(H()) && Binned(H(), {st.dv}, t) && st.top != NULL
      ensures Live(H(), p) && nb <= SizeAt(H(), p)
      ensures Spared(Store(old(H()), l), Store(H(), l), {p})
      ensures Untouched(Store(old(H()), l), Store(H(), l), p, old(SizeAt(H(), p)))
    {
      hide Placed, SegmentsOk, Grid, Binned, Spared, Untouched;
      ghost var h, n := H(), st.dv;
      var oldsize := HeadAt(st.hd, p).size;
      var dvs := st.dvsize;
      var dsize := oldsize + dvs - nb;
      if dsize >= MIN_CHUNK {
        var r := p + nb;
        DvCutStep(h, p, nb, dsize, t, l);
        DvCutWrites(h, p, nb, dsize);
        st := SetInUse(st, p, nb);
        st := SetFree(st, r, dsize);
        st := st.(hd := SetPInUse(st.hd, r + dsize, false), dvsize := dsize, dv := r);
        lay := lay.(chunks := lay.chunks - {n} + {r});
        assert st.hd == DvCut(h, p, nb).hd;
        assert H() == DvCut(h, p, nb);
      } else {
        TakeDv(p, dvs, t, l);
      }
    }

    /** p takes in dv and gives the rest back. */
    ghost function DvCut(h: Heap, p: Addr, nb: nat): Heap {
      Release(Split(MergeNext(h, p), p, nb), p + nb)
    }

    /** What try_realloc_chunk writes for that. */
    lemma DvCutWrites(h: Heap, p: Addr, nb: nat, dsize: nat)
      requires Tiled(h) && Live(h, p) && Free(h, Next(h, p)) && SizeAt(h, p) < nb && MIN_CHUNK <= dsize
      requires nb + dsize == SizeAt(h, p) + SizeAt(h, Next(h, p))
      ensures var w, r := DvCut(h, p, nb), p + nb;
        && w.hd == SetPInUse(PutHead(SetInUse(State(h.hd, h.ft, 0, 0, 0, 0), p, nb).hd, r, Head(dsize, false, true)),
                             r + dsize, false)
        && w.ft == Put(h.ft, r + dsize, dsize) && w.chunks == h.chunks - {Next(h, p)} + {r}
    {
      hide Tiled, HeadAt, PutHead, SetPInUse;
      var n, m, r := Next(h, p), MergeNext(h, p), p + nb;
      var s := SizeAt(h, p) + SizeAt(h, n);
      var c := Split(m, p, nb);
      MergedHeads(h, p, n);
      assert m.hd == SetPInUse(PutHead(h.hd, p, HeadAt(h.hd, p).(size := s)), r + dsize, true);
      assert c.hd == PutHead(PutHead(m.hd, p, HeadAt(m.hd, p).(size := nb)), r, Head(dsize, true, true));
      SplitHead(m, p, nb, dsize);
      CutHeads(h.hd, p, r, r + dsize, s, nb, dsize);
    }

    lemma MergedHeads(h: Heap, p: Addr, n: Addr)
      requires Tiled(h) && Live(h, p) && Free(h, n) && n == Next(h, p)
      ensures var m := MergeNext(h, p);
        SizeAt(m, p) == SizeAt(h, p) + SizeAt(h, n) && SizeAt(h, p) > 0
    {
      Recall(ChunkOk(h, p));
      Recall(ChunkOk(h, n));
    }

    lemma SplitHead(h: Heap, p: Addr, nb: nat, dsize: nat)
      requires SizeAt(h, p) == nb + dsize
      ensures SizeAt(Split(h, p, nb), p + nb) == dsize
    {
    }

    lemma DvCutStep(h: Heap, p: Addr, nb: nat, dsize: nat, t: B.Table, l: B.Links)
      requires Running(h) && DvOk(h) && Binned(h, {st.dv}, t) && Live(h, p) && Next(h, p) == st.dv && st.dv != NULL
      requires Aligned(nb) && SizeAt(h, p) < nb && MIN_CHUNK <= dsize && MIN_CHUNK <= nb
      requires nb + dsize == SizeAt(h, p) + st.dvsize
      ensures var w, r := DvCut(h, p, nb), p + nb;
        && Wf(w, sys.segs, sys.least) && w.top == st.top && SizeAt(w, w.top) == st.topsize && Binned(w, {r}, t)
        && Free(w, r) && SizeAt(w, r) == dsize && Live(w, p) && SizeAt(w, p) == nb && r > 0
        && Spared(Store(h, l), Store(w, l), {p}) && Untouched(Store(h, l), Store(w, l), p, SizeAt(h, p))
    {
      hide Placed, SegmentsOk, Spared, Untouched, Frame, Binned, Grid;
      var r, c := p + nb, Split(MergeNext(h, p), p, nb);
      TakeCutStep(h, sys.segs, sys.least, p, nb, t, l);
      var w := Release(c, r);
      Recall(ChunkOk(c, r));
      ReleaseWf(c, sys.segs, sys.least, r);
      ReleaseFrame(c, r);
      ReleaseSelfUntouched(c, p, r, SizeAt(h, p), l);
      assert {r, r} == {r};
      Recall(ChunkOk(c, NULL));
      Recall(ChunkOk(h, p));
      StepEffect(c, w, r, r, {NULL}, t, {r}, l, NULL);
      UntouchedTrans(Store(h, l), Store(c, l), Store(w, l), p, SizeAt(h, p));
      SparedVia(Store(h, l), Store(c, l), Store(w, l), p, r);
    }

    /** Whether a block can be resized in place to a chunk of nb bytes. */
    ghost predicate Extendable(h: Heap, p: Addr, nb: nat) {
      var s, n := SizeAt(h, p), Next(h, p);
      nb <= s || (n == h.top && nb < s + SizeAt(h, n)) || (Free(h, n) && nb <= s + SizeAt(h, n))
    }

    /** The block p has been resized in place. */
    ghost predicate InPlace(s: Store, p: Addr, nb: nat)
      reads this, bins, bins.small, bins.large
    {
      && Ready() && Live(H(), p) && nb <= SizeAt(H(), p) && SpareLive(s, Image(), {p})
      && Untouched(s, Image(), p, if nb <= SizeAt(s.h, p) then nb else SizeAt(s.h, p))
    }

    /** Giving back the tail of a used chunk. */
    method CutAndDispose(p: Addr, nb: nat, rsize: nat)
      requires Ready() && CanSplit(H(), p, nb) && Aligned(nb) && SizeAt(H(), p) == nb + rsize
      modifies this`st, this`lay, bins.small, bins.large
      ensures Ready() && Live(H(), p) && SizeAt(H(), p) == nb && Spared(old(Image()), Image(), {p})
      ensures Untouched(old(Image()), Image(), p, nb)
    {
      hide B.Bins.Valid, B.Bins.Content, B.Bins.Fields, Tiled, Placed, SegmentsOk, Grid, Binned;
      ghost var s, r := Image(), p + nb;
      CutUsed(p, nb, rsize, bins.Content(), bins.Fields());
      ghost var y := Image();
      DisposeChunk(p + nb, rsize);
      SparedTrans(s, y, Image(), {p, r}, {r});
      Recall(SameUse(y, Image(), p));
      RunningPins(s.h, r);
      PinsUsed(H(), r);
      SparedBetween(s, Image(), {p, r} + {r}, {p});
      SparedUntouched(y, Image(), {r}, p, nb);
      UntouchedTrans(s, y, Image(), p, nb);
    }

    lemma RunningPins(h: Heap, r: Addr)
      requires Tiled(h) && !Used(h, r)
      ensures r !in h.pins
    {
      PinsUsed(h, r);
    }

    /** try_realloc_chunk, for chunks that are not directly mapped */
    method TryReallocChunk(p: Addr, nb: nat) returns (newp: Addr)
      requires Valid() && Live(H(), p) && Aligned(nb) && MIN_CHUNK <= nb
      modifies this`st, this`lay, bins.small, bins.large
      ensures Valid() && (newp == NULL || newp == p) && (newp != NULL <==> old(Extendable(H(), p, nb)))
      ensures newp == NULL ==> Unmoved(old(st), old(lay), old(bins.Content()), old(bins.Fields()))
      ensures newp != NULL ==> InPlace(old(Image()), p, nb)
    {
      hide B.Bins.Valid, B.Bins.Content, B.Bins.Fields, Placed, SegmentsOk, Grid, Binned, Accounted;
      newp := NULL;
      LiveOk(p);
      ghost var s := Image();
      var oldsize := HeadAt(st.hd, p).size;
      var next := p + oldsize;
      NextOfLive(H(), sys.segs, sys.least, p);
      if sys.least <= p && IsInUse(p) && p < next && HeadAt(st.hd, next).pinuse {      // RTCHECK
        if oldsize >= nb {
          var rsize := oldsize - nb;
          if rsize >= MIN_CHUNK {
            CutAndDispose(p, nb, rsize);
            SparedLive(s, Image(), {p});
          }
          newp := p;
        } else if next == st.top {
          if oldsize + st.topsize > nb {
            ExtendTop(p, nb, bins.Content(), bins.Fields());
            SparedLive(s, Image(), {p});
            newp := p;
          }
        } else if next == st.dv {
          if oldsize + st.dvsize >= nb {
            ExtendDv(p, nb, bins.Content(), bins.Fields());
            SparedLive(s, Image(), {p});
            newp := p;
          }
        } else if !HeadAt(st.hd, next).cinuse {
          var nextsize := HeadAt(st.hd, next).size;
          if oldsize + nextsize >= nb {
            ExtendNext(p, nb, oldsize, nextsize);
            SparedLive(s, Image(), {p});
            newp := p;
          }
        }
      } else {
        assert false;
      }
    }

    /** Extending into the next free chunk. */
    method ExtendNext(p: Addr, nb: nat, oldsize: nat, nextsize: nat)
      requires Ready() && Live(H(), p) && SizeAt(H(), p) == oldsize < nb && Aligned(nb) && MIN_CHUNK <= nb
      requires Free(H(), p + oldsize) && p + oldsize != st.dv && SizeAt(H(), p + oldsize) == nextsize
      requires nb <= oldsize + nextsize
      modifies this`st, this`lay, bins.small, bins.large
      ensures Ready() && Live(H(), p) && nb <= SizeAt(H(), p) && Spared(old(Image()), Image(), {p})
      ensures Untouched(old(Image()), Image(), p, oldsize)
    {
      hide B.Bins.Valid, B.Bins.Content, B.Bins.Fields, Placed, SegmentsOk, Grid, Binned;
      ghost var s := Image();
      UnlinkFree(H(), p + oldsize, nextsize);
      SparedUntouched(s, Image(), {}, p, oldsize);
      ghost var y := Image();
      var rsize := oldsize + nextsize - nb;
      TakeNext(p, oldsize + nextsize, bins.Content(), bins.Fields());
      SparedTrans(s, y, Image(), {}, {p});
      UntouchedTrans(s, y, Image(), p, oldsize);
      if rsize >= MIN_CHUNK {
        ghost var z := Image();
        CutAndDispose(p, nb, rsize);
        UntouchedLess(z, Image(), p, nb, oldsize);
        UntouchedTrans(s, z, Image(), p, oldsize);
        SparedTrans(s, z, Image(), {} + {p}, {p});
        assert {} + {p} + {p} == {p};
      } else {
        assert {} + {p} == {p};
      }
    }

    lemma UntouchedLess(s: Store, z: Store, p: Addr, n: nat, m: nat)
      requires Untouched(s, z, p, n) && m <= n
      ensures Untouched(s, z, p, m)
    {
    }
  
    /** The first byte that the client may use, and how many there are: chunk2mem and overhead_for. */
    function Mem(p: Addr): Addr {
      p + 2 * W
    }

    function Usable(size: nat): int {
      size - OVERHEAD
    }

    /** memcpy between regions that do not overlap */
    method Copy(dst: Addr, src: Addr, n: nat)
      requires dst + n <= src || src + n <= dst
      modifies this`data
      ensures Moved(old(data), data, src, dst, n)
    {
      var i := 0;
      while i < n
        invariant i <= n
        invariant forall x {:trigger At(data, x)} | dst <= x < dst + i :: At(data, x) == old(At(data, src + (x - dst)))
        invariant forall x {:trigger At(data, x)} | !(dst <= x < dst + i) :: At(data, x) == old(At(data, x))
      {
        ghost var d := data;
        data := Put(data, dst + i, At(data, src + i));
        i := i + 1;
        forall x {:trigger At(data, x)}
          ensures At(data, x) == if x == dst + i - 1 then At(d, src + i - 1) else At(d, x)
        {
        }
      }
    }

    /** Two blocks have no byte in common. */
    lemma BlocksApart(h: Heap, p: Addr, q: Addr)
      requires Tiled(h) && Live(h, p) && Live(h, q) && p != q
      ensures Next(h, p) <= q || Next(h, q) <= p
    {
      Recall(Apart(h, p, q));
      Recall(Apart(h, q, p));
    }

    /** The first n bytes of the old block are in the new one, and no other byte has changed. */
    ghost predicate Moved(before: Words, after: Words, src: Addr, dst: Addr, n: int) {
      && (forall x {:trigger At(after, x)} | dst <= x < dst + n :: At(after, x) == At(before, src + (x - dst)))
      && (forall x {:trigger At(after, x)} | !(dst <= x < dst + n) :: At(after, x) == At(before, x))
    }

    ghost function Min(a: int, b: int): int {
      if a < b then a else b
    }

    /** dlrealloc */
    method DlRealloc(oldp: Addr, bytes: nat) returns (newp: Addr)
      requires Valid() && bytes < MOD && (oldp == NULL || Live(H(), oldp))
      modifies this`st, this`sys, this`data, this`lay, bins.small, bins.large
      ensures Valid()
      ensures newp == NULL ==> SpareLive(old(Image()), Image(), {}) && data == old(data)
      ensures newp != NULL ==> Live(H(), newp) && Request2Size(bytes) <= SizeAt(H(), newp)
      ensures newp != NULL ==> SpareLive(old(Image()), Image(), {oldp, newp})
      ensures newp != NULL && newp != oldp ==> !Live(H(), oldp) && !Live(old(H()), newp)
      ensures newp != NULL && oldp == NULL ==> data == old(data)
      ensures newp != NULL && oldp != NULL ==>
        Moved(old(data), data, Mem(oldp), Mem(newp), Min(Usable(old(SizeAt(H(), oldp))), bytes))
      ensures newp == oldp != NULL ==>
        Untouched(old(Image()), Image(), oldp, Min(old(SizeAt(H(), oldp)), Request2Size(bytes)))
    {
      hide B.Bins.Valid, B.Bins.Content, B.Bins.Fields, Placed, SegmentsOk, Grid, Binned, Accounted;
      newp := NULL;
      LiveRefl(Image());
      if oldp == NULL {
        NullNotLive();
        newp := DlMalloc(bytes);
        if newp != NULL {
          LiveMore(old(Image()), Image(), {newp}, {oldp, newp});
          Recall(SameBlock(old(Image()), Image(), oldp));
        }
      } else if bytes < MAX_REQUEST {
        var nb := Request2Size(bytes);
        newp := TryReallocChunk(oldp, nb);
        if newp == NULL {
          newp := Relocate(oldp, bytes);
        } else {
          assert {oldp, newp} == {oldp};
        }
      }
    }

    lemma LiveMore(s: Store, z: Store, a: set<Addr>, b: set<Addr>)
      requires SpareLive(s, z, a) && a <= b
      ensures SpareLive(s, z, b)
    {
    }

    /** realloc that cannot stay in place: allocate, copy, free. */
    method Relocate(oldp: Addr, bytes: nat) returns (newp: Addr)
      requires Valid() && bytes < MAX_REQUEST && Live(H(), oldp) && SizeAt(H(), oldp) < Request2Size(bytes)
      modifies this`st, this`sys, this`data, this`lay, bins.small, bins.large
      ensures Valid()
      ensures newp == NULL ==> SpareLive(old(Image()), Image(), {}) && data == old(data)
      ensures newp != NULL ==> Live(H(), newp) && Request2Size(bytes) <= SizeAt(H(), newp) && newp != oldp
      ensures newp != NULL ==>
        SpareLive(old(Image()), Image(), {oldp, newp}) && !Live(H(), oldp) && !Live(old(H()), newp)
      ensures newp != NULL ==> Moved(old(data), data, Mem(oldp), Mem(newp), Min(Usable(old(SizeAt(H(), oldp))), bytes))
    {
      hide B.Bins.Valid, B.Bins.Content, B.Bins.Fields, Placed, SegmentsOk, Grid, Binned, Accounted;
      ghost var s := Image();
      newp := DlMalloc(bytes);
      if newp != NULL {
        ghost var y := Image();
        Recall(SameBlock(s, y, oldp));
        BlocksApart(H(), oldp, newp);
        LiveOk(oldp);
        var oc := HeadAt(st.hd, oldp).size - OVERHEAD;
        Recall(ChunkOk(H(), oldp));
        Copy(Mem(newp), Mem(oldp), if oc < bytes then oc else bytes);
        DlFree(oldp);
        Recall(SameBlock(y, Image(), newp));
        LiveTrans(s, y, Image(), {newp}, {oldp});
        assert {newp} + {oldp} == {oldp, newp};
      }
    }
  
    // ---- calloc and memalign ----

    /** memset(mem, 0, n) */
    method Clear(dst: Addr, n: nat)
      modifies this`data
      ensures forall x {:trigger At(data, x)} :: At(data, x) == if dst <= x < dst + n then 0 else old(At(data, x))
    {
      var i := 0;
      while i < n
        invariant i <= n
        invariant forall x {:trigger At(data, x)} :: At(data, x) == if dst <= x < dst + i then 0 else old(At(data, x))
      {
        ghost var d := data;
        data := Put(data, dst + i, 0);
        i := i + 1;
        forall x {:trigger At(data, x)} ensures At(data, x) == if x == dst + i - 1 then 0 else At(d, x) {
        }
      }
    }

    /** dlcalloc */
    method DlCalloc(n: nat, size: nat) returns (p: Addr)
      requires Valid() && n < MOD && size < MOD
      modifies this`st, this`sys, this`data, this`lay, bins.small, bins.large
      ensures Valid() && (p == NULL ==> SpareLive(old(Image()), Image(), {}) && data == old(data))
      ensures p != NULL ==>
        CallocSize(n, size) == n * size && Allocated(old(Image()), Request2Size(CallocSize(n, size)), p)
      ensures p != NULL ==> forall x {:trigger At(data, x)} ::
        At(data, x) == if Mem(p) <= x < Mem(p) + CallocSize(n, size) then 0 else old(At(data, x))
    {
      hide B.Bins.Valid, B.Bins.Content, B.Bins.Fields, Placed, SegmentsOk, Grid, Binned, Accounted, Tiled, CallocSize;
      CallocExact(n, size);
      var req := CallocSize(n, size);
      p := DlMalloc(req);
      if p != NULL {
        Clear(Mem(p), req);
      }
    }

    /** The aligned spot: at least a minimal chunk behind p, and with room for nb behind it. */
    lemma SpotFits(p: nat, alignment: nat, nb: nat, size: nat)
      requires PowerOfTwo(alignment) && alignment >= MIN_CHUNK && Aligned(p) && Aligned(nb) && Aligned(size)
      requires size >= nb + alignment + MIN_CHUNK && Mem(p) % alignment != 0 && nb >= MIN_CHUNK
      ensures var br := NextMultiple(Mem(p), alignment) - 2 * W;
        var pos := if br - p >= MIN_CHUNK then br else br + alignment;
        && Mem(pos) % alignment == 0 && Aligned(pos - p) && MIN_CHUNK <= pos - p
        && nb + MIN_CHUNK <= nb + (size - (pos - p))
        && nb <= size - (pos - p)
    {
      NextMultipleBounds(Mem(p), alignment);
      var br := NextMultiple(Mem(p), alignment) - 2 * W;
      var pos := if br - p >= MIN_CHUNK then br else br + alignment;
      MultipleAligned(Mem(pos), alignment);
      AlignedSum(Mem(pos), 2 * W);
      AlignedSum(pos, p);
    }

    /** Giving back the front of a used chunk. */
    method CutFront(p: Addr, lead: nat, newsize: nat)
      requires Ready() && CanSplit(H(), p, lead) && Aligned(lead) && SizeAt(H(), p) == lead + newsize
      modifies this`st, this`lay, bins.small, bins.large
      ensures Ready() && Live(H(), p + lead) && SizeAt(H(), p + lead) == newsize && !Used(H(), p)
      ensures !Used(old(H()), p + lead)
      ensures Spared(old(Image()), Image(), {p, p + lead})
    {
      hide B.Bins.Valid, B.Bins.Content, B.Bins.Fields, Placed, SegmentsOk, Grid, Binned;
      ghost var s, newp := Image(), p + lead;
      SplitFront(p, lead, newsize, bins.Content(), bins.Fields());
      ghost var y := Image();
      DisposeChunk(p, lead);
      Recall(SameUse(y, Image(), newp));
      SparedTrans(s, y, Image(), {p, newp}, {p});
      assert {p, newp} + {p} == {p, newp};
    }

    /** The same cut as in realloc; the high part is written first. */
    method SplitFront(p: Addr, lead: nat, newsize: nat, ghost t: B.Table, ghost l: B.Links)
      requires Running(H()) && DvOk(H()) && Binned(H(), {st.dv}, t) && st.top != NULL && CanSplit(H(), p, lead)
      requires Aligned(lead) && SizeAt(H(), p) == lead + newsize
      modifies this`st, this`lay
      ensures Running(H()) && DvOk(H()) && Binned(H(), {st.dv}, t) && st.top != NULL
      ensures Live(H(), p) && SizeAt(H(), p) == lead && Live(H(), p + lead) && SizeAt(H(), p + lead) == newsize
      ensures !Used(old(H()), p + lead) && Spared(Store(old(H()), l), Store(H(), l), {p, p + lead})
    {
      ghost var h := H();
      Recall(ChunkOk(h, p));
      SplitStep(h, sys.segs, sys.least, p, lead, {st.dv}, t, l, st.dv);
      st := SetInUse(st, p + lead, newsize);
      st := SetInUse(st, p, lead);
      lay := lay.(chunks := lay.chunks + {p + lead});
      assert st.hd == Split(h, p, lead).hd;
      assert H() == Split(h, p, lead);
    }

    /** internal_memalign */
    method Memalign(alignment0: nat, bytes: nat) returns (p: Addr)
      requires Valid() && alignment0 <= HALF && bytes < MOD
      modifies this`st, this`sys, this`lay, bins.small, bins.large
      ensures Valid() && (p == NULL ==> SpareLive(old(Image()), Image(), {}))
      ensures p != NULL ==> Live(H(), p) && Request2Size(bytes) <= SizeAt(H(), p) <= Request2Size(bytes) + MIN_CHUNK
      ensures p != NULL ==> SpareLive(old(Image()), Image(), {p}) && !Live(old(H()), p)
      ensures p != NULL ==> exists a: nat ::
                NextPower(a, if alignment0 < MIN_CHUNK then MIN_CHUNK else alignment0) && a > 0 && Mem(p) % a == 0
    {
      hide B.Bins.Valid, B.Bins.Content, B.Bins.Fields, Placed, SegmentsOk, Grid, Binned, Accounted, Tiled;
      hide Wrap, Request2Size, BinMaps.And;
      p := NULL;
      LiveRefl(Image());
      ModIsPower();
      var alignment := alignment0;
      if alignment < MIN_CHUNK {
        alignment := MIN_CHUNK;
      }
      PowerTest(alignment);
      if BinMaps.And(alignment, alignment - 1) != 0 {
        alignment := RoundAlignment(alignment);
      } else {
        OwnPower(alignment);
      }
      if bytes < MAX_REQUEST - alignment {
        p := MemalignPower(alignment, bytes);
      }
    }

    /** The same for a power of two. */
    method MemalignPower(alignment: nat, bytes: nat) returns (p: Addr)
      requires Valid() && PowerOfTwo(alignment) && MIN_CHUNK <= alignment && bytes + alignment < MAX_REQUEST
      modifies this`st, this`sys, this`lay, bins.small, bins.large
      ensures Valid() && (p == NULL ==> SpareLive(old(Image()), Image(), {}))
      ensures p != NULL ==> Live(H(), p) && Request2Size(bytes) <= SizeAt(H(), p) <= Request2Size(bytes) + MIN_CHUNK
      ensures p != NULL ==> SpareLive(old(Image()), Image(), {p}) && !Live(old(H()), p) && Mem(p) % alignment == 0
    {
      hide B.Bins.Valid, B.Bins.Content, B.Bins.Fields, Placed, SegmentsOk, Grid, Binned, Accounted, Tiled;
      ghost var s := Image();
      var nb := Request2Size(bytes);
      var req := nb + alignment + MIN_CHUNK - OVERHEAD;
      p := DlMalloc(req);
      if p != NULL {
        var p0 := p;
        ghost var y := Image();
        p := AlignBlock(p0, alignment, nb);
        Recall(SameBlock(s, y, p));
        LiveTrans(s, y, Image(), {p0}, {p0, p});
        LiveBetween(s, Image(), {p0} + {p0, p}, {p});
      }
    }

    /** Cutting an aligned chunk out of a block that is large enough. */
    method AlignBlock(p0: Addr, alignment: nat, nb: nat) returns (p: Addr)
      requires Valid() && Live(H(), p0) && PowerOfTwo(alignment) && alignment >= MIN_CHUNK
      requires Aligned(nb) && MIN_CHUNK <= nb && nb + alignment + MIN_CHUNK <= SizeAt(H(), p0)
      modifies this`st, this`lay, bins.small, bins.large
      ensures Valid() && p != NULL && Live(H(), p) && nb <= SizeAt(H(), p) <= nb + MIN_CHUNK && Mem(p) % alignment == 0
      ensures SpareLive(old(Image()), Image(), {p0, p}) && (p != p0 ==> !Live(H(), p0) && !Live(old(H()), p))
    {
      hide B.Bins.Valid, B.Bins.Content, B.Bins.Fields, Placed, SegmentsOk, Binned, Accounted;
      ghost var s := Image();
      LiveOk(p0);
      ChunkAligned(H(), p0);
      p := p0;
      if Mem(p0) % alignment != 0 {
        var br := NextMultiple(Mem(p0), alignment) - 2 * W;
        p := if br - p0 >= MIN_CHUNK then br else br + alignment;
        var leadsize := p - p0;
        var newsize := HeadAt(st.hd, p0).size - leadsize;
        SpotFits(p0, alignment, nb, HeadAt(st.hd, p0).size);
        CutFront(p0, leadsize, newsize);
      } else {
        SparedRefl(s);
        assert {p0, p} == {p};
      }
      ghost var y := Image();
      var size := HeadAt(st.hd, p).size;
      if size > nb + MIN_CHUNK {
        ChunkAligned(H(), p);
        CutAndDispose(p, nb, size - nb);
        Recall(SameUse(y, Image(), p0));
        SparedTrans(s, y, Image(), {p0, p}, {p});
        assert {p0, p} + {p} == {p0, p};
      }
      SparedLive(s, Image(), {p0, p});
      LiveOk(p);
    }
  
    // ---- bulk_free ----

    /** mem2chunk */
    function ChunkOf(mem: Addr): Addr {
      mem - 2 * W
    }

    /** The chunks behind the pointers in an array. */
    ghost function ChunksOf(mems: seq<Addr>): set<Addr> {
      set i | 0 <= i < |mems| && mems[i] != NULL :: ChunkOf(mems[i])
    }

    /** The pointers that are not null are those of different blocks. */
    ghost predicate Owned(h: Heap, mems: seq<Addr>) {
      && (forall i {:trigger mems[i]} | 0 <= i < |mems| && mems[i] != NULL :: Live(h, ChunkOf(mems[i])))
      && (forall i, j {:trigger mems[i], mems[j]} | 0 <= i < j < |mems| && mems[i] != NULL :: mems[i] != mems[j])
    }

    /** Of the blocks in all, those that are still owned are the ones that the pointers in rest lead to. */
    ghost predicate Remaining(h: Heap, rest: seq<Addr>, all: set<Addr>) {
      Owned(h, rest) && forall c {:trigger Live(h, c)} | c in all :: Live(h, c) <==> Mem(c) in rest && Mem(c) != NULL
    }

    /** The first block of the rest has been freed. */
    lemma HeadFreed(s: Store, z: Store, rest: seq<Addr>, all: set<Addr>)
      requires Remaining(s.h, rest, all) && rest != [] && rest[0] != NULL && ChunksOf(rest) <= all
      requires SpareLive(s, z, {ChunkOf(rest[0])}) && !Live(z.h, ChunkOf(rest[0]))
      ensures Remaining(z.h, rest[1..], all) && ChunksOf(rest[1..]) <= all
    {
      var tail := rest[1..];
      forall i {:trigger tail[i]} | 0 <= i < |tail| && tail[i] != NULL
        ensures Live(z.h, ChunkOf(tail[i])) && ChunkOf(tail[i]) in all
      {
        assert tail[i] == rest[i + 1];
        assert ChunkOf(rest[i + 1]) in ChunksOf(rest);
        Recall(SameBlock(s, z, ChunkOf(tail[i])));
      }
      forall c {:trigger Live(z.h, c)} | c in all ensures Live(z.h, c) <==> Mem(c) in tail && Mem(c) != NULL {
        Recall(SameBlock(s, z, c));
        Recall(Live(s.h, c));
        assert rest == [rest[0]] + tail;
      }
    }

    lemma HeadNull(h: Heap, rest: seq<Addr>, all: set<Addr>)
      requires Remaining(h, rest, all) && rest != [] && rest[0] == NULL && ChunksOf(rest) <= all
      ensures Remaining(h, rest[1..], all) && ChunksOf(rest[1..]) <= all
    {
      var tail := rest[1..];
      assert rest == [rest[0]] + tail;
      forall i {:trigger tail[i]} | 0 <= i < |tail| && tail[i] != NULL
        ensures Live(h, ChunkOf(tail[i])) && ChunkOf(tail[i]) in all
      {
        assert tail[i] == rest[i + 1];
        assert ChunkOf(rest[i + 1]) in ChunksOf(rest);
      }
    }

    /** The first block of the rest has taken in the second. */
    lemma HeadJoined(s: Store, z: Store, rest: seq<Addr>, all: set<Addr>)
      requires Remaining(s.h, rest, all) && |rest| > 1 && rest[0] != NULL && rest[1] != NULL && ChunksOf(rest) <= all
      requires SpareLive(s, z, {ChunkOf(rest[0]), ChunkOf(rest[1])}) && Live(z.h, ChunkOf(rest[0]))
      requires !Live(z.h, ChunkOf(rest[1]))
      ensures Remaining(z.h, [rest[0]] + rest[2..], all) && ChunksOf([rest[0]] + rest[2..]) <= all
    {
      var next := [rest[0]] + rest[2..];
      forall i {:trigger next[i]} | 0 <= i < |next| ensures next[i] == rest[if i == 0 then 0 else i + 1] {
      }
      forall i {:trigger next[i]} | 0 <= i < |next| && next[i] != NULL
        ensures Live(z.h, ChunkOf(next[i])) && ChunkOf(next[i]) in all
      {
        assert ChunkOf(rest[if i == 0 then 0 else i + 1]) in ChunksOf(rest);
        Recall(SameBlock(s, z, ChunkOf(next[i])));
      }
      forall c {:trigger Live(z.h, c)} | c in all ensures Live(z.h, c) <==> Mem(c) in next && Mem(c) != NULL {
        Recall(SameBlock(s, z, c));
        Recall(Live(s.h, c));
        assert rest == [rest[0], rest[1]] + rest[2..];
      }
    }

    /** set_inuse over two blocks */
    method JoinUsed(p: Addr, newsize: nat, ghost t: B.Table, ghost l: B.Links)
      requires Running(H()) && DvOk(H()) && Binned(H(), {st.dv}, t) && Live(H(), p) && Live(H(), Next(H(), p))
      requires st.top != NULL
      requires newsize == SizeAt(H(), p) + SizeAt(H(), Next(H(), p))
      modifies this`st, this`lay
      ensures Running(H()) && DvOk(H()) && Binned(H(), {st.dv}, t) && st.top != NULL
      ensures Live(H(), p) && !Live(H(), old(Next(H(), p)))
      ensures SpareLive(Store(old(H()), l), Store(H(), l), {p, old(Next(H(), p))})
    {
      ghost var h, n := H(), Next(H(), p);
      JoinUsedStep(h, sys.segs, sys.least, p, {st.dv}, t, l, st.dv);
      st := SetInUse(st, p, newsize);
      lay := lay.(chunks := lay.chunks - {n});
      assert st.hd == MergeNext(h, p).hd;
      assert H() == MergeNext(h, p);
    }

    /** One turn of internal_bulk_free: join the block with the next one if that comes next, or free it. */
    method FreeNext(mems: array<Addr>, a: nat, ghost all: set<Addr>)
      requires Valid() && a < mems.Length && mems[a] != NULL
      requires Remaining(H(), mems[a..], all) && ChunksOf(mems[a..]) <= all
      modifies this`st, this`lay, bins.small, bins.large, mems
      ensures Valid() && SpareLive(old(Image()), Image(), all) && mems[a] == NULL
      ensures forall i | 0 <= i < a :: mems[i] == old(mems[i])
      ensures Remaining(H(), mems[a + 1..], all) && ChunksOf(mems[a + 1..]) <= all
    {
      hide B.Bins.Valid, B.Bins.Content, B.Bins.Fields, Placed, SegmentsOk, Grid, Binned, Accounted, Tiled, Remaining,
           Owned;
      ghost var s, rest := Image(), mems[a..];
      HeadOwned(H(), rest, all);
      var p := ChunkOf(mems[a]);
      LiveOk(p);
      var psize := HeadAt(st.hd, p).size;
      mems[a] := NULL;
      if sys.least <= p && IsInUse(p) {                     // RTCHECK(ok_address(m, p) && ok_inuse(p))
        var b, next := a + 1, p + psize;
        if b != mems.Length && mems[b] == Mem(next) {
          SecondOwned(H(), rest, all, next);
          var newsize := HeadAt(st.hd, next).size + psize;
          JoinUsed(p, newsize, bins.Content(), bins.Fields());
          mems[b] := Mem(p);
          HeadJoined(s, Image(), rest, all);
          assert mems[b..] == [rest[0]] + rest[2..];
          LiveMore(s, Image(), {p, next}, all);
        } else {
          DisposeChunk(p, psize);
          SparedLive(s, Image(), {p});
          HeadFreed(s, Image(), rest, all);
          assert mems[b..] == rest[1..];
          LiveMore(s, Image(), {p}, all);
        }
      } else {
        assert false;
      }
    }

    lemma HeadOwned(h: Heap, rest: seq<Addr>, all: set<Addr>)
      requires Remaining(h, rest, all) && rest != [] && rest[0] != NULL && ChunksOf(rest) <= all
      ensures Live(h, ChunkOf(rest[0])) && ChunkOf(rest[0]) in all
    {
      assert ChunkOf(rest[0]) in ChunksOf(rest);
    }

    lemma SecondOwned(h: Heap, rest: seq<Addr>, all: set<Addr>, next: Addr)
      requires Remaining(h, rest, all) && |rest| > 1 && rest[1] == Mem(next) && next > 0 && ChunksOf(rest) <= all
      ensures Live(h, next) && next in all && rest[1] != NULL
    {
      assert ChunkOf(rest[1]) in ChunksOf(rest);
    }

    /** The loop of internal_bulk_free. */
    method FreeArray(mems: array<Addr>)
      requires Valid() && Owned(H(), mems[..])
      modifies this`st, this`lay, bins.small, bins.large, mems
      ensures Valid() && forall i | 0 <= i < mems.Length :: mems[i] == NULL
      ensures SpareLive(old(Image()), Image(), ChunksOf(old(mems[..])))
      ensures NoneLive(H(), ChunksOf(old(mems[..])))
      ensures Blocks(H()) == old(Blocks(H())) - ChunksOf(old(mems[..]))
    {
      hide B.Bins.Valid, B.Bins.Content, B.Bins.Fields, Placed, SegmentsOk, Grid, Binned, Accounted, Tiled, Remaining,
           Owned;
      ghost var s, all := Image(), ChunksOf(mems[..]);
      StartRemaining(H(), mems[..]);
      LiveRefl(s);
      LiveMore(s, s, {}, all);
      assert mems[0..] == mems[..];
      var a := 0;
      while a < mems.Length
        invariant a <= mems.Length && Valid() && SpareLive(s, Image(), all)
        invariant forall i | 0 <= i < a :: mems[i] == NULL
        invariant Remaining(H(), mems[a..], all) && ChunksOf(mems[a..]) <= all
      {
        ghost var rest, y := mems[a..], Image();
        assert mems[a] == rest[0];
        if mems[a] != NULL {
          FreeNext(mems, a, all);
          LiveTrans(s, y, Image(), all, all);
          assert all + all == all;
        } else {
          HeadNull(H(), rest, all);
          assert mems[a + 1..] == rest[1..];
        }
        a := a + 1;
      }
      NoneRemain(H(), all);
      BlocksRemoved(s, Image(), all);
    }

    /** What internal_bulk_free is to be compared with: the blocks are disposed of one by one. */
    method FreeEach(mems: seq<Addr>)
      requires Valid() && Owned(H(), mems)
      modifies this`st, this`lay, bins.small, bins.large
      ensures Valid() && SpareLive(old(Image()), Image(), ChunksOf(mems))
      ensures Blocks(H()) == old(Blocks(H())) - ChunksOf(mems)
    {
      hide B.Bins.Valid, B.Bins.Content, B.Bins.Fields, Placed, SegmentsOk, Grid, Binned, Accounted, Tiled, Remaining,
           Owned;
      ghost var s, all := Image(), ChunksOf(mems);
      StartRemaining(H(), mems);
      LiveRefl(s);
      LiveMore(s, s, {}, all);
      assert mems[0..] == mems;
      var i := 0;
      while i < |mems|
        invariant i <= |mems| && Valid() && SpareLive(s, Image(), all)
        invariant Remaining(H(), mems[i..], all) && ChunksOf(mems[i..]) <= all
      {
        ghost var rest, y := mems[i..], Image();
        assert mems[i] == rest[0] && mems[i + 1..] == rest[1..];
        if mems[i] != NULL {
          HeadOwned(H(), rest, all);
          var p := ChunkOf(mems[i]);
          LiveOk(p);
          DisposeChunk(p, HeadAt(st.hd, p).size);
          SparedLive(y, Image(), {p});
          HeadFreed(y, Image(), rest, all);
          LiveMore(y, Image(), {p}, all);
          LiveTrans(s, y, Image(), all, all);
          assert all + all == all;
        } else {
          HeadNull(H(), rest, all);
        }
        i := i + 1;
      }
      NoneRemain(H(), all);
      BlocksRemoved(s, Image(), all);
    }

    /** internal_bulk_free */
    method BulkFree(mems: array<Addr>) returns (unfreed: nat)
      requires Valid() && Owned(H(), mems[..])
      modifies this`st, this`sys, this`lay, bins.small, bins.large, mems
      ensures Valid() && unfreed == 0 && forall i | 0 <= i < mems.Length :: mems[i] == NULL
      ensures SpareLive(old(Image()), Image(), ChunksOf(old(mems[..])))
      ensures Blocks(H()) == old(Blocks(H())) - ChunksOf(old(mems[..]))
    {
      hide B.Bins.Valid, B.Bins.Content, B.Bins.Fields, Placed, SegmentsOk, Grid, Binned, Accounted, Tiled, Owned;
      unfreed := 0;
      ghost var s, all := Image(), ChunksOf(mems[..]);
      FreeArray(mems);
      if st.topsize > sys.trimCheck {                       // should_trim
        ghost var y := Image();
        var _ := SysTrim(0);
        LiveTrans(s, y, Image(), all, {});
        assert all + {} == all;
        StillNone(y, Image(), all);
      }
      BlocksRemoved(s, Image(), all);
    }

    lemma StartRemaining(h: Heap, mems: seq<Addr>)
      requires Owned(h, mems)
      ensures Remaining(h, mems, ChunksOf(mems))
    {
      forall c {:trigger Live(h, c)} | c in ChunksOf(mems) ensures Live(h, c) <==> Mem(c) in mems && Mem(c) != NULL {
        var i :| 0 <= i < |mems| && mems[i] != NULL && c == ChunkOf(mems[i]);
        assert mems[i] == Mem(c);
      }
    }

    ghost predicate NoneLive(h: Heap, all: set<Addr>) {
      forall c {:trigger Live(h, c)} | c in all :: !Live(h, c)
    }

    lemma NoneRemain(h: Heap, all: set<Addr>)
      requires Remaining(h, [], all)
      ensures NoneLive(h, all)
    {
    }

    lemma StillNone(s: Store, z: Store, all: set<Addr>)
      requires NoneLive(s.h, all) && SpareLive(s, z, {})
      ensures NoneLive(z.h, all)
    {
      forall c {:trigger Live(z.h, c)} | c in all ensures !Live(z.h, c) {
        Recall(SameBlock(s, z, c));
      }
    }

    lemma BlocksRemoved(s: Store, z: Store, all: set<Addr>)
      requires NoneLive(z.h, all) && SpareLive(s, z, all)
      ensures Blocks(z.h) == Blocks(s.h) - all
    {
      forall b | b !in all ensures b in Blocks(z.h) <==> b in Blocks(s.h)
        ensures b in Blocks(s.h) ==> Blocks(z.h)[b] == Blocks(s.h)[b]
      {
        SameBlocks(s, z, all, b);
      }
      forall b | b in all ensures b !in Blocks(z.h) {
        Recall(Live(z.h, b));
      }
    }
  
    // ---- independent_calloc and independent_comalloc ----

    /** The chunk size of element i: all like the first one, or each its own. */
    static function ElementSize(sizes: seq<nat>, same: bool, i: nat): nat
      requires if same then |sizes| > 0 else i < |sizes|
    {
      Request2Size(if same then sizes[0] else sizes[i])
    }

    /** The sizes of the elements from i on. */
    static function ContentsFrom(sizes: seq<nat>, same: bool, n: nat, i: nat): nat
      requires i <= n && if same then n > 0 ==> |sizes| > 0 else n <= |sizes|
      decreases n - i
    {
      if i == n then 0 else ElementSize(sizes, same, i) + ContentsFrom(sizes, same, n, i + 1)
    }

    lemma {:induction false} ContentsAligned(sizes: seq<nat>, same: bool, n: nat, i: nat)
      requires i <= n && if same then n > 0 ==> |sizes| > 0 else n <= |sizes|
      ensures Aligned(ContentsFrom(sizes, same, n, i)) && (i < n ==> ContentsFrom(sizes, same, n, i) >= MIN_CHUNK)
      decreases n - i
    {
      if i < n {
        ContentsAligned(sizes, same, n, i + 1);
        AlignedSum(ElementSize(sizes, same, i), ContentsFrom(sizes, same, n, i + 1));
      }
    }

    /** The chunks of the elements lie one behind the other, each with its size; the last one takes what is left. */
    ghost predicate InARow(h: Heap, chunks: seq<Addr>, sizes: seq<nat>, same: bool, n: nat)
      requires |chunks| <= n && if same then n > 0 ==> |sizes| > 0 else n <= |sizes|
    {
      && (forall i {:trigger chunks[i]} | 0 <= i < |chunks| ::
            Live(h, chunks[i]) && SizeAt(h, chunks[i]) >= ElementSize(sizes, same, i))
      && (forall i: nat {:trigger MeetsNext(h, chunks, sizes, same, i)} | i < |chunks| - 1 ::
            MeetsNext(h, chunks, sizes, same, i))
    }

    ghost predicate MeetsNext(h: Heap, chunks: seq<Addr>, sizes: seq<nat>, same: bool, i: nat)
      requires i + 1 < |chunks| && if same then |sizes| > 0 else i < |sizes|
    {
      SizeAt(h, chunks[i]) == ElementSize(sizes, same, i) && chunks[i + 1] == Next(h, chunks[i])
    }

    /** The chunks of the client that have been made out of a new block: none of them was there before. */
    ghost predicate Fresh(s: Store, h: Heap, l: B.Links, act: set<Addr>)
    {
      SpareLive(s, Store(h, l), act) && forall c {:trigger Live(h, c)} | c in act :: Live(h, c) && !Live(s.h, c)
    }

    /** One cut. */
    lemma CutFresh(s: Store, h: Heap, segs: seq<Segment>, least: Addr, p: Addr, size: nat, out: set<Addr>, t: B.Table,
                   l: B.Links,
                   act: set<Addr>, dv: Addr)
      requires Wf(h, segs, least) && CanSplit(h, p, size) && Aligned(size) && Binned(h, out, t) && Fresh(s, h, l, act)
      requires p in act
      ensures var w, r := Split(h, p, size), p + size;
        && Fresh(s, w, l, act + {r}) && r !in act && Wf(w, segs, least) && Binned(w, out, t)
        && Live(w, p) && SizeAt(w, p) == size && PInUse(w, p) == PInUse(h, p) && Live(w, r) && PInUse(w, r)
        && SizeAt(w, r) == SizeAt(h, p) - size
        && (Free(h, dv) ==> Free(w, dv) && SizeAt(w, dv) == SizeAt(h, dv)) && SizeAt(w, w.top) == SizeAt(h, h.top)
        && (forall c {:trigger Live(w, c)} | c in act && c != p :: Live(w, c) && SizeAt(w, c) == SizeAt(h, c))
    {
      var w, r := Split(h, p, size), p + size;
      SplitStep(h, segs, least, p, size, out, t, l, dv);
      Recall(Live(h, r));
      Recall(SameBlock(s, Store(h, l), r));
      SparedLive(Store(h, l), Store(w, l), {p, r});
      LiveTrans(s, Store(h, l), Store(w, l), act, {p, r});
      assert act + {p, r} == act + {r};
      forall c {:trigger Live(w, c)} | c in act || c == r
        ensures Live(w, c) && !Live(s.h, c) && (c != p && c != r ==> SizeAt(w, c) == SizeAt(h, c)) {
        Recall(Live(h, c));
        Recall(SameUse(Store(h, l), Store(w, l), c));
      }
    }
  
    /** Before a turn of the splitting loop: chunk p is the rest of the block, and its head need not say so. */
    ghost predicate Splitting(s: Store, h: Heap, l: B.Links, t: B.Table, p: Addr, remainder: nat, act: set<Addr>)
      reads this
    {
      && Running(h) && DvOk(h) && Binned(h, {st.dv}, t) && st.top != NULL
      && st.ft == h.ft && PutHead(st.hd, p, Head(remainder, true, true)) == h.hd
      && lay == Layout(h.chunks, h.fences, h.pins)
      && Live(h, p) && PInUse(h, p) && SizeAt(h, p) == remainder && p in act && Fresh(s, h, l, act)
    }

    /** set_size_and_pinuse_of_inuse_chunk(m, p, size), and on to the next chunk. */
    method SplitOff(p: Addr, remainder: nat, size: nat, ghost s: Store, ghost h: Heap, ghost t: B.Table,
                    ghost l: B.Links,
                    ghost act: set<Addr>) returns (ghost w: Heap)
      requires Splitting(s, h, l, t, p, remainder, act) && Aligned(size) && MIN_CHUNK <= size
      requires size + MIN_CHUNK <= remainder
      modifies this`st, this`lay
      ensures w == Split(h, p, size) && p + size !in act
      ensures Splitting(s, w, l, t, p + size, remainder - size, act + {p + size})
      ensures Live(w, p) && SizeAt(w, p) == size
      ensures forall c {:trigger Live(w, c)} | c in act && c != p :: Live(w, c) && SizeAt(w, c) == SizeAt(h, c)
    {
      w := Split(h, p, size);
      CutFresh(s, h, sys.segs, sys.least, p, size, {st.dv}, t, l, act, st.dv);
      Overwritten(st, h, p, remainder, Head(size, true, true));
      st := SetUsed(st, p, size);
      lay := lay.(chunks := lay.chunks + {p + size});
      assert PutHead(st.hd, p + size, Head(remainder - size, true, true)) == w.hd;
    }

    /** The elements split out so far, and where the next one starts. */
    ghost predicate Row(h: Heap, chunks: seq<Addr>, p: Addr, p0: Addr, sizes: seq<nat>, same: bool, n: nat)
      requires |chunks| < n && if same then n > 0 ==> |sizes| > 0 else n <= |sizes|
    {
      && InARow(h, chunks, sizes, same, n)
      && (chunks == [] ==> p == p0)
      && (chunks != [] ==> chunks[0] == p0 && Ends(h, chunks, p, ElementSize(sizes, same, |chunks| - 1)))
    }

    /** The last chunk has the given size and ends at p. */
    ghost predicate Ends(h: Heap, chunks: seq<Addr>, p: Addr, size: nat)
      requires chunks != []
    {
      SizeAt(h, chunks[|chunks| - 1]) == size && p == Next(h, chunks[|chunks| - 1])
    }

    /** act holds the old chunks in act0, those in the row, and p. */
    ghost predicate Acted(act: set<Addr>, act0: set<Addr>, chunks: seq<Addr>, p: Addr) {
      forall c {:trigger c in act} :: c in act <==> c in act0 || c == p || c in chunks
    }

    lemma RowStep(h: Heap, w: Heap, chunks: seq<Addr>, p: Addr, p0: Addr, sizes: seq<nat>, same: bool, n: nat,
                  act: set<Addr>, act0: set<Addr>, h0: Heap)
      requires |chunks| + 1 < n && if same then |sizes| > 0 else n <= |sizes|
      requires Row(h, chunks, p, p0, sizes, same, n) && Acted(act, act0, chunks, p) && p !in chunks
      requires var size := ElementSize(sizes, same, |chunks|);
        && Live(w, p) && SizeAt(w, p) == size && p + size !in act && size > 0
      requires forall c {:trigger Live(w, c)} | c in act && c != p :: Live(w, c) && SizeAt(w, c) == SizeAt(h, c)
      requires forall c {:trigger Live(h, c)} | c in act0 && c != p0 :: Live(h, c) && SizeAt(h, c) == SizeAt(h0, c)
      requires chunks != [] ==> p !in act0
      ensures var size := ElementSize(sizes, same, |chunks|);
        && Row(w, chunks + [p], p + size, p0, sizes, same, n) && Acted(act + {p + size}, act0, chunks + [p], p + size)
        && p + size !in chunks + [p] && p + size !in act0
      ensures forall c {:trigger Live(w, c)} | c in act0 && c != p0 :: Live(w, c) && SizeAt(w, c) == SizeAt(h0, c)
    {
      var size := ElementSize(sizes, same, |chunks|);
      var next := chunks + [p];
      hide Tiled;
      forall i {:trigger next[i]} | 0 <= i < |next|
        ensures Live(w, next[i])
        ensures (i < |chunks| ==> next[i] == chunks[i] && SizeAt(w, next[i]) == SizeAt(h, next[i])) {
        if i < |chunks| {
          assert chunks[i] in chunks;
          Recall(chunks[i] in act);
          Recall(Live(w, chunks[i]));
        }
      }
      Recall(p in act);
      forall i: nat {:trigger MeetsNext(w, next, sizes, same, i)} | i < |next| - 1
        ensures MeetsNext(w, next, sizes, same, i)
      {
        if i + 1 < |chunks| {
          Recall(MeetsNext(h, chunks, sizes, same, i));
        }
        assert next[i] == chunks[i] && next[i + 1] == if i + 1 < |chunks| then chunks[i + 1] else p;
      }
      forall c {:trigger Live(w, c)} | c in act0 && c != p0 ensures Live(w, c) && SizeAt(w, c) == SizeAt(h0, c) {
        Recall(Live(h, c));
      }
    }

    lemma RowStart(h: Heap, p0: Addr, sizes: seq<nat>, same: bool, n: nat)
      requires n > 0 && if same then |sizes| > 0 else n <= |sizes|
      ensures Row(h, [], p0, p0, sizes, same, n)
    {
    }

    /** The loop that splits out the elements. */
    method SplitElements(p0: Addr, total: nat, n: nat, sizes: seq<nat>, same: bool, ghost s: Store, ghost h0: Heap,
                         ghost t: B.Table, ghost l: B.Links, ghost act0: set<Addr>)
      returns (chunks: seq<Addr>, ghost act: set<Addr>)
      requires n > 0 && if same then |sizes| > 0 else n <= |sizes|
      requires Splitting(s, h0, l, t, p0, total, act0) && total >= ContentsFrom(sizes, same, n, 0)
      modifies this`st, this`lay
      ensures Running(H()) && DvOk(H()) && Binned(H(), {st.dv}, t) && st.top != NULL && Fresh(s, H(), l, act)
      ensures |chunks| == n && chunks[0] == p0 && InARow(H(), chunks, sizes, same, n)
      ensures Next(H(), chunks[n - 1]) == p0 + total
      ensures forall c {:trigger c in act} :: c in act <==> c in act0 || c in chunks
      ensures forall c {:trigger Live(H(), c)} | c in act0 && c != p0 :: Live(H(), c) && SizeAt(H(), c) == SizeAt(h0, c)
    {
      hide Fresh, Running, Binned, InARow, Row;
      ghost var h := h0;
      act := act0;
      var p := p0;
      var remainder: nat := total;
      chunks := [];
      var i: nat := 0;
      SplittingLive(s, h0, l, t, p0, total, act0);
      RowStart(h0, p0, sizes, same, n);
      while i < n - 1
        invariant i <= n - 1 && |chunks| == i && Splitting(s, h, l, t, p, remainder, act) && p + remainder == p0 + total
        invariant remainder >= ContentsFrom(sizes, same, n, i)
        invariant Row(h, chunks, p, p0, sizes, same, n) && Acted(act, act0, chunks, p) && p !in chunks
        invariant (i > 0 ==> p !in act0)
        invariant forall c {:trigger Live(h, c)} | c in act0 && c != p0 :: Live(h, c) && SizeAt(h, c) == SizeAt(h0, c)
      {
        var size := ElementSize(sizes, same, i);
        ContentsAligned(sizes, same, n, i + 1);
        ghost var y, x := h, act;
        h := SplitOff(p, remainder, size, s, h, t, l, act);
        RowStep(y, h, chunks, p, p0, sizes, same, n, x, act0, h0);
        act := act + {p + size};
        chunks := chunks + [p];
        remainder := remainder - size;
        p := p + size;
        i := i + 1;
      }
      assert ContentsFrom(sizes, same, n, n - 1) == ElementSize(sizes, same, n - 1) + ContentsFrom(sizes, same, n, n);
      SplitLast(p, remainder, s, h, t, l, act);
      assert H() == h;
      RowEnd(h, chunks, p, p0, sizes, same, n);
      ghost var before := chunks;
      chunks := chunks + [p];
      forall c {:trigger c in act} ensures c in act <==> c in act0 || c in chunks {
        assert c in chunks <==> c in before || c == p;
      }
      assert forall c {:trigger Live(h, c)} | c in act0 && c != p0 :: Live(h, c) && SizeAt(h, c) == SizeAt(h0, c);
    }

    /** The final element absorbs any overallocation slop. */
    method SplitLast(p: Addr, remainder: nat, ghost s: Store, ghost h: Heap, ghost t: B.Table, ghost l: B.Links,
                     ghost act: set<Addr>)
      requires Splitting(s, h, l, t, p, remainder, act)
      modifies this`st
      ensures H() == h && Running(H()) && DvOk(H()) && Binned(H(), {st.dv}, t) && st.top != NULL
      ensures Fresh(s, H(), l, act)
      ensures Live(h, p) && SizeAt(h, p) == remainder
    {
      st := SetUsed(st, p, remainder);
      assert H() == h;
    }

    lemma RowEnd(h: Heap, chunks: seq<Addr>, p: Addr, p0: Addr, sizes: seq<nat>, same: bool, n: nat)
      requires n > 0 && |chunks| + 1 == n && if same then |sizes| > 0 else n <= |sizes|
      requires Row(h, chunks, p, p0, sizes, same, n) && Live(h, p) && SizeAt(h, p) >= ElementSize(sizes, same, n - 1)
      ensures InARow(h, chunks + [p], sizes, same, n) && (chunks + [p])[0] == p0
    {
      var next := chunks + [p];
      forall i: nat {:trigger MeetsNext(h, next, sizes, same, i)} | i < |next| - 1
        ensures MeetsNext(h, next, sizes, same, i)
      {
        if i + 1 < |chunks| {
          Recall(MeetsNext(h, chunks, sizes, same, i));
        }
      }
      forall i {:trigger next[i]} | 0 <= i < |next|
        ensures Live(h, next[i]) && SizeAt(h, next[i]) >= ElementSize(sizes, same, i)
      {
        assert i < |chunks| ==> next[i] == chunks[i];
      }
    }

    lemma SplittingLive(s: Store, h: Heap, l: B.Links, t: B.Table, p: Addr, remainder: nat, act: set<Addr>)
      requires Splitting(s, h, l, t, p, remainder, act)
      ensures forall c {:trigger Live(h, c)} | c in act :: Live(h, c)
    {
    }
  
    /** The bytes [from, to) are zero. */
    ghost predicate Zero(data: Words, from: Addr, to: Addr) {
      forall x {:trigger At(data, x)} | from <= x < to :: At(data, x) == 0
    }

    /** New chunks for n elements, one behind the other, and the array chunk behind them unless it is given: they fill
        a block of total bytes, with less than MIN_CHUNK to spare. */
    ghost predicate Elements(s: Store, chunks: seq<Addr>, marray: Addr, sizes: seq<nat>, same: bool, n: nat,
                             given: bool, total: nat)
      requires n > 0 && if same then |sizes| > 0 else n <= |sizes|
      reads this, bins, bins.small, bins.large
    {
      && |chunks| == n && InARow(H(), chunks, sizes, same, n)
      && Fresh(s, H(), bins.Fields(), ElementsAnd(chunks, given, marray))
      && (given ==> Next(H(), chunks[n - 1]) == chunks[0] + total)
      && (!given ==> chunks[0] < marray == Next(H(), chunks[n - 1]) && Next(H(), marray) == chunks[0] + total)
      && (!given ==> Live(H(), marray) && SizeAt(H(), marray) >= ArraySize(n, given))
      && 0 <= total - (ContentsFrom(sizes, same, n, 0) + ArraySize(n, given)) < MIN_CHUNK
    }

    /** The pointers to the elements, in memory from dst on. */
    ghost predicate PointsTo(d: Words, dst: Addr, chunks: seq<Addr>) {
      forall i {:trigger chunks[i]} | 0 <= i < |chunks| :: LoadBytes(d, Place(dst, i), W) == Mem(chunks[i])
    }

    /** marray[i] = chunk2mem(p), for all elements, where marray is the array chunk */
    method StorePointers(dst: Addr, chunks: seq<Addr>)
      requires forall i {:trigger chunks[i]} | 0 <= i < |chunks| :: 0 <= Mem(chunks[i]) < MOD
      modifies this`data
      ensures PointsTo(data, dst, chunks) && StoredOnly(old(data), data, dst, Place(dst, |chunks|))
    {
      var i := 0;
      while i < |chunks|
        invariant i <= |chunks| && FirstStored(old(data), data, dst, chunks, i)
      {
        OneMorePointer(old(data), data, dst, chunks, i);
        hide FirstStored, StoreBytes, Place;
        data := StoreBytes(data, Place(dst, i), Mem(chunks[i]), W);
        i := i + 1;
      }
      assert chunks[..i] == chunks;
    }

    /** The first i pointers have been stored. */
    ghost predicate FirstStored(o: Words, d: Words, dst: Addr, chunks: seq<Addr>, i: nat) {
      i <= |chunks| && PointsTo(d, dst, chunks[..i]) && StoredOnly(o, d, dst, Place(dst, i))
    }

    lemma OneMorePointer(o: Words, d: Words, dst: Addr, chunks: seq<Addr>, i: nat)
      requires i < |chunks| && FirstStored(o, d, dst, chunks, i) && 0 <= Mem(chunks[i]) < MOD
      ensures FirstStored(o, StoreBytes(d, Place(dst, i), Mem(chunks[i]), W), dst, chunks, i + 1)
    {
      StoredMore(o, d, dst, chunks, i);
      hide Place, StoreBytes, LoadBytes, StoredOnly;
      var e, more := StoreBytes(d, Place(dst, i), Mem(chunks[i]), W), chunks[..i + 1];
      forall j {:trigger more[j]} | 0 <= j < |more| ensures LoadBytes(e, Place(dst, j), W) == Mem(more[j]) {
        if j == i {
          PointerLoaded(d, Place(dst, i), Mem(chunks[i]));
        } else {
          assert chunks[..i][j] == more[j];
          PlacesApart(dst, j, i);
          forall x {:trigger At(e, x)} | Place(dst, j) <= x < Place(dst, j) + W ensures At(e, x) == At(d, x) {
            BytesAt(d, Place(dst, i), Mem(chunks[i]), W, x);
          }
          LoadedSame(d, e, Place(dst, j), W);
        }
      }
    }

    lemma StoredMore(o: Words, d: Words, dst: Addr, chunks: seq<Addr>, i: nat)
      requires i < |chunks| && StoredOnly(o, d, dst, Place(dst, i)) && Mem(chunks[i]) >= 0
      ensures StoredOnly(o, StoreBytes(d, Place(dst, i), Mem(chunks[i]), W), dst, Place(dst, i + 1))
    {
      hide StoreBytes;
      var e := StoreBytes(d, Place(dst, i), Mem(chunks[i]), W);
      PlacesApart(dst, i, i + 1);
      assert Place(dst, 0) == dst;
      if i > 0 {
        PlacesApart(dst, 0, i);
      }
      hide Place;
      forall x {:trigger At(e, x)} | !(dst <= x < Place(dst, i + 1)) ensures At(e, x) == At(o, x) {
        BytesAt(d, Place(dst, i), Mem(chunks[i]), W, x);
        Recall(At(d, x) == At(o, x));
      }
    }

    /** marray[i] = chunk2mem(p), for all elements, where marray is the array of the caller */
    method FillArray(mems: array<Addr>, chunks: seq<Addr>)
      requires |chunks| <= mems.Length
      modifies mems
      ensures forall i | 0 <= i < |chunks| :: mems[i] == Mem(chunks[i])
      ensures mems[|chunks|..] == old(mems[|chunks|..])
    {
      var i := 0;
      while i < |chunks|
        invariant i <= |chunks| && forall j | 0 <= j < i :: mems[j] == Mem(chunks[j])
        invariant mems[|chunks|..] == old(mems[|chunks|..])
      {
        mems[i] := Mem(chunks[i]);
        i := i + 1;
      }
    }

    lemma InRange(chunks: seq<Addr>)
      requires Valid() && forall i {:trigger chunks[i]} | 0 <= i < |chunks| :: Live(H(), chunks[i])
      ensures forall i {:trigger chunks[i]} | 0 <= i < |chunks| :: 0 <= Mem(chunks[i]) < MOD
    {
      forall i {:trigger chunks[i]} | 0 <= i < |chunks| ensures 0 <= Mem(chunks[i]) < MOD {
        AboveLeast(H(), sys.segs, sys.least, chunks[i]);
        Recall(ChunkOk(H(), chunks[i]));
        Recall(SegmentOk(sys.segs, 0, sys.least));
      }
    }

    /** The array chunk lies inside of the block. */
    lemma BothStored(o: Words, d: Words, e: Words, p: Addr, marray: Addr, n: nat, total: nat)
      requires StoredOnly(o, d, Mem(p), p + total + W) && StoredOnly(d, e, Mem(marray), Place(Mem(marray), n))
      requires p < marray && marray + Request2Size(n * W) <= p + total
      ensures StoredOnly(o, e, Mem(p), p + total + W)
    {
      forall x {:trigger At(e, x)} | !(Mem(p) <= x < p + total + W) ensures At(e, x) == At(o, x) {
        Recall(At(d, x) == At(o, x));
      }
    }

    lemma ZeroKept(d: Words, e: Words, from: Addr, to: Addr, lo: Addr, hi: Addr)
      requires Zero(d, from, to) && StoredOnly(d, e, lo, hi) && to <= lo
      ensures Zero(e, from, to)
    {
      forall x {:trigger At(e, x)} | from <= x < to ensures At(e, x) == 0 {
        Recall(At(d, x) == 0);
      }
    }

    /** marray[i] = chunk2mem(p), for all elements, where marray is the array chunk; all other bytes stay. */
    method FillChunk(chunks: seq<Addr>, marray: Addr, ghost total: nat, ghost clear: bool, ghost d: Words)
      requires Valid() && forall i {:trigger chunks[i]} | 0 <= i < |chunks| :: Live(H(), chunks[i])
      requires |chunks| > 0 && chunks[0] < marray && marray + Request2Size(|chunks| * W) <= chunks[0] + total
      requires StoredOnly(d, data, Mem(chunks[0]), chunks[0] + total + W)
      requires clear ==> Zero(data, Mem(chunks[0]), marray + W)
      modifies this`data
      ensures Valid() && Image() == old(Image()) && PointsTo(data, Mem(marray), chunks)
      ensures StoredOnly(d, data, Mem(chunks[0]), chunks[0] + total + W)
      ensures clear ==> Zero(data, Mem(chunks[0]), marray + W)
    {
      hide B.Bins.Valid, B.Bins.Content, B.Bins.Fields, Placed, SegmentsOk, Grid, Binned, Accounted, Tiled;
      ghost var e, n := data, |chunks|;
      InRange(chunks);
      StorePointers(Mem(marray), chunks);
      BothStored(d, e, data, chunks[0], marray, n, total);
      if clear {
        ZeroKept(e, data, Mem(chunks[0]), marray + W, Mem(marray), Place(Mem(marray), n));
      }
    }

    /** ialloc.  The pointers go to mems, if the caller provides it; otherwise they go to a further chunk behind the
        elements. */
    method IndependentAlloc(n: nat, sizes: seq<nat>, same: bool, clear: bool, mems: array?<Addr>)
      returns (done: bool, marray: Addr, ghost chunks: seq<Addr>, ghost total: nat)
      requires Valid() && (n > 0 ==> if same then |sizes| > 0 else n <= |sizes|)
      requires n > 0 ==> ContentsFrom(sizes, same, n, 0) + ArraySize(n, mems != null) < MOD
      requires mems != null ==> n <= mems.Length
      modifies this`st, this`sys, this`data, this`lay, bins.small, bins.large, mems
      ensures Valid() && (!done ==> SpareLive(old(Image()), Image(), {}) && data == old(data))
      ensures done && n > 0 ==> Elements(old(Image()), chunks, marray, sizes, same, n, mems != null, total)
      ensures done && n > 0 && clear ==> Zero(data, Mem(chunks[0]), Next(H(), chunks[n - 1]) + W)
      ensures done && n > 0 && mems == null ==> PointsTo(data, Mem(marray), chunks)
      ensures done && n > 0 ==> StoredOnly(old(data), data, Mem(chunks[0]), chunks[0] + total + W)
      ensures done && mems != null ==> forall i | 0 <= i < n :: mems[i] == Mem(chunks[i])
      ensures mems != null ==> mems[if done then n else 0..] == old(mems[if done then n else 0..])
      ensures n == 0 ==> chunks == [] && data == old(data)
      ensures n == 0 && mems != null ==> done && Image() == old(Image()) && sys == old(sys)
      ensures done && n == 0 && mems == null ==> marray != NULL && Allocated(old(Image()), Request2Size(0), marray)
    {
      hide B.Bins.Valid, B.Bins.Content, B.Bins.Fields, Placed, SegmentsOk, Grid, Binned, Accounted, Tiled, InARow;
      if n > 0 {
        ghost var d := data;
        var elements;
        done, elements, marray, total := AllocElements(n, sizes, same, clear, mems != null);
        chunks := elements;
        if done {
          if mems != null {
            FillArray(mems, elements);
          } else {
            FillChunk(elements, marray, total, clear, d);
          }
        }
      } else {
        done, marray, chunks, total := true, NULL, [], 0;
        if mems != null {
          LiveRefl(Image());
        } else {
          marray := DlMalloc(0);
          done := marray != NULL;
        }
      }
    }

    method AllocElements(n: nat, sizes: seq<nat>, same: bool, clear: bool, given: bool)
      returns (done: bool, chunks: seq<Addr>, marray: Addr, ghost total: nat)
      requires Valid() && n > 0 && if same then |sizes| > 0 else n <= |sizes|
      requires ContentsFrom(sizes, same, n, 0) + ArraySize(n, given) < MOD
      modifies this`st, this`sys, this`data, this`lay, bins.small, bins.large
      ensures Valid() && (!done ==> SpareLive(old(Image()), Image(), {}) && data == old(data))
      ensures done ==> Elements(old(Image()), chunks, marray, sizes, same, n, given, total)
      ensures done && clear ==> Zero(data, Mem(chunks[0]), Next(H(), chunks[n - 1]) + W)
      ensures done ==> StoredOnly(old(data), data, Mem(chunks[0]), chunks[0] + total + W)
    {
      hide B.Bins.Valid, B.Bins.Content, B.Bins.Fields, Placed, SegmentsOk, Grid, Binned, Accounted, Tiled, InARow,
           Fresh, ElementsAnd, Zero, StoredOnly;
      ghost var s := Image();
      var size := ContentsFrom(sizes, same, n, 0) + ArraySize(n, given);
      done, chunks, marray, total := false, [], NULL, 0;
      ContentsAligned(sizes, same, n, 0);
      AlignedSum(ContentsFrom(sizes, same, n, 0), ArraySize(n, given));
      AggregateSize(size);
      var p := DlMalloc(size - OVERHEAD);
      if p != NULL {
        done, total := true, SizeAt(H(), p);
        chunks, marray := CutElements(p, n, sizes, same, clear, given, s);
      }
    }

    /** The block is cleared, and then cut. */
    method CutElements(p: Addr, n: nat, sizes: seq<nat>, same: bool, clear: bool, given: bool, ghost s: Store)
      returns (chunks: seq<Addr>, marray: Addr)
      requires Valid() && n > 0 && if same then |sizes| > 0 else n <= |sizes|
      requires Allocated(s, ContentsFrom(sizes, same, n, 0) + ArraySize(n, given), p)
      modifies this`st, this`data, this`lay
      ensures Valid() && Elements(s, chunks, marray, sizes, same, n, given, old(SizeAt(H(), p)))
      ensures clear ==> Zero(data, Mem(chunks[0]), Next(H(), chunks[n - 1]) + W)
      ensures StoredOnly(old(data), data, Mem(chunks[0]), chunks[0] + old(SizeAt(H(), p)) + W)
    {
      hide B.Bins.Valid, B.Bins.Content, B.Bins.Fields, Placed, SegmentsOk, Grid, Binned, Accounted, Tiled, InARow,
           Elements, Fresh, ElementsAnd, Zero, StoredOnly;
      var remainder, array_size := HeadAt(st.hd, p).size, ArraySize(n, given);
      if clear {
        Clear(Mem(p), remainder - W - array_size);
      }
      Cleared(old(data), data, clear, Mem(p), p + remainder + W - array_size, p + remainder + W);
      chunks, marray := Distribute(p, remainder, ContentsFrom(sizes, same, n, 0), n, sizes, same, given, s,
                                   bins.Content(), bins.Fields());
      AreElements(s, chunks, marray, sizes, same, n, given, remainder);
      if clear {
        ZeroLess(data, Mem(p), Next(H(), chunks[n - 1]) + W, p + remainder + W - array_size);
      }
    }

    lemma Cleared(d: Words, e: Words, clear: bool, from: Addr, to: Addr, end: Addr)
      requires to <= end
      requires if clear then forall x {:trigger At(e, x)} :: At(e, x) == if from <= x < to then 0 else At(d, x)
               else e == d
      ensures StoredOnly(d, e, from, end) && (clear ==> Zero(e, from, to))
    {
    }

    lemma ZeroLess(d: Words, from: Addr, to: Addr, end: Addr)
      requires Zero(d, from, end) && to <= end
      ensures Zero(d, from, to)
    {
    }

    /** What Distribute leaves is what is promised. */
    lemma AreElements(s: Store, chunks: seq<Addr>, marray: Addr, sizes: seq<nat>, same: bool, n: nat, given: bool,
                      total: nat)
      requires n > 0 && if same then |sizes| > 0 else n <= |sizes|
      requires |chunks| == n && InARow(H(), chunks, sizes, same, n)
      requires Fresh(s, H(), bins.Fields(), ElementsAnd(chunks, given, marray))
      requires given ==> Next(H(), chunks[n - 1]) == chunks[0] + total
      requires !given ==> Next(H(), chunks[n - 1]) == marray == chunks[0] + ContentsFrom(sizes, same, n, 0)
      requires !given ==> Next(H(), marray) == chunks[0] + total
      requires !given ==> Live(H(), marray) && SizeAt(H(), marray) >= ArraySize(n, given)
      requires 0 <= total - (ContentsFrom(sizes, same, n, 0) + ArraySize(n, given)) < MIN_CHUNK
      ensures Elements(s, chunks, marray, sizes, same, n, given, total)
    {
      ContentsAligned(sizes, same, n, 0);
    }

    /** The padded size of the array of results, if it is to be allocated too. */
    static function ArraySize(n: nat, given: bool): nat {
      if given then 0 else Request2Size(n * W)
    }

    /** The array chunk behind the elements, and then the elements. */
    method Distribute(p: Addr, remainder: nat, contents: nat, n: nat, sizes: seq<nat>, same: bool, given: bool,
                      ghost s: Store, ghost t: B.Table, ghost l: B.Links) returns (chunks: seq<Addr>, marray: Addr)
      requires Running(H()) && DvOk(H()) && Binned(H(), {st.dv}, t) && st.top != NULL
      requires Live(H(), p) && PInUse(H(), p) && SizeAt(H(), p) == remainder
      requires n > 0 && if same then |sizes| > 0 else n <= |sizes|
      requires contents == ContentsFrom(sizes, same, n, 0) && contents + ArraySize(n, given) <= remainder
      requires SpareLive(s, Store(H(), l), {p}) && !Live(s.h, p)
      modifies this`st, this`lay
      ensures Running(H()) && DvOk(H()) && Binned(H(), {st.dv}, t) && st.top != NULL
      ensures Fresh(s, H(), l, ElementsAnd(chunks, given, marray))
      ensures |chunks| == n && chunks[0] == p && InARow(H(), chunks, sizes, same, n)
      ensures given ==> Next(H(), chunks[n - 1]) == p + remainder
      ensures !given ==> Next(H(), chunks[n - 1]) == marray == p + contents && Next(H(), marray) == p + remainder
      ensures !given ==> Live(H(), marray) && SizeAt(H(), marray) >= ArraySize(n, given)
    {
      hide Tiled, Placed, SegmentsOk, Grid, Binned, InARow;
      ghost var h, act := H(), {p};
      InFresh(s, h, l, p);
      Recall(ChunkOk(h, p));
      ContentsAligned(sizes, same, n, 0);
      Unsplit(s, h, l, t, p, remainder);
      if given {
        marray := NULL;
        chunks, act := SplitElements(p, remainder, n, sizes, same, s, h, t, l, act);
      } else {
        marray := p + contents;
        h := SplitArray(p, remainder, contents, s, h, t, l);
        chunks, act := SplitElements(p, contents, n, sizes, same, s, h, t, l, {p, marray});
        Recall(Live(H(), marray));
      }
      assert p in chunks;
      forall c {:trigger c in act} ensures c in act <==> c in ElementsAnd(chunks, given, marray) {
      }
      assert act == ElementsAnd(chunks, given, marray);
    }

    lemma InFresh(s: Store, h: Heap, l: B.Links, p: Addr)
      requires SpareLive(s, Store(h, l), {p}) && !Live(s.h, p) && Live(h, p)
      ensures Fresh(s, h, l, {p})
    {
    }

    lemma Unsplit(s: Store, h: Heap, l: B.Links, t: B.Table, p: Addr, remainder: nat)
      requires h == H() && Running(h) && DvOk(h) && Binned(h, {st.dv}, t) && st.top != NULL
      requires Live(h, p) && PInUse(h, p) && SizeAt(h, p) == remainder && Fresh(s, h, l, {p})
      ensures Splitting(s, h, l, t, p, remainder, {p})
    {
      Recall(ChunkOk(h, p));
      assert PutHead(st.hd, p, Head(remainder, true, true)) == st.hd;
    }

    /** set_size_and_pinuse_of_inuse_chunk(m, array_chunk, array_chunk_size) */
    method SplitArray(p: Addr, remainder: nat, contents: nat, ghost s: Store, ghost h: Heap, ghost t: B.Table,
                      ghost l: B.Links)
      returns (ghost w: Heap)
      requires Splitting(s, h, l, t, p, remainder, {p}) && Aligned(contents) && MIN_CHUNK <= contents
      requires contents + MIN_CHUNK <= remainder
      modifies this`st, this`lay
      ensures Splitting(s, w, l, t, p, contents, {p, p + contents}) && SizeAt(w, p + contents) == remainder - contents
    {
      w := Split(h, p, contents);
      CutFresh(s, h, sys.segs, sys.least, p, contents, {st.dv}, t, l, {p}, st.dv);
      assert {p} + {p + contents} == {p, p + contents};
      Overwritten(st, h, p, remainder, Head(contents, true, true));
      st := SetUsed(st, p + contents, remainder - contents);
      lay := lay.(chunks := lay.chunks + {p + contents});
      assert PutHead(st.hd, p, Head(contents, true, true)) == w.hd;
    }

    ghost function ElementsAnd(chunks: seq<Addr>, given: bool, marray: Addr): set<Addr> {
      (set c | c in chunks) + if given then {} else {marray}
    }

    /** The aggregate request is padded to exactly the size that was added up. */
    lemma AggregateSize(size: nat)
      requires Aligned(size) && size >= MIN_CHUNK
      ensures Request2Size(size - OVERHEAD) == size
    {
      hide AlignUp, Aligned;
      AlreadyAligned(size);
    }
  }
}
