/** Heap and bins together: which free chunks are binned, and which words no operation writes. */
module Stores {
  import opened Config
  import opened Tiling
  import opened Segments
  import opened Frames
  import opened Bins

  ghost predicate Loose(h: Heap, out: set<Addr>, p: Addr) {
    Free(h, p) && p !in out
  }

  ghost predicate BinnedAt(h: Heap, out: set<Addr>, t: Table, p: Addr) {
    && (p in t <==> Loose(h, out, p))
    && (p in t ==> t[p] == SizeAt(h, p))
  }

  /** The bins hold exactly the free chunks that are not in out. */
  ghost predicate Binned(h: Heap, out: set<Addr>, t: Table) {
    forall p {:trigger BinnedAt(h, out, t, p)} :: BinnedAt(h, out, t, p)
  }

  /** A step that touches only p and n, which are not binned. */
  lemma BinnedStep(h: Heap, w: Heap, p: Addr, n: Addr, out: set<Addr>, t: Table, out': set<Addr>)
    requires Binned(h, out, t) && Frame(h, w, {p, n})
    requires !Loose(h, out, p) && !Loose(w, out', p) && !Loose(h, out, n) && !Loose(w, out', n)
    requires forall a {:trigger Free(h, a)} | a != p && a != n && Free(h, a) :: a in out <==> a in out'
    ensures Binned(w, out', t)
  {
    forall a {:trigger BinnedAt(w, out', t, a)} ensures BinnedAt(w, out', t, a) {
      Recall(BinnedAt(h, out, t, a));
      Recall(SameChunk(h, w, a));
    }
  }

  lemma BinnedPut(h: Heap, out: set<Addr>, t: Table, p: Addr, out': set<Addr>)
    requires Binned(h, out, t) && Free(h, p) && p in out
    requires forall a :: a in out' <==> a in out && a != p
    ensures p !in t && Binned(h, out', t[p := SizeAt(h, p)])
  {
    Recall(BinnedAt(h, out, t, p));
    forall a {:trigger BinnedAt(h, out', t[p := SizeAt(h, p)], a)} ensures BinnedAt(h, out', t[p := SizeAt(h, p)], a) {
      Recall(BinnedAt(h, out, t, a));
    }
  }

  lemma BinnedCut(h: Heap, out: set<Addr>, t: Table, p: Addr, out': set<Addr>)
    requires Binned(h, out, t)
    requires forall a :: a in out' <==> a in out || a == p
    ensures Binned(h, out', t - {p})
  {
    forall a {:trigger BinnedAt(h, out', t - {p}, a)} ensures BinnedAt(h, out', t - {p}, a) {
      Recall(BinnedAt(h, out, t, a));
    }
  }

  // ---- link words ----

  /** No link word in the payload of b is written. */
  ghost predicate Quiet(h: Heap, l: Links, m: Links, b: Addr) {
    forall x {:trigger LinkWord(m, x)} | b + 2 * W <= x < Next(h, b) + W :: LinkWord(m, x) == LinkWord(l, x)
  }

  /** The bins link free chunks, and so they write into no used one. */
  lemma BinsQuiet(h: Heap, t: Table, l: Links, m: Links)
    requires Tiled(h) && Grid(h) && OnlyLinksOf(t, l, m)
    requires forall p {:trigger t[p]} | p in t :: Free(h, p) && t[p] == SizeAt(h, p)
    ensures forall b {:trigger Quiet(h, l, m, b)} | Used(h, b) :: Quiet(h, l, m, b)
  {
    forall b {:trigger Quiet(h, l, m, b)} | Used(h, b) ensures Quiet(h, l, m, b) {
      ChunkAligned(h, b);
      Recall(ChunkOk(h, b));
      AlignedGap(0, b);
      forall x {:trigger LinkWord(m, x)} | b + 2 * W <= x < Next(h, b) + W ensures LinkWord(m, x) == LinkWord(l, x) {
        if Covers(t, x) {
          var a :| a in t && FieldsCover(a, t[a], x);
          CoverApart(h, a, b, x);
        }
      }
    }
  }

  lemma CoverApart(h: Heap, a: Addr, b: Addr, x: Addr)
    requires Tiled(h) && Grid(h) && Free(h, a) && Used(h, b) && FieldsCover(a, SizeAt(h, a), x)
    ensures !(b + 2 * W <= x < Next(h, b) + W)
  {
    ChunkAligned(h, a);
    Recall(Apart(h, a, b));
    Recall(Apart(h, b, a));
  }

  // ---- whole stores ----

  /** Everything that the allocator keeps among the chunks. */
  datatype Store = Store(h: Heap, l: Links)

  /** Chunks outside of act are as they were, and no word in the payload of a used one was written. */
  ghost predicate Kept(s: Store, z: Store, act: set<Addr>) {
    && Frame(s.h, z.h, act)
    && forall b {:trigger Quiet(s.h, s.l, z.l, b)} | Used(s.h, b) && b !in act :: Quiet(s.h, s.l, z.l, b)
  }

  lemma QuietTrans(h: Heap, w: Heap, l: Links, m: Links, n: Links, c: Addr)
    requires Quiet(h, l, m, c) && Quiet(w, m, n, c) && SizeAt(w, c) == SizeAt(h, c)
    ensures Quiet(h, l, n, c)
  {
    forall x {:trigger LinkWord(n, x)} | c + 2 * W <= x < Next(h, c) + W ensures LinkWord(n, x) == LinkWord(l, x) {
      Recall(LinkWord(m, x) == LinkWord(l, x));
    }
  }

  /** A step on the heap alone. */
  lemma KeptHeap(h: Heap, w: Heap, l: Links, act: set<Addr>)
    requires Frame(h, w, act)
    ensures Kept(Store(h, l), Store(w, l), act)
  {
  }

  /** An operation on the bins alone. */
  lemma KeptLinks(h: Heap, out: set<Addr>, t: Table, l: Links, m: Links)
    requires Tiled(h) && Grid(h) && Binned(h, out, t) && OnlyLinksOf(t, l, m)
    ensures Kept(Store(h, l), Store(h, m), {})
  {
    forall p {:trigger t[p]} | p in t ensures Free(h, p) && t[p] == SizeAt(h, p) {
      Recall(BinnedAt(h, out, t, p));
    }
    BinsQuiet(h, t, l, m);
  }

  // ---- what the client sees ----

  /** b is in use before exactly if it is in use after, and then no word of its payload was written. */
  ghost predicate SameUse(s: Store, z: Store, b: Addr) {
    && (Used(z.h, b) <==> Used(s.h, b)) && (b in z.h.pins <==> b in s.h.pins)
    && (Used(s.h, b) ==> SizeAt(z.h, b) == SizeAt(s.h, b) && Intact(s.h, z.h, b) && Quiet(s.h, s.l, z.l, b))
  }

  /** All used chunks outside of act are spared, and no others have come up. */
  ghost predicate Spared(s: Store, z: Store, act: set<Addr>) {
    forall b {:trigger SameUse(s, z, b)} | b !in act :: SameUse(s, z, b)
  }

  lemma Sparing(s: Store, z: Store, act: set<Addr>, named: set<Addr>)
    requires Kept(s, z, act)
    requires forall b | b in act && b !in named :: !Used(s.h, b) && !Used(z.h, b) && b !in s.h.pins && b !in z.h.pins
    ensures Spared(s, z, named)
  {
    forall b {:trigger SameUse(s, z, b)} | b !in named ensures SameUse(s, z, b) {
      Recall(SameChunk(s.h, z.h, b));
      Recall(Quiet(s.h, s.l, z.l, b));
    }
  }

  lemma SparedTrans(s: Store, y: Store, z: Store, a: set<Addr>, b: set<Addr>)
    requires Spared(s, y, a) && Spared(y, z, b)
    ensures Spared(s, z, a + b)
  {
    forall c {:trigger SameUse(s, z, c)} | c !in a + b ensures SameUse(s, z, c) {
      Recall(SameUse(s, y, c));
      Recall(SameUse(y, z, c));
      if Used(s.h, c) {
        IntactTrans(s.h, y.h, z.h, c);
        QuietTrans(s.h, y.h, s.l, y.l, z.l, c);
      }
    }
  }

  lemma SparedRefl(s: Store)
    ensures Spared(s, s, {})
  {
  }

  /** A chunk that has been in use only in between. */
  lemma SparedBetween(s: Store, z: Store, act: set<Addr>, act': set<Addr>)
    requires Spared(s, z, act)
    requires forall b | b in act && b !in act' :: !Used(s.h, b) && !Used(z.h, b) && b !in s.h.pins && b !in z.h.pins
    ensures Spared(s, z, act')
  {
    forall b {:trigger SameUse(s, z, b)} | b !in act' ensures SameUse(s, z, b) {
      Recall(SameUse(s, z, b));
    }
  }

  /** The blocks that the client owns, by the addresses of their chunks. */
  ghost function Blocks(h: Heap): map<Addr, nat> {
    map b | b in h.chunks && Live(h, b) :: SizeAt(h, b)
  }

  /** What SameUse says, for the blocks of the client alone: segment records may come and go. */
  ghost predicate SameBlock(s: Store, z: Store, b: Addr) {
    && (Live(z.h, b) <==> Live(s.h, b))
    && (Live(s.h, b) ==> SizeAt(z.h, b) == SizeAt(s.h, b) && Intact(s.h, z.h, b) && Quiet(s.h, s.l, z.l, b))
  }

  /** Apart from act, the client owns the same blocks, and no word in them was written. */
  ghost predicate SpareLive(s: Store, z: Store, act: set<Addr>) {
    forall b {:trigger SameBlock(s, z, b)} | b !in act :: SameBlock(s, z, b)
  }

  lemma SparedLive(s: Store, z: Store, act: set<Addr>)
    requires Spared(s, z, act)
    ensures SpareLive(s, z, act)
  {
    forall b {:trigger SameBlock(s, z, b)} | b !in act ensures SameBlock(s, z, b) {
      Recall(SameUse(s, z, b));
    }
  }

  lemma KeptLive(s: Store, z: Store, act: set<Addr>, named: set<Addr>)
    requires Kept(s, z, act)
    requires forall b | b in act && b !in named :: !Live(s.h, b) && !Live(z.h, b)
    ensures SpareLive(s, z, named)
  {
    forall b {:trigger SameBlock(s, z, b)} | b !in named ensures SameBlock(s, z, b) {
      Recall(SameChunk(s.h, z.h, b));
      Recall(Quiet(s.h, s.l, z.l, b));
    }
  }

  lemma LiveTrans(s: Store, y: Store, z: Store, a: set<Addr>, b: set<Addr>)
    requires SpareLive(s, y, a) && SpareLive(y, z, b)
    ensures SpareLive(s, z, a + b)
  {
    forall c {:trigger SameBlock(s, z, c)} | c !in a + b ensures SameBlock(s, z, c) {
      Recall(SameBlock(s, y, c));
      Recall(SameBlock(y, z, c));
      if Live(s.h, c) {
        IntactTrans(s.h, y.h, z.h, c);
        QuietTrans(s.h, y.h, s.l, y.l, z.l, c);
      }
    }
  }

  /** Chunks that the client did not own and does not own need no mention. */
  lemma LiveBetween(s: Store, z: Store, act: set<Addr>, named: set<Addr>)
    requires SpareLive(s, z, act)
    requires forall b | b in act && b !in named :: !Live(s.h, b) && !Live(z.h, b)
    ensures SpareLive(s, z, named)
  {
    forall b {:trigger SameBlock(s, z, b)} | b !in named ensures SameBlock(s, z, b) {
      Recall(SameBlock(s, z, b));
    }
  }

  lemma LiveRefl(s: Store)
    ensures SpareLive(s, s, {})
  {
  }

  lemma SameBlocks(s: Store, z: Store, act: set<Addr>, b: Addr)
    requires SpareLive(s, z, act) && b !in act
    ensures b in Blocks(z.h) <==> b in Blocks(s.h)
    ensures b in Blocks(s.h) ==> Blocks(z.h)[b] == Blocks(s.h)[b]
  {
    Recall(SameBlock(s, z, b));
  }

  /** A block has appeared. */
  lemma BlockAdded(s: Store, z: Store, p: Addr)
    requires SpareLive(s, z, {p}) && Live(z.h, p)
    ensures Blocks(z.h) == Blocks(s.h)[p := SizeAt(z.h, p)]
  {
    forall b | b != p ensures b in Blocks(z.h) <==> b in Blocks(s.h)
      ensures b in Blocks(s.h) ==> Blocks(z.h)[b] == Blocks(s.h)[b]
    {
      SameBlocks(s, z, {p}, b);
    }
  }

  /** A block has disappeared. */
  lemma BlockRemoved(s: Store, z: Store, p: Addr)
    requires SpareLive(s, z, {p}) && !Live(z.h, p)
    ensures Blocks(z.h) == Blocks(s.h) - {p}
  {
    forall b | b != p ensures b in Blocks(z.h) <==> b in Blocks(s.h)
      ensures b in Blocks(s.h) ==> Blocks(z.h)[b] == Blocks(s.h)[b]
    {
      SameBlocks(s, z, {p}, b);
    }
  }

  lemma BlocksSame(s: Store, z: Store)
    requires SpareLive(s, z, {})
    ensures Blocks(z.h) == Blocks(s.h)
  {
    forall b ensures b in Blocks(z.h) <==> b in Blocks(s.h)
      ensures b in Blocks(s.h) ==> Blocks(z.h)[b] == Blocks(s.h)[b]
    {
      SameBlocks(s, z, {}, b);
    }
  }

  /** What a step on the heap alone means for the bins, for dv and for the used chunks: only p leaves or
      enters use, and neither p nor n is binned before or after. */
  lemma StepEffect(h: Heap, w: Heap, p: Addr, n: Addr, out: set<Addr>, t: Table, out': set<Addr>, l: Links, dv: Addr)
    requires Frame(h, w, {p, n}) && Binned(h, out, t)
    requires !Loose(h, out, p) && !Loose(w, out', p) && !Loose(h, out, n) && !Loose(w, out', n)
    requires n == p || (!Used(h, n) && !Used(w, n) && n !in h.pins && n !in w.pins)
    requires forall a {:trigger Free(h, a)} | a != p && a != n && Free(h, a) :: a in out <==> a in out'
    ensures Binned(w, out', t) && Spared(Store(h, l), Store(w, l), {p})
    ensures dv != p && dv != n ==> (Free(w, dv) <==> Free(h, dv)) && (Free(h, dv) ==> SizeAt(w, dv) == SizeAt(h, dv))
  {
    BinnedStep(h, w, p, n, out, t, out');
    KeptHeap(h, w, l, {p, n});
    Sparing(Store(h, l), Store(w, l), {p, n}, {p});
    Recall(SameChunk(h, w, dv));
  }

  /** The first n bytes behind the header of b hold no word that was written. */
  ghost predicate Untouched(s: Store, z: Store, b: Addr, n: nat) {
    forall x {:trigger Word(z.h, x)} {:trigger LinkWord(z.l, x)} | b + 2 * W <= x < b + n + W ::
      Word(z.h, x) == Word(s.h, x) && LinkWord(z.l, x) == LinkWord(s.l, x)
  }

  lemma UntouchedTrans(s: Store, y: Store, z: Store, b: Addr, n: nat)
    requires Untouched(s, y, b, n) && Untouched(y, z, b, n)
    ensures Untouched(s, z, b, n)
  {
    forall x {:trigger Word(z.h, x)} {:trigger LinkWord(z.l, x)} | b + 2 * W <= x < b + n + W
      ensures Word(z.h, x) == Word(s.h, x) && LinkWord(z.l, x) == LinkWord(s.l, x)
    {
      Recall(Word(y.h, x) == Word(s.h, x));
    }
  }

  lemma SparedUntouched(s: Store, z: Store, act: set<Addr>, b: Addr, n: nat)
    requires Spared(s, z, act) && b !in act && Used(s.h, b) && n <= SizeAt(s.h, b)
    ensures Untouched(s, z, b, n)
  {
    Recall(SameUse(s, z, b));
  }

}
