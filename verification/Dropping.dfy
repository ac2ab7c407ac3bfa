/** An older segment that holds one free chunk and its record goes back to the system. */
module Dropping {
  import opened Config
  import opened Tiling
  import opened Segments
  import opened Frames
  import opened Layouts
  import opened Stores
  import opened Bins

  function Dropped(segs: seq<Segment>, k: nat): seq<Segment>
    requires k < |segs|
  {
    segs[..k] + segs[k + 1..]
  }

  /** The test of release_unused_segments: the first chunk is free and reaches the reserve at the end. */
  predicate Vacant(hd: Heads, seg: Segment) {
    var p := First(seg);
    seg.mmapped && HeadAt(hd, p).pinuse && !HeadAt(hd, p).cinuse && p + HeadAt(hd, p).size >= End(seg) - TOP_FOOT
  }

  ghost predicate Rising(ks: seq<nat>) {
    forall i, j {:trigger ks[i], ks[j]} | 0 <= i < j < |ks| :: ks[i] < ks[j]
  }

  lemma RisingLess(ks: seq<nat>, k: nat, ls: seq<nat>)
    requires Rising(ks) && k < |ks| && ls == ks[..k] + ks[k + 1..]
    ensures Rising(ls) && (k > 0 ==> ks[k] > 0)
  {
    forall i, j {:trigger ls[i], ls[j]} | 0 <= i < j < |ls| ensures ls[i] < ls[j] {
      assert ls[i] == ks[OldIndex(k, i)] && ls[j] == ks[OldIndex(k, j)];
    }
    if k > 0 {
      assert ks[0] < ks[k];
    }
  }

  /** Of segs, those at ks remain, in their order, and all others are vacant. */
  ghost predicate Thinned(hd: Heads, segs: seq<Segment>, rest: seq<Segment>, ks: seq<nat>) {
    && |ks| == |rest| && (forall i {:trigger ks[i]} | 0 <= i < |ks| :: ks[i] < |segs| && segs[ks[i]] == rest[i])
    && Rising(ks)
    && (forall j: nat {:trigger segs[j]} | j < |segs| && j !in ks :: j > 0 && Vacant(hd, segs[j]))
  }

  lemma AllRemain(hd: Heads, segs: seq<Segment>) returns (ks: seq<nat>)
    ensures Thinned(hd, segs, segs, ks)
  {
    ks := seq(|segs|, i => i);
    forall j: nat {:trigger segs[j]} | j < |segs| ensures j in ks {
      assert ks[j] == j;
    }
  }

  lemma NotAnother(ks: seq<nat>, k: nat, j: nat)
    requires k < |ks| && j !in ks[..k] + ks[k + 1..]
    ensures j == ks[k] || j !in ks
  {
    assert ks == ks[..k] + [ks[k]] + ks[k + 1..];
  }

  lemma OneLess(hd: Heads, segs: seq<Segment>, rest: seq<Segment>, ks: seq<nat>, k: nat) returns (ls: seq<nat>)
    requires Thinned(hd, segs, rest, ks) && 0 < k < |rest| && Vacant(hd, rest[k])
    ensures Thinned(hd, segs, Dropped(rest, k), ls)
  {
    hide Vacant, Rising;
    ls := ks[..k] + ks[k + 1..];
    var less := Dropped(rest, k);
    forall i {:trigger ls[i]} | 0 <= i < |ls| ensures ls[i] < |segs| && segs[ls[i]] == less[i] {
      assert ls[i] == ks[OldIndex(k, i)] && less[i] == rest[OldIndex(k, i)];
    }
    forall j: nat {:trigger segs[j]} | j < |segs| && j !in ls ensures j > 0 && Vacant(hd, segs[j]) {
      NotAnother(ks, k, j);
      OthersVacant(hd, segs, rest, ks, k, j);
    }
    RisingLess(ks, k, ls);
  }

  lemma OthersVacant(hd: Heads, segs: seq<Segment>, rest: seq<Segment>, ks: seq<nat>, k: nat, j: nat)
    requires Thinned(hd, segs, rest, ks) && 0 < k < |rest| && Vacant(hd, rest[k]) && j < |segs|
    requires j == ks[k] || j !in ks
    ensures j > 0 && Vacant(hd, segs[j])
  {
    hide Vacant;
    if j == ks[k] {
      RisingLess(ks, k, ks[..k] + ks[k + 1..]);
      assert segs[ks[k]] == rest[k];
    } else {
      assert segs[j] == segs[j];
    }
  }

  /** The index in the old list. */
  function OldIndex(k: nat, i: nat): nat {
    if i < k then i else i + 1
  }

  lemma DroppedAt(segs: seq<Segment>, k: nat, i: nat)
    requires 0 < k < |segs| && i < |segs| - 1
    ensures var s := Dropped(segs, k);
      s[i] == segs[OldIndex(k, i)] && Limit(s, i) == Limit(segs, OldIndex(k, i)) && |s| == |segs| - 1
  {
  }

  function DropSegment(h: Heap, segs: seq<Segment>, k: nat): Heap
    requires k < |segs|
  {
    h.(chunks := h.chunks - {First(segs[k]), RecordChunk(segs[k])}, fences := h.fences - {Limit(segs, k)},
       pins := h.pins - {RecordChunk(segs[k])})
  }

  /** The first chunk of segment k is free and reaches the record. */
  ghost predicate CanDrop(h: Heap, segs: seq<Segment>, least: Addr, k: nat) {
    && Wf(h, segs, least) && 0 < k < |segs|
    && Free(h, First(segs[k])) && RecordChunk(segs[k]) <= Next(h, First(segs[k]))
  }

  lemma DropParts(h: Heap, segs: seq<Segment>, least: Addr, k: nat)
    requires CanDrop(h, segs, least, k)
    ensures var p, r, f := First(segs[k]), RecordChunk(segs[k]), Limit(segs, k);
      && Next(h, p) == r && Next(h, r) == f && p < r < f && r in h.chunks && r in h.pins && r != h.top && f in h.fences
      && InUse(h, r) && HoldsAddr(segs[k], p) && HoldsAddr(segs[k], r) && HoldsAddr(segs[k], f) && p != h.top
  {
    var p, r := First(segs[k]), RecordChunk(segs[k]);
    Recall(SegmentOk(segs, k, least));
    Recall(RecordOk(h, segs, k));
    Recall(PinOk(h, r));
    Recall(ChunkOk(h, r));
    Recall(ChunkOk(h, p));
    Recall(Apart(h, p, r));
    Recall(Apart(h, r, p));
    Recall(Contained(h, segs, k, r));
  }

  /** Nothing else stands in segment k, and nothing else reaches into it. */
  lemma AwayFromDropped(h: Heap, segs: seq<Segment>, least: Addr, k: nat, q: Addr)
    requires CanDrop(h, segs, least, k) && Stands(h, q)
    ensures q in {First(segs[k]), RecordChunk(segs[k]), Limit(segs, k)} <==> HoldsAddr(segs[k], q)
    ensures Chunk(h, q) && !HoldsAddr(segs[k], q) ==>
      Next(h, q) !in {First(segs[k]), RecordChunk(segs[k]), Limit(segs, k)}
  {
    var p, r, f := First(segs[k]), RecordChunk(segs[k]), Limit(segs, k);
    DropParts(h, segs, least, k);
    if q in h.chunks {
      Recall(Contained(h, segs, k, q));
      Recall(ChunkOk(h, q));
      Recall(Apart(h, p, q));
      Recall(Apart(h, q, p));
      Recall(Apart(h, r, q));
      Recall(Apart(h, q, r));
      if Chunk(h, q) {
        NotFirst(h, segs, least, q, k);
      }
    } else {
      Recall(FencePlaced(segs, k, q));
      Recall(FenceOk(h, q));
    }
  }

  lemma DropTiled(h: Heap, segs: seq<Segment>, least: Addr, k: nat)
    requires CanDrop(h, segs, least, k)
    ensures var w, p, r := DropSegment(h, segs, k), First(segs[k]), RecordChunk(segs[k]);
      Tiled(w) && Frame(h, w, {p, r})
  {
    var w, p, r := DropSegment(h, segs, k), First(segs[k]), RecordChunk(segs[k]);
    DropParts(h, segs, least, k);
    forall a {:trigger ChunkOk(w, a)} | a in w.chunks && a != w.top ensures ChunkOk(w, a) {
      Recall(ChunkOk(h, a));
      AwayFromDropped(h, segs, least, k, a);
    }
    forall a {:trigger PrevOk(w, a)} | a in w.chunks ensures PrevOk(w, a) {
      Recall(PrevOk(h, a));
      Recall(FenceOk(h, Limit(segs, k)));
    }
    forall a, b {:trigger Apart(w, a, b)} | a in w.chunks && Stands(w, b) ensures Apart(w, a, b) {
      Recall(Apart(h, a, b));
    }
    forall x {:trigger PinOk(w, x)} | x in w.pins ensures PinOk(w, x) {
      Recall(PinOk(h, x));
      DropPin(h, segs, least, k, x);
    }
    forall f {:trigger FenceOk(w, f)} | f in w.fences ensures FenceOk(w, f) {
      Recall(FenceOk(h, f));
    }
  }

  lemma DropPin(h: Heap, segs: seq<Segment>, least: Addr, k: nat, x: Addr)
    requires CanDrop(h, segs, least, k) && x in h.pins && x != RecordChunk(segs[k])
    ensures PinOk(DropSegment(h, segs, k), x)
  {
    DropParts(h, segs, least, k);
    Recall(PinOk(h, x));
    AwayFromDropped(h, segs, least, k, x);
    Recall(FenceOk(h, Limit(segs, k)));
    Recall(Apart(h, x, RecordChunk(segs[k])));
    Recall(Apart(h, RecordChunk(segs[k]), x));
  }

  lemma DropPlaced(h: Heap, segs: seq<Segment>, least: Addr, k: nat)
    requires CanDrop(h, segs, least, k)
    ensures Placed(DropSegment(h, segs, k), Dropped(segs, k)) && SegmentsOk(Dropped(segs, k), least)
  {
    var w, s := DropSegment(h, segs, k), Dropped(segs, k);
    DropParts(h, segs, least, k);
    DroppedAt(segs, k, 0);
    forall i: nat {:trigger SegmentOk(s, i, least)} | i < |s| ensures SegmentOk(s, i, least) {
      DroppedAt(segs, k, i);
      Recall(SegmentOk(segs, OldIndex(k, i), least));
    }
    forall i: nat, j: nat {:trigger SegApart(s, i, j)} | i < |s| && j < |s| && i != j ensures SegApart(s, i, j) {
      DroppedAt(segs, k, i);
      DroppedAt(segs, k, j);
      Recall(SegApart(segs, OldIndex(k, i), OldIndex(k, j)));
    }
    forall i: nat {:trigger FirstOk(w, s, i)} | i < |s| ensures FirstOk(w, s, i) {
      DropSegmentOk(h, segs, least, k, i);
    }
    forall i: nat {:trigger RecordOk(w, s, i)} | i < |s| ensures RecordOk(w, s, i) {
      DropSegmentOk(h, segs, least, k, i);
    }
    forall q {:trigger Homed(s, q)} | Stands(w, q) ensures Homed(s, q) {
      DropHomed(h, segs, least, k, q);
    }
    forall i: nat, q {:trigger Contained(w, s, i, q)} | i < |s| && q in w.chunks ensures Contained(w, s, i, q) {
      DroppedAt(segs, k, i);
      Recall(Contained(h, segs, OldIndex(k, i), q));
    }
    forall i: nat, f {:trigger FencePlaced(s, i, f)} | i < |s| && f in w.fences ensures FencePlaced(s, i, f) {
      DroppedAt(segs, k, i);
      Recall(FencePlaced(segs, OldIndex(k, i), f));
    }
    forall r {:trigger IsRecord(s, r)} | r in w.pins ensures IsRecord(s, r) {
      Recall(IsRecord(segs, r));
      var j: nat :| 0 < j < |segs| && r == RecordChunk(segs[j]);
      DroppedAt(segs, k, if j < k then j else j - 1);
      assert r == RecordChunk(s[if j < k then j else j - 1]);
    }
  }

  lemma DropSegmentOk(h: Heap, segs: seq<Segment>, least: Addr, k: nat, i: nat)
    requires CanDrop(h, segs, least, k) && i < |segs| - 1
    ensures FirstOk(DropSegment(h, segs, k), Dropped(segs, k), i)
    ensures RecordOk(DropSegment(h, segs, k), Dropped(segs, k), i)
  {
    var j := OldIndex(k, i);
    DroppedAt(segs, k, i);
    DropParts(h, segs, least, k);
    Recall(FirstOk(h, segs, j));
    Recall(RecordOk(h, segs, j));
    Recall(SegmentOk(segs, j, least));
    Recall(SegApart(segs, j, k));
    assert HoldsAddr(segs[j], First(segs[j]));
    if j > 0 {
      Recall(PinOk(h, RecordChunk(segs[j])));
      Recall(Homed(segs, RecordChunk(segs[j])));
      Recall(Apart(h, First(segs[j]), RecordChunk(segs[j])));
      Recall(Apart(h, RecordChunk(segs[j]), First(segs[j])));
      Recall(ChunkOk(h, RecordChunk(segs[j])));
    }
  }

  lemma DropHomed(h: Heap, segs: seq<Segment>, least: Addr, k: nat, q: Addr)
    requires CanDrop(h, segs, least, k) && Stands(DropSegment(h, segs, k), q)
    ensures Homed(Dropped(segs, k), q)
  {
    Recall(Homed(segs, q));
    var j: nat :| j < |segs| && HoldsAddr(segs[j], q);
    Recall(FenceOk(h, q));
    Recall(FenceOk(h, Limit(segs, k)));
    DropParts(h, segs, least, k);
    AwayFromDropped(h, segs, least, k, q);
    var i := if j < k then j else j - 1;
    DroppedAt(segs, k, i);
    assert HoldsAddr(Dropped(segs, k)[i], q);
  }

  lemma DropStep(h: Heap, segs: seq<Segment>, least: Addr, k: nat, out: set<Addr>, t: Table, out': set<Addr>, l: Links,
                 dv: Addr)
    requires CanDrop(h, segs, least, k) && Binned(h, out, t) && First(segs[k]) in out
    requires forall a {:trigger Free(h, a)} | a != First(segs[k]) && Free(h, a) :: a in out <==> a in out'
    ensures var w, p := DropSegment(h, segs, k), First(segs[k]);
      && Wf(w, Dropped(segs, k), least) && Binned(w, out', t) && SpareLive(Store(h, l), Store(w, l), {})
      && (dv != p && Free(h, dv) ==> Free(w, dv) && SizeAt(w, dv) == SizeAt(h, dv))
      && w.top == h.top && SizeAt(w, w.top) == SizeAt(h, h.top)
  {
    var w, p, r := DropSegment(h, segs, k), First(segs[k]), RecordChunk(segs[k]);
    DropParts(h, segs, least, k);
    DropTiled(h, segs, least, k);
    DropPlaced(h, segs, least, k);
    forall q {:trigger Aligned(q)} | Stands(w, q) ensures Aligned(q) {
      Recall(Aligned(q));
    }
    BinnedStep(h, w, p, r, out, t, out');
    KeptHeap(h, w, l, {p, r});
    KeptLive(Store(h, l), Store(w, l), {p, r}, {});
    Recall(SameChunk(h, w, dv));
  }
}
