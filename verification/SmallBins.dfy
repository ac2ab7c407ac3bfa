/** The smallbins of malloc_state: circular lists of equally small free chunks, headed by the bins. */
module SmallBins {
  import opened Config
  import opened BinMaps
  import opened Rings

  type Stacks = imap<int, seq<Addr>>

  /** smallbin_at(M, i): the address of the chunk overlay whose links are those of bin i. */
  function Header(i: int): Addr {
    -1 - i
  }

  /** small_index(s) */
  function SmallIndex(s: nat): nat {
    s / 8
  }

  predicate SmallSize(s: int) {
    0 < s < MIN_LARGE && s % 8 == 0
  }

  function StackAt(m: Stacks, i: int): seq<Addr> {
    if i in m then m[i] else []
  }

  /** The links of small free chunks and of the bins, and what they stand for. */
  datatype Overlay = Overlay(fd: Words, bk: Words)
  datatype Shadow = Shadow(stack: Stacks, bin: Words)

  /** The chunks of bin i from the front to the back. */
  ghost function StackOf(g: Shadow, bits: BinMap, i: int): seq<Addr> {
    if 0 <= i < NBINS && Marked(bits, i) then StackAt(g.stack, i) else []
  }

  ghost predicate InBin(g: Shadow, i: nat, p: Addr) {
    p > 0 && At(g.bin, p) == i
  }

  ghost predicate Held(g: Shadow, bits: BinMap, p: Addr) {
    p in StackOf(g, bits, At(g.bin, p))
  }

  /** The links of an unmarked bin are stale. */
  ghost predicate BinOk(o: Overlay, g: Shadow, bits: BinMap, i: nat) {
    Marked(bits, i) ==>
      var q := StackAt(g.stack, i);
      && |q| > 0 && IsRing([Header(i)] + q, o.fd, o.bk)
      && forall k {:trigger q[k]} | 0 <= k < |q| :: InBin(g, i, q[k])
  }

  ghost predicate StateOk(o: Overlay, g: Shadow, bits: BinMap) {
    forall i: nat {:trigger BinOk(o, g, bits, i)} | i < NBINS :: BinOk(o, g, bits, i)
  }

  lemma MemberHeld(o: Overlay, g: Shadow, bits: BinMap, i: nat, k: nat)
    requires StateOk(o, g, bits) && i < NBINS && k < |StackOf(g, bits, i)|
    ensures var p := StackOf(g, bits, i)[k]; InBin(g, i, p) && Held(g, bits, p)
  {
    Recall(BinOk(o, g, bits, i));
    Recall(InBin(g, i, StackAt(g.stack, i)[k]));
  }

  /** A bin none of whose links has been written. */
  lemma OtherBin(o: Overlay, g: Shadow, bits: BinMap, p: Overlay, h: Shadow, bits': BinMap, i: nat)
    requires StateOk(o, g, bits) && i < NBINS
    requires Marked(bits', i) <==> Marked(bits, i)
    requires StackAt(h.stack, i) == StackAt(g.stack, i)
    requires At(p.fd, Header(i)) == At(o.fd, Header(i)) && At(p.bk, Header(i)) == At(o.bk, Header(i))
    requires forall a {:trigger Held(g, bits, a)} | Held(g, bits, a) && a > 0 && At(g.bin, a) == i ::
      At(p.fd, a) == At(o.fd, a) && At(p.bk, a) == At(o.bk, a) && At(h.bin, a) == i
    ensures BinOk(p, h, bits', i)
  {
    if Marked(bits, i) {
      Recall(BinOk(o, g, bits, i));
      var q := StackAt(g.stack, i);
      var r := [Header(i)] + q;
      forall k | 0 <= k < |q|
        ensures InBin(h, i, q[k]) && At(p.fd, q[k]) == At(o.fd, q[k]) && At(p.bk, q[k]) == At(o.bk, q[k])
      {
        MemberHeld(o, g, bits, i, k);
      }
      forall k | 0 <= k < |r| ensures LinkedAt(r, p.fd, p.bk, k) {
        assert LinkedAt(r, o.fd, o.bk, k);
        assert k > 0 ==> r[k] == q[k - 1];
      }
    }
  }

  // ---- the bins as a table of chunks ----

  /** All chunks in the bins, with their sizes. */
  ghost function ContentOf(g: Shadow, bits: BinMap): imap<Addr, int> {
    imap p | Held(g, bits, p) :: 8 * At(g.bin, p)
  }

  lemma HeldAt(o: Overlay, g: Shadow, bits: BinMap, p: Addr)
    requires StateOk(o, g, bits)
    ensures Held(g, bits, p) ==> p > 0 && 0 <= At(g.bin, p) < NBINS
    ensures forall i | p in StackOf(g, bits, i) :: Held(g, bits, p) && At(g.bin, p) == i
  {
    forall i | p in StackOf(g, bits, i) ensures p > 0 && Held(g, bits, p) && At(g.bin, p) == i {
      var k :| 0 <= k < |StackOf(g, bits, i)| && StackOf(g, bits, i)[k] == p;
      MemberHeld(o, g, bits, i, k);
    }
  }

  ghost predicate OnlyBin(g: Shadow, bits: BinMap, g': Shadow, bits': BinMap, i: nat) {
    forall j | j != i :: StackOf(g', bits', j) == StackOf(g, bits, j)
  }

  lemma ContentPushed(o: Overlay, g: Shadow, bits: BinMap, o': Overlay, g': Shadow, bits': BinMap, i: nat, p: Addr)
    requires StateOk(o, g, bits) && StateOk(o', g', bits') && OnlyBin(g, bits, g', bits', i)
    requires StackOf(g', bits', i) == [p] + StackOf(g, bits, i)
    ensures ContentOf(g', bits') == ContentOf(g, bits)[p := 8 * i]
  {
    forall a ensures Held(g', bits', a) <==> Held(g, bits, a) || a == p
      ensures Held(g', bits', a) ==> At(g'.bin, a) == if a == p then i else At(g.bin, a)
    {
      assert p == StackOf(g', bits', i)[0];
      HeldAt(o, g, bits, a);
      HeldAt(o', g', bits', a);
    }
  }

  lemma ContentPulled(o: Overlay, g: Shadow, bits: BinMap, o': Overlay, g': Shadow, bits': BinMap, i: nat, k: nat)
    requires StateOk(o, g, bits) && StateOk(o', g', bits') && OnlyBin(g, bits, g', bits', i)
    requires k < |StackOf(g, bits, i)| && StackOf(g', bits', i) == Removed(StackOf(g, bits, i), k)
    ensures ContentOf(g', bits') == ContentOf(g, bits) - {StackOf(g, bits, i)[k]}
  {
    var p := StackOf(g, bits, i)[k];
    Recall(BinOk(o, g, bits, i));
    StackDistinct(o, g, bits, i);
    assert p in StackOf(g, bits, i);
    HeldAt(o, g, bits, p);
    forall a ensures Held(g', bits', a) <==> Held(g, bits, a) && a != p
      ensures Held(g', bits', a) ==> At(g'.bin, a) == At(g.bin, a)
    {
      HeldAt(o, g, bits, a);
      HeldAt(o', g', bits', a);
      RemovedElements(StackOf(g, bits, i), k, a);
    }
  }

  lemma StackDistinct(o: Overlay, g: Shadow, bits: BinMap, i: nat)
    requires StateOk(o, g, bits)
    ensures Distinct(StackOf(g, bits, i))
  {
    if i < NBINS && Marked(bits, i) {
      Recall(BinOk(o, g, bits, i));
      var q := StackAt(g.stack, i);
      assert forall k | 0 <= k < |q| :: q[k] == ([Header(i)] + q)[k + 1];
    }
  }

  // ---- inserting at the front ----

  function Push(g: Shadow, bits: BinMap, i: nat, p: Addr): Shadow {
    Shadow(g.stack[i := [p] + (if Marked(bits, i) then StackAt(g.stack, i) else [])], Put(g.bin, p, i))
  }

  function Marking(bits: BinMap, i: nat): BinMap
    requires i < NBINS
  {
    if Marked(bits, i) then bits else Mark(bits, i)
  }

  function LinkFirst(o: Overlay, b: Addr, f: Addr, p: Addr): Overlay {
    Overlay(Put(Put(o.fd, b, p), p, f), Put(Put(o.bk, f, p), p, b))
  }

  lemma Pushed(o: Overlay, g: Shadow, bits: BinMap, i: nat, p: Addr, f: Addr)
    requires StateOk(o, g, bits) && i < NBINS && p > 0 && !Held(g, bits, p)
    requires f == if Marked(bits, i) then At(o.fd, Header(i)) else Header(i)
    ensures StateOk(LinkFirst(o, Header(i), f, p), Push(g, bits, i, p), Marking(bits, i))
    ensures Marked(bits, i) ==> Held(g, bits, f)
  {
    var o', g', b := LinkFirst(o, Header(i), f, p), Push(g, bits, i, p), Marking(bits, i);
    Recall(BinOk(o, g, bits, i));
    if Marked(bits, i) {
      FirstOf(o, g, bits, i);
    }
    forall j: nat | j < NBINS ensures BinOk(o', g', b, j) {
      MarkClear(bits, i, j);
      if j == i {
        PushedBin(o, g, bits, i, p, f);
      } else {
        OtherBin(o, g, bits, o', g', b, j);
      }
    }
  }

  lemma FirstOf(o: Overlay, g: Shadow, bits: BinMap, i: nat)
    requires StateOk(o, g, bits) && i < NBINS && Marked(bits, i)
    ensures StackAt(g.stack, i) != [] && At(o.fd, Header(i)) == StackAt(g.stack, i)[0]
    ensures Held(g, bits, StackAt(g.stack, i)[0]) && InBin(g, i, StackAt(g.stack, i)[0])
  {
    Recall(BinOk(o, g, bits, i));
    var q := StackAt(g.stack, i);
    assert LinkedAt([Header(i)] + q, o.fd, o.bk, 0);
    MemberHeld(o, g, bits, i, 0);
  }

  lemma PushedBin(o: Overlay, g: Shadow, bits: BinMap, i: nat, p: Addr, f: Addr)
    requires StateOk(o, g, bits) && i < NBINS && p > 0 && !Held(g, bits, p)
    requires f == if Marked(bits, i) then At(o.fd, Header(i)) else Header(i)
    ensures BinOk(LinkFirst(o, Header(i), f, p), Push(g, bits, i, p), Marking(bits, i), i)
  {
    var g' := Push(g, bits, i, p);
    var q := StackAt(g'.stack, i);
    var h := Header(i);
    Recall(BinOk(o, g, bits, i));
    if Marked(bits, i) {
      var s := StackAt(g.stack, i);
      FirstOf(o, g, bits, i);
      forall k | 0 <= k < |s| ensures s[k] != p && InBin(g, i, s[k]) {
        MemberHeld(o, g, bits, i, k);
      }
      InsertRing([h] + s, 0, p, o.fd, o.bk);
      assert Inserted([h] + s, 0, p) == [h] + q;
    } else {
      var n := LinkFirst(o, h, h, p);
      assert [h] + q == [h, p];
      assert LinkedAt([h, p], n.fd, n.bk, 0) && LinkedAt([h, p], n.fd, n.bk, 1);
    }
  }

  lemma PushedStacks(g: Shadow, bits: BinMap, i: nat, p: Addr)
    requires i < NBINS
    ensures StackOf(Push(g, bits, i, p), Marking(bits, i), i) == [p] + StackOf(g, bits, i)
    ensures forall j | j != i :: StackOf(Push(g, bits, i, p), Marking(bits, i), j) == StackOf(g, bits, j)
  {
    forall j: nat | j < NBINS ensures Marked(Marking(bits, i), j) <==> j == i || Marked(bits, j) {
      MarkClear(bits, i, j);
    }
  }

  // ---- unlinking ----

  function Pull(g: Shadow, i: nat, k: nat): Shadow
    requires k < |StackAt(g.stack, i)|
  {
    g.(stack := g.stack[i := Removed(StackAt(g.stack, i), k)])
  }

  /** The neighbours that unlinking finds: both are the bin exactly if the chunk is alone. */
  lemma LinksOf(o: Overlay, g: Shadow, bits: BinMap, i: nat, k: nat)
    requires StateOk(o, g, bits) && i < NBINS && k < |StackOf(g, bits, i)|
    ensures var q, h := StackOf(g, bits, i), Header(i);
      var f, b := At(o.fd, q[k]), At(o.bk, q[k]);
      && f == (if k + 1 < |q| then q[k + 1] else h) && b == (if k > 0 then q[k - 1] else h)
      && (f != h ==> f > 0 && Held(g, bits, f) && At(o.bk, f) == q[k] && At(g.bin, f) == i)
      && (b != h ==> b > 0 && Held(g, bits, b) && At(o.fd, b) == q[k] && At(g.bin, b) == i)
      && (b == f <==> |q| == 1) && q[k] != b && q[k] != f
  {
    Recall(BinOk(o, g, bits, i));
    var q, h := StackOf(g, bits, i), Header(i);
    var r := [h] + q;
    assert r[k + 1] == q[k];
    assert LinkedAt(r, o.fd, o.bk, k + 1);
    MemberHeld(o, g, bits, i, k);
    if k + 1 < |q| {
      MemberHeld(o, g, bits, i, k + 1);
      assert r[k + 2] == q[k + 1];
      assert LinkedAt(r, o.fd, o.bk, k + 2);
    }
    if k > 0 {
      MemberHeld(o, g, bits, i, k - 1);
      assert r[k] == q[k - 1];
      assert LinkedAt(r, o.fd, o.bk, k);
    }
  }

  lemma PulledLast(o: Overlay, g: Shadow, bits: BinMap, i: nat)
    requires StateOk(o, g, bits) && i < NBINS
    ensures StateOk(o, g, Clear(bits, i))
  {
    forall j: nat | j < NBINS ensures BinOk(o, g, Clear(bits, i), j) {
      MarkClear(bits, i, j);
      if j != i {
        OtherBin(o, g, bits, o, g, Clear(bits, i), j);
      }
    }
  }

  lemma Pulled(o: Overlay, g: Shadow, bits: BinMap, i: nat, k: nat)
    requires StateOk(o, g, bits) && i < NBINS && k < |StackOf(g, bits, i)| && |StackOf(g, bits, i)| > 1
    ensures var p := StackOf(g, bits, i)[k];
      var f, b := At(o.fd, p), At(o.bk, p);
      StateOk(Overlay(Put(o.fd, b, f), Put(o.bk, f, b)), Pull(g, i, k), bits)
  {
    var p := StackOf(g, bits, i)[k];
    var f, b := At(o.fd, p), At(o.bk, p);
    var o', g' := Overlay(Put(o.fd, b, f), Put(o.bk, f, b)), Pull(g, i, k);
    LinksOf(o, g, bits, i, k);
    forall j: nat | j < NBINS ensures BinOk(o', g', bits, j) {
      if j == i {
        PulledBin(o, g, bits, i, k);
      } else {
        OtherBin(o, g, bits, o', g', bits, j);
      }
    }
  }

  lemma PulledBin(o: Overlay, g: Shadow, bits: BinMap, i: nat, k: nat)
    requires StateOk(o, g, bits) && i < NBINS && k < |StackOf(g, bits, i)| && |StackOf(g, bits, i)| > 1
    ensures var p := StackOf(g, bits, i)[k];
      var f, b := At(o.fd, p), At(o.bk, p);
      BinOk(Overlay(Put(o.fd, b, f), Put(o.bk, f, b)), Pull(g, i, k), bits, i)
  {
    var q := StackOf(g, bits, i);
    Recall(BinOk(o, g, bits, i));
    PulledRing(Header(i), q, k, o);
    hide IsRing;
    forall j | 0 <= j < |q| - 1 ensures InBin(g, i, Removed(q, k)[j]) {
      RemovedAt(q, k, j);
      Recall(InBin(g, i, q[if j < k then j else j + 1]));
    }
  }

  lemma RemovedTail(h: Addr, q: seq<Addr>, k: nat)
    requires k < |q|
    ensures Removed([h] + q, k + 1) == [h] + Removed(q, k)
  {
  }

  lemma PulledRing(h: Addr, q: seq<Addr>, k: nat, o: Overlay)
    requires IsRing([h] + q, o.fd, o.bk) && k < |q| && |q| > 1
    ensures var f, b := At(o.fd, q[k]), At(o.bk, q[k]); IsRing([h] + Removed(q, k), Put(o.fd, b, f), Put(o.bk, f, b))
  {
    var r := [h] + q;
    assert r[k + 1] == q[k];
    assert LinkedAt(r, o.fd, o.bk, k + 1);
    hide IsRing;
    RemoveRing(r, k + 1, o.fd, o.bk);
    RemovedTail(h, q, k);
  }

  class SmallBins {
    var smallmap: BinMap
    var mem: Overlay
    ghost var g: Shadow

    /** The chunks of bin i, in the order in which malloc takes them. */
    ghost function Stack(i: int): seq<Addr>
      reads this
    {
      StackOf(g, smallmap, i)
    }

    ghost predicate Holds(p: Addr)
      reads this
    {
      Held(g, smallmap, p)
    }

    ghost predicate Valid()
      reads this
    {
      StateOk(mem, g, smallmap)
    }

    ghost function Content(): imap<Addr, int>
      reads this
    {
      ContentOf(g, smallmap)
    }

    ghost predicate Backed(hd: Heads, least: Addr)
      reads this
    {
      0 < least && forall p {:trigger Holds(p)} | Holds(p) :: HeadAt(hd, p).size == 8 * At(g.bin, p) && least <= p
    }

    ghost function Fields(p: Addr): (int, int)
      reads this
    {
      (At(mem.fd, p), At(mem.bk, p))
    }

    constructor (mem: Overlay)
      ensures Valid() && smallmap == 0
      ensures forall i :: Stack(i) == []
      ensures Content() == imap[]
    {
      this.smallmap, this.mem, this.g := 0, mem, Shadow(imap[], imap[]);
      new;
      EmptyMap(0);
      assert forall i: nat | i < NBINS :: BinOk(mem, g, 0, i);
    }

    /** insert_small_chunk */
    method Insert(hd: Heads, least: Addr, p: Addr, s: nat)
      requires Valid() && Backed(hd, least) && SmallSize(s) && least <= p && !Holds(p)
      modifies this
      ensures Valid() && Stack(SmallIndex(s)) == [p] + old(Stack(SmallIndex(s)))
      ensures Content() == old(Content())[p := s]
      ensures forall i | i != SmallIndex(s) :: Stack(i) == old(Stack(i))
      ensures forall a | a > 0 && a != p && !old(Holds(a)) :: Fields(a) == old(Fields(a))
    {
      hide StateOk, ContentOf;
      var i := SmallIndex(s);
      var b := Header(i);
      var f := b;
      if !Marked(smallmap, i) {
        Pushed(mem, g, smallmap, i, p, f);
        PushedStacks(g, smallmap, i, p);
        g := Push(g, smallmap, i, p);
        smallmap := Mark(smallmap, i);
      } else {
        Pushed(mem, g, smallmap, i, p, At(mem.fd, b));
        PushedStacks(g, smallmap, i, p);
        Recall(Holds(At(mem.fd, b)));
        if least <= At(mem.fd, b) {                 // RTCHECK(ok_address(M, B->fd))
          f := At(mem.fd, b);
        } else {
          assert false;
        }
        g := Push(g, smallmap, i, p);
      }
      mem := LinkFirst(mem, b, f, p);
      ContentPushed(old(mem), old(g), old(smallmap), mem, g, smallmap, i, p);
    }

    /** unlink_small_chunk.  k says how many chunks of the bin are before p. */
    method Unlink(hd: Heads, least: Addr, p: Addr, s: nat, ghost k: nat)
      requires Valid() && Backed(hd, least) && SmallSize(s)
      requires k < |Stack(SmallIndex(s))| && Stack(SmallIndex(s))[k] == p
      modifies this
      ensures Valid() && Stack(SmallIndex(s)) == Removed(old(Stack(SmallIndex(s))), k)
      ensures Content() == old(Content()) - {p}
      ensures forall i | i != SmallIndex(s) :: Stack(i) == old(Stack(i))
      ensures forall a | a > 0 && !old(Holds(a)) :: Fields(a) == old(Fields(a))
    {
      var f, b, i := At(mem.fd, p), At(mem.bk, p), SmallIndex(s);
      LinksOf(mem, g, smallmap, i, k);
      MemberHeld(mem, g, smallmap, i, k);
      Recall(Holds(p));
      Recall(Holds(f));
      Recall(Holds(b));
      assert p != b;
      assert p != f;
      assert HeadAt(hd, p).size == 8 * i;
      if f == Header(i) || (least <= f && At(mem.bk, f) == p) {             // RTCHECK
        if b == f {
          ClearLone(i, k);
          smallmap := Clear(smallmap, i);
        } else if b == Header(i) || (least <= b && At(mem.fd, b) == p) {    // RTCHECK
          UnlinkMany(i, k, p, f, b);
        } else {
          assert false;
        }
      } else {
        assert false;
      }
      forall j | j != i ensures StackOf(g, smallmap, j) == old(StackOf(g, smallmap, j)) {
        Recall(Stack(j) == []);
      }
      ContentPulled(old(mem), old(g), old(smallmap), mem, g, smallmap, i, k);
    }

    lemma ClearLone(i: nat, k: nat)
      requires Valid() && i < NBINS && k < |Stack(i)| && |Stack(i)| == 1
      ensures StateOk(mem, g, Clear(smallmap, i))
      ensures StackOf(g, Clear(smallmap, i), i) == Removed(Stack(i), k)
      ensures forall j | j != i :: StackOf(g, Clear(smallmap, i), j) == Stack(j)
    {
      PulledLast(mem, g, smallmap, i);
      forall j: nat | j < NBINS ensures Marked(Clear(smallmap, i), j) <==> i != j && Marked(smallmap, j) {
        MarkClear(smallmap, i, j);
      }
    }

    lemma FirstLinks(hd: Heads, least: Addr, i: nat)
      requires Valid() && Backed(hd, least) && i < NBINS && Marked(smallmap, i)
      ensures Stack(i) != []
      ensures var b := Header(i);
        var p := At(mem.fd, b);
        var f := At(mem.fd, p);
        && p == Stack(i)[0] && At(mem.bk, p) == b && p != b && p != f && HeadAt(hd, p).size == 8 * i
        && Stack(i) == [p] + Removed(Stack(i), 0)
        && if b == f then |Stack(i)| == 1 else |Stack(i)| > 1 && least <= f && At(mem.bk, f) == p
    {
      FirstOf(mem, g, smallmap, i);
      LinksOf(mem, g, smallmap, i, 0);
      Recall(Holds(Stack(i)[0]));
      Recall(Holds(At(mem.fd, Stack(i)[0])));
    }

    /** unlink_first_small_chunk(M, B, P, I) */
    method UnlinkFirst(hd: Heads, least: Addr, i: nat) returns (p: Addr)
      requires Valid() && Backed(hd, least) && i < NBINS && Marked(smallmap, i)
      modifies this
      ensures Valid() && old(Stack(i)) == [p] + Stack(i)
      ensures p in old(Content()) && old(Content())[p] == 8 * i && Content() == old(Content()) - {p}
      ensures forall j | j != i :: Stack(j) == old(Stack(j))
      ensures forall a | a > 0 && !old(Holds(a)) :: Fields(a) == old(Fields(a))
    {
      var b := Header(i);
      FirstLinks(hd, least, i);
      p := At(mem.fd, b);
      var f := At(mem.fd, p);
      assert p != b;
      assert p != f;
      assert HeadAt(hd, p).size == 8 * i;
      if b == f {
        ClearLone(i, 0);
        smallmap := Clear(smallmap, i);
      } else if least <= f && At(mem.bk, f) == p {                          // RTCHECK
        UnlinkMany(i, 0, p, f, b);
      } else {
        assert false;
      }
      assert p == old(Stack(i))[0];
      HeldAt(old(mem), old(g), old(smallmap), p);
      forall j | j != i ensures StackOf(g, smallmap, j) == old(StackOf(g, smallmap, j)) {
        Recall(Stack(j) == []);
      }
      ContentPulled(old(mem), old(g), old(smallmap), mem, g, smallmap, i, 0);
    }

    method UnlinkMany(i: nat, ghost k: nat, p: Addr, f: Addr, b: Addr)
      requires Valid() && i < NBINS && k < |Stack(i)| && |Stack(i)| > 1 && p == Stack(i)[k]
      requires f == At(mem.fd, p) && b == At(mem.bk, p)
      modifies this`mem, this`g
      ensures Valid() && Stack(i) == Removed(old(Stack(i)), k)
      ensures forall j | j != i :: Stack(j) == old(Stack(j))
      ensures forall a | a > 0 && !old(Holds(a)) :: Fields(a) == old(Fields(a))
    {
      Pulled(mem, g, smallmap, i, k);
      LinksOf(mem, g, smallmap, i, k);
      mem := Overlay(Put(mem.fd, b, f), Put(mem.bk, f, b));
      g := Pull(g, i, k);
    }
  
    lemma RingOf(i: nat)
      requires Valid() && i < NBINS && Marked(smallmap, i)
      ensures IsRing([Header(i)] + Stack(i), mem.fd, mem.bk)
    {
      Recall(BinOk(mem, g, smallmap, i));
    }

    /** bin_find for a small chunk: walk the ring of bin i. */
    method Find(i: nat, x: Addr) returns (found: bool)
      requires Valid() && i < NBINS && x > 0
      ensures found <==> x in Stack(i)
    {
      if !Marked(smallmap, i) {
        return false;
      }
      ghost var q := Stack(i);
      ghost var r := [Header(i)] + q;
      RingOf(i);
      hide StateOk, BinOk, StackOf;
      ghost var k: nat := 1;
      Recall(LinkedAt(r, mem.fd, mem.bk, 0));
      var p := At(mem.fd, Header(i));
      while p != Header(i)
        invariant 1 <= k <= |r| && p == if k < |r| then r[k] else Header(i)
        invariant forall j | 0 <= j < k :: r[j] != x
        decreases |r| - k
      {
        if p == x {
          assert r[k] == q[k - 1];
          return true;
        }
        Recall(LinkedAt(r, mem.fd, mem.bk, k));
        p := At(mem.fd, p);
        k := k + 1;
      }
      found := false;
      forall j | 0 <= j < |q| ensures q[j] != x {
        assert q[j] == r[j + 1];
      }
    }
  }
}
