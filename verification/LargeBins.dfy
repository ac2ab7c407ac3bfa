/** The treebins of malloc_state, with the fields that large free chunks use. */
module LargeBins {
  import opened Config
  import opened Prefixes
  import opened BinMaps
  import opened TreeIndex
  import opened Rings
  import opened Tries
  import opened TrieSearch
  import opened LargeQueues
  import opened LargeStates

  /** The link fields of malloc_tree_chunk, over all of memory. */
  datatype Overlay = Overlay(fd: Words, bk: Words, child0: Words, child1: Words, parent: Words, index: Words)

  /** What the links stand for. */
  datatype Shadow = Shadow(sizes: set<int>, node: Words, size: Words, cell: Cells, ring: RingMap)

  class LargeBins {
    var treemap: BinMap
    var root: Words            // treebins[]
    var mem: Overlay
    ghost var g: Shadow

    ghost function V(): Trie
      reads this
    {
      Trie(g.sizes, g.node, g.size, g.cell, root, mem.child0, mem.child1, mem.parent)
    }

    ghost function M(): Lists
      reads this
    {
      Lists(g.ring, mem.fd, mem.bk, mem.index)
    }

    /** All free chunks of size s, in the order in which they will be handed out. */
    ghost function Queue(s: int): seq<Addr>
      reads this
    {
      QueueOf(V(), M(), s)
    }

    ghost predicate Holds(p: Addr)
      reads this
    {
      Held(V(), M(), p)
    }

    ghost predicate Valid()
      reads this
    {
      StateOk(V(), M(), treemap)
    }

    ghost function Content(): imap<Addr, int>
      reads this
    {
      ContentOf(V(), M())
    }

    /** The head words in memory carry the sizes under which the chunks are binned, and no chunk is
        below the least address obtained from the system. */
    ghost predicate Backed(hd: Heads, least: Addr)
      reads this
    {
      0 < least && forall p {:trigger Holds(p)} | Holds(p) :: HeadAt(hd, p).size == At(g.size, p) && least <= p
    }

    ghost function Fields(p: Addr): (int, int, int, int, int, int)
      reads this
    {
      FieldsOf(V(), M(), p)
    }

    constructor (mem: Overlay)
      ensures Valid() && treemap == 0
      ensures forall s :: Queue(s) == []
      ensures Content() == imap[]
    {
      this.treemap, this.root, this.mem := 0, imap[], mem;
      this.g := Shadow({}, imap[], imap[], imap[], imap[]);
      new;
      EmptyMap(0);
      forall i: nat | i < NBINS ensures BitOk(V(), 0, i) {
      }
    }

    /** chunksize(T) for a node of the tries. */
    lemma NodeBacked(hd: Heads, least: Addr, p: Addr)
      requires Valid() && Backed(hd, least) && IsNode(V(), p)
      ensures Holds(p) && HeadAt(hd, p).size == At(g.size, p) && least <= p && LargeSize(At(g.size, p))
    {
      NodeHeld(V(), M(), treemap, p);
      Recall(Holds(p));
    }

    /** The descent for size s has reached t, and k holds the bits of s that are still open. */
    ghost predicate Searching(hd: Heads, s: nat, t: Addr, k: nat)
      reads this
    {
      && LargeSize(s) && IsNode(V(), t) && Descending(V(), s, At(g.size, t)) && HeadAt(hd, t).size == At(g.size, t)
      && 0 <= Rem(CellOf(V(), t)) <= WORD_BITS && k == WordShl(s, WORD_BITS - Rem(CellOf(V(), t)))
    }

    lemma SearchStart(hd: Heads, least: Addr, s: nat)
      requires Valid() && Backed(hd, least) && LargeSize(s) && At(root, Index(s)) != NULL
      ensures Searching(hd, s, At(root, Index(s)), WordShl(s, LeftShift(Index(s))))
    {
      DescentStart(V(), s);
      NodeBacked(hd, least, At(root, Index(s)));
    }

    lemma SearchStep(hd: Heads, least: Addr, s: nat, t: Addr, k: nat)
      requires Valid() && Backed(hd, least) && Searching(hd, s, t, k) && At(g.size, t) != s
      ensures At(g.size, t) >= 0 && Rem(CellOf(V(), t)) > 0 && SignBit(k) == Bit(s, Rem(CellOf(V(), t)) - 1)
      ensures var c := Child(V(), t, SignBit(k));
        c != NULL ==> Searching(hd, s, c, 2 * k % MOD) && Rem(CellOf(V(), c)) == Rem(CellOf(V(), t)) - 1
    {
      NodeBacked(hd, least, t);
      DescentStep(V(), s, At(g.size, t));
      SignBitOfSize(s, Rem(CellOf(V(), t)));
      var c := Child(V(), t, SignBit(k));
      if c != NULL {
        NodeBacked(hd, least, c);
      }
    }

    /** The search loop of insert_large_chunk: the node of size s, or the free slot b where it belongs. */
    method FindPlace(hd: Heads, least: Addr, s: nat) returns (t: Addr, b: nat)
      requires Valid() && Backed(hd, least) && LargeSize(s) && At(root, Index(s)) != NULL
      ensures IsNode(V(), t) && Descending(V(), s, At(g.size, t))
      ensures At(g.size, t) != s ==>
        Rem(CellOf(V(), t)) > 0 && b == Bit(s, Rem(CellOf(V(), t)) - 1) && Child(V(), t, b) == NULL
    {
      t, b := At(root, Index(s)), 0;
      var k: nat := WordShl(s, LeftShift(Index(s)));
      SearchStart(hd, least, s);
      while HeadAt(hd, t).size != s
        invariant Searching(hd, s, t, k)
        decreases Rem(CellOf(V(), t))
      {
        SearchStep(hd, least, s, t, k);
        b := SignBit(k);
        k := 2 * k % MOD;
        var c := if b == 0 then At(mem.child0, t) else At(mem.child1, t);
        if c == NULL {
          return;
        }
        t := c;
      }
    }

    /** insert_large_chunk */
    method InsertLarge(hd: Heads, least: Addr, x: Addr, s: nat)
      requires Valid() && Backed(hd, least) && LargeSize(s) && !Holds(x) && least <= x
      modifies this
      ensures Valid() && Queue(s) == old(Queue(s)) + [x]
      ensures forall u | u != s :: Queue(u) == old(Queue(u))
      ensures Content() == old(Content())[x := s]
      ensures forall p | p != x && !old(Holds(p)) :: Fields(p) == old(Fields(p))
    {
      var i := Index(s);
      Recall(BitOk(V(), treemap, i));
      if !Marked(treemap, i) {
        LinkRoot(x, s, i);
      } else {
        var t, b := FindPlace(hd, least, s);
        NodeBacked(hd, least, t);
        if HeadAt(hd, t).size != s {
          if least <= t + (4 + b) * W {        // RTCHECK(ok_address(M, C))
            LinkLeaf(x, s, t, b);
          } else {
            assert false;
          }
        } else {
          var f := At(mem.fd, t);
          RingEnds(V(), M(), treemap, s);
          Recall(Holds(f));
          if least <= t && least <= f {        // RTCHECK(ok_address(M, T) && ok_address(M, F))
            LinkBehind(x, s, t, f);
          } else {
            assert false;
          }
        }
      }
      ContentInserted(old(V()), old(M()), old(treemap), V(), M(), treemap, x, s);
    }

    method LinkRoot(x: Addr, s: nat, i: nat)
      requires CanInsert(V(), M(), treemap, x, s) && i == Index(s) && At(root, i) == NULL
      modifies this
      ensures Valid() && Inserts(old(V()), old(M()), V(), M(), x, s)
    {
      RootInserted(V(), M(), treemap, x, s);
      RootEffect(V(), M(), treemap, x, s);
      treemap := Mark(treemap, i);
      root := Put(root, i, x);
      mem := mem.(
        index := Put(mem.index, x, i), child0 := Put(mem.child0, x, NULL), child1 := Put(mem.child1, x, NULL),
        parent := Put(mem.parent, x, Header(i)), fd := Put(mem.fd, x, x), bk := Put(mem.bk, x, x));
      g := Shadow(g.sizes + {s}, Put(g.node, s, x), Put(g.size, x, s), PutCell(g.cell, s, Top(i)), g.ring[s := [x]]);
      assert V() == old(AddRoot(V(), x, s, i));
      assert M() == old(NewQueue(M(), x, s));
    }

    method LinkLeaf(x: Addr, s: nat, t: Addr, b: nat)
      requires CanInsert(V(), M(), treemap, x, s) && IsNode(V(), t)
      requires Descending(V(), s, At(g.size, t)) && At(g.size, t) != s
      requires Rem(CellOf(V(), t)) > 0 && b == Bit(s, Rem(CellOf(V(), t)) - 1) && Child(V(), t, b) == NULL
      modifies this`mem, this`g
      ensures Valid() && Inserts(old(V()), old(M()), V(), M(), x, s)
    {
      ghost var u := At(g.size, t);
      Recall(Fits(V(), u));
      LeafInserted(V(), M(), treemap, x, s, u);
      NotNode(V(), M(), treemap, x, s);
      LeafEffect(V(), M(), treemap, x, s, u, b);
      mem := mem.(
        index := Put(mem.index, x, Index(s)), child0 := Put(mem.child0, x, NULL), child1 := Put(mem.child1, x, NULL),
        parent := Put(mem.parent, x, t), fd := Put(mem.fd, x, x), bk := Put(mem.bk, x, x));
      mem := if b == 0 then mem.(child0 := Put(mem.child0, t, x)) else mem.(child1 := Put(mem.child1, t, x));
      g := Shadow(g.sizes + {s}, Put(g.node, s, x), Put(g.size, x, s),
                  PutCell(g.cell, s, Down(CellAt(g.cell, u), b)), g.ring[s := [x]]);
      assert V() == old(AddLeaf(V(), x, s, u, b));
      assert M() == old(NewQueue(M(), x, s));
    }

    method LinkBehind(x: Addr, s: nat, t: Addr, f: Addr)
      requires CanInsert(V(), M(), treemap, x, s) && s in g.sizes && t == At(g.node, s) && f == At(mem.fd, t)
      modifies this`mem, this`g
      ensures Valid() && Inserts(old(V()), old(M()), V(), M(), x, s)
    {
      ChainInserted(V(), M(), treemap, x, s);
      ChainEffect(V(), M(), treemap, x, s);
      mem := mem.(
        index := Put(mem.index, x, Index(s)), child0 := Put(mem.child0, x, NULL), child1 := Put(mem.child1, x, NULL),
        fd := Put(Put(mem.fd, t, x), x, f), bk := Put(Put(mem.bk, f, x), x, t), parent := Put(mem.parent, x, NULL));
      g := g.(size := Put(g.size, x, s), ring := g.ring[s := QueueAt(g.ring, s) + [x]]);
      assert V() == old(Chain(V(), x, s));
      assert M() == old(Enqueue(M(), x, s, t));
    }

    /** unlink_large_chunk.  k says how many chunks of the same size have waited longer than x. */
    method UnlinkLarge(hd: Heads, least: Addr, x: Addr, ghost k: nat)
      requires Valid() && Backed(hd, least)
      requires k < |Queue(At(g.size, x))| && Queue(At(g.size, x))[k] == x
      modifies this
      ensures 0 <= old(At(g.size, x)) && Valid() && Unlinks(old(V()), old(M()), V(), M(), old(At(g.size, x)), k)
      ensures Content() == old(Content()) - {x}
    {
      ghost var s := At(g.size, x);
      Recall(Fits(V(), s));
      MemberHeld(V(), M(), treemap, s, k);
      RingOfChunk(V(), M(), treemap, s, k);
      var xp := At(mem.parent, x);
      ParentNull(x, s, k);
      NodesAbove(hd, least);
      if At(mem.bk, x) != x {
        var f, r := At(mem.fd, x), At(mem.bk, x);
        Recall(Holds(f));
        Recall(Holds(r));
        if least <= f && At(mem.bk, f) == x && At(mem.fd, r) == x {        // RTCHECK
          UnlinkRing(least, x, xp, f, r, s, k);
        } else {
          assert false;
        }
      } else {
        UnlinkLone(least, x, xp, s);
      }
      ContentUnlinked(old(V()), old(M()), old(treemap), V(), M(), treemap, s, k);
    }

    lemma NodesAbove(hd: Heads, least: Addr)
      requires Valid() && Backed(hd, least)
      ensures forall p {:trigger IsNode(V(), p)} | IsNode(V(), p) :: least <= p
    {
      forall p | IsNode(V(), p) ensures least <= p {
        NodeBacked(hd, least, p);
      }
    }

    lemma ParentNull(x: Addr, s: nat, k: nat)
      requires Valid() && s in g.sizes && k < |QueueAt(g.ring, s)| && QueueAt(g.ring, s)[k] == x
      ensures At(mem.parent, x) == NULL <==> k > 0
    {
      MemberHeld(V(), M(), treemap, s, k);
      Recall(PlaceOk(V(), s));
      Recall(ParentOk(V(), s));
    }

    /** How the code recognises the slot that points to a node. */
    lemma SlotTest(x: Addr, s: nat)
      requires Sorted(V()) && s in g.sizes && At(g.node, s) == x
      ensures var c, xp := CellAt(g.cell, s), At(mem.parent, x);
        && (c.Top? <==> At(root, Index(s)) == x) && (c.Top? ==> c.bin == Index(s))
        && (c.Down? ==> IsNode(V(), xp) && xp != x && (c.side == 0 <==> At(mem.child0, xp) == x))
      ensures At(mem.child0, x) != x && At(mem.child1, x) != x
    {
      AtNode(V(), s);
      Recall(Fits(V(), s));
      Recall(RootOk(V(), Index(s)));
      Recall(ChildOk(V(), At(g.size, At(mem.parent, x)), 0));
    }

    /** Step 3 of unlinking: the parent and the children of x get r instead. */
    method Relink(least: Addr, x: Addr, xp: Addr, r: Addr, ghost s: nat, ghost u: nat)
      requires Sorted(V()) && s in g.sizes && At(g.node, s) == x && At(mem.parent, x) == xp
      requires At(mem.index, x) == Index(s)
      requires if r == NULL then IsLeaf(V(), s) else CanReplace(V(), s, r, u) && least <= r
      requires forall p {:trigger IsNode(V(), p)} | IsNode(V(), p) :: least <= p
      modifies this`root, this`mem, this`treemap
      ensures old(mem).(child0 := mem.child0, child1 := mem.child1, parent := mem.parent) == mem
      ensures var w := old(if r == NULL then Detach(V(), s) else Replace(V(), s, r, u));
        root == w.root && mem.child0 == w.child0 && mem.child1 == w.child1 && mem.parent == w.parent
      ensures treemap == old(if r == NULL && CellAt(g.cell, s).Top? then Clear(treemap, Index(s)) else treemap)
    {
      ghost var v := V();
      hide Good, SetSlot, IsNode, CellAt;
      SetSlotKeeps(v, s, r);
      ChildrenOfNode(v, s, r);
      Recall(IsNode(v, At(v.child0, x)));
      Recall(IsNode(v, At(v.child1, x)));
      Reslot(least, x, xp, r, s);
      if r != NULL {
        if least <= r {                                      // RTCHECK(ok_address(M, R))
          AdoptChildren(least, x, xp, r);
        } else {
          assert false;
        }
      }
    }

    method Reslot(least: Addr, x: Addr, xp: Addr, r: Addr, ghost s: nat)
      requires Sorted(V()) && s in g.sizes && At(g.node, s) == x && At(mem.parent, x) == xp
      requires At(mem.index, x) == Index(s)
      requires forall p {:trigger IsNode(V(), p)} | IsNode(V(), p) :: least <= p
      modifies this`root, this`mem, this`treemap
      ensures var w := old(SetSlot(V(), s, r));
        root == w.root && mem == old(mem).(child0 := w.child0, child1 := w.child1)
      ensures treemap == old(if r == NULL && CellAt(g.cell, s).Top? then Clear(treemap, Index(s)) else treemap)
    {
      SlotTest(x, s);
      Recall(IsNode(V(), xp));
      var i := At(mem.index, x);
      if At(root, i) == x {
        root := Put(root, i, r);
        if r == NULL {
          treemap := Clear(treemap, i);
        }
      } else if least <= xp {                                // RTCHECK(ok_address(M, XP))
        if At(mem.child0, xp) == x {
          mem := mem.(child0 := Put(mem.child0, xp, r));
        } else {
          mem := mem.(child1 := Put(mem.child1, xp, r));
        }
      } else {
        assert false;
      }
    }

    /** Setting the slot of a node does not change the node's own children, which are nodes. */
    lemma ChildrenOfNode(v: Trie, s: int, r: Addr)
      requires Good(v) && s in v.sizes
      ensures var x := At(v.node, s);
        && At(SetSlot(v, s, r).child0, x) == At(v.child0, x) && At(SetSlot(v, s, r).child1, x) == At(v.child1, x)
        && (At(v.child0, x) != NULL ==> IsNode(v, At(v.child0, x)))
        && (At(v.child1, x) != NULL ==> IsNode(v, At(v.child1, x))) && IsNode(v, x)
    {
      SlotOfChild(v, s, r, s);
      AtNode(v, s);
    }

    method AdoptChildren(least: Addr, x: Addr, xp: Addr, r: Addr)
      requires x != r
      requires At(mem.child0, x) == NULL || least <= At(mem.child0, x)
      requires At(mem.child1, x) == NULL || least <= At(mem.child1, x)
      modifies this`mem
      ensures var c0, c1 := old(At(mem.child0, x)), old(At(mem.child1, x));
        mem == old(mem).(
          child0 := if c0 == NULL then old(mem.child0) else Put(old(mem.child0), r, c0),
          child1 := if c1 == NULL then old(mem.child1) else Put(old(mem.child1), r, c1),
          parent := Adopt(Adopt(Put(old(mem.parent), r, xp), c0, r), c1, r))
    {
      mem := mem.(parent := Put(mem.parent, r, xp));
      var c0 := At(mem.child0, x);
      if c0 != NULL {
        if least <= c0 {                                     // RTCHECK(ok_address(M, C0))
          mem := mem.(child0 := Put(mem.child0, r, c0), parent := Put(mem.parent, c0, r));
        } else {
          assert false;
        }
      }
      var c1 := At(mem.child1, x);
      if c1 != NULL {
        if least <= c1 {                                     // RTCHECK(ok_address(M, C1))
          mem := mem.(child1 := Put(mem.child1, r, c1), parent := Put(mem.parent, c1, r));
        } else {
          assert false;
        }
      }
    }

    /** The chunk has others of its size: step 1 and, for the trie node, step 3 of unlinking. */
    method UnlinkRing(least: Addr, x: Addr, xp: Addr, f: Addr, r: Addr, ghost s: nat, ghost k: nat)
      requires CanUnlink(V(), M(), treemap, s, k) && |QueueAt(g.ring, s)| > 1 && QueueAt(g.ring, s)[k] == x
      requires f == At(mem.fd, x) && r == At(mem.bk, x) && xp == At(mem.parent, x) && least <= r
      requires forall p {:trigger IsNode(V(), p)} | IsNode(V(), p) :: least <= p
      modifies this
      ensures Valid() && Unlinks(old(V()), old(M()), V(), M(), s, k)
    {
      ghost var v, m, q := V(), M(), QueueAt(g.ring, s);
      ParentNull(x, s, k);
      RingOfChunk(v, m, treemap, s, k);
      MemberHeld(v, m, treemap, s, k);
      mem := mem.(bk := Put(mem.bk, f, r), fd := Put(mem.fd, r, f));
      if xp == NULL {
        ChainUnlinked(v, m, treemap, s, k);
        DequeueEffect(v, m, treemap, s, k, v);
        g := g.(ring := g.ring[s := Removed(q, k)]);
        assert V() == v;
        assert M() == Dequeue(m, x, s, k);
      } else {
        HeadUnlinked(v, m, treemap, s);
        HeadFrame(v, m, treemap, s);
        ghost var w := Replace(v, s, r, s);
        DequeueEffect(v, m, treemap, s, 0, w);
        Recall(QueueOk(v, m, s));
        assert V() == v;
        Relink(least, x, xp, r, s, s);
        g := Shadow(w.sizes, w.node, w.size, w.cell, g.ring[s := Removed(q, 0)]);
        assert V() == w;
        assert M() == Dequeue(m, x, s, 0);
      }
    }

    /** The leaf that will replace x: keep to the right, and to the left where there is no right.
        Also the slot rp->child[rb] that holds it. */
    method FindLeaf(x: Addr) returns (r: Addr, rp: Addr, rb: nat)
      requires Sorted(V()) && IsNode(V(), x)
      ensures r == NULL <==> IsLeaf(V(), At(g.size, x))
      ensures r != NULL ==>
        && IsNode(V(), r) && At(g.size, r) != At(g.size, x) && IsLeaf(V(), At(g.size, r))
        && Under(CellOf(V(), x), CellOf(V(), r)) && CellOf(V(), r).Down?
        && rp == At(mem.parent, r) && rb == CellOf(V(), r).side && IsNode(V(), rp)
    {
      AtNode(V(), At(g.size, x));
      Recall(Fits(V(), At(g.size, x)));
      r, rp, rb := At(mem.child1, x), x, 1;
      if r == NULL {
        r, rb := At(mem.child0, x), 0;
      }
      if r != NULL {
        LeafStep(x, x, rb);
        while At(mem.child1, r) != NULL || At(mem.child0, r) != NULL
          invariant IsNode(V(), r) && IsNode(V(), rp) && rp == At(mem.parent, r)
          invariant CellOf(V(), r).Down? && rb == CellOf(V(), r).side
          invariant Under(CellOf(V(), x), CellOf(V(), r)) && CellOf(V(), r) != CellOf(V(), x)
          invariant 0 <= Rem(CellOf(V(), r))
          decreases Rem(CellOf(V(), r))
        {
          LeafStep(x, r, if At(mem.child1, r) != NULL then 1 else 0);
          if At(mem.child1, r) != NULL {
            r, rp, rb := At(mem.child1, r), r, 1;
          } else {
            r, rp, rb := At(mem.child0, r), r, 0;
          }
        }
      }
    }

    lemma LeafStep(x: Addr, r: Addr, b: int)
      requires Sorted(V()) && IsNode(V(), x) && IsNode(V(), r) && 0 <= b < 2 && Child(V(), r, b) != NULL
      requires Under(CellOf(V(), x), CellOf(V(), r))
      ensures var c := Child(V(), r, b);
        && IsNode(V(), c) && At(mem.parent, c) == r && CellOf(V(), c) == Down(CellOf(V(), r), b)
        && 0 <= Rem(CellOf(V(), c)) < Rem(CellOf(V(), r))
        && Under(CellOf(V(), x), CellOf(V(), c)) && CellOf(V(), c) != CellOf(V(), x)
    {
      var c := Child(V(), r, b);
      Recall(ChildOk(V(), At(g.size, r), b));
      Recall(Fits(V(), At(g.size, c)));
      OnPathRem(At(g.size, c), CellOf(V(), c));
      DeeperDiffers(CellOf(V(), x), CellOf(V(), r), b);
    }

    /** The chunk is the only one of its size: a leaf of the tries takes its place, if there is one below. */
    method UnlinkLone(least: Addr, x: Addr, xp: Addr, ghost s: nat)
      requires CanUnlink(V(), M(), treemap, s, 0) && |QueueAt(g.ring, s)| == 1 && QueueAt(g.ring, s)[0] == x
      requires xp == At(mem.parent, x) && xp != NULL && At(mem.index, x) == Index(s)
      requires least > 0 && forall p {:trigger IsNode(V(), p)} | IsNode(V(), p) :: least <= p
      modifies this
      ensures Valid() && Unlinks(old(V()), old(M()), V(), M(), s, 0)
    {
      ghost var v, m := V(), M();
      MemberHeld(v, m, treemap, s, 0);
      Recall(PlaceOk(v, s));
      var r, rp, rb := FindLeaf(x);
      if r == NULL {
        LeafUnlinked(v, m, treemap, s);
        LeafFrame(v, m, treemap, s);
        SetSlotKeeps(v, s, NULL);
        LoneEffect(v, m, treemap, s, Detach(v, s));
        Recall(Fits(v, s));
        Relink(least, x, xp, NULL, s, s);
        g := g.(sizes := g.sizes - {s});
        assert V() == Detach(v, s);
        assert M() == m;
      } else {
        UnlinkInner(least, x, xp, r, rp, rb, s);
      }
    }

    lemma SlotAbove(least: Addr, p: Addr, b: nat)
      requires least <= p
      ensures least <= p + (4 + b) * W
    {
    }

    method UnlinkInner(least: Addr, x: Addr, xp: Addr, r: Addr, rp: Addr, rb: nat, ghost s: nat)
      requires CanUnlink(V(), M(), treemap, s, 0) && |QueueAt(g.ring, s)| == 1 && QueueAt(g.ring, s)[0] == x
      requires xp == At(mem.parent, x) && xp != NULL && At(mem.index, x) == Index(s)
      requires least > 0 && forall p {:trigger IsNode(V(), p)} | IsNode(V(), p) :: least <= p
      requires IsNode(V(), r) && At(g.size, r) != s && IsLeaf(V(), At(g.size, r))
      requires Under(CellAt(g.cell, s), CellOf(V(), r)) && CellOf(V(), r).Down?
      requires rp == At(mem.parent, r) && rb == CellOf(V(), r).side && IsNode(V(), rp)
      modifies this
      ensures Valid() && Unlinks(old(V()), old(M()), V(), M(), s, 0)
    {
      ghost var v, m, u := V(), M(), At(g.size, r);
      Recall(Fits(v, u));
      assert u >= 0;
      hide Index, Sorted, Good, QueueOk;
      MemberHeld(v, m, treemap, s, 0);
      Recall(Fits(v, u));
      InnerUnlinked(v, m, treemap, s, u);
      InnerFrame(v, m, treemap, s, u);
      ghost var w := Replace(Detach(v, u), s, r, u);
      LoneEffect(v, m, treemap, s, w);
      SlotAbove(least, rp, rb);
      if least <= rp + (4 + rb) * W {                        // RTCHECK(ok_address(M, RP))
        mem := if rb == 0 then mem.(child0 := Put(mem.child0, rp, NULL)) else mem.(child1 := Put(mem.child1, rp, NULL));
      } else {
        assert false;
      }
      g := g.(sizes := g.sizes - {u});
      assert V() == Detach(v, u);
      SetSlotKeeps(v, u, NULL);
      forall p | IsNode(V(), p) ensures least <= p {
        Recall(IsNode(v, p));
      }
      Relink(least, x, xp, r, s, u);
      g := Shadow(w.sizes, w.node, w.size, w.cell, g.ring);
      assert V() == w;
      assert M() == m;
    }

    /** rsize is what the best fit for nb among all free large chunks leaves over; v is that chunk, the
        oldest of its size, or null if no chunk is large enough. */
    ghost predicate BestFit(nb: nat, v: Addr, rsize: nat)
      reads this
    {
      && 0 < nb < MOD
      && if v == NULL then
           rsize == Wrap(0 - nb) && forall s: nat {:trigger Queue(s)} | Queue(s) != [] :: s < nb
         else
           && nb + rsize < MOD && Queue(nb + rsize) != [] && Queue(nb + rsize)[0] == v && At(g.size, v) == nb + rsize
           && forall s: nat {:trigger Queue(s)} | Queue(s) != [] && nb <= s :: nb + rsize <= s
    }

    lemma SearchDone(nb: nat, v: Addr, rsize: nat)
      requires Valid() && BestSoFar(V(), nb, v, rsize) && AllCovered(V(), nb, rsize, NULL)
      ensures BestFit(nb, v, rsize)
    {
      WrapSub(0, nb);
      if v != NULL {
        NodeHeld(V(), M(), treemap, v);
      }
      forall s: nat | Queue(s) != [] && nb <= s ensures v != NULL && nb + rsize <= s {
        Recall(Covered(V(), nb, rsize, NULL, NULL, s));
        Recall(Fits(V(), s));
      }
    }

    /** The search has reached t on the path of nb and has not found a perfect fit. */
    ghost predicate OnSearchPath(hd: Heads, nb: nat, t: Addr, rst: Addr, v: Addr, rsize: nat, sizebits: nat)
      reads this
    {
      && Searching(hd, nb, t, sizebits) && SideTree(V(), nb, t, rst) && rsize > 0
      && BestSoFar(V(), nb, v, rsize) && BinCovered(V(), nb, rsize, t, rst)
      && (v != NULL ==> At(g.size, v) >= 0 && Index(At(g.size, v)) == Index(nb))
    }

    /** What the first loop of tmalloc_large leaves for the others. */
    ghost predicate PathSearched(nb: nat, t: Addr, v: Addr, rsize: nat)
      reads this
    {
      && BestSoFar(V(), nb, v, rsize)
      && (v != NULL ==> At(g.size, v) >= 0 && Index(At(g.size, v)) == Index(nb))
      && (t != NULL ==> IsNode(V(), t))
      && (rsize > 0 ==>
          && AllFit(V(), t, nb) && BinCovered(V(), nb, rsize, t, t)
          && (t != NULL ==> At(g.size, t) >= 0 && Index(At(g.size, t)) == Index(nb)))
    }

    lemma VisitOnPath(hd: Heads, nb: nat, t: Addr, rst: Addr, v: Addr, rsize: nat, sizebits: nat)
      requires Valid() && OnSearchPath(hd, nb, t, rst, v, rsize, sizebits)
      ensures var trem := Wrap(HeadAt(hd, t).size - nb);
        if trem < rsize then
          PathSearched(nb, t, t, 0) || (trem > 0 && VisitedOnPath(nb, t, rst, t, trem, rsize))
        else trem > 0 && VisitedOnPath(nb, t, rst, v, rsize, rsize)
      ensures Wrap(HeadAt(hd, t).size - nb) == 0 <==> At(g.size, t) == nb
      ensures Wrap(HeadAt(hd, t).size - nb) == 0 ==> PathSearched(nb, t, t, 0)
    {
      Visit(V(), nb, v, rsize, t);
      PathBin(nb, t);
    }

    ghost predicate VisitedOnPath(nb: nat, t: Addr, rst: Addr, v: Addr, rsize: nat, rsize0: nat)
      reads this
    {
      && 0 < rsize <= rsize0 && BestSoFar(V(), nb, v, rsize) && BinCovered(V(), nb, rsize0, t, rst)
      && (nb <= At(g.size, t) ==> rsize <= At(g.size, t) - nb)
      && (v != NULL ==> At(g.size, v) >= 0 && Index(At(g.size, v)) == Index(nb))
    }

    lemma StepOnPath(hd: Heads, least: Addr, nb: nat, t: Addr, rst: Addr, v: Addr, rsize: nat, rsize0: nat,
                     sizebits: nat)
      requires Valid() && Backed(hd, least) && Searching(hd, nb, t, sizebits) && SideTree(V(), nb, t, rst)
      requires At(g.size, t) != nb && VisitedOnPath(nb, t, rst, v, rsize, rsize0)
      ensures var t1, rt := Child(V(), t, SignBit(sizebits)), At(mem.child1, t);
        var r1 := if rt != NULL && rt != t1 then rt else rst;
        if t1 == NULL then PathSearched(nb, r1, v, rsize)
        else
          OnSearchPath(hd, nb, t1, r1, v, rsize, 2 * sizebits % MOD)
          && 0 <= Rem(CellOf(V(), t1)) < Rem(CellOf(V(), t))
    {
      SearchStep(hd, least, nb, t, sizebits);
      PathInvariant(V(), nb, t, rst);
      PathCovered(V(), nb, rsize0, rsize, t, rst);
      var t1, rt := Child(V(), t, SignBit(sizebits)), At(mem.child1, t);
      var r1 := if rt != NULL && rt != t1 then rt else rst;
      if t1 == NULL {
        forall s: nat | s in g.sizes && nb <= s && Index(s) == Index(nb) ensures Covered(V(), nb, rsize, r1, r1, s) {
          Recall(Covered(V(), nb, rsize, t1, r1, s));
        }
      }
    }

    /** tmalloc_large: along the path of nb in its bin, remembering the deepest right subtree that the
        path passes by; that subtree is where the search goes on, unless the fit is perfect. */
    method SearchPath(hd: Heads, least: Addr, nb: nat) returns (t: Addr, v: Addr, rsize: nat)
      requires Valid() && Backed(hd, least) && LargeSize(nb) && At(root, Index(nb)) != NULL
      ensures PathSearched(nb, t, v, rsize)
    {
      t, v, rsize := At(root, Index(nb)), NULL, Wrap(0 - nb);
      var sizebits: nat := WordShl(nb, LeftShift(Index(nb)));
      var rst := NULL;
      WrapSub(0, nb);
      SearchStart(hd, least, nb);
      PathStart(V(), nb);
      while true
        invariant OnSearchPath(hd, nb, t, rst, v, rsize, sizebits)
        decreases Rem(CellOf(V(), t))
      {
        ghost var rsize0 := rsize;
        var trem := Wrap(HeadAt(hd, t).size - nb);
        VisitOnPath(hd, nb, t, rst, v, rsize, sizebits);
        if trem < rsize {
          v, rsize := t, trem;
          if rsize == 0 {
            return;
          }
        }
        StepOnPath(hd, least, nb, t, rst, v, rsize, rsize0, sizebits);
        var rt := At(mem.child1, t);
        t := if SignBit(sizebits) == 0 then At(mem.child0, t) else At(mem.child1, t);
        if rt != NULL && rt != t {
          rst := rt;
        }
        if t == NULL {
          t := rst;
          return;
        }
        sizebits := 2 * sizebits % MOD;
      }
    }

    lemma PathBin(nb: nat, t: Addr)
      requires IsNode(V(), t) && Descending(V(), nb, At(g.size, t))
      ensures At(g.size, t) >= 0 && Index(At(g.size, t)) == Index(nb)
    {
      Recall(Fits(V(), At(g.size, t)));
      SharedBin(At(g.size, t), nb, CellOf(V(), t));
    }

    /** The last loop of tmalloc_large and of tmalloc_small: down the leftmost path of a subtree. */
    method WalkLeft(hd: Heads, least: Addr, nb: nat, t0: Addr, v0: Addr, rsize0: nat) returns (v: Addr, rsize: nat)
      requires Valid() && Backed(hd, least) && BestSoFar(V(), nb, v0, rsize0)
      requires (t0 != NULL ==> IsNode(V(), t0)) && AllCovered(V(), nb, rsize0, t0)
      ensures BestFit(nb, v, rsize)
    {
      v, rsize := v0, rsize0;
      var t := t0;
      while t != NULL
        invariant t != NULL ==> IsNode(V(), t)
        invariant BestSoFar(V(), nb, v, rsize) && AllCovered(V(), nb, rsize, t)
        decreases if t == NULL then -1 else Rem(CellOf(V(), t))
      {
        ghost var rsize1, t1 := rsize, t;
        NodeBacked(hd, least, t);
        LeftDepth(t);
        var trem := Wrap(HeadAt(hd, t).size - nb);
        Visit(V(), nb, v, rsize, t);
        if trem < rsize {
          v, rsize := t, trem;
        }
        LeftCovered(V(), nb, rsize1, rsize, t);
        t := if At(mem.child0, t) != NULL then At(mem.child0, t) else At(mem.child1, t);    // leftmost_child
      }
      SearchDone(nb, v, rsize);
    }

    lemma LeftDepth(t: Addr)
      requires Sorted(V()) && IsNode(V(), t)
      ensures Rem(CellOf(V(), t)) >= 0
      ensures var l := Leftmost(V(), t);
        l != NULL ==> IsNode(V(), l) && 0 <= Rem(CellOf(V(), l)) < Rem(CellOf(V(), t))
    {
      Recall(Fits(V(), At(g.size, t)));
      OnPathRem(At(g.size, t), CellOf(V(), t));
      Recall(ChildOk(V(), At(g.size, t), 0));
      Recall(ChildOk(V(), At(g.size, t), 1));
      var l := Leftmost(V(), t);
      if l != NULL {
        Recall(Fits(V(), At(g.size, l)));
        OnPathRem(At(g.size, l), CellOf(V(), l));
      }
    }

    lemma NoneInBin(nb: nat)
      requires Sorted(V()) && LargeSize(nb)
      requires At(root, Index(nb)) == NULL || BinCovered(V(), nb, Wrap(0 - nb), NULL, NULL)
      ensures forall s: nat | s in g.sizes && nb <= s :: Index(nb) < Index(s)
    {
      DescentStart(V(), nb);
      WrapSub(0, nb);
      forall s: nat | s in g.sizes && nb <= s ensures Index(nb) < Index(s) {
        Recall(Fits(V(), s));
        IndexMono(nb, s);
        Recall(Covered(V(), nb, Wrap(0 - nb), NULL, NULL, s));
      }
    }

    /** The root of a bin that holds a size is set, and its bit is marked. */
    lemma SizeMarked(s: nat)
      requires Valid() && s in g.sizes
      ensures LargeSize(s) && At(root, Index(s)) != NULL && Marked(treemap, Index(s))
    {
      Recall(Fits(V(), s));
      DescentStart(V(), s);
      Recall(BitOk(V(), treemap, Index(s)));
    }

    /** The root of the next non-empty bin after idx. */
    method NextRoot(nb: nat, idx: nat) returns (t: Addr)
      requires Valid() && LargeSize(nb) && idx == Index(nb)
      requires forall s: nat | s in g.sizes && nb <= s :: idx < Index(s)
      ensures t != NULL ==> IsNode(V(), t)
      ensures AllCovered(V(), nb, Wrap(0 - nb), t)
    {
      t := NULL;
      Full();
      Pow2Mono(idx + 1, NBINS);
      AndBound(LeftBits(IdxBit(idx)), treemap);
      var leftbits: BinMap := And(LeftBits(IdxBit(idx)), treemap);
      forall j: nat | j < NBINS ensures Marked(leftbits, j) <==> idx < j && Marked(treemap, j) {
        AboveMarked(treemap, idx, j);
      }
      if leftbits != 0 {
        FirstMarked(leftbits);
        var i := Bit2Idx(LeastBit(leftbits));
        t := At(root, i);
        Recall(BitOk(V(), treemap, i));
        forall s: nat | s in g.sizes ensures (nb <= s ==> i <= Index(s)) && (Index(s) == i ==> nb <= s) {
          SizeMarked(s);
          if s < nb {
            IndexMono(s, nb);
          }
        }
        NextBin(V(), nb, i);
      } else {
        EmptyMap(leftbits);
        forall s | s in g.sizes && nb <= s ensures false {
          SizeMarked(s);
        }
      }
    }

    /** The search of tmalloc_large. */
    method FindBest(hd: Heads, least: Addr, nb: nat) returns (v: Addr, rsize: nat)
      requires Valid() && Backed(hd, least) && LargeSize(nb)
      ensures BestFit(nb, v, rsize)
    {
      var t := NULL;
      v, rsize := NULL, Wrap(0 - nb);
      var idx := Index(nb);
      WrapSub(0, nb);
      DescentStart(V(), nb);
      if At(root, idx) != NULL {
        t, v, rsize := SearchPath(hd, least, nb);
      }
      if t == NULL && v == NULL {
        NoneInBin(nb);
        t := NextRoot(nb, idx);
      } else if rsize > 0 {
        PathEnd(V(), nb, rsize, t, v);
      }
      v, rsize := WalkLeft(hd, least, nb, t, v, rsize);
    }

    /** The search of tmalloc_small: the requests are smaller than every large chunk, and there is one. */
    method FindSmallest(hd: Heads, least: Addr, nb: nat) returns (v: Addr, rsize: nat)
      requires Valid() && Backed(hd, least) && 0 < nb < MIN_LARGE && treemap != 0
      ensures v != NULL && BestFit(nb, v, rsize)
    {
      FirstMarked(treemap);
      var i := Bit2Idx(LeastBit(treemap));
      Recall(BitOk(V(), treemap, i));
      forall s: nat | s in g.sizes ensures i <= Index(s) && nb <= s {
        SizeMarked(s);
      }
      NextBin(V(), nb, i);
      v := At(root, i);
      rsize := Wrap(HeadAt(hd, v).size - nb);
      NodeBacked(hd, least, v);
      WrapSub(0, nb);
      Visit(V(), nb, NULL, Wrap(0 - nb), v);
      LeftCovered(V(), nb, Wrap(0 - nb), rsize, v);
      LeftDepth(v);
      var t := if At(mem.child0, v) != NULL then At(mem.child0, v) else At(mem.child1, v);
      v, rsize := WalkLeft(hd, least, nb, t, v, rsize);
      if v == NULL {
        SizeMarked(At(g.size, At(root, i)));
        NodeHeld(V(), M(), treemap, At(root, i));
        Recall(Queue(At(g.size, At(root, i))) != []);
      }
    }
  
    /** bin_find for a large chunk: descend to its size, and walk the ring there. */
    method Find(hd: Heads, least: Addr, x: Addr, s: nat) returns (found: bool)
      requires Valid() && Backed(hd, least) && LargeSize(s)
      ensures found <==> x in Queue(s)
    {
      var i := Index(s);
      Recall(BitOk(V(), treemap, i));
      DescentStart(V(), s);
      if !Marked(treemap, i) {
        return false;
      }
      var t := FindSize(hd, least, s);
      if t == NULL {
        return false;
      }
      found := WalkRing(t, x, s);
    }

    /** The node of size s, or null. */
    method FindSize(hd: Heads, least: Addr, s: nat) returns (t: Addr)
      requires Valid() && Backed(hd, least) && LargeSize(s) && At(root, Index(s)) != NULL
      ensures if t == NULL then s !in g.sizes else s in g.sizes && t == At(g.node, s)
    {
      t := At(root, Index(s));
      var k: nat := WordShl(s, LeftShift(Index(s)));
      SearchStart(hd, least, s);
      while t != NULL && HeadAt(hd, t).size != s
        invariant if t == NULL then s !in g.sizes else Searching(hd, s, t, k)
        decreases if t == NULL then -1 else Rem(CellOf(V(), t))
      {
        SearchStep(hd, least, s, t, k);
        DescentStep(V(), s, At(g.size, t));
        var b := SignBit(k);
        k := 2 * k % MOD;
        t := if b == 0 then At(mem.child0, t) else At(mem.child1, t);
      }
      if t != NULL {
        Recall(Fits(V(), s));
      }
    }

    /** Once around the ring of the chunks of size s. */
    method WalkRing(t: Addr, x: Addr, s: nat) returns (found: bool)
      requires Valid() && s in g.sizes && t == At(g.node, s)
      ensures found <==> x in Queue(s)
    {
      Recall(QueueOk(V(), M(), s));
      found := InRing(Queue(s), mem.bk, mem.fd, t, x);
    }
  }
}
