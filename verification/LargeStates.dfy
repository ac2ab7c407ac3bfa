/** The tries, the rings and the bitmap of the large bins taken together, as a value. */
module LargeStates {
  import opened Config
  import opened Prefixes
  import opened BinMaps
  import opened TreeIndex
  import opened Rings
  import opened Tries
  import opened TrieSearch
  import opened LargeQueues

  ghost predicate Held(v: Trie, m: Lists, p: Addr) {
    At(v.size, p) in v.sizes && p in QueueAt(m.ring, At(v.size, p))
  }

  ghost predicate BitOk(v: Trie, bits: BinMap, i: nat) {
    Marked(bits, i) <==> At(v.root, i) != NULL
  }

  ghost predicate StateOk(v: Trie, m: Lists, bits: BinMap) {
    && Sorted(v)
    && (forall s: nat {:trigger QueueOk(v, m, s)} | s in v.sizes :: QueueOk(v, m, s))
    && (forall i: nat {:trigger BitOk(v, bits, i)} | i < NBINS :: BitOk(v, bits, i))
  }

  lemma MemberHeld(v: Trie, m: Lists, bits: BinMap, s: nat, k: nat)
    requires StateOk(v, m, bits) && s in v.sizes && k < |QueueAt(m.ring, s)|
    ensures var p := QueueAt(m.ring, s)[k];
      p > 0 && Held(v, m, p) && At(v.size, p) == s && At(m.index, p) == Index(s)
      && (k == 0 <==> p == At(v.node, s)) && (k == 0 <==> IsNode(v, p)) && (k > 0 ==> ChainOk(v, p))
  {
    Recall(QueueOk(v, m, s));
    Recall(MemberOk(v, m, s, QueueAt(m.ring, s)[k]));
  }

  lemma NodeHeld(v: Trie, m: Lists, bits: BinMap, p: Addr)
    requires StateOk(v, m, bits) && IsNode(v, p)
    ensures Held(v, m, p) && LargeSize(At(v.size, p))
    ensures var q := QueueAt(m.ring, At(v.size, p)); q != [] && q[0] == p
  {
    Recall(Fits(v, At(v.size, p)));
    Recall(QueueOk(v, m, At(v.size, p)));
  }

  /** The chunks of size s in the order in which they will be handed out. */
  ghost function QueueOf(v: Trie, m: Lists, s: int): seq<Addr> {
    if s in v.sizes then QueueAt(m.ring, s) else []
  }

  ghost function FieldsOf(v: Trie, m: Lists, p: Addr): (int, int, int, int, int, int) {
    (At(m.fd, p), At(m.bk, p), At(v.child0, p), At(v.child1, p), At(v.parent, p), At(m.index, p))
  }

  /** x has joined the queue of size s, and only fields of free large chunks were written. */
  ghost predicate Inserts(v: Trie, m: Lists, w: Trie, n: Lists, x: Addr, s: nat) {
    && QueueOf(w, n, s) == QueueOf(v, m, s) + [x]
    && (forall u {:trigger QueueOf(w, n, u)} | u != s :: QueueOf(w, n, u) == QueueOf(v, m, u))
    && (forall p {:trigger FieldsOf(w, n, p)} | p != x && !Held(v, m, p) :: FieldsOf(w, n, p) == FieldsOf(v, m, p))
  }

  /** The k-th chunk of size s has left, and only fields of free large chunks were written. */
  ghost predicate Unlinks(v: Trie, m: Lists, w: Trie, n: Lists, s: nat, k: nat) {
    && k < |QueueOf(v, m, s)|
    && QueueOf(w, n, s) == Removed(QueueOf(v, m, s), k)
    && (forall u {:trigger QueueOf(w, n, u)} | u != s :: QueueOf(w, n, u) == QueueOf(v, m, u))
    && (forall p {:trigger FieldsOf(w, n, p)} | !Held(v, m, p) :: FieldsOf(w, n, p) == FieldsOf(v, m, p))
  }

  // ---- the bins as a table of chunks ----

  /** All chunks in the bins, with their sizes. */
  ghost function ContentOf(v: Trie, m: Lists): imap<Addr, int> {
    imap p | Held(v, m, p) :: At(v.size, p)
  }

  lemma HeldAt(v: Trie, m: Lists, bits: BinMap, p: Addr, s: int)
    requires StateOk(v, m, bits)
    ensures Held(v, m, p) && At(v.size, p) == s <==> p in QueueOf(v, m, s)
    ensures Held(v, m, p) ==> p > 0 && LargeSize(At(v.size, p))
  {
    if p in QueueOf(v, m, s) {
      Recall(Fits(v, s));
      var k :| 0 <= k < |QueueOf(v, m, s)| && QueueOf(v, m, s)[k] == p;
      MemberHeld(v, m, bits, s, k);
    }
    if Held(v, m, p) {
      var u := At(v.size, p);
      Recall(Fits(v, u));
      var k :| 0 <= k < |QueueAt(m.ring, u)| && QueueAt(m.ring, u)[k] == p;
      MemberHeld(v, m, bits, u, k);
    }
  }

  /** The queue of size s has become q, and no other queue has changed. */
  ghost predicate OnlyQueue(v: Trie, m: Lists, w: Trie, n: Lists, s: nat, q: seq<Addr>) {
    && QueueOf(w, n, s) == q
    && forall u {:trigger QueueOf(w, n, u)} | u != s :: QueueOf(w, n, u) == QueueOf(v, m, u)
  }

  lemma HeldChange(v: Trie, m: Lists, bits: BinMap, w: Trie, n: Lists, bits': BinMap, s: nat, q: seq<Addr>, a: Addr)
    requires StateOk(v, m, bits) && StateOk(w, n, bits') && OnlyQueue(v, m, w, n, s, q)
    ensures Held(w, n, a) <==> a in q || (Held(v, m, a) && At(v.size, a) != s)
    ensures Held(w, n, a) ==> At(w.size, a) == if a in q then s else At(v.size, a)
  {
    var u := At(w.size, a);
    HeldAt(w, n, bits', a, s);
    HeldAt(w, n, bits', a, u);
    HeldAt(w, n, bits', a, At(v.size, a));
    HeldAt(v, m, bits, a, At(v.size, a));
    HeldAt(v, m, bits, a, u);
    Recall(QueueOf(w, n, u) == QueueOf(v, m, u));
    Recall(QueueOf(w, n, At(v.size, a)) == []);
  }

  lemma ContentInserted(v: Trie, m: Lists, bits: BinMap, w: Trie, n: Lists, bits': BinMap, x: Addr, s: nat)
    requires StateOk(v, m, bits) && StateOk(w, n, bits') && OnlyQueue(v, m, w, n, s, QueueOf(v, m, s) + [x])
    ensures ContentOf(w, n) == ContentOf(v, m)[x := s]
  {
    forall a {:trigger Held(w, n, a)}
      ensures Held(w, n, a) <==> Held(v, m, a) || a == x
      ensures Held(w, n, a) ==> At(w.size, a) == if a == x then s else At(v.size, a)
    {
      HeldChange(v, m, bits, w, n, bits', s, QueueOf(v, m, s) + [x], a);
      HeldAt(v, m, bits, a, s);
    }
  }

  lemma ContentUnlinked(v: Trie, m: Lists, bits: BinMap, w: Trie, n: Lists, bits': BinMap, s: nat, k: nat)
    requires StateOk(v, m, bits) && StateOk(w, n, bits')
    requires k < |QueueOf(v, m, s)| && OnlyQueue(v, m, w, n, s, Removed(QueueOf(v, m, s), k))
    ensures ContentOf(w, n) == ContentOf(v, m) - {QueueOf(v, m, s)[k]}
  {
    var q := QueueOf(v, m, s);
    forall a {:trigger Held(w, n, a)}
      ensures Held(w, n, a) <==> Held(v, m, a) && a != q[k]
      ensures Held(w, n, a) ==> At(w.size, a) == At(v.size, a)
    {
      HeldChange(v, m, bits, w, n, bits', s, Removed(q, k), a);
      HeldAt(v, m, bits, a, s);
      QueueElements(v, m, bits, s, k, a);
    }
  }

  lemma QueueElements(v: Trie, m: Lists, bits: BinMap, s: nat, k: nat, a: Addr)
    requires StateOk(v, m, bits) && k < |QueueOf(v, m, s)|
    ensures a in Removed(QueueOf(v, m, s), k) <==> a in QueueOf(v, m, s) && a != QueueOf(v, m, s)[k]
    ensures QueueOf(v, m, s)[k] in QueueOf(v, m, s)
  {
    Recall(QueueOk(v, m, s));
    RemovedElements(QueueOf(v, m, s), k, a);
  }

  /** Queues of other sizes keep their links when only chunks outside of them, or trie nodes' links,
      have changed. */
  lemma OtherQueue(v: Trie, m: Lists, bits: BinMap, w: Trie, n: Lists, s: nat)
    requires StateOk(v, m, bits) && s in v.sizes
    requires QueueAt(n.ring, s) == QueueAt(m.ring, s) && At(w.node, s) == At(v.node, s)
    requires forall p {:trigger Held(v, m, p)} | Held(v, m, p) && At(v.size, p) == s ::
      && At(n.fd, p) == At(m.fd, p) && At(n.bk, p) == At(m.bk, p) && At(n.index, p) == At(m.index, p)
      && At(w.size, p) == s
      && (IsNode(v, p) || (At(w.parent, p) == At(v.parent, p) && At(w.child0, p) == At(v.child0, p)
                           && At(w.child1, p) == At(v.child1, p)))
    ensures QueueOk(w, n, s)
  {
    var q := QueueAt(m.ring, s);
    forall k | 0 <= k < |q|
      ensures Held(v, m, q[k]) && At(v.size, q[k]) == s && (k > 0 ==> ChainOk(w, q[k]))
    {
      MemberHeld(v, m, bits, s, k);
    }
    Untouched(v, m, w, n, s);
  }

  // ---- frames of the trie operations ----

  ghost predicate SameFields(v: Trie, w: Trie, p: Addr) {
    At(w.parent, p) == At(v.parent, p) && At(w.child0, p) == At(v.child0, p) && At(w.child1, p) == At(v.child1, p)
  }

  lemma AddLeafFrame(v: Trie, x: Addr, s: nat, t: int, b: int, p: Addr)
    requires CanAddLeaf(v, x, s, t, b) && !IsNode(v, p) && p != x
    ensures SameFields(v, AddLeaf(v, x, s, t, b), p)
  {
    Recall(PlaceOk(v, t));
  }

  lemma DetachFrame(v: Trie, s: int, p: Addr)
    requires Good(v) && s in v.sizes && !IsNode(v, p)
    ensures SameFields(v, Detach(v, s), p)
  {
    Recall(ParentOk(v, s));
  }

  lemma ReplaceFrame(v: Trie, s: int, r: Addr, u: int, p: Addr)
    requires CanReplace(v, s, r, u) && !IsNode(v, p) && p != r
    ensures SameFields(v, Replace(v, s, r, u), p)
  {
    AtNode(v, s);
  }

  // ---- inserting ----

  ghost predicate CanInsert(v: Trie, m: Lists, bits: BinMap, x: Addr, s: nat) {
    StateOk(v, m, bits) && x > 0 && LargeSize(s) && !Held(v, m, x)
  }

  lemma NotNode(v: Trie, m: Lists, bits: BinMap, x: Addr, s: nat)
    requires CanInsert(v, m, bits, x, s)
    ensures !IsNode(v, x)
  {
    if IsNode(v, x) {
      NodeHeld(v, m, bits, x);
    }
  }

  lemma RootInserted(v: Trie, m: Lists, bits: BinMap, x: Addr, s: nat)
    requires CanInsert(v, m, bits, x, s) && At(v.root, Index(s)) == NULL
    ensures s !in v.sizes
    ensures StateOk(AddRoot(v, x, s, Index(s)), NewQueue(m, x, s), Mark(bits, Index(s)))
  {
    var w, n := AddRoot(v, x, s, Index(s)), NewQueue(m, x, s);
    DescentStart(v, s);
    NotNode(v, m, bits, x, s);
    AddRootSorted(v, x, s);
    forall u: nat {:trigger QueueOk(w, n, u)} | u in w.sizes ensures QueueOk(w, n, u) {
      if u == s {
        NewQueueOk(w, m, x, s);
      } else {
        OtherQueue(v, m, bits, w, n, u);
      }
    }
    forall i: nat {:trigger BitOk(w, Mark(bits, Index(s)), i)} | i < NBINS ensures BitOk(w, Mark(bits, Index(s)), i) {
      Recall(BitOk(v, bits, i));
      MarkClear(bits, Index(s), i);
    }
  }

  lemma LeafInserted(v: Trie, m: Lists, bits: BinMap, x: Addr, s: nat, t: nat)
    requires CanInsert(v, m, bits, x, s) && Descending(v, s, t) && s != t
    requires Rem(CellAt(v.cell, t)) > 0 && Child(v, At(v.node, t), Bit(s, Rem(CellAt(v.cell, t)) - 1)) == NULL
    ensures s !in v.sizes
    ensures StateOk(AddLeaf(v, x, s, t, Bit(s, Rem(CellAt(v.cell, t)) - 1)), NewQueue(m, x, s), bits)
  {
    var b := Bit(s, Rem(CellAt(v.cell, t)) - 1);
    var w, n := AddLeaf(v, x, s, t, b), NewQueue(m, x, s);
    DescentStep(v, s, t);
    NotNode(v, m, bits, x, s);
    AddLeafSorted(v, x, s, t, b);
    forall u: nat {:trigger QueueOk(w, n, u)} | u in w.sizes ensures QueueOk(w, n, u) {
      if u == s {
        NewQueueOk(w, m, x, s);
      } else {
        BesideLeaf(v, m, bits, x, s, t, b, u);
      }
    }
    LeafBits(v, bits, x, s, t, b);
  }

  lemma BesideLeaf(v: Trie, m: Lists, bits: BinMap, x: Addr, s: nat, t: nat, b: nat, u: nat)
    requires CanInsert(v, m, bits, x, s) && CanAddLeaf(v, x, s, t, b) && u in v.sizes && u != s
    ensures QueueOk(AddLeaf(v, x, s, t, b), NewQueue(m, x, s), u)
  {
    var w, n := AddLeaf(v, x, s, t, b), NewQueue(m, x, s);
    hide Good, QueueOk, IsNode, Sorted, AddLeaf;
    AddLeafNames(v, x, s, t, b);
    forall p {:trigger Held(v, m, p)} | Held(v, m, p) && At(v.size, p) == u
      ensures p != x && (!IsNode(v, p) ==> SameFields(v, w, p))
    {
      if !IsNode(v, p) {
        AddLeafFrame(v, x, s, t, b, p);
      }
    }
    hide Held;
    OtherQueue(v, m, bits, w, n, u);
  }

  lemma AddLeafNames(v: Trie, x: Addr, s: nat, t: nat, b: nat)
    ensures var w := AddLeaf(v, x, s, t, b);
      w.node == Put(v.node, s, x) && w.size == Put(v.size, x, s) && w.sizes == v.sizes + {s}
  {
    hide At, Put, CellAt, PutCell;
  }

  lemma LeafBits(v: Trie, bits: BinMap, x: Addr, s: nat, t: nat, b: nat)
    requires forall i: nat {:trigger BitOk(v, bits, i)} | i < NBINS :: BitOk(v, bits, i)
    ensures var w := AddLeaf(v, x, s, t, b);
      forall i: nat {:trigger BitOk(w, bits, i)} | i < NBINS :: BitOk(w, bits, i)
  {
    var w := AddLeaf(v, x, s, t, b);
    forall i: nat {:trigger BitOk(w, bits, i)} | i < NBINS ensures BitOk(w, bits, i) {
      Recall(BitOk(v, bits, i));
    }
  }

  /** x behind the other chunks of its size: the trie does not change. */
  function Chain(v: Trie, x: Addr, s: nat): Trie {
    v.(size := Put(v.size, x, s), child0 := Put(v.child0, x, NULL), child1 := Put(v.child1, x, NULL),
       parent := Put(v.parent, x, NULL))
  }

  lemma ChainInserted(v: Trie, m: Lists, bits: BinMap, x: Addr, s: nat)
    requires CanInsert(v, m, bits, x, s) && s in v.sizes
    ensures StateOk(Chain(v, x, s), Enqueue(m, x, s, At(v.node, s)), bits)
  {
    var w, n := Chain(v, x, s), Enqueue(m, x, s, At(v.node, s));
    NotNode(v, m, bits, x, s);
    Recall(PlaceOk(v, s));
    ChainSorted(v, x, s);
    forall u: nat {:trigger QueueOk(w, n, u)} | u in w.sizes ensures QueueOk(w, n, u) {
      if u == s {
        GrownQueue(v, m, bits, x, s);
      } else {
        RingEnds(v, m, bits, s);
        OtherQueue(v, m, bits, w, n, u);
      }
    }
    forall i: nat {:trigger BitOk(w, bits, i)} | i < NBINS ensures BitOk(w, bits, i) {
      Recall(BitOk(v, bits, i));
    }
  }

  lemma GrownQueue(v: Trie, m: Lists, bits: BinMap, x: Addr, s: nat)
    requires CanInsert(v, m, bits, x, s) && s in v.sizes
    ensures QueueOk(Chain(v, x, s), Enqueue(m, x, s, At(v.node, s)), s)
  {
    var w := Chain(v, x, s);
    Recall(QueueOk(v, m, s));
    var q := QueueAt(m.ring, s);
    forall k | 0 <= k < |q| ensures At(w.size, q[k]) == s && (k > 0 ==> ChainOk(w, q[k])) && q[k] != x {
      MemberHeld(v, m, bits, s, k);
    }
    EnqueueOk(v, m, w, x, s);
  }

  lemma ChainSorted(v: Trie, x: Addr, s: nat)
    requires Sorted(v) && !IsNode(v, x) && s in v.sizes && x > 0 && x != At(v.node, s)
    ensures Sorted(Chain(v, x, s))
  {
    var w := Chain(v, x, s);
    ChainGood(v, x, s);
    forall u {:trigger Fits(w, u)} | u in w.sizes ensures Fits(w, u) {
      Recall(Fits(v, u));
    }
  }

  lemma ChainGood(v: Trie, x: Addr, s: nat)
    requires Good(v) && !IsNode(v, x) && s in v.sizes && x > 0 && x != At(v.node, s)
    ensures Good(Chain(v, x, s))
  {
    var w := Chain(v, x, s);
    forall a {:trigger PlaceOk(w, a)} | a in v.sizes ensures PlaceOk(w, a) {
      Recall(PlaceOk(v, a));
    }
    forall a {:trigger ParentOk(w, a)} | a in v.sizes ensures ParentOk(w, a) {
      ChainParent(v, x, s, a);
    }
    forall a, b {:trigger ChildOk(w, a, b)} | a in v.sizes && 0 <= b < 2 ensures ChildOk(w, a, b) {
      ChainChild(v, x, s, a, b);
    }
    forall i {:trigger RootOk(w, i)} | 0 <= i < NBINS ensures RootOk(w, i) {
      Recall(RootOk(v, i));
    }
    forall a, d | a in w.sizes && d in w.sizes && SameCell(w, a, d) ensures a == d {
      Recall(SameCell(v, a, d));
    }
  }

  lemma ChainParent(v: Trie, x: Addr, s: nat, a: int)
    requires Good(v) && !IsNode(v, x) && s in v.sizes && x > 0 && x != At(v.node, s) && a in v.sizes
    ensures ParentOk(Chain(v, x, s), a)
  {
    Recall(ParentOk(v, a));
    Recall(PlaceOk(v, a));
  }

  lemma ChainChild(v: Trie, x: Addr, s: nat, a: int, b: int)
    requires Good(v) && !IsNode(v, x) && s in v.sizes && x > 0 && x != At(v.node, s) && a in v.sizes && 0 <= b < 2
    ensures ChildOk(Chain(v, x, s), a, b)
  {
    Recall(ChildOk(v, a, b));
    Recall(PlaceOk(v, a));
  }

  /** The oldest chunk of a size and the newest one are each other's neighbours. */
  lemma RingEnds(v: Trie, m: Lists, bits: BinMap, s: nat)
    requires StateOk(v, m, bits) && s in v.sizes
    ensures var q := QueueAt(m.ring, s);
      |q| > 0 && At(m.fd, At(v.node, s)) == q[|q| - 1] && Held(v, m, q[|q| - 1]) && At(v.size, q[|q| - 1]) == s
  {
    Recall(QueueOk(v, m, s));
    var q := QueueAt(m.ring, s);
    Recall(LinkedAt(q, m.bk, m.fd, 0));
    MemberHeld(v, m, bits, s, |q| - 1);
  }

  // ---- unlinking ----

  ghost predicate CanUnlink(v: Trie, m: Lists, bits: BinMap, s: nat, k: nat) {
    StateOk(v, m, bits) && s in v.sizes && k < |QueueAt(m.ring, s)|
  }

  /** What unlink_large_chunk finds in the ring of the chunk. */
  lemma RingOfChunk(v: Trie, m: Lists, bits: BinMap, s: nat, k: nat)
    requires CanUnlink(v, m, bits, s, k)
    ensures var q := QueueAt(m.ring, s);
      var x := q[k];
      && (At(m.bk, x) == x <==> |q| == 1)
      && At(m.bk, x) == Next(q, k) && At(m.fd, x) == Prev(q, k)
      && (|q| > 1 ==> At(m.bk, Prev(q, k)) == x && At(m.fd, Next(q, k)) == x)
      && Held(v, m, Next(q, k)) && At(v.size, Next(q, k)) == s
      && Held(v, m, Prev(q, k)) && At(v.size, Prev(q, k)) == s
  {
    Recall(QueueOk(v, m, s));
    var q := QueueAt(m.ring, s);
    Recall(LinkedAt(q, m.bk, m.fd, k));
    MemberHeld(v, m, bits, s, if k + 1 < |q| then k + 1 else 0);
    MemberHeld(v, m, bits, s, if k > 0 then k - 1 else |q| - 1);
    if |q| > 1 {
      DequeueLinks(m, s, k);
    }
  }

  /** Unlinking from one ring touches no other ring. */
  lemma OtherRing(v: Trie, m: Lists, bits: BinMap, s: nat, k: nat, u: nat)
    requires CanUnlink(v, m, bits, s, k) && |QueueAt(m.ring, s)| > 1 && u != s
    ensures var n := Dequeue(m, QueueAt(m.ring, s)[k], s, k);
      QueueAt(n.ring, u) == QueueAt(m.ring, u) && n.index == m.index
      && forall p {:trigger Held(v, m, p)} | Held(v, m, p) && At(v.size, p) == u ::
           At(n.fd, p) == At(m.fd, p) && At(n.bk, p) == At(m.bk, p)
  {
    RingOfChunk(v, m, bits, s, k);
  }

  lemma ChainUnlinked(v: Trie, m: Lists, bits: BinMap, s: nat, k: nat)
    requires CanUnlink(v, m, bits, s, k) && k > 0
    ensures StateOk(v, Dequeue(m, QueueAt(m.ring, s)[k], s, k), bits)
  {
    var n := Dequeue(m, QueueAt(m.ring, s)[k], s, k);
    forall u: nat {:trigger QueueOk(v, n, u)} | u in v.sizes ensures QueueOk(v, n, u) {
      if u == s {
        ChainQueue(v, m, bits, s, k);
      } else {
        OtherRing(v, m, bits, s, k, u);
        OtherQueue(v, m, bits, v, n, u);
      }
    }
  }

  lemma ChainQueue(v: Trie, m: Lists, bits: BinMap, s: nat, k: nat)
    requires CanUnlink(v, m, bits, s, k) && k > 0
    ensures QueueOk(v, Dequeue(m, QueueAt(m.ring, s)[k], s, k), s)
  {
    var q := QueueAt(m.ring, s);
    Recall(QueueOk(v, m, s));
    forall j | 0 <= j < |q| ensures At(v.size, q[j]) == s && (j > 0 ==> ChainOk(v, q[j])) {
      MemberHeld(v, m, bits, s, j);
    }
    DequeueOk(v, m, v, s, k);
  }

  /** The oldest chunk of a size leaves, and the next one takes over its node. */
  lemma HeadUnlinked(v: Trie, m: Lists, bits: BinMap, s: nat)
    requires CanUnlink(v, m, bits, s, 0) && |QueueAt(m.ring, s)| > 1
    ensures var q := QueueAt(m.ring, s);
      CanReplace(v, s, q[1], s) && StateOk(Replace(v, s, q[1], s), Dequeue(m, q[0], s, 0), bits)
  {
    var q := QueueAt(m.ring, s);
    MemberHeld(v, m, bits, s, 1);
    Recall(Fits(v, s));
    var w, n := Replace(v, s, q[1], s), Dequeue(m, q[0], s, 0);
    ReplaceSorted(v, s, q[1], s);
    HeadQueue(v, m, bits, s);
    forall u: nat {:trigger QueueOk(w, n, u)} | u in w.sizes && u != s ensures QueueOk(w, n, u) {
      OtherRing(v, m, bits, s, 0, u);
      ReplaceOther(v, m, bits, s, q[1], s, n, u);
    }
    forall i: nat {:trigger BitOk(w, bits, i)} | i < NBINS ensures BitOk(w, bits, i) {
      Recall(BitOk(v, bits, i));
      SlotOfRoot(v, s, q[1], i);
      Recall(PlaceOk(v, s));
    }
  }

  lemma HeadQueue(v: Trie, m: Lists, bits: BinMap, s: nat)
    requires CanUnlink(v, m, bits, s, 0) && |QueueAt(m.ring, s)| > 1 && CanReplace(v, s, QueueAt(m.ring, s)[1], s)
    ensures QueueOk(Replace(v, s, QueueAt(m.ring, s)[1], s), Dequeue(m, QueueAt(m.ring, s)[0], s, 0), s)
  {
    var q := QueueAt(m.ring, s);
    var w := Replace(v, s, q[1], s);
    SetSlotKeeps(v, s, q[1]);
    Recall(QueueOk(v, m, s));
    forall j | 0 <= j < |q| && j != 0 ensures At(w.size, q[j]) == s && (j > 1 ==> ChainOk(w, q[j])) {
      MemberHeld(v, m, bits, s, j);
      if j > 1 {
        ReplaceFrame(v, s, q[1], s, q[j]);
      }
    }
    DequeueOk(v, m, w, s, 0);
  }

  lemma ReplaceOther(v: Trie, m: Lists, bits: BinMap, s: nat, r: Addr, t: nat, n: Lists, u: nat)
    requires StateOk(v, m, bits) && CanReplace(v, s, r, t) && u in v.sizes && u != s && u != t
    requires At(v.size, r) == t
    requires QueueAt(n.ring, u) == QueueAt(m.ring, u)
    requires forall p {:trigger Held(v, m, p)} | Held(v, m, p) && At(v.size, p) == u ::
      At(n.fd, p) == At(m.fd, p) && At(n.bk, p) == At(m.bk, p) && At(n.index, p) == At(m.index, p)
    ensures QueueOk(Replace(v, s, r, t), n, u)
  {
    var w := Replace(v, s, r, t);
    SetSlotKeeps(v, s, r);
    forall p | Held(v, m, p) && At(v.size, p) == u && !IsNode(v, p) ensures SameFields(v, w, p) {
      ReplaceFrame(v, s, r, t, p);
    }
    OtherQueue(v, m, bits, w, n, u);
  }

  /** A lone leaf leaves. */
  lemma LeafUnlinked(v: Trie, m: Lists, bits: BinMap, s: nat)
    requires StateOk(v, m, bits) && s in v.sizes && IsLeaf(v, s)
    ensures var w := Detach(v, s);
      && Sorted(w)
      && (forall u: nat {:trigger QueueOk(w, m, u)} | u in w.sizes :: QueueOk(w, m, u))
      && (forall i: nat {:trigger BitOk(w, bits, i)} | i < NBINS && CellAt(v.cell, s) != Top(i) :: BitOk(w, bits, i))
      && (CellAt(v.cell, s).Top? ==>
            0 <= CellAt(v.cell, s).bin < NBINS && StateOk(w, m, Clear(bits, CellAt(v.cell, s).bin)))
  {
    var w := Detach(v, s);
    DetachSorted(v, s);
    SetSlotKeeps(v, s, NULL);
    forall u: nat {:trigger QueueOk(w, m, u)} | u in w.sizes ensures QueueOk(w, m, u) {
      forall p | Held(v, m, p) && At(v.size, p) == u && !IsNode(v, p) ensures SameFields(v, w, p) {
        DetachFrame(v, s, p);
      }
      OtherQueue(v, m, bits, w, m, u);
    }
    forall i: nat {:trigger BitOk(w, bits, i)} | i < NBINS && CellAt(v.cell, s) != Top(i) ensures BitOk(w, bits, i) {
      DetachBit(v, bits, s, i);
    }
    Recall(PlaceOk(v, s));
    if CellAt(v.cell, s).Top? {
      var j := CellAt(v.cell, s).bin;
      forall i: nat {:trigger BitOk(w, Clear(bits, j), i)} | i < NBINS ensures BitOk(w, Clear(bits, j), i) {
        MarkClear(bits, j, i);
        if i == j {
          SlotOfRoot(v, s, NULL, i);
        } else {
          DetachBit(v, bits, s, i);
        }
      }
    }
  }

  lemma DetachBit(v: Trie, bits: BinMap, s: nat, i: nat)
    requires Good(v) && s in v.sizes && i < NBINS && CellAt(v.cell, s) != Top(i) && BitOk(v, bits, i)
    ensures BitOk(Detach(v, s), bits, i)
  {
    SlotOfRoot(v, s, NULL, i);
    Recall(RootOk(v, i));
  }

  /** A lone inner node leaves, and a leaf from below, of size u, takes over its node. */
  lemma InnerUnlinked(v: Trie, m: Lists, bits: BinMap, s: nat, u: nat)
    requires StateOk(v, m, bits) && s in v.sizes && u in v.sizes && u != s && IsLeaf(v, u)
    requires Under(CellAt(v.cell, s), CellAt(v.cell, u))
    ensures var r := At(v.node, u);
      Sorted(Detach(v, u)) && CanReplace(Detach(v, u), s, r, u) && StateOk(Replace(Detach(v, u), s, r, u), m, bits)
  {
    var r, d := At(v.node, u), Detach(v, u);
    LeafUnlinked(v, m, bits, u);
    SetSlotKeeps(v, u, NULL);
    Recall(SameCell(v, s, u));
    Recall(PlaceOk(v, u));
    Recall(Fits(v, u));
    assert CellAt(v.cell, u).Down?;
    UnderOnPath(u, CellAt(v.cell, s), CellAt(v.cell, u));
    DetachedLeaf(v, u);
    var w := Replace(d, s, r, u);
    ReplaceSorted(d, s, r, u);
    SetSlotKeeps(d, s, r);
    assert StateOk(d, m, bits);
    forall a: nat {:trigger QueueOk(w, m, a)} | a in w.sizes && a != u ensures QueueOk(w, m, a) {
      ReplaceOther(d, m, bits, s, r, u, m, a);
    }
    LiftedQueue(v, m, bits, s, u);
    forall i: nat {:trigger BitOk(w, bits, i)} | i < NBINS ensures BitOk(w, bits, i) {
      Recall(BitOk(d, bits, i));
      SlotOfRoot(d, s, r, i);
      Recall(PlaceOk(d, s));
    }
  }

  lemma DetachedLeaf(v: Trie, u: int)
    requires Good(v) && u in v.sizes && IsLeaf(v, u)
    ensures var r := At(v.node, u); At(Detach(v, u).child0, r) == At(Detach(v, u).child1, r) == NULL
  {
    SlotOfChild(v, u, NULL, u);
    Recall(ChildOk(v, u, 0));
  }

  lemma LiftedQueue(v: Trie, m: Lists, bits: BinMap, s: nat, u: nat)
    requires StateOk(v, m, bits) && s in v.sizes && u in v.sizes && u != s && IsLeaf(v, u)
    requires CanReplace(Detach(v, u), s, At(v.node, u), u)
    ensures QueueOk(Replace(Detach(v, u), s, At(v.node, u), u), m, u)
  {
    var d, r := Detach(v, u), At(v.node, u);
    var w := Replace(d, s, r, u);
    SetSlotKeeps(v, u, NULL);
    SetSlotKeeps(d, s, r);
    forall p | Held(v, m, p) && At(v.size, p) == u && !IsNode(v, p) ensures SameFields(v, w, p) {
      DetachFrame(v, u, p);
      ReplaceFrame(d, s, r, u, p);
    }
    Recall(PlaceOk(v, u));
    OtherQueue(v, m, bits, w, m, u);
  }

  // ---- what the operations do to the queues ----

  lemma RootEffect(v: Trie, m: Lists, bits: BinMap, x: Addr, s: nat)
    requires CanInsert(v, m, bits, x, s) && At(v.root, Index(s)) == NULL
    ensures Inserts(v, m, AddRoot(v, x, s, Index(s)), NewQueue(m, x, s), x, s)
  {
    RootInserted(v, m, bits, x, s);
  }

  lemma LeafEffect(v: Trie, m: Lists, bits: BinMap, x: Addr, s: nat, t: nat, b: nat)
    requires CanInsert(v, m, bits, x, s) && s !in v.sizes && CanAddLeaf(v, x, s, t, b)
    ensures Inserts(v, m, AddLeaf(v, x, s, t, b), NewQueue(m, x, s), x, s)
  {
    var w, n := AddLeaf(v, x, s, t, b), NewQueue(m, x, s);
    AddLeafNames(v, x, s, t, b);
    hide AddLeaf, Good, Sorted, Held;
    forall p {:trigger FieldsOf(w, n, p) == FieldsOf(v, m, p)} | p != x && !Held(v, m, p)
      ensures FieldsOf(w, n, p) == FieldsOf(v, m, p)
    {
      if IsNode(v, p) {
        NodeHeld(v, m, bits, p);
        assert false;
      }
      AddLeafFrame(v, x, s, t, b, p);
    }
  }

  lemma ChainEffect(v: Trie, m: Lists, bits: BinMap, x: Addr, s: nat)
    requires CanInsert(v, m, bits, x, s) && s in v.sizes
    ensures Inserts(v, m, Chain(v, x, s), Enqueue(m, x, s, At(v.node, s)), x, s)
  {
    AtNode(v, s);
    NodeHeld(v, m, bits, At(v.node, s));
    RingEnds(v, m, bits, s);
  }

  lemma DequeueEffect(v: Trie, m: Lists, bits: BinMap, s: nat, k: nat, w: Trie)
    requires CanUnlink(v, m, bits, s, k) && |QueueAt(m.ring, s)| > 1 && w.sizes == v.sizes
    requires forall p | !Held(v, m, p) :: SameFields(v, w, p)
    ensures Unlinks(v, m, w, Dequeue(m, QueueAt(m.ring, s)[k], s, k), s, k)
  {
    RingOfChunk(v, m, bits, s, k);
    var n := Dequeue(m, QueueAt(m.ring, s)[k], s, k);
    forall p {:trigger FieldsOf(w, n, p) == FieldsOf(v, m, p)} | !Held(v, m, p)
      ensures FieldsOf(w, n, p) == FieldsOf(v, m, p)
    {
      assert SameFields(v, w, p);
    }
  }

  lemma LoneEffect(v: Trie, m: Lists, bits: BinMap, s: nat, w: Trie)
    requires CanUnlink(v, m, bits, s, 0) && |QueueAt(m.ring, s)| == 1 && w.sizes == v.sizes - {s}
    requires forall p | !Held(v, m, p) :: SameFields(v, w, p)
    ensures Unlinks(v, m, w, m, s, 0)
  {
    var q := QueueAt(m.ring, s);
    assert Removed(q, 0) == [];
    forall p {:trigger FieldsOf(w, m, p) == FieldsOf(v, m, p)} | !Held(v, m, p)
      ensures FieldsOf(w, m, p) == FieldsOf(v, m, p)
    {
      assert SameFields(v, w, p);
    }
  }

  lemma HeadFrame(v: Trie, m: Lists, bits: BinMap, s: nat)
    requires CanUnlink(v, m, bits, s, 0) && |QueueAt(m.ring, s)| > 1 && CanReplace(v, s, QueueAt(m.ring, s)[1], s)
    ensures forall p | !Held(v, m, p) :: SameFields(v, Replace(v, s, QueueAt(m.ring, s)[1], s), p)
  {
    var r := QueueAt(m.ring, s)[1];
    MemberHeld(v, m, bits, s, 1);
    forall p {:trigger SameFields(v, Replace(v, s, r, s), p)} | !Held(v, m, p)
      ensures SameFields(v, Replace(v, s, r, s), p)
    {
      if IsNode(v, p) {
        NodeHeld(v, m, bits, p);
      }
      ReplaceFrame(v, s, r, s, p);
    }
  }

  lemma LeafFrame(v: Trie, m: Lists, bits: BinMap, s: nat)
    requires CanUnlink(v, m, bits, s, 0)
    ensures forall p | !Held(v, m, p) :: SameFields(v, Detach(v, s), p)
  {
    forall p {:trigger SameFields(v, Detach(v, s), p)} | !Held(v, m, p) ensures SameFields(v, Detach(v, s), p) {
      if IsNode(v, p) {
        NodeHeld(v, m, bits, p);
      }
      DetachFrame(v, s, p);
    }
  }

  lemma InnerFrame(v: Trie, m: Lists, bits: BinMap, s: nat, u: nat)
    requires StateOk(v, m, bits) && s in v.sizes && u in v.sizes && CanReplace(Detach(v, u), s, At(v.node, u), u)
    ensures forall p | !Held(v, m, p) :: SameFields(v, Replace(Detach(v, u), s, At(v.node, u), u), p)
  {
    var d, r := Detach(v, u), At(v.node, u);
    SetSlotKeeps(v, u, NULL);
    AtNode(v, u);
    NodeHeld(v, m, bits, r);
    forall p {:trigger SameFields(v, Replace(d, s, r, u), p)} | !Held(v, m, p)
      ensures SameFields(v, Replace(d, s, r, u), p)
    {
      if IsNode(v, p) {
        NodeHeld(v, m, bits, p);
      }
      DetachFrame(v, u, p);
      ReplaceFrame(d, s, r, u, p);
    }
  }
}
