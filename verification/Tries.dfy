/** The tries of large free chunks as values: what the links in memory must look like, and what
    linking and unlinking a node does to them.

    There is one node for each size.  A node sits in a cell, which is the path that leads to it: the
    treebin and the sides taken on the way down. */
module Tries {
  import opened Config

  datatype Cell = Top(bin: int) | Down(up: Cell, side: int)
  type Cells = imap<int, Cell>

  function CellAt(m: Cells, s: int): Cell {
    if s in m then m[s] else Top(-1)
  }

  function PutCell(m: Cells, s: int, c: Cell): Cells {
    m[s := c]
  }

  datatype Trie = Trie(
    sizes: set<int>,                              // the sizes that have a node
    node: Words, size: Words,                     // size -> node, and back
    cell: Cells,                                  // size -> cell
    root: Words,                                  // treebins[]
    child0: Words, child1: Words, parent: Words)  // fields of tree chunks

  /** Address of treebin i itself, which is the parent of its root node. */
  function Header(i: int): Addr {
    -1 - i
  }

  function Child(v: Trie, p: Addr, b: int): Addr {
    if b == 0 then At(v.child0, p) else At(v.child1, p)
  }

  ghost predicate IsNode(v: Trie, p: Addr) {
    At(v.size, p) in v.sizes && At(v.node, At(v.size, p)) == p && p > 0
  }

  /** The cell of size u is the child of the cell of size s on side b. */
  predicate Below(v: Trie, s: int, u: int, b: int) {
    CellAt(v.cell, u) == Down(CellAt(v.cell, s), b)
  }

  ghost predicate ChildOk(v: Trie, s: int, b: int) {
    var p := At(v.node, s);
    var c := Child(v, p, b);
    c != NULL ==> IsNode(v, c) && Below(v, s, At(v.size, c), b) && At(v.parent, c) == p
  }

  ghost predicate ParentOk(v: Trie, s: int) {
    var p := At(v.node, s);
    match CellAt(v.cell, s)
    case Top(i) => At(v.root, i) == p && At(v.parent, p) == Header(i)
    case Down(c, b) =>
      var q := At(v.parent, p);
      IsNode(v, q) && CellAt(v.cell, At(v.size, q)) == c && Child(v, q, b) == p
  }

  function TopBin(v: Trie, s: int): int {
    if CellAt(v.cell, s).Top? then CellAt(v.cell, s).bin else 0
  }

  ghost predicate PlaceOk(v: Trie, s: int) {
    && At(v.node, s) > 0 && At(v.size, At(v.node, s)) == s
    && (CellAt(v.cell, s).Top? ==> 0 <= CellAt(v.cell, s).bin < NBINS)
    && (CellAt(v.cell, s).Down? ==> 0 <= CellAt(v.cell, s).side < 2)
  }

  ghost predicate RootOk(v: Trie, i: int) {
    var r := At(v.root, i);
    r != NULL ==> IsNode(v, r) && CellAt(v.cell, At(v.size, r)) == Top(i)
  }

  ghost predicate SameCell(v: Trie, s: int, u: int) {
    CellAt(v.cell, s) == CellAt(v.cell, u)
  }

  ghost predicate Good(v: Trie) {
    && (forall s {:trigger PlaceOk(v, s)} | s in v.sizes :: PlaceOk(v, s))
    && (forall s {:trigger ParentOk(v, s)} | s in v.sizes :: ParentOk(v, s))
    && (forall s, b {:trigger ChildOk(v, s, b)} | s in v.sizes && 0 <= b < 2 :: ChildOk(v, s, b))
    && (forall i {:trigger RootOk(v, i)} | 0 <= i < NBINS :: RootOk(v, i))
    && (forall s, u {:trigger SameCell(v, s, u)} | s in v.sizes && u in v.sizes && SameCell(v, s, u) :: s == u)
  }

  /** Everything that a node's own fields promise. */
  lemma AtNode(v: Trie, s: int)
    requires Good(v) && s in v.sizes
    ensures PlaceOk(v, s) && ParentOk(v, s) && ChildOk(v, s, 0) && ChildOk(v, s, 1)
    ensures IsNode(v, At(v.node, s))
  {
    Recall(PlaceOk(v, s));
    Recall(ParentOk(v, s));
    Recall(ChildOk(v, s, 0));
    Recall(ChildOk(v, s, 1));
  }

  function SetChild(v: Trie, p: Addr, b: int, c: Addr): Trie {
    if b == 0 then v.(child0 := Put(v.child0, p, c)) else v.(child1 := Put(v.child1, p, c))
  }

  // ---- adding a node ----

  ghost predicate SlotKept(v: Trie, w: Trie, x: Addr, s: int, a: int, b: int) {
    var p := At(v.node, a);
    || Child(w, p, b) == Child(v, p, b)
    || (Child(v, p, b) == NULL && Child(w, p, b) == x && At(w.parent, x) == p && Below(w, a, s, b))
  }

  ghost predicate SameCellIn(v: Trie, w: Trie, s: int, u: int) {
    CellAt(w.cell, u) == CellAt(v.cell, s)
  }

  /** The node of size a keeps its place, but x may hang below it now. */
  ghost predicate Kept(v: Trie, w: Trie, x: Addr, s: int, a: int) {
    var p := At(v.node, a);
    && At(w.node, a) == p && At(w.size, p) == a && SameCellIn(v, w, a, a)
    && At(w.parent, p) == At(v.parent, p)
    && SlotKept(v, w, x, s, a, 0) && SlotKept(v, w, x, s, a, 1)
  }

  ghost predicate RootKept(v: Trie, w: Trie, x: Addr, s: int, i: int) {
    || At(w.root, i) == At(v.root, i)
    || (At(v.root, i) == NULL && At(w.root, i) == x && CellAt(w.cell, s) == Top(i))
  }

  /** w is v with one more leaf x, of size s. */
  ghost predicate Extended(v: Trie, w: Trie, x: Addr, s: int) {
    && Good(v) && s !in v.sizes && w.sizes == v.sizes + {s}
    && IsNode(w, x) && At(w.size, x) == s && At(w.child0, x) == At(w.child1, x) == NULL
    && PlaceOk(w, s) && ParentOk(w, s)
    && (forall a {:trigger Kept(v, w, x, s, a)} | a in v.sizes :: Kept(v, w, x, s, a))
    && (forall a {:trigger SameCell(w, a, s)} | a in v.sizes :: !SameCell(w, a, s))
    && (forall i {:trigger RootKept(v, w, x, s, i)} | 0 <= i < NBINS :: RootKept(v, w, x, s, i))
  }

  lemma ExtendedGood(v: Trie, w: Trie, x: Addr, s: int)
    requires Extended(v, w, x, s)
    ensures Good(w)
  {
    forall a {:trigger PlaceOk(w, a)} | a in w.sizes ensures PlaceOk(w, a) {
      Recall(PlaceOk(v, a));
      Recall(Kept(v, w, x, s, a));
    }
    forall a {:trigger ParentOk(w, a)} | a in w.sizes ensures ParentOk(w, a) {
      if a != s {
        ExtendedParent(v, w, x, s, a);
      }
    }
    forall a, b {:trigger ChildOk(w, a, b)} | a in w.sizes && 0 <= b < 2 ensures ChildOk(w, a, b) {
      if a != s {
        ExtendedChild(v, w, x, s, a, b);
      }
    }
    ExtendedRest(v, w, x, s);
  }

  lemma ExtendedRest(v: Trie, w: Trie, x: Addr, s: int)
    requires Extended(v, w, x, s)
    ensures forall i {:trigger RootOk(w, i)} | 0 <= i < NBINS :: RootOk(w, i)
    ensures forall a, d {:trigger SameCell(w, a, d)} | a in w.sizes && d in w.sizes && SameCell(w, a, d) :: a == d
  {
    forall i {:trigger RootOk(w, i)} | 0 <= i < NBINS ensures RootOk(w, i) {
      Recall(RootOk(v, i));
      Recall(RootKept(v, w, x, s, i));
      Recall(Kept(v, w, x, s, At(v.size, At(v.root, i))));
    }
    forall a, d | a in w.sizes && d in w.sizes && SameCell(w, a, d) ensures a == d {
      Recall(Kept(v, w, x, s, a));
      Recall(Kept(v, w, x, s, d));
      Recall(SameCell(v, a, d));
      Recall(SameCell(w, a, s));
      Recall(SameCell(w, d, s));
    }
  }

  lemma ExtendedParent(v: Trie, w: Trie, x: Addr, s: int, a: int)
    requires Extended(v, w, x, s) && a in v.sizes
    ensures ParentOk(w, a)
  {
    Recall(PlaceOk(v, a));
    Recall(ParentOk(v, a));
    Recall(Kept(v, w, x, s, a));
    Recall(Kept(v, w, x, s, At(v.size, At(v.parent, At(v.node, a)))));
    Recall(RootKept(v, w, x, s, TopBin(v, a)));
  }

  lemma ExtendedChild(v: Trie, w: Trie, x: Addr, s: int, a: int, b: int)
    requires Extended(v, w, x, s) && a in v.sizes && 0 <= b < 2
    ensures ChildOk(w, a, b)
  {
    Recall(PlaceOk(v, a));
    Recall(ChildOk(v, a, b));
    Recall(Kept(v, w, x, s, a));
    Recall(Kept(v, w, x, s, At(v.size, Child(v, At(v.node, a), b))));
  }

  // ---- a node for a bin without one ----

  /** x becomes the root of bin i. */
  function AddRoot(v: Trie, x: Addr, s: int, i: int): Trie {
    v.(sizes := v.sizes + {s}, root := Put(v.root, i, x),
       node := Put(v.node, s, x), size := Put(v.size, x, s), cell := PutCell(v.cell, s, Top(i)),
       parent := Put(v.parent, x, Header(i)), child0 := Put(v.child0, x, NULL), child1 := Put(v.child1, x, NULL))
  }

  ghost predicate CanAddRoot(v: Trie, x: Addr, s: int, i: int) {
    Good(v) && x > 0 && !IsNode(v, x) && s !in v.sizes && 0 <= i < NBINS && At(v.root, i) == NULL
  }

  lemma AddRootGood(v: Trie, x: Addr, s: int, i: int)
    requires CanAddRoot(v, x, s, i)
    ensures Good(AddRoot(v, x, s, i))
  {
    var w := AddRoot(v, x, s, i);
    forall a {:trigger Kept(v, w, x, s, a)} | a in v.sizes ensures Kept(v, w, x, s, a) {
      Recall(PlaceOk(v, a));
    }
    forall a | a in v.sizes ensures !SameCell(w, a, s) {
      Recall(ParentOk(v, a));
      Recall(PlaceOk(v, a));
    }
    forall j {:trigger RootKept(v, w, x, s, j)} | 0 <= j < NBINS ensures RootKept(v, w, x, s, j) {
      Recall(RootOk(v, j));
    }
    ExtendedGood(v, w, x, s);
  }

  // ---- a node for a free child slot ----

  /** x becomes a leaf, in the empty slot b of the node of size t. */
  function AddLeaf(v: Trie, x: Addr, s: int, t: int, b: int): Trie {
    SetChild(v.(
      sizes := v.sizes + {s}, node := Put(v.node, s, x), size := Put(v.size, x, s),
      cell := PutCell(v.cell, s, Down(CellAt(v.cell, t), b)), parent := Put(v.parent, x, At(v.node, t)),
      child0 := Put(v.child0, x, NULL), child1 := Put(v.child1, x, NULL)), At(v.node, t), b, x)
  }

  ghost predicate CanAddLeaf(v: Trie, x: Addr, s: int, t: int, b: int) {
    && Good(v) && x > 0 && !IsNode(v, x) && s !in v.sizes && t in v.sizes && 0 <= b < 2
    && Child(v, At(v.node, t), b) == NULL
  }

  lemma AddLeafGood(v: Trie, x: Addr, s: int, t: int, b: int)
    requires CanAddLeaf(v, x, s, t, b)
    ensures Good(AddLeaf(v, x, s, t, b))
  {
    hide AddLeaf, Kept, RootKept, SameCell, PlaceOk, ParentOk, IsNode;
    var w := AddLeaf(v, x, s, t, b);
    forall a {:trigger Kept(v, w, x, s, a)} | a in v.sizes ensures Kept(v, w, x, s, a) {
      AddLeafKeeps(v, x, s, t, b, a);
    }
    AddLeafApart(v, x, s, t, b);
    AddLeafRoots(v, x, s, t, b);
    AddLeafSelf(v, x, s, t, b);
    ExtendedGood(v, w, x, s);
  }

  lemma AddLeafRoots(v: Trie, x: Addr, s: int, t: int, b: int)
    requires CanAddLeaf(v, x, s, t, b)
    ensures forall j {:trigger RootKept(v, AddLeaf(v, x, s, t, b), x, s, j)} | 0 <= j < NBINS ::
      RootKept(v, AddLeaf(v, x, s, t, b), x, s, j)
  {
  }

  lemma AddLeafApart(v: Trie, x: Addr, s: int, t: int, b: int)
    requires CanAddLeaf(v, x, s, t, b)
    ensures forall a | a in v.sizes :: !SameCell(AddLeaf(v, x, s, t, b), a, s)
  {
    forall a | a in v.sizes ensures !SameCell(AddLeaf(v, x, s, t, b), a, s) {
      LeafCellIsFree(v, x, s, t, b, a);
    }
  }

  lemma LeafCellIsFree(v: Trie, x: Addr, s: int, t: int, b: int, a: int)
    requires CanAddLeaf(v, x, s, t, b) && a in v.sizes
    ensures CellAt(v.cell, a) != Down(CellAt(v.cell, t), b)
  {
    Recall(ParentOk(v, a));
    Recall(PlaceOk(v, a));
    Recall(SameCell(v, At(v.size, At(v.parent, At(v.node, a))), t));
  }

  lemma AddLeafSelf(v: Trie, x: Addr, s: int, t: int, b: int)
    requires CanAddLeaf(v, x, s, t, b)
    ensures var w := AddLeaf(v, x, s, t, b);
      && PlaceOk(w, s) && ParentOk(w, s) && w.sizes == v.sizes + {s}
      && IsNode(w, x) && At(w.size, x) == s && At(w.child0, x) == At(w.child1, x) == NULL
  {
    assert PlaceOk(v, t) && !IsNode(v, x);
    hide Good, AddLeaf, At, CellAt, PlaceOk;
    var r := At(v.node, t);
    assert x != r && At(v.size, r) == t;
    AddLeafFields(v, x, s, t, b, t, r);
    AddLeafOwn(v, x, s, t, b);
  }

  lemma AddLeafOwn(v: Trie, x: Addr, s: int, t: int, b: int)
    requires x != At(v.node, t)
    ensures var w := AddLeaf(v, x, s, t, b);
      At(w.node, s) == x && At(w.size, x) == s && At(w.child0, x) == At(w.child1, x) == NULL && w.sizes == v.sizes + {s}
  {
    var r := At(v.node, t);
    hide At, Put, CellAt, PutCell;
    AtPut(v.node, s, x, s);
    AtPut(v.size, x, s, x);
    AtPut(v.child0, x, NULL, x);
    AtPut(v.child1, x, NULL, x);
    AtPut(Put(v.child0, x, NULL), r, x, x);
    AtPut(Put(v.child1, x, NULL), r, x, x);
  }

  lemma AddLeafFields(v: Trie, x: Addr, s: int, t: int, b: int, a: int, p: Addr)
    requires p != x && a != s
    ensures var w, r := AddLeaf(v, x, s, t, b), At(v.node, t);
      && At(w.node, a) == At(v.node, a) && CellAt(w.cell, a) == CellAt(v.cell, a)
      && At(w.size, p) == At(v.size, p) && At(w.parent, p) == At(v.parent, p)
      && At(w.parent, x) == r && CellAt(w.cell, s) == Down(CellAt(v.cell, t), b)
  {
    hide At, Put, CellAt, PutCell;
    CellPut(v.cell, s, Down(CellAt(v.cell, t), b), a);
    CellPut(v.cell, s, Down(CellAt(v.cell, t), b), s);
    AtPut(v.node, s, x, a);
    AtPut(v.size, x, s, p);
    AtPut(v.parent, x, At(v.node, t), p);
    AtPut(v.parent, x, At(v.node, t), x);
  }

  lemma AddLeafChild(v: Trie, x: Addr, s: int, t: int, b: int, p: Addr)
    requires p != x && 0 <= b < 2
    ensures var w, r := AddLeaf(v, x, s, t, b), At(v.node, t);
      && Child(w, p, 0) == (if p == r && b == 0 then x else Child(v, p, 0))
      && Child(w, p, 1) == (if p == r && b == 1 then x else Child(v, p, 1))
  {
    var r := At(v.node, t);
    hide At, Put, PutCell;
    AtPut(v.child0, x, NULL, p);
    AtPut(v.child1, x, NULL, p);
    AtPut(Put(v.child0, x, NULL), r, x, p);
    AtPut(Put(v.child1, x, NULL), r, x, p);
  }

  lemma CellPut(m: Cells, a: int, x: Cell, c: int)
    ensures CellAt(PutCell(m, a, x), c) == if c == a then x else CellAt(m, c)
  {
  }

  lemma AtPut(m: Words, a: Addr, x: int, c: Addr)
    ensures At(Put(m, a, x), c) == if c == a then x else At(m, c)
  {
  }

  lemma AddLeafKeeps(v: Trie, x: Addr, s: int, t: int, b: int, a: int)
    requires CanAddLeaf(v, x, s, t, b) && a in v.sizes
    ensures Kept(v, AddLeaf(v, x, s, t, b), x, s, a)
  {
    assert PlaceOk(v, t) && PlaceOk(v, a);
    hide Good, AddLeaf, CellAt, At;
    AddLeafFields(v, x, s, t, b, a, At(v.node, a));
    AddLeafChild(v, x, s, t, b, At(v.node, a));
  }

  // ---- taking a node out, or putting another one in its place ----

  /** The slot that points to the node of size s is set to c. */
  function SetSlot(v: Trie, s: int, c: Addr): Trie {
    match CellAt(v.cell, s)
    case Top(i) => v.(root := Put(v.root, i, c))
    case Down(_, b) => SetChild(v, At(v.parent, At(v.node, s)), b, c)
  }

  /** The leaf of size s leaves the trie. */
  function Detach(v: Trie, s: int): Trie {
    SetSlot(v, s, NULL).(sizes := v.sizes - {s})
  }

  predicate IsLeaf(v: Trie, s: int) {
    At(v.child0, At(v.node, s)) == NULL && At(v.child1, At(v.node, s)) == NULL
  }

  function Adopt(parent: Words, c: Addr, r: Addr): Words {
    if c == NULL then parent else Put(parent, c, r)
  }

  /** r, of size u, takes over the slot, the parent and the children of the node of size s. */
  function Replace(v: Trie, s: int, r: Addr, u: int): Trie {
    var x := At(v.node, s);
    var c0, c1 := At(v.child0, x), At(v.child1, x);
    var w := SetSlot(v, s, r);
    w.(sizes := v.sizes - {s} + {u}, node := Put(v.node, u, r), size := Put(v.size, r, u),
       cell := PutCell(v.cell, u, CellAt(v.cell, s)),
       child0 := if c0 == NULL then w.child0 else Put(w.child0, r, c0),
       child1 := if c1 == NULL then w.child1 else Put(w.child1, r, c1),
       parent := Adopt(Adopt(Put(v.parent, r, At(v.parent, x)), c0, r), c1, r))
  }

  ghost predicate CanReplace(v: Trie, s: int, r: Addr, u: int) {
    && Good(v) && s in v.sizes && r > 0 && !IsNode(v, r) && (u == s || u !in v.sizes)
    && At(v.child0, r) == At(v.child1, r) == NULL
  }

  function Rename(c: Addr, x: Addr, r: Addr): Addr {
    if c == x then r else c
  }

  /** The node of size a keeps its place and sees r where it saw x. */
  ghost predicate Renamed(v: Trie, w: Trie, x: Addr, r: Addr, a: int) {
    var p := At(v.node, a);
    && At(w.node, a) == p && At(w.size, p) == a && SameCellIn(v, w, a, a)
    && At(w.parent, p) == Rename(At(v.parent, p), x, r)
    && At(w.child0, p) == Rename(At(v.child0, p), x, r)
    && At(w.child1, p) == Rename(At(v.child1, p), x, r)
  }

  ghost predicate RootRenamed(v: Trie, w: Trie, x: Addr, r: Addr, i: int) {
    At(w.root, i) == Rename(At(v.root, i), x, r)
  }

  /** w is v with r, of size u, for the node of size s; with nothing in its place if r is null. */
  ghost predicate Substituted(v: Trie, w: Trie, s: int, r: Addr, u: int) {
    var x := At(v.node, s);
    && Good(v) && s in v.sizes && (u == s || u !in v.sizes)
    && (forall a {:trigger Renamed(v, w, x, r, a)} | a in v.sizes - {s} :: Renamed(v, w, x, r, a))
    && (forall i {:trigger RootRenamed(v, w, x, r, i)} | 0 <= i < NBINS :: RootRenamed(v, w, x, r, i))
    && if r == NULL then w.sizes == v.sizes - {s} && IsLeaf(v, s)
       else
         && w.sizes == v.sizes - {s} + {u} && !IsNode(v, r)
         && IsNode(w, r) && At(w.size, r) == u && SameCellIn(v, w, s, u)
         && At(w.parent, r) == At(v.parent, x)
         && At(w.child0, r) == At(v.child0, x) && At(w.child1, r) == At(v.child1, x)
  }

  lemma DetachGood(v: Trie, s: int)
    requires Good(v) && s in v.sizes && IsLeaf(v, s)
    ensures Good(Detach(v, s))
  {
    var w, x := Detach(v, s), At(v.node, s);
    forall a | a in v.sizes - {s} ensures Renamed(v, w, x, NULL, a) {
      DetachRenames(v, s, a);
    }
    forall i {:trigger RootRenamed(v, w, x, NULL, i)} | 0 <= i < NBINS ensures RootRenamed(v, w, x, NULL, i) {
      SlotOfRoot(v, s, NULL, i);
    }
    SubstitutedGood(v, w, s, NULL, s);
  }

  lemma ReplaceGood(v: Trie, s: int, r: Addr, u: int)
    requires CanReplace(v, s, r, u)
    ensures Good(Replace(v, s, r, u))
  {
    var w, x := Replace(v, s, r, u), At(v.node, s);
    forall a | a in v.sizes - {s} ensures Renamed(v, w, x, r, a) {
      ReplaceRenames(v, s, r, u, a);
    }
    forall i {:trigger RootRenamed(v, w, x, r, i)} | 0 <= i < NBINS ensures RootRenamed(v, w, x, r, i) {
      SlotOfRoot(v, s, r, i);
    }
    ReplaceSelf(v, s, r, u);
    SubstitutedGood(v, w, s, r, u);
  }

  lemma SlotOfRoot(v: Trie, s: int, c: Addr, i: int)
    requires Good(v) && s in v.sizes && 0 <= i < NBINS
    ensures At(SetSlot(v, s, c).root, i) == Rename(At(v.root, i), At(v.node, s), c)
  {
    Recall(PlaceOk(v, s));
    Recall(ParentOk(v, s));
    Recall(RootOk(v, i));
  }

  /** Only one slot points to the node of size s. */
  lemma SlotOfSide(v: Trie, s: int, c: Addr, a: int, b: int)
    requires Good(v) && s in v.sizes && a in v.sizes && 0 <= b < 2
    ensures var p, x := At(v.node, a), At(v.node, s);
      Child(SetSlot(v, s, c), p, b) == Rename(Child(v, p, b), x, c)
  {
    Recall(PlaceOk(v, s));
    Recall(ParentOk(v, s));
    Recall(PlaceOk(v, a));
    Recall(ChildOk(v, a, b));
  }

  lemma SlotOfChild(v: Trie, s: int, c: Addr, a: int)
    requires Good(v) && s in v.sizes && a in v.sizes
    ensures var p, x := At(v.node, a), At(v.node, s);
      && At(SetSlot(v, s, c).child0, p) == Rename(At(v.child0, p), x, c)
      && At(SetSlot(v, s, c).child1, p) == Rename(At(v.child1, p), x, c)
  {
    hide Good, SetSlot, Rename;
    SlotOfSide(v, s, c, a, 0);
    SlotOfSide(v, s, c, a, 1);
  }

  lemma ParentIs(v: Trie, s: int, a: int)
    requires Good(v) && s in v.sizes && a in v.sizes
    ensures var p, x := At(v.node, a), At(v.node, s);
      At(v.parent, p) == x <==> At(v.child0, x) == p || At(v.child1, x) == p
  {
    Recall(PlaceOk(v, s));
    Recall(PlaceOk(v, a));
    Recall(ParentOk(v, a));
    Recall(ChildOk(v, s, 0));
    Recall(ChildOk(v, s, 1));
  }

  lemma DetachRenames(v: Trie, s: int, a: int)
    requires Good(v) && s in v.sizes && IsLeaf(v, s) && a in v.sizes - {s}
    ensures Renamed(v, Detach(v, s), At(v.node, s), NULL, a)
  {
    SlotOfChild(v, s, NULL, a);
    SetSlotKeeps(v, s, NULL);
    assert At(v.parent, At(v.node, a)) != At(v.node, s) by {
      ParentIs(v, s, a);
      Recall(PlaceOk(v, a));
    }
    assert At(v.size, At(v.node, a)) == a by {
      Recall(PlaceOk(v, a));
    }
  }

  lemma SetSlotKeeps(v: Trie, s: int, c: Addr)
    ensures var w := SetSlot(v, s, c);
      w.sizes == v.sizes && w.node == v.node && w.size == v.size && w.cell == v.cell && w.parent == v.parent
  {
    var w := SetSlot(v, s, c);
    assert w == v.(root := w.root, child0 := w.child0, child1 := w.child1);
  }

  lemma ReplaceRenames(v: Trie, s: int, r: Addr, u: int, a: int)
    requires CanReplace(v, s, r, u) && a in v.sizes - {s}
    ensures Renamed(v, Replace(v, s, r, u), At(v.node, s), r, a)
  {
    SlotOfChild(v, s, r, a);
    ParentIs(v, s, a);
    Recall(PlaceOk(v, a));
  }

  lemma ReplaceSelf(v: Trie, s: int, r: Addr, u: int)
    requires CanReplace(v, s, r, u)
    ensures var w, x := Replace(v, s, r, u), At(v.node, s);
      && IsNode(w, r) && At(w.size, r) == u && SameCellIn(v, w, s, u)
      && At(w.parent, r) == At(v.parent, x)
      && At(w.child0, r) == At(v.child0, x) && At(w.child1, r) == At(v.child1, x)
  {
    AtNode(v, s);
  }

  lemma SubstitutedGood(v: Trie, w: Trie, s: int, r: Addr, u: int)
    requires Substituted(v, w, s, r, u)
    ensures Good(w)
  {
    var x := At(v.node, s);
    Recall(PlaceOk(v, s));
    forall a {:trigger PlaceOk(w, a)} | a in w.sizes ensures PlaceOk(w, a) {
      Recall(PlaceOk(v, a));
      Recall(Renamed(v, w, x, r, a));
    }
    forall a {:trigger ParentOk(w, a)} | a in w.sizes ensures ParentOk(w, a) {
      if a in v.sizes - {s} {
        SubstitutedParent(v, w, s, r, u, a);
      } else {
        SubstitutedSelf(v, w, s, r, u);
      }
    }
    forall a, b {:trigger ChildOk(w, a, b)} | a in w.sizes && 0 <= b < 2 ensures ChildOk(w, a, b) {
      if a in v.sizes - {s} {
        SubstitutedChild(v, w, s, r, u, a, b);
      } else {
        SubstitutedSelf(v, w, s, r, u);
      }
    }
    SubstitutedRest(v, w, s, r, u);
  }

  lemma SubstitutedRest(v: Trie, w: Trie, s: int, r: Addr, u: int)
    requires Substituted(v, w, s, r, u)
    ensures forall i {:trigger RootOk(w, i)} | 0 <= i < NBINS :: RootOk(w, i)
    ensures forall a, d {:trigger SameCell(w, a, d)} | a in w.sizes && d in w.sizes && SameCell(w, a, d) :: a == d
  {
    var x := At(v.node, s);
    Recall(PlaceOk(v, s));
    forall i {:trigger RootOk(w, i)} | 0 <= i < NBINS ensures RootOk(w, i) {
      Recall(RootOk(v, i));
      Recall(RootRenamed(v, w, x, r, i));
      Recall(Renamed(v, w, x, r, At(v.size, At(v.root, i))));
    }
    forall a, d | a in w.sizes && d in w.sizes && SameCell(w, a, d) ensures a == d {
      Recall(Renamed(v, w, x, r, a));
      Recall(Renamed(v, w, x, r, d));
      Recall(SameCell(v, a, d));
      Recall(SameCell(v, a, s));
      Recall(SameCell(v, d, s));
    }
  }

  lemma SubstitutedParent(v: Trie, w: Trie, s: int, r: Addr, u: int, a: int)
    requires Substituted(v, w, s, r, u) && a in v.sizes - {s}
    ensures ParentOk(w, a)
  {
    var x := At(v.node, s);
    Recall(PlaceOk(v, s));
    Recall(PlaceOk(v, a));
    Recall(ParentOk(v, a));
    Recall(Renamed(v, w, x, r, a));
    Recall(Renamed(v, w, x, r, At(v.size, At(v.parent, At(v.node, a)))));
    Recall(RootRenamed(v, w, x, r, TopBin(v, a)));
  }

  lemma SubstitutedChild(v: Trie, w: Trie, s: int, r: Addr, u: int, a: int, b: int)
    requires Substituted(v, w, s, r, u) && a in v.sizes - {s} && 0 <= b < 2
    ensures ChildOk(w, a, b)
  {
    var x := At(v.node, s);
    Recall(PlaceOk(v, s));
    Recall(PlaceOk(v, a));
    Recall(ChildOk(v, a, b));
    Recall(Renamed(v, w, x, r, a));
    Recall(Renamed(v, w, x, r, At(v.size, Child(v, At(v.node, a), b))));
  }

  lemma SubstitutedSelf(v: Trie, w: Trie, s: int, r: Addr, u: int)
    requires Substituted(v, w, s, r, u) && r != NULL
    ensures ParentOk(w, u) && ChildOk(w, u, 0) && ChildOk(w, u, 1)
  {
    var x := At(v.node, s);
    AtNode(v, s);
    Recall(Renamed(v, w, x, r, At(v.size, At(v.parent, x))));
    Recall(Renamed(v, w, x, r, At(v.size, At(v.child0, x))));
    Recall(Renamed(v, w, x, r, At(v.size, At(v.child1, x))));
    Recall(RootRenamed(v, w, x, r, TopBin(v, s)));
  }
}
