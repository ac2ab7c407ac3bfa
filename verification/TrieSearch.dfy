/** Sizes in the tries: a size lies below the cell that its own leading bits spell, so that the
    position of a node tells how its size compares with others. */
module TrieSearch {
  import opened Config
  import opened Prefixes
  import opened TreeIndex
  import opened Tries

  predicate LargeSize(s: int) {
    MIN_LARGE <= s < MOD
  }

  /** Number of low bits that the path to a cell leaves open. */
  function Rem(c: Cell): int {
    match c
    case Top(i) => if 0 <= i < NBINS then TopBits(i) else 0
    case Down(u, _) => Rem(u) - 1
  }

  /** The leading bits of s spell the path to c. */
  predicate OnPath(s: nat, c: Cell) {
    match c
    case Top(i) => Index(s) == i
    case Down(u, b) => OnPath(s, u) && Rem(u) > 0 && Bit(s, Rem(u) - 1) == b
  }

  /** d is c or lies below it. */
  predicate Under(c: Cell, d: Cell) {
    d == c || (d.Down? && Under(c, d.up))
  }

  predicate Fits(v: Trie, s: int) {
    LargeSize(s) && OnPath(s, CellAt(v.cell, s))
  }

  ghost predicate Sorted(v: Trie) {
    Good(v) && forall s {:trigger Fits(v, s)} | s in v.sizes :: Fits(v, s)
  }

  lemma {:induction false} OnPathRem(s: nat, c: Cell)
    requires OnPath(s, c)
    ensures 0 <= Rem(c) <= TopBits(Index(s))
  {
    if c.Down? {
      OnPathRem(s, c.up);
    }
  }

  lemma {:induction false} UnderOnPath(s: nat, c: Cell, d: Cell)
    requires OnPath(s, d) && Under(c, d)
    ensures OnPath(s, c)
  {
    if d != c {
      UnderOnPath(s, c, d.up);
    }
  }

  lemma {:induction false} UnderTop(s: nat, d: Cell)
    requires OnPath(s, d)
    ensures Under(Top(Index(s)), d)
  {
    if d.Down? {
      UnderTop(s, d.up);
    }
  }

  lemma {:induction false} UnderTrans(c: Cell, d: Cell, e: Cell)
    requires Under(c, d) && Under(d, e)
    ensures Under(c, e)
  {
    if d != e {
      UnderTrans(c, d, e.up);
    }
  }

  lemma {:induction false} UnderLength(c: Cell, d: Cell)
    requires Under(c, d)
    ensures Length(c) <= Length(d)
  {
    if d != c {
      UnderLength(c, d.up);
    }
  }

  function Length(c: Cell): nat {
    match c
    case Top(_) => 0
    case Down(u, _) => 1 + Length(u)
  }

  lemma DeeperDiffers(c: Cell, d: Cell, b: int)
    requires Under(c, d)
    ensures Under(c, Down(d, b)) && Down(d, b) != c
  {
    UnderLength(c, d);
  }

  /** Sizes on one path agree on everything but the open bits. */
  lemma {:induction false} PathPrefix(s: nat, t: nat, c: Cell)
    requires LargeSize(s) && LargeSize(t) && OnPath(s, c) && OnPath(t, c)
    ensures Rem(c) >= 0 && Prefix(s, Rem(c)) == Prefix(t, Rem(c))
  {
    if c.Top? {
      SameRoot(s, t);
    } else {
      PathPrefix(s, t, c.up);
    }
  }

  /** Everything on the left of a cell is smaller than everything on its right. */
  lemma SideOrder(s: nat, t: nat, c: Cell)
    requires LargeSize(s) && LargeSize(t) && OnPath(s, Down(c, 0)) && OnPath(t, Down(c, 1))
    ensures s < t
  {
    PathPrefix(s, t, c);
    PrefixMono(s, t, Rem(c) - 1);
  }

  /** The cells above a node are all occupied. */
  lemma {:induction false} Ancestor(v: Trie, s: int, c: Cell) returns (a: int)
    requires Good(v) && s in v.sizes && Under(c, CellAt(v.cell, s))
    ensures a in v.sizes && CellAt(v.cell, a) == c
    decreases CellAt(v.cell, s)
  {
    a := s;
    if CellAt(v.cell, s) != c {
      Recall(ParentOk(v, s));
      a := Ancestor(v, At(v.size, At(v.parent, At(v.node, s))), c);
    }
  }

  /** From a node, the link on the side of a size below it leads towards that size. */
  lemma Descend(v: Trie, t: int, s: int) returns (b: int, u: int)
    requires Good(v) && t in v.sizes && s in v.sizes && s != t && Under(CellAt(v.cell, t), CellAt(v.cell, s))
    ensures 0 <= b < 2 && u in v.sizes && CellAt(v.cell, u) == Down(CellAt(v.cell, t), b)
    ensures Under(CellAt(v.cell, u), CellAt(v.cell, s))
    ensures Child(v, At(v.node, t), b) == At(v.node, u) != NULL
  {
    Recall(SameCell(v, s, t));
    var d := FirstStep(CellAt(v.cell, t), CellAt(v.cell, s));
    u := Ancestor(v, s, d);
    b := d.side;
    Recall(ParentOk(v, u));
    Recall(PlaceOk(v, u));
    var q := At(v.size, At(v.parent, At(v.node, u)));
    Recall(SameCell(v, q, t));
  }

  lemma {:induction false} FirstStep(c: Cell, d: Cell) returns (e: Cell)
    requires Under(c, d) && c != d
    ensures e.Down? && e.up == c && Under(e, d)
  {
    e := d;
    if d.up != c {
      e := FirstStep(c, d.up);
    }
  }

  // ---- links keep the tries sorted ----

  lemma AddRootSorted(v: Trie, x: Addr, s: nat)
    requires Sorted(v) && LargeSize(s) && CanAddRoot(v, x, s, Index(s))
    ensures Sorted(AddRoot(v, x, s, Index(s)))
  {
    AddRootGood(v, x, s, Index(s));
    var w := AddRoot(v, x, s, Index(s));
    forall u {:trigger Fits(w, u)} | u in w.sizes ensures Fits(w, u) {
      Recall(Fits(v, u));
    }
  }

  lemma AddLeafSorted(v: Trie, x: Addr, s: nat, t: int, b: int)
    requires Sorted(v) && LargeSize(s) && CanAddLeaf(v, x, s, t, b) && OnPath(s, Down(CellAt(v.cell, t), b))
    ensures Sorted(AddLeaf(v, x, s, t, b))
  {
    AddLeafGood(v, x, s, t, b);
    var w := AddLeaf(v, x, s, t, b);
    forall u {:trigger Fits(w, u)} | u in w.sizes ensures Fits(w, u) {
      Recall(Fits(v, u));
    }
  }

  lemma DetachSorted(v: Trie, s: int)
    requires Sorted(v) && s in v.sizes && IsLeaf(v, s)
    ensures Sorted(Detach(v, s))
  {
    DetachGood(v, s);
    SetSlotKeeps(v, s, NULL);
    var w := Detach(v, s);
    forall u {:trigger Fits(w, u)} | u in w.sizes ensures Fits(w, u) {
      Recall(Fits(v, u));
    }
  }

  lemma ReplaceSorted(v: Trie, s: int, r: Addr, u: nat)
    requires Sorted(v) && CanReplace(v, s, r, u) && LargeSize(u) && OnPath(u, CellAt(v.cell, s))
    ensures Sorted(Replace(v, s, r, u))
  {
    ReplaceGood(v, s, r, u);
    SetSlotKeeps(v, s, r);
    var w := Replace(v, s, r, u);
    forall a {:trigger Fits(w, a)} | a in w.sizes ensures Fits(w, a) {
      Recall(Fits(v, a));
    }
  }

  // ---- the descent of an insertion ----

  /** The descent for size s has reached the node of size t. */
  ghost predicate Descending(v: Trie, s: int, t: int) {
    && Sorted(v) && LargeSize(s) && t in v.sizes && OnPath(s, CellAt(v.cell, t))
    && (s in v.sizes ==> Under(CellAt(v.cell, t), CellAt(v.cell, s)))
  }

  /** As long as the sizes differ there are open bits, and the next of them says where to go on. */
  lemma DescentStep(v: Trie, s: int, t: int)
    requires Descending(v, s, t) && s != t
    ensures Rem(CellAt(v.cell, t)) > 0
    ensures var c := CellAt(v.cell, t);
      var b := Bit(s, Rem(c) - 1);
      var p := Child(v, At(v.node, t), b);
      if p != NULL then
        IsNode(v, p) && At(v.size, p) in v.sizes && CellAt(v.cell, At(v.size, p)) == Down(c, b)
        && Descending(v, s, At(v.size, p))
      else s !in v.sizes && OnPath(s, Down(c, b))
  {
    var c := CellAt(v.cell, t);
    Recall(Fits(v, t));
    PathPrefix(s, t, c);
    var b := Bit(s, Rem(c) - 1);
    Recall(ChildOk(v, t, b));
    if s in v.sizes {
      Recall(Fits(v, s));
      var side, u := Descend(v, t, s);
      UnderOnPath(s, CellAt(v.cell, u), CellAt(v.cell, s));
      Recall(PlaceOk(v, u));
    }
  }

  lemma DescentStart(v: Trie, s: int)
    requires Sorted(v) && LargeSize(s)
    ensures var r := At(v.root, Index(s));
      if r != NULL then
        IsNode(v, r) && CellAt(v.cell, At(v.size, r)) == Top(Index(s)) && Descending(v, s, At(v.size, r))
      else forall u: nat | u in v.sizes :: Index(u) != Index(s)
  {
    Recall(RootOk(v, Index(s)));
    forall u: nat | u in v.sizes && Index(u) == Index(s)
      ensures At(v.root, Index(s)) != NULL && Under(Top(Index(s)), CellAt(v.cell, u))
    {
      Recall(Fits(v, u));
      UnderTop(u, CellAt(v.cell, u));
      var a := Ancestor(v, u, Top(Index(s)));
      Recall(ParentOk(v, a));
      Recall(PlaceOk(v, a));
    }
  }

  // ---- the search for the best fit ----

  function CellOf(v: Trie, p: Addr): Cell {
    CellAt(v.cell, At(v.size, p))
  }

  ghost predicate Pending(v: Trie, t: Addr, s: int) {
    t != NULL && Under(CellOf(v, t), CellAt(v.cell, s))
  }

  /** s is larger than every size below cell r. */
  ghost predicate Beyond(v: Trie, r: Cell, s: int) {
    forall u {:trigger CellAt(v.cell, u)} | u in v.sizes && Under(r, CellAt(v.cell, u)) :: u < s
  }

  /** best is the best node seen so far, and rsize is what it leaves over; rsize is -nb, as an
      unsigned number, as long as nothing has been seen that fits. */
  ghost predicate BestSoFar(v: Trie, nb: nat, best: Addr, rsize: nat) {
    && 0 < nb < MOD
    && if best == NULL then rsize == Wrap(0 - nb)
       else IsNode(v, best) && At(v.size, best) == nb + rsize && rsize < Wrap(0 - nb)
  }

  /** A fitting size s is no better than the best one, or still to be seen below t, or in the deepest
      right subtree rst that was left aside, or larger than everything in there. */
  ghost predicate Covered(v: Trie, nb: nat, rsize: nat, t: Addr, rst: Addr, s: int) {
    || rsize <= s - nb
    || Pending(v, t, s)
    || (rst != NULL && (Pending(v, rst, s) || Beyond(v, CellOf(v, rst), s)))
  }

  ghost predicate SideTree(v: Trie, nb: nat, t: Addr, rst: Addr) {
    rst != NULL ==>
      && IsNode(v, rst) && CellOf(v, rst).Down? && CellOf(v, rst).side == 1
      && OnPath(nb, Down(CellOf(v, rst).up, 0)) && Under(Down(CellOf(v, rst).up, 0), CellOf(v, t))
  }

  ghost predicate AllFit(v: Trie, t: Addr, nb: nat) {
    t != NULL ==>
      IsNode(v, t) && forall u {:trigger CellAt(v.cell, u)} |
        u in v.sizes && Under(CellOf(v, t), CellAt(v.cell, u)) :: nb <= u
  }

  /** Comparing remainders as unsigned numbers rejects every size below nb. */
  lemma Visit(v: Trie, nb: nat, best: Addr, rsize: nat, t: Addr)
    requires Sorted(v) && BestSoFar(v, nb, best, rsize) && IsNode(v, t)
    ensures var trem := Wrap(At(v.size, t) - nb);
      if trem < rsize then BestSoFar(v, nb, t, trem)
      else nb <= At(v.size, t) ==> rsize <= At(v.size, t) - nb
    ensures nb <= At(v.size, t) ==> Wrap(At(v.size, t) - nb) == At(v.size, t) - nb
    ensures At(v.size, t) == nb <==> Wrap(At(v.size, t) - nb) == 0
  {
    Recall(Fits(v, At(v.size, t)));
    WrapSub(At(v.size, t), nb);
    WrapSub(0, nb);
  }

  lemma WrapSub(x: nat, y: nat)
    requires x < MOD && y < MOD
    ensures Wrap(x - y) == if y <= x then x - y else MOD + x - y
  {
    if y <= x {
      assert (x - y) % MOD == x - y;
    } else {
      assert (x - y) % MOD == (x - y + MOD) % MOD;
    }
  }

  /** One step down the path of nb leaves no fitting size out. */
  lemma PathStep(v: Trie, nb: nat, rsize: nat, t: Addr, rst: Addr, s: int)
    requires IsNode(v, t) && Descending(v, nb, At(v.size, t)) && At(v.size, t) != nb && SideTree(v, nb, t, rst)
    requires nb <= At(v.size, t) ==> rsize <= At(v.size, t) - nb
    requires s in v.sizes && nb <= s && Covered(v, nb, rsize, t, rst, s)
    ensures Rem(CellOf(v, t)) > 0
    ensures var t1 := Child(v, t, Bit(nb, Rem(CellOf(v, t)) - 1));
      var rt := At(v.child1, t);
      Covered(v, nb, rsize, t1, if rt != NULL && rt != t1 then rt else rst, s)
  {
    var c, b := CellOf(v, t), NextBit(v, nb, t);
    var t1, rt := Child(v, t, b), At(v.child1, t);
    DescentStep(v, nb, At(v.size, t));
    Recall(Fits(v, s));
    if rsize <= s - nb {
    } else if Pending(v, t, s) {
      PendingStep(v, nb, t, s);
    } else if rt != NULL && rt != t1 {
      assert b == 0;
      SideStep(v, nb, t, rst, s);
    }
  }

  function NextBit(v: Trie, nb: nat, t: Addr): nat {
    if Rem(CellOf(v, t)) > 0 then Bit(nb, Rem(CellOf(v, t)) - 1) else 0
  }

  /** A fitting size below t other than t itself is below the next node, or in the right subtree
      that the path passes by. */
  lemma PendingStep(v: Trie, nb: nat, t: Addr, s: int)
    requires IsNode(v, t) && Descending(v, nb, At(v.size, t)) && At(v.size, t) != nb
    requires s in v.sizes && nb <= s && s != At(v.size, t) && Pending(v, t, s)
    ensures var t1 := Child(v, t, NextBit(v, nb, t));
      var rt := At(v.child1, t);
      Pending(v, t1, s) || (rt != NULL && rt != t1 && Pending(v, rt, s))
  {
    var c, b := CellOf(v, t), NextBit(v, nb, t);
    DescentStep(v, nb, At(v.size, t));
    Recall(Fits(v, s));
    var side, u := Descend(v, At(v.size, t), s);
    Recall(PlaceOk(v, u));
    UnderOnPath(s, CellAt(v.cell, u), CellAt(v.cell, s));
    if side != b {
      if side == 0 {
        SideOrder(s, nb, c);
      }
      Recall(ChildOk(v, At(v.size, t), b));
    }
  }

  /** What lies beyond the old side tree lies beyond the new one. */
  lemma SideStep(v: Trie, nb: nat, t: Addr, rst: Addr, s: int)
    requires IsNode(v, t) && Descending(v, nb, At(v.size, t)) && At(v.size, t) != nb && SideTree(v, nb, t, rst)
    requires At(v.child1, t) != NULL && NextBit(v, nb, t) == 0
    requires s in v.sizes && rst != NULL && (Pending(v, rst, s) || Beyond(v, CellOf(v, rst), s))
    ensures Beyond(v, CellOf(v, At(v.child1, t)), s)
  {
    var r, r1 := CellOf(v, rst), CellOf(v, At(v.child1, t));
    Recall(ChildOk(v, At(v.size, t), 1));
    Recall(Fits(v, s));
    Recall(Fits(v, At(v.size, rst)));
    forall u | u in v.sizes && Under(r1, CellAt(v.cell, u)) ensures u < s {
      Recall(Fits(v, u));
      assert Under(CellOf(v, t), r1);
      UnderTrans(Down(r.up, 0), CellOf(v, t), r1);
      UnderTrans(Down(r.up, 0), r1, CellAt(v.cell, u));
      UnderOnPath(u, Down(r.up, 0), CellAt(v.cell, u));
      if Pending(v, rst, s) {
        UnderOnPath(s, r, CellAt(v.cell, s));
        SideOrder(u, s, r.up);
      } else {
        SideOrder(u, At(v.size, rst), r.up);
        assert Under(r, CellOf(v, rst));
      }
    }
  }

  /** The step keeps the invariants of the descent. */
  lemma PathInvariant(v: Trie, nb: nat, t: Addr, rst: Addr)
    requires IsNode(v, t) && Descending(v, nb, At(v.size, t)) && At(v.size, t) != nb && SideTree(v, nb, t, rst)
    ensures var t1 := Child(v, t, NextBit(v, nb, t));
      var rt := At(v.child1, t);
      var r1 := if rt != NULL && rt != t1 then rt else rst;
      && (t1 != NULL ==> IsNode(v, t1) && Descending(v, nb, At(v.size, t1)) && SideTree(v, nb, t1, r1)
                         && Rem(CellOf(v, t1)) == Rem(CellOf(v, t)) - 1)
      && AllFit(v, r1, nb)
      && (r1 != NULL ==> IsNode(v, r1) && At(v.size, r1) >= 0 && Index(At(v.size, r1)) == Index(nb))
  {
    var c, b := CellOf(v, t), NextBit(v, nb, t);
    var t1, rt := Child(v, t, b), At(v.child1, t);
    DescentStep(v, nb, At(v.size, t));
    Recall(ChildOk(v, At(v.size, t), 1));
    if rt != NULL && rt != t1 {
      assert b == 0 && OnPath(nb, Down(c, 0));
      SideTreeFits(v, nb, rt, c);
    } else if rst != NULL {
      SideTreeFits(v, nb, rst, CellOf(v, rst).up);
      if t1 != NULL {
        UnderTrans(Down(CellOf(v, rst).up, 0), c, CellOf(v, t1));
      }
    }
  }

  lemma {:induction false} SharedBin(s: nat, t: nat, c: Cell)
    requires OnPath(s, c) && OnPath(t, c)
    ensures Index(s) == Index(t)
  {
    if c.Down? {
      SharedBin(s, t, c.up);
    }
  }

  lemma SideTreeFits(v: Trie, nb: nat, r: Addr, c: Cell)
    requires Sorted(v) && LargeSize(nb) && IsNode(v, r) && CellOf(v, r) == Down(c, 1) && OnPath(nb, Down(c, 0))
    ensures AllFit(v, r, nb)
    ensures At(v.size, r) >= 0 && Index(At(v.size, r)) == Index(nb)
  {
    Recall(Fits(v, At(v.size, r)));
    SharedBin(At(v.size, r), nb, c);
    forall u | u in v.sizes && Under(Down(c, 1), CellAt(v.cell, u)) ensures nb <= u {
      Recall(Fits(v, u));
      UnderOnPath(u, Down(c, 1), CellAt(v.cell, u));
      SideOrder(nb, u, c);
    }
  }

  /** leftmost_child */
  function Leftmost(v: Trie, t: Addr): Addr {
    if At(v.child0, t) != NULL then At(v.child0, t) else At(v.child1, t)
  }

  /** One step along the leftmost path leaves no fitting size out. */
  lemma LeftStep(v: Trie, nb: nat, rsize: nat, t: Addr, s: int)
    requires Sorted(v) && IsNode(v, t) && AllFit(v, t, nb) && rsize <= At(v.size, t) - nb
    requires s in v.sizes && nb <= s && Covered(v, nb, rsize, t, t, s)
    ensures Covered(v, nb, rsize, Leftmost(v, t), Leftmost(v, t), s)
  {
    var x, c := At(v.size, t), CellOf(v, t);
    Recall(Fits(v, s));
    if Pending(v, t, s) && s != x {
      var side, u := Descend(v, x, s);
      Recall(PlaceOk(v, u));
      UnderOnPath(s, CellAt(v.cell, u), CellAt(v.cell, s));
      if side == 1 && At(v.child0, t) != NULL {
        LeftBelowRight(v, t, s);
      }
    } else if Beyond(v, c, s) {
      assert Under(c, CellAt(v.cell, x));
      assert x < s;
    }
  }

  lemma LeftBelowRight(v: Trie, t: Addr, s: nat)
    requires Sorted(v) && IsNode(v, t) && At(v.child0, t) != NULL
    requires LargeSize(s) && OnPath(s, Down(CellOf(v, t), 1))
    ensures Beyond(v, CellOf(v, At(v.child0, t)), s)
  {
    var c := CellOf(v, t);
    Recall(ChildOk(v, At(v.size, t), 0));
    forall u | u in v.sizes && Under(Down(c, 0), CellAt(v.cell, u)) ensures u < s {
      Recall(Fits(v, u));
      UnderOnPath(u, Down(c, 0), CellAt(v.cell, u));
      SideOrder(u, s, c);
    }
  }

  lemma LeftInvariant(v: Trie, nb: nat, t: Addr)
    requires Sorted(v) && IsNode(v, t) && AllFit(v, t, nb)
    ensures AllFit(v, Leftmost(v, t), nb)
    ensures Rem(CellOf(v, t)) >= 0
    ensures Leftmost(v, t) != NULL ==> Rem(CellOf(v, Leftmost(v, t))) == Rem(CellOf(v, t)) - 1
  {
    Recall(Fits(v, At(v.size, t)));
    OnPathRem(At(v.size, t), CellOf(v, t));
    Recall(ChildOk(v, At(v.size, t), 0));
    Recall(ChildOk(v, At(v.size, t), 1));
    var l := Leftmost(v, t);
    if l != NULL {
      forall u | u in v.sizes && Under(CellOf(v, l), CellAt(v.cell, u)) ensures nb <= u {
        UnderTrans(CellOf(v, t), CellOf(v, l), CellAt(v.cell, u));
      }
    }
  }

  // ---- the search over all bins ----

  /** Every fitting size is accounted for, or the search has already found a perfect fit. */
  ghost predicate AllCovered(v: Trie, nb: nat, rsize: nat, t: Addr) {
    rsize == 0 || (AllFit(v, t, nb) && forall s {:trigger Covered(v, nb, rsize, t, t, s)} | s in v.sizes && nb <= s ::
                     Covered(v, nb, rsize, t, t, s))
  }

  ghost predicate BinCovered(v: Trie, nb: nat, rsize: nat, t: Addr, rst: Addr) {
    forall s: nat {:trigger Covered(v, nb, rsize, t, rst, s)} | s in v.sizes && nb <= s && Index(s) == Index(nb) ::
      Covered(v, nb, rsize, t, rst, s)
  }

  /** At the root of its bin, the path of nb has everything still below it. */
  lemma PathStart(v: Trie, nb: nat)
    requires Sorted(v) && LargeSize(nb) && At(v.root, Index(nb)) != NULL
    ensures BinCovered(v, nb, Wrap(0 - nb), At(v.root, Index(nb)), NULL)
  {
    DescentStart(v, nb);
    forall s: nat {:trigger Pending(v, At(v.root, Index(nb)), s)} | s in v.sizes && nb <= s && Index(s) == Index(nb)
      ensures Pending(v, At(v.root, Index(nb)), s)
    {
      Recall(Fits(v, s));
      UnderTop(s, CellAt(v.cell, s));
    }
  }

  lemma PathCovered(v: Trie, nb: nat, rsize0: nat, rsize: nat, t: Addr, rst: Addr)
    requires IsNode(v, t) && Descending(v, nb, At(v.size, t)) && At(v.size, t) != nb && SideTree(v, nb, t, rst)
    requires rsize <= rsize0 && (nb <= At(v.size, t) ==> rsize <= At(v.size, t) - nb)
    requires BinCovered(v, nb, rsize0, t, rst)
    ensures var t1 := Child(v, t, NextBit(v, nb, t));
      var rt := At(v.child1, t);
      BinCovered(v, nb, rsize, t1, if rt != NULL && rt != t1 then rt else rst)
  {
    var t1, rt := Child(v, t, NextBit(v, nb, t)), At(v.child1, t);
    DescentStep(v, nb, At(v.size, t));
    forall s: nat | s in v.sizes && nb <= s && Index(s) == Index(nb)
      ensures Covered(v, nb, rsize, t1, if rt != NULL && rt != t1 then rt else rst, s)
    {
      Recall(Covered(v, nb, rsize0, t, rst, s));
      PathStep(v, nb, rsize, t, rst, s);
    }
  }

  /** Sizes of later bins are larger than everything in the bin of nb. */
  lemma LaterBin(v: Trie, nb: nat, rsize: nat, t: Addr, best: Addr, s: nat)
    requires Sorted(v) && LargeSize(nb) && BestSoFar(v, nb, best, rsize)
    requires t != NULL ==> IsNode(v, t) && At(v.size, t) >= 0 && Index(At(v.size, t)) == Index(nb)
    requires best != NULL ==> At(v.size, best) >= 0 && Index(At(v.size, best)) == Index(nb)
    requires best != NULL || t != NULL
    requires s in v.sizes && nb <= s && Index(s) != Index(nb)
    ensures Covered(v, nb, rsize, t, t, s)
  {
    Recall(Fits(v, s));
    IndexMono(nb, s);
    if best != NULL {
      Recall(Fits(v, At(v.size, best)));
      if s < At(v.size, best) {
        IndexMono(s, At(v.size, best));
      }
    } else {
      BeyondBin(v, t, Index(nb), s);
    }
  }

  lemma BeyondBin(v: Trie, t: Addr, i: nat, s: nat)
    requires Sorted(v) && IsNode(v, t) && At(v.size, t) >= 0 && Index(At(v.size, t)) == i
    requires s in v.sizes && i < Index(s)
    ensures Beyond(v, CellOf(v, t), s)
  {
    Recall(Fits(v, s));
    assert IsNode(v, t) && At(v.size, t) in v.sizes;
    forall u | u in v.sizes && Under(CellOf(v, t), CellAt(v.cell, u)) ensures u < s {
      Recall(Fits(v, u));
      SameBin(v, At(v.size, t), u);
      if s <= u {
        IndexMono(s, u);
      }
    }
  }

  lemma SameBin(v: Trie, t: nat, u: nat)
    requires Sorted(v) && t in v.sizes && u in v.sizes && Under(CellAt(v.cell, t), CellAt(v.cell, u))
    ensures Index(u) == Index(t)
  {
    Recall(Fits(v, t));
    Recall(Fits(v, u));
    UnderTop(t, CellAt(v.cell, t));
    UnderTrans(Top(Index(t)), CellAt(v.cell, t), CellAt(v.cell, u));
    UnderOnPath(u, Top(Index(t)), CellAt(v.cell, u));
  }

  /** When the path of nb ends, sizes of all bins are accounted for. */
  lemma PathEnd(v: Trie, nb: nat, rsize: nat, t: Addr, best: Addr)
    requires Sorted(v) && LargeSize(nb) && BestSoFar(v, nb, best, rsize) && AllFit(v, t, nb)
    requires BinCovered(v, nb, rsize, t, t) && (best != NULL || t != NULL)
    requires t != NULL ==> IsNode(v, t) && At(v.size, t) >= 0 && Index(At(v.size, t)) == Index(nb)
    requires best != NULL ==> At(v.size, best) >= 0 && Index(At(v.size, best)) == Index(nb)
    ensures AllCovered(v, nb, rsize, t)
  {
    forall s {:trigger Covered(v, nb, rsize, t, t, s)} | s in v.sizes && nb <= s
      ensures Covered(v, nb, rsize, t, t, s)
    {
      if Index(s) == Index(nb) {
        Recall(Covered(v, nb, rsize, t, t, s));
      } else {
        LaterBin(v, nb, rsize, t, best, s);
      }
    }
  }

  /** With nothing that fits in the bins up to i, the root of the next non-empty bin has the best fit. */
  lemma NextBin(v: Trie, nb: nat, i: nat)
    requires Sorted(v) && i < NBINS && At(v.root, i) != NULL
    requires forall s: nat | s in v.sizes && nb <= s :: i <= Index(s)
    requires forall s: nat | s in v.sizes && Index(s) == i :: nb <= s
    ensures IsNode(v, At(v.root, i)) && AllCovered(v, nb, Wrap(0 - nb), At(v.root, i))
  {
    var t := At(v.root, i);
    Recall(RootOk(v, i));
    Recall(Fits(v, At(v.size, t)));
    forall u | u in v.sizes && Under(CellOf(v, t), CellAt(v.cell, u)) ensures nb <= u {
      Recall(Fits(v, u));
      SameBin(v, At(v.size, t), u);
    }
    forall s {:trigger Covered(v, nb, Wrap(0 - nb), t, t, s)} | s in v.sizes && nb <= s
      ensures Covered(v, nb, Wrap(0 - nb), t, t, s)
    {
      Recall(Fits(v, s));
      if Index(s) == i {
        UnderTop(s, CellAt(v.cell, s));
      } else {
        BeyondBin(v, t, i, s);
      }
    }
  }

  lemma LeftCovered(v: Trie, nb: nat, rsize0: nat, rsize: nat, t: Addr)
    requires Sorted(v) && IsNode(v, t) && rsize <= rsize0 && (nb <= At(v.size, t) ==> rsize <= At(v.size, t) - nb)
    requires AllCovered(v, nb, rsize0, t)
    ensures AllCovered(v, nb, rsize, Leftmost(v, t))
  {
    if rsize > 0 {
      LeftInvariant(v, nb, t);
      Recall(CellAt(v.cell, At(v.size, t)) == CellOf(v, t));
      forall s {:trigger Covered(v, nb, rsize, Leftmost(v, t), Leftmost(v, t), s)} | s in v.sizes && nb <= s
        ensures Covered(v, nb, rsize, Leftmost(v, t), Leftmost(v, t), s)
      {
        Recall(Covered(v, nb, rsize0, t, t, s));
        LeftStep(v, nb, rsize, t, s);
      }
    }
  }
}
