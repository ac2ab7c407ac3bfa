/** All bins of malloc_state together: a table of the free chunks that are neither dv nor top. */
module Bins {
  import opened Config
  import opened BinMaps
  import opened Prefixes
  import opened Rings
  import opened Tries
  import LargeQueues
  import LargeStates
  import S = SmallBins
  import L = LargeBins

  /** Chunks and their sizes. */
  type Table = imap<Addr, int>

  /** is_small */
  predicate IsSmall(s: int) {
    s < MIN_LARGE
  }

  /** A size that a chunk can have. */
  predicate BinSize(s: int) {
    0 < s < MOD && s % 8 == 0
  }

  /** The link words at address x, in the order of the fields that could lie there. */
  datatype Links = Links(small: S.Overlay, large: L.Overlay)

  function LinkWord(l: Links, x: Addr): (int, int, int, int, int, int, int, int) {
    (At(l.small.fd, x - 2 * W), At(l.small.bk, x - 3 * W),
     At(l.large.fd, x - 2 * W), At(l.large.bk, x - 3 * W), At(l.large.child0, x - 4 * W),
     At(l.large.child1, x - 5 * W), At(l.large.parent, x - 6 * W), At(l.large.index, x - 7 * W))
  }

  function SmallFields(l: Links, a: Addr): (int, int) {
    (At(l.small.fd, a), At(l.small.bk, a))
  }

  function LargeFields(l: Links, a: Addr): (int, int, int, int, int, int) {
    (At(l.large.fd, a), At(l.large.bk, a), At(l.large.child0, a), At(l.large.child1, a), At(l.large.parent, a),
     At(l.large.index, a))
  }

  /** The fields of a chunk of size s cover x. */
  predicate FieldsCover(a: Addr, s: int, x: Addr) {
    a + 2 * W <= x < a + if s < MIN_LARGE then 4 * W else 8 * W
  }

  ghost predicate Covers(t: Table, x: Addr) {
    exists a {:trigger t[a]} | a in t :: FieldsCover(a, t[a], x)
  }

  /** Only link fields of the chunks in t have been written. */
  ghost predicate OnlyLinksOf(t: Table, l: Links, m: Links) {
    forall x {:trigger LinkWord(m, x)} | x >= 4 * W && !Covers(t, x) :: LinkWord(m, x) == LinkWord(l, x)
  }

  ghost predicate Separate(s: Table, l: Table, p: Addr) {
    && (p in s ==> p > 0 && p !in l && 0 <= s[p] < MIN_LARGE && s[p] % 8 == 0)
    && (p in l ==> p > 0 && MIN_LARGE <= l[p] < MOD)
  }

  ghost predicate AllSeparate(s: Table, l: Table) {
    forall p {:trigger Separate(s, l, p)} :: Separate(s, l, p)
  }

  lemma JoinedPut(s: Table, l: Table, p: Addr, x: int)
    requires AllSeparate(s, l) && p > 0 && p !in s + l && BinSize(x)
    ensures s[p := x] + l == (s + l)[p := x] == s + l[p := x]
    ensures if IsSmall(x) then AllSeparate(s[p := x], l) else AllSeparate(s, l[p := x])
  {
    forall a {:trigger Separate(s[p := x], l, a)} | IsSmall(x) ensures Separate(s[p := x], l, a) {
      Recall(Separate(s, l, a));
    }
    forall a {:trigger Separate(s, l[p := x], a)} | !IsSmall(x) ensures Separate(s, l[p := x], a) {
      Recall(Separate(s, l, a));
    }
  }

  lemma JoinedCut(s: Table, l: Table, p: Addr)
    requires AllSeparate(s, l)
    ensures p in s ==> (s - {p}) + l == (s + l) - {p} && AllSeparate(s - {p}, l)
    ensures p in l && p !in s ==> s + (l - {p}) == (s + l) - {p} && AllSeparate(s, l - {p})
  {
    Recall(Separate(s, l, p));
    forall a {:trigger Separate(s - {p}, l, a)} ensures Separate(s - {p}, l, a) {
      Recall(Separate(s, l, a));
    }
    forall a {:trigger Separate(s, l - {p}, a)} ensures Separate(s, l - {p}, a) {
      Recall(Separate(s, l, a));
    }
  }

  /** Some chunk has size s. */
  ghost predicate HasSize(t: Table, s: int) {
    exists p {:trigger t[p]} | p in t :: t[p] == s
  }

  /** v is a smallest of the large chunks that have room for nb, and leaves rsize; null if there is none. */
  ghost predicate BestChunk(t: Table, nb: nat, v: Addr, rsize: nat) {
    if v == NULL then
      rsize == Wrap(0 - nb) && forall p {:trigger t[p]} | p in t && t[p] >= MIN_LARGE :: t[p] < nb
    else
      && v in t && t[v] == nb + rsize && MIN_LARGE <= t[v] < MOD
      && forall p {:trigger t[p]} | p in t && MIN_LARGE <= t[p] && nb <= t[p] :: t[v] <= t[p]
  }

  class Bins {
    const small: S.SmallBins
    const large: L.LargeBins

    ghost predicate Valid()
      reads this, small, large
    {
      small.Valid() && large.Valid() && AllSeparate(small.Content(), large.Content())
    }

    ghost function Content(): Table
      reads this, small, large
    {
      small.Content() + large.Content()
    }

    ghost function Fields(): Links
      reads this, small, large
    {
      Links(small.mem, large.mem)
    }

    ghost predicate Backed(hd: Heads, least: Addr)
      reads this, small, large
    {
      0 < least && forall p {:trigger p in Content()} | p in Content() ::
        HeadAt(hd, p).size == Content()[p] && least <= p
    }

    constructor (links: Links)
      ensures Valid() && Content() == imap[] && fresh(small) && fresh(large)
      ensures small.smallmap == 0 && large.treemap == 0
    {
      small := new S.SmallBins(links.small);
      large := new L.LargeBins(links.large);
    }

    /** What the table says is what the bins say. */
    lemma BothBacked(hd: Heads, least: Addr)
      requires Valid() && Backed(hd, least)
      ensures small.Backed(hd, least) && large.Backed(hd, least)
    {
      forall p {:trigger small.Holds(p)} | small.Holds(p)
        ensures HeadAt(hd, p).size == 8 * At(small.g.bin, p) && least <= p
      {
        Recall(Separate(small.Content(), large.Content(), p));
        Recall(p in Content());
      }
      forall p {:trigger large.Holds(p)} | large.Holds(p)
        ensures HeadAt(hd, p).size == At(large.g.size, p) && least <= p
      {
        Recall(p in Content());
      }
    }

    /** insert_chunk */
    method InsertChunk(hd: Heads, least: Addr, p: Addr, s: nat)
      requires Valid() && Backed(hd, least) && BinSize(s) && p !in Content() && least <= p
      modifies small, large
      ensures Valid() && Content() == old(Content())[p := s]
      ensures OnlyLinksOf(old(Content())[p := s], old(Fields()), Fields())
    {
      BothBacked(hd, least);
      JoinedPut(small.Content(), large.Content(), p, s);
      if IsSmall(s) {
        InsertSmall(hd, least, p, s);
      } else {
        InsertLarge(hd, least, p, s);
      }
    }

    method InsertSmall(hd: Heads, least: Addr, p: Addr, s: nat)
      requires Valid() && small.Backed(hd, least) && BinSize(s) && IsSmall(s) && p !in Content() && least <= p
      modifies small
      ensures small.Valid() && small.Content() == old(small.Content())[p := s]
      ensures OnlyLinksOf(old(Content())[p := s], old(Fields()), Fields())
    {
      assert !small.Holds(p);
      small.Insert(hd, least, p, s);
      forall a {:trigger small.Fields(a)} | a > 0 && a !in old(Content())[p := s]
        ensures small.Fields(a) == old(small.Fields(a))
      {
        assert !old(small.Holds(a));
      }
      Relinked(old(Content())[p := s], old(Fields()));
    }

    method InsertLarge(hd: Heads, least: Addr, p: Addr, s: nat)
      requires Valid() && large.Backed(hd, least) && BinSize(s) && !IsSmall(s) && p !in Content() && least <= p
      modifies large
      ensures large.Valid() && large.Content() == old(large.Content())[p := s]
      ensures OnlyLinksOf(old(Content())[p := s], old(Fields()), Fields())
    {
      assert !large.Holds(p);
      large.InsertLarge(hd, least, p, s);
      forall a {:trigger large.Fields(a)} | !(a in old(Content())[p := s] && old(Content())[p := s][a] >= MIN_LARGE)
        ensures large.Fields(a) == old(large.Fields(a)) {
        if old(large.Holds(a)) {
          Recall(Separate(old(small.Content()), old(large.Content()), a));
        }
      }
      Relinked(old(Content())[p := s], old(Fields()));
    }

    /** unlink_chunk */
    method UnlinkChunk(hd: Heads, least: Addr, p: Addr, s: nat)
      requires Valid() && Backed(hd, least) && p in Content() && Content()[p] == s > 0
      modifies small, large
      ensures Valid() && Content() == old(Content()) - {p}
      ensures OnlyLinksOf(old(Content()), old(Fields()), Fields())
    {
      Recall(Separate(small.Content(), large.Content(), p));
      if IsSmall(s) {
        UnlinkSmall(hd, least, p, s);
      } else {
        UnlinkTree(hd, least, p);
      }
    }

    method UnlinkSmall(hd: Heads, least: Addr, p: Addr, s: nat)
      requires Valid() && Backed(hd, least) && p in small.Content() && p in Content() && small.Content()[p] == s > 0
      modifies small
      ensures Valid() && Content() == old(Content()) - {p}
      ensures OnlyLinksOf(old(Content()), old(Fields()), Fields())
    {
      BothBacked(hd, least);
      JoinedCut(small.Content(), large.Content(), p);
      Recall(Separate(small.Content(), large.Content(), p));
      ghost var i := S.SmallIndex(s);
      assert small.Holds(p) && At(small.g.bin, p) == i;
      ghost var k: nat :| k < |small.Stack(i)| && small.Stack(i)[k] == p;
      small.Unlink(hd, least, p, s, k);
      SmallCut();
    }

    /** unlink_large_chunk */
    method UnlinkTree(hd: Heads, least: Addr, p: Addr)
      requires Valid() && Backed(hd, least) && p in Content() && Content()[p] >= MIN_LARGE
      modifies small, large
      ensures Valid() && Content() == old(Content()) - {p} && small.Content() == old(small.Content())
      ensures OnlyLinksOf(old(Content()), old(Fields()), Fields())
    {
      BothBacked(hd, least);
      JoinedCut(small.Content(), large.Content(), p);
      Recall(Separate(small.Content(), large.Content(), p));
      assert large.Holds(p);
      ghost var s := At(large.g.size, p);
      LargeStates.HeldAt(large.V(), large.M(), large.treemap, p, s);
      ghost var k: nat :| k < |large.Queue(s)| && large.Queue(s)[k] == p;
      large.UnlinkLarge(hd, least, p, k);
      forall a {:trigger large.Fields(a)} | !(a in old(Content()) && old(Content())[a] >= MIN_LARGE)
        ensures large.Fields(a) == old(large.Fields(a)) {
        if old(large.Holds(a)) {
          Recall(Separate(old(small.Content()), old(large.Content()), a));
        }
      }
      Relinked(old(Content()), old(Fields()));
    }

    /** unlink_first_small_chunk */
    method TakeFirst(hd: Heads, least: Addr, i: nat) returns (p: Addr)
      requires Valid() && Backed(hd, least) && i < NBINS && Marked(small.smallmap, i)
      modifies small
      ensures Valid() && p in old(Content()) && old(Content())[p] == 8 * i && Content() == old(Content()) - {p}
      ensures OnlyLinksOf(old(Content()), old(Fields()), Fields())
    {
      BothBacked(hd, least);
      p := small.UnlinkFirst(hd, least, i);
      JoinedCut(old(small.Content()), large.Content(), p);
      Recall(Separate(old(small.Content()), large.Content(), p));
      SmallCut();
    }

    twostate lemma SmallCut()
      requires Fields().large == old(Fields()).large
      requires forall a | a > 0 && !old(small.Holds(a)) :: small.Fields(a) == old(small.Fields(a))
      ensures OnlyLinksOf(old(Content()), old(Fields()), Fields())
    {
      forall a {:trigger small.Fields(a)} | a > 0 && a !in old(Content())
        ensures small.Fields(a) == old(small.Fields(a))
      {
        assert !old(small.Holds(a));
      }
      Relinked(old(Content()), old(Fields()));
    }

    lemma SizeForm(p: Addr)
      requires Valid() && p in Content()
      ensures 0 <= Content()[p] < MOD && (IsSmall(Content()[p]) ==> Content()[p] % 8 == 0)
    {
      Recall(Separate(small.Content(), large.Content(), p));
    }

    /** The bits of smallmap tell which small sizes are available. */
    lemma SmallMapTells(i: nat)
      requires Valid() && i < NBINS
      ensures Marked(small.smallmap, i) <==> HasSize(Content(), 8 * i)
    {
      if Marked(small.smallmap, i) {
        S.FirstOf(small.mem, small.g, small.smallmap, i);
        var p := small.Stack(i)[0];
        Recall(Separate(small.Content(), large.Content(), p));
        assert Content()[p] == 8 * i;
      }
      if HasSize(Content(), 8 * i) {
        var p :| p in Content() && Content()[p] == 8 * i;
        Recall(Separate(small.Content(), large.Content(), p));
        assert small.Holds(p) && At(small.g.bin, p) == i;
      }
    }

    /** treemap tells whether there is any large chunk. */
    lemma TreeMapTells()
      requires Valid()
      ensures large.treemap != 0 <==> exists p {:trigger Content()[p]} | p in Content() :: Content()[p] >= MIN_LARGE
    {
      if large.treemap != 0 {
        FirstMarked(large.treemap);
        var j := Bit2Idx(LeastBit(large.treemap));
        Recall(LargeStates.BitOk(large.V(), large.treemap, j));
        Recall(RootOk(large.V(), j));
        LargeStates.NodeHeld(large.V(), large.M(), large.treemap, At(large.root, j));
        assert Content()[At(large.root, j)] >= MIN_LARGE;
      }
      forall p | p in Content() && Content()[p] >= MIN_LARGE ensures large.treemap != 0 {
        Recall(Separate(small.Content(), large.Content(), p));
        large.SizeMarked(Content()[p]);
        EmptyMap(large.treemap);
      }
    }

    /** What the search in the trees finds, in terms of the table. */
    lemma BestOfTable(nb: nat, v: Addr, rsize: nat)
      requires Valid() && large.BestFit(nb, v, rsize)
      ensures BestChunk(Content(), nb, v, rsize)
    {
      forall p | p in Content() && Content()[p] >= MIN_LARGE ensures large.Queue(Content()[p]) != [] {
        LargeStates.HeldAt(large.V(), large.M(), large.treemap, p, Content()[p]);
      }
      if v != NULL {
        LargeStates.HeldAt(large.V(), large.M(), large.treemap, v, nb + rsize);
        assert large.Queue(nb + rsize)[0] == v;
      }
    }

    /** The search of tmalloc_large */
    method FindBest(hd: Heads, least: Addr, nb: nat) returns (v: Addr, rsize: nat)
      requires Valid() && Backed(hd, least) && MIN_LARGE <= nb < MOD
      ensures BestChunk(Content(), nb, v, rsize)
    {
      BothBacked(hd, least);
      v, rsize := large.FindBest(hd, least, nb);
      BestOfTable(nb, v, rsize);
    }

    /** The search of tmalloc_small */
    method FindSmallest(hd: Heads, least: Addr, nb: nat) returns (v: Addr, rsize: nat)
      requires Valid() && Backed(hd, least) && 0 < nb < MIN_LARGE && large.treemap != 0
      ensures v != NULL && BestChunk(Content(), nb, v, rsize)
    {
      BothBacked(hd, least);
      v, rsize := large.FindSmallest(hd, least, nb);
      BestOfTable(nb, v, rsize);
    }

    /** p->fd->bk == p and p->bk->fd == p, for a chunk of size s */
    predicate LinksOk(p: Addr, s: int)
      reads this, small, large
    {
      if IsSmall(s) then At(small.mem.bk, At(small.mem.fd, p)) == p && At(small.mem.fd, At(small.mem.bk, p)) == p
      else At(large.mem.bk, At(large.mem.fd, p)) == p && At(large.mem.fd, At(large.mem.bk, p)) == p
    }

    lemma BinnedLinked(p: Addr)
      requires Valid() && p in Content()
      ensures LinksOk(p, Content()[p])
    {
      Recall(Separate(small.Content(), large.Content(), p));
      if p in small.Content() {
        var i := At(small.g.bin, p);
        S.HeldAt(small.mem, small.g, small.smallmap, p);
        Recall(S.BinOk(small.mem, small.g, small.smallmap, i));
        var q := small.Stack(i);
        var k: nat :| k < |q| && q[k] == p;
        assert ([S.Header(i)] + q)[k + 1] == p;
        Reciprocal([S.Header(i)] + q, small.mem.fd, small.mem.bk, k + 1);
      } else {
        var s := Content()[p];
        LargeStates.HeldAt(large.V(), large.M(), large.treemap, p, s);
        Recall(LargeQueues.QueueOk(large.V(), large.M(), s));
        var q := large.Queue(s);
        var k: nat :| k < |q| && q[k] == p;
        Reciprocal(q, large.mem.bk, large.mem.fd, k);
      }
    }

    /** bin_find */
    method BinFind(hd: Heads, least: Addr, x: Addr) returns (found: bool)
      requires Valid() && Backed(hd, least) && x > 0 && HeadAt(hd, x).size < MOD
      requires HeadAt(hd, x).size % 8 == 0
      ensures found <==> x in Content()
    {
      BothBacked(hd, least);
      var size := HeadAt(hd, x).size;
      Recall(x in Content());
      Recall(Separate(small.Content(), large.Content(), x));
      if IsSmall(size) {
        found := small.Find(S.SmallIndex(size), x);
        S.HeldAt(small.mem, small.g, small.smallmap, x);
      } else {
        found := large.Find(hd, least, x, size);
        LargeStates.HeldAt(large.V(), large.M(), large.treemap, x, size);
      }
    }

    /** Each bin operation keeps the fields of the chunks that it does not hold. */
    lemma Relinked(t: Table, l: Links)
      requires forall a {:trigger small.Fields(a)} | a > 0 && a !in t :: small.Fields(a) == SmallFields(l, a)
      requires forall a {:trigger large.Fields(a)} | !(a in t && t[a] >= MIN_LARGE) ::
        large.Fields(a) == LargeFields(l, a)
      ensures OnlyLinksOf(t, l, Fields())
    {
      var m := Fields();
      forall x {:trigger LinkWord(m, x)} | x >= 4 * W && !Covers(t, x) ensures LinkWord(m, x) == LinkWord(l, x) {
        forall k | 2 <= k <= 7 && x - k * W in t ensures k > 3 && t[x - k * W] < MIN_LARGE {
          assert !FieldsCover(x - k * W, t[x - k * W], x);
        }
        Recall(small.Fields(x - 2 * W) == (0, 0));
        Recall(small.Fields(x - 3 * W) == (0, 0));
        Recall(large.Fields(x - 2 * W) == large.Fields(x - 3 * W));
        Recall(large.Fields(x - 4 * W) == large.Fields(x - 5 * W));
        Recall(large.Fields(x - 6 * W) == large.Fields(x - 7 * W));
      }
    }
  }
}
