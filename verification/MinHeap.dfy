/** An indexed minimum heap: every item knows where it is, so that it can be erased, and adjusted after its
    key has changed. */
module MinHeap {
  import opened Config
  import opened Prefixes

  /** min_heap_idx is an int. */
  const MAX_ITEMS: nat := 0x8000_0000

  function Parent(i: int): int {
    (i - 1) / 2
  }

  // ---- order, on the keys alone ----

  ghost predicate Over(v: seq<int>, i: int) {
    0 < i < |v| ==> v[Parent(i)] <= v[i]
  }

  ghost predicate Ordered(v: seq<int>) {
    forall i {:trigger Over(v, i)} :: Over(v, i)
  }

  /** The parent of h is not above a child of h. */
  ghost predicate Across(v: seq<int>, h: int, c: int) {
    0 < h < c < |v| && Parent(c) == h ==> v[Parent(h)] <= v[c]
  }

  /** Only the item at h may be out of place. */
  ghost predicate Almost(v: seq<int>, h: int) {
    && 0 <= h < |v|
    && (forall i {:trigger Over(v, i)} | i != h && Parent(i) != h :: Over(v, i))
    && (forall c {:trigger Across(v, h, c)} :: Across(v, h, c))
  }

  /** ... and it is not too high, or not too low. */
  ghost predicate MayRise(v: seq<int>, h: int) {
    Almost(v, h) && forall i {:trigger Over(v, i)} | i != h :: Over(v, i)
  }

  /** No child of h is below x. */
  ghost predicate LeastBelow(v: seq<int>, h: int, x: int) {
    forall i {:trigger NotBelow(v, h, x, i)} :: NotBelow(v, h, x, i)
  }

  ghost predicate NotBelow(v: seq<int>, h: int, x: int, i: int) {
    0 < i < |v| && Parent(i) == h ==> x <= v[i]
  }

  ghost predicate MaySink(v: seq<int>, h: int) {
    Almost(v, h) && Over(v, h)
  }

  function Swapped(v: seq<int>, i: int, j: int): seq<int>
    requires 0 <= i < |v| && 0 <= j < |v|
  {
    v[i := v[j]][j := v[i]]
  }

  lemma Rise(v: seq<int>, h: int)
    requires MayRise(v, h) && 0 < h && v[Parent(h)] > v[h]
    ensures MayRise(Swapped(v, h, Parent(h)), Parent(h))
  {
    var q, w := Parent(h), Swapped(v, h, Parent(h));
    Recall(Over(v, q));
    forall i {:trigger Over(w, i)} | i != q ensures Over(w, i) {
      Recall(Over(v, i));
      Recall(Across(v, h, i));
    }
    forall c {:trigger Across(w, q, c)} ensures Across(w, q, c) {
      Recall(Over(v, c));
    }
  }

  lemma Sink(v: seq<int>, h: int, c: int)
    requires MaySink(v, h) && 0 < c < |v| && Parent(c) == h && v[h] > v[c]
    requires LeastBelow(v, h, v[c])
    ensures MaySink(Swapped(v, h, c), c)
  {
    var w := Swapped(v, h, c);
    Recall(Across(v, h, c));
    Recall(Over(v, h));
    forall i {:trigger Over(w, i)} | Parent(i) != c ensures Over(w, i) {
      Recall(Over(v, i));
      Recall(NotBelow(v, h, v[c], i));
    }
    forall d {:trigger Across(w, c, d)} ensures Across(w, c, d) {
      Recall(Over(v, d));
    }
  }

  lemma SinkEnds(v: seq<int>, h: int)
    requires MaySink(v, h) && LeastBelow(v, h, v[h])
    ensures Ordered(v)
  {
    forall i {:trigger Over(v, i)} ensures Over(v, i) {
      Recall(NotBelow(v, h, v[h], i));
    }
  }

  lemma RiseEnds(v: seq<int>, h: int)
    requires MayRise(v, h) && (h == 0 || v[Parent(h)] <= v[h])
    ensures Ordered(v)
  {
    forall i {:trigger Over(v, i)} ensures Over(v, i) {
    }
  }

  /** An item that has got a new key needs to go one way only. */
  lemma OneWay(v: seq<int>, h: int)
    requires Almost(v, h)
    ensures if 0 < h && v[Parent(h)] > v[h] then MayRise(v, h) else MaySink(v, h)
  {
    forall i {:trigger Over(v, i)} | 0 < h && v[Parent(h)] > v[h] && i != h ensures Over(v, i) {
      Recall(Across(v, h, i));
    }
  }

  /** Changing one key of a heap. */
  lemma Rekeyed(v: seq<int>, h: int, x: int)
    requires Ordered(v) && 0 <= h < |v|
    ensures Almost(v[h := x], h)
  {
    var w := v[h := x];
    forall i {:trigger Over(w, i)} | i != h && Parent(i) != h ensures Over(w, i) {
      Recall(Over(v, i));
    }
    forall c {:trigger Across(w, h, c)} ensures Across(w, h, c) {
      Recall(Over(v, c));
      Recall(Over(v, h));
    }
  }

  /** The root is a minimum. */
  lemma {:induction false} RootLeast(v: seq<int>, i: int)
    requires Ordered(v) && 0 <= i < |v|
    ensures v[0] <= v[i]
    decreases i
  {
    if i > 0 {
      Recall(Over(v, i));
      RootLeast(v, Parent(i));
    }
  }

  lemma OverAt(v: seq<int>, i: int)
    requires Ordered(v)
    ensures Over(v, i)
  {
  }

  lemma OrderedPrefix(v: seq<int>, n: nat)
    requires Ordered(v) && n <= |v|
    ensures Ordered(v[..n])
  {
    forall i {:trigger Over(v[..n], i)} ensures Over(v[..n], i) {
      Recall(Over(v, i));
    }
  }

  lemma Appended(v: seq<int>, x: int)
    requires Ordered(v)
    ensures MayRise(v + [x], |v|)
  {
    var w := v + [x];
    forall i {:trigger Over(w, i)} | i != |v| ensures Over(w, i) {
      Recall(Over(v, i));
    }
  }

  // ---- items ----

  class Item {
    var value: int
    var idx: int          // min_heap_idx

    constructor (value: int)
      ensures this.value == value && idx == -1
    {
      this.value, idx := value, -1;
    }
  }

  ghost predicate Full(s: seq<Item?>) {
    forall i {:trigger s[i]} | 0 <= i < |s| :: s[i] != null
  }

  ghost function Without(s: seq<Item?>, e: Item?): multiset<Item?> {
    multiset(s) - multiset{e}
  }

  ghost function Keys(s: seq<Item?>): (v: seq<int>)
    requires Full(s)
    reads set x | x in s
    ensures |v| == |s| && forall i {:trigger v[i]} | 0 <= i < |s| :: v[i] == s[i].value
  {
    seq(|s|, i requires 0 <= i < |s| reads set x | x in s => s[i].value)
  }

  /** All items but that at h know their place. */
  ghost predicate Indexed(s: seq<Item?>, h: int)
    requires Full(s)
    reads set x | x in s
  {
    forall i {:trigger s[i]} | 0 <= i < |s| && i != h :: s[i].idx == i
  }

  /** The items that are sifted, what lies behind the heap, and all items in the array. */
  datatype Origin = Origin(items: multiset<Item?>, tail: seq<Item?>, all: set<Item>)

  class MinHeap {
    var p: array<Item?>       // its length is the number of allocated places
    var n: nat

    constructor ()
      ensures Valid() && n == 0 && fresh(p)
    {
      p, n := new Item?[0], 0;
    }

    ghost function Members(): set<Item>
      reads this, p
    {
      set i | 0 <= i < n && i < p.Length && p[i] != null :: p[i]
    }

    ghost function Items(): seq<Item?>
      reads this, p
    {
      if n <= p.Length then p[..n] else []
    }

    ghost predicate Valid()
      reads this, p, p[..]
    {
      n <= p.Length && Full(p[..n]) && Indexed(p[..n], -1) && Ordered(Keys(p[..n]))
    }

    /** e is to go to place h, where the heap has a hole. */
    ghost predicate Hole(h: int, e: Item)
      reads this, p, p[..], e
    {
      && 0 <= h < n <= p.Length && (forall i {:trigger p[i]} | 0 <= i < n && i != h :: p[i] != null && p[i] != e)
      && Full(p[..n][h := e]) && Indexed(p[..n][h := e], h)
    }

    ghost function Around(h: int, e: Item): (s: seq<Item?>)
      requires Hole(h, e)
      reads this, p, p[..], e
      ensures Full(s)
    {
      p[..n][h := e]
    }

    ghost function View(h: int, e: Item): seq<int>
      requires Hole(h, e)
      reads this, p, p[..], e
    {
      Keys(Around(h, e))
    }

    /** Sifting e moves the items of z, and nothing behind the heap. */
    ghost predicate Sifting(h: int, e: Item, z: Origin)
      reads this, p, p[..], e
    {
      && Hole(h, e) && multiset(Around(h, e)) == z.items && p[n..] == z.tail
      && forall i {:trigger p[i]} | 0 <= i < n && i != h :: p[i] in z.all
    }

    /** The item at q moves to the hole at h, and leaves a hole. */
    method MoveItem(h: nat, q: nat, e: Item, ghost all: set<Item>)
      requires Hole(h, e) && q < n && q != h && p[q] in all
      modifies p, all`idx
      ensures Hole(q, e) && View(q, e) == Swapped(old(View(h, e)), h, q)
      ensures Around(q, e) == old(Around(h, e)[h := Around(h, e)[q]][q := e]) && p[..] == old(p[..][h := p[q]])
    {
      ghost var t, k := Around(h, e), View(h, e);
      p[h] := p[q];
      p[h].idx := h;
      ghost var w := p[..n][q := e];
      assert w == t[h := t[q]][q := t[h]];
      forall i {:trigger w[i]} | 0 <= i < n && i != q ensures w[i].idx == i {
        Recall(t[i] == t[i]);
      }
      assert Hole(q, e);
      hide Hole;
      assert forall i {:trigger t[i]} | 0 <= i < n :: k[i] == t[i].value;
      assert View(q, e) == Swapped(k, h, q);
    }

    method MoveHole(h: nat, q: nat, e: Item, ghost z: Origin)
      requires Sifting(h, e, z) && q < n && q != h
      modifies p, z.all`idx
      ensures Sifting(q, e, z) && View(q, e) == Swapped(old(View(h, e)), h, q)
    {
      hide View;
      ghost var t, u := Around(h, e), p[..];
      SwapItems(t, h, q);
      Compared(h, e, q);
      Recall(p[q] == p[q]);
      assert t[h] == e;
      MoveItem(h, q, e, z.all);
      hide Hole;
      assert p[n..] == u[n..];
      forall i {:trigger p[i]} | 0 <= i < n && i != q ensures p[i] in z.all {
        assert p[..][i] == u[h := u[q]][i];
      }
    }

    lemma SwapItems(t: seq<Item?>, h: nat, q: nat)
      requires h < |t| && q < |t| && h != q
      ensures multiset(t[h := t[q]][q := t[h]]) == multiset(t)
    {
    }

    method Fill(h: nat, e: Item, ghost z: Origin)
      requires Sifting(h, e, z) && Ordered(View(h, e))
      modifies p, e`idx
      ensures Valid() && multiset(p[..n]) == z.items && p[n..] == z.tail
    {
      ghost var t := Around(h, e);
      p[h] := e;
      e.idx := h;
      assert p[..n] == t && Keys(p[..n]) == old(Keys(Around(h, e)));
      forall i {:trigger t[i]} | 0 <= i < n ensures t[i].idx == i {
        Recall(p[i] == p[i]);
      }
    }

    /** What the loops compare. */
    lemma Compared(h: int, e: Item, q: int)
      requires Hole(h, e) && 0 <= q < n && q != h
      ensures 0 <= h < n <= p.Length && p[q] != null && |View(h, e)| == n
      ensures View(h, e)[q] == p[q].value && View(h, e)[h] == e.value
    {
      Recall(p[q] == p[q]);
    }

    lemma Bounds(h: int, e: Item, z: Origin)
      requires Sifting(h, e, z)
      ensures 0 <= h < n <= p.Length && Hole(h, e) && |View(h, e)| == n
      ensures h > 0 ==> p[Parent(h)] != null && View(h, e)[Parent(h)] == p[Parent(h)].value && View(h, e)[h] == e.value
    {
      if h > 0 {
        Compared(h, e, Parent(h));
      }
    }

    /** A turn of the loop of min_heap_shift_up_: the parent moves down into the hole. */
    method RiseOnce(h: nat, e: Item, ghost z: Origin)
      requires h > 0 && Sifting(h, e, z) && MayRise(View(h, e), h)
      requires p[Parent(h)] != null && p[Parent(h)].value > e.value
      modifies p, z.all`idx
      ensures Sifting(Parent(h), e, z) && MayRise(View(Parent(h), e), Parent(h))
    {
      hide View, Hole, Sifting, MayRise;
      Bounds(h, e, z);
      Rise(View(h, e), h);
      MoveHole(h, Parent(h), e, z);
    }

    /** min_heap_shift_up_ */
    method ShiftUp(hole: nat, e: Item, ghost z: Origin) returns (ghost steps: nat)
      requires Sifting(hole, e, z) && MayRise(View(hole, e), hole)
      modifies p, z.all`idx, e`idx
      ensures Valid() && multiset(p[..n]) == z.items && p[n..] == z.tail
      ensures Pow2(steps) <= hole + 1
    {
      hide View, Hole, Sifting, Valid, MayRise, Ordered, Risen, Pow2;
      var h := hole;
      steps := 0;
      NoneRisen(hole);
      Bounds(h, e, z);
      while h != 0 && p[Parent(h)].value > e.value
        invariant 0 <= h < n <= p.Length && (h != 0 ==> p[Parent(h)] != null)
        invariant Sifting(h, e, z) && Hole(h, e) && MayRise(View(h, e), h)
        invariant Risen(steps, h, hole)
      {
        Halved(steps, h, hole);
        RiseOnce(h, e, z);
        h := Parent(h);
        steps := steps + 1;
        Bounds(h, e, z);
      }
      Bounds(h, e, z);
      RiseEnds(View(h, e), h);
      Fill(h, e, z);
      RisenFar(steps, h, hole);
    }

    /** After this many turns, the hole has come from n to h at the least. */
    ghost predicate Risen(steps: nat, h: nat, n: nat) {
      Pow2(steps) * (h + 1) <= n + 1
    }

    lemma NoneRisen(n: nat)
      ensures Risen(0, n, n)
    {
    }

    lemma Halved(steps: nat, h: nat, n: nat)
      requires h > 0 && Risen(steps, h, n)
      ensures Risen(steps + 1, Parent(h), n)
    {
      Halving(Pow2(steps), h, n);
    }

    lemma RisenFar(steps: nat, h: nat, n: nat)
      requires Risen(steps, h, n)
      ensures Pow2(steps) <= n + 1
    {
      AtMost(Pow2(steps), h);
    }

    lemma Halving(x: nat, h: nat, n: nat)
      requires x * (h + 1) <= n + 1
      ensures h > 0 ==> 2 * x * (Parent(h) + 1) <= n + 1
    {
      if h > 0 {
        var d := h + 1 - 2 * (Parent(h) + 1);
        assert 2 * x * (Parent(h) + 1) == x * (h + 1) - x * d;
      }
    }

    lemma AtMost(x: nat, k: nat)
      ensures x <= x * (k + 1)
    {
      assert x * (k + 1) == x * k + x;
    }

    lemma Doubling(x: nat, k: nat, h: nat, c: nat)
      requires x * (k + 1) <= h + 1 && 2 * h + 1 <= c
      ensures 2 * x * (k + 1) <= c + 1
    {
      assert 2 * x * (k + 1) == 2 * (x * (k + 1));
    }

    /** min_heap_shift_up_unconditional_: its do-while loop is one move and then the loop above. */
    method ShiftUpUnconditional(hole: nat, e: Item, ghost z: Origin) returns (ghost steps: nat)
      requires 0 < hole && Sifting(hole, e, z) && MayRise(View(hole, e), hole)
      requires View(hole, e)[Parent(hole)] > View(hole, e)[hole]
      modifies p, z.all`idx, e`idx
      ensures Valid() && multiset(p[..n]) == z.items && p[n..] == z.tail
      ensures Pow2(steps) <= hole + 1
    {
      hide View, Hole, Sifting, Valid, MayRise, Ordered;
      Bounds(hole, e, z);
      RiseOnce(hole, e, z);
      steps := ShiftUp(Parent(hole), e, z);
      steps := steps + 1;
    }

    /** The smaller child of h is found at last - 1 or last. */
    lemma LeastChild(h: nat, e: Item, last: nat)
      requires Hole(h, e) && last == 2 * (h + 1) <= n
      ensures n <= p.Length && p[last - 1] != null && (last < n ==> p[last] != null)
      ensures var c := last - if last == n || p[last].value > p[last - 1].value then 1 else 0;
        var v := View(h, e);
        && c < n && p[c] != null && Parent(c) == h < c && LeastBelow(v, h, p[c].value)
        && |v| == n && v[c] == p[c].value && v[h] == e.value
    {
      hide View, Hole;
      Compared(h, e, last - 1);
      if last < n {
        Compared(h, e, last);
      }
      var c := last - if last == n || p[last].value > p[last - 1].value then 1 else 0;
      var v := View(h, e);
      forall i {:trigger NotBelow(v, h, v[c], i)} ensures NotBelow(v, h, v[c], i) {
        if 0 < i < |v| && Parent(i) == h {
          assert i == last - 1 || i == last;
        }
      }
    }

    lemma Sunk(h: nat, e: Item, z: Origin, c: nat)
      requires Sifting(h, e, z) && MaySink(View(h, e), h)
      requires c <= n ==> c < n && p[c] != null && e.value <= p[c].value && LeastBelow(View(h, e), h, p[c].value)
      requires c > n ==> c == 2 * (h + 1)
      ensures Ordered(View(h, e))
    {
      var v := View(h, e);
      forall i {:trigger NotBelow(v, h, v[h], i)} ensures NotBelow(v, h, v[h], i) {
        if c < n {
          Recall(NotBelow(v, h, p[c].value, i));
        }
      }
      SinkEnds(v, h);
    }

    /** The loop of min_heap_shift_down_ */
    method Descend(hole: nat, e: Item, ghost z: Origin) returns (ghost steps: nat)
      requires Sifting(hole, e, z) && MaySink(View(hole, e), hole)
      modifies p, z.all`idx, e`idx
      ensures Valid() && multiset(p[..n]) == z.items && p[n..] == z.tail
      ensures Pow2(steps) <= n
    {
      hide View, Hole, Sifting, Valid, MaySink, Ordered, LeastBelow;
      var h := hole;
      var c := 2 * (h + 1);
      steps := 0;
      Bounds(h, e, z);
      while c <= n
        invariant 0 <= h < n <= p.Length && c == 2 * (h + 1)
        invariant Sifting(h, e, z) && Hole(h, e) && MaySink(View(h, e), h)
        invariant Pow2(steps) * (hole + 1) <= h + 1
      {
        LeastChild(h, e, c);
        c := c - if c == n || p[c].value > p[c - 1].value then 1 else 0;
        if !(e.value > p[c].value) {
          break;
        }
        Sink(View(h, e), h, c);
        Doubling(Pow2(steps), hole, h, c);
        MoveHole(h, c, e, z);
        h := c;
        c := 2 * (h + 1);
        steps := steps + 1;
        Bounds(h, e, z);
      }
      Sunk(h, e, z, c);
      AtMost(Pow2(steps), hole);
      Fill(h, e, z);
    }

    /** min_heap_shift_down_; for a hole right behind the heap, its loop does not run. */
    method ShiftDown(hole: nat, e: Item, ghost z: Origin) returns (ghost steps: nat)
      requires hole == n ==> Valid() && n < p.Length && e !in p[..n]
      requires hole != n ==> Sifting(hole, e, z) && MaySink(View(hole, e), hole)
      modifies p, z.all`idx, e`idx
      ensures Valid() && (hole != n ==> multiset(p[..n]) == z.items) && (hole == n ==> p[..n] == old(p[..n]))
      ensures Pow2(steps) <= n + 1 && p == old(p) && n == old(n)
    {
      if hole == n {
        ghost var s := p[..n];
        p[n] := e;
        e.idx := n;
        steps := 0;
        assert p[..n] == s && Keys(s) == old(Keys(s));
      } else {
        steps := Descend(hole, e, z);
      }
    }

    /** min_heap_reserve_; granted says whether realloc succeeds. */
    method Reserve(need: nat, granted: bool) returns (ok: bool)
      requires Valid()
      modifies this`p
      ensures Valid() && (ok <==> need <= old(p.Length) || granted) && (ok ==> need <= p.Length)
      ensures p[..n] == old(p[..n]) && (p == old(p) || fresh(p)) && (!ok ==> p == old(p))
    {
      hide Ordered;
      ok := true;
      if p.Length < need {
        var a := if p.Length != 0 then p.Length * 2 % 0x1_0000_0000 else 8;
        if a < need {
          a := need;
        }
        if !granted {
          return false;
        }
        ghost var s, v := p[..n], Keys(p[..n]);
        var r := new Item?[a];
        forall i | 0 <= i < n {
          r[i] := p[i];
        }
        p := r;
        assert p[..n] == s;
        assert Keys(s) == v;
      }
    }

    /** The new item goes to the place behind the heap and rises. */
    method Append(e: Item) returns (ghost steps: nat)
      requires Valid() && n < p.Length && e !in p[..n]
      modifies this`n, p, Members()`idx, e`idx
      ensures Valid() && n == old(n) + 1 && multiset(Items()) == multiset(old(Items())) + multiset{e}
      ensures Pow2(steps) <= n
    {
      hide Ordered, MayRise, View;
      ghost var s, v, all := p[..n], Keys(p[..n]), Members();
      n := n + 1;
      ghost var z := Origin(multiset(s + [e]), p[n..], all);
      Entering(s, e, v, z);
      Appended(v, e.value);
      steps := ShiftUp(n - 1, e, z);
    }

    lemma Entering(s: seq<Item?>, e: Item, v: seq<int>, z: Origin)
      requires 0 < n <= p.Length && s == p[..n - 1] && Full(s) && Indexed(s, -1) && v == Keys(s) && e !in s
      requires z.items == multiset(s + [e]) && z.tail == p[n..]
      requires forall i {:trigger s[i]} | 0 <= i < |s| :: s[i] in z.all
      ensures Sifting(n - 1, e, z) && View(n - 1, e) == v + [e.value]
    {
      assert p[..n][n - 1 := e] == s + [e];
      forall i {:trigger p[i]} | 0 <= i < n - 1 ensures p[i] == s[i] != e {
        Recall(s[i] == s[i]);
      }
    }

    /** min_heap_push_ */
    method Push(e: Item, granted: bool) returns (ok: bool, ghost steps: nat)
      requires Valid() && n < MAX_ITEMS && e !in Items()
      modifies this, p, Members()`idx, e`idx
      ensures Valid() && (ok <==> old(n) < old(p.Length) || granted)
      ensures ok ==> n == old(n) + 1 && multiset(Items()) == multiset(old(Items())) + multiset{e}
      ensures !ok ==> p == old(p) && n == old(n) && Items() == old(Items()) && e.idx == old(e.idx)
      ensures Pow2(steps) <= n + 1 && (p == old(p) || fresh(p))
    {
      hide Ordered;
      steps := 0;
      ok := Reserve(n + 1, granted);
      if ok {
        steps := Append(e);
      }
    }

    /** The heap before its last item is taken off. */
    ghost predicate Leaving(s: seq<Item?>, last: Item, z: Origin)
      reads this, p, p[..]
    {
      && |s| == n + 1 <= p.Length && s == p[..n + 1] && Full(s) && Indexed(s, -1) && Ordered(Keys(s)) && last == s[n]
      && z.tail == p[n..] && forall i {:trigger s[i]} | 0 <= i < |s| :: s[i] in z.all
    }

    lemma LastApart(s: seq<Item?>, last: Item, z: Origin)
      requires Leaving(s, last, z)
      ensures forall i {:trigger p[i]} | 0 <= i < n :: p[i] == s[i] && p[i] != null && p[i] != last && p[i].idx == i
    {
      forall i {:trigger p[i]} | 0 <= i < n ensures p[i] == s[i] && p[i] != null && p[i] != last && p[i].idx == i {
        assert s[i] != null && s[n].idx == n;
      }
    }

    /** The last item is to take place h, and the item there leaves. */
    lemma Vacated(s: seq<Item?>, h: nat, last: Item, z: Origin)
      requires Leaving(s, last, z) && h < n && z.items == Without(s, s[h])
      ensures Sifting(h, last, z) && Almost(View(h, last), h) && z.items[s[h]] == 0
    {
      hide Ordered, Almost;
      var v := Keys(s);
      Once(s, h);
      LastMoved(s, h);
      LastApart(s, last, z);
      OrderedPrefix(v, n);
      Rekeyed(v[..n], h, last.value);
      assert p[..n][h := last] == s[..n][h := s[n]];
      assert View(h, last) == v[..n][h := last.value];
    }

    lemma VacatedLast(s: seq<Item?>, last: Item, z: Origin)
      requires Leaving(s, last, z) && z.items == Without(s, last)
      ensures Valid() && last !in p[..n] && multiset(p[..n]) == z.items && z.items[last] == 0
      ensures n > 0 ==> p[Parent(n)] != null && p[Parent(n)].value <= last.value
    {
      hide Ordered;
      var v := Keys(s);
      Once(s, n);
      LastMoved(s, n);
      LastApart(s, last, z);
      OrderedPrefix(v, n);
      assert p[..n] == s[..n] && Keys(s[..n]) == v[..n];
      if n > 0 {
        OverAt(v, n);
        Recall(p[Parent(n)] == p[Parent(n)]);
      }
    }

    /** An indexed item occurs once. */
    lemma Once(s: seq<Item?>, h: nat)
      requires Full(s) && Indexed(s, -1) && h < |s|
      ensures multiset(s)[s[h]] == 1
    {
      assert s == s[..h] + [s[h]] + s[h + 1..];
      forall i | 0 <= i < |s| && i != h ensures s[i] != s[h] {
        assert s[h].idx == h && s[i].idx == i;
      }
    }

    lemma LastMoved(s: seq<Item?>, h: nat)
      requires h < |s|
      ensures var w := s[..|s| - 1];
        multiset(if h < |w| then w[h := s[|w|]] else w) == multiset(s) - multiset{s[h]}
    {
      var w := s[..|s| - 1];
      assert s == w + [s[|w|]];
    }

    lemma AreMembers()
      requires n <= p.Length && Full(p[..n])
      ensures forall i {:trigger p[..n][i]} | 0 <= i < n :: p[..n][i] in Members()
    {
      forall i {:trigger p[..n][i]} | 0 <= i < n ensures p[..n][i] in Members() {
        assert p[i] == p[..n][i];
      }
    }

    lemma Direction(h: nat, e: Item, z: Origin)
      requires Sifting(h, e, z) && Almost(View(h, e), h)
      ensures 0 <= h < n <= p.Length && (h > 0 ==> p[Parent(h)] != null)
      ensures if h > 0 && p[Parent(h)].value > e.value
              then MayRise(View(h, e), h) && View(h, e)[Parent(h)] > View(h, e)[h] else MaySink(View(h, e), h)
    {
      Bounds(h, e, z);
      OneWay(View(h, e), h);
    }

    lemma TopLeast(s: seq<Item?>)
      requires Full(s) && Ordered(Keys(s))
      ensures forall x: Item {:trigger x in s} | x in s :: s[0].value <= x.value
    {
      forall x: Item {:trigger x in s} | x in s ensures s[0].value <= x.value {
        var i :| 0 <= i < |s| && s[i] == x;
        RootLeast(Keys(s), i);
      }
    }

    method Leave(e: Item)
      requires Valid() && multiset(p[..n])[e] == 0
      modifies e`idx
      ensures Valid() && e.idx == -1 && Items() == old(Items()) && p == old(p) && n == old(n)
    {
      ghost var s, v := p[..n], Keys(p[..n]);
      assert e !in s;
      e.idx := -1;
      assert Keys(s) == v;
    }

    /** The last item settles at h, or leaves its place if that is h. */
    method Settle(h: nat, last: Item, ghost s: seq<Item?>, ghost z: Origin) returns (ghost steps: nat)
      requires Leaving(s, last, z) && h <= n && z.items == Without(s, s[h])
      modifies p, z.all`idx, last`idx
      ensures Valid() && p == old(p) && n == old(n) && multiset(p[..n]) == z.items && z.items[s[h]] == 0
      ensures Pow2(steps) <= n + 1
    {
      hide Ordered, View, Sifting, Almost, MaySink, MayRise, Keys, Without;
      if h == n {
        VacatedLast(s, last, z);
      } else {
        Vacated(s, h, last, z);
        Direction(h, last, z);
      }
      if h > 0 && p[Parent(h)].value > last.value {
        steps := ShiftUpUnconditional(h, last, z);
      } else {
        steps := ShiftDown(h, last, z);
      }
    }

    /** The bodies of min_heap_pop_, with h == 0, and of min_heap_erase_: the last item takes the place of e. */
    method RemoveAt(e: Item, h: nat) returns (ghost steps: nat)
      requires Valid() && h < n && p[h] == e
      modifies this`n, p, Members()`idx
      ensures Valid() && p == old(p) && n == old(n) - 1 && e.idx == -1
      ensures multiset(Items()) == Without(old(Items()), e)
      ensures Pow2(steps) <= n + 1
    {
      hide Ordered, Members, Keys, Without;
      ghost var s, all := p[..n], Members();
      AreMembers();
      n := n - 1;
      var last := p[n];
      steps := Settle(h, last, s, Origin(Without(s, e), p[n..], all));
      hide Full, Indexed, Valid;
      Leave(e);
    }

    /** min_heap_pop_ */
    method Pop() returns (e: Item?, ghost steps: nat)
      requires Valid()
      modifies this`n, p, Members()`idx
      ensures Valid() && p == old(p) && (e == null <==> old(n) == 0)
      ensures e == null ==> n == 0
      ensures e != null ==> e in old(Items()) && e.idx == -1 && n == old(n) - 1
      ensures e != null ==> forall x: Item {:trigger x in old(Items())} | x in old(Items()) :: e.value <= x.value
      ensures e != null ==> multiset(Items()) == Without(old(Items()), e)
      ensures Pow2(steps) <= n + 1
    {
      hide Ordered, Without, Members;
      e, steps := null, 0;
      if n != 0 {
        TopLeast(Items());
        e := p[0];
        steps := RemoveAt(e, 0);
      }
    }

    /** min_heap_erase_ */
    method Erase(e: Item) returns (ok: bool, ghost steps: nat)
      requires Valid() && (e.idx != -1 ==> e in Items())
      modifies this`n, p, Members()`idx
      ensures Valid() && p == old(p) && (ok <==> old(e.idx) != -1) && e.idx == -1
      ensures ok ==> n == old(n) - 1 && multiset(Items()) == Without(old(Items()), e)
      ensures !ok ==> n == old(n) && Items() == old(Items())
      ensures Pow2(steps) <= n + 1
    {
      hide Ordered, Without, Members;
      ok, steps := false, 0;
      if -1 != e.idx {
        Place(e);
        steps := RemoveAt(e, e.idx);
        ok := true;
      }
    }

    lemma Place(e: Item)
      requires Valid() && e in Items()
      ensures 0 <= e.idx < n && p[e.idx] == e
    {
      var i :| 0 <= i < n && Items()[i] == e;
    }

    /** A heap in which the key of e may have changed. */
    ghost predicate Shaken(e: Item)
      reads this, p, p[..], e
    {
      && n <= p.Length && Full(p[..n]) && Indexed(p[..n], -1) && 0 <= e.idx < n && p[e.idx] == e
      && Almost(Keys(p[..n]), e.idx)
    }

    /** min_heap_adjust_ */
    method Adjust(e: Item, granted: bool) returns (ok: bool, ghost steps: nat)
      requires if e.idx == -1 then Valid() && n < MAX_ITEMS && e !in Items() else Shaken(e)
      modifies this, p, Members()`idx, e`idx
      ensures Valid()
      ensures (old(e.idx) != -1 ==> ok && p == old(p) && n == old(n) && multiset(Items()) == multiset(old(Items())))
      ensures old(e.idx) == -1 && ok ==> n == old(n) + 1 && multiset(Items()) == multiset(old(Items())) + multiset{e}
      ensures !ok ==> Items() == old(Items())
      ensures Pow2(steps) <= n + 1
    {
      if -1 == e.idx {
        ok, steps := Push(e, granted);
      } else {
        steps := Resift(e);
        ok := true;
      }
    }

    method Resift(e: Item) returns (ghost steps: nat)
      requires Shaken(e)
      modifies p, Members()`idx, e`idx
      ensures Valid() && p == old(p) && n == old(n) && multiset(Items()) == multiset(old(Items()))
      ensures Pow2(steps) <= n + 1
    {
      hide Ordered, View, Almost, MaySink, MayRise, Members;
      ghost var z := Origin(multiset(p[..n]), p[n..], Members());
      var h := e.idx;
      AreMembers();
      Lifted(e, z);
      Direction(h, e, z);
      if h > 0 && p[Parent(h)].value > e.value {
        steps := ShiftUpUnconditional(h, e, z);
      } else {
        steps := ShiftDown(h, e, z);
      }
    }

    lemma Lifted(e: Item, z: Origin)
      requires Shaken(e) && z.items == multiset(p[..n]) && z.tail == p[n..]
      requires forall i {:trigger p[..n][i]} | 0 <= i < n :: p[..n][i] in z.all
      ensures Sifting(e.idx, e, z) && Almost(View(e.idx, e), e.idx)
    {
      assert p[..n][e.idx := e] == p[..n];
      forall i {:trigger p[i]} | 0 <= i < n
        ensures p[i] == p[..n][i] && p[i] != null && p[i] in z.all && p[i].idx == i
      {
        Recall(p[..n][i] == p[..n][i]);
      }
    }

    /** The client changes a key and has the heap adjusted. */
    method Rekey(e: Item, x: int) returns (ghost steps: nat)
      requires Valid() && e in Items()
      modifies e, this, p, Members()`idx
      ensures Valid() && multiset(Items()) == multiset(old(Items())) && e.value == x
      ensures Pow2(steps) <= n + 1
    {
      hide Ordered, Almost;
      Place(e);
      ghost var v := Keys(p[..n]);
      Rekeyed(v, e.idx, x);
      e.value := x;
      assert Keys(p[..n]) == v[e.idx := x];
      var ok;
      ok, steps := Adjust(e, true);
    }
  }

  ghost predicate Sorted(s: seq<Item?>)
    requires Full(s)
    reads (set x: Item | x in s)`value
  {
    forall i, j {:trigger s[i], s[j]} | 0 <= i < j < |s| :: s[i].value <= s[j].value
  }

  /** Every item in out comes before every item in rest. */
  ghost predicate Before(out: seq<Item?>, rest: seq<Item?>)
    requires Full(out) && Full(rest)
    reads (set x: Item | x in out + rest)`value
  {
    forall i, j {:trigger out[i], rest[j]} | 0 <= i < |out| && 0 <= j < |rest| :: out[i].value <= rest[j].value
  }

  lemma NextSorted(out: seq<Item?>, was: seq<Item?>, rest: seq<Item?>, e: Item)
    requires Full(out) && Full(was) && Full(rest) && Sorted(out) && Before(out, was)
    requires e in was && multiset(rest) == Without(was, e)
    requires forall x: Item {:trigger x in was} | x in was :: e.value <= x.value
    ensures Sorted(out + [e]) && Before(out + [e], rest)
    ensures multiset(out + [e]) + multiset(rest) == multiset(out) + multiset(was)
    ensures forall x {:trigger x in rest} | x in rest :: x in was
  {
    var i0 :| 0 <= i0 < |was| && was[i0] == e;
    forall j | 0 <= j < |rest| ensures rest[j] in was {
      assert multiset(rest)[rest[j]] > 0;
    }
    forall i, j {:trigger (out + [e])[i], rest[j]} | 0 <= i <= |out| && 0 <= j < |rest|
      ensures (out + [e])[i].value <= rest[j].value
    {
      var k :| 0 <= k < |was| && was[k] == rest[j];
      if i < |out| {
        assert out[i].value <= was[k].value;
      }
    }
    forall i, j {:trigger (out + [e])[i], (out + [e])[j]} | 0 <= i < j <= |out|
      ensures (out + [e])[i].value <= (out + [e])[j].value
    {
      assert out[i].value <= was[i0].value;
    }
  }

  /** The items of all have been popped into out, in order, or are still in rest. */
  ghost predicate Draining(out: seq<Item?>, rest: seq<Item?>, all: multiset<Item?>)
    reads (set x: Item | x in out + rest)`value
  {
    Full(out) && Full(rest) && Sorted(out) && Before(out, rest) && multiset(out) + multiset(rest) == all
  }

  method PopTo(heap: MinHeap, out: seq<Item?>, ghost all: multiset<Item?>) returns (out': seq<Item?>)
    requires heap.Valid() && heap.n > 0 && Draining(out, heap.Items(), all)
    modifies heap`n, heap.p, heap.Members()`idx
    ensures heap.Valid() && heap.p == old(heap.p) && heap.Members() <= old(heap.Members()) && heap.n == old(heap.n) - 1
    ensures Draining(out', heap.Items(), all)
  {
    hide Ordered, Indexed, Sorted, Before, Without;
    ghost var was, old0 := heap.Items(), heap.Members();
    var e, steps := heap.Pop();
    NextSorted(out, was, heap.Items(), e);
    out' := out + [e];
    forall x | x in heap.Members() ensures x in old0 {
      assert x in heap.Items();
    }
  }

  /** Repeated popping yields all items in sorted order. */
  method Drain(heap: MinHeap) returns (out: seq<Item?>)
    requires heap.Valid()
    modifies heap`n, heap.p, heap.Members()`idx
    ensures heap.Valid() && heap.n == 0 && Full(out) && Sorted(out) && multiset(out) == multiset(old(heap.Items()))
  {
    ghost var all := multiset(heap.Items());
    out := [];
    assert Draining(out, heap.Items(), all);
    while heap.n != 0
      invariant heap.Valid() && heap.p == old(heap.p) && heap.Members() <= old(heap.Members())
      invariant Draining(out, heap.Items(), all)
      decreases heap.n
    {
      hide Draining, MinHeap.Valid;
      out := PopTo(heap, out, all);
    }
    assert heap.Items() == [];
  }
}
