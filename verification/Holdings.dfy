/** What a client owns: pointers, and the contents of the blocks that they lead to. */
module Holdings {
  import opened Config
  import opened Tiling
  import opened Segments
  import opened Frames
  import opened Stores
  import opened Pointers
  import B = Bins

  /** A pointer and the number of bytes that the client has asked for. */
  datatype Slot = Slot(p: Addr, size: nat)

  /** All that memory holds at an address: the byte of the client, and the words that the allocator keeps. */
  datatype Cell = Cell(byte: int, word: (int, Head), link: (int, int, int, int, int, int, int, int))

  type Contents = seq<Cell>

  function CellAt(d: Words, s: Store, x: Addr): Cell {
    Cell(At(d, x), Word(s.h, x), B.LinkWord(s.l, x))
  }

  function Snapshot(d: Words, s: Store, p: Addr, n: nat): (c: Contents)
    ensures |c| == n && forall k | 0 <= k < n :: c[k] == CellAt(d, s, p + 2 * W + k)
  {
    seq(n, k => CellAt(d, s, p + 2 * W + k))
  }

  ghost predicate SlotOk(d: Words, s: Store, slot: Slot, c: Contents) {
    && |c| == slot.size && (slot.p == NULL ==> slot.size == 0)
    && (slot.p != NULL ==> Live(s.h, slot.p) && slot.size + OVERHEAD <= SizeAt(s.h, slot.p)
                           && c == Snapshot(d, s, slot.p, slot.size))
  }

  ghost predicate Distinct(slots: seq<Slot>, i: int, j: int) {
    0 <= i < j < |slots| && slots[i].p != NULL ==> slots[i].p != slots[j].p
  }

  /** The client owns different blocks that are large enough, and reads in each what mem says. */
  ghost predicate Held(d: Words, s: Store, slots: seq<Slot>, mem: seq<Contents>) {
    && |mem| == |slots|
    && (forall i, j {:trigger Distinct(slots, i, j)} :: Distinct(slots, i, j))
    && (forall i {:trigger mem[i]} | 0 <= i < |mem| :: SlotOk(d, s, slots[i], mem[i]))
  }

  /** Payloads of different blocks do not overlap. */
  lemma PayloadsApart(h: Heap, p: Addr, q: Addr, k: nat, n: nat)
    requires Tiled(h) && Live(h, p) && Live(h, q) && p != q && k + OVERHEAD <= SizeAt(h, p)
    requires n + OVERHEAD <= SizeAt(h, q)
    ensures p + 2 * W + k <= q + 2 * W || q + 2 * W + n <= p + 2 * W
  {
    Recall(Apart(h, p, q));
    Recall(Apart(h, q, p));
  }

  lemma SlotKept(d: Words, e: Words, s: Store, z: Store, slot: Slot, c: Contents)
    requires SlotOk(d, s, slot, c) && (slot.p != NULL ==> SameBlock(s, z, slot.p))
    requires slot.p != NULL ==>
      forall x {:trigger At(e, x)} | slot.p + 2 * W <= x < slot.p + 2 * W + slot.size :: At(e, x) == At(d, x)
    ensures SlotOk(e, z, slot, c)
  {
    if slot.p != NULL {
      var now := Snapshot(e, z, slot.p, slot.size);
      forall k | 0 <= k < slot.size ensures now[k] == c[k] {
        var x := slot.p + 2 * W + k;
        Recall(At(e, x) == At(d, x));
        Recall(Word(z.h, x) == Word(s.h, x));
        Recall(B.LinkWord(z.l, x) == B.LinkWord(s.l, x));
      }
      assert now == c;
    }
  }

  /** Block i has been replaced by a block p of n bytes, or by none. */
  lemma HeldSet(d: Words, e: Words, s: Store, z: Store, slots: seq<Slot>, mem: seq<Contents>, i: nat, p: Addr, n: nat)
    requires Held(d, s, slots, mem) && i < |slots| && SpareLive(s, z, {slots[i].p, p}) && (p == NULL ==> n == 0)
    requires p != NULL ==> Tiled(z.h) && Live(z.h, p) && n + OVERHEAD <= SizeAt(z.h, p)
    requires p == NULL || p == slots[i].p || !Live(s.h, p)
    requires StoredOnly(d, e, p + 2 * W, p + 2 * W + n)
    ensures Held(e, z, slots[i := Slot(p, n)], mem[i := if p == NULL then [] else Snapshot(e, z, p, n)])
  {
    var slots', mem' := slots[i := Slot(p, n)], mem[i := if p == NULL then [] else Snapshot(e, z, p, n)];
    forall j {:trigger mem'[j]} | 0 <= j < |mem'| ensures SlotOk(e, z, slots'[j], mem'[j]) {
      if j != i {
        assert mem'[j] == mem[j];
        Recall(Distinct(slots, i, j));
        Recall(Distinct(slots, j, i));
        OtherKept(d, e, s, z, slots[j], mem[j], slots[i].p, p, n);
      }
    }
    forall j, k {:trigger Distinct(slots', j, k)} ensures Distinct(slots', j, k) {
      Recall(Distinct(slots, j, k));
      Recall(Distinct(slots, i, j));
      Recall(Distinct(slots, i, k));
      Recall(Distinct(slots, k, i));
      Recall(Distinct(slots, j, i));
      if 0 <= j < k < |slots| {
        assert mem[j] == mem[j] && mem[k] == mem[k];
      }
    }
  }

  lemma OtherKept(d: Words, e: Words, s: Store, z: Store, slot: Slot, c: Contents, q: Addr, p: Addr, n: nat)
    requires SlotOk(d, s, slot, c) && SpareLive(s, z, {q, p}) && (slot.p != NULL ==> slot.p != q && slot.p != p)
    requires p != NULL ==> Tiled(z.h) && Live(z.h, p) && n + OVERHEAD <= SizeAt(z.h, p)
    requires StoredOnly(d, e, p + 2 * W, p + 2 * W + n) && (p == NULL ==> n == 0)
    ensures SlotOk(e, z, slot, c)
  {
    if slot.p != NULL {
      Recall(SameBlock(s, z, slot.p));
      if p != NULL {
        PayloadsApart(z.h, p, slot.p, n, slot.size);
      }
    }
    SlotKept(d, e, s, z, slot, c);
  }

  lemma HeldSpared(d: Words, s: Store, z: Store, slots: seq<Slot>, mem: seq<Contents>)
    requires Held(d, s, slots, mem) && SpareLive(s, z, {})
    ensures Held(d, z, slots, mem)
  {
    forall j {:trigger mem[j]} | 0 <= j < |mem| ensures SlotOk(d, z, slots[j], mem[j]) {
      if slots[j].p != NULL {
        Recall(SameBlock(s, z, slots[j].p));
      }
      SlotKept(d, d, s, z, slots[j], mem[j]);
    }
  }

  lemma HeldNull(d: Words, s: Store, slots: seq<Slot>, mem: seq<Contents>)
    requires Held(d, s, slots, mem)
    ensures Held(d, s, slots + [Slot(NULL, 0)], mem + [[]])
  {
    var slots', mem' := slots + [Slot(NULL, 0)], mem + [[]];
    forall j {:trigger mem'[j]} | 0 <= j < |mem'| ensures SlotOk(d, s, slots'[j], mem'[j]) {
      if j < |mem| {
        assert mem'[j] == mem[j];
      }
    }
    forall j, k {:trigger Distinct(slots', j, k)} ensures Distinct(slots', j, k) {
      Recall(Distinct(slots, j, k));
    }
  }

  lemma OwnsSlot(d: Words, s: Store, slots: seq<Slot>, mem: seq<Contents>, i: nat)
    requires Held(d, s, slots, mem) && i < |slots|
    ensures |mem| == |slots| && |mem[i]| == slots[i].size && (slots[i].p == NULL ==> slots[i].size == 0)
    ensures slots[i].p != NULL
      ==> Live(s.h, slots[i].p) && slots[i].size + OVERHEAD <= SizeAt(s.h, slots[i].p)
          && mem[i] == Snapshot(d, s, slots[i].p, slots[i].size)
  {
    Recall(mem[i] == mem[i]);
  }

  lemma SlotsApart(d: Words, s: Store, slots: seq<Slot>, mem: seq<Contents>, i: nat, j: nat)
    requires Held(d, s, slots, mem) && Tiled(s.h)
    requires i < |slots| && j < |slots| && i != j && slots[i].p != NULL && slots[j].p != NULL
    ensures var p, q := slots[i].p + 2 * W, slots[j].p + 2 * W; p + slots[i].size <= q || q + slots[j].size <= p
  {
    OwnsSlot(d, s, slots, mem, i);
    OwnsSlot(d, s, slots, mem, j);
    Recall(Distinct(slots, i, j));
    Recall(Distinct(slots, j, i));
    PayloadsApart(s.h, slots[i].p, slots[j].p, slots[i].size, slots[j].size);
  }

  // ---- many blocks at once ----

  /** Blocks that lie one behind the other. */
  ghost predicate InChain(h: Heap, cs: seq<Addr>) {
    && (forall i {:trigger cs[i]} | 0 <= i < |cs| :: Live(h, cs[i]))
    && (forall i: nat {:trigger Linked(h, cs, i)} | i + 1 < |cs| :: Linked(h, cs, i))
  }

  ghost predicate Linked(h: Heap, cs: seq<Addr>, i: nat)
    requires i + 1 < |cs|
  {
    cs[i + 1] == Next(h, cs[i])
  }

  lemma {:induction false} ChainUp(h: Heap, cs: seq<Addr>, i: nat, j: nat)
    requires Tiled(h) && InChain(h, cs) && i < j < |cs|
    ensures cs[i] < Next(h, cs[i]) <= cs[j]
  {
    Recall(Linked(h, cs, j - 1));
    Recall(ChunkOk(h, cs[i]));
    if i < j - 1 {
      ChainUp(h, cs, i, j - 1);
      Recall(ChunkOk(h, cs[j - 1]));
    }
  }

  /** A block behind the first one that is none of them is behind all. */
  lemma {:induction false} BehindChain(h: Heap, cs: seq<Addr>, q: Addr, i: nat)
    requires Tiled(h) && InChain(h, cs) && i < |cs| && Live(h, q) && q !in cs && cs[0] <= q
    ensures Next(h, cs[i]) <= q
  {
    if i > 0 {
      BehindChain(h, cs, q, i - 1);
      Recall(Linked(h, cs, i - 1));
    }
    Recall(Apart(h, cs[i], q));
  }

  lemma OutsideChain(h: Heap, cs: seq<Addr>, q: Addr, n: nat)
    requires Tiled(h) && InChain(h, cs) && cs != [] && Live(h, q) && q !in cs && n + OVERHEAD <= SizeAt(h, q)
    ensures q + 2 * W + n < cs[0] + 2 * W || Next(h, cs[|cs| - 1]) + W < q + 2 * W
  {
    if cs[0] <= q {
      BehindChain(h, cs, q, |cs| - 1);
    } else {
      Recall(Live(h, cs[0]));
      Recall(Apart(h, q, cs[0]));
    }
  }

  function Slots(cs: seq<Addr>, sizes: seq<nat>): (r: seq<Slot>)
    requires |cs| == |sizes|
    ensures |r| == |cs|
  {
    seq(|cs|, i requires 0 <= i < |cs| => Slot(cs[i], sizes[i]))
  }

  ghost function Snapshots(d: Words, s: Store, cs: seq<Addr>, sizes: seq<nat>): (r: seq<Contents>)
    requires |cs| == |sizes|
    ensures |r| == |cs|
  {
    seq(|cs|, i requires 0 <= i < |cs| => Snapshot(d, s, cs[i], sizes[i]))
  }

  /** Block c is new and has room for n bytes. */
  ghost predicate NewRoom(s: Store, z: Store, c: Addr, n: nat) {
    !Live(s.h, c) && n + OVERHEAD <= SizeAt(z.h, c)
  }

  /** New blocks one behind the other have come, and bytes were stored only inside of them. */
  lemma HeldChain(d: Words, e: Words, s: Store, z: Store, slots: seq<Slot>, mem: seq<Contents>, cs: seq<Addr>,
                  sizes: seq<nat>)
    requires Held(d, s, slots, mem) && |cs| == |sizes| > 0 && Tiled(z.h) && InChain(z.h, cs)
    requires SpareLive(s, z, set c | c in cs)
    requires forall i {:trigger cs[i]} | 0 <= i < |cs| :: NewRoom(s, z, cs[i], sizes[i])
    requires StoredOnly(d, e, cs[0] + 2 * W, Next(z.h, cs[|cs| - 1]) + W)
    ensures Held(e, z, slots + Slots(cs, sizes), mem + Snapshots(e, z, cs, sizes))
  {
    hide Live, SizeAt, Tiled, SpareLive, NewRoom;
    var slots', mem' := slots + Slots(cs, sizes), mem + Snapshots(e, z, cs, sizes);
    forall j {:trigger mem'[j]} | 0 <= j < |mem'| ensures SlotOk(e, z, slots'[j], mem'[j]) {
      if j < |mem| {
        assert mem'[j] == mem[j];
        OldKept(d, e, s, z, slots[j], mem[j], cs, sizes);
      } else {
        var i := j - |mem|;
        NewOk(e, s, z, cs[i], sizes[i]);
      }
    }
    forall i, j {:trigger Distinct(slots', i, j)} ensures Distinct(slots', i, j) {
      Recall(Distinct(slots, i, j));
      if 0 <= i < j < |slots'| && j >= |slots| {
        if i >= |slots| {
          ChainUp(z.h, cs, i - |slots|, j - |slots|);
        } else if slots[i].p != NULL {
          assert mem[i] == mem[i];
          NotNew(d, s, z, slots[i], mem[i], cs, j - |slots|, sizes);
        }
      }
    }
  }

  lemma NotNew(d: Words, s: Store, z: Store, slot: Slot, c: Contents, cs: seq<Addr>, i: nat, sizes: seq<nat>)
    requires SlotOk(d, s, slot, c) && slot.p != NULL && i < |cs| == |sizes| && NewRoom(s, z, cs[i], sizes[i])
    ensures slot.p != cs[i]
  {
  }

  lemma NewOk(e: Words, s: Store, z: Store, c: Addr, n: nat)
    requires Tiled(z.h) && Live(z.h, c) && NewRoom(s, z, c, n)
    ensures SlotOk(e, z, Slot(c, n), Snapshot(e, z, c, n))
  {
    Recall(ChunkOk(z.h, c));
  }

  lemma OldKept(d: Words, e: Words, s: Store, z: Store, slot: Slot, c: Contents, cs: seq<Addr>, sizes: seq<nat>)
    requires SlotOk(d, s, slot, c) && SpareLive(s, z, set x | x in cs) && Tiled(z.h) && InChain(z.h, cs) && cs != []
    requires |cs| == |sizes| && forall i {:trigger cs[i]} | 0 <= i < |cs| :: NewRoom(s, z, cs[i], sizes[i])
    requires StoredOnly(d, e, cs[0] + 2 * W, Next(z.h, cs[|cs| - 1]) + W)
    ensures SlotOk(e, z, slot, c)
  {
    if slot.p != NULL {
      assert slot.p !in cs;
      Recall(SameBlock(s, z, slot.p));
      OutsideChain(z.h, cs, slot.p, slot.size);
    }
    SlotKept(d, e, s, z, slot, c);
  }

  /** Some blocks were freed. */
  lemma HeldLess(d: Words, s: Store, z: Store, slots: seq<Slot>, mem: seq<Contents>, gone: set<nat>, act: set<Addr>,
                 slots': seq<Slot>, mem': seq<Contents>)
    requires Held(d, s, slots, mem) && SpareLive(s, z, act) && |slots'| == |mem'| == |slots|
    requires forall j {:trigger slots'[j]} | 0 <= j < |slots| ::
      slots'[j] == if j in gone then Slot(NULL, 0) else slots[j]
    requires forall j {:trigger mem'[j]} | 0 <= j < |slots| :: mem'[j] == if j in gone then [] else mem[j]
    requires forall j {:trigger slots[j]} | 0 <= j < |slots| && j !in gone && slots[j].p != NULL :: slots[j].p !in act
    ensures Held(d, z, slots', mem')
  {
    hide Live, SpareLive;
    forall j {:trigger mem'[j]} | 0 <= j < |mem'| ensures SlotOk(d, z, slots'[j], mem'[j]) {
      if j !in gone {
        assert mem'[j] == mem[j] && slots'[j] == slots[j];
        StillOk(d, s, z, slots[j], mem[j], act);
      }
    }
    forall i, j {:trigger Distinct(slots', i, j)} ensures Distinct(slots', i, j) {
      Recall(Distinct(slots, i, j));
    }
  }

  lemma StillOk(d: Words, s: Store, z: Store, slot: Slot, c: Contents, act: set<Addr>)
    requires SlotOk(d, s, slot, c) && SpareLive(s, z, act) && (slot.p != NULL ==> slot.p !in act)
    ensures SlotOk(d, z, slot, c)
  {
    if slot.p != NULL {
      Recall(SameBlock(s, z, slot.p));
    }
    SlotKept(d, d, s, z, slot, c);
  }
}
