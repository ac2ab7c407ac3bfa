/** Runs of a client that frees and resizes only what it owns: what it stores is what it reads. */
module Clients {
  import opened Config
  import opened Tiling
  import opened Segments
  import opened Frames
  import opened Stores
  import opened Alignments
  import opened Pointers
  import opened Holdings
  import opened Mstate
  import B = Bins

  /** The calls of a client.  It numbers its pointers in the order in which it gets them. */
  datatype Op = Malloc(bytes: nat) | Calloc(n: nat, size: nat) | Memalign(alignment: nat, bytes: nat)
              | Realloc(i: nat, bytes: nat) | Free(i: nat) | Write(i: nat, k: nat, x: int) | Trim(pad: nat)
              | IndependentCalloc(n: nat, size: nat, given: bool) | IndependentComalloc(sizes: seq<nat>, given: bool)
              | BulkFree(which: seq<nat>)

  /** Arguments of type size_t, an alignment for which memalign ends, elements whose sizes can be added up, and no
      block that is freed twice. */
  ghost predicate Possible(op: Op) {
    match op
    case Malloc(bytes) => bytes < MOD
    case Calloc(n, size) => n < MOD && size < MOD
    case Memalign(alignment, bytes) => alignment <= HALF && bytes < MOD
    case Realloc(_, bytes) => bytes < MOD
    case IndependentCalloc(n, size, given) => Addable([size], true, n, given)
    case IndependentComalloc(sizes, given) => Addable(sizes, false, |sizes|, given)
    case BulkFree(which) => forall a, b {:trigger which[a], which[b]} | 0 <= a < b < |which| :: which[a] != which[b]
    case _ => true
  }

  ghost predicate Addable(sizes: seq<nat>, same: bool, n: nat, given: bool)
    requires if same then |sizes| > 0 else n <= |sizes|
  {
    Mstate.ContentsFrom(sizes, same, n, 0) + Mstate.ArraySize(n, given) < MOD
  }

  ghost predicate Grown(u: seq<Contents>, v: seq<Contents>, size: int) {
    |v| == |u| + 1 && v[..|u|] == u && (|v[|u|]| == 0 || |v[|u|]| == size)
  }

  ghost predicate AllZero(c: Contents) {
    forall k {:trigger c[k]} | 0 <= k < |c| :: c[k].byte == 0
  }

  /** Blocks of these sizes have come, and one for the array of pointers unless it is given; or nothing has. */
  ghost predicate ManyMore(u: seq<Contents>, v: seq<Contents>, sizes: seq<nat>, given: bool, zero: bool) {
    v == u || (
      && |v| == |u| + |sizes| + (if given then 0 else 1) && v[..|u|] == u && (!given ==> |v[|v| - 1]| == |sizes| * W)
      && forall i {:trigger sizes[i]} | 0 <= i < |sizes| ::
           |v[|u| + i]| == sizes[i] && (zero ==> AllZero(v[|u| + i])))
  }

  /** c is the beginning of b, or b is the beginning of c, as far as the client is concerned. */
  ghost predicate Resized(b: Contents, c: Contents, size: nat) {
    |c| == size && forall k {:trigger c[k]} | 0 <= k < |b| && k < |c| :: c[k].byte == b[k].byte
  }

  /** What a call does to the contents of the blocks: the specification of memory. */
  ghost predicate Effect(op: Op, u: seq<Contents>, v: seq<Contents>) {
    match op
    case Malloc(bytes) => Grown(u, v, bytes)
    case Calloc(n, size) =>
      Grown(u, v, n * size) && AllZero(v[|u|])
    case Memalign(_, bytes) => Grown(u, v, bytes)
    case Realloc(i, bytes) =>
      v == u || (i < |u| && |v| == |u| && Resized(u[i], v[i], bytes) && v == u[i := v[i]])
    case Free(i) => v == if i < |u| then u[i := []] else u
    case Write(i, k, x) => v == if i < |u| && k < |u[i]| then u[i := u[i][k := u[i][k].(byte := x)]] else u
    case Trim(_) => v == u
    case IndependentCalloc(n, size, given) => ManyMore(u, v, seq(n, i => size), given, true)
    case IndependentComalloc(sizes, given) => ManyMore(u, v, sizes, given, false)
    case BulkFree(which) => |v| == |u| && forall i | 0 <= i < |u| :: v[i] == if i in which then [] else u[i]
  }

  // ---- the calls ----

  ghost predicate Good(m: Mstate, slots: seq<Slot>, mem: seq<Contents>)
    reads m, m.bins, m.bins.small, m.bins.large
  {
    m.Valid() && Held(m.data, m.Image(), slots, mem)
  }

  lemma OwnerTiled(m: Mstate, p: Addr)
    requires m.Valid() && Live(m.H(), p)
    ensures Tiled(m.H()) && p != NULL
  {
    Recall(ChunkOk(m.H(), p));
  }

  /** malloc, calloc and memalign: block p of n bytes is new, or p is NULL. */
  lemma Received(m: Mstate, d: Words, s: Store, slots: seq<Slot>, mem: seq<Contents>, p: Addr, n: nat)
    returns (mem': seq<Contents>)
    requires m.Valid() && Held(d, s, slots, mem) && StoredOnly(d, m.data, p + 2 * W, p + 2 * W + n)
    requires if p == NULL then SpareLive(s, m.Image(), {}) && n == 0
             else SpareLive(s, m.Image(), {p}) && Live(m.H(), p) && !Live(s.h, p) && n + OVERHEAD <= SizeAt(m.H(), p)
    ensures Good(m, slots + [Slot(p, n)], mem') && Grown(mem, mem', n)
    ensures p != NULL ==> mem'[|mem|] == Snapshot(m.data, m.Image(), p, n)
  {
    hide B.Bins.Valid, B.Bins.Content, B.Bins.Fields, Tiled, Mstate.Valid, Held;
    if p != NULL {
      OwnerTiled(m, p);
    }
    HeldNull(d, s, slots, mem);
    HeldSet(d, m.data, s, m.Image(), slots + [Slot(NULL, 0)], mem + [[]], |mem|, p, n);
    mem' := (mem + [[]])[|mem| := if p == NULL then [] else Snapshot(m.data, m.Image(), p, n)];
    assert slots + [Slot(p, n)] == (slots + [Slot(NULL, 0)])[|mem| := Slot(p, n)];
  }

  method Allocate(m: Mstate, op: Op, slots: seq<Slot>, ghost mem: seq<Contents>)
    returns (slots': seq<Slot>, ghost mem': seq<Contents>)
    requires Good(m, slots, mem) && Possible(op) && (op.Malloc? || op.Calloc? || op.Memalign?)
    modifies m, m.bins.small, m.bins.large
    ensures Good(m, slots', mem') && Effect(op, mem, mem')
  {
    hide B.Bins.Valid, B.Bins.Content, B.Bins.Fields, Tiled, Mstate.Valid, Held, SpareLive, Live;
    ghost var d, s := m.data, m.Image();
    var p, n;
    match op {
      case Malloc(bytes) =>
        p := m.DlMalloc(bytes);
        n := if p == NULL then 0 else bytes;
      case Calloc(count, size) =>
        p := m.DlCalloc(count, size);
        n := if p == NULL then 0 else count * size;
      case Memalign(alignment, bytes) =>
        p := m.Memalign(alignment, bytes);
        n := if p == NULL then 0 else bytes;
    }
    slots' := slots + [Slot(p, n)];
    mem' := Received(m, d, s, slots, mem, p, n);
  }

  lemma PrefixMoved(d: Words, e: Words, s: Store, z: Store, q: Addr, size: nat, p: Addr, bytes: nat)
    requires forall x {:trigger At(e, x)} | p + 2 * W <= x < p + 2 * W + bytes && x < p + 2 * W + size ::
      At(e, x) == At(d, x - p + q)
    ensures Resized(Snapshot(d, s, q, size), Snapshot(e, z, p, bytes), bytes)
  {
    var b, c := Snapshot(d, s, q, size), Snapshot(e, z, p, bytes);
    forall k {:trigger c[k]} | 0 <= k < |b| && k < |c| ensures c[k].byte == b[k].byte {
      Recall(At(e, p + 2 * W + k) == At(d, q + 2 * W + k));
    }
  }

  method Resize(m: Mstate, i: nat, bytes: nat, slots: seq<Slot>, ghost mem: seq<Contents>)
    returns (slots': seq<Slot>, ghost mem': seq<Contents>)
    requires Good(m, slots, mem) && bytes < MOD && i < |slots|
    modifies m, m.bins.small, m.bins.large
    ensures Good(m, slots', mem') && Effect(Realloc(i, bytes), mem, mem')
  {
    hide B.Bins.Valid, B.Bins.Content, B.Bins.Fields, Tiled, Mstate.Valid, SpareLive, Live, Held;
    ghost var d, s, q := m.data, m.Image(), slots[i].p;
    slots', mem' := slots, mem;
    OwnsSlot(d, s, slots, mem, i);
    var p := m.DlRealloc(slots[i].p, bytes);
    if p != NULL {
      OwnerTiled(m, p);
      slots' := slots[i := Slot(p, bytes)];
      HeldSet(d, m.data, s, m.Image(), slots, mem, i, p, bytes);
      mem' := mem[i := Snapshot(m.data, m.Image(), p, bytes)];
      if q != NULL {
        PrefixMoved(d, m.data, s, m.Image(), q, slots[i].size, p, bytes);
      }
      assert mem' == mem[i := mem'[i]];
    } else {
      HeldSpared(d, s, m.Image(), slots, mem);
    }
  }

  method Release(m: Mstate, i: nat, slots: seq<Slot>, ghost mem: seq<Contents>)
    returns (slots': seq<Slot>, ghost mem': seq<Contents>)
    requires Good(m, slots, mem) && i < |slots|
    modifies m, m.bins.small, m.bins.large
    ensures Good(m, slots', mem') && Effect(Free(i), mem, mem')
  {
    hide B.Bins.Valid, B.Bins.Content, B.Bins.Fields, Tiled, Mstate.Valid, Live, Held, SlotOk;
    ghost var d, s := m.data, m.Image();
    OwnsSlot(d, s, slots, mem, i);
    m.DlFree(slots[i].p);
    slots', mem' := slots[i := Slot(NULL, 0)], mem[i := []];
    HeldSet(d, m.data, s, m.Image(), slots, mem, i, NULL, 0);
  }

  /** What the client asks for in each element. */
  function AskedFor(sizes: seq<nat>, same: bool, n: nat): (r: seq<nat>)
    requires if same then |sizes| > 0 else n <= |sizes|
    ensures |r| == n
  {
    seq(n, i requires 0 <= i < n => if same then sizes[0] else sizes[i])
  }

  /** The chunks that ialloc hands out, and the sizes that the client may use. */
  function Gained(chunks: seq<Addr>, marray: Addr, given: bool): seq<Addr> {
    if given then chunks else chunks + [marray]
  }

  function GainedSizes(sizes: seq<nat>, same: bool, n: nat, given: bool): (r: seq<nat>)
    requires if same then |sizes| > 0 else n <= |sizes|
    ensures |r| == if given then n else n + 1
  {
    AskedFor(sizes, same, n) + if given then [] else [n * W]
  }

  /** They lie one behind the other, are new, and fill the block. */
  lemma GainedChain(m: Mstate, s: Store, chunks: seq<Addr>, marray: Addr, sizes: seq<nat>, same: bool, n: nat,
                    given: bool, total: nat)
    requires n > 0 && if same then |sizes| > 0 else n <= |sizes|
    requires m.Elements(s, chunks, marray, sizes, same, n, given, total)
    ensures var cs, ns := Gained(chunks, marray, given), GainedSizes(sizes, same, n, given);
      && |cs| == |ns| > 0 && InChain(m.H(), cs) && cs[0] == chunks[0] && Next(m.H(), cs[|cs| - 1]) == chunks[0] + total
      && SpareLive(s, m.Image(), set c | c in cs)
      && forall i {:trigger cs[i]} | 0 <= i < |cs| :: NewRoom(s, m.Image(), cs[i], ns[i])
  {
    hide SpareLive, SizeAt, Live, B.Bins.Fields;
    var h, cs, ns := m.H(), Gained(chunks, marray, given), GainedSizes(sizes, same, n, given);
    assert (set c | c in cs) == m.ElementsAnd(chunks, given, marray);
    forall i {:trigger cs[i]} | 0 <= i < |cs| ensures Live(h, cs[i]) && NewRoom(s, m.Image(), cs[i], ns[i]) {
      assert cs[i] in m.ElementsAnd(chunks, given, marray);
      Recall(Live(h, cs[i]));
      if i < n {
        assert cs[i] == chunks[i];
      }
    }
    forall i: nat {:trigger Linked(h, cs, i)} | i + 1 < |cs| ensures Linked(h, cs, i) {
      assert cs[i] == chunks[i];
      if i + 1 < n {
        Recall(m.MeetsNext(h, chunks, sizes, same, i));
      }
    }
  }

  /** The client looks up its pointers in its own array, or in the array chunk. */
  method ReadPointers(m: Mstate, mems: array?<Addr>, marray: Addr, n: nat, ghost chunks: seq<Addr>)
    returns (cs: seq<Addr>)
    requires |chunks| == n
    requires mems != null ==> n <= mems.Length && forall i | 0 <= i < n :: mems[i] == m.Mem(chunks[i])
    requires mems == null ==> m.PointsTo(m.data, m.Mem(marray), chunks)
    ensures cs == chunks
  {
    cs := [];
    var i := 0;
    while i < n
      invariant i <= n && cs == chunks[..i]
    {
      var p := if mems != null then mems[i] else LoadBytes(m.data, Place(m.Mem(marray), i), W);
      assert p == m.Mem(chunks[i]);
      cs := cs + [m.ChunkOf(p)];
      i := i + 1;
    }
  }

  /** The elements of a chain are zero if the space that it takes is. */
  lemma ChainZero(d: Words, s: Store, cs: seq<Addr>, i: nat, n: nat, end: Addr)
    requires Tiled(s.h) && InChain(s.h, cs) && i < |cs| && n + OVERHEAD <= SizeAt(s.h, cs[i])
    requires Next(s.h, cs[i]) + W <= end
    requires forall x {:trigger At(d, x)} | cs[0] + 2 * W <= x < end :: At(d, x) == 0
    ensures AllZero(Snapshot(d, s, cs[i], n))
  {
    if i > 0 {
      ChainUp(s.h, cs, 0, i);
    }
    var c := Snapshot(d, s, cs[i], n);
    forall k {:trigger c[k]} | 0 <= k < |c| ensures c[k].byte == 0 {
      Recall(At(d, cs[i] + 2 * W + k) == 0);
    }
  }

  /** All elements of the block have come to the client. */
  lemma ReceivedMany(m: Mstate, d: Words, s: Store, slots: seq<Slot>, mem: seq<Contents>, chunks: seq<Addr>,
                     marray: Addr, sizes: seq<nat>, same: bool, n: nat, given: bool, clear: bool, total: nat)
    returns (mem': seq<Contents>)
    requires m.Valid() && Held(d, s, slots, mem) && n > 0 && if same then |sizes| > 0 else n <= |sizes|
    requires m.Elements(s, chunks, marray, sizes, same, n, given, total)
    requires StoredOnly(d, m.data, m.Mem(chunks[0]), chunks[0] + total + W)
    requires clear ==> m.Zero(m.data, m.Mem(chunks[0]), Next(m.H(), chunks[n - 1]) + W)
    ensures Good(m, slots + Slots(Gained(chunks, marray, given), GainedSizes(sizes, same, n, given)), mem')
    ensures ManyMore(mem, mem', AskedFor(sizes, same, n), given, clear)
  {
    hide B.Bins.Valid, B.Bins.Content, B.Bins.Fields, Tiled, Mstate.Valid, Held, SpareLive, Live, SizeAt;
    var cs, ns := Gained(chunks, marray, given), GainedSizes(sizes, same, n, given);
    GainedChain(m, s, chunks, marray, sizes, same, n, given, total);
    hide Mstate.Elements, NewRoom;
    Recall(Live(m.H(), cs[0]));
    OwnerTiled(m, cs[0]);
    HeldChain(d, m.data, s, m.Image(), slots, mem, cs, ns);
    mem' := mem + Snapshots(m.data, m.Image(), cs, ns);
    var asked := AskedFor(sizes, same, n);
    forall i {:trigger asked[i]} | 0 <= i < n
      ensures |mem'[|mem| + i]| == asked[i] && (clear ==> AllZero(mem'[|mem| + i]))
    {
      assert mem'[|mem| + i] == Snapshot(m.data, m.Image(), cs[i], ns[i]) && ns[i] == asked[i];
      if clear {
        ZeroElement(m, s, cs, ns, i, n);
      }
    }
  }

  lemma ZeroElement(m: Mstate, s: Store, cs: seq<Addr>, ns: seq<nat>, i: nat, n: nat)
    requires Tiled(m.H()) && InChain(m.H(), cs) && i < n <= |cs| == |ns| && NewRoom(s, m.Image(), cs[i], ns[i])
    requires m.Zero(m.data, m.Mem(cs[0]), Next(m.H(), cs[n - 1]) + W)
    ensures AllZero(Snapshot(m.data, m.Image(), cs[i], ns[i]))
  {
    hide Tiled, Live;
    if i < n - 1 {
      ChainUp(m.H(), cs, i, n - 1);
    }
    EndUp(m.H(), cs[n - 1]);
    ChainZero(m.data, m.Image(), cs, i, ns[i], Next(m.H(), cs[n - 1]) + W);
  }

  lemma EndUp(h: Heap, c: Addr)
    requires Tiled(h) && Live(h, c)
    ensures c < Next(h, c)
  {
    Recall(ChunkOk(h, c));
  }

  lemma AllElements(m: Mstate, s: Store, chunks: seq<Addr>, marray: Addr, sizes: seq<nat>, same: bool, n: nat,
                    given: bool, total: nat)
    requires n > 0 && if same then |sizes| > 0 else n <= |sizes|
    requires m.Elements(s, chunks, marray, sizes, same, n, given, total)
    ensures |chunks| == n
  {
  }

  /** independent_calloc and independent_comalloc */
  method AllocateMany(m: Mstate, n: nat, sizes: seq<nat>, same: bool, clear: bool, given: bool, slots: seq<Slot>,
                      ghost mem: seq<Contents>)
    returns (slots': seq<Slot>, ghost mem': seq<Contents>)
    requires Good(m, slots, mem) && (if same then |sizes| > 0 else n <= |sizes|) && Addable(sizes, same, n, given)
    modifies m, m.bins.small, m.bins.large
    ensures Good(m, slots', mem') && ManyMore(mem, mem', AskedFor(sizes, same, n), given, clear)
  {
    hide B.Bins.Valid, B.Bins.Content, B.Bins.Fields, Tiled, Mstate.Valid, Held, SpareLive, Live, Mstate.Elements;
    ghost var d, s := m.data, m.Image();
    slots', mem' := slots, mem;
    var mems: array?<Addr> := null;
    if given {
      mems := new Addr[n];
    }
    var done, marray;
    ghost var chunks, total;
    done, marray, chunks, total := m.IndependentAlloc(n, sizes, same, clear, mems);
    if !done {
      HeldSpared(d, s, m.Image(), slots, mem);
    } else if n == 0 && given {
      assert m.Image() == s && m.data == d;
    } else if n == 0 {
      slots' := slots + [Slot(marray, 0)];
      mem' := Received(m, d, s, slots, mem, marray, 0);
    } else {
      AllElements(m, s, chunks, marray, sizes, same, n, given, total);
      var cs := ReadPointers(m, mems, marray, n, chunks);
      slots' := slots + Slots(Gained(cs, marray, given), GainedSizes(sizes, same, n, given));
      mem' := ReceivedMany(m, d, s, slots, mem, cs, marray, sizes, same, n, given, clear, total);
    }
  }

  /** The pointer in a slot, for bulk_free. */
  function MemOf(slots: seq<Slot>, i: nat): Addr {
    if i < |slots| && slots[i].p != NULL then slots[i].p + 2 * W else NULL
  }

  /** The client's pointers in the array are those of different blocks. */
  lemma OwnsArray(m: Mstate, slots: seq<Slot>, mem: seq<Contents>, which: seq<nat>, mems: seq<Addr>)
    requires Good(m, slots, mem) && |mems| == |which| && Possible(Op.BulkFree(which))
    requires forall k {:trigger mems[k]} | 0 <= k < |mems| :: mems[k] == MemOf(slots, which[k])
    ensures m.Owned(m.H(), mems)
    ensures forall j {:trigger slots[j]} | 0 <= j < |slots| && j !in which && slots[j].p != NULL ::
      slots[j].p !in m.ChunksOf(mems)
  {
    hide B.Bins.Valid, B.Bins.Content, B.Bins.Fields, Tiled, Mstate.Valid, Live, Held;
    var d, s := m.data, m.Image();
    forall k {:trigger mems[k]} | 0 <= k < |mems| && mems[k] != NULL ensures Live(m.H(), m.ChunkOf(mems[k])) {
      OwnsSlot(d, s, slots, mem, which[k]);
    }
    forall a, b {:trigger mems[a], mems[b]} | 0 <= a < b < |mems| && mems[a] != NULL ensures mems[a] != mems[b] {
      assert which[a] != which[b];
      SlotsDiffer(d, s, slots, mem, which[a], which[b]);
    }
    forall j {:trigger slots[j]} | 0 <= j < |slots| && j !in which && slots[j].p != NULL
      ensures slots[j].p !in m.ChunksOf(mems)
    {
      if slots[j].p in m.ChunksOf(mems) {
        var k :| 0 <= k < |mems| && mems[k] != NULL && slots[j].p == m.ChunkOf(mems[k]);
        SlotsDiffer(d, s, slots, mem, j, which[k]);
        assert false;
      }
    }
  }

  lemma SlotsDiffer(d: Words, s: Store, slots: seq<Slot>, mem: seq<Contents>, i: nat, j: nat)
    requires Held(d, s, slots, mem) && i != j
    ensures i < |slots| && j < |slots| && slots[i].p != NULL ==> slots[i].p != slots[j].p
  {
    Recall(Distinct(slots, i, j));
    Recall(Distinct(slots, j, i));
  }

  /** bulk_free */
  method ReleaseMany(m: Mstate, which: seq<nat>, slots: seq<Slot>, ghost mem: seq<Contents>)
    returns (slots': seq<Slot>, ghost mem': seq<Contents>)
    requires Good(m, slots, mem) && Possible(Op.BulkFree(which))
    modifies m, m.bins.small, m.bins.large
    ensures Good(m, slots', mem') && Effect(Op.BulkFree(which), mem, mem')
  {
    hide B.Bins.Valid, B.Bins.Content, B.Bins.Fields, Tiled, Mstate.Valid, Live, Held, SpareLive, Mstate.Owned;
    ghost var d, s := m.data, m.Image();
    var mems := new Addr[|which|];
    var k := 0;
    while k < |which|
      invariant k <= |which| && forall i | 0 <= i < k :: mems[i] == MemOf(slots, which[i])
      modifies mems
    {
      mems[k] := MemOf(slots, which[k]);
      k := k + 1;
    }
    OwnsArray(m, slots, mem, which, mems[..]);
    ghost var act := m.ChunksOf(mems[..]);
    var unfreed := m.BulkFree(mems);
    SameLength(d, s, slots, mem);
    slots' := seq(|slots|, i requires 0 <= i < |slots| => if i in which then Slot(NULL, 0) else slots[i]);
    mem' := seq(|mem|, i requires 0 <= i < |mem| => if i in which then [] else mem[i]);
    HeldLess(d, s, m.Image(), slots, mem, (set i | i in which), act, slots', mem');
  }

  lemma SameLength(d: Words, s: Store, slots: seq<Slot>, mem: seq<Contents>)
    requires Held(d, s, slots, mem)
    ensures |mem| == |slots|
  {
  }

  method Poke(m: Mstate, a: Addr, x: int)
    requires m.Valid()
    modifies m`data
    ensures m.Valid() && m.Image() == old(m.Image()) && m.data == Put(old(m.data), a, x)
  {
    hide B.Bins.Valid, B.Bins.Content, B.Bins.Fields, Tiled, Placed, SegmentsOk, Grid, Binned, Accounted;
    m.data := Put(m.data, a, x);
  }

  lemma LiveTo(s: Store, p: Addr)
    ensures SpareLive(s, s, {p, p})
  {
  }

  lemma Stored(d: Words, s: Store, p: Addr, n: nat, k: nat, x: int)
    requires k < n
    ensures var c := Snapshot(d, s, p, n);
      Snapshot(Put(d, p + 2 * W + k, x), s, p, n) == c[k := c[k].(byte := x)]
  {
    var e := Put(d, p + 2 * W + k, x);
    var b, c := Snapshot(d, s, p, n), Snapshot(e, s, p, n);
    hide Snapshot, Word, B.LinkWord;
    forall j | 0 <= j < n ensures c[j] == b[k := b[k].(byte := x)][j] {
      assert At(e, p + 2 * W + j) == if j == k then x else At(d, p + 2 * W + j);
    }
  }

  lemma HeldStored(d: Words, s: Store, slots: seq<Slot>, mem: seq<Contents>, i: nat, k: nat, x: int)
    requires Held(d, s, slots, mem) && i < |slots| && k < slots[i].size && |mem[i]| == slots[i].size && Tiled(s.h)
    ensures Held(Put(d, slots[i].p + 2 * W + k, x), s, slots, mem[i := mem[i][k := mem[i][k].(byte := x)]])
  {
    hide Tiled, SpareLive, Live, Held;
    var p, n := slots[i].p, slots[i].size;
    OwnsSlot(d, s, slots, mem, i);
    LiveTo(s, p);
    HeldSet(d, Put(d, p + 2 * W + k, x), s, s, slots, mem, i, p, n);
    assert slots[i := Slot(p, n)] == slots;
    Stored(d, s, p, n, k, x);
  }

  /** The client stores a byte. */
  method StoreByte(m: Mstate, i: nat, k: nat, x: int, slots: seq<Slot>, ghost mem: seq<Contents>)
    returns (ghost mem': seq<Contents>)
    requires Good(m, slots, mem) && i < |slots|
    modifies m`data
    ensures Good(m, slots, mem') && Effect(Write(i, k, x), mem, mem')
  {
    hide B.Bins.Valid, B.Bins.Content, B.Bins.Fields, Tiled, Live, Held, Mstate.Valid, Put;
    ghost var d, s := m.data, m.Image();
    OwnsSlot(d, s, slots, mem, i);
    mem' := mem;
    if k < slots[i].size {
      OwnerTiled(m, slots[i].p);
      Poke(m, slots[i].p + 2 * W + k, x);
      HeldStored(d, s, slots, mem, i, k, x);
      mem' := mem[i := mem[i][k := mem[i][k].(byte := x)]];
    }
  }

  /** The blocks that the client owns are aligned and do not overlap. */
  lemma BlocksApart(m: Mstate, slots: seq<Slot>, mem: seq<Contents>, i: nat, j: nat)
    requires Good(m, slots, mem) && i < |slots| && j < |slots| && i != j && slots[i].p != NULL && slots[j].p != NULL
    ensures Aligned(slots[i].p + 2 * W)
    ensures var p, q := slots[i].p + 2 * W, slots[j].p + 2 * W; p + slots[i].size <= q || q + slots[j].size <= p
  {
    hide B.Bins.Valid, B.Bins.Content, B.Bins.Fields, Tiled, Mstate.Valid, Live, Held, Aligned;
    OwnsSlot(m.data, m.Image(), slots, mem, i);
    OwnerTiled(m, slots[i].p);
    OwnerAligned(m, slots[i].p);
    SlotsApart(m.data, m.Image(), slots, mem, i, j);
  }

  lemma OwnerAligned(m: Mstate, p: Addr)
    requires m.Valid() && Live(m.H(), p)
    ensures Aligned(p + 2 * W)
  {
    hide Placed, SegmentsOk, Tiled, Binned;
    assert Grid(m.H()) && Stands(m.H(), p);
    Recall(Aligned(p));
    AlignedSum(p, 2 * W);
  }

  /** One call. */
  method Step(m: Mstate, op: Op, slots: seq<Slot>, ghost mem: seq<Contents>)
    returns (slots': seq<Slot>, ghost mem': seq<Contents>)
    requires Good(m, slots, mem) && Possible(op)
    modifies m, m.bins.small, m.bins.large
    ensures Good(m, slots', mem') && Effect(op, mem, mem')
  {
    hide B.Bins.Valid, B.Bins.Content, B.Bins.Fields, Tiled, Mstate.Valid, SpareLive, Live, SlotOk;
    slots', mem' := slots, mem;
    match op {
      case Realloc(i, bytes) =>
        if i < |slots| {
          slots', mem' := Resize(m, i, bytes, slots, mem);
        }
      case Free(i) =>
        if i < |slots| {
          slots', mem' := Release(m, i, slots, mem);
        }
      case Write(i, k, x) =>
        if i < |slots| {
          mem' := StoreByte(m, i, k, x, slots, mem);
        }
      case Trim(pad) =>
        ghost var d, s := m.data, m.Image();
        var trimmed := m.SysTrim(pad);
        HeldSpared(d, s, m.Image(), slots, mem);
      case IndependentCalloc(n, size, given) =>
        slots', mem' := AllocateMany(m, n, [size], true, true, given, slots, mem);
        assert AskedFor([size], true, n) == seq(n, i => size);
      case IndependentComalloc(sizes, given) =>
        slots', mem' := AllocateMany(m, |sizes|, sizes, false, false, given, slots, mem);
        assert AskedFor(sizes, false, |sizes|) == sizes;
      case BulkFree(which) =>
        slots', mem' := ReleaseMany(m, which, slots, mem);
      case _ =>
        slots', mem' := Allocate(m, op, slots, mem);
    }
  }

  /** A run from the first call on: the contents of all blocks follow the specification of memory, and every
      check on the way succeeds. */
  method Run(ops: seq<Op>, st: State, links: B.Links, limit: nat)
    returns (m: Mstate, slots: seq<Slot>, ghost trace: seq<seq<Contents>>)
    requires st.top == st.dv == NULL && st.topsize == st.dvsize == 0
    requires forall i | 0 <= i < |ops| :: Possible(ops[i])
    ensures fresh(m) && |trace| == |ops| + 1 && trace[0] == [] && Good(m, slots, trace[|ops|])
    ensures forall i {:trigger ops[i]} | 0 <= i < |ops| :: Effect(ops[i], trace[i], trace[i + 1])
  {
    hide B.Bins.Valid, B.Bins.Content, B.Bins.Fields, Tiled, Mstate.Valid, SpareLive, Live, Effect;
    m := new Mstate(st, links, limit);
    slots, trace := [], [[]];
    var j := 0;
    while j < |ops|
      invariant 0 <= j <= |ops| && |trace| == j + 1 && trace[0] == []
      invariant fresh(m) && fresh(m.bins.small) && fresh(m.bins.large) && Good(m, slots, trace[j])
      invariant forall i {:trigger ops[i]} | 0 <= i < j :: Effect(ops[i], trace[i], trace[i + 1])
    {
      ghost var mem;
      slots, mem := Step(m, ops[j], slots, trace[j]);
      trace := trace + [mem];
      j := j + 1;
    }
  }
}
