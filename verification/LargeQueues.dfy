/** The rings of equally large chunks that hang off the trie nodes. */
module LargeQueues {
  import opened Config
  import opened Rings
  import opened Tries
  import opened TreeIndex

  type RingMap = imap<int, seq<Addr>>

  function QueueAt(m: RingMap, s: int): seq<Addr> {
    if s in m then m[s] else []
  }

  /** The ring of each size, oldest chunk first, and the fields that link it. */
  datatype Lists = Lists(ring: RingMap, fd: Words, bk: Words, index: Words)

  ghost predicate MemberOk(v: Trie, m: Lists, s: nat, p: Addr) {
    p > 0 && At(v.size, p) == s && At(m.index, p) == Index(s)
  }

  /** A chunk behind the first of its queue is not linked into the trie. */
  ghost predicate ChainOk(v: Trie, p: Addr) {
    At(v.parent, p) == At(v.child0, p) == At(v.child1, p) == NULL
  }

  ghost predicate QueueOk(v: Trie, m: Lists, s: nat) {
    var q := QueueAt(m.ring, s);
    && |q| > 0 && q[0] == At(v.node, s)
    && IsRing(q, m.bk, m.fd)
    && (forall k {:trigger q[k]} | 0 <= k < |q| :: MemberOk(v, m, s, q[k]))
    && (forall k {:trigger q[k]} | 0 < k < |q| :: ChainOk(v, q[k]))
  }

  /** A queue none of whose chunks has been touched. */
  lemma Untouched(v: Trie, m: Lists, w: Trie, n: Lists, s: nat)
    requires QueueOk(v, m, s)
    requires QueueAt(n.ring, s) == QueueAt(m.ring, s) && At(w.node, s) == At(v.node, s)
    requires forall p | p in QueueAt(m.ring, s) ::
      At(n.fd, p) == At(m.fd, p) && At(n.bk, p) == At(m.bk, p) && At(n.index, p) == At(m.index, p)
      && At(w.size, p) == At(v.size, p)
    requires forall k | 0 < k < |QueueAt(m.ring, s)| :: ChainOk(w, QueueAt(m.ring, s)[k])
    ensures QueueOk(w, n, s)
  {
    var q := QueueAt(m.ring, s);
    forall k | 0 <= k < |q| ensures LinkedAt(q, n.bk, n.fd, k) && MemberOk(w, n, s, q[k]) {
      assert q[k] in q;
      assert LinkedAt(q, m.bk, m.fd, k) && MemberOk(v, m, s, q[k]);
    }
  }

  /** x becomes the only chunk of a new queue. */
  function NewQueue(m: Lists, x: Addr, s: nat): Lists {
    m.(ring := m.ring[s := [x]], fd := Put(m.fd, x, x), bk := Put(m.bk, x, x), index := Put(m.index, x, Index(s)))
  }

  /** x joins the end of its queue: behind the newest chunk and before the trie node. */
  function Enqueue(m: Lists, x: Addr, s: nat, t: Addr): Lists {
    var f := At(m.fd, t);
    m.(ring := m.ring[s := QueueAt(m.ring, s) + [x]],
       fd := Put(Put(m.fd, t, x), x, f), bk := Put(Put(m.bk, f, x), x, t), index := Put(m.index, x, Index(s)))
  }

  /** x leaves a queue of several chunks. */
  function Dequeue(m: Lists, x: Addr, s: nat, k: nat): Lists
    requires k < |QueueAt(m.ring, s)|
  {
    var f, r := At(m.fd, x), At(m.bk, x);
    m.(ring := m.ring[s := Removed(QueueAt(m.ring, s), k)], fd := Put(m.fd, r, f), bk := Put(m.bk, f, r))
  }

  lemma NewQueueOk(w: Trie, m: Lists, x: Addr, s: nat)
    requires x > 0 && At(w.node, s) == x && At(w.size, x) == s
    ensures QueueOk(w, NewQueue(m, x, s), s)
  {
    var n := NewQueue(m, x, s);
    assert QueueAt(n.ring, s) == [x];
    assert LinkedAt([x], n.bk, n.fd, 0);
  }

  lemma EnqueueOk(v: Trie, m: Lists, w: Trie, x: Addr, s: nat)
    requires QueueOk(v, m, s) && x !in QueueAt(m.ring, s) && x > 0
    requires At(w.node, s) == At(v.node, s) && At(w.size, x) == s && ChainOk(w, x)
    requires forall k | 0 <= k < |QueueAt(m.ring, s)| :: At(w.size, QueueAt(m.ring, s)[k]) == s
    requires forall k | 0 < k < |QueueAt(m.ring, s)| :: ChainOk(w, QueueAt(m.ring, s)[k])
    ensures QueueOk(w, Enqueue(m, x, s, At(v.node, s)), s)
  {
    var q, n := QueueAt(m.ring, s), Enqueue(m, x, s, At(v.node, s));
    var l := |q| - 1;
    assert LinkedAt(q, m.bk, m.fd, 0) && LinkedAt(q, m.bk, m.fd, l);
    assert At(m.fd, q[0]) == q[l] && Next(q, l) == q[0];
    InsertRing(q, l, x, m.bk, m.fd);
    assert Inserted(q, l, x) == q + [x];
    forall k {:trigger MemberOk(w, n, s, (q + [x])[k])} | 0 <= k < |q + [x]| ensures MemberOk(w, n, s, (q + [x])[k]) {
      assert k < |q| ==> MemberOk(v, m, s, q[k]);
    }
  }

  lemma DequeueLinks(m: Lists, s: nat, k: nat)
    requires var q := QueueAt(m.ring, s); IsRing(q, m.bk, m.fd) && k < |q| && |q| >= 2
    ensures var q := QueueAt(m.ring, s);
      var n := Dequeue(m, q[k], s, k);
      && At(m.fd, q[k]) == Prev(q, k) != q[k] && At(m.bk, q[k]) == Next(q, k) != q[k]
      && At(m.bk, Prev(q, k)) == q[k] && At(m.fd, Next(q, k)) == q[k]
      && IsRing(Removed(q, k), n.bk, n.fd)
  {
    var q := QueueAt(m.ring, s);
    RemoveRing(q, k, m.bk, m.fd);
    assert LinkedAt(q, m.bk, m.fd, k);
    assert LinkedAt(q, m.bk, m.fd, if k > 0 then k - 1 else |q| - 1);
    assert LinkedAt(q, m.bk, m.fd, if k + 1 < |q| then k + 1 else 0);
  }

  /** The rest of a queue is a queue, led by its oldest chunk. */
  lemma DequeueOk(v: Trie, m: Lists, w: Trie, s: nat, k: nat)
    requires QueueOk(v, m, s) && k < |QueueAt(m.ring, s)| && |QueueAt(m.ring, s)| >= 2
    requires var q := QueueAt(m.ring, s);
      && At(w.node, s) == (if k == 0 then q[1] else q[0])
      && (forall j | 0 <= j < |q| && j != k :: At(w.size, q[j]) == s)
      && (forall j | 0 < j < |q| && j != k && q[j] != At(w.node, s) :: ChainOk(w, q[j]))
    ensures QueueOk(w, Dequeue(m, QueueAt(m.ring, s)[k], s, k), s)
  {
    var q := QueueAt(m.ring, s);
    var r, n := Removed(q, k), Dequeue(m, q[k], s, k);
    DequeueLinks(m, s, k);
    forall i | 0 <= i < |r| ensures MemberOk(w, n, s, r[i]) && (i > 0 ==> ChainOk(w, r[i])) {
      RemovedAt(q, k, i);
      var j := if i < k then i else i + 1;
      assert r[i] == q[j];
      assert MemberOk(v, m, s, q[j]);
      RemovedAt(q, k, 0);
    }
    RemovedAt(q, k, 0);
  }
}
