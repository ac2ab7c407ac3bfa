/** Circular doubly linked lists of chunks, seen as sequences. */
module Rings {
  import opened Config

  function Next(q: seq<Addr>, k: nat): Addr
    requires k < |q|
  {
    if k + 1 < |q| then q[k + 1] else q[0]
  }

  function Prev(q: seq<Addr>, k: nat): Addr
    requires k < |q|
  {
    if k > 0 then q[k - 1] else q[|q| - 1]
  }

  ghost predicate Distinct(q: seq<Addr>) {
    forall i, j | 0 <= i < j < |q| :: q[i] != q[j]
  }

  ghost predicate LinkedAt(q: seq<Addr>, nxt: Words, prv: Words, k: nat)
    requires k < |q|
  {
    At(nxt, q[k]) == Next(q, k) && At(prv, q[k]) == Prev(q, k)
  }

  /** nxt walks q forwards, prv walks it backwards, and both close the circle. */
  ghost predicate IsRing(q: seq<Addr>, nxt: Words, prv: Words) {
    && Distinct(q)
    && forall k {:trigger LinkedAt(q, nxt, prv, k)} {:trigger q[k]} | 0 <= k < |q| :: LinkedAt(q, nxt, prv, k)
  }

  function Inserted(q: seq<Addr>, k: nat, x: Addr): seq<Addr>
    requires k < |q|
  {
    q[..k + 1] + [x] + q[k + 1..]
  }

  function Removed(q: seq<Addr>, k: nat): seq<Addr>
    requires k < |q|
  {
    q[..k] + q[k + 1..]
  }

  /** Four stores link x in behind q[k]. */
  lemma InsertRing(q: seq<Addr>, k: nat, x: Addr, nxt: Words, prv: Words)
    requires IsRing(q, nxt, prv) && k < |q| && x !in q
    ensures IsRing(Inserted(q, k, x), Put(Put(nxt, q[k], x), x, Next(q, k)), Put(Put(prv, Next(q, k), x), x, q[k]))
  {
    var r := Inserted(q, k, x);
    var n: Words, p: Words := Put(Put(nxt, q[k], x), x, Next(q, k)), Put(Put(prv, Next(q, k), x), x, q[k]);
    InsertedDistinct(q, k, x);
    forall i | 0 <= i < |r| ensures LinkedAt(r, n, p, i) {
      InsertLink(q, k, x, nxt, prv, i);
    }
  }

  lemma InsertedDistinct(q: seq<Addr>, k: nat, x: Addr)
    requires Distinct(q) && k < |q| && x !in q
    ensures Distinct(Inserted(q, k, x))
  {
    var r := Inserted(q, k, x);
    forall i, j | 0 <= i < j < |r| ensures r[i] != r[j] {
      InsertedAt(q, k, x, i);
      InsertedAt(q, k, x, j);
    }
  }

  lemma InsertedAt(q: seq<Addr>, k: nat, x: Addr, i: nat)
    requires k < |q| && i <= |q|
    ensures Inserted(q, k, x)[i] == if i <= k then q[i] else if i == k + 1 then x else q[i - 1]
  {
  }

  lemma InsertLink(q: seq<Addr>, k: nat, x: Addr, nxt: Words, prv: Words, i: nat)
    requires IsRing(q, nxt, prv) && k < |q| && x !in q && i <= |q|
    ensures LinkedAt(Inserted(q, k, x), Put(Put(nxt, q[k], x), x, Next(q, k)), Put(Put(prv, Next(q, k), x), x, q[k]), i)
  {
    if i != k + 1 {
      InsertOldLink(q, k, x, nxt, prv, i);
    } else {
      var r, l := Inserted(q, k, x), |q|;
      InsertedAt(q, k, x, i);
      InsertedAt(q, k, x, if i < l then i + 1 else 0);
      InsertedAt(q, k, x, k);
      assert r[i] == x && Next(r, i) == Next(q, k) && Prev(r, i) == q[k];
    }
  }

  lemma InsertOldLink(q: seq<Addr>, k: nat, x: Addr, nxt: Words, prv: Words, i: nat)
    requires IsRing(q, nxt, prv) && k < |q| && x !in q && i <= |q| && i != k + 1
    ensures LinkedAt(Inserted(q, k, x), Put(Put(nxt, q[k], x), x, Next(q, k)), Put(Put(prv, Next(q, k), x), x, q[k]), i)
  {
    var j := if i <= k then i else i - 1;
    Neighbours(q, k, x, i);
    assert q[j] in q;
    assert LinkedAt(q, nxt, prv, j);
  }

  lemma Neighbours(q: seq<Addr>, k: nat, x: Addr, i: nat)
    requires Distinct(q) && k < |q| && i <= |q| && i != k + 1
    ensures var r, j := Inserted(q, k, x), if i <= k then i else i - 1;
      && r[i] == q[j]
      && Next(r, i) == (if r[i] == q[k] then x else Next(q, j))
      && Prev(r, i) == if r[i] == Next(q, k) then x else Prev(q, j)
  {
    var l := |q|;
    InsertedAt(q, k, x, i);
    InsertedAt(q, k, x, if i < l then i + 1 else 0);
    InsertedAt(q, k, x, if i > 0 then i - 1 else l);
  }

  /** Two stores unlink q[k]. */
  lemma RemoveRing(q: seq<Addr>, k: nat, nxt: Words, prv: Words)
    requires IsRing(q, nxt, prv) && k < |q| && |q| >= 2
    ensures Prev(q, k) != q[k] && Next(q, k) != q[k]
    ensures IsRing(Removed(q, k), Put(nxt, Prev(q, k), Next(q, k)), Put(prv, Next(q, k), Prev(q, k)))
  {
    var r := Removed(q, k);
    var n: Words, p: Words := Put(nxt, Prev(q, k), Next(q, k)), Put(prv, Next(q, k), Prev(q, k));
    RemovedDistinct(q, k);
    forall i | 0 <= i < |r| ensures LinkedAt(r, n, p, i) {
      RemoveLink(q, k, nxt, prv, i);
    }
  }

  lemma RemovedDistinct(q: seq<Addr>, k: nat)
    requires Distinct(q) && k < |q|
    ensures Distinct(Removed(q, k))
  {
    var r := Removed(q, k);
    forall i, j | 0 <= i < j < |r| ensures r[i] != r[j] {
      RemovedAt(q, k, i);
      RemovedAt(q, k, j);
    }
  }

  lemma RemovedAt(q: seq<Addr>, k: nat, i: nat)
    requires k < |q| && i < |q| - 1
    ensures Removed(q, k)[i] == if i < k then q[i] else q[i + 1]
  {
  }

  lemma RemovedElements(q: seq<Addr>, k: nat, x: Addr)
    requires Distinct(q) && k < |q|
    ensures x in Removed(q, k) <==> x in q && x != q[k]
  {
    if x in q && x != q[k] {
      var i :| 0 <= i < |q| && q[i] == x;
      RemovedAt(q, k, if i < k then i else i - 1);
    }
    if x in Removed(q, k) {
      var i :| 0 <= i < |q| - 1 && Removed(q, k)[i] == x;
      RemovedAt(q, k, i);
    }
  }

  lemma RemoveLink(q: seq<Addr>, k: nat, nxt: Words, prv: Words, i: nat)
    requires IsRing(q, nxt, prv) && k < |q| && i < |q| - 1
    ensures LinkedAt(Removed(q, k), Put(nxt, Prev(q, k), Next(q, k)), Put(prv, Next(q, k), Prev(q, k)), i)
  {
    var j := if i < k then i else i + 1;
    LeftNeighbours(q, k, i);
    assert LinkedAt(q, nxt, prv, j);
  }

  lemma LeftNeighbours(q: seq<Addr>, k: nat, i: nat)
    requires Distinct(q) && k < |q| && i < |q| - 1
    ensures var r, j := Removed(q, k), if i < k then i else i + 1;
      && r[i] == q[j]
      && Next(r, i) == (if r[i] == Prev(q, k) then Next(q, k) else Next(q, j))
      && Prev(r, i) == if r[i] == Next(q, k) then Prev(q, k) else Prev(q, j)
  {
    var l := |q| - 1;
    RemovedAt(q, k, i);
    RemovedAt(q, k, if i + 1 < l then i + 1 else 0);
    RemovedAt(q, k, if i > 0 then i - 1 else l - 1);
  }

  /** p->fd->bk == p and p->bk->fd == p */
  lemma Reciprocal(q: seq<Addr>, nxt: Words, prv: Words, k: nat)
    requires IsRing(q, nxt, prv) && k < |q|
    ensures At(prv, At(nxt, q[k])) == q[k] && At(nxt, At(prv, q[k])) == q[k]
  {
    Recall(LinkedAt(q, nxt, prv, k));
    Recall(LinkedAt(q, nxt, prv, if k + 1 < |q| then k + 1 else 0));
    Recall(LinkedAt(q, nxt, prv, if k > 0 then k - 1 else |q| - 1));
  }

  /** Whether x is met on the way back from the first of a circular list to itself. */
  method InRing(ghost q: seq<Addr>, ghost nxt: Words, prv: Words, t: Addr, x: Addr) returns (found: bool)
    requires IsRing(q, nxt, prv) && |q| > 0 && t == q[0]
    ensures found <==> x in q
  {
    if t == x {
      return true;
    }
    Recall(LinkedAt(q, nxt, prv, 0));
    var u := At(prv, t);
    ghost var k: nat := |q| - 1;
    while u != t
      invariant 0 <= k < |q| && u == q[k]
      invariant forall j | k < j < |q| :: q[j] != x
      decreases k
    {
      if u == x {
        return true;
      }
      Recall(LinkedAt(q, nxt, prv, k));
      u := At(prv, u);
      k := k - 1;
    }
    found := false;
    assert k == 0;
  }
}
