/** Atomic operations on one 32-bit word, as retry loops: load-linked and store-conditional, which may fail for
    no reason, or load and compare-and-exchange. */
module Atomics {
  import BinMaps

  const MOD32: nat := 0x1_0000_0000

  /** Operands and values are words; Cas is android_atomic_cas, which answers 0 on success. */
  datatype Op = Add(x: nat) | And(x: nat) | Or(x: nat) | Swap(x: nat) | Cas(old_: nat, new_: nat)

  // ---- what one operation at a time does ----

  function Apply(op: Op, v: nat): nat {
    match op
    case Add(x) => (v + x) % MOD32
    case And(x) => BinMaps.And(v, x)
    case Or(x) => BinMaps.Or(v, x)
    case Swap(x) => x
    case Cas(o, n) => if v == o then n else v
  }

  function Answer(op: Op, v: nat): nat {
    match op
    case Cas(o, _) => if v != o then 1 else 0
    case _ => v
  }

  datatype Call = Call(thread: nat, op: Op, answer: nat)

  function Replay(v: nat, log: seq<Call>): nat {
    if log == [] then v else Apply(log[|log| - 1].op, Replay(v, log[..|log| - 1]))
  }

  /** log is a sequential history from v on: every answer is that of its operation at that moment. */
  ghost predicate Legal(v: nat, log: seq<Call>) {
    forall k {:trigger log[k]} | 0 <= k < |log| :: log[k].answer == Answer(log[k].op, Replay(v, log[..k]))
  }

  // ---- threads ----

  /** Where a thread is: in the loop it has loaded prev, and at last it has an answer. */
  datatype Phase = Idle | Begun(op: Op) | Loaded(op: Op, prev: nat) | Finished(op: Op, answer: nat)

  /** The loops of atomic-arm.h and atomic-mips.h, or those of atomic-x86.h. */
  datatype Arch = Linked | Locked

  /** link is the set of threads whose reservation holds.  For the record: the calls in the order in which they
      took effect, and those that have returned. */
  datatype State = State(
    arch: Arch, value: nat, threads: seq<Phase>, link: set<nat>, log: seq<Call>, returned: seq<Call>)

  /** The next instruction of thread i, which stores if ok and if it can; a thread that is idle calls op. */
  datatype Event = Event(i: nat, op: Op, ok: bool)

  function Init(arch: Arch, v: nat, n: nat): State {
    State(arch, v, seq(n, i => Idle), {}, [], [])
  }

  function At(s: State, i: nat, p: Phase): State {
    s.(threads := if i < |s.threads| then s.threads[i := p] else s.threads)
  }

  /** The call of thread i takes effect now. */
  function Effect(s: State, i: nat, op: Op): State {
    At(s.(value := Apply(op, s.value), log := s.log + [Call(i, op, Answer(op, s.value))]), i,
       Finished(op, Answer(op, s.value)))
  }

  /** Whether what a thread has loaded may be replaced. */
  predicate Stores(s: State, i: nat, prev: nat, ok: bool) {
    if s.arch.Linked? then i in s.link && ok else s.value == prev
  }

  function Do(s: State, e: Event): State {
    if e.i >= |s.threads| then s
    else match s.threads[e.i]
      case Idle => At(s, e.i, Begun(e.op))
      case Begun(op) =>
        if s.arch.Locked? && (op.Add? || op.Cas?) then Effect(s, e.i, op)         // lock xadd, lock cmpxchg
        else if op.Cas? && s.value != op.old_ then Effect(s.(link := s.link + {e.i}), e.i, op)
        else At(s.(link := s.link + {e.i}), e.i, Loaded(op, s.value))
      case Loaded(op, prev) =>
        if Stores(s, e.i, prev, e.ok)
        then At(s.(value := Apply(op, prev), link := {}, log := s.log + [Call(e.i, op, Answer(op, prev))]),
                e.i, Finished(op, Answer(op, prev)))
        else At(s.(link := s.link - {e.i}), e.i, Begun(op))
      case Finished(op, answer) => At(s.(returned := s.returned + [Call(e.i, op, answer)]), e.i, Idle)
  }

  function Run(s: State, events: seq<Event>): State
    decreases |events|
  {
    if events == [] then s else Run(Do(s, events[0]), events[1..])
  }

  // ---- what every run keeps ----

  /** The calls of one thread, in order. */
  function Of(log: seq<Call>, i: nat): seq<Call> {
    if log == [] then []
    else Of(log[..|log| - 1], i) + if log[|log| - 1].thread == i then [log[|log| - 1]] else []
  }

  /** Thread i has one entry in the log for each call that has returned, and one for a call that has its answer. */
  ghost predicate Once(s: State, i: nat) {
    Of(s.log, i) == Of(s.returned, i)
      + if i < |s.threads| && s.threads[i].Finished? then [Call(i, s.threads[i].op, s.threads[i].answer)] else []
  }

  /** While a reservation holds, the word is what has been loaded. */
  ghost predicate Reserved(s: State, i: nat) {
    s.arch.Linked? && i in s.link && i < |s.threads| && s.threads[i].Loaded? ==> s.threads[i].prev == s.value
  }

  ghost predicate Inv(v: nat, s: State) {
    && Legal(v, s.log) && s.value == Replay(v, s.log)
    && (forall i: nat {:trigger Once(s, i)} :: Once(s, i))
    && (forall i: nat {:trigger Reserved(s, i)} :: Reserved(s, i))
  }

  lemma LegalNext(v: nat, log: seq<Call>, c: Call)
    requires Legal(v, log) && c.answer == Answer(c.op, Replay(v, log))
    ensures Legal(v, log + [c]) && Replay(v, log + [c]) == Apply(c.op, Replay(v, log))
  {
    var w := log + [c];
    assert w[..|w| - 1] == log;
    forall k {:trigger w[k]} | 0 <= k < |w| ensures w[k].answer == Answer(w[k].op, Replay(v, w[..k])) {
      if k < |log| {
        assert w[..k] == log[..k] && w[k] == log[k];
      }
    }
  }

  lemma OfNext(log: seq<Call>, c: Call, i: nat)
    ensures Of(log + [c], i) == Of(log, i) + if c.thread == i then [c] else []
  {
    assert (log + [c])[..|log|] == log;
  }

  /** Thread i goes from one phase to another without an answer. */
  ghost predicate Quietly(s: State, t: State, i: nat) {
    && t.value == s.value && t.log == s.log && t.returned == s.returned && |t.threads| == |s.threads|
    && (i < |s.threads| ==> !s.threads[i].Finished? && !t.threads[i].Finished?)
    && forall j {:trigger t.threads[j]} | 0 <= j < |s.threads| && j != i :: t.threads[j] == s.threads[j]
  }

  /** The call of thread i takes effect: it reads and writes the word at once. */
  ghost predicate Takes(s: State, t: State, i: nat, op: Op) {
    && i < |s.threads| == |t.threads| && !s.threads[i].Finished? && t.threads[i] == Finished(op, Answer(op, s.value))
    && t.value == Apply(op, s.value) && t.log == s.log + [Call(i, op, Answer(op, s.value))] && t.returned == s.returned
    && forall j {:trigger t.threads[j]} | 0 <= j < |s.threads| && j != i :: t.threads[j] == s.threads[j]
  }

  /** Thread i returns its answer. */
  ghost predicate Returns(s: State, t: State, i: nat) {
    && i < |s.threads| == |t.threads| && s.threads[i].Finished? && t.threads[i] == Idle
    && t.value == s.value && t.log == s.log
    && t.returned == s.returned + [Call(i, s.threads[i].op, s.threads[i].answer)]
    && forall j {:trigger t.threads[j]} | 0 <= j < |s.threads| && j != i :: t.threads[j] == s.threads[j]
  }

  /** The operation that a thread is at. */
  function OpOf(s: State, e: Event): Op {
    if e.i < |s.threads| && !s.threads[e.i].Idle? then s.threads[e.i].op else e.op
  }

  /** One instruction of an ll/sc loop, or of a load and compare-and-exchange loop, takes effect as its whole
      operation does, or not at all. */
  lemma EffectOrNot(s: State, e: Event)
    requires Reserved(s, e.i)
    ensures var t := Do(s, e); Quietly(s, t, e.i) || Takes(s, t, e.i, OpOf(s, e)) || Returns(s, t, e.i)
  {
    hide Apply, Answer;
  }

  lemma EffectKeeps(v: nat, s: State, t: State, i: nat, op: Op)
    requires Legal(v, s.log) && s.value == Replay(v, s.log)
    requires Quietly(s, t, i) || Takes(s, t, i, op) || Returns(s, t, i)
    ensures Legal(v, t.log) && t.value == Replay(v, t.log) && s.log <= t.log && s.returned <= t.returned
  {
    hide Apply, Answer, Legal, Replay;
    if Takes(s, t, i, op) {
      LegalNext(v, s.log, Call(i, op, Answer(op, s.value)));
    }
  }

  lemma OnceKeeps(s: State, t: State, j: nat, op: Op, i: nat)
    requires Once(s, i) && (Quietly(s, t, j) || Takes(s, t, j, op) || Returns(s, t, j))
    ensures Once(t, i)
  {
    hide Apply, Answer, Of;
    if Takes(s, t, j, op) {
      OfNext(s.log, Call(j, op, Answer(op, s.value)), i);
    } else if Returns(s, t, j) {
      OfNext(s.returned, Call(j, s.threads[j].op, s.threads[j].answer), i);
    }
    assert Of(s.returned, i) + [] == Of(s.returned, i) && Of(t.returned, i) + [] == Of(t.returned, i);
  }

  lemma ReservedKeeps(v: nat, s: State, e: Event, i: nat)
    requires Inv(v, s)
    ensures Reserved(Do(s, e), i)
  {
    assert Reserved(s, i);
    hide Legal, Replay, Once;
  }

  lemma DoKeeps(v: nat, s: State, e: Event)
    requires Inv(v, s)
    ensures Inv(v, Do(s, e)) && s.log <= Do(s, e).log && s.returned <= Do(s, e).returned
  {
    var t := Do(s, e);
    assert Reserved(s, e.i);
    EffectOrNot(s, e);
    hide Do, Legal, Once, Reserved, Quietly, Takes, Returns, OpOf;
    EffectKeeps(v, s, t, e.i, OpOf(s, e));
    forall i: nat {:trigger Once(t, i)} ensures Once(t, i) {
      OnceKeeps(s, t, e.i, OpOf(s, e), i);
    }
    forall i: nat {:trigger Reserved(t, i)} ensures Reserved(t, i) {
      ReservedKeeps(v, s, e, i);
    }
  }

  lemma InitOk(arch: Arch, v: nat, n: nat)
    ensures Inv(v, Init(arch, v, n))
  {
  }

  /** For any number of threads and any interleaving, with spurious failures: the log is a sequential history
      that explains the word, every call that has returned has exactly one entry in it, with its answer, in the
      order of its thread, and so has every call that has its answer; no other call has had an effect. */
  lemma {:induction false} RunLinearizes(v: nat, s: State, events: seq<Event>)
    requires Inv(v, s)
    ensures var t := Run(s, events);
      Inv(v, t) && s.log <= t.log && s.returned <= t.returned
    decreases |events|
  {
    if events != [] {
      DoKeeps(v, s, events[0]);
      RunLinearizes(v, Do(s, events[0]), events[1..]);
    }
  }

  lemma {:induction false} RunSplits(s: State, a: seq<Event>, b: seq<Event>)
    ensures Run(s, a + b) == Run(Run(s, a), b)
    decreases |a|
  {
    if a == [] {
      assert a + b == b;
    } else {
      assert (a + b)[1..] == a[1..] + b;
      RunSplits(Do(s, a[0]), a[1..], b);
    }
  }

  /** A run from the beginning, and an earlier moment of it: the history then is the beginning of the history
      now, so that a call that had returned by then comes before every call that began later. */
  lemma RealTimeOrder(arch: Arch, v: nat, n: nat, a: seq<Event>, b: seq<Event>, i: nat)
    ensures var s, t := Run(Init(arch, v, n), a), Run(Init(arch, v, n), a + b);
      && Legal(v, t.log) && t.value == Replay(v, t.log) && s.log <= t.log
      && Of(s.returned, i) <= Of(s.log, i) && |Of(t.log, i)| <= |Of(t.returned, i)| + 1
      && (i < |t.threads| && t.threads[i].Idle? ==> Of(t.log, i) == Of(t.returned, i))
  {
    InitOk(arch, v, n);
    RunLinearizes(v, Init(arch, v, n), a);
    RunSplits(Init(arch, v, n), a, b);
    RunLinearizes(v, Run(Init(arch, v, n), a), b);
    assert Once(Run(Init(arch, v, n), a), i) && Once(Run(Init(arch, v, n), a + b), i);
  }

  // ---- concurrent additions ----

  function Sum(log: seq<Call>): nat {
    if log == [] then 0 else Sum(log[..|log| - 1]) + if log[|log| - 1].op.Add? then log[|log| - 1].op.x else 0
  }

  lemma {:induction false} AddsAdd(v: nat, log: seq<Call>)
    requires v < MOD32 && forall c | c in log :: c.op.Add?
    ensures Replay(v, log) == (v + Sum(log)) % MOD32
  {
    if log != [] {
      var rest, x := log[..|log| - 1], log[|log| - 1].op.x;
      assert log[|log| - 1] in log;
      AddsAdd(v, rest);
      assert (v + Sum(rest)) % MOD32 + x == v + Sum(log) - (v + Sum(rest)) / MOD32 * MOD32;
    }
  }

  /** If all calls add, the word ends at the initial value plus the sum of the increments, modulo 2 ^ 32. */
  lemma ConcurrentAdds(arch: Arch, v: nat, n: nat, events: seq<Event>)
    requires v < MOD32 && forall e | e in events :: e.op.Add?
    ensures var t := Run(Init(arch, v, n), events); t.value == (v + Sum(t.log)) % MOD32
  {
    InitOk(arch, v, n);
    RunLinearizes(v, Init(arch, v, n), events);
    OnlyAdds(Init(arch, v, n), events);
    AddsAdd(v, Run(Init(arch, v, n), events).log);
  }

  ghost predicate Adding(s: State) {
    && (forall c | c in s.log :: c.op.Add?)
    && forall i | 0 <= i < |s.threads| :: !s.threads[i].Idle? ==> s.threads[i].op.Add?
  }

  lemma {:induction false} OnlyAdds(s: State, events: seq<Event>)
    requires Adding(s) && forall e | e in events :: e.op.Add?
    ensures Adding(Run(s, events))
    decreases |events|
  {
    if events != [] {
      assert events[0] in events;
      OnlyAdds(Do(s, events[0]), events[1..]);
    }
  }
}
