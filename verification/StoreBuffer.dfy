/** The store-buffering litmus test, round after round between two barriers, on a machine whose threads keep
    their stores in FIFO buffers for a while. */
module StoreBuffer {
  datatype Var = X | Y | R1 | R2

  datatype Mem = Mem(x: int, y: int, r1: int, r2: int)

  function Get(m: Mem, v: Var): int {
    match v
    case X => m.x
    case Y => m.y
    case R1 => m.r1
    case R2 => m.r2
  }

  function Set(m: Mem, v: Var, n: int): Mem {
    match v
    case X => m.(x := n)
    case Y => m.(y := n)
    case R1 => m.(r1 := n)
    case R2 => m.(r2 := n)
  }

  datatype Write = Write(v: Var, n: int)

  /** A load sees the thread's own latest buffered store to the variable, or else memory. */
  function Load(buf: seq<Write>, m: Mem, v: Var): int
    decreases |buf|
  {
    if buf == [] then Get(m, v)
    else if buf[|buf| - 1].v == v then buf[|buf| - 1].n
    else Load(buf[..|buf| - 1], m, v)
  }

  /** Where a thread is: before the barriers it arrives, with an empty buffer, and then waits. */
  datatype Phase = ArriveStart | WaitStart | Storing | Fencing | Loading | Keeping(n: int) | ArriveEnd | WaitEnd

  /** The same for main, which clears the variables before and looks at r1 and r2 after each round. */
  datatype Main = Clearing(k: nat) | MArriveStart | MWaitStart | MArriveEnd | MWaitEnd | Ending

  /** The threads run run1 and run2, with the fence in between if fenced. */
  datatype State = State(
    fenced: bool, mem: Mem, main: Main, t1: Phase, t2: Phase, buf: seq<Write>, buf1: seq<Write>, buf2: seq<Write>)

  datatype Event = StepMain | Step1 | Step2 | Drain | Drain1 | Drain2 | Release

  function Init(fenced: bool): State {
    State(fenced, Mem(0, 0, 0, 0), Clearing(0), ArriveStart, ArriveStart, [], [], [])
  }

  function Cleared(k: nat): Var {
    if k == 0 then R2 else if k == 1 then R1 else if k == 2 then Y else X
  }

  function MainDone(s: State): State {
    match s.main
    case Clearing(k) =>
      s.(buf := s.buf + [Write(Cleared(k), 0)], main := if k < 3 then Clearing(k + 1) else MArriveStart)
    case MArriveStart => if s.buf == [] then s.(main := MWaitStart) else s
    case MArriveEnd => if s.buf == [] then s.(main := MWaitEnd) else s
    case Ending => s.(main := Clearing(0))
    case _ => s
  }

  function First(s: State): State {
    match s.t1
    case ArriveStart => if s.buf1 == [] then s.(t1 := WaitStart) else s
    case Storing => s.(buf1 := s.buf1 + [Write(X, 1)], t1 := Fencing)
    case Fencing => if s.fenced && s.buf1 != [] then s else s.(t1 := Loading)
    case Loading => s.(t1 := Keeping(Load(s.buf1, s.mem, Y)))
    case Keeping(n) => s.(buf1 := s.buf1 + [Write(R1, n)], t1 := ArriveEnd)
    case ArriveEnd => if s.buf1 == [] then s.(t1 := WaitEnd) else s
    case _ => s
  }

  function Second(s: State): State {
    match s.t2
    case ArriveStart => if s.buf2 == [] then s.(t2 := WaitStart) else s
    case Storing => s.(buf2 := s.buf2 + [Write(Y, 1)], t2 := Fencing)
    case Fencing => if s.fenced && s.buf2 != [] then s else s.(t2 := Loading)
    case Loading => s.(t2 := Keeping(Load(s.buf2, s.mem, X)))
    case Keeping(n) => s.(buf2 := s.buf2 + [Write(R2, n)], t2 := ArriveEnd)
    case ArriveEnd => if s.buf2 == [] then s.(t2 := WaitEnd) else s
    case _ => s
  }

  function Do(s: State, e: Event): State {
    match e
    case StepMain => MainDone(s)
    case Step1 => First(s)
    case Step2 => Second(s)
    case Drain => if s.buf == [] then s else s.(mem := Set(s.mem, s.buf[0].v, s.buf[0].n), buf := s.buf[1..])
    case Drain1 => if s.buf1 == [] then s else s.(mem := Set(s.mem, s.buf1[0].v, s.buf1[0].n), buf1 := s.buf1[1..])
    case Drain2 => if s.buf2 == [] then s else s.(mem := Set(s.mem, s.buf2[0].v, s.buf2[0].n), buf2 := s.buf2[1..])
    case Release =>
      if s.main.MWaitStart? && s.t1.WaitStart? && s.t2.WaitStart? then
        s.(main := MArriveEnd, t1 := Storing, t2 := Storing)
      else if s.main.MWaitEnd? && s.t1.WaitEnd? && s.t2.WaitEnd? then
        s.(main := Ending, t1 := ArriveStart, t2 := ArriveStart)
      else s
  }

  function Run(s: State, events: seq<Event>): State
    decreases |events|
  {
    if events == [] then s else Run(Do(s, events[0]), events[1..])
  }

  // ---- what every run keeps ----

  predicate Resting(t: Phase) {
    t.ArriveStart? || t.WaitStart?
  }

  predicate Loaded(t: Phase) {
    t.Keeping? || t.ArriveEnd? || t.WaitEnd?
  }

  /** What a thread that has loaded has found. */
  function Found(t: Phase, buf: seq<Write>, r: int): int {
    if t.Keeping? then t.n else if buf != [] then buf[0].n else r
  }

  /** A thread in its round: what it has stored to v is in its buffer, or in memory as a fence or barrier asks. */
  ghost predicate InRound(t: Phase, buf: seq<Write>, v: Var, r: Var, m: Mem) {
    match t
    case Storing => buf == []
    case Fencing => buf == [Write(v, 1)] || (buf == [] && Get(m, v) == 1)
    case Loading => buf == [] && Get(m, v) == 1
    case Keeping(_) => buf == [] && Get(m, v) == 1
    case ArriveEnd => |buf| <= 1 && (buf != [] ==> buf[0].v == r) && Get(m, v) == 1
    case WaitEnd => buf == [] && Get(m, v) == 1
    case _ => false
  }

  ghost predicate Inv(s: State) {
    && s.fenced
    && (if s.main.MArriveEnd? || s.main.MWaitEnd? then
          && s.buf == [] && InRound(s.t1, s.buf1, X, R1, s.mem) && InRound(s.t2, s.buf2, Y, R2, s.mem)
          && (Loaded(s.t1) && Loaded(s.t2) ==> Found(s.t1, s.buf1, s.mem.r1) != 0 || Found(s.t2, s.buf2, s.mem.r2) != 0)
        else
          Resting(s.t1) && Resting(s.t2) && s.buf1 == [] && s.buf2 == [])
    && (s.main.Clearing? ==> s.main.k < 4)
    && (s.main.Ending? ==> s.buf == [] && !(s.mem.r1 == 0 && s.mem.r2 == 0))
    && (s.main.MWaitStart? ==> s.buf == [])
  }

  lemma FirstKeeps(s: State)
    requires Inv(s)
    ensures Inv(First(s))
  {
  }

  lemma SecondKeeps(s: State)
    requires Inv(s)
    ensures Inv(Second(s))
  {
  }

  lemma DrainKeeps(s: State, e: Event)
    requires Inv(s) && (e.Drain? || e.Drain1? || e.Drain2?)
    ensures Inv(Do(s, e))
  {
  }

  lemma DoKeeps(s: State, e: Event)
    requires Inv(s)
    ensures Inv(Do(s, e))
  {
    match e
    case Step1 => FirstKeeps(s);
    case Step2 => SecondKeeps(s);
    case StepMain =>
    case Release =>
    case _ => DrainKeeps(s, e);
  }

  lemma {:induction false} RunKeeps(s: State, events: seq<Event>)
    requires Inv(s)
    ensures Inv(Run(s, events))
    decreases |events|
  {
    if events != [] {
      DoKeeps(s, events[0]);
      RunKeeps(Do(s, events[0]), events[1..]);
    }
  }

  /** In no round does end() find r1 == 0 and r2 == 0. */
  lemma FencedRoundsEndWell(events: seq<Event>)
    ensures var s := Run(Init(true), events);
      s.main.Ending? ==> !(Load(s.buf, s.mem, R1) == 0 && Load(s.buf, s.mem, R2) == 0)
  {
    RunKeeps(Init(true), events);
  }

  // ---- without the fence ----

  lemma One(s: State, e: Event, rest: seq<Event>)
    ensures Run(s, [e] + rest) == Run(Do(s, e), rest)
  {
    assert ([e] + rest)[1..] == rest;
  }

  /** Four steps that lead from s to t. */
  lemma Four(s: State, a: Event, b: Event, c: Event, d: Event, rest: seq<Event>, t: State)
    requires var u := Do(Do(Do(Do(s, a), b), c), d);
      u == t.(buf := u.buf, buf1 := u.buf1, buf2 := u.buf2) && u.buf == t.buf && u.buf1 == t.buf1 && u.buf2 == t.buf2
    ensures Run(s, [a, b, c, d] + rest) == Run(t, rest)
  {
    hide Do, Run;
    assert [a, b, c, d] + rest == [a] + ([b] + ([c] + ([d] + rest)));
    One(s, a, [b] + ([c] + ([d] + rest)));
    One(Do(s, a), b, [c] + ([d] + rest));
    One(Do(Do(s, a), b), c, [d] + rest);
    One(Do(Do(Do(s, a), b), c), d, rest);
  }

  const ZERO: Mem := Mem(0, 0, 0, 0)

  /** main has cleared the variables, and all threads have passed the first barrier. */
  const BEGUN: State := State(false, ZERO, MArriveEnd, Storing, Storing, [], [], [])

  lemma ClearAndBegin() returns (events: seq<Event>)
    ensures Run(Init(false), events) == BEGUN
  {
    var e2 := [StepMain, Step1, Step2, Release];
    var e1 := [Drain, Drain, Drain, Drain] + e2;
    events := [StepMain, StepMain, StepMain, StepMain] + e1;
    var s1 := State(false, ZERO, MArriveStart, ArriveStart, ArriveStart,
                    [Write(R2, 0), Write(R1, 0), Write(Y, 0), Write(X, 0)], [], []);
    hide Run;
    Four(Init(false), StepMain, StepMain, StepMain, StepMain, e1, s1);
    Four(s1, Drain, Drain, Drain, Drain, e2, s1.(buf := []));
    Four(s1.(buf := []), StepMain, Step1, Step2, Release, [], BEGUN);
    assert e2 + [] == e2;
    Nothing(BEGUN);
  }

  lemma Nothing(s: State)
    ensures Run(s, []) == s
  {
  }

  /** Both threads have loaded, and nothing that they have stored is in memory yet. */
  const LOADED: State :=
    State(false, ZERO, MArriveEnd, ArriveEnd, ArriveEnd, [], [Write(X, 1), Write(R1, 0)], [Write(Y, 1), Write(R2, 0)])

  lemma LoadBoth(rest: seq<Event>)
    ensures Run(BEGUN, [Step1, Step2, Step1, Step2] + ([Step1, Step2, Step1, Step2] + rest)) == Run(LOADED, rest)
  {
    var a := BEGUN.(t1 := Fencing, buf1 := [Write(X, 1)]);
    var b := a.(t2 := Fencing, buf2 := [Write(Y, 1)]);
    var c := b.(t1 := Loading);
    var d := c.(t2 := Loading);
    assert Do(BEGUN, Step1) == a && Do(a, Step2) == b && Do(b, Step1) == c && Do(c, Step2) == d;
    LoadsZero(d);
    hide Run, Do;
    Four(BEGUN, Step1, Step2, Step1, Step2, [Step1, Step2, Step1, Step2] + rest, d);
    Four(d, Step1, Step2, Step1, Step2, rest, LOADED);
  }

  lemma LoadsZero(d: State)
    requires d == State(false, ZERO, MArriveEnd, Loading, Loading, [], [Write(X, 1)], [Write(Y, 1)])
    ensures Do(Do(Do(Do(d, Step1), Step2), Step1), Step2) == LOADED
  {
    assert Load(d.buf1, ZERO, Y) == Load([], ZERO, Y) == 0;
    assert Load(d.buf2, ZERO, X) == Load([], ZERO, X) == 0;
    var e := d.(t1 := Keeping(0));
    var f := e.(t2 := Keeping(0));
    var g := f.(t1 := ArriveEnd, buf1 := [Write(X, 1), Write(R1, 0)]);
    assert Do(d, Step1) == e && Do(e, Step2) == f;
    assert f.buf1 + [Write(R1, 0)] == g.buf1 && f.buf2 + [Write(R2, 0)] == LOADED.buf2;
    assert Do(f, Step1) == g && Do(g, Step2) == LOADED;
  }

  /** Both stores may still be buffered when both threads load, and then both find 0. */
  lemma UnfencedRoundsMayFail() returns (events: seq<Event>)
    ensures var s := Run(Init(false), events); s.main == Ending && s.buf == [] && s.mem.r1 == 0 && s.mem.r2 == 0
  {
    var begin := ClearAndBegin();
    var e2 := [Step1, Step2, StepMain, Release];
    var e1 := [Drain1, Drain1, Drain2, Drain2] + e2;
    var e := [Step1, Step2, Step1, Step2] + ([Step1, Step2, Step1, Step2] + e1);
    events := begin + e;
    RunSplits(Init(false), begin, e);
    LoadBoth(e1);
    hide Run;
    var s := State(false, Mem(1, 1, 0, 0), MArriveEnd, ArriveEnd, ArriveEnd, [], [], []);
    var t := s.(main := Ending, t1 := ArriveStart, t2 := ArriveStart);
    Four(LOADED, Drain1, Drain1, Drain2, Drain2, e2, s);
    Four(s, Step1, Step2, StepMain, Release, [], t);
    assert e2 == e2 + [];
    Nothing(t);
  }

  lemma {:induction false} RunSplits(s: State, a: seq<Event>, b: seq<Event>)
    ensures Run(s, a + b) == Run(Run(s, a), b)
    decreases |a|
  {
    if a == [] {
      assert a + b == b;
    } else {
      assert (a + b)[1..] == a[1..] + b;
      RunSplits(Do(s, a[0]), a[1..], b);
    }
  }
}
