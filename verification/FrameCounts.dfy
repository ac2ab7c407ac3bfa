/** For which frame counts the counters of the ring buffer and their bases stay together. */
module FrameCounts {
  import opened Prefixes
  import opened RingBuffer

  // ---- a counter that moves by any number of frames up to the end of its window ----

  datatype Counter = Counter(u: nat, base: nat)

  function Stepped(c: Counter, frames: nat, fc: nat): Counter {
    Counter(U32(c.u + frames), NextBase(c.base, U32(c.u + frames), fc))
  }

  /** user and user_base after some calls of step_user */
  function Steps(steps: seq<nat>, fc: nat): Counter {
    if steps == [] then Counter(0, 0)
    else Stepped(Steps(steps[..|steps| - 1], fc), steps[|steps| - 1], fc)
  }

  /** No call steps over the end of the window, as the threads compute it. */
  ghost predicate Fits(steps: seq<nat>, fc: nat) {
    steps == []
    || (Fits(steps[..|steps| - 1], fc)
        && var c := Steps(steps[..|steps| - 1], fc); steps[|steps| - 1] <= U32(U32(c.base + fc) - c.u))
  }

  lemma StepFollows(n: nat, frames: nat, fc: nat)
    requires FrameCount(fc) && frames <= U32(U32(U32(Window(n, fc)) + fc) - U32(n))
    ensures Stepped(Counter(U32(n), U32(Window(n, fc))), frames, fc)
         == Counter(U32(n + frames), U32(Window(n + frames, fc)))
  {
    StraightStart(n, fc);
    WindowBounds(n, fc);
    Remaining(U32(Window(n, fc)), n % fc, fc);
    BaseFollows(n, frames, fc);
    hide U32, Window, NextBase;
  }

  lemma {:induction false} StepsFollow(steps: seq<nat>, fc: nat) returns (n: nat)
    requires FrameCount(fc) && Fits(steps, fc)
    ensures Steps(steps, fc) == Counter(U32(n), U32(Window(n, fc)))
  {
    if steps == [] {
      n := 0;
    } else {
      hide U32, Window, Stepped, FrameCount;
      n := StepsFollow(steps[..|steps| - 1], fc);
      StepFollows(n, steps[|steps| - 1], fc);
      n := n + steps[|steps| - 1];
    }
  }

  lemma StepsMore(steps: seq<nat>, frames: nat, fc: nat)
    ensures Steps(steps + [frames], fc) == Stepped(Steps(steps, fc), frames, fc)
  {
    hide Stepped;
    var all := steps + [frames];
    assert all[..|all| - 1] == steps && all[|all| - 1] == frames;
  }

  lemma FitsMore(steps: seq<nat>, frames: nat, fc: nat)
    requires Fits(steps, fc) && var c := Steps(steps, fc); frames <= U32(U32(c.base + fc) - c.u)
    ensures Fits(steps + [frames], fc)
  {
    hide U32, Steps;
    var all := steps + [frames];
    assert all[..|all| - 1] == steps && all[|all| - 1] == frames;
  }

  /** j steps of a whole window */
  function Wholes(j: nat, fc: nat): seq<nat> {
    if j == 0 then [] else Wholes(j - 1, fc) + [fc]
  }

  lemma WholeStep(b: nat, fc: nat)
    requires 0 < fc && b + fc < MOD32
    ensures Stepped(Counter(b, b), fc, fc) == Counter(b + fc, b + fc) && U32(U32(b + fc) - b) == fc
  {
    Remaining(b, 0, fc);
    WrapOf(b + fc, 0, b + fc);
    Moves(b, b + fc, fc);
  }

  lemma OneWhole(steps: seq<nat>, b: nat, fc: nat)
    requires 0 < fc && b + fc < MOD32 && Fits(steps, fc) && Steps(steps, fc) == Counter(b, b)
    ensures Fits(steps + [fc], fc) && Steps(steps + [fc], fc) == Counter(b + fc, b + fc)
  {
    hide Stepped, U32, Fits, Steps;
    WholeStep(b, fc);
    StepsMore(steps, fc, fc);
    FitsMore(steps, fc, fc);
  }

  lemma {:induction false} WholesFit(j: nat, fc: nat)
    requires 0 < fc && j * fc < MOD32
    ensures Fits(Wholes(j, fc), fc) && Steps(Wholes(j, fc), fc) == Counter(j * fc, j * fc)
  {
    if j > 0 {
      hide Fits, Steps;
      assert j * fc == (j - 1) * fc + fc;
      WholesFit(j - 1, fc);
      OneWhole(Wholes(j - 1, fc), (j - 1) * fc, fc);
    }
  }

  /** The counter comes to 2 ^ 32 in the middle of a window: it wraps around, and its base stays behind. */
  lemma StaysBehind(fc: nat) returns (steps: seq<nat>)
    requires 0 < fc < MOD32 && MOD32 % fc != 0
    ensures Fits(steps, fc) && Steps(steps, fc).base > Steps(steps, fc).u == 0
  {
    hide Fits, Steps, Wholes, U32;
    var q, x := MOD32 / fc, MOD32 % fc;
    assert MOD32 == q * fc + x;
    MulMono(1, q, fc);
    WholesFit(q, fc);
    steps := Wholes(q, fc) + [x];
    StepsMore(Wholes(q, fc), x, fc);
    var b := q * fc;
    Remaining(b, 0, fc);
    WrapOf(b + x, 1, 0);
    WrapOf(b + fc, 1, fc - x);
    FitsMore(Wholes(q, fc), x, fc);
  }

  /** In all such runs the counter is never below its base if and only if the frame count divides 2 ^ 32. */
  lemma CounterExact(fc: nat)
    requires 0 < fc < MOD32
    ensures (forall steps | Fits(steps, fc) :: Steps(steps, fc).base <= Steps(steps, fc).u) <==> MOD32 % fc == 0
  {
    if MOD32 % fc == 0 {
      forall steps | Fits(steps, fc) ensures Steps(steps, fc).base <= Steps(steps, fc).u {
        var n := StepsFollow(steps, fc);
        StraightStart(n, fc);
      }
    } else {
      var steps := StaysBehind(fc);
      assert Fits(steps, fc);
    }
  }

  // ---- the two threads ----

  lemma {:induction false} RunAppend(s: Ring, a: seq<Event>, b: seq<Event>)
    ensures Run(s, a + b) == Run(Run(s, a), b)
    decreases |a|
  {
    if a == [] {
      assert a + b == b;
    } else {
      assert (a + b)[1..] == a[1..] + b;
      RunAppend(Do(s, a[0]), a[1..], b);
    }
  }

  lemma RunOne(s: Ring, e: Event)
    ensures Run(s, [e]) == Do(s, e)
  {
    assert Run(Do(s, e), []) == Do(s, e);
  }

  ghost predicate SameCounters(s: Ring, t: Ring) {
    && t.fc == s.fc && t.user == s.user && t.server == s.server
    && t.userBase == s.userBase && t.serverBase == s.serverBase
  }

  /** A thread alone, until it is done with its frames. */
  lemma {:induction false} Works(s: Ring, e: Event, req: nat, k: nat) returns (events: seq<Event>)
    requires k <= req && (if e.Produce? then s.prod else s.cons) == Busy(req, k)
    ensures var t := Run(s, events);
      && SameCounters(s, t) && (if e.Produce? then t.prod else t.cons) == Busy(req, req)
      && (if e.Produce? then t.cons == s.cons else t.prod == s.prod)
    decreases req - k
  {
    events := [];
    if k < req {
      events := Works(Do(s, e), e, req, k + 1);
      RunOne(s, e);
      RunAppend(s, [e], events);
      events := [e] + events;
    }
  }

  /** What one turn of thread_client does to the counters. */
  lemma ProducerTurn(s: Ring) returns (events: seq<Event>)
    requires s.prod.Idle? && s.userBase <= s.user
    ensures var t := Run(s, events);
      var u := U32(s.user + Request(FRAME_REQ, U32(s.server + s.fc - s.user), s.userBase, s.user, s.fc));
      && t.prod.Idle? && t.cons == s.cons
      && SameCounters(s.(user := u, userBase := NextBase(s.userBase, u, s.fc)), t)
  {
    var e := Produce(0);
    var s1 := Do(s, e);
    var s2 := Do(s1, e);
    hide U32, Request, NextBase;
    var fill := Works(s2, e, s2.prod.req, 0);
    var s3 := Run(s2, fill);
    var s4 := Do(s3, e);
    RunOne(s, e);
    RunOne(s1, e);
    RunOne(s3, e);
    RunOne(s4, e);
    RunAppend(s, [e], [e]);
    RunAppend(s, [e] + [e], fill);
    RunAppend(s, [e] + [e] + fill, [e]);
    RunAppend(s, [e] + [e] + fill + [e], [e]);
    events := [e] + [e] + fill + [e] + [e];
  }

  /** What one turn of the loop of main does to the counters. */
  lemma ConsumerTurn(s: Ring) returns (events: seq<Event>)
    requires s.cons.Idle?
    ensures var t := Run(s, events);
      var u := U32(s.server + Request(FRAME_REQ_S, U32(s.user - s.server), s.serverBase, s.server, s.fc));
      && t.cons.Idle? && t.prod == s.prod
      && SameCounters(s.(server := u, serverBase := NextBase(s.serverBase, u, s.fc)), t)
  {
    var e := Consume;
    var s1 := Do(s, e);
    var s2 := Do(s1, e);
    hide U32, Request, NextBase;
    var drain := Works(s2, e, s2.cons.req, 0);
    var s3 := Run(s2, drain);
    var s4 := Do(s3, e);
    RunOne(s, e);
    RunOne(s1, e);
    RunOne(s3, e);
    RunOne(s4, e);
    RunAppend(s, [e], [e]);
    RunAppend(s, [e] + [e], drain);
    RunAppend(s, [e] + [e] + drain, [e]);
    RunAppend(s, [e] + [e] + drain + [e], [e]);
    events := [e] + [e] + drain + [e] + [e];
  }

  /** A wrap-around lies behind n in its window. */
  ghost predicate Past(n: nat, fc: nat)
    requires fc > 0
  {
    Window(n, fc) / MOD32 < n / MOD32
  }

  /** Both threads are at frame number n, with nothing in the buffer. */
  ghost predicate CleanAt(s: Ring, n: nat) {
    && s.fc > 0 && s.prod.Idle? && s.cons.Idle? && s.user == s.server == U32(n)
    && s.userBase == s.serverBase == U32(Window(n, s.fc))
  }

  /** The threads take as much as they may, one after the other. */
  function Next(n: nat, fc: nat): nat
    requires fc > 0
  {
    if fc - n % fc < FRAME_REQ then n + (fc - n % fc) else n + FRAME_REQ
  }

  /** A window that does not confuse the test for a wrap-around. */
  ghost predicate Clear(w: nat, fc: nat) {
    U32(w) < fc ==> U32(w) + fc < MOD32
  }

  lemma NotPast(n: nat, fc: nat)
    requires fc > 0 && !Past(n, fc)
    ensures U32(n) == U32(Window(n, fc)) + n % fc
  {
    WindowBounds(n, fc);
    var w, e := Window(n, fc), n / MOD32;
    assert w / MOD32 <= e;
  }

  /** Past the wrap-around, the base stays, and the counter is below it. */
  lemma FallsBehind(n: nat, w: nat, fc: nat)
    requires 0 < fc < MOD32 && w == Window(n, fc) && Past(n, fc)
    ensures NextBase(U32(w), U32(n), fc) == U32(w) > U32(n)
  {
    WindowBounds(n, fc);
    var b, e := U32(w), w / MOD32;
    assert w == e * MOD32 + b;
    var x, r := MOD32 - b, n - w;
    assert n == (e + 1) * MOD32 + (r - x);
    WrapOf(n, e + 1, r - x);
    WrapOf(b + fc, 1, fc - x);
  }

  lemma StaysInside(n: nat, w: nat, fc: nat)
    requires 0 < fc < MOD32 && w == Window(n, fc) && Clear(w, fc)
    ensures if Past(n, fc) then NextBase(U32(w), U32(n), fc) > U32(n) else NextBase(U32(w), U32(n), fc) == U32(w)
  {
    if Past(n, fc) {
      FallsBehind(n, w, fc);
    } else {
      NotPast(n, fc);
      WindowBounds(n, fc);
      hide Window, U32, NextBase, Past;
      Stays(U32(w), U32(n), fc);
    }
  }

  lemma MovesOn(w: nat, fc: nat)
    requires 0 < fc < MOD32 && Window(w + fc, fc) == w + fc
    ensures !Past(w + fc, fc) && NextBase(U32(w), U32(w + fc), fc) == U32(w + fc)
  {
    SumWraps(w, fc);
    hide Window, U32, NextBase;
    Moves(U32(w), U32(w + fc), fc);
  }

  lemma NextFollows(n: nat, fc: nat)
    requires FRAME_REQ < fc < MOD32 && !Past(n, fc) && Clear(Window(n, fc), fc)
    ensures var b, n' := U32(Window(n, fc)), Next(n, fc);
      if Past(n', fc) then NextBase(b, U32(n'), fc) > U32(n')
      else NextBase(b, U32(n'), fc) == U32(Window(n', fc))
  {
    var w, n' := Window(n, fc), Next(n, fc);
    WindowBounds(n, fc);
    if n' == w + fc {
      NextWindow(n, fc, 0);
      hide Window, U32, NextBase, Past, Clear;
      MovesOn(w, fc);
    } else {
      SameWindow(n', fc, n / fc);
      hide Window, U32, NextBase, Past, Clear;
      StaysInside(n', w, fc);
    }
  }

  /** What both threads ask for at frame number n. */
  lemma TurnRequest(n: nat, fc: nat)
    requires FRAME_REQ < fc < MOD32 && !Past(n, fc)
    ensures var b, u, req := U32(Window(n, fc)), U32(n), Next(n, fc) - n;
      && b <= u && Request(FRAME_REQ, U32(u + fc - u), b, u, fc) == req
      && Request(FRAME_REQ_S, U32(U32(n + req) - u), b, u, fc) == req && U32(u + req) == U32(n + req)
  {
    hide U32, Window, Past, Request;
    TurnFacts(n, fc);
    RequestIs(FRAME_REQ, fc, U32(Window(n, fc)), U32(n), fc);
    RequestIs(FRAME_REQ_S, Next(n, fc) - n, U32(Window(n, fc)), U32(n), fc);
  }

  lemma TurnFacts(n: nat, fc: nat)
    requires FRAME_REQ < fc < MOD32 && !Past(n, fc)
    ensures var b, u, req := U32(Window(n, fc)), U32(n), Next(n, fc) - n;
      && b <= u && U32(U32(b + fc) - u) == fc - n % fc && U32(u + fc - u) == fc && n % fc < fc
      && U32(U32(n + req) - u) == req && U32(u + req) == U32(n + req)
  {
    hide Window, Past, U32;
    NotPast(n, fc);
    WindowBounds(n, fc);
    WrapOf(fc, 0, fc);
    Remaining(U32(Window(n, fc)), n % fc, fc);
    SumWraps(n, Next(n, fc) - n);
    Difference(Next(n, fc), n, 0);
  }

  lemma RequestIs(wanted: nat, have: nat, b: nat, u: nat, fc: nat)
    ensures var r, end := Request(wanted, have, b, u, fc), U32(U32(b + fc) - u);
      r <= wanted && r <= have && r <= end && (r == wanted || r == have || r == end)
  {
  }

  /** A producer whose counter is below its base bails out. */
  lemma BailsOut(s: Ring) returns (events: seq<Event>)
    requires s.prod.Idle? && s.userBase > s.user
    ensures Run(s, events).prod.Bailed?
  {
    hide U32, Request;
    var e := Produce(0);
    events := [e] + [e];
    RunAppend(s, [e], [e]);
    RunOne(s, e);
    RunOne(Do(s, e), e);
  }

  /** After the producer's turn. */
  ghost predicate Filled(s: Ring, n: nat, n': nat) {
    && s.fc > 0 && s.prod.Idle? && s.cons.Idle? && s.user == U32(n') && s.server == U32(n)
    && s.userBase == NextBase(U32(Window(n, s.fc)), U32(n'), s.fc) && s.serverBase == U32(Window(n, s.fc))
  }

  lemma FillTurn(s: Ring, n: nat) returns (events: seq<Event>)
    requires CleanAt(s, n) && FRAME_REQ < s.fc < MOD32 && !Past(n, s.fc)
    ensures Filled(Run(s, events), n, Next(n, s.fc)) && Run(s, events).fc == s.fc
  {
    TurnRequest(n, s.fc);
    hide U32, Window, Past, Next, NextBase, Request, Run;
    events := ProducerTurn(s);
  }

  lemma DrainTurn(s: Ring, n: nat) returns (events: seq<Event>)
    requires FRAME_REQ < s.fc < MOD32 && !Past(n, s.fc) && Filled(s, n, Next(n, s.fc))
    requires s.userBase == U32(Window(Next(n, s.fc), s.fc))
    ensures CleanAt(Run(s, events), Next(n, s.fc)) && Run(s, events).fc == s.fc
  {
    TurnRequest(n, s.fc);
    hide U32, Window, Past, Next, NextBase, Request, Run;
    events := ConsumerTurn(s);
  }

  lemma OneTurn(s: Ring, n: nat) returns (events: seq<Event>)
    requires CleanAt(s, n) && FRAME_REQ < s.fc < MOD32 && !Past(n, s.fc) && Clear(Window(n, s.fc), s.fc)
    ensures if Past(Next(n, s.fc), s.fc) then Run(s, events).prod.Bailed?
            else CleanAt(Run(s, events), Next(n, s.fc)) && Run(s, events).fc == s.fc
  {
    NextFollows(n, s.fc);
    hide U32, Window, Past, Clear, Next, NextBase, Request, Run, CleanAt;
    events := FillTurn(s, n);
    var t := Run(s, events);
    if Past(Next(n, s.fc), s.fc) {
      var more := BailsOut(t);
      RunAppend(s, events, more);
      events := events + more;
    } else {
      var more := DrainTurn(t, n);
      RunAppend(s, events, more);
      events := events + more;
    }
  }

  /** n is a place where the threads stop, if they take as much as they may. */
  ghost predicate OnGrid(n: nat, fc: nat)
    requires fc > 0
  {
    n % fc % FRAME_REQ == 0
  }

  lemma NextOnGrid(n: nat, fc: nat)
    requires 0 < fc && OnGrid(n, fc)
    ensures OnGrid(Next(n, fc), fc) && n < Next(n, fc) <= Window(n, fc) + fc
    ensures Next(n, fc) < Window(n, fc) + fc ==> Next(n, fc) % fc == n % fc + FRAME_REQ
  {
    WindowBounds(n, fc);
    if fc - n % fc <= FRAME_REQ {
      NextWindow(n, fc, 0);
    } else {
      Slot(n, FRAME_REQ, fc);
      assert (n % fc + FRAME_REQ) % FRAME_REQ == n % fc % FRAME_REQ;
    }
  }

  lemma GridStep(a: nat, b: nat)
    requires a < b && a % FRAME_REQ == 0 && b % FRAME_REQ == 0
    ensures a + FRAME_REQ <= b
  {
  }

  /** The threads do not jump over a place on the grid. */
  lemma NextNotBeyond(n: nat, top: nat, fc: nat)
    requires 0 < fc && OnGrid(n, fc) && OnGrid(top, fc) && n < top
    ensures Next(n, fc) <= top
  {
    WindowBounds(n, fc);
    WindowBounds(top, fc);
    var p, q := n / fc, top / fc;
    assert (p + 1) * fc == Window(n, fc) + fc;
    if p < q {
      MulMono(p + 1, q, fc);
    } else {
      assert (q + 1) * fc == Window(top, fc) + fc;
      Cancel(p, q + 1, fc);
      GridStep(n % fc, top % fc);
    }
  }

  ghost predicate ClearUpTo(top: nat, fc: nat) {
    forall i: nat {:trigger Clear(i * fc, fc)} | i * fc <= top :: Clear(i * fc, fc)
  }

  /** If there is a place on the grid that lies past a wrap-around, the threads come to such a place. */
  lemma {:induction false} March(s: Ring, n: nat, top: nat) returns (events: seq<Event>)
    requires CleanAt(s, n) && FRAME_REQ < s.fc < MOD32 && OnGrid(n, s.fc) && OnGrid(top, s.fc) && n <= top
    requires !Past(n, s.fc) && Past(top, s.fc) && ClearUpTo(top, s.fc)
    ensures Run(s, events).prod.Bailed?
    decreases top - n
  {
    WindowBounds(n, s.fc);
    assert Clear(n / s.fc * s.fc, s.fc);
    NextOnGrid(n, s.fc);
    NextNotBeyond(n, top, s.fc);
    hide Past, Clear, ClearUpTo, OnGrid, Next, CleanAt, Run;
    events := OneTurn(s, n);
    if !Past(Next(n, s.fc), s.fc) {
      var more := March(Run(s, events), Next(n, s.fc), top);
      RunAppend(s, events, more);
      events := events + more;
    }
  }

  /** Where wrap-around k lies: x frames behind the beginning of a window, with a smaller x for each k. */
  lemma WrapPlace(k: nat, fc: nat)
    requires 0 < fc < MOD32 && MOD32 % fc != 0 && k > 0 && k * (fc - MOD32 % fc) < fc
    ensures var y, i := fc - MOD32 % fc, k * (MOD32 / fc + 1) - 1;
      i >= 0 && k * MOD32 == i * fc + (fc - k * y) && 0 < fc - k * y <= MOD32 % fc <= MOD32 - fc
  {
    var q, x := MOD32 / fc, MOD32 % fc;
    var y := fc - x;
    assert MOD32 == (q + 1) * fc - y by {
      assert MOD32 == q * fc + x;
      assert (q + 1) * fc == q * fc + fc;
    }
    MulMono(1, q, fc);
    MulMono(1, k, y);
    MulMono(1, k, q + 1);
    assert k * ((q + 1) * fc - y) == k * ((q + 1) * fc) - k * y;
    assert k * ((q + 1) * fc) == (k * (q + 1)) * fc;
    var i := k * (q + 1) - 1;
    assert (i + 1) * fc == i * fc + fc;
  }

  /** No window up to wrap-around k confuses the test for a wrap-around. */
  lemma ClearBelow(i: nat, k: nat, fc: nat)
    requires 0 < fc < MOD32 && MOD32 % fc != 0 && k > 0 && k * (fc - MOD32 % fc) < fc && i * fc < k * MOD32
    ensures Clear(i * fc, fc)
  {
    var w, y := i * fc, fc - MOD32 % fc;
    var b, e := U32(w), w / MOD32;
    if b < fc && b + fc >= MOD32 {
      assert w == e * MOD32 + b;
      Cancel(e, k, MOD32);
      MulMono(e + 1, k, y);
      WrapPlace(e + 1, fc);
      var j := (e + 1) * (MOD32 / fc + 1) - 1;
      var x := fc - (e + 1) * y;
      assert (e + 1) * MOD32 == w + (MOD32 - b) == j * fc + x;
      SameStart(i, MOD32 - b, j, x, fc);
      assert false;
    }
  }

  lemma SameStart(i: nat, a: nat, j: nat, x: nat, fc: nat)
    requires 0 < a <= fc && 0 < x < fc && i * fc + a == j * fc + x
    ensures a == x
  {
    assert (i + 1) * fc == i * fc + fc && (j + 1) * fc == j * fc + fc;
    Cancel(j, i + 1, fc);
    Cancel(i, j + 1, fc);
  }

  /** The first wrap-around that leaves enough of its window behind it. */
  lemma FirstWrap(y: nat, gap: nat, fc: nat) returns (k: nat)
    requires 0 < y < fc && 0 < gap <= fc - gap
    ensures k > 0 && gap <= k * y < fc
  {
    k := (gap + y - 1) / y;
    assert gap + y - 1 == k * y + (gap + y - 1) % y;
    assert (k - 1) * y == k * y - y;
    if k == 0 {
      assert false;
    } else if k == 1 {
      assert k * y == y;
    } else {
      MulMono(1, k - 1, y);
    }
  }

  /** A place on the grid past a wrap-around, with clear windows before it. */
  lemma BadPlace(fc: nat) returns (top: nat)
    requires FRAME_REQ < fc < MOD32 && MOD32 % fc != 0
    ensures OnGrid(top, fc) && Past(top, fc) && ClearUpTo(top, fc)
  {
    var m := (fc - 1) / FRAME_REQ * FRAME_REQ;
    assert 0 < fc - m <= m;
    Multiple((fc - 1) / FRAME_REQ, FRAME_REQ);
    var k := FirstWrap(fc - MOD32 % fc, fc - m, fc);
    WrapPlace(k, fc);
    var i := k * (MOD32 / fc + 1) - 1;
    top := i * fc + m;
    PlaceIn(i, m, k, fc);
    assert (i + 1) * fc == i * fc + fc;
    AllClear(top, i, k, fc);
  }

  lemma PlaceIn(i: nat, m: nat, k: nat, fc: nat)
    requires 0 <= m < fc && i * fc < k * MOD32 <= i * fc + m && m % FRAME_REQ == 0
    ensures OnGrid(i * fc + m, fc) && Past(i * fc + m, fc)
  {
    assert (i + 1) * fc == i * fc + fc;
    SameWindow(i * fc + m, fc, i);
    WindowBounds(i * fc + m, fc);
    hide Window;
    EraBefore(i * fc, i * fc + m, k);
  }

  lemma AllClear(top: nat, i: nat, k: nat, fc: nat)
    requires 0 < fc < MOD32 && MOD32 % fc != 0 && k > 0 && k * (fc - MOD32 % fc) < fc && i * fc < k * MOD32
    requires top < (i + 1) * fc
    ensures ClearUpTo(top, fc)
  {
    hide Clear;
    forall j: nat {:trigger Clear(j * fc, fc)} | j * fc <= top ensures Clear(j * fc, fc) {
      Cancel(j, i + 1, fc);
      MulMono(j, i, fc);
      ClearBelow(j, k, fc);
    }
  }

  lemma EraBefore(w: nat, n: nat, k: nat)
    requires w < k * MOD32 <= n
    ensures w / MOD32 < n / MOD32
  {
    assert w == w / MOD32 * MOD32 + w % MOD32;
    assert n == n / MOD32 * MOD32 + n % MOD32;
    assert (n / MOD32 + 1) * MOD32 == n / MOD32 * MOD32 + MOD32;
    Cancel(w / MOD32, k, MOD32);
    Cancel(k, n / MOD32 + 1, MOD32);
  }

  /** Every run of the two threads is safe if and only if the frame count divides 2 ^ 32, or is not larger than what
      the producer takes at once. */
  lemma ThreadsExact(fc: nat)
    requires 0 < fc < MOD32
    ensures (forall events :: Safe(Run(Init(fc), events))) <==> MOD32 % fc == 0 || fc <= FRAME_REQ
    ensures (exists events :: Run(Init(fc), events).prod.Bailed?) <==> !(MOD32 % fc == 0 || fc <= FRAME_REQ)
  {
    if MOD32 % fc == 0 || fc <= FRAME_REQ {
      forall events ensures Safe(Run(Init(fc), events)) {
        RunIsSafe(fc, events);
      }
      forall events ensures !Run(Init(fc), events).prod.Bailed? {
        assert Safe(Run(Init(fc), events));
      }
    } else {
      var top := BadPlace(fc);
      assert CleanAt(Init(fc), 0) && OnGrid(0, fc) && !Past(0, fc);
      hide Past, OnGrid, ClearUpTo, CleanAt;
      var events := March(Init(fc), 0, top);
      BailedUnsafe(Run(Init(fc), events));
    }
  }

  lemma BailedUnsafe(s: Ring)
    requires s.prod.Bailed?
    ensures !Safe(s)
  {
  }

  /** With 3000 frames, some run makes the producer bail out. */
  lemma ThreadsExample() returns (events: seq<Event>)
    ensures Run(Init(3000), events).prod.Bailed?
  {
    ThreadsExact(3000);
    events :| Run(Init(3000), events).prod.Bailed?;
  }
}
