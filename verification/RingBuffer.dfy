/** A ring buffer with free-running 32-bit counters and moving bases: one producer, one consumer, and any
    interleaving of their accesses to shared memory. */
module RingBuffer {
  import opened Prefixes

  const MOD32: nat := 0x1_0000_0000
  const FRAME_REQ: nat := 1600              // BUF_FRAME_REQ
  const FRAME_REQ_S: nat := 2048            // BUF_FRAME_REQ_S

  /** uint32_t arithmetic */
  function U32(x: int): (r: nat)
    ensures r < MOD32
  {
    x % MOD32
  }

  ghost predicate FrameCount(fc: nat) {
    0 < fc < MOD32 && MOD32 % fc == 0
  }

  /** Frame number n does not lie behind a wrap-around in the middle of its window: for most frame counts, that is
      certain only if n begins a window. */
  ghost predicate Straight(n: nat, fc: nat) {
    FrameCount(fc) || (0 < fc && 2 * fc <= MOD32 && n % fc == 0)
  }

  /** A step from n that the base can follow: less than two windows, or a whole window or nothing. */
  ghost predicate Follows(n: nat, frames: nat, fc: nat) {
    if FrameCount(fc) then frames < 2 * fc - n % fc
    else Straight(n, fc) && (frames == 0 || frames == fc)
  }

  /** user_base after step_user, or server_base after step_server, for the new counter u. */
  function NextBase(base: nat, u: nat, fc: nat): nat {
    if u >= fc then (if U32(u - fc) >= base then U32(base + fc) else base)
    else if u >= U32(base + fc) then U32(base + fc) else base
  }

  /** How many frames a thread takes: no more than it asks for, than there are, and than up to the end. */
  function Request(wanted: nat, have: nat, base: nat, u: nat, fc: nat): nat {
    var req := if wanted > have then have else wanted;
    if req > U32(U32(base + fc) - u) then U32(U32(base + fc) - u) else req
  }

  // ---- what the 32-bit words mean ----

  /** Where the window of frame number n begins. */
  function Window(n: nat, fc: nat): nat
    requires fc > 0
  {
    n / fc * fc
  }

  lemma WindowBounds(n: nat, fc: nat)
    requires fc > 0
    ensures Window(n, fc) <= n < Window(n, fc) + fc && n - Window(n, fc) == n % fc
  {
  }

  lemma SameWindow(n: nat, fc: nat, q: nat)
    requires fc > 0 && q * fc <= n < q * fc + fc
    ensures Window(n, fc) == q * fc
  {
    DivUnique(n, fc, q);
  }

  /** Windows do not straddle the wrap-around of the counters, since fc divides 2 ^ 32. */
  lemma WindowWraps(n: nat, fc: nat)
    requires FrameCount(fc)
    ensures var b := U32(Window(n, fc));
      b + fc <= MOD32 && U32(n) == b + n % fc && b % fc == 0
  {
    var k, w := MOD32 / fc, Window(n, fc);
    var q := n / fc;
    assert MOD32 == k * fc;
    var r := q % k;
    assert q == q / k * k + r;
    assert w == (q / k) * (k * fc) + r * fc;
    Wrapped(w, q / k, r * fc, k, fc, r);
    WindowBounds(n, fc);
    assert n == (q / k) * MOD32 + (r * fc + n % fc);
    WrapOf(n, q / k, r * fc + n % fc);
    Multiple(r, fc);
  }

  lemma Multiple(r: nat, fc: nat)
    requires fc > 0
    ensures r * fc % fc == 0
  {
    SameWindow(r * fc, fc, r);
  }

  lemma WrapOf(x: nat, t: nat, y: nat)
    requires x == t * MOD32 + y && y < MOD32
    ensures U32(x) == y
  {
  }

  lemma Wrapped(w: nat, t: nat, y: nat, k: nat, fc: nat, r: nat)
    requires w == t * (k * fc) + y && k * fc == MOD32 && r < k && y == r * fc
    ensures U32(w) == y && y + fc <= MOD32
  {
    assert (k - 1 - r) * fc >= 0;
    assert (k - 1 - r) * fc == k * fc - fc - r * fc;
    WrapOf(w, t, y);
  }

  lemma StraightStart(n: nat, fc: nat)
    requires Straight(n, fc)
    ensures U32(n) == U32(Window(n, fc)) + n % fc && 2 * fc <= MOD32
  {
    WindowBounds(n, fc);
    if FrameCount(fc) {
      WindowWraps(n, fc);
      HalfCount(fc);
    }
  }

  /** Inside of the window, the base stays. */
  lemma Stays(b: nat, u: nat, fc: nat)
    requires 0 < fc && (b < fc ==> b + fc < MOD32) && b <= u < b + fc && u < MOD32
    ensures NextBase(b, u, fc) == b
  {
    if u >= fc {
      WrapOf(u - fc, 0, u - fc);
    } else {
      WrapOf(b + fc, 0, b + fc);
    }
  }

  /** Behind its end, the base goes to the next window. */
  lemma Moves(b: nat, u: nat, fc: nat)
    requires 0 < fc < MOD32 && b < MOD32 && U32(b + fc) <= u < MOD32
    requires u < U32(b + fc) + fc && (u == U32(b + fc) || b + fc <= MOD32)
    ensures NextBase(b, u, fc) == U32(b + fc)
  {
    if b + fc >= MOD32 {
      WrapOf(b + fc, 1, b + fc - MOD32);
    } else {
      WrapOf(b + fc, 0, b + fc);
      WrapOf(u - fc, 0, u - fc);
    }
  }

  lemma StepInside(n: nat, frames: nat, fc: nat)
    requires Follows(n, frames, fc) && frames < fc - n % fc
    ensures Straight(n + frames, fc) && Window(n + frames, fc) == Window(n, fc)
  {
    if FrameCount(fc) {
      WindowBounds(n, fc);
      SameWindow(n + frames, fc, n / fc);
    } else {
      assert n + frames == n;
    }
  }

  /** After a step of less than two windows, or of a whole one, the base is again that of the counter's window. */
  lemma BaseFollows(n: nat, frames: nat, fc: nat)
    requires Follows(n, frames, fc)
    ensures U32(U32(n) + frames) == U32(n + frames) && Straight(n + frames, fc)
    ensures NextBase(U32(Window(n, fc)), U32(n + frames), fc) == U32(Window(n + frames, fc))
  {
    hide Window, U32, NextBase;
    StraightStart(n, fc);
    WindowBounds(n, fc);
    SumWraps(n, frames);
    var w := Window(n, fc);
    if frames < fc - n % fc {
      StepInside(n, frames, fc);
      StraightStart(n + frames, fc);
      WindowBounds(n + frames, fc);
      Stays(U32(w), U32(n + frames), fc);
    } else {
      StepBeyond(n, frames, fc);
      SumWraps(w, fc);
      Moves(U32(w), U32(n + frames), fc);
    }
  }

  lemma StepBeyond(n: nat, frames: nat, fc: nat)
    requires Follows(n, frames, fc) && frames >= fc - n % fc
    ensures Straight(n + frames, fc) && Window(n + frames, fc) == Window(n, fc) + fc
    ensures var e, u := U32(Window(n, fc) + fc), U32(n + frames);
      e <= u < e + fc && (u == e || U32(Window(n, fc)) + fc <= MOD32)
  {
    hide Window, U32;
    var w := Window(n, fc);
    WindowBounds(n, fc);
    NextWindow(n, fc, n + frames - (w + fc));
    StraightStart(n + frames, fc);
    WindowBounds(n + frames, fc);
    if FrameCount(fc) {
      WindowWraps(n, fc);
    }
  }

  /** After two windows or more, it is not. */
  lemma BaseLost(n: nat, frames: nat, fc: nat)
    requires FrameCount(fc) && 2 * fc - n % fc <= frames <= MOD32 - fc
    ensures NextBase(U32(Window(n, fc)), U32(n + frames), fc) != U32(Window(n + frames, fc))
  {
    var w, v := Window(n, fc), Window(n + frames, fc);
    WindowBounds(n, fc);
    WindowBounds(n + frames, fc);
    FarWindow(n + frames, n / fc, fc);
    assert w + 2 * fc <= v < w + MOD32;
    SumWraps(w, fc);
    hide Window, U32;
    WordsDiffer(w, v);
    WordsDiffer(w + fc, v);
  }

  lemma WordsDiffer(a: nat, b: nat)
    requires a < b < a + MOD32
    ensures U32(a) != U32(b)
  {
  }

  lemma FarWindow(n: nat, q: nat, fc: nat)
    requires fc > 0 && n >= q * fc + 2 * fc
    ensures Window(n, fc) >= q * fc + 2 * fc
  {
    assert n == n / fc * fc + n % fc;
    assert (q + 2) * fc == q * fc + 2 * fc;
    assert (n / fc + 1) * fc == n / fc * fc + fc;
    Cancel(q + 2, n / fc + 1, fc);
    MulMono(q + 2, n / fc, fc);
  }

  lemma SumWraps(x: nat, y: nat)
    ensures U32(U32(x) + y) == U32(x + y)
  {
    assert x == x / MOD32 * MOD32 + U32(x);
    WrapsBy(U32(x) + y, x / MOD32);
  }

  lemma WrapsBy(x: nat, k: nat)
    ensures U32(x + k * MOD32) == U32(x)
  {
  }

  lemma NextWindow(n: nat, fc: nat, r: nat)
    requires fc > 0 && r < fc
    ensures Window(Window(n, fc) + fc + r, fc) == Window(n, fc) + fc
    ensures (Window(n, fc) + fc + r) % fc == r
  {
    var q := n / fc + 1;
    assert q * fc == Window(n, fc) + fc;
    SameWindow(q * fc + r, fc, q);
    WindowBounds(q * fc + r, fc);
  }

  lemma HalfCount(fc: nat)
    requires FrameCount(fc)
    ensures 2 * fc <= MOD32
  {
    var k := MOD32 / fc;
    assert MOD32 == k * fc;
    assert k != 1;
    if k >= 2 {
      MulMono(2, k, fc);
    }
  }

  // ---- the control block ----

  class Cblk {
    var user: nat
    var server: nat
    var userBase: nat
    var serverBase: nat
    const fc: nat             // frame_count

    constructor (fc: nat) {
      this.fc := fc;
      user, server, userBase, serverBase := 0, 0, 0, 0;
    }

    /** step_user: if the counter is at frame number n and the base at its window, then after a step that ends
        before the window after the next, they are at frame number n + frames and at its window. */
    method StepUser(frames: nat, ghost n: nat) returns (u: nat)
      modifies this`user, this`userBase
      ensures u == user == U32(old(user) + frames) && userBase == NextBase(old(userBase), user, fc)
      ensures FrameCount(fc) && old(user) == U32(n) && old(userBase) == U32(Window(n, fc)) && frames < 2 * fc - n % fc
        ==> user == U32(n + frames) && userBase == U32(Window(n + frames, fc))
    {
      if FrameCount(fc) && frames < 2 * fc - n % fc {
        BaseFollows(n, frames, fc);
      }
      u := U32(user + frames);
      if u >= fc {
        if U32(u - fc) >= userBase {
          userBase := U32(userBase + fc);
        }
      } else if u >= U32(userBase + fc) {
        userBase := U32(userBase + fc);
      }
      user := u;
    }

    /** step_server */
    method StepServer(frames: nat, ghost n: nat)
      modifies this`server, this`serverBase
      ensures server == U32(old(server) + frames) && serverBase == NextBase(old(serverBase), server, fc)
      ensures FrameCount(fc) && old(server) == U32(n) && old(serverBase) == U32(Window(n, fc))
              && frames < 2 * fc - n % fc
        ==> server == U32(n + frames) && serverBase == U32(Window(n + frames, fc))
    {
      if FrameCount(fc) && frames < 2 * fc - n % fc {
        BaseFollows(n, frames, fc);
      }
      var s := U32(server + frames);
      if s >= fc {
        if U32(s - fc) >= serverBase {
          serverBase := U32(serverBase + fc);
        }
      } else if s >= U32(serverBase + fc) {
        serverBase := U32(serverBase + fc);
      }
      server := s;
    }
  }

  // ---- both threads ----

  /** Where a thread is: it has read the other's counter, it is in its region with k frames done, or it has
      moved its base but not yet its counter.  Bailed is the way out for a counter below its base. */
  datatype Phase = Idle | Seen(frames: nat) | Busy(req: nat, k: nat) | Based(req: nat) | Bailed

  /** The shared words and buffer, both threads, and for the record: how many frames each thread has
      stepped over, and all frames that were put in and taken out. */
  datatype Ring = Ring(
    fc: nat, user: nat, server: nat, userBase: nat, serverBase: nat, buf: seq<int>,
    prod: Phase, cons: Phase, n: nat, m: nat, sent: seq<int>, got: seq<int>)

  function Init(fc: nat): Ring {
    Ring(fc, 0, 0, 0, 0, seq(fc, i => 0), Idle, Idle, 0, 0, [], [])
  }

  /** The next access of one of the threads. */
  datatype Event = Produce(x: int) | Consume

  function At(b: seq<int>, i: nat): int {
    if i < |b| then b[i] else 0
  }

  function Put(b: seq<int>, i: nat, x: int): seq<int> {
    if i < |b| then b[i := x] else b
  }

  /** thread_client */
  function Produced(s: Ring, x: int): Ring {
    match s.prod
    case Idle => s.(prod := Seen(U32(s.server + s.fc - s.user)))
    case Seen(frames) =>
      if s.user < s.userBase then s.(prod := Bailed)
      else s.(prod := Busy(Request(FRAME_REQ, frames, s.userBase, s.user, s.fc), 0))
    case Busy(req, k) =>
      if k < req then
        s.(buf := Put(s.buf, U32(s.user - s.userBase) + k, x), prod := Busy(req, k + 1), sent := s.sent + [x])
      else s.(userBase := NextBase(s.userBase, U32(s.user + req), s.fc), prod := Based(req))
    case Based(req) => s.(user := U32(s.user + req), prod := Idle, n := s.n + req)
    case Bailed => s
  }

  /** The loop of main, which takes the frames that are ready. */
  function Consumed(s: Ring): Ring {
    match s.cons
    case Idle => s.(cons := Seen(U32(s.user - s.server)))
    case Seen(frames) => s.(cons := Busy(Request(FRAME_REQ_S, frames, s.serverBase, s.server, s.fc), 0))
    case Busy(req, k) =>
      var i := U32(s.server - s.serverBase) + k;
      if k < req then s.(buf := Put(s.buf, i, 0), cons := Busy(req, k + 1), got := s.got + [At(s.buf, i)])
      else s.(serverBase := NextBase(s.serverBase, U32(s.server + req), s.fc), cons := Based(req))
    case Based(req) => s.(server := U32(s.server + req), cons := Idle, m := s.m + req)
    case Bailed => s
  }

  function Do(s: Ring, e: Event): Ring {
    match e
    case Produce(x) => Produced(s, x)
    case Consume => Consumed(s)
  }

  function Run(s: Ring, events: seq<Event>): Ring
    decreases |events|
  {
    if events == [] then s else Run(Do(s, events[0]), events[1..])
  }

  // ---- what every run keeps ----

  ghost predicate Counters(s: Ring) {
    && Allowed(s.fc) && |s.buf| == s.fc && s.m <= s.n <= s.m + s.fc
    && s.user == U32(s.n) && s.server == U32(s.m)
  }

  /** The frame counts with which the threads work: a divisor of 2 ^ 32, or no more than each thread takes at once. */
  ghost predicate Allowed(fc: nat) {
    FrameCount(fc) || 0 < fc <= FRAME_REQ
  }

  /** A thread that takes whole windows only. */
  ghost predicate WholeWindows(p: Phase, n: nat, fc: nat) {
    && Straight(n, fc)
    && match p
       case Seen(frames) => frames == 0 || frames == fc
       case Busy(req, _) => req == 0 || req == fc
       case Based(req) => req == 0 || req == fc
       case _ => true
  }

  ghost predicate StraightOn(p: Phase, n: nat, fc: nat) {
    FrameCount(fc) || WholeWindows(p, n, fc)
  }

  /** A thread at frame number n, of which at most room frames follow; done is how many it has finished. */
  ghost predicate PhaseOk(p: Phase, base: nat, n: nat, room: int, fc: nat, done: int)
    requires fc > 0
  {
    match p
    case Idle => done == n && base == U32(Window(n, fc))
    case Seen(frames) => done == n && base == U32(Window(n, fc)) && frames <= room
    case Busy(req, k) => k <= req <= room && req <= fc - n % fc && done == n + k && base == U32(Window(n, fc))
    case Based(req) => req <= room && req <= fc - n % fc && done == n + req && base == U32(Window(n + req, fc))
    case Bailed => false
  }

  /** The frames that are in the buffer are those that were put in and not yet taken out. */
  ghost predicate Kept(s: Ring, i: int) {
    s.fc > 0 && 0 <= i < |s.sent| && At(s.buf, i % s.fc) == s.sent[i]
  }

  ghost predicate Inv(s: Ring) {
    && Counters(s)
    && PhaseOk(s.prod, s.userBase, s.n, s.m + s.fc - s.n, s.fc, |s.sent|)
    && PhaseOk(s.cons, s.serverBase, s.m, s.n - s.m, s.fc, |s.got|)
    && StraightOn(s.prod, s.n, s.fc) && StraightOn(s.cons, s.m, s.fc)
    && |s.got| <= |s.sent| && s.got == s.sent[..|s.got|]
    && forall i {:trigger Kept(s, i)} | |s.got| <= i < |s.sent| :: Kept(s, i)
  }

  /** A difference of counters is what it seems to be. */
  lemma Difference(a: nat, b: nat, c: nat)
    requires b <= a + c < b + MOD32
    ensures U32(U32(a) + c - U32(b)) == a + c - b
  {
    var x, y := a / MOD32, b / MOD32;
    assert U32(a) + c - U32(b) == (a + c - b) + (y - x) * MOD32;
    if y >= x {
      WrapsBy(a + c - b, y - x);
    } else {
      WrapsDown(a + c - b, x - y);
    }
  }

  lemma WrapsDown(x: nat, k: nat)
    ensures (x - k * MOD32) % MOD32 == U32(x)
  {
  }

  /** A request stays within the window and within what there is, and its slots are those of its frames. */
  lemma RequestOk(wanted: nat, have: nat, n: nat, fc: nat)
    requires Straight(n, fc)
    ensures var b, u := U32(Window(n, fc)), U32(n);
      var req := Request(wanted, have, b, u, fc);
      req <= have && req <= fc - n % fc && b <= u && U32(u - b) == n % fc
    ensures n % fc == 0 && have <= fc <= wanted ==> Request(wanted, have, U32(Window(n, fc)), U32(n), fc) == have
  {
    StraightStart(n, fc);
    WindowBounds(n, fc);
    Remaining(U32(Window(n, fc)), n % fc, fc);
    hide U32, Window;
  }

  lemma SlotStart(n: nat, fc: nat)
    requires Straight(n, fc)
    ensures U32(U32(n) - U32(Window(n, fc))) == n % fc && fc > 0
  {
    RequestOk(0, 0, n, fc);
  }

  lemma Remaining(b: nat, r: nat, fc: nat)
    requires b < MOD32 && r < fc < MOD32
    ensures U32(U32(b + fc) - (b + r)) == fc - r && U32(b + r - b) == r
  {
    WrapOf(r, 0, r);
    if b + fc >= MOD32 {
      WrapOf(b + fc, 1, b + fc - MOD32);
      Negative(MOD32 - fc + r);
    } else {
      WrapOf(b + fc, 0, b + fc);
      WrapOf(fc - r, 0, fc - r);
    }
  }

  lemma Negative(x: nat)
    requires 0 < x < MOD32
    ensures U32(0 - x) == MOD32 - x
  {
  }

  lemma Slot(n: nat, k: nat, fc: nat)
    requires fc > 0 && k < fc - n % fc
    ensures (n + k) % fc == n % fc + k
  {
    WindowBounds(n, fc);
    SameWindow(n + k, fc, n / fc);
    WindowBounds(n + k, fc);
  }

  lemma SlotsDiffer(i: nat, j: nat, fc: nat)
    requires fc > 0 && i < j < i + fc
    ensures i % fc != j % fc
  {
    var a, b := i / fc, j / fc;
    assert i == a * fc + i % fc && j == b * fc + j % fc;
    if i % fc == j % fc {
      Cancel(a, b, fc);
      MulMono(a + 1, b, fc);
    }
  }

  /** A thread that takes whole windows finds nothing or a whole window. */
  lemma WholeRoom(n: nat, m: nat, fc: nat)
    requires fc > 0 && n % fc == 0 && m % fc == 0 && m <= n <= m + fc
    ensures n == m || n == m + fc
  {
    var a, b := n / fc, m / fc;
    assert n == a * fc && m == b * fc;
    if m < n < m + fc {
      Cancel(b, a, fc);
      assert (b + 1) * fc == m + fc;
      Cancel(a, b + 1, fc);
    }
  }

  lemma ProducerSees(s: Ring, x: int)
    requires Inv(s) && s.prod.Idle?
    ensures Inv(Produced(s, x))
  {
    Difference(s.m, s.n, s.fc);
    if !FrameCount(s.fc) {
      WholeRoom(s.n, s.m, s.fc);
    }
    hide U32, Window;
    SameKept(s, Produced(s, x));
  }

  /** The phases in which a thread asks for its frames, and steps over them. */
  lemma Asks(p: Phase, wanted: nat, n: nat, room: int, fc: nat, done: int)
    requires Allowed(fc) && wanted >= FRAME_REQ && p.Seen? && StraightOn(p, n, fc)
    requires PhaseOk(p, U32(Window(n, fc)), n, room, fc, done)
    ensures var b, u := U32(Window(n, fc)), U32(n);
      var t := Busy(Request(wanted, p.frames, b, u, fc), 0);
      b <= u && PhaseOk(t, b, n, room, fc, done) && StraightOn(t, n, fc)
  {
    RequestOk(wanted, p.frames, n, fc);
    hide U32, Window, Request;
  }

  lemma Rebases(p: Phase, n: nat, fc: nat)
    requires Allowed(fc) && p.Busy? && StraightOn(p, n, fc) && p.req <= fc - n % fc
    ensures U32(U32(n) + p.req) == U32(n + p.req)
    ensures NextBase(U32(Window(n, fc)), U32(n + p.req), fc) == U32(Window(n + p.req, fc))
  {
    BaseFollows(n, p.req, fc);
  }

  lemma StepsOver(p: Phase, n: nat, fc: nat)
    requires Allowed(fc) && p.Based? && StraightOn(p, n, fc) && p.req <= fc - n % fc
    ensures U32(U32(n) + p.req) == U32(n + p.req) && StraightOn(Idle, n + p.req, fc)
  {
    BaseFollows(n, p.req, fc);
  }

  lemma ProducerKeeps(s: Ring, x: int)
    requires Inv(s)
    ensures Inv(Produced(s, x))
  {
    hide U32, Window, NextBase, Request, Allowed, Straight, FrameCount;
    var t := Produced(s, x);
    match s.prod
    case Idle => ProducerSees(s, x);
    case Seen(frames) =>
      Asks(s.prod, FRAME_REQ, s.n, s.m + s.fc - s.n, s.fc, |s.sent|);
      hide StraightOn;
      SameKept(s, t);
    case Busy(req, k) =>
      if k < req {
        FillKeeps(s, x, req, k);
      } else {
        Rebases(s.prod, s.n, s.fc);
        SameKept(s, t);
      }
    case Based(req) =>
      StepsOver(s.prod, s.n, s.fc);
      hide StraightOn;
      SameKept(s, t);
    case Bailed =>
  }

  lemma SameKept(s: Ring, t: Ring)
    requires t.buf == s.buf && t.sent == s.sent && t.fc == s.fc
    ensures forall i {:trigger Kept(t, i)} :: Kept(t, i) <==> Kept(s, i)
  {
  }

  /** A new frame goes to a slot that no frame in the buffer uses. */
  lemma FillKeeps(s: Ring, x: int, req: nat, k: nat)
    requires Inv(s) && s.prod == Busy(req, k) && k < req
    ensures Inv(Produced(s, x))
  {
    hide Window, NextBase, FrameCount, U32, Request;
    var t := Produced(s, x);
    SlotStart(s.n, s.fc);
    Slot(s.n, k, s.fc);
    TakenBounds(s);
    forall i {:trigger Kept(t, i)} | |t.got| <= i < |t.sent| ensures Kept(t, i) {
      if i < s.n + k {
        assert Kept(s, i);
        SlotsDiffer(i, s.n + k, s.fc);
        KeptBut(s, t, s.n + k, i, x);
      }
    }
    assert t.got == t.sent[..|t.got|];
  }

  /** A write to the slot of frame j leaves the frames in other slots. */
  lemma KeptBut(s: Ring, t: Ring, j: nat, i: nat, x: int)
    requires Kept(s, i) && i % s.fc != j % s.fc && t.fc == s.fc && s.sent <= t.sent
    requires t.buf == Put(s.buf, j % s.fc, x)
    ensures Kept(t, i)
  {
  }

  lemma TakenBounds(s: Ring)
    requires Inv(s)
    ensures s.m <= |s.got| <= s.n <= |s.sent| <= s.m + s.fc
  {
  }

  lemma ConsumerSees(s: Ring)
    requires Inv(s) && s.cons.Idle?
    ensures Inv(Consumed(s))
  {
    Difference(s.n, s.m, 0);
    if !FrameCount(s.fc) {
      WholeRoom(s.n, s.m, s.fc);
    }
    hide U32, Window;
    SameKept(s, Consumed(s));
  }

  lemma ConsumerKeeps(s: Ring)
    requires Inv(s)
    ensures Inv(Consumed(s))
  {
    hide U32, Window, NextBase, Request, Allowed, Straight, FrameCount;
    var t := Consumed(s);
    match s.cons
    case Idle => ConsumerSees(s);
    case Seen(frames) =>
      Asks(s.cons, FRAME_REQ_S, s.m, s.n - s.m, s.fc, |s.got|);
      hide StraightOn;
      SameKept(s, t);
    case Busy(req, k) =>
      if k < req {
        DrainKeeps(s, req, k);
      } else {
        Rebases(s.cons, s.m, s.fc);
        SameKept(s, t);
      }
    case Based(req) =>
      StepsOver(s.cons, s.m, s.fc);
      hide StraightOn;
      SameKept(s, t);
    case Bailed =>
  }

  /** The frame that is taken out is the first of those in the buffer. */
  lemma DrainKeeps(s: Ring, req: nat, k: nat)
    requires Inv(s) && s.cons == Busy(req, k) && k < req
    ensures Inv(Consumed(s))
  {
    hide Window, NextBase, FrameCount, U32, Request;
    var t, g := Consumed(s), |s.got|;
    SlotStart(s.m, s.fc);
    Slot(s.m, k, s.fc);
    TakenBounds(s);
    assert Kept(s, g) && g == s.m + k;
    forall i {:trigger Kept(t, i)} | |t.got| <= i < |t.sent| ensures Kept(t, i) {
      assert Kept(s, i);
      SlotsDiffer(g, i, s.fc);
      KeptBut(s, t, g, i, 0);
    }
    hide Kept;
    assert t.got == t.sent[..|t.got|];
  }

  lemma {:induction false} RunKeeps(s: Ring, events: seq<Event>)
    requires Inv(s)
    ensures Inv(Run(s, events))
    decreases |events|
  {
    if events != [] {
      if events[0].Produce? {
        ProducerKeeps(s, events[0].x);
      } else {
        ConsumerKeeps(s);
      }
      RunKeeps(Do(s, events[0]), events[1..]);
    }
  }

  /** The slots of the buffer that a thread is working on. */
  ghost predicate Region(p: Phase, base: nat, u: nat, i: int) {
    p.Busy? && u - base <= i < u - base + p.req
  }

  lemma InitOk(fc: nat)
    requires Allowed(fc)
    ensures Inv(Init(fc))
  {
  }

  /** The slots of the regions are those of the frames that the threads work on. */
  lemma RegionIs(p: Phase, n: nat, fc: nat, i: int)
    requires StraightOn(p, n, fc) && fc > 0 && (p.Busy? ==> p.req <= fc - n % fc)
    requires Region(p, U32(Window(n, fc)), U32(n), i)
    ensures 0 <= i - n % fc < p.req && 0 <= i < fc && (n + (i - n % fc)) % fc == i
  {
    StraightStart(n, fc);
    hide U32, Window;
    Slot(n, i - n % fc, fc);
  }

  lemma RegionsApart(s: Ring, i: int)
    requires Inv(s)
    ensures Region(s.prod, s.userBase, s.user, i) || Region(s.cons, s.serverBase, s.server, i) ==> 0 <= i < s.fc
    ensures !(Region(s.prod, s.userBase, s.user, i) && Region(s.cons, s.serverBase, s.server, i))
  {
    hide U32, Window;
    if Region(s.prod, s.userBase, s.user, i) {
      RegionIs(s.prod, s.n, s.fc, i);
    }
    if Region(s.cons, s.serverBase, s.server, i) {
      RegionIs(s.cons, s.m, s.fc, i);
    }
    if Region(s.prod, s.userBase, s.user, i) && Region(s.cons, s.serverBase, s.server, i) {
      SlotsDiffer(s.m + (i - s.m % s.fc), s.n + (i - s.n % s.fc), s.fc);
    }
  }

  /** Frames come out in the order in which they went in, between 0 and fc of them are in the buffer, the
      counters are not below their bases, and the threads work on different slots. */
  ghost predicate Safe(s: Ring) {
    && s.got <= s.sent && |s.sent| - |s.got| <= s.fc && U32(s.user - s.server) <= s.fc
    && s.prod != Bailed && (!s.prod.Based? ==> s.userBase <= s.user) && (!s.cons.Based? ==> s.serverBase <= s.server)
    && forall i ::
         && (Region(s.prod, s.userBase, s.user, i) || Region(s.cons, s.serverBase, s.server, i) ==> 0 <= i < s.fc)
         && !(Region(s.prod, s.userBase, s.user, i) && Region(s.cons, s.serverBase, s.server, i))
  }

  lemma InvIsSafe(s: Ring)
    requires Inv(s)
    ensures Safe(s)
  {
    TakenBounds(s);
    Difference(s.n, s.m, 0);
    StraightStart(s.n, s.fc);
    StraightStart(s.m, s.fc);
    hide U32, Window, FrameCount, Straight, Kept;
    forall i
      ensures Region(s.prod, s.userBase, s.user, i) || Region(s.cons, s.serverBase, s.server, i) ==> 0 <= i < s.fc
      ensures !(Region(s.prod, s.userBase, s.user, i) && Region(s.cons, s.serverBase, s.server, i))
    {
      RegionsApart(s, i);
    }
  }

  /** Whatever the interleaving, for any number of steps and of wrap-arounds. */
  lemma RunIsSafe(fc: nat, events: seq<Event>)
    requires Allowed(fc)
    ensures Safe(Run(Init(fc), events))
  {
    InitOk(fc);
    RunKeeps(Init(fc), events);
    InvIsSafe(Run(Init(fc), events));
  }
}
