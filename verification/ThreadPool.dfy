/** A pool of worker threads: a queue of tasks under a lock, a condition variable, and a shutdown flag that
    is set without the lock. */
module ThreadPool {
  import opened Config

  type Task = int

  // ---- the list of waiting tasks ----

  class Node {
    const task: Task
    var next: Node?

    constructor (task: Task)
      ensures this.task == task && next == null
    {
      this.task, next := task, null;
    }
  }

  /** CThread_pool, as far as it is used under queue_lock */
  class Pool {
    var queueHead: Node?
    var curQueueSize: int
    ghost var nodes: seq<Node>

    ghost predicate Valid()
      reads this, nodes
    {
      && curQueueSize == |nodes|
      && queueHead == (if nodes == [] then null else nodes[0])
      && (forall i, j | 0 <= i < j < |nodes| :: nodes[i] != nodes[j])
      && forall i {:trigger nodes[i]} | 0 <= i < |nodes| ::
           nodes[i].next == if i + 1 < |nodes| then nodes[i + 1] else null
    }

    ghost function Tasks(): seq<Task>
      reads this
    {
      seq(|nodes|, i requires 0 <= i < |nodes| reads this => nodes[i].task)
    }

    /** pool_init */
    constructor ()
      ensures Valid() && Tasks() == []
    {
      queueHead, curQueueSize, nodes := null, 0, [];
    }

    /** pool_add_worker: the new task goes to the end of the list. */
    method Add(task: Task)
      requires Valid()
      modifies this, nodes
      ensures Valid() && Tasks() == old(Tasks()) + [task] && fresh(set n | n in nodes && n !in old(nodes))
    {
      var worker := new Node(task);
      var member := queueHead;
      if member != null {
        ghost var i := 0;
        while member.next != null
          invariant 0 <= i < |nodes| && member == nodes[i]
          decreases |nodes| - i
        {
          member := member.next;
          i := i + 1;
        }
        assert i == |nodes| - 1;
        member.next := worker;
      } else {
        queueHead := worker;
      }
      nodes := nodes + [worker];
      curQueueSize := curQueueSize + 1;
    }

    /** What thread_routine does with the queue: both of its assertions hold. */
    method Take() returns (task: Task)
      requires Valid() && curQueueSize != 0
      modifies this
      ensures Valid() && old(Tasks()) == [task] + Tasks()
    {
      assert curQueueSize != 0 && queueHead != null;
      curQueueSize := curQueueSize - 1;
      var worker := queueHead;
      queueHead := worker.next;
      task := worker.task;
      assert nodes[0] == worker;
      nodes := nodes[1..];
    }
  }

  // ---- all threads ----

  /** Where a worker is in thread_routine.  In the phases from Testing to Taking it holds the lock. */
  datatype Phase =
    | Ready                  // wants the lock: at the start, after a task, or after waking up
    | Testing                // about to read cur_queue_size
    | Empty                  // has read 0, and is about to read shutdown
    | Waiting                // has read that too, and is about to call pthread_cond_wait
    | Asleep
    | Deciding               // behind the loop, about to read shutdown
    | Taking
    | Running(task: nat)
    | Gone

  predicate Holds(w: Phase) {
    w.Testing? || w.Empty? || w.Waiting? || w.Deciding? || w.Taking?
  }

  /** On the way to the queue. */
  predicate Taker(w: Phase) {
    w.Ready? || Holds(w)
  }

  datatype Holder = NoOne | Worker(i: int) | Adder

  /** Where the adder that holds the lock is in pool_add_worker, if there is one. */
  datatype Adding = Outside | Locked | Appended | Counted | Signalled

  datatype Destroying = Before | Set | Broadcast | Freed

  /** Tasks are numbered in the order in which they are added.  taken, done, discarded and late are for the
      record: in which order tasks were taken, which were finished or thrown away, and who has taken
      one since shutdown was set, and how many such tasks there are. */
  datatype State = State(
    workers: seq<Phase>, lock: Holder, adding: Adding, destroying: Destroying,
    queue: seq<nat>, size: int, shutdown: bool,
    added: nat, taken: seq<nat>, done: set<nat>, discarded: set<nat>, late: seq<bool>, afterwards: nat)

  function Init(n: nat): State {
    State(seq(n, i => Ready), NoOne, Outside, Before, [], 0, false, 0, [], {}, {}, seq(n, i => false), 0)
  }

  /** A step of worker i, a spurious wakeup, a step of an adder, in which signal wakes worker j if any is to be
      woken, or a step of pool_destroy. */
  datatype Event = Work(i: nat) | Wake(i: nat) | Add(j: nat) | Destroy

  function Put(s: State, i: nat, w: Phase): State {
    s.(workers := if i < |s.workers| then s.workers[i := w] else s.workers)
  }

  function Worked(s: State, i: nat): State
    requires i < |s.workers| && i < |s.late|
  {
    match s.workers[i]
    case Ready => if s.lock.NoOne? then Put(s.(lock := Worker(i)), i, Testing) else s
    case Testing => Put(s, i, if s.size == 0 then Empty else Deciding)
    case Empty => Put(s, i, if !s.shutdown then Waiting else Deciding)
    case Waiting => Put(s.(lock := NoOne), i, Asleep)
    case Asleep => s
    case Deciding => if s.shutdown then Put(s.(lock := NoOne), i, Gone) else Put(s, i, Taking)
    case Taking =>
      if s.queue == [] then s
      else
        Put(s.(lock := NoOne, size := s.size - 1, queue := s.queue[1..], taken := s.taken + [s.queue[0]],
               late := s.late[i := s.late[i] || s.shutdown],
               afterwards := s.afterwards + if s.shutdown then 1 else 0), i, Running(s.queue[0]))
    case Running(task) => Put(s.(done := s.done + {task}), i, Ready)
    case Gone => s
  }

  predicate SomeoneAsleep(ws: seq<Phase>) {
    exists i | 0 <= i < |ws| :: ws[i].Asleep?
  }

  function Added(s: State, j: nat): State {
    match s.adding
    case Outside => if s.lock.NoOne? && !s.destroying.Freed? then s.(lock := Adder, adding := Locked) else s
    case Locked => s.(queue := s.queue + [s.added], added := s.added + 1, adding := Appended)
    case Appended => s.(size := s.size + 1, adding := Counted)
    case Counted =>
      if j < |s.workers| && s.workers[j].Asleep? then Put(s.(adding := Signalled), j, Ready)
      else if SomeoneAsleep(s.workers) then s
      else s.(adding := Signalled)
    case Signalled => s.(lock := NoOne, adding := Outside)
  }

  function Destroyed(s: State): State {
    match s.destroying
    case Before => s.(shutdown := true, destroying := Set)
    case Set =>
      s.(workers := seq(|s.workers|, i requires 0 <= i < |s.workers| =>
                          if s.workers[i].Asleep? then Ready else s.workers[i]),
         destroying := Broadcast)
    case Broadcast =>
      if (forall i | 0 <= i < |s.workers| :: s.workers[i].Gone?) && s.adding.Outside?
      then s.(queue := [], discarded := (set t | t in s.queue), destroying := Freed)
      else s
    case Freed => s
  }

  function Do(s: State, e: Event): (t: State)
    requires |s.late| == |s.workers|
    ensures |t.late| == |t.workers|
  {
    match e
    case Work(i) => if i < |s.workers| then Worked(s, i) else s
    case Wake(i) => if i < |s.workers| && s.workers[i].Asleep? then Put(s, i, Ready) else s
    case Add(j) => Added(s, j)
    case Destroy => Destroyed(s)
  }

  // ---- what every run keeps ----

  ghost predicate LockOk(s: State) {
    && (forall i {:trigger s.workers[i]} | 0 <= i < |s.workers| :: Holds(s.workers[i]) <==> s.lock == Worker(i))
    && (s.lock.Adder? <==> !s.adding.Outside?)
    && (s.lock.Worker? ==> 0 <= s.lock.i < |s.workers|)
  }

  ghost predicate SizeOk(s: State) {
    && (!s.destroying.Freed? ==> s.size == if s.adding.Appended? then |s.queue| - 1 else |s.queue|)
    && (s.shutdown <==> !s.destroying.Before?)
  }

  /** What a worker knows. */
  ghost predicate KnowsOk(s: State, i: nat)
    requires i < |s.workers| && i < |s.late|
  {
    var w := s.workers[i];
    && (w.Empty? || w.Waiting? ==> s.size == 0)
    && (w.Deciding? ==> s.size != 0 || s.shutdown)
    && (w.Taking? ==> s.size != 0 && !s.late[i])
    && (w.Gone? ==> s.shutdown)
    && (s.late[i] ==> s.shutdown)
    && (s.destroying.Freed? ==> w.Gone?)
    && (w.Running? ==> w.task < |s.taken| && w.task !in s.done)
  }

  ghost predicate TasksOk(s: State) {
    && (forall t {:trigger s.taken[t]} | 0 <= t < |s.taken| :: s.taken[t] == t)
    && (!s.destroying.Freed? ==> |s.taken| + |s.queue| == s.added && s.discarded == {})
    && (forall k {:trigger s.queue[k]} | 0 <= k < |s.queue| :: s.queue[k] == |s.taken| + k)
    && (s.destroying.Freed? ==> s.queue == [] && s.adding.Outside?)
    && (s.destroying.Freed? ==>
          forall t: nat {:trigger t in s.discarded} :: t in s.discarded <==> |s.taken| <= t < s.added)
  }

  ghost predicate IsRunning(ws: seq<Phase>, t: nat) {
    exists i {:trigger ws[i]} | 0 <= i < |ws| :: ws[i] == Running(t)
  }

  /** Every task that was taken is running or done, and none runs twice. */
  ghost predicate RunsOk(s: State) {
    && (forall t {:trigger IsRunning(s.workers, t)} | 0 <= t < |s.taken| :: t in s.done || IsRunning(s.workers, t))
    && (forall t | t in s.done :: t < |s.taken|)
    && (forall i, j {:trigger s.workers[i], s.workers[j]} | 0 <= i < j < |s.workers| && s.workers[i].Running? ::
          s.workers[i] != s.workers[j])
  }

  function Count(b: seq<bool>): nat {
    if b == [] then 0 else (if b[0] then 1 else 0) + Count(b[1..])
  }

  function Takers(ws: seq<Phase>): seq<bool> {
    seq(|ws|, i requires 0 <= i < |ws| => Taker(ws[i]))
  }

  function Pending(s: State): nat {
    if s.adding.Appended? || s.adding.Counted? then 1 else 0
  }

  /** While a worker sleeps, there are as many others on the way to the queue as there are tasks in it, except
      for the task whose adder is about to signal. */
  ghost predicate NoneForgotten(s: State) {
    !s.shutdown && SomeoneAsleep(s.workers) ==> |s.queue| <= Count(Takers(s.workers)) + Pending(s)
  }

  ghost predicate Inv(s: State) {
    && |s.late| == |s.workers| && LockOk(s) && SizeOk(s) && TasksOk(s) && RunsOk(s) && NoneForgotten(s)
    && s.afterwards == Count(s.late) && (forall i {:trigger KnowsOk(s, i)} | 0 <= i < |s.workers| :: KnowsOk(s, i))
  }

  lemma {:induction false} CountUpdate(b: seq<bool>, i: nat, x: bool)
    requires i < |b|
    ensures Count(b[i := x]) + (if b[i] then 1 else 0) == Count(b) + if x then 1 else 0
  {
    if i == 0 {
      assert b[0 := x][1..] == b[1..];
    } else {
      assert b[i := x][1..] == b[1..][i - 1 := x];
      CountUpdate(b[1..], i - 1, x);
    }
  }

  lemma TakersPut(ws: seq<Phase>, i: nat, w: Phase)
    requires i < |ws|
    ensures Count(Takers(ws[i := w])) + (if Taker(ws[i]) then 1 else 0) == Count(Takers(ws)) + if Taker(w) then 1 else 0
  {
    assert Takers(ws[i := w]) == Takers(ws)[i := Taker(w)];
    CountUpdate(Takers(ws), i, Taker(w));
  }

  lemma WorkKnows(s: State, i: nat, j: nat)
    requires Inv(s) && i < |s.workers| && j < |s.workers|
    ensures var t := Worked(s, i); |t.workers| == |t.late| == |s.workers| && KnowsOk(t, j)
  {
    hide NoneForgotten, Count;
    assert KnowsOk(s, i) && KnowsOk(s, j);
    assert s.workers[i] != s.workers[j] || !s.workers[i].Running? || i == j;
  }

  lemma WorkRuns(s: State, i: nat)
    requires Inv(s) && i < |s.workers|
    ensures RunsOk(Worked(s, i))
  {
    hide NoneForgotten, Count;
    var u := Worked(s, i);
    forall t {:trigger IsRunning(u.workers, t)} | 0 <= t < |u.taken| ensures t in u.done || IsRunning(u.workers, t) {
      if t < |s.taken| {
        if t !in s.done {
          assert IsRunning(s.workers, t);
          var k :| 0 <= k < |s.workers| && s.workers[k] == Running(t);
          assert k != i ==> u.workers[k] == Running(t);
        }
      } else {
        assert u.workers[i] == Running(t);
      }
    }
    assert KnowsOk(s, i);
    forall k, j {:trigger u.workers[k], u.workers[j]} | 0 <= k < j < |u.workers| && u.workers[k].Running?
      ensures u.workers[k] != u.workers[j]
    {
      assert KnowsOk(s, k) && KnowsOk(s, j);
    }
  }

  lemma WorkKeeps(s: State, i: nat)
    requires Inv(s) && i < |s.workers|
    ensures Inv(Worked(s, i))
  {
    var t := Worked(s, i);
    WorkRuns(s, i);
    hide RunsOk;
    forall j {:trigger KnowsOk(t, j)} | 0 <= j < |t.workers| ensures KnowsOk(t, j) {
      WorkKnows(s, i, j);
    }
    WorkForgets(s, i);
    assert KnowsOk(s, i);
    CountUpdate(s.late, i, true);
    assert s.late[i := s.late[i]] == s.late;
    hide NoneForgotten;
  }

  lemma WorkForgets(s: State, i: nat)
    requires Inv(s) && i < |s.workers|
    ensures NoneForgotten(Worked(s, i))
  {
    var t := Worked(s, i);
    assert KnowsOk(s, i);
    TakersPut(s.workers, i, t.workers[i]);
    hide Count, RunsOk;
    if SomeoneAsleep(t.workers) && !s.workers[i].Waiting? {
      var k :| 0 <= k < |t.workers| && t.workers[k].Asleep?;
      assert s.workers[k].Asleep?;
    }
  }

  /** A sleeper wakes up, by a signal or for no reason. */
  lemma WakeKeeps(s: State, i: nat)
    requires Inv(s) && i < |s.workers| && s.workers[i].Asleep?
    ensures Inv(Put(s, i, Ready)) && Count(Takers(Put(s, i, Ready).workers)) == Count(Takers(s.workers)) + 1
  {
    var t := Put(s, i, Ready);
    TakersPut(s.workers, i, Ready);
    assert KnowsOk(s, i);
    hide Count;
    forall j {:trigger KnowsOk(t, j)} | 0 <= j < |t.workers| ensures KnowsOk(t, j) {
      assert KnowsOk(s, j);
    }
    forall x {:trigger IsRunning(t.workers, x)} | 0 <= x < |t.taken| ensures x in t.done || IsRunning(t.workers, x) {
      if x !in s.done {
        assert IsRunning(s.workers, x);
        var k :| 0 <= k < |s.workers| && s.workers[k] == Running(x);
        assert t.workers[k] == Running(x);
      }
    }
  }

  lemma AddKeeps(s: State, j: nat)
    requires Inv(s)
    ensures Inv(Added(s, j))
  {
    var t := Added(s, j);
    if s.adding.Counted? && j < |s.workers| && s.workers[j].Asleep? {
      WakeKeeps(s, j);
      var u := Put(s, j, Ready);
      hide Count, RunsOk;
      forall i {:trigger KnowsOk(t, i)} | 0 <= i < |t.workers| ensures KnowsOk(t, i) {
        assert KnowsOk(u, i);
      }
      assert RunsOk(t) <==> RunsOk(u);
    } else {
      hide Count;
      forall i {:trigger KnowsOk(t, i)} | 0 <= i < |t.workers| ensures KnowsOk(t, i) {
        assert KnowsOk(s, i);
      }
      assert RunsOk(t) <==> RunsOk(s);
    }
  }

  lemma DestroyKeeps(s: State)
    requires Inv(s)
    ensures Inv(Destroyed(s))
  {
    var t := Destroyed(s);
    hide Count;
    forall i {:trigger KnowsOk(t, i)} | 0 <= i < |t.workers| ensures KnowsOk(t, i) {
      assert KnowsOk(s, i);
    }
    if s.destroying.Broadcast? && t.destroying.Freed? {
      forall x: nat {:trigger x in t.discarded} ensures x in t.discarded <==> |t.taken| <= x < t.added {
        if |t.taken| <= x < t.added {
          assert s.queue[x - |t.taken|] == x;
        }
      }
    }
    forall x {:trigger IsRunning(t.workers, x)} | 0 <= x < |t.taken| ensures x in t.done || IsRunning(t.workers, x) {
      if x !in s.done {
        assert IsRunning(s.workers, x);
        var k :| 0 <= k < |s.workers| && s.workers[k] == Running(x);
        assert t.workers[k] == Running(x);
      }
    }
  }

  lemma InitOk(n: nat)
    ensures Inv(Init(n))
  {
    assert !SomeoneAsleep(Init(n).workers);
    CountNone(Init(n).late);
  }

  function Run(s: State, events: seq<Event>): (t: State)
    requires |s.late| == |s.workers|
    ensures |t.late| == |t.workers|
    decreases |events|
  {
    if events == [] then s else Run(Do(s, events[0]), events[1..])
  }

  lemma DoKeeps(s: State, e: Event)
    requires Inv(s)
    ensures Inv(Do(s, e)) && |Do(s, e).workers| == |s.workers|
  {
    hide Inv;
    match e
    case Work(i) =>
      if i < |s.workers| {
        WorkKeeps(s, i);
      }
    case Wake(i) =>
      if i < |s.workers| && s.workers[i].Asleep? {
        WakeKeeps(s, i);
      }
    case Add(j) => AddKeeps(s, j);
    case Destroy => DestroyKeeps(s);
  }

  lemma {:induction false} RunKeeps(s: State, events: seq<Event>)
    requires Inv(s)
    ensures Inv(Run(s, events)) && |Run(s, events).workers| == |s.workers|
    decreases |events|
  {
    if events != [] {
      DoKeeps(s, events[0]);
      hide Inv, Do;
      RunKeeps(Do(s, events[0]), events[1..]);
    }
  }

  lemma {:induction false} CountNone(b: seq<bool>)
    requires forall i | 0 <= i < |b| :: !b[i]
    ensures Count(b) == 0
  {
    if b != [] {
      CountNone(b[1..]);
    }
  }

  lemma {:induction false} CountBound(b: seq<bool>)
    ensures Count(b) <= |b|
    ensures Count(b) > 0 ==> exists i :: 0 <= i < |b| && b[i]
  {
    if b != [] {
      CountBound(b[1..]);
      if Count(b[1..]) > 0 {
        var i :| 0 <= i < |b[1..]| && b[1..][i];
        assert b[i + 1];
      }
    }
  }

  /** Where task t is: in the queue, with a worker, finished or thrown away. */
  ghost predicate InOnePlace(s: State, t: nat) {
    && (if t in s.queue then !IsRunning(s.workers, t) && t !in s.done && t !in s.discarded
        else if IsRunning(s.workers, t) then t !in s.done && t !in s.discarded
        else t in s.done <==> t !in s.discarded)
  }

  lemma OnePlace(s: State, t: nat)
    requires Inv(s) && t < s.added
    ensures InOnePlace(s, t)
  {
    hide NoneForgotten, LockOk, SizeOk, Count;
    if IsRunning(s.workers, t) {
      var i :| 0 <= i < |s.workers| && s.workers[i] == Running(t);
      assert KnowsOk(s, i);
    }
    if t < |s.taken| {
      Recall(IsRunning(s.workers, t));
    } else if !s.destroying.Freed? {
      assert s.queue[t - |s.taken|] == t;
    }
  }

  /** Whatever the interleaving of n workers, of adders and of pool_destroy, with spurious wakeups. */
  lemma RunIsSafe(n: nat, events: seq<Event>)
    ensures var s := Run(Init(n), events);
      && (s.lock.NoOne? && !s.destroying.Freed? ==> s.size == |s.queue|)
      && (forall i | 0 <= i < |s.workers| && s.workers[i].Taking? :: s.size != 0 && s.queue != [])
      && (forall t | 0 <= t < |s.taken| :: s.taken[t] == t)
      && (forall t: nat {:trigger InOnePlace(s, t)} | t < s.added :: InOnePlace(s, t))
      && (!s.shutdown && s.lock.NoOne? && SomeoneAsleep(s.workers) ==> |s.queue| <= Count(Takers(s.workers)))
      && s.afterwards <= n
  {
    var s := Run(Init(n), events);
    InitOk(n);
    RunKeeps(Init(n), events);
    CountBound(s.late);
    forall i | 0 <= i < |s.workers| && s.workers[i].Taking? ensures s.size != 0 && s.queue != [] {
      assert KnowsOk(s, i);
    }
    forall t: nat {:trigger InOnePlace(s, t)} | t < s.added ensures InOnePlace(s, t) {
      OnePlace(s, t);
    }
  }

  /** Before shutdown, and while no one holds the lock, a task that waits has a worker that is awake. */
  lemma SomeoneIsAwake(n: nat, events: seq<Event>)
    requires n > 0
    ensures var s := Run(Init(n), events);
      !s.shutdown && s.lock.NoOne? && s.queue != [] ==> exists i :: 0 <= i < |s.workers| && !s.workers[i].Asleep?
  {
    var s := Run(Init(n), events);
    RunIsSafe(n, events);
    InitOk(n);
    RunKeeps(Init(n), events);
    CountBound(Takers(s.workers));
    assert SomeoneAsleep(s.workers) || !s.workers[0].Asleep?;
  }

  // ---- what pool_destroy misses ----

  /** Worker i sleeps, and pool_destroy has made its only broadcast. */
  ghost predicate Stranded(s: State, i: nat) {
    i < |s.workers| && s.workers[i].Asleep? && s.destroying.Broadcast?
  }

  /** Only a wakeup of worker i for no reason, or the signal of an adder that goes to worker i, can end that;
      until then, pool_destroy waits. */
  lemma {:induction false} StaysStranded(s: State, i: nat, events: seq<Event>)
    requires |s.late| == |s.workers| && Stranded(s, i)
    requires forall e | e in events :: e != Wake(i) && e != Add(i)
    ensures Stranded(Run(s, events), i)
    decreases |events|
  {
    if events != [] {
      var t := Do(s, events[0]);
      assert events[0] in events && Stranded(t, i);
      forall e | e in events[1..] ensures e != Wake(i) && e != Add(i) {
        assert e in events;
      }
      hide Do;
      StaysStranded(t, i, events[1..]);
    }
  }

  /** Shutdown is set, and no worker is between its test of it and its sleep, or behind that. */
  ghost predicate NoneWaits(s: State) {
    && s.shutdown && !s.destroying.Before?
    && forall i | 0 <= i < |s.workers| :: !s.workers[i].Waiting? && !s.workers[i].Asleep?
  }

  lemma {:induction false} NoneFallsAsleep(s: State, events: seq<Event>)
    requires |s.late| == |s.workers| && NoneWaits(s)
    ensures NoneWaits(Run(s, events))
    decreases |events|
  {
    if events != [] {
      var t := Do(s, events[0]);
      assert NoneWaits(t);
      hide Do, NoneWaits;
      NoneFallsAsleep(t, events[1..]);
    }
  }

  ghost predicate MayStrand(s: State)
    requires |s.late| == |s.workers|
  {
    exists events, i {:trigger Stranded(Run(s, events), i)} :: Stranded(Run(s, events), i)
  }

  /** The broadcast of pool_destroy can be missed if and only if at this moment some worker has read shutdown before
      it was set, and does not sleep yet: shutdown is set without the lock that this worker holds. */
  lemma BroadcastMissed(s: State)
    requires Inv(s) && s.destroying.Set?
    ensures MayStrand(Do(s, Destroy)) <==> exists i :: 0 <= i < |s.workers| && s.workers[i].Waiting?
  {
    var t := Do(s, Destroy);
    if i :| 0 <= i < |s.workers| && s.workers[i].Waiting? {
      assert t.workers[i].Waiting?;
      assert Stranded(Do(t, Work(i)), i);
      RunOne(t, Work(i), []);
      assert Stranded(Run(t, [Work(i)] + []), i);
    } else {
      assert NoneWaits(t);
      forall events, i {:trigger Stranded(Run(t, events), i)} ensures !Stranded(Run(t, events), i) {
        NoneFallsAsleep(t, events);
      }
    }
  }

  /** Set and broadcast while no one holds the lock, shutdown strands no worker. */
  lemma LockedShutdown(s: State, events: seq<Event>, i: nat)
    requires Inv(s) && s.destroying.Before? && s.lock.NoOne?
    ensures !Stranded(Run(Do(Do(s, Destroy), Destroy), events), i)
  {
    assert forall j | 0 <= j < |s.workers| :: Holds(s.workers[j]) <==> s.lock == Worker(j);
    var t := Do(Do(s, Destroy), Destroy);
    assert NoneWaits(t);
    NoneFallsAsleep(t, events);
  }

  /** The same for all states that n workers can be in. */
  lemma MissedInRun(n: nat, events: seq<Event>)
    requires Run(Init(n), events).destroying.Set?
    ensures var s := Run(Init(n), events);
      MayStrand(Do(s, Destroy)) <==> exists i :: 0 <= i < |s.workers| && s.workers[i].Waiting?
  {
    InitOk(n);
    RunKeeps(Init(n), events);
    BroadcastMissed(Run(Init(n), events));
  }

  /** The only worker has read shutdown, but it does not sleep yet. */
  const MISSED: seq<Event> := [Work(0), Work(0), Work(0), Destroy, Destroy, Work(0)]

  /** Such a state is reached, and unless its worker is woken up for no reason or by an adder, pool_destroy waits for
      ever. */
  lemma MissedBroadcast(events: seq<Event>)
    requires forall e | e in events :: e != Wake(0) && e != Add(0)
    ensures var s := Run(Run(Init(1), MISSED), events);
      |s.workers| == 1 && s.workers[0].Asleep? && s.destroying.Broadcast?
  {
    var s := Run(Init(1), MISSED);
    Missed();
    StaysStranded(s, 0, events);
    InitOk(1);
    RunKeeps(Init(1), MISSED);
    RunKeeps(s, events);
  }

  lemma Missed()
    ensures var s := Run(Init(1), MISSED); s.workers == [Asleep] && s.destroying == Broadcast && s.adding == Outside
  {
    var s0 := Init(1);
    var s1 := Do(s0, Work(0));
    var s2 := Do(s1, Work(0));
    var s3 := Do(s2, Work(0));
    var s4 := Do(s3, Destroy);
    var s5 := Do(s4, Destroy);
    assert s3.workers == [Waiting] && s5.workers == [Waiting] && Do(s5, Work(0)).workers == [Asleep];
    hide Do;
    RunOne(s0, Work(0), [Work(0), Work(0), Destroy, Destroy, Work(0)]);
    RunOne(s1, Work(0), [Work(0), Destroy, Destroy, Work(0)]);
    RunOne(s2, Work(0), [Destroy, Destroy, Work(0)]);
    RunOne(s3, Destroy, [Destroy, Work(0)]);
    RunOne(s4, Destroy, [Work(0)]);
    RunOne(s5, Work(0), []);
  }

  lemma RunOne(s: State, e: Event, rest: seq<Event>)
    requires |s.late| == |s.workers|
    ensures Run(s, [e] + rest) == Run(Do(s, e), rest)
  {
    assert ([e] + rest)[1..] == rest;
  }
}
