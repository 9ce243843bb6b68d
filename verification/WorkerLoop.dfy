/**
 The worker threads: stealing tasks, running them on pooled fibers, and deciding together when to
 leave (`threadRoutine`).

 Thread 0 is the main thread, which may schedule tasks before it enters the loop.  Each locked
 section of the scheduler is one step; a `TryLock` that fails is a step of its own.
 */
module WorkerLoop {
  import opened Common

  datatype Task = Task(id: nat)

  /** The flags of a pooled fiber and the function it was last reset to. */
  datatype Flags = Flags(start: bool, end: bool, pfn: seq<Task>)

  datatype Phase = BeforeLoop | Head | Body | InFiber(f: nat) | Exited

  /** `live` is currentFiberCount_.  `started` is history: the tasks begun by this thread. */
  datatype Worker = Worker(phase: Phase, wannaQuit: bool, stolen: seq<Task>, live: int,
                           fibers: seq<Flags>, pool: seq<nat>, started: seq<Task>)

  /** `votes` is wannaQuitThreadCount.  `scheduled` and `stolenBy` are history: every task ever
      scheduled, and for the first of them the thread that stole it. */
  datatype State = State(workers: seq<Worker>, comm: seq<Task>, votes: int,
                         scheduled: seq<Task>, stolenBy: seq<nat>)

  const POOL_BATCH: nat := 64

  // ----- The locked section ----------------------------------------------------------------------

  datatype Verdict = Verdict(wannaQuit: bool, stolen: seq<Task>, comm: seq<Task>, votes: int, leave: bool)

  function Locked(wannaQuit: bool, stolen: seq<Task>, live: int, comm: seq<Task>, votes: int, n: int): Verdict {
    var steal := comm != [];
    var quit1 := wannaQuit && !steal;
    var votes1 := if steal && wannaQuit then votes - 1 else votes;
    var stolen1, comm1 := if steal then comm else stolen, if steal then stolen else comm;
    var vote := !quit1 && stolen1 == [] && live == 0;
    var votes2 := if vote then votes1 + 1 else votes1;
    Verdict(quit1 || vote, stolen1, comm1, votes2, votes2 == n && stolen1 == [] && live == 0)
  }

  /** The part of the scheduler object the locked section works on. */
  class Scheduler {
    var commTasks: seq<Task>
    var wannaQuitThreadCount: int
    const threadNum: int

    constructor (n: int)
      ensures commTasks == [] && wannaQuitThreadCount == 0 && threadNum == n
    {
      commTasks, wannaQuitThreadCount, threadNum := [], 0, n;
    }

    method Schedule(fn: Task)
      modifies this
      ensures commTasks == old(commTasks) + [fn] && wannaQuitThreadCount == old(wannaQuitThreadCount)
    {
      commTasks := commTasks + [fn];
    }

    method LockedSection(wannaQuit: bool, stolen: seq<Task>, live: int)
      returns (quit: bool, tasks: seq<Task>, leave: bool)
      modifies this
      ensures Verdict(quit, tasks, commTasks, wannaQuitThreadCount, leave)
           == Locked(wannaQuit, stolen, live, old(commTasks), old(wannaQuitThreadCount), threadNum)
    {
      quit, tasks := wannaQuit, stolen;
      if commTasks != [] {
        tasks, commTasks := commTasks, tasks;
        if quit {
          quit := false;
          wannaQuitThreadCount := wannaQuitThreadCount - 1;
        }
      }
      if !quit && tasks == [] && live == 0 {
        quit := true;
        wannaQuitThreadCount := wannaQuitThreadCount + 1;
      }
      leave := wannaQuitThreadCount == threadNum && tasks == [] && live == 0;
    }
  }

  // ----- Pooled fibers ---------------------------------------------------------------------------

  predicate Busy(r: Flags) { r.start && !r.end }

  /** `GetFiberFromPool` when the pool is empty: a batch of new fibers. */
  function Refill(w: Worker): Worker {
    if w.pool != [] then w
    else
      w.(fibers := w.fibers + seq(POOL_BATCH, i => Flags(false, false, [])),
         pool := seq(POOL_BATCH, i => |w.fibers| + i))
  }

  /** `Fiber::Reset`: ignored by a fiber that is in the middle of something. */
  function Reset(r: Flags, task: Task): Flags {
    if Busy(r) then r else Flags(false, false, [task])
  }

  /** `Fiber::Resume` on a fiber fresh from `Reset`: only an unstarted fiber enters GoRoutine, which
      counts it and calls its function. */
  function Launch(w: Worker, f: nat): Worker
    requires f < |w.fibers|
  {
    var r := w.fibers[f];
    if r.start then w.(phase := InFiber(f))
    else w.(phase := InFiber(f), fibers := w.fibers[f := r.(start := true)], live := w.live + 1,
            started := w.started + r.pfn)
  }

  function StartTask(w: Worker): Worker
    requires w.stolen != []
  {
    var w1 := Refill(w);
    var f := w1.pool[0];
    if f >= |w1.fibers| then w
    else
      Launch(w1.(pool := w1.pool[1..], stolen := w1.stolen[1..],
                 fibers := w1.fibers[f := Reset(w1.fibers[f], w1.stolen[0])]), f)
  }

  /** The tail of GoRoutine. */
  function EndFiber(w: Worker, f: nat): Worker
    requires f < |w.fibers|
  {
    w.(phase := Body, fibers := w.fibers[f := w.fibers[f].(end := true)], pool := w.pool + [f],
       live := w.live - 1)
  }

  // ----- Steps -----------------------------------------------------------------------------------

  datatype Act =
    | Schedule(t: nat, task: Task)
    | Outside(task: Task)             // scheduled by a thread that is not one of these
    | Enter
    | TryLock(t: nat) | MissLock(t: nat)
    | Begin(t: nat)
    | Resume(t: nat, f: nat)
    | Block(t: nat) | End(t: nat)
    | Repeat(t: nat)

  predicate Enabled(s: State, a: Act) {
    if a.Enter? then |s.workers| > 0 && s.workers[0].phase == BeforeLoop
    else if a.Outside? then true
    else a.t < |s.workers| && CanDo(s.workers[a.t], a)
  }

  /** What the phase of thread `a.t` lets it do. */
  predicate CanDo(w: Worker, a: Act) {
    match a
    case Outside(_) => true
    case Schedule(t, _) => (t == 0 && w.phase == BeforeLoop) || w.phase.InFiber?
    case Enter => w.phase == BeforeLoop
    case TryLock(_) => w.phase == Head
    case MissLock(_) => w.phase == Head
    case Begin(_) => w.phase == Body && w.stolen != []
    case Resume(_, f) => w.phase == Body && f < |w.fibers| && Busy(w.fibers[f])
    case Block(_) => w.phase.InFiber?
    case End(_) => w.phase.InFiber? && w.phase.f < |w.fibers|
    case Repeat(_) => w.phase == Body && w.stolen == []
  }

  function Set(s: State, t: nat, w: Worker): State
    requires t < |s.workers|
  {
    s.(workers := s.workers[t := w])
  }

  function AfterLock(s: State, t: nat): State
    requires t < |s.workers|
  {
    var w := s.workers[t];
    var v := Locked(w.wannaQuit, w.stolen, w.live, s.comm, s.votes, |s.workers|);
    Set(s, t, w.(phase := if v.leave then Exited else Body, wannaQuit := v.wannaQuit, stolen := v.stolen))
      .(comm := v.comm, votes := v.votes,
        stolenBy := s.stolenBy + seq(|s.comm|, i => t))
  }

  function Next(s: State, a: Act): State
    requires Enabled(s, a)
  {
    match a
    case Schedule(_, task) => s.(comm := s.comm + [task], scheduled := s.scheduled + [task])
    case Outside(task) => s.(comm := s.comm + [task], scheduled := s.scheduled + [task])
    case Enter => Set(s, 0, s.workers[0].(phase := Head))
    case TryLock(t) => AfterLock(s, t)
    case MissLock(t) => Set(s, t, s.workers[t].(phase := Body))
    case Begin(t) => Set(s, t, StartTask(s.workers[t]))
    case Resume(t, f) => Set(s, t, s.workers[t].(phase := InFiber(f)))
    case Block(t) => Set(s, t, s.workers[t].(phase := Body))
    case End(t) => Set(s, t, EndFiber(s.workers[t], s.workers[t].phase.f))
    case Repeat(t) => Set(s, t, s.workers[t].(phase := Head))
  }

  // ----- The invariant ---------------------------------------------------------------------------

  function CountBusy(fibers: seq<Flags>): nat {
    if fibers == [] then 0 else CountBusy(fibers[..|fibers| - 1]) + Bit(Busy(fibers[|fibers| - 1]))
  }

  function CountQuit(workers: seq<Worker>): nat {
    if workers == [] then 0
    else CountQuit(workers[..|workers| - 1]) + Bit(workers[|workers| - 1].wannaQuit)
  }

  /** The tasks stolen by thread `t`, in the order they were scheduled. */
  function Taken(scheduled: seq<Task>, thieves: seq<nat>, t: nat): seq<Task>
    requires |thieves| <= |scheduled|
    decreases |thieves|
  {
    if thieves == [] then []
    else
      var k := |thieves| - 1;
      Taken(scheduled, thieves[..k], t) + (if thieves[k] == t then [scheduled[k]] else [])
  }

  ghost predicate PoolInv(w: Worker) {
    && (forall i :: 0 <= i < |w.pool| ==> w.pool[i] < |w.fibers| && !Busy(w.fibers[w.pool[i]]))
    && (forall f :: 0 <= f < |w.fibers| && !Busy(w.fibers[f]) ==> f in w.pool)
    && Distinct(w.pool)
    && (w.phase.InFiber? ==> w.phase.f < |w.fibers| && Busy(w.fibers[w.phase.f]))
    && w.live == CountBusy(w.fibers)
  }

  ghost predicate WorkerInv(w: Worker) {
    && PoolInv(w)
    && (w.wannaQuit ==> w.live == 0 && w.stolen == [] && (w.phase == Head || w.phase == Body || w.phase == Exited))
    && (w.phase == BeforeLoop || w.phase == Head || w.phase == Exited ==> w.stolen == [])
    && (w.phase == Exited ==> w.wannaQuit)
    && (w.phase == BeforeLoop ==> w.live == 0)
  }

  ghost predicate QueueInv(s: State) {
    && |s.stolenBy| <= |s.scheduled| && s.comm == s.scheduled[|s.stolenBy|..]
    && (forall k :: 0 <= k < |s.stolenBy| ==> s.stolenBy[k] < |s.workers|)
  }

  ghost predicate TakenInv(s: State, t: nat)
    requires t < |s.workers| && |s.stolenBy| <= |s.scheduled|
  {
    s.workers[t].started + s.workers[t].stolen == Taken(s.scheduled, s.stolenBy, t)
  }

  ghost predicate Inv(s: State) {
    && QueueInv(s)
    && (forall t {:trigger WorkerInv(s.workers[t])} :: 0 <= t < |s.workers| ==> WorkerInv(s.workers[t]))
    && (forall t :: 0 <= t < |s.workers| ==> TakenInv(s, t))
    && s.votes == CountQuit(s.workers)
  }

  ghost predicate SomeoneLeft(s: State) {
    exists t :: 0 <= t < |s.workers| && s.workers[t].phase == Exited
  }

  /** Everybody has voted, and nothing is to be done. */
  predicate Over(s: State) {
    s.votes == |s.workers| && s.comm == []
  }

  // ----- Counting --------------------------------------------------------------------------------

  lemma {:induction false} CountBusyUpdate(q: seq<Flags>, f: nat, r: Flags)
    requires f < |q|
    ensures CountBusy(q[f := r]) == CountBusy(q) - Bit(Busy(q[f])) + Bit(Busy(r))
  {
    var k := |q| - 1;
    if f == k {
      assert q[f := r][..k] == q[..k];
    } else {
      assert q[f := r][..k] == q[..k][f := r];
      CountBusyUpdate(q[..k], f, r);
    }
  }

  lemma {:induction false} CountBusyAppend(q: seq<Flags>, more: seq<Flags>)
    requires forall i :: 0 <= i < |more| ==> !Busy(more[i])
    ensures CountBusy(q + more) == CountBusy(q)
    decreases |more|
  {
    if more == [] {
      assert q + more == q;
    } else {
      var k := |more| - 1;
      assert (q + more)[..|q| + k] == q + more[..k];
      CountBusyAppend(q, more[..k]);
    }
  }

  lemma {:induction false} CountQuitUpdate(q: seq<Worker>, t: nat, w: Worker)
    requires t < |q|
    ensures CountQuit(q[t := w]) == CountQuit(q) - Bit(q[t].wannaQuit) + Bit(w.wannaQuit)
  {
    var k := |q| - 1;
    if t == k {
      assert q[t := w][..k] == q[..k];
    } else {
      assert q[t := w][..k] == q[..k][t := w];
      CountQuitUpdate(q[..k], t, w);
    }
  }

  /** The count is full exactly when everybody has voted. */
  lemma {:induction false} CountQuitFull(q: seq<Worker>)
    ensures CountQuit(q) <= |q|
    ensures CountQuit(q) == |q| <==> forall t :: 0 <= t < |q| ==> q[t].wannaQuit
  {
    if q != [] {
      var k := |q| - 1;
      CountQuitFull(q[..k]);
      assert forall t :: 0 <= t < k ==> q[..k][t] == q[t];
    }
  }

  /** Stealing a batch appends it to what the thief has taken, and gives nothing to anybody else. */
  lemma {:induction false} TakenBatch(scheduled: seq<Task>, thieves: seq<nat>, t: nat, n: nat, u: nat)
    requires |thieves| + n <= |scheduled|
    ensures Taken(scheduled, thieves + seq(n, i => t), u)
         == Taken(scheduled, thieves, u) + (if u == t then scheduled[|thieves|..|thieves| + n] else [])
    decreases n
  {
    var thieves' := thieves + seq(n, i => t);
    if n == 0 {
      assert thieves' == thieves;
    } else {
      var less := thieves + seq(n - 1, i => t);
      assert |less| == |thieves'| - 1 && thieves'[..|less|] == less;
      TakenBatch(scheduled, thieves, t, n - 1, u);
      OneLonger(scheduled, |thieves|, |less|);
      Regroup(Taken(scheduled, thieves, u), scheduled[|thieves|..|less|], [scheduled[|less|]]);
    }
  }

  lemma OneLonger(q: seq<Task>, i: nat, j: nat)
    requires i <= j < |q|
    ensures q[i..j] + [q[j]] == q[i..j + 1]
  {}

  lemma {:induction false} TakenPrefix(scheduled: seq<Task>, more: seq<Task>, thieves: seq<nat>, t: nat)
    requires |thieves| <= |scheduled|
    ensures Taken(scheduled + more, thieves, t) == Taken(scheduled, thieves, t)
    decreases |thieves|
  {
    if thieves != [] {
      TakenPrefix(scheduled, more, thieves[..|thieves| - 1], t);
    }
  }

  // ----- Preservation: one worker ----------------------------------------------------------------

  lemma RefillKeepsPool(w: Worker)
    requires PoolInv(w)
    ensures PoolInv(Refill(w)) && Refill(w).pool != []
  {
    if w.pool == [] {
      CountBusyAppend(w.fibers, seq(POOL_BATCH, i => Flags(false, false, [])));
      var w' := Refill(w);
      forall f | 0 <= f < |w'.fibers| && !Busy(w'.fibers[f])
        ensures f in w'.pool
      {
        assert f >= |w.fibers| ==> w'.pool[f - |w.fibers|] == f;
      }
    }
  }

  /** The first fiber of the pool, running a task. */
  function OnFirst(w: Worker, task: Task): Worker
    requires w.pool != [] && w.pool[0] < |w.fibers|
  {
    var f := w.pool[0];
    w.(phase := InFiber(f), pool := w.pool[1..], fibers := w.fibers[f := Flags(true, false, [task])],
       live := w.live + 1)
  }

  lemma OnFirstKeepsPool(w: Worker, task: Task)
    requires PoolInv(w) && w.pool != []
    ensures PoolInv(OnFirst(w, task))
  {
    var f, w' := w.pool[0], OnFirst(w, task);
    CountBusyUpdate(w.fibers, f, Flags(true, false, [task]));
    HeadAndTail(w.pool);
    assert forall i :: 0 <= i < |w'.pool| ==> w'.pool[i] == w.pool[i + 1];
  }

  lemma BeginsOnFirst(w: Worker)
    requires PoolInv(w) && w.stolen != []
    ensures var w1 := Refill(w);
      && w1.pool != [] && w1.pool[0] < |w1.fibers|
      && StartTask(w) == OnFirst(w1.(stolen := w.stolen[1..], started := w.started + [w.stolen[0]]), w.stolen[0])
  {
    RefillKeepsPool(w);
    var w1, task := Refill(w), w.stolen[0];
    var f := w1.pool[0];
    assert w1.fibers[f := Flags(false, false, [task])][f := Flags(true, false, [task])]
        == w1.fibers[f := Flags(true, false, [task])];
  }

  /** A fiber from the pool is idle, so `Reset` takes effect: the thread begins exactly the task at
      the front of its batch, on a fiber of its own. */
  lemma StartsTheTask(w: Worker)
    requires PoolInv(w) && w.stolen != []
    ensures var w' := StartTask(w);
      && PoolInv(w')
      && w'.started == w.started + [w.stolen[0]] && w'.stolen == w.stolen[1..]
      && w'.live == w.live + 1
      && w'.phase.InFiber? && w'.phase.f < |w'.fibers|
      && w'.fibers[w'.phase.f] == Flags(true, false, [w.stolen[0]])
      && (w'.phase.f < |w.fibers| ==> !Busy(w.fibers[w'.phase.f]))
      && w'.wannaQuit == w.wannaQuit
  {
    BeginsOnFirst(w);
    RefillKeepsPool(w);
    OnFirstKeepsPool(Refill(w).(stolen := w.stolen[1..], started := w.started + [w.stolen[0]]), w.stolen[0]);
  }

  lemma EndKeepsPool(w: Worker)
    requires PoolInv(w) && w.phase.InFiber?
    ensures PoolInv(EndFiber(w, w.phase.f))
  {
    CountBusyUpdate(w.fibers, w.phase.f, w.fibers[w.phase.f].(end := true));
    assert EndFiber(w, w.phase.f).pool[|w.pool|] == w.phase.f;
  }

  /** A worker that runs a fiber has a live fiber. */
  lemma {:induction false} BusyCounts(q: seq<Flags>, f: nat)
    requires f < |q| && Busy(q[f])
    ensures CountBusy(q) > 0
  {
    CountBusyUpdate(q, f, q[f].(end := true));
  }

  // ----- Preservation: the whole state -----------------------------------------------------------

  lemma LockKeepsInv(s: State, t: nat)
    requires Inv(s) && Enabled(s, TryLock(t))
    ensures Inv(AfterLock(s, t))
  {
    var s' := AfterLock(s, t);
    assert WorkerInv(s.workers[t]);
    CountQuitUpdate(s.workers, t, s'.workers[t]);
    LockKeepsWorkers(s, t);
  }

  lemma LockKeepsWorkers(s: State, t: nat)
    requires Inv(s) && Enabled(s, TryLock(t))
    ensures var s' := AfterLock(s, t);
      && QueueInv(s')
      && forall u :: 0 <= u < |s'.workers| ==> WorkerInv(s'.workers[u]) && TakenInv(s', u)
  {
    var s' := AfterLock(s, t);
    assert WorkerInv(s.workers[t]);
    forall u | 0 <= u < |s'.workers|
      ensures WorkerInv(s'.workers[u]) && TakenInv(s', u)
    {
      if u == t {
        LockKeepsThief(s, t);
      } else {
        LockKeepsOthers(s, t, u);
      }
    }
  }

  /** What the thread with the lock has taken: with a batch if there was one, else what it had. */
  lemma LockKeepsThief(s: State, t: nat)
    requires Inv(s) && Enabled(s, TryLock(t))
    ensures WorkerInv(AfterLock(s, t).workers[t]) && TakenInv(AfterLock(s, t), t)
  {
    assert WorkerInv(s.workers[t]) && TakenInv(s, t);
    TakenBatch(s.scheduled, s.stolenBy, t, |s.comm|, t);
    var w, w' := s.workers[t], AfterLock(s, t).workers[t];
    assert w.stolen == [] && w'.stolen == s.comm && w'.started == w.started;
    assert s.scheduled[|s.stolenBy|..|s.stolenBy| + |s.comm|] == s.comm;
  }

  lemma LockKeepsOthers(s: State, t: nat, u: nat)
    requires Inv(s) && Enabled(s, TryLock(t)) && u < |s.workers| && u != t
    ensures WorkerInv(AfterLock(s, t).workers[u]) && TakenInv(AfterLock(s, t), u)
  {
    assert WorkerInv(s.workers[u]) && TakenInv(s, u);
    TakenBatch(s.scheduled, s.stolenBy, t, |s.comm|, u);
  }

  lemma ScheduleKeepsInv(s: State, task: Task)
    requires Inv(s)
    ensures Inv(Next(s, Outside(task)))
  {
    var s' := Next(s, Outside(task));
    forall u | 0 <= u < |s'.workers|
      ensures WorkerInv(s'.workers[u]) && TakenInv(s', u)
    {
      assert WorkerInv(s.workers[u]) && TakenInv(s, u);
      TakenPrefix(s.scheduled, [task], s.stolenBy, u);
    }
  }

  /** A step of one worker that leaves the votes alone. */
  lemma LocalKeepsInv(s: State, t: nat, w: Worker)
    requires Inv(s) && t < |s.workers| && WorkerInv(w)
    requires w.wannaQuit == s.workers[t].wannaQuit
    requires w.phase != Exited && s.workers[t].phase != Exited
    requires w.started + w.stolen == s.workers[t].started + s.workers[t].stolen
    ensures Inv(Set(s, t, w))
  {
    var s' := Set(s, t, w);
    CountQuitUpdate(s.workers, t, w);
    forall u | 0 <= u < |s'.workers|
      ensures WorkerInv(s'.workers[u]) && TakenInv(s', u)
    {
      assert WorkerInv(s.workers[u]) && TakenInv(s, u);
    }
  }

  lemma BeginKeepsInv(s: State, t: nat)
    requires Inv(s) && Enabled(s, Begin(t))
    ensures Inv(Next(s, Begin(t)))
  {
    var w := s.workers[t];
    assert WorkerInv(w);
    StartsTheTask(w);
    HeadAndTail(w.stolen);
    Regroup(w.started, [w.stolen[0]], w.stolen[1..]);
    LocalKeepsInv(s, t, StartTask(w));
  }

  lemma ResumeKeepsInv(s: State, t: nat, f: nat)
    requires Inv(s) && Enabled(s, Resume(t, f))
    ensures Inv(Next(s, Resume(t, f)))
  {
    assert WorkerInv(s.workers[t]);
    BusyCounts(s.workers[t].fibers, f);
    LocalKeepsInv(s, t, s.workers[t].(phase := InFiber(f)));
  }

  lemma EndKeepsInv(s: State, t: nat)
    requires Inv(s) && Enabled(s, End(t))
    ensures Inv(Next(s, End(t)))
  {
    var w := s.workers[t];
    assert WorkerInv(w);
    BusyCounts(w.fibers, w.phase.f);
    EndKeepsPool(w);
    LocalKeepsInv(s, t, EndFiber(w, w.phase.f));
  }

  lemma StepKeepsInv(s: State, a: Act)
    requires Inv(s) && Enabled(s, a)
    ensures Inv(Next(s, a))
  {
    match a
    case Schedule(_, task) => ScheduleKeepsInv(s, task);
    case Outside(task) => ScheduleKeepsInv(s, task);
    case TryLock(t) => LockKeepsInv(s, t);
    case Begin(t) => BeginKeepsInv(s, t);
    case Resume(t, f) => ResumeKeepsInv(s, t, f);
    case End(t) => EndKeepsInv(s, t);
    case Enter =>
      assert WorkerInv(s.workers[0]);
      LocalKeepsInv(s, 0, s.workers[0].(phase := Head));
    case MissLock(t) =>
      assert WorkerInv(s.workers[t]);
      LocalKeepsInv(s, t, s.workers[t].(phase := Body));
    case Block(t) =>
      assert WorkerInv(s.workers[t]);
      LocalKeepsInv(s, t, s.workers[t].(phase := Body));
    case Repeat(t) =>
      assert WorkerInv(s.workers[t]);
      LocalKeepsInv(s, t, s.workers[t].(phase := Head));
  }

  // ----- Main results ----------------------------------------------------------------------------

  ghost predicate Init(s: State) {
    && s.comm == s.scheduled == [] && s.stolenBy == [] && s.votes == 0
    && |s.workers| > 0
    && (forall t :: 0 <= t < |s.workers| ==>
          s.workers[t] == Worker(if t == 0 then BeforeLoop else Head, false, [], 0, [], [], []))
  }

  ghost predicate ValidRun(s: State, run: seq<Act>)
    decreases |run|
  {
    run == [] || (Enabled(s, run[0]) && ValidRun(Next(s, run[0]), run[1..]))
  }

  ghost function After(s: State, run: seq<Act>): State
    requires ValidRun(s, run)
    decreases |run|
  {
    if run == [] then s else After(Next(s, run[0]), run[1..])
  }

  lemma {:induction false} RunKeepsInv(s: State, run: seq<Act>)
    requires Inv(s) && ValidRun(s, run)
    ensures Inv(After(s, run)) && |After(s, run).workers| == |s.workers|
    decreases |run|
  {
    if run != [] {
      StepKeepsInv(s, run[0]);
      RunKeepsInv(Next(s, run[0]), run[1..]);
    }
  }

  lemma {:induction false} NobodyQuits(q: seq<Worker>)
    requires forall t :: 0 <= t < |q| ==> !q[t].wannaQuit
    ensures CountQuit(q) == 0
  {
    if q != [] {
      NobodyQuits(q[..|q| - 1]);
    }
  }

  lemma InitInv(s: State)
    requires Init(s)
    ensures Inv(s)
  {
    NobodyQuits(s.workers);
  }

  /** The task that an act schedules. */
  function Named(a: Act): seq<Task> {
    match a
    case Schedule(_, task) => [task]
    case Outside(task) => [task]
    case _ => []
  }

  /** The tasks scheduled in a run, in order. */
  function TasksNamed(run: seq<Act>): seq<Task> {
    if run == [] then [] else Named(run[0]) + TasksNamed(run[1..])
  }

  /** The task that thread `t` begins with an act: the function of the fiber it is then in. */
  ghost function BegunAt(s: State, a: Act, t: nat): seq<Task>
    requires Enabled(s, a)
  {
    if !(a.Begin? && a.t == t) then []
    else
      var s' := Next(s, a);
      if t < |s'.workers| && s'.workers[t].phase.InFiber? && s'.workers[t].phase.f < |s'.workers[t].fibers|
      then s'.workers[t].fibers[s'.workers[t].phase.f].pfn
      else []
  }

  /** The tasks that thread `t` begins in a run, in order. */
  ghost function BegunBy(s: State, run: seq<Act>, t: nat): seq<Task>
    requires ValidRun(s, run)
    decreases |run|
  {
    if run == [] then [] else BegunAt(s, run[0], t) + BegunBy(Next(s, run[0]), run[1..], t)
  }

  /** The history fields say what the acts did. */
  lemma HistoryStep(s: State, a: Act, t: nat)
    requires Inv(s) && Enabled(s, a) && t < |s.workers|
    ensures var s' := Next(s, a);
      && |s'.workers| == |s.workers|
      && s'.scheduled == s.scheduled + Named(a)
      && s'.workers[t].started == s.workers[t].started + BegunAt(s, a, t)
  {
    if a.Begin? {
      assert WorkerInv(s.workers[a.t]);
      StartsTheTask(s.workers[a.t]);
    }
  }

  lemma {:induction false} HistoryIsTrue(s: State, run: seq<Act>, t: nat)
    requires Inv(s) && ValidRun(s, run) && t < |s.workers|
    ensures var s' := After(s, run);
      && |s'.workers| == |s.workers|
      && s'.scheduled == s.scheduled + TasksNamed(run)
      && s'.workers[t].started == s.workers[t].started + BegunBy(s, run, t)
    decreases |run|
  {
    if run != [] {
      HistoryStep(s, run[0], t);
      StepKeepsInv(s, run[0]);
      HistoryIsTrue(Next(s, run[0]), run[1..], t);
      Regroup(s.scheduled, Named(run[0]), TasksNamed(run[1..]));
      Regroup(s.workers[t].started, BegunAt(s, run[0], t), BegunBy(Next(s, run[0]), run[1..], t));
    }
  }

  /** Of the tasks `all`, every one was taken by a thread and begun, and every fiber has finished. */
  ghost predicate AllDone(s: State, all: seq<Task>) {
    && |s.stolenBy| == |all| && s.comm == []
    && (forall k :: 0 <= k < |all| ==> s.stolenBy[k] < |s.workers|)
    && forall t :: 0 <= t < |s.workers| ==>
         && s.workers[t].live == CountBusy(s.workers[t].fibers) == 0
         && s.workers[t].stolen == []
         && s.workers[t].started == Taken(all, s.stolenBy, t)
  }

  lemma FullVoteMeansDone(s: State)
    requires Inv(s) && Over(s)
    ensures AllDone(s, s.scheduled)
    ensures forall t :: 0 <= t < |s.workers| ==> s.workers[t].wannaQuit
  {
    CountQuitFull(s.workers);
    forall t | 0 <= t < |s.workers|
      ensures s.workers[t].live == CountBusy(s.workers[t].fibers) == 0 && s.workers[t].stolen == []
      ensures s.workers[t].started == Taken(s.scheduled, s.stolenBy, t)
    {
      assert WorkerInv(s.workers[t]) && TakenInv(s, t);
      assert s.workers[t].started + [] == s.workers[t].started;
    }
  }

  /** No thread outside schedules once somebody has left. */
  ghost predicate InTime(s: State, run: seq<Act>)
    requires ValidRun(s, run)
    decreases |run|
  {
    run == [] ||
    ((SomeoneLeft(s) ==> !run[0].Outside?) && InTime(Next(s, run[0]), run[1..]))
  }

  /** At every point of the run, which goes on after the tasks `all` were scheduled: if somebody has left,
      everything scheduled by then is done. */
  ghost predicate ExitsAreSound(s: State, all: seq<Task>, run: seq<Act>)
    requires ValidRun(s, run)
    decreases |run|
  {
    && (SomeoneLeft(s) ==> AllDone(s, all))
    && (run == [] || ExitsAreSound(Next(s, run[0]), all + Named(run[0]), run[1..]))
  }

  /** Over every run: leaving a thread's loop is sound at every point if, and only if, no thread outside
      schedules after one has left.  Before that, it may schedule whenever it likes. */
  lemma ExitsAreSoundExactly(s0: State, run: seq<Act>)
    requires Init(s0) && ValidRun(s0, run)
    ensures ExitsAreSound(s0, [], run) <==> InTime(s0, run)
  {
    InitInv(s0);
    SoundOrTooLate(s0, run);
  }

  lemma {:induction false} SoundOrTooLate(s: State, run: seq<Act>)
    requires Inv(s) && (SomeoneLeft(s) ==> Over(s)) && ValidRun(s, run)
    ensures ExitsAreSound(s, s.scheduled, run) <==> InTime(s, run)
    decreases |run|
  {
    if SomeoneLeft(s) {
      FullVoteMeansDone(s);
    }
    if run != [] {
      var s1 := Next(s, run[0]);
      StepKeepsInv(s, run[0]);
      ScheduledStep(s, run[0]);
      if SomeoneLeft(s) && run[0].Outside? {
        TooLate(s, run[0].task, run[1..]);
      } else {
        StepKeepsOver(s, run[0]);
        SoundOrTooLate(s1, run[1..]);
      }
    }
  }

  lemma ScheduledStep(s: State, a: Act)
    requires Enabled(s, a)
    ensures Next(s, a).scheduled == s.scheduled + Named(a)
  {}

  lemma TooLate(s: State, task: Task, rest: seq<Act>)
    requires SomeoneLeft(s) && ValidRun(Next(s, Outside(task)), rest)
    ensures !ExitsAreSound(Next(s, Outside(task)), s.scheduled + [task], rest)
  {
    var s1 := Next(s, Outside(task));
    assert s1.workers == s.workers && s1.comm != [];
  }

  /** Whoever leaves leaves when it is over, and it stays over. */
  lemma StepKeepsOver(s: State, a: Act)
    requires Inv(s) && Enabled(s, a) && (SomeoneLeft(s) ==> Over(s) && !a.Outside?)
    ensures SomeoneLeft(Next(s, a)) ==> Over(Next(s, a))
  {
    if SomeoneLeft(s) {
      QuietStep(s, a);
    } else if a.TryLock? {
      LeavesWhenOver(s, a.t);
    }
  }

  lemma LeavesWhenOver(s: State, t: nat)
    requires Inv(s) && Enabled(s, TryLock(t)) && !SomeoneLeft(s)
    ensures SomeoneLeft(AfterLock(s, t)) ==> Over(AfterLock(s, t))
  {
    var s' := AfterLock(s, t);
    assert WorkerInv(s.workers[t]);
    if u :| 0 <= u < |s'.workers| && s'.workers[u].phase == Exited {
      assert u == t;
    }
  }

  /** Over every run in which no thread outside schedules too late: when a thread leaves its loop, every
      fiber has finished, and the tasks named by the acts of the run have been divided among the threads,
      each of which has begun its own, once each and in order. */
  lemma ExitIsSound(s0: State, run: seq<Act>, t: nat)
    requires Init(s0) && ValidRun(s0, run) && InTime(s0, run)
    requires t < |After(s0, run).workers| && After(s0, run).workers[t].phase == Exited
    ensures AllDone(After(s0, run), TasksNamed(run))
    ensures forall u :: 0 <= u < |s0.workers| ==>
              BegunBy(s0, run, u) == Taken(TasksNamed(run), After(s0, run).stolenBy, u)
  {
    InitInv(s0);
    ExitsAreSoundExactly(s0, run);
    SoundAtTheEnd(s0, [], run);
    NothingBeside(TasksNamed(run));
    forall u | 0 <= u < |s0.workers|
      ensures |After(s0, run).workers| == |s0.workers|
      ensures After(s0, run).workers[u].started == BegunBy(s0, run, u)
    {
      HistoryIsTrue(s0, run, u);
    }
  }

  lemma {:induction false} SoundAtTheEnd(s: State, all: seq<Task>, run: seq<Act>)
    requires ValidRun(s, run) && ExitsAreSound(s, all, run)
    ensures SomeoneLeft(After(s, run)) ==> AllDone(After(s, run), all + TasksNamed(run))
    decreases |run|
  {
    if run == [] {
      NothingBeside(all);
    } else {
      SoundAtTheEnd(Next(s, run[0]), all + Named(run[0]), run[1..]);
      Regroup(all, Named(run[0]), TasksNamed(run[1..]));
    }
  }

  /** Over every run: the counter is the number of threads that want to quit, and those are idle; and
      each thread's counter of live fibers is the number of its fibers that were begun and have not
      finished. */
  lemma VotesAreCounted(s0: State, run: seq<Act>)
    requires Init(s0) && ValidRun(s0, run)
    ensures var s := After(s0, run);
      && s.votes == CountQuit(s.workers)
      && forall t :: 0 <= t < |s.workers| ==>
           && s.workers[t].live == CountBusy(s.workers[t].fibers)
           && (s.workers[t].wannaQuit ==> s.workers[t].live == 0 && s.workers[t].stolen == [])
  {
    InitInv(s0);
    RunKeepsInv(s0, run);
    var s := After(s0, run);
    forall t | 0 <= t < |s.workers|
      ensures s.workers[t].live == CountBusy(s.workers[t].fibers)
      ensures s.workers[t].wannaQuit ==> s.workers[t].live == 0 && s.workers[t].stolen == []
    {
      assert WorkerInv(s.workers[t]);
    }
  }

  /** Over every run: a thread's pool holds exactly those of its fibers that run nothing, once each.  So a
      fiber is back in the pool when its task has finished, and none is ever lost to it. */
  lemma PoolHoldsTheIdle(s0: State, run: seq<Act>, t: nat)
    requires Init(s0) && ValidRun(s0, run) && t < |After(s0, run).workers|
    ensures var w := After(s0, run).workers[t];
      && Distinct(w.pool)
      && forall f :: f in w.pool <==> 0 <= f < |w.fibers| && !Busy(w.fibers[f])
  {
    InitInv(s0);
    RunKeepsInv(s0, run);
    assert WorkerInv(After(s0, run).workers[t]);
  }

  /** Once the vote is full and nothing is left, and as long as no thread outside schedules: it stays so,
      nothing is scheduled or begun any more, and the next time a thread gets the lock it leaves. */
  lemma {:induction false} QuietForEver(s: State, run: seq<Act>)
    requires Inv(s) && Over(s) && ValidRun(s, run)
    requires forall k :: 0 <= k < |run| ==> !run[k].Outside?
    ensures var s' := After(s, run);
      Over(s') && s'.scheduled == s.scheduled && AllDone(s', s.scheduled)
    ensures forall k :: 0 <= k < |run| ==> !run[k].Schedule? && !run[k].Begin? && !run[k].Resume?
    decreases |run|
  {
    FullVoteMeansDone(s);
    if run != [] {
      var s1 := Next(s, run[0]);
      QuietStep(s, run[0]);
      StepKeepsInv(s, run[0]);
      assert forall k :: 0 <= k < |run[1..]| ==> run[1..][k] == run[k + 1];
      QuietForEver(s1, run[1..]);
      assert forall k :: 1 <= k < |run| ==> run[k] == run[1..][k - 1];
    }
  }

  lemma QuietStep(s: State, a: Act)
    requires Inv(s) && Over(s) && Enabled(s, a) && !a.Outside?
    ensures Over(Next(s, a)) && Next(s, a).scheduled == s.scheduled
    ensures !a.Schedule? && !a.Begin? && !a.Resume?
    ensures a.TryLock? ==> Next(s, a).workers[a.t].phase == Exited
  {
    FullVoteMeansDone(s);
    if !a.Enter? {
      var w := s.workers[a.t];
      assert WorkerInv(w);
      if a.Resume? {
        BusyCounts(w.fibers, a.f);
      } else if w.phase.InFiber? {
        BusyCounts(w.fibers, w.phase.f);
      }
    }
  }

  /** An idle thread that gets the lock and finds nothing to steal has voted by the time it lets go, and
      leaves exactly when with that everybody has voted. */
  lemma IdleThreadVotes(s: State, t: nat)
    requires Inv(s) && Enabled(s, TryLock(t)) && s.comm == [] && s.workers[t].live == 0
    ensures var s' := Next(s, TryLock(t));
      && s'.workers[t].wannaQuit
      && (s'.workers[t].phase == Exited <==> forall u :: 0 <= u < |s'.workers| ==> s'.workers[u].wannaQuit)
  {
    assert WorkerInv(s.workers[t]);
    LockKeepsInv(s, t);
    CountQuitFull(Next(s, TryLock(t)).workers);
  }

  /** Over every run, tasks are conserved: of the tasks named by the acts of the run, the last ones are
      pending and the others have been divided among the threads; each thread begins its own once each, in
      the order they were scheduled, and still holds the rest. */
  lemma TasksAreConserved(s0: State, run: seq<Act>)
    requires Init(s0) && ValidRun(s0, run)
    ensures var s, all := After(s0, run), TasksNamed(run);
      && |s.stolenBy| <= |all| && s.comm == all[|s.stolenBy|..]
      && (forall k :: 0 <= k < |s.stolenBy| ==> s.stolenBy[k] < |s0.workers|)
      && |s.workers| == |s0.workers|
      && forall t :: 0 <= t < |s0.workers| ==>
           BegunBy(s0, run, t) + s.workers[t].stolen == Taken(all, s.stolenBy, t)
  {
    InitInv(s0);
    RunKeepsInv(s0, run);
    var s := After(s0, run);
    HistoryIsTrue(s0, run, 0);
    NothingBeside(TasksNamed(run));
    forall t | 0 <= t < |s0.workers|
      ensures BegunBy(s0, run, t) + s.workers[t].stolen == Taken(TasksNamed(run), s.stolenBy, t)
    {
      HistoryIsTrue(s0, run, t);
      NothingBeside(BegunBy(s0, run, t));
      assert TakenInv(s, t);
    }
  }

  /** A fiber that blocks can be resumed by its thread at once, and then all is as if it had not blocked. */
  lemma BlockedIsResumed(s: State, t: nat)
    requires Inv(s) && Enabled(s, Block(t))
    ensures var f := s.workers[t].phase.f;
      Enabled(Next(s, Block(t)), Resume(t, f)) && Next(Next(s, Block(t)), Resume(t, f)) == s
  {
    assert WorkerInv(s.workers[t]);
    assert s.workers[t := s.workers[t].(phase := Body)][t := s.workers[t]] == s.workers;
  }

  /** A thread that does not get the lock changes nothing: it has no task to begin, and may come back to the
      lock with all as it was. */
  lemma MissedLockIsRetried(s: State, t: nat)
    requires Inv(s) && Enabled(s, MissLock(t))
    ensures Enabled(Next(s, MissLock(t)), Repeat(t)) && Next(Next(s, MissLock(t)), Repeat(t)) == s
  {
    assert WorkerInv(s.workers[t]);
    assert s.workers[t := s.workers[t].(phase := Body)][t := s.workers[t]] == s.workers;
  }

  // ----- The same, by counting -------------------------------------------------------------------

  /** How often a task lies in the batches of the threads. */
  function Held(workers: seq<Worker>, x: Task): nat {
    if workers == [] then 0 else Times(workers[0].stolen, x) + Held(workers[1..], x)
  }

  lemma {:induction false} HeldUpdate(workers: seq<Worker>, t: nat, w: Worker, x: Task)
    requires t < |workers|
    ensures Held(workers[t := w], x) + Times(workers[t].stolen, x) == Held(workers, x) + Times(w.stolen, x)
  {
    if t == 0 {
      assert workers[t := w][1..] == workers[1..];
    } else {
      assert workers[t := w][1..] == workers[1..][t - 1 := w];
      HeldUpdate(workers[1..], t - 1, w, x);
    }
  }

  lemma {:induction false} NothingHeld(workers: seq<Worker>, x: Task)
    requires forall t :: 0 <= t < |workers| ==> workers[t].stolen == []
    ensures Held(workers, x) == 0
  {
    if workers != [] {
      assert forall t :: 0 <= t < |workers[1..]| ==> workers[1..][t] == workers[t + 1];
      NothingHeld(workers[1..], x);
    }
  }

  /** How often a task still waits to be begun. */
  function Waiting(s: State, x: Task): nat {
    Times(s.comm, x) + Held(s.workers, x)
  }

  /** The tasks begun in a run, by whichever thread. */
  ghost function Begun(s: State, run: seq<Act>): seq<Task>
    requires ValidRun(s, run)
    decreases |run|
  {
    if run == [] then []
    else (if run[0].Begin? then BegunAt(s, run[0], run[0].t) else []) + Begun(Next(s, run[0]), run[1..])
  }

  lemma BeginConserves(s: State, t: nat, x: Task)
    requires Inv(s) && Enabled(s, Begin(t))
    ensures Waiting(s, x) == Times(BegunAt(s, Begin(t), t), x) + Waiting(Next(s, Begin(t)), x)
  {
    var w := s.workers[t];
    assert WorkerInv(w);
    HeldUpdate(s.workers, t, StartTask(w), x);
    StartsTheTask(w);
    HeadAndTail(w.stolen);
    TimesConcat([w.stolen[0]], w.stolen[1..], x);
  }

  lemma StepConserves(s: State, a: Act, x: Task)
    requires Inv(s) && Enabled(s, a)
    ensures Waiting(s, x) + Times(Named(a), x)
         == (if a.Begin? then Times(BegunAt(s, a, a.t), x) else 0) + Waiting(Next(s, a), x)
  {
    var s' := Next(s, a);
    if a.Schedule? || a.Outside? {
      TimesConcat(s.comm, [a.task], x);
    } else if a.Begin? {
      BeginConserves(s, a.t, x);
    } else {
      var t := if a.Enter? then 0 else a.t;
      assert WorkerInv(s.workers[t]);
      HeldUpdate(s.workers, t, s'.workers[t], x);
    }
  }

  lemma {:induction false} RunConserves(s: State, run: seq<Act>, x: Task)
    requires Inv(s) && ValidRun(s, run)
    ensures Waiting(s, x) + Times(TasksNamed(run), x) == Times(Begun(s, run), x) + Waiting(After(s, run), x)
    decreases |run|
  {
    if run != [] {
      var a, s1 := run[0], Next(s, run[0]);
      StepConserves(s, a, x);
      StepKeepsInv(s, a);
      RunConserves(s1, run[1..], x);
      TimesConcat(Named(a), TasksNamed(run[1..]), x);
      TimesConcat(if a.Begin? then BegunAt(s, a, a.t) else [], Begun(s1, run[1..]), x);
    }
  }

  /** Over every run, told from its acts alone: a task has been begun as often as it was scheduled, less what
      still waits; and when a thread has left, and no thread outside schedules too late, just as often. */
  lemma BegunAsScheduled(s0: State, run: seq<Act>, x: Task)
    requires Init(s0) && ValidRun(s0, run)
    ensures Times(Begun(s0, run), x) + Waiting(After(s0, run), x) == Times(TasksNamed(run), x)
    ensures InTime(s0, run) && SomeoneLeft(After(s0, run)) ==>
              Times(Begun(s0, run), x) == Times(TasksNamed(run), x)
  {
    InitInv(s0);
    NothingHeld(s0.workers, x);
    RunConserves(s0, run, x);
    var s := After(s0, run);
    if t :| InTime(s0, run) && 0 <= t < |s.workers| && s.workers[t].phase == Exited {
      ExitIsSound(s0, run, t);
      NothingHeld(s.workers, x);
    }
  }
}
