/**
 The main loop of the stackless scheduler over its three emitters.

 Control is in one place at a time: in the loop or in a task.  A task that awaits or ends hands control
 back to the loop.  Resuming checks nothing: a task resumed when it does not wait is `Broken`.
 */
module StacklessScheduler {
  import opened Common
  import E = Emitters

  datatype Task = Fresh | Running | Awaiting(e: E.Event) | Done | Broken

  /** `awaits` and `resumes` are history. */
  datatype TaskRec = TaskRec(st: Task, awaits: nat, resumes: nat)

  datatype Reason = FromQueue | FromEmitter(i: nat)

  datatype Control = Top | Polling(i: nat) | InTask(t: nat, why: Reason) | Returned

  /** `order` are the registered emitters; `continuation` says for each event which task it resumes. */
  datatype State = State(order: seq<E.Emitter>, tasks: seq<TaskRec>, scheduled: seq<nat>, em: E.State,
                         continuation: map<E.Event, nat>, nextId: nat, ctl: Control)

  datatype Act =
    | HandOff                              // the next scheduled task
    | CheckDone                            // no task is scheduled
    | Emit(e: E.Event)                     // the current emitter emits e
    | NextEmitter                          // the current emitter has nothing
    | Spawn                                // the running task schedules another
    | Await(source: E.Source, deadline: nat)
    | Finish

  // ----- Steps -----------------------------------------------------------------------------------

  predicate CanEmit(em: E.State, k: E.Emitter, e: E.Event) {
    match k
    case ByCondition => E.InCond(em, e)
    case ByDescriptor => E.InEpoll(em, e)
    case ByDeadline => em.queue != [] && em.queue[0] == e
  }

  /** The environment keeps to one live event per descriptor. */
  predicate Enabled(s: State, a: Act) {
    match a
    case HandOff => s.ctl.Top? && s.scheduled != [] && s.scheduled[0] < |s.tasks|
    case CheckDone => s.ctl.Top? && s.scheduled == []
    case Emit(e) =>
      s.ctl.Polling? && s.ctl.i < |s.order| && CanEmit(s.em, s.order[s.ctl.i], e)
      && e in s.continuation && s.continuation[e] < |s.tasks|
    case NextEmitter => s.ctl.Polling?
    case Spawn => s.ctl.InTask?
    case Await(source, deadline) =>
      s.ctl.InTask? && s.ctl.t < |s.tasks| && !E.Taken(s.order, s.em, E.Event(s.nextId, source, deadline))
    case Finish => s.ctl.InTask? && s.ctl.t < |s.tasks|
  }

  function Resumed(r: TaskRec, ok: bool): TaskRec {
    r.(st := if ok then Running else Broken)
  }

  /** The loop goes on behind the point where it handed control over. */
  function BackToLoop(s: State): State
    requires s.ctl.InTask?
  {
    if s.ctl.why.FromQueue? then
      s.(scheduled := if s.scheduled == [] then [] else s.scheduled[1..], ctl := Top)
    else s.(ctl := Polling(s.ctl.why.i))
  }

  /** Awaiting registers the event with every emitter it concerns, and then suspends. */
  function AfterAwait(s: State, source: E.Source, deadline: nat): State
    requires s.ctl.InTask? && s.ctl.t < |s.tasks|
  {
    var t := s.ctl.t;
    var e := E.Event(s.nextId, source, deadline);
    var r := s.tasks[t];
    BackToLoop(s.(em := E.Arrive(s.order, s.em, e), continuation := s.continuation[e := t],
                  nextId := s.nextId + 1,
                  tasks := s.tasks[t := r.(st := Awaiting(e), awaits := r.awaits + 1)]))
  }

  /** `yield_value`: departure from every emitter, then the continuation. */
  function AfterEmit(s: State, e: E.Event): State
    requires s.ctl.Polling? && e in s.continuation && s.continuation[e] < |s.tasks|
  {
    var t := s.continuation[e];
    var r := s.tasks[t];
    s.(em := E.Depart(s.order, s.em, e), continuation := s.continuation - {e},
       tasks := s.tasks[t := Resumed(r, r.st == Awaiting(e)).(resumes := r.resumes + 1)],
       ctl := InTask(t, FromEmitter(s.ctl.i)))
  }

  function Next(s: State, a: Act): State
    requires Enabled(s, a)
  {
    match a
    case HandOff =>
      var t := s.scheduled[0];
      s.(tasks := s.tasks[t := Resumed(s.tasks[t], s.tasks[t].st == Fresh)], ctl := InTask(t, FromQueue))
    case CheckDone => s.(ctl := if E.Empty(s.order, s.em) then Returned else Polling(0))
    case Emit(e) => AfterEmit(s, e)
    case NextEmitter => s.(ctl := if s.ctl.i + 1 < |s.order| then Polling(s.ctl.i + 1) else Top)
    case Spawn =>
      s.(tasks := s.tasks + [TaskRec(Fresh, 0, 0)], scheduled := s.scheduled + [|s.tasks|])
    case Await(source, deadline) => AfterAwait(s, source, deadline)
    case Finish => BackToLoop(s.(tasks := s.tasks[s.ctl.t := s.tasks[s.ctl.t].(st := Done)]))
  }

  // ----- The invariant ---------------------------------------------------------------------------

  ghost predicate TaskInv(s: State, t: nat)
    requires t < |s.tasks|
  {
    var r := s.tasks[t];
    && r.st != Broken
    && (r.st == Running <==> s.ctl.InTask? && s.ctl.t == t)
    && (r.st == Fresh ==> t in s.scheduled)
    && (r.st.Awaiting? ==> r.st.e in s.continuation && s.continuation[r.st.e] == t)
    && r.awaits == r.resumes + (if r.st.Awaiting? then 1 else 0)
  }

  ghost predicate QueueInv(s: State) {
    && Distinct(s.scheduled)
    && (forall i :: 0 <= i < |s.scheduled| ==>
          s.scheduled[i] < |s.tasks| &&
          (s.tasks[s.scheduled[i]].st == Fresh ||
           (i == 0 && s.ctl == InTask(s.scheduled[0], FromQueue) && s.tasks[s.scheduled[0]].st == Running)))
    && (s.ctl.InTask? && s.ctl.why.FromQueue? ==> s.scheduled != [] && s.scheduled[0] == s.ctl.t)
  }

  ghost predicate EventInv(s: State, e: E.Event)
    requires e in s.continuation
  {
    e.id < s.nextId && s.continuation[e] < |s.tasks| && s.tasks[s.continuation[e]].st == Awaiting(e)
  }

  ghost predicate Inv(s: State) {
    && E.Agrees(s.order, s.em, s.continuation.Keys)
    && (forall e :: e in s.continuation ==> EventInv(s, e))
    && (forall t :: 0 <= t < |s.tasks| ==> TaskInv(s, t))
    && QueueInv(s)
    && (s.ctl.InTask? ==> s.ctl.t < |s.tasks|)
    && (s.ctl.Returned? ==> s.scheduled == [] && forall e :: e in s.continuation ==> !E.Heard(s.order, e))
  }

  // ----- Preservation ----------------------------------------------------------------------------

  lemma HandOffKeepsInv(s: State)
    requires Inv(s) && Enabled(s, HandOff)
    ensures Inv(Next(s, HandOff))
  {
    var s' := Next(s, HandOff);
    forall t | 0 <= t < |s'.tasks|
      ensures TaskInv(s', t)
    {
      assert TaskInv(s, t);
    }
  }

  lemma CheckKeepsInv(s: State, a: Act)
    requires Inv(s) && Enabled(s, a) && (a.CheckDone? || a.NextEmitter?)
    ensures Inv(Next(s, a))
  {
    E.EmptyMeansNoneHeard(s.order, s.em, s.continuation.Keys);
    var s' := Next(s, a);
    forall t | 0 <= t < |s'.tasks|
      ensures TaskInv(s', t)
    {
      assert TaskInv(s, t);
    }
  }

  lemma EmitKeepsInv(s: State, e: E.Event)
    requires Inv(s) && Enabled(s, Emit(e))
    ensures Inv(Next(s, Emit(e)))
  {
    var s' := Next(s, Emit(e));
    E.DepartureAgrees(s.order, s.em, s.continuation.Keys, e);
    assert s'.continuation.Keys == s.continuation.Keys - {e};
    forall t | 0 <= t < |s'.tasks|
      ensures TaskInv(s', t)
    {
      assert TaskInv(s, t);
    }
  }

  lemma SpawnKeepsInv(s: State)
    requires Inv(s) && Enabled(s, Spawn)
    ensures Inv(Next(s, Spawn))
  {
    var s' := Next(s, Spawn);
    forall t | 0 <= t < |s'.tasks|
      ensures TaskInv(s', t)
    {
      if t < |s.tasks| {
        assert TaskInv(s, t);
      } else {
        assert s'.scheduled[|s.scheduled|] == t;
      }
    }
  }

  lemma AwaitKeepsInv(s: State, source: E.Source, deadline: nat)
    requires Inv(s) && Enabled(s, Await(source, deadline))
    ensures Inv(Next(s, Await(source, deadline)))
  {
    assert TaskInv(s, s.ctl.t);
    LeaveTask(s, Next(s, Await(source, deadline)));
    AwaitTasks(s, source, deadline);
    AwaitEvents(s, source, deadline);
  }

  lemma AwaitEvents(s: State, source: E.Source, deadline: nat)
    requires Inv(s) && Enabled(s, Await(source, deadline))
    ensures var s' := Next(s, Await(source, deadline));
      E.Agrees(s'.order, s'.em, s'.continuation.Keys) && forall e :: e in s'.continuation ==> EventInv(s', e)
  {
    var s' := Next(s, Await(source, deadline));
    var e := E.Event(s.nextId, source, deadline);
    AwaitIsNew(s, e);
    E.ArrivalAgrees(s.order, s.em, s.continuation.Keys, e);
    assert s'.continuation.Keys == s.continuation.Keys + {e};
    assert TaskInv(s, s.ctl.t);
    forall x | x in s'.continuation
      ensures EventInv(s', x)
    {
      assert x != e ==> EventInv(s, x);
    }
  }

  lemma AwaitIsNew(s: State, e: E.Event)
    requires Inv(s) && e.id == s.nextId
    ensures e !in s.continuation
  {
    assert e in s.continuation ==> EventInv(s, e);
  }

  lemma AwaitTasks(s: State, source: E.Source, deadline: nat)
    requires Inv(s) && Enabled(s, Await(source, deadline))
    ensures var s' := Next(s, Await(source, deadline)); forall t :: 0 <= t < |s'.tasks| ==> TaskInv(s', t)
  {
    var s' := Next(s, Await(source, deadline));
    LeaveTask(s, s');
    forall t | 0 <= t < |s'.tasks|
      ensures TaskInv(s', t)
    {
      assert TaskInv(s, t) && TaskInv(s, s.ctl.t);
    }
  }

  /** Dropping the head of the queue keeps the rest. */
  lemma LeaveTask(s: State, s': State)
    requires Inv(s) && s.ctl.InTask? && s'.scheduled == BackToLoop(s).scheduled
    ensures forall t :: t in s.scheduled && t != s.ctl.t ==> t in s'.scheduled
    ensures s.ctl.t !in s'.scheduled
  {
    assert TaskInv(s, s.ctl.t);
    if s.ctl.why.FromQueue? {
      assert s.scheduled == [s.ctl.t] + s.scheduled[1..];
      assert forall i :: 0 <= i < |s'.scheduled| ==> s'.scheduled[i] == s.scheduled[i + 1];
    }
  }

  lemma FinishKeepsInv(s: State)
    requires Inv(s) && Enabled(s, Finish)
    ensures Inv(Next(s, Finish))
  {
    var s' := Next(s, Finish);
    assert TaskInv(s, s.ctl.t);
    LeaveTask(s, s');
    FinishTasks(s);
    forall e | e in s'.continuation
      ensures EventInv(s', e)
    {
      assert EventInv(s, e);
    }
  }

  lemma FinishTasks(s: State)
    requires Inv(s) && Enabled(s, Finish)
    ensures var s' := Next(s, Finish); forall t :: 0 <= t < |s'.tasks| ==> TaskInv(s', t)
  {
    var s' := Next(s, Finish);
    LeaveTask(s, s');
    forall t | 0 <= t < |s'.tasks|
      ensures TaskInv(s', t)
    {
      assert TaskInv(s, t) && TaskInv(s, s.ctl.t);
    }
  }

  lemma StepKeepsInv(s: State, a: Act)
    requires Inv(s) && Enabled(s, a)
    ensures Inv(Next(s, a))
  {
    match a
    case HandOff => HandOffKeepsInv(s);
    case CheckDone => CheckKeepsInv(s, a);
    case NextEmitter => CheckKeepsInv(s, a);
    case Emit(e) => EmitKeepsInv(s, e);
    case Spawn => SpawnKeepsInv(s);
    case Await(source, deadline) => AwaitKeepsInv(s, source, deadline);
    case Finish => FinishKeepsInv(s);
  }

  // ----- Main results ----------------------------------------------------------------------------

  /** Before `Run`: some tasks are scheduled. */
  ghost predicate Init(s: State) {
    && s.em == E.State({}, map[], []) && s.continuation == map[] && s.ctl == Top
    && s.scheduled == seq(|s.tasks|, i => i)
    && forall t :: 0 <= t < |s.tasks| ==> s.tasks[t] == TaskRec(Fresh, 0, 0)
  }

  ghost predicate ValidRun(s: State, run: seq<Act>)
    decreases |run|
  {
    run == [] || (Enabled(s, run[0]) && ValidRun(Next(s, run[0]), run[1..]))
  }

  ghost function After(s: State, run: seq<Act>): State
    requires ValidRun(s, run)
    decreases |run|
  {
    if run == [] then s else After(Next(s, run[0]), run[1..])
  }

  lemma InitInv(s: State)
    requires Init(s)
    ensures Inv(s)
  {
    forall t | 0 <= t < |s.tasks|
      ensures TaskInv(s, t)
    {
      assert s.scheduled[t] == t;
    }
  }

  lemma {:induction false} RunKeepsInv(s: State, run: seq<Act>)
    requires Inv(s) && ValidRun(s, run)
    ensures Inv(After(s, run))
    decreases |run|
  {
    if run != [] {
      StepKeepsInv(s, run[0]);
      RunKeepsInv(Next(s, run[0]), run[1..]);
    }
  }

  /** Over every run: no task is resumed but for the event it awaits, each await is resumed at most once,
      and what is with the emitters are exactly the events that tasks await. */
  lemma AwaitsAreResumedOnce(s0: State, run: seq<Act>)
    requires Init(s0) && ValidRun(s0, run)
    ensures var s := After(s0, run);
      && (forall t :: 0 <= t < |s.tasks| ==>
            s.tasks[t].st != Broken
            && s.tasks[t].awaits == s.tasks[t].resumes + (if s.tasks[t].st.Awaiting? then 1 else 0))
      && E.Agrees(s.order, s.em, s.continuation.Keys)
      && (forall e :: e in s.continuation <==> exists t :: 0 <= t < |s.tasks| && s.tasks[t].st == Awaiting(e))
  {
    InitInv(s0);
    RunKeepsInv(s0, run);
    var s := After(s0, run);
    forall t | 0 <= t < |s.tasks|
      ensures s.tasks[t].st != Broken
      ensures s.tasks[t].awaits == s.tasks[t].resumes + (if s.tasks[t].st.Awaiting? then 1 else 0)
    {
      assert TaskInv(s, t);
    }
    forall e
      ensures e in s.continuation <==> exists t :: 0 <= t < |s.tasks| && s.tasks[t].st == Awaiting(e)
    {
      if e in s.continuation {
        assert s.tasks[s.continuation[e]].st == Awaiting(e);
      }
      if t :| 0 <= t < |s.tasks| && s.tasks[t].st == Awaiting(e) {
        assert TaskInv(s, t);
      }
    }
  }

  /** When an emitter emits an event, no emitter has it any more by the time its task runs. */
  lemma EmittedIsNowhere(s: State, e: E.Event)
    requires Inv(s) && Enabled(s, Emit(e))
    ensures var s' := Next(s, Emit(e));
      && !E.InCond(s'.em, e) && !E.InEpoll(s'.em, e) && !E.InQueue(s'.em, e)
      && s'.ctl.InTask? && s'.tasks[s'.ctl.t].st == Running && s.tasks[s'.ctl.t].st == Awaiting(e)
  {
    E.DepartureAgrees(s.order, s.em, s.continuation.Keys, e);
  }

  // ----- What tasks asked for --------------------------------------------------------------------

  /** The last thing that task `t` did to give control back, if it ever did: an await, or its end. */
  ghost function LastCall(s: State, run: seq<Act>, t: nat, before: Option<Act>): Option<Act>
    requires ValidRun(s, run)
    decreases |run|
  {
    if run == [] then before else LastCall(Next(s, run[0]), run[1..], t, CallAt(s, run[0], t, before))
  }

  function CallAt(s: State, a: Act, t: nat, before: Option<Act>): Option<Act> {
    if (a.Await? || a.Finish?) && s.ctl.InTask? && s.ctl.t == t then Some(a) else before
  }

  ghost predicate AsCalled(st: Task, last: Option<Act>) {
    && (st == Fresh ==> last == None)
    && (st.Awaiting? ==> last == Some(Await(st.e.source, st.e.deadline)))
    && (st == Done <==> last == Some(Finish))
  }

  lemma CallStep(s: State, a: Act, t: nat, last: Option<Act>)
    requires Inv(s) && Enabled(s, a) && AsCalled(if t < |s.tasks| then s.tasks[t].st else Fresh, last)
    ensures var s' := Next(s, a);
      && |s'.tasks| == |s.tasks| + Bit(a.Spawn?)
      && AsCalled(if t < |s'.tasks| then s'.tasks[t].st else Fresh, CallAt(s, a, t, last))
  {
    if s.ctl.InTask? {
      assert TaskInv(s, s.ctl.t);
    }
    match a
    case HandOff => assert TaskInv(s, s.scheduled[0]);
    case Emit(e) => assert EventInv(s, e);
    case _ =>
  }

  lemma {:induction false} CallRun(s: State, run: seq<Act>, t: nat, last: Option<Act>)
    requires Inv(s) && ValidRun(s, run) && AsCalled(if t < |s.tasks| then s.tasks[t].st else Fresh, last)
    ensures var s' := After(s, run);
      && |s'.tasks| == |s.tasks| + Spawned(run)
      && AsCalled(if t < |s'.tasks| then s'.tasks[t].st else Fresh, LastCall(s, run, t, last))
    decreases |run|
  {
    if run != [] {
      CallStep(s, run[0], t, last);
      StepKeepsInv(s, run[0]);
      CallRun(Next(s, run[0]), run[1..], t, CallAt(s, run[0], t, last));
    }
  }

  /** How many tasks a run schedules. */
  function Spawned(run: seq<Act>): nat {
    if run == [] then 0 else Bit(run[0].Spawn?) + Spawned(run[1..])
  }

  /** Over every run, told from its acts: there are as many tasks as were scheduled; a task that waits, waits
      for an event with the source and the deadline of its last await; a task is done exactly when it has
      come to its end; and one that has not been started has done nothing. */
  lemma TasksDoAsTheyCalled(s0: State, run: seq<Act>)
    requires Init(s0) && ValidRun(s0, run)
    ensures var s := After(s0, run);
      && |s.tasks| == |s0.tasks| + Spawned(run)
      && forall t :: 0 <= t < |s.tasks| ==> AsCalled(s.tasks[t].st, LastCall(s0, run, t, None))
  {
    InitInv(s0);
    CallRun(s0, run, 0, None);
    forall t | 0 <= t < |After(s0, run).tasks|
      ensures AsCalled(After(s0, run).tasks[t].st, LastCall(s0, run, t, None))
    {
      CallRun(s0, run, t, None);
    }
  }

  /** Over every run: an event that is with an emitter has the source and the deadline that some task asked
      for in its last await, and that task waits for it. */
  lemma EmittersHoldWhatWasAsked(s0: State, run: seq<Act>, e: E.Event) returns (t: nat)
    requires Init(s0) && ValidRun(s0, run)
    requires var em := After(s0, run).em; E.InCond(em, e) || E.InEpoll(em, e) || E.InQueue(em, e)
    ensures t < |After(s0, run).tasks| && After(s0, run).tasks[t].st == Awaiting(e)
    ensures LastCall(s0, run, t, None) == Some(Await(e.source, e.deadline))
  {
    var s := After(s0, run);
    InitInv(s0);
    RunKeepsInv(s0, run);
    t := s.continuation[e];
    assert EventInv(s, e);
    TasksDoAsTheyCalled(s0, run);
  }

  /** Awaiting makes one new event, with the source and the deadline asked for.  It goes to the registered
      emitters that take note of it, and nothing else there changes. */
  lemma AwaitRegisters(s: State, source: E.Source, deadline: nat) returns (e: E.Event)
    requires Inv(s) && Enabled(s, Await(source, deadline))
    ensures e.source == source && e.deadline == deadline
    ensures forall x :: x in s.continuation ==> x.id != e.id
    ensures var s' := Next(s, Await(source, deadline));
      && s'.tasks[s.ctl.t].st == Awaiting(e)
      && (forall x :: E.InCond(s'.em, x) <==> E.InCond(s.em, x) || (x == e && E.With(s.order, E.ByCondition, e)))
      && (forall x :: E.InEpoll(s'.em, x) <==> E.InEpoll(s.em, x) || (x == e && E.With(s.order, E.ByDescriptor, e)))
      && (forall x :: E.InQueue(s'.em, x) <==> E.InQueue(s.em, x) || (x == e && E.With(s.order, E.ByDeadline, e)))
  {
    e := E.Event(s.nextId, source, deadline);
    forall x | x in s.continuation
      ensures x.id != e.id
    {
      assert EventInv(s, x);
    }
    AwaitEvents(s, source, deadline);
    assert Next(s, Await(source, deadline)).continuation.Keys == s.continuation.Keys + {e};
  }

  // ----- When `Run` returns ----------------------------------------------------------------------

  /** The task is done, or awaits an event that no registered emitter has heard of. */
  predicate DoneOrDeaf(s: State, t: nat)
    requires t < |s.tasks|
  {
    var st := s.tasks[t].st;
    st == Done || (st.Awaiting? && !E.Heard(s.order, st.e))
  }

  /** When nothing is scheduled, the loop returns exactly if no task can still be resumed. */
  lemma ReturnsExactlyWhenDone(s: State)
    requires Inv(s) && Enabled(s, CheckDone)
    ensures Next(s, CheckDone).ctl.Returned? <==> forall t :: 0 <= t < |s.tasks| ==> DoneOrDeaf(s, t)
  {
    E.EmptyMeansNoneHeard(s.order, s.em, s.continuation.Keys);
    forall t | 0 <= t < |s.tasks|
      ensures s.tasks[t].st == Done || (s.tasks[t].st.Awaiting? && s.tasks[t].st.e in s.continuation)
    {
      assert TaskInv(s, t);
    }
    forall e | e in s.continuation
      ensures s.continuation[e] < |s.tasks| && (DoneOrDeaf(s, s.continuation[e]) <==> !E.Heard(s.order, e))
    {
      assert EventInv(s, e);
    }
  }

  /** Every event awaited in the run is taken note of by a registered emitter: the emitter of its source,
      or, if it has a deadline, the one of deadlines. */
  predicate AllHeard(order: seq<E.Emitter>, run: seq<Act>) {
    forall k :: 0 <= k < |run| ==> StepHeard(order, run[k])
  }

  predicate StepHeard(order: seq<E.Emitter>, a: Act) {
    a.Await? ==> E.Heard(order, E.Event(0, a.source, a.deadline))
  }

  lemma FirstHeard(order: seq<E.Emitter>, run: seq<Act>)
    requires run != []
    ensures AllHeard(order, run) <==> StepHeard(order, run[0]) && AllHeard(order, run[1..])
  {
    assert forall k :: 0 <= k < |run[1..]| ==> run[1..][k] == run[k + 1];
    assert forall k :: 1 <= k < |run| ==> run[k] == run[1..][k - 1];
  }

  /** Nothing any more can resume a task that awaits an event nobody has heard of. */
  ghost predicate Stuck(s: State, e: E.Event) {
    e in s.continuation && s.continuation[e] < |s.tasks| && s.tasks[s.continuation[e]].st == Awaiting(e)
    && !E.Heard(s.order, e)
  }

  lemma StuckStays(s: State, a: Act, e: E.Event)
    requires Inv(s) && Enabled(s, a) && Stuck(s, e)
    ensures Stuck(Next(s, a), e)
  {
    var t := s.continuation[e];
    assert TaskInv(s, t);
    match a
    case Emit(x) =>
      assert E.Heard(s.order, x);
      assert EventInv(s, x);
    case Await(source, deadline) => AwaitIsNew(s, E.Event(s.nextId, source, deadline));
    case _ =>
  }

  lemma {:induction false} StuckForEver(s: State, run: seq<Act>, e: E.Event)
    requires Inv(s) && ValidRun(s, run) && Stuck(s, e)
    ensures Stuck(After(s, run), e)
    decreases |run|
  {
    if run != [] {
      StuckStays(s, run[0], e);
      StepKeepsInv(s, run[0]);
      StuckForEver(Next(s, run[0]), run[1..], e);
    }
  }

  ghost predicate NobodyIsDeaf(s: State) {
    forall e :: e in s.continuation ==> E.Heard(s.order, e)
  }

  lemma HeardStep(s: State, a: Act)
    requires Inv(s) && Enabled(s, a) && NobodyIsDeaf(s) && StepHeard(s.order, a)
    ensures NobodyIsDeaf(Next(s, a))
  {}

  /** Somebody is left waiting for ever if, and only if, something was awaited that nobody hears of. */
  lemma {:induction false} DeafExactly(s: State, run: seq<Act>)
    requires Inv(s) && ValidRun(s, run) && NobodyIsDeaf(s)
    ensures NobodyIsDeaf(After(s, run)) <==> AllHeard(s.order, run)
    decreases |run|
  {
    if run != [] {
      var a, s1 := run[0], Next(s, run[0]);
      StepKeepsInv(s, a);
      FirstHeard(s.order, run);
      if StepHeard(s.order, a) {
        HeardStep(s, a);
        DeafExactly(s1, run[1..]);
      } else {
        var e := E.Event(s.nextId, a.source, a.deadline);
        assert Stuck(s1, e);
        StuckForEver(s1, run[1..], e);
      }
    }
  }

  /** Over every run: `Run` returns only when no task can be resumed; and then every task is done if, and
      only if, the emitters registered beforehand take note of everything that was awaited. */
  lemma RunReturnsWhenDone(s0: State, run: seq<Act>, s: State)
    requires Init(s0) && ValidRun(s0, run) && s == After(s0, run) && s.ctl.Returned?
    ensures s.scheduled == [] && E.Empty(s.order, s.em)
    ensures forall t :: 0 <= t < |s.tasks| ==> DoneOrDeaf(s, t)
    ensures (forall t :: 0 <= t < |s.tasks| ==> s.tasks[t].st == Done) <==> AllHeard(s0.order, run)
  {
    InitInv(s0);
    RunKeepsInv(s0, run);
    DeafExactly(s0, run);
    E.EmptyMeansNoneHeard(s.order, s.em, s.continuation.Keys);
    forall t | 0 <= t < |s.tasks|
      ensures s.tasks[t].st == Done || (s.tasks[t].st.Awaiting? && s.tasks[t].st.e in s.continuation)
    {
      assert TaskInv(s, t);
    }
    forall e | e in s.continuation
      ensures s.tasks[s.continuation[e]].st == Awaiting(e)
    {
      assert EventInv(s, e);
    }
  }

  /** With the emitter of descriptors alone, a task that awaits a condition is left behind. */
  lemma ReturnsWhileWaiting() returns (s0: State, s: State)
    ensures var run := [HandOff, Await(E.Condition, E.NO_DEADLINE), CheckDone];
      Init(s0) && s0.order == [E.ByDescriptor] && ValidRun(s0, run) && s == After(s0, run)
    ensures s.ctl.Returned? && |s.tasks| == 1 && s.tasks[0].st == Awaiting(E.Event(0, E.Condition, E.NO_DEADLINE))
  {
    s0 := State([E.ByDescriptor], [TaskRec(Fresh, 0, 0)], [0], E.State({}, map[], []), map[], 0, Top);
    assert s0.scheduled == seq(|s0.tasks|, i => i);
    var a, b, c := HandOff, Await(E.Condition, E.NO_DEADLINE), CheckDone;
    var s1 := Next(s0, a);
    var s2 := Next(s1, b);
    s := Next(s2, c);
    OneMoreFirst(s2, c, []);
    OneMoreFirst(s1, b, [c]);
    OneMoreFirst(s0, a, [b, c]);
    assert [a] + [b, c] == [a, b, c] && [b] + [c] == [b, c] && [c] + [] == [c];
  }

  lemma OneMoreFirst(s: State, a: Act, rest: seq<Act>)
    requires Enabled(s, a) && ValidRun(Next(s, a), rest)
    ensures ValidRun(s, [a] + rest) && After(s, [a] + rest) == After(Next(s, a), rest)
  {
    assert ([a] + rest)[1..] == rest;
  }
}
