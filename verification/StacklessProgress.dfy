/**
 The main loop of the stackless scheduler gets on: it polls every emitter before it starts again, and
 wherever a run has got to, it can go on until `Run` returns.
 */
module StacklessProgress {
  import opened Common
  import E = Emitters
  import opened StacklessScheduler

  // ----- Every emitter is polled -----------------------------------------------------------------

  function Upto(n: nat): seq<nat> { seq(n, i => i) }

  /** The emitters that have had nothing more since the loop last found no task scheduled, in order. */
  ghost function Pass(s: State, run: seq<Act>, before: Option<seq<nat>>): Option<seq<nat>>
    requires ValidRun(s, run)
    decreases |run|
  {
    if run == [] then before else Pass(Next(s, run[0]), run[1..], PassAt(s, run[0], before))
  }

  function PassAt(s: State, a: Act, before: Option<seq<nat>>): Option<seq<nat>> {
    if a.CheckDone? then Some([])
    else if a.NextEmitter? && s.ctl.Polling? && before.Some? then Some(before.value + [s.ctl.i])
    else before
  }

  ghost predicate PassInv(s: State, pass: Option<seq<nat>>) {
    match s.ctl
    case Top => pass == None || pass == Some(Upto(|s.order|))
    case Polling(i) => i < |s.order| && pass == Some(Upto(i))
    case InTask(_, FromQueue) => pass == None || pass == Some(Upto(|s.order|))
    case InTask(_, FromEmitter(i)) => i < |s.order| && pass == Some(Upto(i))
    case Returned => true
  }

  lemma PassStep(s: State, a: Act, pass: Option<seq<nat>>)
    requires PassInv(s, pass) && Enabled(s, a)
    ensures PassInv(Next(s, a), PassAt(s, a, pass)) && Next(s, a).order == s.order
  {
    assert Upto(0) == [];
    if a.NextEmitter? {
      assert Upto(s.ctl.i) + [s.ctl.i] == Upto(s.ctl.i + 1);
    }
  }

  lemma {:induction false} PassRun(s: State, run: seq<Act>, pass: Option<seq<nat>>)
    requires PassInv(s, pass) && ValidRun(s, run)
    ensures PassInv(After(s, run), Pass(s, run, pass)) && After(s, run).order == s.order
    decreases |run|
  {
    if run != [] {
      PassStep(s, run[0], pass);
      PassRun(Next(s, run[0]), run[1..], PassAt(s, run[0], pass));
    }
  }

  /** Over every run: when the loop is back at the top, every registered emitter has been polled until it had
      nothing more, once each and in the order of registration; and while it polls, all those before. */
  lemma EveryEmitterIsPolled(s0: State, run: seq<Act>)
    requires Init(s0) && ValidRun(s0, run)
    ensures var s, pass := After(s0, run), Pass(s0, run, None);
      && (s.ctl.Top? ==> pass == None || pass == Some(Upto(|s0.order|)))
      && (s.ctl.Polling? ==> s.ctl.i < |s0.order| && pass == Some(Upto(s.ctl.i)))
  {
    PassRun(s0, run, None);
  }

  // ----- A measure of what is left ---------------------------------------------------------------

  function Unfinished(tasks: seq<TaskRec>): nat {
    if tasks == [] then 0 else Bit(tasks[0].st != Done) + Unfinished(tasks[1..])
  }

  lemma {:induction false} UnfinishedUpdate(tasks: seq<TaskRec>, t: nat, r: TaskRec)
    requires t < |tasks|
    ensures Unfinished(tasks[t := r]) + Bit(tasks[t].st != Done) == Unfinished(tasks) + Bit(r.st != Done)
  {
    if t == 0 {
      assert tasks[t := r][1..] == tasks[1..];
    } else {
      assert tasks[t := r][1..] == tasks[1..][t - 1 := r];
      UnfinishedUpdate(tasks[1..], t - 1, r);
    }
  }

  predicate HasSome(em: E.State, k: E.Emitter) {
    match k
    case ByCondition => em.cond != {}
    case ByDescriptor => em.epoll != map[]
    case ByDeadline => em.queue != []
  }

  /** An emitter that is still to be polled in this round has something. */
  predicate Ahead(s: State, i: nat) {
    exists j :: i <= j < |s.order| && HasSome(s.em, s.order[j])
  }

  /** How far the loop is from handing control over, at most. */
  function Distance(s: State): nat {
    match s.ctl
    case Top => |s.order| + 2
    case Polling(i) =>
      if i >= |s.order| then |s.order| + 3
      else if Ahead(s, i) then |s.order| - i + 1
      else 2 * |s.order| - i + 3
    case InTask(_, _) => 0
    case Returned => 0
  }

  /** Fewer tasks are unfinished, or just as many and the loop is closer to handing control over. */
  predicate Closer(s': State, s: State) {
    || Unfinished(s'.tasks) < Unfinished(s.tasks)
    || (Unfinished(s'.tasks) == Unfinished(s.tasks) && Distance(s') < Distance(s))
  }

  // ----- The loop has something to do ------------------------------------------------------------

  /** Nobody schedules or awaits anything more. */
  predicate Closing(a: Act) { !a.Spawn? && !a.Await? }

  ghost predicate Progress(s: State, a: Act) {
    Enabled(s, a) && Closing(a) && Closer(Next(s, a), s)
  }

  lemma TaskEnds(s: State)
    requires Inv(s) && s.ctl.InTask?
    ensures Progress(s, Finish)
  {
    assert TaskInv(s, s.ctl.t);
    UnfinishedUpdate(s.tasks, s.ctl.t, s.tasks[s.ctl.t].(st := Done));
  }

  lemma TopGoesOn(s: State) returns (a: Act)
    requires Inv(s) && s.ctl.Top?
    ensures Progress(s, a)
  {
    if s.scheduled != [] {
      a := HandOff;
      var t := s.scheduled[0];
      UnfinishedUpdate(s.tasks, t, Next(s, a).tasks[t]);
    } else {
      a := CheckDone;
      if !E.Empty(s.order, s.em) {
        SomeoneHas(s);
      }
    }
  }

  lemma SomeoneHas(s: State)
    requires !E.Empty(s.order, s.em)
    ensures Ahead(s, 0)
  {
    var k :| k in s.order && HasSome(s.em, k);
    var j :| 0 <= j < |s.order| && s.order[j] == k;
  }

  lemma SomethingToEmit(s: State, k: E.Emitter) returns (e: E.Event)
    requires Inv(s) && HasSome(s.em, k) && k in s.order
    ensures CanEmit(s.em, k, e) && e in s.continuation && s.continuation[e] < |s.tasks|
    ensures s.tasks[s.continuation[e]].st == Awaiting(e)
  {
    match k {
      case ByCondition =>
        e :| e in s.em.cond;
        assert E.InCond(s.em, e);
      case ByDescriptor =>
        assert (forall fd :: fd !in s.em.epoll) ==> s.em.epoll == map[];
        var fd :| fd in s.em.epoll;
        e := s.em.epoll[fd];
        assert E.InEpoll(s.em, e);
      case ByDeadline =>
        e := s.em.queue[0];
        assert E.InQueue(s.em, e);
    }
    assert EventInv(s, e);
  }

  lemma Emits(s: State, i: nat) returns (a: Act)
    requires Inv(s) && s.ctl == Polling(i) && i < |s.order| && HasSome(s.em, s.order[i])
    ensures Progress(s, a)
  {
    var e := SomethingToEmit(s, s.order[i]);
    a := Emit(e);
    var t := s.continuation[e];
    UnfinishedUpdate(s.tasks, t, Next(s, a).tasks[t]);
  }

  lemma PollingGoesOn(s: State, i: nat) returns (a: Act)
    requires Inv(s) && s.ctl == Polling(i)
    ensures Progress(s, a)
  {
    if i < |s.order| && HasSome(s.em, s.order[i]) {
      a := Emits(s, i);
    } else {
      a := NextEmitter;
      if Ahead(s, i) {
        assert Ahead(Next(s, a), i + 1);
      }
    }
  }

  // ----- Main results ----------------------------------------------------------------------------

  predicate NothingMore(run: seq<Act>) {
    forall k :: 0 <= k < |run| ==> Closing(run[k])
  }

  lemma {:induction false} CanReturn(s: State) returns (more: seq<Act>)
    requires Inv(s)
    ensures ValidRun(s, more) && NothingMore(more) && After(s, more).ctl.Returned?
    decreases Unfinished(s.tasks), Distance(s)
  {
    if s.ctl.Returned? {
      more := [];
    } else {
      var a: Act;
      match s.ctl {
        case Top => a := TopGoesOn(s);
        case Polling(i) => a := PollingGoesOn(s, i);
        case InTask(_, _) => TaskEnds(s); a := Finish;
      }
      StepKeepsInv(s, a);
      var rest := CanReturn(Next(s, a));
      more := [a] + rest;
      assert more[1..] == rest;
    }
  }

  lemma {:induction false} OrderStays(s: State, run: seq<Act>)
    requires ValidRun(s, run)
    ensures After(s, run).order == s.order
    decreases |run|
  {
    if run != [] {
      OrderStays(Next(s, run[0]), run[1..]);
    }
  }

  /** From every point of every run the loop can go on, with nothing more scheduled or awaited, until `Run`
      returns; and if the registered emitters take note of everything awaited so far, every task is done by
      then. */
  lemma RunCanReturn(s0: State, run: seq<Act>) returns (more: seq<Act>)
    requires Init(s0) && ValidRun(s0, run)
    ensures ValidRun(After(s0, run), more) && NothingMore(more)
    ensures After(After(s0, run), more).ctl.Returned?
    ensures AllHeard(s0.order, run) ==>
              forall r :: r in After(After(s0, run), more).tasks ==> r.st == Done
  {
    var s := After(s0, run);
    InitInv(s0);
    RunKeepsInv(s0, run);
    OrderStays(s0, run);
    more := CanReturn(s);
    if AllHeard(s0.order, run) {
      DeafExactly(s0, run);
      AllDoneThen(s, more);
    }
  }

  lemma AllDoneThen(s: State, more: seq<Act>)
    requires Inv(s) && NobodyIsDeaf(s) && ValidRun(s, more) && NothingMore(more)
    requires After(s, more).ctl.Returned?
    ensures forall r :: r in After(s, more).tasks ==> r.st == Done
  {
    var s' := After(s, more);
    DeafExactly(s, more);
    RunKeepsInv(s, more);
    OrderStays(s, more);
    forall r | r in s'.tasks
      ensures r.st == Done
    {
      var t :| 0 <= t < |s'.tasks| && s'.tasks[t] == r;
      assert TaskInv(s', t);
    }
  }
}
