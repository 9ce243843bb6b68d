/**
 The worker threads can always come to an end: wherever a run has got to, the threads can go on, with
 nothing more scheduled, so that everything is begun, every fiber finishes and everybody leaves.
 */
module WorkerProgress {
  import opened Common
  import opened WorkerLoop

  // ----- A measure of what is left ---------------------------------------------------------------

  function PhaseWeight(w: Worker): nat {
    match w.phase
    case Exited => 0
    case InFiber(_) => 1
    case Head => if w.live > 0 then 4 else 2
    case Body => 3
    case BeforeLoop => 5
  }

  function WorkerWeight(w: Worker): nat {
    12 * |w.stolen| + (if w.live > 0 then 10 * w.live else 0) + 8 * Bit(!w.wannaQuit) + PhaseWeight(w)
  }

  function Total(workers: seq<Worker>): nat {
    if workers == [] then 0 else WorkerWeight(workers[0]) + Total(workers[1..])
  }

  function Weight(s: State): nat {
    32 * |s.comm| + Total(s.workers)
  }

  lemma {:induction false} TotalUpdate(workers: seq<Worker>, t: nat, w: Worker)
    requires t < |workers|
    ensures Total(workers[t := w]) + WorkerWeight(workers[t]) == Total(workers) + WorkerWeight(w)
  {
    if t == 0 {
      assert workers[t := w][1..] == workers[1..];
    } else {
      assert workers[t := w][1..] == workers[1..][t - 1 := w];
      TotalUpdate(workers[1..], t - 1, w);
    }
  }

  // ----- Every thread has something to do --------------------------------------------------------

  /** Only the main thread may still be outside its loop. */
  ghost predicate OnlyMainBefore(s: State) {
    forall t :: 0 < t < |s.workers| ==> s.workers[t].phase != BeforeLoop
  }

  lemma StaysMainBefore(s: State, a: Act)
    requires OnlyMainBefore(s) && Inv(s) && Enabled(s, a)
    ensures OnlyMainBefore(Next(s, a))
  {
    if a.Begin? {
      assert WorkerInv(s.workers[a.t]);
      StartsTheTask(s.workers[a.t]);
    }
  }

  /** The act schedules nothing. */
  predicate Quiet(a: Act) { !a.Schedule? && !a.Outside? }

  ghost predicate Progress(s: State, a: Act) {
    Enabled(s, a) && Quiet(a) && Weight(Next(s, a)) < Weight(s)
  }

  lemma {:induction false} BusyExists(fibers: seq<Flags>) returns (f: nat)
    requires CountBusy(fibers) > 0
    ensures f < |fibers| && Busy(fibers[f])
  {
    var k := |fibers| - 1;
    if Busy(fibers[k]) {
      f := k;
    } else {
      f := BusyExists(fibers[..k]);
    }
  }

  lemma Begins(s: State, t: nat)
    requires Inv(s) && t < |s.workers| && s.workers[t].phase == Body && s.workers[t].stolen != []
    ensures Progress(s, Begin(t))
  {
    assert WorkerInv(s.workers[t]);
    StartsTheTask(s.workers[t]);
    TotalUpdate(s.workers, t, StartTask(s.workers[t]));
  }

  lemma InBody(s: State, t: nat) returns (a: Act)
    requires Inv(s) && t < |s.workers| && s.workers[t].phase == Body
    ensures Progress(s, a)
  {
    var w := s.workers[t];
    assert WorkerInv(w);
    if w.stolen != [] {
      Begins(s, t);
      a := Begin(t);
    } else {
      if w.live > 0 {
        var f := BusyExists(w.fibers);
        a := Resume(t, f);
      } else {
        a := Repeat(t);
      }
      TotalUpdate(s.workers, t, Next(s, a).workers[t]);
    }
  }

  lemma AtHead(s: State, t: nat)
    requires Inv(s) && t < |s.workers| && s.workers[t].phase == Head
    requires !s.workers[t].wannaQuit || s.votes == |s.workers|
    ensures Progress(s, TryLock(t))
  {
    assert WorkerInv(s.workers[t]);
    TotalUpdate(s.workers, t, AfterLock(s, t).workers[t]);
  }

  lemma Elsewhere(s: State, t: nat) returns (a: Act)
    requires Inv(s) && t < |s.workers| && (s.workers[t].phase.InFiber? || (t == 0 && s.workers[t].phase == BeforeLoop))
    ensures Progress(s, a)
  {
    var w := s.workers[t];
    assert WorkerInv(w);
    if w.phase.InFiber? {
      BusyCounts(w.fibers, w.phase.f);
      a := End(t);
    } else {
      a := Enter;
    }
    TotalUpdate(s.workers, t, Next(s, a).workers[t]);
  }

  /** As long as somebody has not left, some thread can do something that brings the end nearer: one that
      does not want to quit, or, when all want to, any that is still there. */
  lemma SomebodyGoesOn(s: State, t: nat) returns (a: Act)
    requires Inv(s) && OnlyMainBefore(s) && t < |s.workers| && s.workers[t].phase != Exited
    ensures Progress(s, a)
  {
    CountQuitFull(s.workers);
    var u := t;
    if v :| 0 <= v < |s.workers| && !s.workers[v].wannaQuit {
      u := v;
    }
    assert WorkerInv(s.workers[u]);
    if s.workers[u].phase == Head {
      AtHead(s, u);
      a := TryLock(u);
    } else if s.workers[u].phase == Body {
      a := InBody(s, u);
    } else {
      a := Elsewhere(s, u);
    }
  }

  // ----- Main results ----------------------------------------------------------------------------

  ghost predicate AllLeft(s: State) {
    forall t :: 0 <= t < |s.workers| ==> s.workers[t].phase == Exited
  }

  predicate NothingScheduled(run: seq<Act>) {
    forall k :: 0 <= k < |run| ==> Quiet(run[k])
  }

  lemma {:induction false} CanEnd(s: State) returns (more: seq<Act>)
    requires Inv(s) && OnlyMainBefore(s)
    ensures ValidRun(s, more) && NothingScheduled(more) && AllLeft(After(s, more))
    decreases Weight(s)
  {
    if t :| 0 <= t < |s.workers| && s.workers[t].phase != Exited {
      var a := SomebodyGoesOn(s, t);
      StepKeepsInv(s, a);
      StaysMainBefore(s, a);
      var rest := CanEnd(Next(s, a));
      more := [a] + rest;
      assert more[1..] == rest;
    } else {
      more := [];
    }
  }

  lemma {:induction false} MainBeforeInRun(s: State, run: seq<Act>)
    requires Inv(s) && OnlyMainBefore(s) && ValidRun(s, run)
    ensures OnlyMainBefore(After(s, run))
    decreases |run|
  {
    if run != [] {
      StaysMainBefore(s, run[0]);
      StepKeepsInv(s, run[0]);
      MainBeforeInRun(Next(s, run[0]), run[1..]);
    }
  }

  lemma {:induction false} OverAtTheEnd(s: State, run: seq<Act>)
    requires Inv(s) && (SomeoneLeft(s) ==> Over(s)) && ValidRun(s, run) && InTime(s, run)
    ensures SomeoneLeft(After(s, run)) ==> Over(After(s, run))
    decreases |run|
  {
    if run != [] {
      StepKeepsOver(s, run[0]);
      StepKeepsInv(s, run[0]);
      OverAtTheEnd(Next(s, run[0]), run[1..]);
    }
  }

  lemma {:induction false} QuietIsInTime(s: State, run: seq<Act>)
    requires ValidRun(s, run) && NothingScheduled(run)
    ensures InTime(s, run) && TasksNamed(run) == []
    decreases |run|
  {
    if run != [] {
      assert forall k :: 0 <= k < |run[1..]| ==> run[1..][k] == run[k + 1];
      QuietIsInTime(Next(s, run[0]), run[1..]);
    }
  }

  /** From every point of every run the threads can go on, scheduling nothing more, until all of them have
      left.  If no thread outside had scheduled too late, then everything ever scheduled has been begun and
      every fiber has finished. */
  lemma EverybodyCanLeave(s0: State, run: seq<Act>) returns (more: seq<Act>)
    requires Init(s0) && ValidRun(s0, run)
    ensures ValidRun(After(s0, run), more) && NothingScheduled(more) && AllLeft(After(After(s0, run), more))
    ensures InTime(s0, run) ==> AllDone(After(After(s0, run), more), TasksNamed(run))
  {
    var s := After(s0, run);
    InitInv(s0);
    RunKeepsInv(s0, run);
    MainBeforeInRun(s0, run);
    more := CanEnd(s);
    if InTime(s0, run) {
      OverAtTheEnd(s0, run);
      HistoryIsTrue(s0, run, 0);
      DoneThen(s, TasksNamed(run), more);
    }
  }

  lemma DoneThen(s: State, all: seq<Task>, more: seq<Act>)
    requires Inv(s) && (SomeoneLeft(s) ==> Over(s)) && |s.workers| > 0
    requires ValidRun(s, more) && NothingScheduled(more) && AllLeft(After(s, more))
    requires s.scheduled == all
    ensures AllDone(After(s, more), all)
  {
    QuietIsInTime(s, more);
    SoundOrTooLate(s, more);
    SoundAtTheEnd(s, all, more);
    RunKeepsInv(s, more);
    NothingBeside(all);
    assert After(s, more).workers[0].phase == Exited;
  }
}
