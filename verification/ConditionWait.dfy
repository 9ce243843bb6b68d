/**
 The predicate form of `condition_variable::wait` as a client program on FiberRuntime.

 Waiters run `lock; while (!flag) wait(lock); ...; unlock`, changers run `lock; flag = v; unlock` and
 call `notify_all` before or after that unlock when they set the flag.  Any number of fibers do
 either, and anybody may notify at any time.  Inside `wait` a fiber queues itself on the condition
 variable, unlocks the mutex, yields, and locks the mutex again, in separate steps.
 */
module ConditionWait {
  import opened Common
  import opened Primitives
  import R = FiberRuntime

  const MTX: nat := 0
  const CV: nat := 1

  datatype Pc =
    | Outside
    | WEnter              // mtx.lock(): before looking at the flag
    | WFailed             // the flag was false
    | WQueued             // in wait: queued on the condition variable
    | WReleased           // in wait: mutex unlocked; yields, and goes on by locking again
    | WPast               // the predicate form of wait returned
    | CEnter              // mtx.lock()
    | CChanged(v: bool)   // flag = v
    | CUnlocked           // mtx.unlock(), to be followed by notify_all()
    | CNotified           // notify_all() before mtx.unlock()

  datatype State = State(rt: R.State, pcs: seq<Pc>, flag: bool)

  datatype Act =
    | Runtime(l: R.Label)
    | Lock(f: Fiber)                 // a waiter or a changer starts, or a waiter locks again
    | StartChange(f: Fiber)
    | Test(f: Fiber)
    | Enqueue(f: Fiber)
    | Release(f: Fiber)
    | Change(f: Fiber, v: bool)
    | Unlock(f: Fiber)
    | Notify(f: Fiber)

  // ----- Steps -----------------------------------------------------------------------------------

  predicate Calm(s: State, f: Fiber) {
    R.Active(s.rt, f) && s.rt.fibers[f].hand == [] && f < |s.pcs|
  }

  predicate Ready(s: State, f: Fiber) {
    Calm(s, f) && s.rt.fibers[f].mode == R.Running
  }

  /** Scheduling, whatever fibers do outside this protocol, and spurious notifications; a fiber
      inside `wait` yields only after unlocking. */
  ghost predicate Foreign(s: State, l: R.Label) {
    && R.Enabled(s.rt, l)
    && (l.Section? ==> l.p > CV || (l.p == CV && !l.op.Register?))
    && (l.Section? || l.Sleep? || l.Finish? ==> l.f < |s.pcs| && s.pcs[l.f] == Outside)
    && (l.Yield? ==> l.f < |s.pcs| && s.pcs[l.f] != WQueued)
  }

  ghost predicate Enabled(s: State, a: Act) {
    && |s.rt.prims| > CV && |s.rt.owners| == |s.rt.prims|
    && s.rt.prims[MTX].Mutex? && s.rt.prims[CV].Condition?
    && match a
       case Runtime(l) => Foreign(s, l)
       case Lock(f) => Ready(s, f) && (s.pcs[f] == Outside || s.pcs[f] == WReleased)
       case StartChange(f) => Ready(s, f) && s.pcs[f] == Outside
       case Test(f) => Ready(s, f) && s.pcs[f] == WEnter
       case Enqueue(f) => Ready(s, f) && s.pcs[f] == WFailed
       case Release(f) => Calm(s, f) && s.pcs[f] == WQueued
       case Change(f, _) => Ready(s, f) && s.pcs[f] == CEnter
       case Unlock(f) => Ready(s, f) && (s.pcs[f] == WPast || s.pcs[f].CChanged? || s.pcs[f] == CNotified)
       case Notify(f) => Ready(s, f) && (s.pcs[f].CChanged? || s.pcs[f] == CUnlocked)
  }

  ghost function Do(s: State, f: Fiber, p: nat, op: Op, pc: Pc): State
    requires f < |s.rt.fibers| && p < |s.rt.prims| && p < |s.rt.owners| && Fits(s.rt.prims[p], op)
    requires f < |s.pcs|
  {
    s.(rt := R.AfterSection(s.rt, f, p, op), pcs := s.pcs[f := pc])
  }

  ghost function Next(s: State, a: Act): State
    requires Enabled(s, a)
  {
    match a
    case Runtime(l) => s.(rt := R.Next(s.rt, l))
    case Lock(f) => Do(s, f, MTX, Op.Lock, WEnter)
    case StartChange(f) => Do(s, f, MTX, Op.Lock, CEnter)
    case Test(f) => s.(pcs := s.pcs[f := if s.flag then WPast else WFailed])
    case Enqueue(f) => Do(s, f, CV, Register, WQueued)
    case Release(f) => Do(s, f, MTX, Op.Unlock, WReleased)
    case Change(f, v) => s.(flag := v, pcs := s.pcs[f := CChanged(v)])
    case Unlock(f) =>
      Do(s, f, MTX, Op.Unlock, if s.pcs[f] == CChanged(true) then CUnlocked else Outside)
    case Notify(f) =>
      Do(s, f, CV, NotifyAll, if s.pcs[f] == CUnlocked then Outside else CNotified)
  }

  // ----- The invariant ---------------------------------------------------------------------------

  predicate Holds(pc: Pc) {
    pc.WEnter? || pc.WFailed? || pc.WQueued? || pc.WPast? || pc.CEnter? || pc.CChanged? || pc.CNotified?
  }

  ghost predicate Shape(s: State) {
    && R.Inv(s.rt)
    && |s.pcs| == |s.rt.fibers|
    && |s.rt.prims| > CV
    && s.rt.prims[MTX].Mutex? && s.rt.prims[CV].Condition?
  }

  ghost predicate PcInv(s: State, f: Fiber)
    requires f < |s.pcs| && |s.rt.prims| > CV && |s.rt.owners| == |s.rt.prims|
    requires |s.pcs| == |s.rt.fibers|
  {
    var pc := s.pcs[f];
    var r := s.rt.fibers[f];
    && (f in Queue(s.rt.prims[MTX]) ==> pc == WEnter || pc == CEnter)
    && (f in Queue(s.rt.prims[CV]) ==> pc == WQueued || pc == WReleased)
    && (f in s.rt.owners[MTX].writers <==> Holds(pc) && f !in Queue(s.rt.prims[MTX]))
    && (pc == WPast ==> s.flag)
    && (pc == WFailed || pc == WQueued ==> !s.flag)
    && (pc == WQueued ==> r.mode == R.Enrolled)
    && (pc == WQueued || (pc == WReleased && r.mode != R.Running) ==> r.call == R.Blocked(CV, Register))
  }

  /** Has set the flag and will still notify. */
  predicate Owes(s: State, g: Fiber) {
    g < |s.pcs| && (s.pcs[g] == CChanged(true) || s.pcs[g] == CUnlocked)
  }

  ghost predicate NotifyComes(s: State)
    requires |s.rt.prims| > CV
  {
    s.flag && Queue(s.rt.prims[CV]) != [] ==> exists g :: Owes(s, g)
  }

  ghost predicate Inv(s: State) {
    && Shape(s)
    && (forall f :: 0 <= f < |s.pcs| ==> PcInv(s, f))
    && NotifyComes(s)
  }

  // ----- Preservation ----------------------------------------------------------------------------

  lemma OwnerIsAlone(s: State, f: Fiber, g: Fiber)
    requires Inv(s) && f < |s.pcs| && g < |s.pcs|
    requires Holds(s.pcs[f]) && f !in Queue(s.rt.prims[MTX])
    requires Holds(s.pcs[g]) && g !in Queue(s.rt.prims[MTX])
    ensures f == g
  {
    assert PcInv(s, f) && PcInv(s, g);
    OwnersExclude(s.rt.prims[MTX], s.rt.owners[MTX], f, g);
  }

  /** What a foreign step does to a fiber inside `wait`. */
  lemma ForeignFiber(s: State, l: R.Label, f: Fiber)
    requires Inv(s) && Foreign(s, l) && f < |s.pcs| && (s.pcs[f] == WQueued || s.pcs[f] == WReleased)
    ensures |R.Next(s.rt, l).fibers| == |s.rt.fibers|
    ensures var r, r' := s.rt.fibers[f], R.Next(s.rt, l).fibers[f];
      if s.pcs[f] == WQueued then r'.mode == r.mode && r'.call == r.call
      else r'.mode == R.Running || (r.mode != R.Running && r'.call == r.call)
  {
    assert PcInv(s, f) && R.FiberInv(s.rt, f) && R.CallInv(s.rt, f);
    if !R.ByFiber(l, f) {
      R.OthersOnlyResume(s.rt, l, f);
    }
  }

  lemma ForeignStep(s: State, l: R.Label)
    requires Inv(s) && Enabled(s, Runtime(l)) && (l.Section? ==> l.p != CV)
    ensures Inv(Next(s, Runtime(l)))
  {
    var s' := Next(s, Runtime(l));
    R.InvPreserved(s.rt, l);
    R.SamePrims(s.rt, l, MTX);
    R.SamePrims(s.rt, l, CV);
    forall f | 0 <= f < |s'.pcs|
      ensures PcInv(s', f)
    {
      assert PcInv(s, f);
      if s.pcs[f] == WQueued || s.pcs[f] == WReleased {
        ForeignFiber(s, l, f);
      }
    }
    assert forall g :: Owes(s, g) ==> Owes(s', g);
  }

  lemma LockStep(s: State, f: Fiber, pc: Pc)
    requires Inv(s) && Shape(s) && Ready(s, f) && (pc == WEnter || pc == CEnter)
    requires s.pcs[f] == Outside || s.pcs[f] == WReleased
    ensures Inv(Do(s, f, MTX, Op.Lock, pc))
  {
    R.InvPreserved(s.rt, R.Section(f, MTX, Op.Lock));
    forall g | 0 <= g < |s.pcs|
      ensures PcInv(Do(s, f, MTX, Op.Lock, pc), g)
    {
      LockPc(s, f, pc, g);
    }
    NotifyStillComes(s, Do(s, f, MTX, Op.Lock, pc));
  }

  lemma LockPc(s: State, f: Fiber, pc: Pc, g: Fiber)
    requires Inv(s) && Shape(s) && Ready(s, f) && (pc == WEnter || pc == CEnter) && g < |s.pcs|
    requires s.pcs[f] == Outside || s.pcs[f] == WReleased
    ensures PcInv(Do(s, f, MTX, Op.Lock, pc), g)
  {
    R.RunningIsInNoQueue(s.rt, f, MTX);
    R.RunningIsInNoQueue(s.rt, f, CV);
    LockOwners(s.rt.prims[MTX], s.rt.owners[MTX], f);
    assert PcInv(s, f) && PcInv(s, g);
    SectionOthers(s, f, MTX, Op.Lock, g);
  }

  /** As long as the flag and the waiters stay and nobody forgets to notify. */
  lemma NotifyStillComes(s: State, s': State)
    requires |s.rt.prims| > CV && |s'.rt.prims| > CV && NotifyComes(s) && s'.flag == s.flag
    requires Queue(s'.rt.prims[CV]) != [] ==> Queue(s.rt.prims[CV]) != []
    requires forall g :: Owes(s, g) ==> Owes(s', g)
    ensures NotifyComes(s')
  {}

  /** A section changes the mode and the pending call of nobody but its caller. */
  lemma SectionOthers(s: State, f: Fiber, p: nat, op: Op, g: Fiber)
    requires Shape(s) && R.Enabled(s.rt, R.Section(f, p, op)) && g < |s.pcs|
    ensures var r, r' := s.rt.fibers[g], R.AfterSection(s.rt, f, p, op).fibers[g];
      if g == f && Apply(s.rt.prims[p], op, f).enqueued
      then r'.mode == R.Enrolled && r'.call == R.Blocked(p, op)
      else r'.mode == r.mode && r'.call == r.call
  {}

  lemma UnlockStep(s: State, f: Fiber, pc: Pc)
    requires Inv(s) && Calm(s, f) && Holds(s.pcs[f]) && f !in Queue(s.rt.prims[MTX])
    requires s.pcs[f] == WQueued || s.rt.fibers[f].mode == R.Running
    requires if s.pcs[f] == WQueued then pc == WReleased else pc == Outside || pc == CUnlocked
    requires f in Queue(s.rt.prims[CV]) ==> s.pcs[f] == WQueued
    requires s.pcs[f] == CChanged(true) ==> pc == CUnlocked
    ensures Inv(Do(s, f, MTX, Op.Unlock, pc))
  {
    var s' := Do(s, f, MTX, Op.Unlock, pc);
    assert PcInv(s, f);
    R.InvPreserved(s.rt, R.Section(f, MTX, Op.Unlock));
    UnlockPcs(s, f, pc);
    assert forall g :: Owes(s, g) ==> Owes(s', g);
  }

  lemma UnlockPcs(s: State, f: Fiber, pc: Pc)
    requires Inv(s) && Calm(s, f) && Holds(s.pcs[f]) && f !in Queue(s.rt.prims[MTX])
    requires s.pcs[f] == WQueued || s.rt.fibers[f].mode == R.Running
    requires if s.pcs[f] == WQueued then pc == WReleased else pc == Outside || pc == CUnlocked
    requires f in Queue(s.rt.prims[CV]) ==> s.pcs[f] == WQueued
    ensures var s' := Do(s, f, MTX, Op.Unlock, pc); forall g :: 0 <= g < |s'.pcs| ==> PcInv(s', g)
  {
    forall g | 0 <= g < |s.pcs|
      ensures PcInv(Do(s, f, MTX, Op.Unlock, pc), g)
    {
      if g == f {
        UnlockSelf(s, f, pc);
      } else {
        UnlockOthers(s, f, pc, g);
      }
    }
  }

  lemma UnlockSelf(s: State, f: Fiber, pc: Pc)
    requires Inv(s) && Calm(s, f) && Holds(s.pcs[f]) && f !in Queue(s.rt.prims[MTX])
    requires s.pcs[f] == WQueued || s.rt.fibers[f].mode == R.Running
    requires if s.pcs[f] == WQueued then pc == WReleased else pc == Outside || pc == CUnlocked
    requires f in Queue(s.rt.prims[CV]) ==> s.pcs[f] == WQueued
    ensures PcInv(Do(s, f, MTX, Op.Unlock, pc), f)
  {
    assert PcInv(s, f);
    R.MutexUnlocked(s.rt, f, MTX);
    SectionOthers(s, f, MTX, Op.Unlock, f);
  }

  lemma UnlockOthers(s: State, f: Fiber, pc: Pc, g: Fiber)
    requires Inv(s) && Calm(s, f) && Holds(s.pcs[f]) && f !in Queue(s.rt.prims[MTX])
    requires s.pcs[f] == WQueued || s.rt.fibers[f].mode == R.Running
    requires g < |s.pcs| && g != f
    ensures PcInv(Do(s, f, MTX, Op.Unlock, pc), g)
  {
    assert PcInv(s, g) && PcInv(s, f);
    R.MutexUnlocked(s.rt, f, MTX);
    SectionOthers(s, f, MTX, Op.Unlock, g);
    if Holds(s.pcs[g]) && g !in s.rt.prims[MTX].waiters {
      OwnerIsAlone(s, f, g);
    }
  }

  lemma EnqueueStep(s: State, f: Fiber)
    requires Inv(s) && Enabled(s, Enqueue(f))
    ensures Inv(Next(s, Enqueue(f)))
  {
    var s' := Next(s, Enqueue(f));
    R.InvPreserved(s.rt, R.Section(f, CV, Register));
    R.RunningIsInNoQueue(s.rt, f, MTX);
    assert PcInv(s, f);
    forall g | 0 <= g < |s'.pcs|
      ensures PcInv(s', g)
    {
      assert PcInv(s, g);
      SectionOthers(s, f, CV, Register, g);
    }
  }

  /** A notification by a changer, or a spurious one by a fiber outside. */
  lemma NotifyStep(s: State, f: Fiber, op: Op, pc: Pc)
    requires Inv(s) && Ready(s, f) && (op == NotifyOne || op == NotifyAll)
    requires if Holds(s.pcs[f]) then pc == CNotified && s.pcs[f].CChanged? else pc == Outside
    requires Owes(s, f) ==> op == NotifyAll
    requires s.pcs[f] == Outside || s.pcs[f].CChanged? || s.pcs[f] == CUnlocked
    ensures Inv(Do(s, f, CV, op, pc))
  {
    var s' := Do(s, f, CV, op, pc);
    R.InvPreserved(s.rt, R.Section(f, CV, op));
    forall g | 0 <= g < |s'.pcs|
      ensures PcInv(s', g)
    {
      NotifyPc(s, f, op, pc, g);
    }
    assert forall g :: Owes(s, g) && g != f ==> Owes(s', g);
  }

  lemma NotifyPc(s: State, f: Fiber, op: Op, pc: Pc, g: Fiber)
    requires Inv(s) && Ready(s, f) && (op == NotifyOne || op == NotifyAll) && g < |s.pcs|
    requires if Holds(s.pcs[f]) then pc == CNotified && s.pcs[f].CChanged? else pc == Outside
    requires s.pcs[f] == Outside || s.pcs[f].CChanged? || s.pcs[f] == CUnlocked
    ensures PcInv(Do(s, f, CV, op, pc), g)
  {
    R.RunningIsInNoQueue(s.rt, f, MTX);
    R.RunningIsInNoQueue(s.rt, f, CV);
    assert PcInv(s, f) && PcInv(s, g);
    SectionOthers(s, f, CV, op, g);
  }

  lemma TestStep(s: State, f: Fiber)
    requires Inv(s) && Enabled(s, Test(f))
    ensures Inv(Next(s, Test(f)))
  {
    var s' := Next(s, Test(f));
    R.RunningIsInNoQueue(s.rt, f, MTX);
    R.RunningIsInNoQueue(s.rt, f, CV);
    forall g | 0 <= g < |s'.pcs|
      ensures PcInv(s', g)
    {
      assert PcInv(s, g);
    }
    assert forall g :: Owes(s, g) ==> Owes(s', g);
  }

  /** The flag changes under the mutex, so nobody who relies on it is inside. */
  lemma ChangeStep(s: State, f: Fiber, v: bool)
    requires Inv(s) && Enabled(s, Change(f, v))
    ensures Inv(Next(s, Change(f, v)))
  {
    var s' := Next(s, Change(f, v));
    R.RunningIsInNoQueue(s.rt, f, MTX);
    R.RunningIsInNoQueue(s.rt, f, CV);
    forall g | 0 <= g < |s'.pcs|
      ensures PcInv(s', g)
    {
      assert PcInv(s, g);
      if Holds(s.pcs[g]) && g !in Queue(s.rt.prims[MTX]) {
        OwnerIsAlone(s, f, g);
      }
    }
    assert v ==> Owes(s', f);
  }

  lemma StepKeepsInv(s: State, a: Act)
    requires Inv(s) && Enabled(s, a)
    ensures Inv(Next(s, a))
  {
    match a
    case Runtime(l) =>
      if l.Section? && l.p == CV {
        NotifyStep(s, l.f, l.op, Outside);
        assert Next(s, a) == Do(s, l.f, CV, l.op, Outside);
      } else {
        ForeignStep(s, l);
      }
    case Lock(f) => LockStep(s, f, WEnter);
    case StartChange(f) => LockStep(s, f, CEnter);
    case Test(f) => TestStep(s, f);
    case Enqueue(f) => EnqueueStep(s, f);
    case Release(f) =>
      assert PcInv(s, f);
      UnlockStep(s, f, WReleased);
    case Change(f, v) => ChangeStep(s, f, v);
    case Unlock(f) =>
      R.RunningIsInNoQueue(s.rt, f, MTX);
      R.RunningIsInNoQueue(s.rt, f, CV);
      UnlockStep(s, f, if s.pcs[f] == CChanged(true) then CUnlocked else Outside);
    case Notify(f) =>
      NotifyStep(s, f, NotifyAll, if s.pcs[f] == CUnlocked then Outside else CNotified);
  }

  // ----- Main results ----------------------------------------------------------------------------

  ghost predicate Init(s: State) {
    && R.Init(s.rt)
    && |s.rt.prims| > CV
    && s.rt.prims[MTX] == Mutex(false, []) && s.rt.prims[CV] == Condition([])
    && |s.pcs| == |s.rt.fibers| && (forall f :: 0 <= f < |s.pcs| ==> s.pcs[f] == Outside)
  }

  ghost predicate ValidRun(s: State, run: seq<Act>)
    decreases |run|
  {
    run == [] || (Enabled(s, run[0]) && ValidRun(Next(s, run[0]), run[1..]))
  }

  ghost function After(s: State, run: seq<Act>): State
    requires ValidRun(s, run)
    decreases |run|
  {
    if run == [] then s else After(Next(s, run[0]), run[1..])
  }

  lemma {:induction false} RunKeepsInv(s: State, run: seq<Act>)
    requires Inv(s) && ValidRun(s, run)
    ensures Inv(After(s, run))
    decreases |run|
  {
    if run != [] {
      StepKeepsInv(s, run[0]);
      RunKeepsInv(Next(s, run[0]), run[1..]);
    }
  }

  lemma InitInv(s: State)
    requires Init(s)
    ensures Inv(s)
  {
    R.InitInv(s.rt);
  }

  /** Over every run: when the predicate form of `wait` returns, its caller owns the mutex, alone,
      and the predicate is true. */
  lemma WaitReturnsOwningAndTrue(s0: State, run: seq<Act>, s: State, f: Fiber)
    requires Init(s0) && ValidRun(s0, run) && s == After(s0, run)
    requires f < |s.pcs| && s.pcs[f] == WPast
    ensures s.flag && MTX < |s.rt.owners| && s.rt.owners[MTX].writers == multiset{f}
  {
    InitInv(s0);
    RunKeepsInv(s0, run);
    assert PcInv(s, f);
    assert OwnInv(s.rt.prims[MTX], s.rt.owners[MTX]);
    SingletonMinus(s.rt.owners[MTX].writers, f);
  }

  /** Over every run: a fiber that has unlocked inside `wait` and was not resumed is in the waiters
      of the condition variable, or was popped from them by a notification that still has to reach
      its thread; never both, never neither. */
  lemma UnnotifiedIsRegistered(s0: State, run: seq<Act>, s: State, f: Fiber)
    requires Init(s0) && ValidRun(s0, run) && s == After(s0, run)
    requires f < |s.pcs| && s.pcs[f] == WReleased
    requires f < |s.rt.fibers| && s.rt.fibers[f].mode != R.Running
    ensures var w := s.rt.fibers[f].ticket;
      && (w == R.InQueue(CV) || R.Popped(w))
      && f in R.At(s.rt, w) && Distinct(R.At(s.rt, w))
      && forall v :: v != R.Nowhere && v != w ==> f !in R.At(s.rt, v)
  {
    InitInv(s0);
    RunKeepsInv(s0, run);
    var w := s.rt.fibers[f].ticket;
    assert PcInv(s, f) && R.CallInv(s.rt, f);
    assert R.Placed(s.rt, w) && R.TicketIs(s.rt, f, w);
    forall v | v != R.Nowhere && v != w
      ensures f !in R.At(s.rt, v)
    {
      assert R.Placed(s.rt, v) && !R.TicketIs(s.rt, f, v);
    }
  }

  /** Over every run: no wake-up is lost.  If the flag is true while a fiber is registered, somebody
      who set the flag has yet to call `notify_all`. */
  lemma NoLostWakeup(s0: State, run: seq<Act>, s: State)
    requires Init(s0) && ValidRun(s0, run) && s == After(s0, run)
    ensures |s.rt.prims| > CV && (s.flag && Queue(s.rt.prims[CV]) != [] ==> exists g :: Owes(s, g))
  {
    InitInv(s0);
    RunKeepsInv(s0, run);
  }
}
