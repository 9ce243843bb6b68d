/**
 The calls of the condition-variable protocol from begin to end: what a fiber that owns the mutex gets
 done, call by call, and what the flag is.
 */
module ConditionCalls {
  import opened Common
  import P = Primitives
  import R = FiberRuntime
  import opened ConditionWait

  // ----- The flag --------------------------------------------------------------------------------

  /** The value last given to the flag in a run. */
  function LastChange(run: seq<Act>, before: bool): bool {
    if run == [] then before
    else LastChange(run[1..], if run[0].Change? then run[0].v else before)
  }

  /** Over every run: the flag is what the last change made it. */
  lemma {:induction false} FlagIsLastChange(s: State, run: seq<Act>)
    requires ValidRun(s, run)
    ensures After(s, run).flag == LastChange(run, s.flag)
    decreases |run|
  {
    if run != [] {
      FlagIsLastChange(Next(s, run[0]), run[1..]);
    }
  }

  // ----- Several calls in a row ------------------------------------------------------------------

  lemma OneMoreFirst(s: State, a: Act, rest: seq<Act>)
    requires Enabled(s, a) && ValidRun(Next(s, a), rest)
    ensures ValidRun(s, [a] + rest) && After(s, [a] + rest) == After(Next(s, a), rest)
  {
    assert ([a] + rest)[1..] == rest;
  }

  lemma TwoCalls(s: State, a: Act, b: Act)
    requires Enabled(s, a) && Enabled(Next(s, a), b)
    ensures ValidRun(s, [a, b]) && After(s, [a, b]) == Next(Next(s, a), b)
  {
    var s1 := Next(s, a);
    assert After(Next(s1, b), []) == Next(s1, b);
    OneMoreFirst(s1, b, []);
    NothingBeside([b]);
    OneMoreFirst(s, a, [b]);
    assert [a] + [b] == [a, b];
  }

  lemma ThreeCalls(s: State, a: Act, b: Act, c: Act)
    requires Enabled(s, a) && Enabled(Next(s, a), b) && Enabled(Next(Next(s, a), b), c)
    ensures ValidRun(s, [a, b, c]) && After(s, [a, b, c]) == Next(Next(Next(s, a), b), c)
  {
    TwoCalls(Next(s, a), b, c);
    OneMoreFirst(s, a, [b, c]);
    assert [a] + [b, c] == [a, b, c];
  }

  // ----- Main results ----------------------------------------------------------------------------

  /** `f` runs and owns the mutex, as it does when `lock` has returned. */
  ghost predicate Inside(s: State, f: P.Fiber, pc: Pc) {
    Inv(s) && Ready(s, f) && s.pcs[f] == pc && Holds(pc)
  }

  lemma InsideOwns(s: State, f: P.Fiber, pc: Pc)
    requires Inside(s, f, pc)
    ensures s.rt.owners[MTX].writers == multiset{f} && f !in P.Queue(s.rt.prims[MTX]) && f !in P.Queue(s.rt.prims[CV])
  {
    R.RunningIsInNoQueue(s.rt, f, MTX);
    R.RunningIsInNoQueue(s.rt, f, CV);
    assert PcInv(s, f) && P.OwnInv(s.rt.prims[MTX], s.rt.owners[MTX]);
    P.SingletonMinus(s.rt.owners[MTX].writers, f);
  }

  /** Whoever starts, or was woken inside `wait`, locks: it owns the mutex, or is last in line for it. */
  lemma LockIsTaken(s: State, a: Act, f: P.Fiber)
    requires Inv(s) && Enabled(s, a) && (a == Lock(f) || a == StartChange(f))
    ensures var s', q := Next(s, a), P.Queue(s.rt.prims[MTX]);
      && s'.pcs == s.pcs[f := if a.Lock? then WEnter else CEnter] && s'.flag == s.flag
      && (if s.rt.prims[MTX].locked then P.Queue(s'.rt.prims[MTX]) == q + [f] && s'.rt.fibers[f].mode == R.Enrolled
          else Inside(s', f, s'.pcs[f]) && s'.rt.owners[MTX].writers == multiset{f})
  {
    StepKeepsInv(s, a);
    if !s.rt.prims[MTX].locked {
      InsideOwns(Next(s, a), f, Next(s, a).pcs[f]);
    }
  }

  /** With the flag set, a waiter gets through: it tests, does not wait, and unlocks. */
  lemma WaiterGetsThrough(s: State, f: P.Fiber)
    requires Inside(s, f, WEnter) && s.flag
    ensures var run := [Test(f), Unlock(f)];
      && ValidRun(s, run)
      && After(s, run).pcs == s.pcs[f := Outside] && After(s, run).flag
      && MTX < |After(s, run).rt.owners| && f !in After(s, run).rt.owners[MTX].writers
  {
    var s1 := Next(s, Test(f));
    TestStep(s, f);
    TwoCalls(s, Test(f), Unlock(f));
    Unlocks(s1, f);
    assert s.pcs[f := WPast][f := Outside] == s.pcs[f := Outside];
  }

  /** Unlocking, at the end of a critical section, gives up the mutex. */
  lemma Unlocks(s: State, f: P.Fiber)
    requires f < |s.pcs| && Inside(s, f, s.pcs[f])
    requires s.pcs[f] == WPast || s.pcs[f] == CNotified || s.pcs[f].CChanged?
    ensures Enabled(s, Unlock(f))
    ensures var s', q := Next(s, Unlock(f)), P.Queue(s.rt.prims[MTX]);
      && Inv(s') && s'.pcs == s.pcs[f := if s.pcs[f] == CChanged(true) then CUnlocked else Outside]
      && s'.flag == s.flag && s'.rt.fibers[f].hand == q[..Bit(q != [])] && R.Active(s'.rt, f)
      && MTX < |s'.rt.owners| && f !in s'.rt.owners[MTX].writers
  {
    InsideOwns(s, f, s.pcs[f]);
    UnlockStep(s, f, if s.pcs[f] == CChanged(true) then CUnlocked else Outside);
    R.MutexUnlocked(s.rt, f, MTX);
    UnlockHands(s, f);
  }

  lemma UnlockHands(s: State, f: P.Fiber)
    requires R.Active(s.rt, f) && |s.rt.prims| == |s.rt.owners| > MTX && s.rt.prims[MTX].Mutex?
    ensures var s', q := R.AfterSection(s.rt, f, MTX, P.Op.Unlock), P.Queue(s.rt.prims[MTX]);
      s'.fibers[f].hand == q[..Bit(q != [])] && R.Active(s', f)
  {}

  /** With the flag unset, a waiter goes to sleep: it tests, joins the waiters of the condition variable as
      the last one, and gives up the mutex; it has yet to yield. */
  lemma WaiterGoesToSleep(s: State, f: P.Fiber)
    requires Inside(s, f, WEnter) && !s.flag
    ensures var run := [Test(f), Enqueue(f), Release(f)];
      && ValidRun(s, run)
      && var s' := After(s, run);
      && s'.pcs == s.pcs[f := WReleased] && !s'.flag && |s'.rt.prims| > CV
      && P.Queue(s'.rt.prims[CV]) == P.Queue(s.rt.prims[CV]) + [f]
      && MTX < |s'.rt.owners| && f !in s'.rt.owners[MTX].writers
      && f < |s'.rt.fibers| && s'.rt.fibers[f].mode == R.Enrolled
  {
    var s1 := Next(s, Test(f));
    TestStep(s, f);
    EnqueueStep(s1, f);
    InsideOwns(s, f, WEnter);
    var s2 := Next(s1, Enqueue(f));
    assert s2.pcs[f] == WQueued && Calm(s2, f);
    Releases(s2, f);
    ThreeCalls(s, Test(f), Enqueue(f), Release(f));
    assert s.pcs[f := WFailed][f := WQueued][f := WReleased] == s.pcs[f := WReleased];
  }

  lemma Releases(s: State, f: P.Fiber)
    requires Inv(s) && Calm(s, f) && s.pcs[f] == WQueued
    ensures Enabled(s, Release(f))
    ensures var s' := Next(s, Release(f));
      && s'.pcs == s.pcs[f := WReleased] && s'.flag == s.flag && |s'.rt.prims| > CV
      && P.Queue(s'.rt.prims[CV]) == P.Queue(s.rt.prims[CV])
      && MTX < |s'.rt.owners| && f !in s'.rt.owners[MTX].writers
      && f < |s'.rt.fibers| && s'.rt.fibers[f].mode == s.rt.fibers[f].mode
  {
    assert PcInv(s, f);
    R.MutexUnlocked(s.rt, f, MTX);
    SectionOthers(s, f, MTX, P.Op.Unlock, f);
  }

  /** A changer that sets the flag and notifies under the mutex takes all the waiters of the condition
      variable in hand, in order, and leaves none. */
  lemma ChangerNotifies(s: State, f: P.Fiber)
    requires Inside(s, f, CEnter)
    ensures var run := [Change(f, true), Notify(f)];
      && ValidRun(s, run)
      && NotifiedBy(s, After(s, run), f)
      && After(s, run).pcs == s.pcs[f := CNotified] && After(s, run).flag
      && MTX < |After(s, run).rt.owners| && After(s, run).rt.owners[MTX].writers == multiset{f}
  {
    var s1 := Next(s, Change(f, true));
    InsideOwns(s, f, CEnter);
    ChangeStep(s, f, true);
    TwoCalls(s, Change(f, true), Notify(f));
    assert s.pcs[f := CChanged(true)][f := CNotified] == s.pcs[f := CNotified];
  }

  /** All who waited on the condition variable are in the hand of `f`. */
  ghost predicate NotifiedBy(s: State, s': State, f: P.Fiber) {
    && |s.rt.prims| > CV && |s'.rt.prims| > CV && f < |s'.rt.fibers|
    && P.Queue(s'.rt.prims[CV]) == [] && s'.rt.fibers[f].hand == P.Queue(s.rt.prims[CV])
  }

  /** The same after the mutex is unlocked. */
  lemma ChangerNotifiesLater(s: State, f: P.Fiber)
    requires Inv(s) && Ready(s, f) && s.pcs[f] == CUnlocked
    ensures Enabled(s, Notify(f)) && NotifiedBy(s, Next(s, Notify(f)), f)
    ensures Next(s, Notify(f)).pcs == s.pcs[f := Outside] && Next(s, Notify(f)).flag == s.flag
  {}
}
