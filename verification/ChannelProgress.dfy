/**
 `channel<T>` does not deadlock on its own semaphores and mutex: whenever a reader and a writer are both
 queued, some fiber in the middle of a read or a write can go on.
 */
module ChannelProgress {
  import opened Common
  import opened Primitives
  import R = FiberRuntime
  import opened Channel

  // ----- Fibers inside a call are on their way ---------------------------------------------------

  /** A fiber that is in the middle of a read or a write neither sleeps nor waits for anything but the
      channel's own primitives. */
  ghost predicate OnCall<T>(s: State<T>, f: Fiber)
    requires f < |s.pcs| && |s.pcs| == |s.rt.fibers|
  {
    var r := s.rt.fibers[f];
    s.pcs[f] != Outside ==>
      && R.Afoot(r)
      && (r.ticket.InQueue? ==> r.ticket.prim <= FULL)
  }

  ghost predicate Going<T>(s: State<T>) {
    && |s.pcs| == |s.rt.fibers| && |s.rt.owners| > MTX
    && (forall f: Fiber :: f < |s.pcs| ==> OnCall(s, f))
    && (forall g :: g in s.rt.owners[MTX].writers ==> g < |s.pcs|)
  }

  lemma ForeignKeepsGoing<T>(s: State<T>, l: R.Label, cap: nat)
    requires Inv(s, cap) && Going(s) && Enabled(s, Runtime(l))
    ensures Going(Next(s, Runtime(l)))
  {
    var s' := Next(s, Runtime(l));
    R.SamePrims(s.rt, l, MTX);
    forall f: Fiber | f < |s'.pcs|
      ensures OnCall(s', f)
    {
      assert OnCall(s, f);
      if s.pcs[f] != Outside {
        R.StaysAfoot(s.rt, l, f);
      }
    }
  }

  lemma CallKeepsGoing<T>(s: State<T>, f: Fiber, p: nat, op: Op, pc: Pc<T>, cap: nat)
    requires Inv(s, cap) && Going(s) && Ready(s, f) && p <= FULL
    requires Allowed(s.rt.prims[p], op, f, s.rt.owners[p])
    ensures Going(Do(s, f, p, op, pc))
  {
    var s' := Do(s, f, p, op, pc);
    var l := R.Section(f, p, op);
    forall g: Fiber | g < |s'.pcs|
      ensures OnCall(s', g)
    {
      assert OnCall(s, g);
      if g == f {
        R.SectionLeavesAfoot(s.rt, f, p, op);
      } else if s.pcs[g] != Outside {
        R.StaysAfoot(s.rt, l, g);
      }
    }
    forall g | g in s'.rt.owners[MTX].writers
      ensures g < |s'.pcs|
    {
      if g in Apply(s.rt.prims[p], op, f).woken {
        R.PoppedWasQueued(s.rt, f, p, op, g);
      }
    }
  }

  /** Every step keeps fibers inside a call on their way. */
  lemma StepKeepsGoing<T>(s: State<T>, a: Act<T>, cap: nat)
    requires Inv(s, cap) && Going(s) && Enabled(s, a)
    ensures Going(Next(s, a))
  {
    match a
    case Runtime(l) => ForeignKeepsGoing(s, l, cap);
    case BeginWrite(f, x) => CallKeepsGoing(s, f, SPACE, Wait, WSpace(x), cap);
    case BeginRead(f) => CallKeepsGoing(s, f, FULL, Wait, RFull, cap);
    case LockMutex(f) => CallKeepsGoing(s, f, MTX, Lock, Next(s, a).pcs[f], cap);
    case UnlockMutex(f) =>
      assert PcInv(s, f);
      R.RunningIsInNoQueue(s.rt, f, MTX);
      CallKeepsGoing(s, f, MTX, Unlock, Next(s, a).pcs[f], cap);
    case EndWrite(f) => CallKeepsGoing(s, f, FULL, Signal, Outside, cap);
    case EndRead(f) => CallKeepsGoing(s, f, SPACE, Signal, Outside, cap);
    case _ =>
      forall g: Fiber | g < |s.pcs|
        ensures OnCall(Next(s, a), g)
      {
        assert OnCall(s, g);
      }
  }

  lemma {:induction false} RunKeepsGoing<T>(s: State<T>, run: seq<Act<T>>, cap: nat)
    requires Inv(s, cap) && Going(s) && ValidRun(s, run)
    ensures Inv(After(s, run), cap) && Going(After(s, run))
    decreases |run|
  {
    if run != [] {
      StepKeepsInv(s, run[0], cap);
      StepKeepsGoing(s, run[0], cap);
      RunKeepsGoing(Next(s, run[0]), run[1..], cap);
    }
  }

  // ----- Who can go on ---------------------------------------------------------------------------

  /** A fiber holds its first token and has not returned the second. */
  ghost predicate Between<T>(s: State<T>, f: Fiber)
    requires Shape(s)
  {
    && f < |s.pcs| && s.pcs[f] != Outside
    && f !in Queue(s.rt.prims[SPACE]) && f !in Queue(s.rt.prims[FULL])
  }

  /** Its thread executes it, or its wake-up is on the way to its thread. */
  ghost predicate CanGoOn<T>(s: State<T>, f: Fiber) {
    f < |s.rt.fibers| && (R.Active(s.rt, f) || R.Popped(s.rt.fibers[f].ticket))
  }

  /** With nobody in between, only a full channel makes a writer wait and only an empty one a
      reader. */
  lemma NobodyBetween<T>(s: State<T>, cap: nat)
    requires Inv(s, cap) && forall f :: !Between(s, f)
    ensures Queue(s.rt.prims[SPACE]) != [] ==> |s.items| == cap
    ensures Queue(s.rt.prims[FULL]) != [] ==> |s.items| == 0
  {
    forall f: Fiber | f < |s.pcs|
      ensures s.pcs[f] == Outside || s.pcs[f].WSpace? || s.pcs[f].RFull?
      ensures s.pcs[f].WSpace? ==> f in s.rt.prims[SPACE].waiters
      ensures s.pcs[f].RFull? ==> f in s.rt.prims[FULL].waiters
    {
      assert !Between(s, f) && PcInv(s, f);
    }
    CountNone(s.pcs, OwesSpace);
    CountNone(s.pcs, OwesItem);
    CountAtMost(s.pcs, TakesSpace, s.rt.prims[SPACE].waiters);
    CountAtMost(s.pcs, TakesItem, s.rt.prims[FULL].waiters);
    assert OwnInv(s.rt.prims[SPACE], s.rt.owners[SPACE]);
    assert OwnInv(s.rt.prims[FULL], s.rt.owners[FULL]);
    ItemsFit(s, cap);
  }

  lemma SomebodyIsBetween<T>(s: State<T>, r: Fiber, w: Fiber, cap: nat)
    requires Inv(s, cap) && cap > 0
    requires r in Queue(s.rt.prims[FULL]) && w in Queue(s.rt.prims[SPACE])
    ensures exists f :: Between(s, f)
  {
    if forall f :: !Between(s, f) {
      NobodyBetween(s, cap);
    }
  }

  /** Whoever is in between and not queued on the mutex can go on. */
  lemma UnqueuedGoesOn<T>(s: State<T>, f: Fiber, cap: nat)
    requires Inv(s, cap) && Going(s) && Between(s, f) && f !in Queue(s.rt.prims[MTX])
    ensures CanGoOn(s, f)
  {
    assert OnCall(s, f) && R.FiberInv(s.rt, f);
    HasNoTicketFor(s, f, SPACE);
    HasNoTicketFor(s, f, MTX);
    HasNoTicketFor(s, f, FULL);
  }

  lemma HasNoTicketFor<T>(s: State<T>, f: Fiber, p: nat)
    requires R.Inv(s.rt) && f < |s.rt.fibers| && p < |s.rt.prims| && f !in Queue(s.rt.prims[p])
    ensures s.rt.fibers[f].ticket != R.InQueue(p)
  {
    assert R.Placed(s.rt, R.InQueue(p));
    assert f in R.At(s.rt, R.InQueue(p)) <==> R.TicketIs(s.rt, f, R.InQueue(p));
  }

  /** Whoever is queued on the mutex waits for an owner that can go on. */
  lemma OwnerGoesOn<T>(s: State<T>, f: Fiber, cap: nat) returns (g: Fiber)
    requires Inv(s, cap) && Going(s) && f in Queue(s.rt.prims[MTX])
    ensures Between(s, g) && CanGoOn(s, g)
  {
    assert OwnInv(s.rt.prims[MTX], s.rt.owners[MTX]);
    g :| g in s.rt.owners[MTX].writers;
    assert PcInv(s, g);
    UnqueuedGoesOn(s, g, cap);
  }

  /** A channel of positive capacity does not deadlock: in every run, whenever a reader and a writer are
      both queued on the semaphores, some fiber is between its first token and its last signal, and is
      running or about to be resumed. */
  lemma ChannelProgress<T>(s0: State<T>, run: seq<Act<T>>, s: State<T>, cap: nat, r: Fiber, w: Fiber)
    requires Init(s0, cap) && ValidRun(s0, run) && s == After(s0, run) && cap > 0
    requires |s.rt.prims| > FULL && r in Queue(s.rt.prims[FULL]) && w in Queue(s.rt.prims[SPACE])
    ensures Shape(s) && exists f :: Between(s, f) && CanGoOn(s, f)
  {
    InitInv(s0, cap);
    RunKeepsGoing(s0, run, cap);
    SomebodyIsBetween(s, r, w, cap);
    var f :| Between(s, f);
    if f in Queue(s.rt.prims[MTX]) {
      f := OwnerGoesOn(s, f, cap);
    } else {
      UnqueuedGoesOn(s, f, cap);
    }
  }

  // ----- How long a call takes -------------------------------------------------------------------

  /** How many of its own acts a fiber has before it until its call ends. */
  function Left<T>(pc: Pc<T>): nat {
    match pc
    case WSpace(_) => 4
    case WLock(_) => 3
    case WPushed => 2
    case WUnlock => 1
    case RFull => 5
    case RLock => 4
    case RFront(_) => 3
    case RPopped(_) => 2
    case RUnlock(_) => 1
    case _ => 0
  }

  /** What an act of `f` adds to the acts it has before it. */
  function Starts<T>(a: Act<T>, f: Fiber): nat {
    if a.Runtime? || a.f != f then 0
    else if a.BeginWrite? then 4
    else if a.BeginRead? then 5
    else 0
  }

  /** The act takes a call of `f` further. */
  predicate GoesOn<T>(a: Act<T>, f: Fiber) {
    !a.Runtime? && a.f == f && !a.BeginWrite? && !a.BeginRead?
  }

  /** A fiber that has control in the middle of a read or a write has exactly one act to go on with, and it
      ends the call after `Left` of them. */
  lemma NextCall<T>(s: State<T>, f: Fiber, cap: nat) returns (a: Act<T>)
    requires Inv(s, cap) && Ready(s, f) && s.pcs[f] != Outside
    ensures Enabled(s, a) && GoesOn(a, f)
    ensures forall b :: Enabled(s, b) && GoesOn(b, f) ==> b == a
  {
    assert PcInv(s, f);
    match s.pcs[f]
    case WSpace(_) => a := LockMutex(f);
    case WLock(_) => a := Push(f);
    case WPushed => a := UnlockMutex(f);
    case WUnlock => a := EndWrite(f);
    case RFull => a := LockMutex(f);
    case RLock => a := Front(f);
    case RFront(_) => a := Pop(f);
    case RPopped(_) => a := UnlockMutex(f);
    case RUnlock(_) => a := EndRead(f);
  }

  lemma OneActNearer<T>(s: State<T>, a: Act<T>, f: Fiber, cap: nat)
    requires Inv(s, cap) && Enabled(s, a) && f < |s.pcs|
    ensures |Next(s, a).pcs| == |s.pcs|
    ensures Left(s.pcs[f]) + Starts(a, f) == Bit(GoesOn(a, f)) + Left(Next(s, a).pcs[f])
  {
    if a.Runtime? || a.f != f {
      OtherFibersAct(s, a, f);
    } else if a.Front? || a.Pop? {
      StepKeepsInv(s, a, cap);
      ReadsAnItem(s, a, cap);
    } else {
      OwnAct(s, a);
      FollowsNearer(s.pcs[f], Next(s, a).pcs[f], a);
    }
  }

  lemma ReadsAnItem<T>(s: State<T>, a: Act<T>, cap: nat)
    requires Inv(s, cap) && Enabled(s, a) && Inv(Next(s, a), cap) && (a.Front? || a.Pop?)
    ensures a.f < |s.pcs| && |Next(s, a).pcs| == |s.pcs| && Left(s.pcs[a.f]) == 1 + Left(Next(s, a).pcs[a.f])
  {
    assert PcInv(Next(s, a), a.f);
  }

  /** One program counter is the other's next. */
  predicate Follows<T>(pc: Pc<T>, pc': Pc<T>, a: Act<T>) {
    match a
    case BeginWrite(_, _) => pc.Outside? && pc'.WSpace?
    case BeginRead(_) => pc.Outside? && pc'.RFull?
    case LockMutex(_) => (pc.WSpace? && pc'.WLock?) || (pc.RFull? && pc'.RLock?)
    case Push(_) => pc.WLock? && pc'.WPushed?
    case UnlockMutex(_) => (pc.WPushed? && pc'.WUnlock?) || (pc.RPopped? && pc'.RUnlock?)
    case EndWrite(_) => pc.WUnlock? && pc'.Outside?
    case EndRead(_) => pc.RUnlock? && pc'.Outside?
    case _ => false
  }

  lemma FollowsNearer<T>(pc: Pc<T>, pc': Pc<T>, a: Act<T>)
    requires Follows(pc, pc', a)
    ensures !a.Runtime? && Left(pc) + Starts(a, a.f) == Bit(GoesOn(a, a.f)) + Left(pc')
  {}

  lemma OwnAct<T>(s: State<T>, a: Act<T>)
    requires Enabled(s, a) && !a.Runtime? && !a.Front? && !a.Pop?
    ensures a.f < |s.pcs| && |Next(s, a).pcs| == |s.pcs| && Follows(s.pcs[a.f], Next(s, a).pcs[a.f], a)
  {}

  lemma OtherFibersAct<T>(s: State<T>, a: Act<T>, f: Fiber)
    requires Enabled(s, a) && f < |s.pcs| && (a.Runtime? || a.f != f)
    ensures |Next(s, a).pcs| == |s.pcs| && Next(s, a).pcs[f] == s.pcs[f]
  {}

  function Started<T>(run: seq<Act<T>>, f: Fiber): nat {
    if run == [] then 0 else Starts(run[0], f) + Started(run[1..], f)
  }

  function Made<T>(run: seq<Act<T>>, f: Fiber): nat {
    if run == [] then 0 else Bit(GoesOn(run[0], f)) + Made(run[1..], f)
  }

  /** Over every run: each `write` of a fiber takes it four acts beside the first, and each `read` five; it
      has made them all but for those left of the call it is in. */
  lemma CallsTakeTheirActs<T>(s0: State<T>, run: seq<Act<T>>, s: State<T>, cap: nat, f: Fiber)
    requires Init(s0, cap) && ValidRun(s0, run) && s == After(s0, run) && f < |s0.pcs|
    ensures f < |s.pcs| && Started(run, f) == Made(run, f) + Left(s.pcs[f])
  {
    InitInv(s0, cap);
    ActsRun(s0, run, cap, f);
  }

  lemma {:induction false} ActsRun<T>(s: State<T>, run: seq<Act<T>>, cap: nat, f: Fiber)
    requires Inv(s, cap) && ValidRun(s, run) && f < |s.pcs|
    ensures |After(s, run).pcs| == |s.pcs|
    ensures Left(s.pcs[f]) + Started(run, f) == Made(run, f) + Left(After(s, run).pcs[f])
    decreases |run|
  {
    if run != [] {
      OneActNearer(s, run[0], f, cap);
      StepKeepsInv(s, run[0], cap);
      ActsRun(Next(s, run[0]), run[1..], cap, f);
    }
  }
}
