/**
 `channel<T>`: two semaphores, a mutex and a queue, run as a client program on FiberRuntime.

 A fiber's program counter names the last call it made.  The call may have blocked: the fiber takes
 its next step only once it is running again.  Nothing is guarded by what ought to hold: `Front` on
 an empty queue crashes the reader, and unlocking does not ask who owns the mutex.
 */
module Channel {
  import opened Common
  import opened Primitives
  import R = FiberRuntime

  const SPACE: nat := 0
  const MTX: nat := 1
  const FULL: nat := 2

  datatype Pc<T> =
    | Outside
    | WSpace(x: T)     // space.wait()
    | WLock(x: T)      // mtx.lock()
    | WPushed          // items.push_back(x)
    | WUnlock          // mtx.unlock(); full.signal() ends the write
    | RFull            // full.wait()
    | RLock            // mtx.lock()
    | RFront(x: T)     // x = items.front()
    | RPopped(x: T)    // items.pop_front()
    | RUnlock(x: T)    // mtx.unlock(); space.signal() ends the read
    | Crashed

  /** `pushed` and `popped` are history: everything ever written to and read from `items`. */
  datatype State<T> = State(rt: R.State, pcs: seq<Pc<T>>, items: seq<T>,
                            pushed: seq<T>, popped: seq<T>)

  datatype Act<T> =
    | Runtime(l: R.Label)
    | BeginWrite(f: Fiber, x: T) | BeginRead(f: Fiber)
    | LockMutex(f: Fiber) | UnlockMutex(f: Fiber)
    | Push(f: Fiber) | Front(f: Fiber) | Pop(f: Fiber)
    | EndWrite(f: Fiber) | EndRead(f: Fiber)

  // ----- Steps -----------------------------------------------------------------------------------

  /** `f` runs, and its last call has returned. */
  predicate Ready<T>(s: State<T>, f: Fiber) {
    R.Active(s.rt, f) && s.rt.fibers[f].mode == R.Running && s.rt.fibers[f].hand == [] && f < |s.pcs|
  }

  /** Steps of the runtime that are not calls of this channel: scheduling, and whatever fibers do
      while they neither read nor write. */
  ghost predicate Foreign<T>(s: State<T>, l: R.Label) {
    && R.Enabled(s.rt, l)
    && (l.Section? ==> l.p > FULL)
    && (l.Section? || l.Sleep? || l.Finish? ==> l.f < |s.pcs| && s.pcs[l.f] == Outside)
  }

  ghost predicate Enabled<T>(s: State<T>, a: Act<T>) {
    && |s.rt.prims| > FULL && |s.rt.owners| == |s.rt.prims|
    && s.rt.prims[SPACE].Semaphore? && s.rt.prims[MTX].Mutex? && s.rt.prims[FULL].Semaphore?
    && match a
       case Runtime(l) => Foreign(s, l)
       case BeginWrite(f, _) => Ready(s, f) && s.pcs[f] == Outside
       case BeginRead(f) => Ready(s, f) && s.pcs[f] == Outside
       case LockMutex(f) => Ready(s, f) && (s.pcs[f].WSpace? || s.pcs[f].RFull?)
       case UnlockMutex(f) => Ready(s, f) && (s.pcs[f].WPushed? || s.pcs[f].RPopped?)
       case Push(f) => Ready(s, f) && s.pcs[f].WLock?
       case Front(f) => Ready(s, f) && s.pcs[f].RLock?
       case Pop(f) => Ready(s, f) && s.pcs[f].RFront?
       case EndWrite(f) => Ready(s, f) && s.pcs[f].WUnlock?
       case EndRead(f) => Ready(s, f) && s.pcs[f].RUnlock?
  }

  ghost function Do<T>(s: State<T>, f: Fiber, p: nat, op: Op, pc: Pc<T>): State<T>
    requires f < |s.rt.fibers| && p < |s.rt.prims| && p < |s.rt.owners| && Fits(s.rt.prims[p], op)
    requires f < |s.pcs|
  {
    s.(rt := R.AfterSection(s.rt, f, p, op), pcs := s.pcs[f := pc])
  }

  ghost function Next<T>(s: State<T>, a: Act<T>): State<T>
    requires Enabled(s, a)
  {
    match a
    case Runtime(l) => s.(rt := R.Next(s.rt, l))
    case BeginWrite(f, x) => Do(s, f, SPACE, Wait, WSpace(x))
    case BeginRead(f) => Do(s, f, FULL, Wait, RFull)
    case LockMutex(f) => Do(s, f, MTX, Lock, if s.pcs[f].WSpace? then WLock(s.pcs[f].x) else RLock)
    case UnlockMutex(f) =>
      Do(s, f, MTX, Unlock, if s.pcs[f].WPushed? then WUnlock else RUnlock(s.pcs[f].x))
    case Push(f) =>
      var x := s.pcs[f].x;
      s.(items := s.items + [x], pushed := s.pushed + [x], pcs := s.pcs[f := WPushed])
    case Front(f) =>
      s.(pcs := s.pcs[f := if s.items == [] then Crashed else RFront(s.items[0])])
    case Pop(f) =>
      var x := s.pcs[f].x;
      if s.items == [] then s.(pcs := s.pcs[f := Crashed])
      else s.(items := s.items[1..], popped := s.popped + [x], pcs := s.pcs[f := RPopped(x)])
    case EndWrite(f) => Do(s, f, FULL, Signal, Outside)
    case EndRead(f) => Do(s, f, SPACE, Signal, Outside)
  }

  // ----- Counting fibers by program counter ------------------------------------------------------

  datatype Group =
    | TakesSpace   // writers from space.wait to the push
    | OwesSpace    // readers from the pop to space.signal
    | TakesItem    // readers from full.wait to the pop
    | OwesItem     // writers from the push to full.signal

  predicate In<T>(pc: Pc<T>, g: Group) {
    match g
    case TakesSpace => pc.WSpace? || pc.WLock?
    case OwesSpace => pc.RPopped? || pc.RUnlock?
    case TakesItem => pc.RFull? || pc.RLock? || pc.RFront?
    case OwesItem => pc.WPushed? || pc.WUnlock?
  }

  function Count<T>(pcs: seq<Pc<T>>, g: Group): nat {
    if pcs == [] then 0 else Bit(In(pcs[0], g)) + Count(pcs[1..], g)
  }

  lemma {:induction false} CountUpdate<T>(pcs: seq<Pc<T>>, f: nat, pc: Pc<T>, g: Group)
    requires f < |pcs|
    ensures Count(pcs[f := pc], g) == Count(pcs, g) - Bit(In(pcs[f], g)) + Bit(In(pc, g))
  {
    if f == 0 {
      assert pcs[f := pc][1..] == pcs[1..];
    } else {
      assert pcs[f := pc][1..] == pcs[1..][f - 1 := pc];
      CountUpdate(pcs[1..], f - 1, pc, g);
    }
  }

  lemma {:induction false} CountAtLeast<T>(pcs: seq<Pc<T>>, g: Group, q: seq<Fiber>)
    requires Distinct(q) && forall f :: f in q ==> f < |pcs| && In(pcs[f], g)
    ensures |q| <= Count(pcs, g)
    decreases |q|
  {
    if q != [] {
      assert q[0] in q;
      CountUpdate(pcs, q[0], Outside, g);
      assert forall i :: 0 <= i < |q[1..]| ==> q[1..][i] == q[i + 1];
      assert forall f :: f in q[1..] ==> f in q;
      CountAtLeast(pcs[q[0] := Outside], g, q[1..]);
    }
  }

  lemma {:induction false} CountAtMost<T>(pcs: seq<Pc<T>>, g: Group, q: seq<Fiber>)
    requires forall f: Fiber :: f < |pcs| && In(pcs[f], g) ==> f in q
    ensures Count(pcs, g) <= |q|
    decreases |q|
  {
    if q == [] {
      CountNone(pcs, g);
    } else if q[0] < |pcs| {
      CountUpdate(pcs, q[0], Outside, g);
      CountAtMost(pcs[q[0] := Outside], g, q[1..]);
    } else {
      CountAtMost(pcs, g, q[1..]);
    }
  }

  lemma {:induction false} CountNone<T>(pcs: seq<Pc<T>>, g: Group)
    requires forall f :: 0 <= f < |pcs| ==> !In(pcs[f], g)
    ensures Count(pcs, g) == 0
  {
    if pcs != [] {
      assert forall f :: 0 <= f < |pcs[1..]| ==> pcs[1..][f] == pcs[f + 1];
      CountNone(pcs[1..], g);
    }
  }

  // ----- The invariant ---------------------------------------------------------------------------

  /** Tokens on offer, less the fibers queued for one. */
  function Level(p: Prim): int
    requires p.Semaphore?
  {
    p.count - |p.waiters|
  }

  predicate InsideLock<T>(pc: Pc<T>) {
    pc.WLock? || pc.WPushed? || pc.RLock? || pc.RFront? || pc.RPopped?
  }

  ghost predicate PcInv<T>(s: State<T>, f: Fiber)
    requires f < |s.pcs| && |s.rt.prims| > FULL && |s.rt.owners| == |s.rt.prims|
  {
    var pc := s.pcs[f];
    && pc != Crashed
    && (f in Queue(s.rt.prims[SPACE]) ==> pc.WSpace?)
    && (f in Queue(s.rt.prims[FULL]) ==> pc.RFull?)
    && (f in Queue(s.rt.prims[MTX]) ==> pc.WLock? || pc.RLock?)
    && (f in s.rt.owners[MTX].writers <==> InsideLock(pc) && f !in Queue(s.rt.prims[MTX]))
    && (pc.RFront? ==> s.items != [] && s.items[0] == pc.x)
  }

  predicate Kinds<T>(s: State<T>) {
    && |s.rt.prims| > FULL
    && s.rt.prims[SPACE].Semaphore? && s.rt.prims[MTX].Mutex? && s.rt.prims[FULL].Semaphore?
  }

  ghost predicate Shape<T>(s: State<T>) {
    R.Inv(s.rt) && |s.pcs| == |s.rt.fibers| && Kinds(s)
  }

  /** Conservation of space and of items, for a channel of capacity `cap`. */
  ghost predicate Balanced<T>(s: State<T>, cap: nat)
    requires Kinds(s)
  {
    && Level(s.rt.prims[SPACE]) + Count(s.pcs, TakesSpace) + |s.items| + Count(s.pcs, OwesSpace) == cap
    && Level(s.rt.prims[FULL]) + Count(s.pcs, TakesItem) + Count(s.pcs, OwesItem) == |s.items|
    && s.pushed == s.popped + s.items
  }

  ghost predicate Inv<T>(s: State<T>, cap: nat) {
    && Shape(s)
    && (forall f :: 0 <= f < |s.pcs| ==> PcInv(s, f))
    && Balanced(s, cap)
  }

  // ----- Preservation ----------------------------------------------------------------------------

  lemma ForeignStep<T>(s: State<T>, l: R.Label, cap: nat)
    requires Inv(s, cap) && Enabled(s, Runtime(l))
    ensures Inv(Next(s, Runtime(l)), cap)
  {
    R.InvPreserved(s.rt, l);
    var s' := Next(s, Runtime(l));
    R.SamePrims(s.rt, l, SPACE);
    R.SamePrims(s.rt, l, MTX);
    R.SamePrims(s.rt, l, FULL);
    forall f | 0 <= f < |s'.pcs|
      ensures PcInv(s', f)
    {
      assert PcInv(s, f);
    }
  }

  /** What a semaphore call does to the level and to the queue. */
  lemma SemaphoreCall(p: Prim, op: Op, f: Fiber)
    requires p.Semaphore? && (op == Wait || op == Signal)
    ensures var e := Apply(p, op, f);
      && e.prim.Semaphore?
      && Level(e.prim) == Level(p) + (if op == Wait then -1 else 1)
      && (forall g :: g in Queue(e.prim) ==> g in Queue(p) || (g == f && op == Wait))
  {}

  lemma SemaphoreStep<T>(s: State<T>, f: Fiber, p: nat, op: Op, pc: Pc<T>, cap: nat)
    requires Inv(s, cap) && Ready(s, f) && (p == SPACE || p == FULL)
    requires op == Wait || op == Signal
    requires !InsideLock(s.pcs[f]) && !InsideLock(pc) && pc != Crashed
    requires op == Wait ==> if p == SPACE then pc.WSpace? else pc.RFull?
    requires op == Wait ==> s.pcs[f] == Outside
    ensures var s' := Do(s, f, p, op, pc);
      Shape(s') && forall g :: 0 <= g < |s'.pcs| ==> PcInv(s', g)
  {
    var s' := Do(s, f, p, op, pc);
    R.InvPreserved(s.rt, R.Section(f, p, op));
    SemaphoreCall(s.rt.prims[p], op, f);
    R.RunningIsInNoQueue(s.rt, f, SPACE);
    R.RunningIsInNoQueue(s.rt, f, FULL);
    R.RunningIsInNoQueue(s.rt, f, MTX);
    forall g | 0 <= g < |s'.pcs|
      ensures PcInv(s', g)
    {
      assert PcInv(s, g);
    }
  }

  lemma BeginWriteStep<T>(s: State<T>, f: Fiber, x: T, cap: nat)
    requires Inv(s, cap) && Enabled(s, BeginWrite(f, x))
    ensures Inv(Next(s, BeginWrite(f, x)), cap)
  {
    SemaphoreStep(s, f, SPACE, Wait, WSpace(x), cap);
    SemaphoreBalance(s, f, SPACE, Wait, WSpace(x), cap);
  }

  lemma BeginReadStep<T>(s: State<T>, f: Fiber, cap: nat)
    requires Inv(s, cap) && Enabled(s, BeginRead(f))
    ensures Inv(Next(s, BeginRead(f)), cap)
  {
    SemaphoreStep(s, f, FULL, Wait, RFull, cap);
    SemaphoreBalance(s, f, FULL, Wait, RFull, cap);
  }

  lemma EndWriteStep<T>(s: State<T>, f: Fiber, cap: nat)
    requires Inv(s, cap) && Enabled(s, EndWrite(f))
    ensures Inv(Next(s, EndWrite(f)), cap)
  {
    SemaphoreStep(s, f, FULL, Signal, Outside, cap);
    SemaphoreBalance(s, f, FULL, Signal, Outside, cap);
  }

  lemma EndReadStep<T>(s: State<T>, f: Fiber, cap: nat)
    requires Inv(s, cap) && Enabled(s, EndRead(f))
    ensures Inv(Next(s, EndRead(f)), cap)
  {
    SemaphoreStep(s, f, SPACE, Signal, Outside, cap);
    SemaphoreBalance(s, f, SPACE, Signal, Outside, cap);
  }

  /** By how much a count changes when a fiber moves from one program counter to another. */
  function Gain<T>(pc: Pc<T>, pc': Pc<T>, g: Group): int {
    Bit(In(pc', g)) - Bit(In(pc, g))
  }

  /** A step of one fiber keeps the balance if what it adds and what it takes cancel. */
  lemma StaysBalanced<T>(s: State<T>, s': State<T>, f: Fiber, cap: nat)
    requires Kinds(s) && Kinds(s') && Balanced(s, cap)
    requires f < |s.pcs| == |s'.pcs| && s'.pcs == s.pcs[f := s'.pcs[f]]
    requires Level(s'.rt.prims[SPACE]) - Level(s.rt.prims[SPACE]) + Gain(s.pcs[f], s'.pcs[f], TakesSpace)
             + |s'.items| - |s.items| + Gain(s.pcs[f], s'.pcs[f], OwesSpace) == 0
    requires Level(s'.rt.prims[FULL]) - Level(s.rt.prims[FULL]) + Gain(s.pcs[f], s'.pcs[f], TakesItem)
             + Gain(s.pcs[f], s'.pcs[f], OwesItem) == |s'.items| - |s.items|
    requires s'.pushed == s'.popped + s'.items
    ensures Balanced(s', cap)
  {
    CountUpdate(s.pcs, f, s'.pcs[f], TakesSpace);
    CountUpdate(s.pcs, f, s'.pcs[f], OwesSpace);
    CountUpdate(s.pcs, f, s'.pcs[f], TakesItem);
    CountUpdate(s.pcs, f, s'.pcs[f], OwesItem);
  }

  /** A call on the mutex keeps the balance if the fiber stays in its group. */
  lemma MutexBalance<T>(s: State<T>, f: Fiber, op: Op, pc: Pc<T>, cap: nat)
    requires Kinds(s) && Balanced(s, cap) && |s.rt.owners| == |s.rt.prims|
    requires f < |s.pcs| == |s.rt.fibers| && (op == Lock || op == Unlock)
    requires Gain(s.pcs[f], pc, TakesSpace) + Gain(s.pcs[f], pc, OwesSpace) == 0
    requires Gain(s.pcs[f], pc, TakesItem) + Gain(s.pcs[f], pc, OwesItem) == 0
    ensures Kinds(Do(s, f, MTX, op, pc)) && Balanced(Do(s, f, MTX, op, pc), cap)
  {
    StaysBalanced(s, Do(s, f, MTX, op, pc), f, cap);
  }

  /** A call on a semaphore keeps the balance if the fiber changes groups as the tokens do. */
  lemma SemaphoreBalance<T>(s: State<T>, f: Fiber, p: nat, op: Op, pc: Pc<T>, cap: nat)
    requires Kinds(s) && Balanced(s, cap) && |s.rt.owners| == |s.rt.prims|
    requires f < |s.pcs| == |s.rt.fibers| && (p == SPACE || p == FULL) && (op == Wait || op == Signal)
    requires Gain(s.pcs[f], pc, TakesSpace) + Gain(s.pcs[f], pc, OwesSpace)
          == if p == FULL then 0 else if op == Wait then 1 else -1
    requires Gain(s.pcs[f], pc, TakesItem) + Gain(s.pcs[f], pc, OwesItem)
          == if p == SPACE then 0 else if op == Wait then 1 else -1
    ensures Kinds(Do(s, f, p, op, pc)) && Balanced(Do(s, f, p, op, pc), cap)
  {
    SemaphoreCall(s.rt.prims[p], op, f);
    StaysBalanced(s, Do(s, f, p, op, pc), f, cap);
  }

  lemma LockStep<T>(s: State<T>, f: Fiber, cap: nat)
    requires Inv(s, cap) && Enabled(s, LockMutex(f))
    ensures Inv(Next(s, LockMutex(f)), cap)
  {
    R.InvPreserved(s.rt, R.Section(f, MTX, Lock));
    LockPcs(s, f, cap);
    LockBalance(s, f, cap);
  }

  lemma LockBalance<T>(s: State<T>, f: Fiber, cap: nat)
    requires Kinds(s) && Balanced(s, cap) && |s.pcs| == |s.rt.fibers| && Enabled(s, LockMutex(f))
    ensures var s' := Next(s, LockMutex(f)); Kinds(s') && Balanced(s', cap)
  {
    MutexBalance(s, f, Lock, if s.pcs[f].WSpace? then WLock(s.pcs[f].x) else RLock, cap);
  }

  lemma LockPcs<T>(s: State<T>, f: Fiber, cap: nat)
    requires Inv(s, cap) && Enabled(s, LockMutex(f))
    ensures var s' := Next(s, LockMutex(f));
      |s'.pcs| == |s.pcs| && |s'.rt.prims| == |s.rt.prims| == |s'.rt.owners|
      && forall g :: 0 <= g < |s'.pcs| ==> PcInv(s', g)
  {
    var s' := Next(s, LockMutex(f));
    R.RunningIsInNoQueue(s.rt, f, SPACE);
    R.RunningIsInNoQueue(s.rt, f, FULL);
    R.RunningIsInNoQueue(s.rt, f, MTX);
    assert PcInv(s, f);
    LockOwners(s.rt.prims[MTX], s.rt.owners[MTX], f);
    forall g | 0 <= g < |s'.pcs|
      ensures PcInv(s', g)
    {
      assert PcInv(s, g);
    }
  }

  lemma UnlockStep<T>(s: State<T>, f: Fiber, cap: nat)
    requires Inv(s, cap) && Enabled(s, UnlockMutex(f))
    ensures Inv(Next(s, UnlockMutex(f)), cap)
  {
    R.RunningIsInNoQueue(s.rt, f, MTX);
    assert PcInv(s, f);
    R.InvPreserved(s.rt, R.Section(f, MTX, Unlock));
    UnlockPcs(s, f, cap);
    UnlockBalance(s, f, cap);
  }

  lemma UnlockBalance<T>(s: State<T>, f: Fiber, cap: nat)
    requires Kinds(s) && Balanced(s, cap) && |s.pcs| == |s.rt.fibers| && Enabled(s, UnlockMutex(f))
    ensures var s' := Next(s, UnlockMutex(f)); Kinds(s') && Balanced(s', cap)
  {
    MutexBalance(s, f, Unlock, if s.pcs[f].WPushed? then WUnlock else RUnlock(s.pcs[f].x), cap);
  }

  lemma UnlockPcs<T>(s: State<T>, f: Fiber, cap: nat)
    requires Inv(s, cap) && Enabled(s, UnlockMutex(f))
    ensures var s' := Next(s, UnlockMutex(f));
      |s'.pcs| == |s.pcs| && |s'.rt.prims| == |s.rt.prims| == |s'.rt.owners|
      && forall g :: 0 <= g < |s'.pcs| ==> PcInv(s', g)
  {
    var s' := Next(s, UnlockMutex(f));
    forall g | 0 <= g < |s'.pcs|
      ensures PcInv(s', g)
    {
      UnlockPc(s, f, g, cap);
    }
  }

  lemma UnlockPc<T>(s: State<T>, f: Fiber, g: Fiber, cap: nat)
    requires Inv(s, cap) && Enabled(s, UnlockMutex(f)) && g < |s.pcs|
    ensures var s' := Next(s, UnlockMutex(f));
      && |s'.pcs| == |s.pcs| && |s'.rt.prims| == |s.rt.prims| == |s'.rt.owners|
      && PcInv(s', g)
  {
    R.RunningIsInNoQueue(s.rt, f, MTX);
    assert PcInv(s, f) && PcInv(s, g);
    R.MutexUnlocked(s.rt, f, MTX);
    if g == f {
      R.RunningIsInNoQueue(s.rt, f, SPACE);
      R.RunningIsInNoQueue(s.rt, f, FULL);
    } else {
      UnlockOwner(s, f, g, cap);
    }
  }

  /** Before an unlock, every other fiber between its lock and its unlock is still queued. */
  lemma UnlockOwner<T>(s: State<T>, f: Fiber, g: Fiber, cap: nat)
    requires Inv(s, cap) && Enabled(s, UnlockMutex(f)) && g < |s.pcs| && g != f
    ensures InsideLock(s.pcs[g]) ==> g in s.rt.prims[MTX].waiters
  {
    R.RunningIsInNoQueue(s.rt, f, MTX);
    assert PcInv(s, f) && PcInv(s, g);
    if InsideLock(s.pcs[g]) && g !in Queue(s.rt.prims[MTX]) {
      AloneInside(s, f, g, cap);
    }
  }

  /** The fibers between a lock and an unlock that have returned from the lock are at most one. */
  lemma AloneInside<T>(s: State<T>, f: Fiber, g: Fiber, cap: nat)
    requires Inv(s, cap) && f < |s.pcs| && g < |s.pcs|
    requires InsideLock(s.pcs[f]) && f !in Queue(s.rt.prims[MTX])
    requires InsideLock(s.pcs[g]) && g !in Queue(s.rt.prims[MTX])
    ensures f == g
  {
    assert PcInv(s, f) && PcInv(s, g);
    OwnersExclude(s.rt.prims[MTX], s.rt.owners[MTX], f, g);
  }

  lemma ItemsStep<T>(s: State<T>, a: Act<T>, cap: nat)
    requires Inv(s, cap) && Enabled(s, a) && (a.Push? || a.Front? || a.Pop?)
    ensures Inv(Next(s, a), cap)
  {
    var s' := Next(s, a);
    R.RunningIsInNoQueue(s.rt, a.f, SPACE);
    R.RunningIsInNoQueue(s.rt, a.f, FULL);
    R.RunningIsInNoQueue(s.rt, a.f, MTX);
    assert PcInv(s, a.f);
    if a.Front? {
      ReaderFindsItem(s, a.f, cap);
    }
    ItemsPcs(s, a, cap);
    ItemsBalance(s, a, cap);
  }

  lemma ItemsBalance<T>(s: State<T>, a: Act<T>, cap: nat)
    requires Kinds(s) && Balanced(s, cap) && |s.pcs| == |s.rt.fibers|
    requires Enabled(s, a) && (a.Push? || a.Front? || a.Pop?)
    requires !a.Push? ==> s.items != []
    requires a.Pop? ==> s.items[0] == s.pcs[a.f].x
    ensures Kinds(Next(s, a)) && Balanced(Next(s, a), cap)
  {
    StaysBalanced(s, Next(s, a), a.f, cap);
  }

  lemma ItemsPcs<T>(s: State<T>, a: Act<T>, cap: nat)
    requires Inv(s, cap) && Enabled(s, a) && (a.Push? || a.Front? || a.Pop?)
    requires a.Front? ==> s.items != []
    ensures var s' := Next(s, a);
      && s'.rt == s.rt && |s'.pcs| == |s.pcs|
      && forall g :: 0 <= g < |s'.pcs| ==> PcInv(s', g)
  {
    var s' := Next(s, a);
    R.RunningIsInNoQueue(s.rt, a.f, MTX);
    forall g | 0 <= g < |s'.pcs|
      ensures PcInv(s', g)
    {
      assert PcInv(s, g) && PcInv(s, a.f);
      if s.pcs[g].RFront? {
        AloneInside(s, a.f, g, cap);
      }
    }
  }

  // ----- Main results ----------------------------------------------------------------------------

  /** A reader that got past `full.wait` finds an item. */
  lemma ReaderFindsItem<T>(s: State<T>, f: Fiber, cap: nat)
    requires Inv(s, cap) && f < |s.pcs| && In(s.pcs[f], TakesItem) && f !in Queue(s.rt.prims[FULL])
    ensures s.items != []
  {
    var q := s.rt.prims[FULL].waiters;
    assert R.Placed(s.rt, R.InQueue(FULL));
    forall g | g in q + [f]
      ensures g < |s.pcs| && In(s.pcs[g], TakesItem)
    {
      if g in q {
        assert g in R.At(s.rt, R.InQueue(FULL)) && R.TicketIs(s.rt, g, R.InQueue(FULL));
        assert PcInv(s, g);
      }
    }
    R.PushBack(q, f);
    CountAtLeast(s.pcs, TakesItem, q + [f]);
  }

  lemma StepKeepsInv<T>(s: State<T>, a: Act<T>, cap: nat)
    requires Inv(s, cap) && Enabled(s, a)
    ensures Inv(Next(s, a), cap)
  {
    match a
    case Runtime(l) => ForeignStep(s, l, cap);
    case BeginWrite(f, x) => BeginWriteStep(s, f, x, cap);
    case BeginRead(f) => BeginReadStep(s, f, cap);
    case LockMutex(f) => LockStep(s, f, cap);
    case UnlockMutex(f) => UnlockStep(s, f, cap);
    case EndWrite(f) => EndWriteStep(s, f, cap);
    case EndRead(f) => EndReadStep(s, f, cap);
    case _ => ItemsStep(s, a, cap);
  }

  ghost predicate Init<T>(s: State<T>, cap: nat) {
    && R.Init(s.rt)
    && |s.rt.prims| > FULL
    && s.rt.prims[SPACE] == Semaphore(cap, [])
    && s.rt.prims[MTX] == Mutex(false, [])
    && s.rt.prims[FULL] == Semaphore(0, [])
    && |s.pcs| == |s.rt.fibers| && (forall f :: 0 <= f < |s.pcs| ==> s.pcs[f] == Outside)
    && s.items == s.pushed == s.popped == []
  }

  ghost predicate ValidRun<T>(s: State<T>, run: seq<Act<T>>)
    decreases |run|
  {
    run == [] || (Enabled(s, run[0]) && ValidRun(Next(s, run[0]), run[1..]))
  }

  ghost function After<T>(s: State<T>, run: seq<Act<T>>): State<T>
    requires ValidRun(s, run)
    decreases |run|
  {
    if run == [] then s else After(Next(s, run[0]), run[1..])
  }

  lemma InitInv<T>(s: State<T>, cap: nat)
    requires Init(s, cap)
    ensures Inv(s, cap)
  {
    R.InitInv(s.rt);
    CountNone(s.pcs, TakesSpace);
    CountNone(s.pcs, OwesSpace);
    CountNone(s.pcs, TakesItem);
    CountNone(s.pcs, OwesItem);
  }

  lemma {:induction false} RunKeepsInv<T>(s: State<T>, run: seq<Act<T>>, cap: nat)
    requires Inv(s, cap) && ValidRun(s, run)
    ensures Inv(After(s, run), cap)
    decreases |run|
  {
    if run != [] {
      StepKeepsInv(s, run[0], cap);
      RunKeepsInv(Next(s, run[0]), run[1..], cap);
    }
  }

  /** What the channel promises of a state. */
  ghost predicate Safe<T>(s: State<T>, cap: nat) {
    && |s.items| <= cap
    && s.pushed == s.popped + s.items
    && (forall f :: 0 <= f < |s.pcs| ==> s.pcs[f] != Crashed)
    && (forall f: Fiber, g: Fiber :: Ready(s, f) && Ready(s, g) ==>
          InsideLock(s.pcs[f]) && InsideLock(s.pcs[g]) ==> f == g)
  }

  lemma InvIsSafe<T>(s: State<T>, cap: nat)
    requires Inv(s, cap)
    ensures Safe(s, cap)
  {
    ItemsFit(s, cap);
    forall f | 0 <= f < |s.pcs|
      ensures s.pcs[f] != Crashed
    {
      assert PcInv(s, f);
    }
    forall f: Fiber, g: Fiber | Ready(s, f) && Ready(s, g)
                                && InsideLock(s.pcs[f]) && InsideLock(s.pcs[g])
      ensures f == g
    {
      R.RunningIsInNoQueue(s.rt, f, MTX);
      R.RunningIsInNoQueue(s.rt, g, MTX);
      AloneInside(s, f, g, cap);
    }
  }

  /** Over every run, with any number of readers and writers: the channel never holds more than its
      capacity, no reader looks into an empty queue, values come out in the order they went in, none
      lost or doubled, and the readers and writers past `mtx.lock` exclude each other. */
  lemma ChannelSafety<T>(s0: State<T>, run: seq<Act<T>>, cap: nat)
    requires Init(s0, cap) && ValidRun(s0, run)
    ensures Safe(After(s0, run), cap)
  {
    InitInv(s0, cap);
    RunKeepsInv(s0, run, cap);
    InvIsSafe(After(s0, run), cap);
  }

  /** Queued writers are among the writers that count as taking space. */
  lemma ItemsFit<T>(s: State<T>, cap: nat)
    requires Inv(s, cap)
    ensures |s.items| <= cap
  {
    var q := s.rt.prims[SPACE].waiters;
    assert R.Placed(s.rt, R.InQueue(SPACE));
    forall g | g in q
      ensures g < |s.pcs| && In(s.pcs[g], TakesSpace)
    {
      assert g in R.At(s.rt, R.InQueue(SPACE)) && R.TicketIs(s.rt, g, R.InQueue(SPACE));
      assert PcInv(s, g);
    }
    CountAtLeast(s.pcs, TakesSpace, q);
  }
}
