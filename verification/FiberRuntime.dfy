/**
 The fibers of all threads as one step machine.

 A fiber runs on its home thread only.  What another thread can do is pop it from a primitive's
 queue and push it on its home thread's signal queue, at any moment after it queued itself: in
 particular before it yields.  Each spin-locked section is one step; popping a waiter, pushing it on
 a signal queue, and yielding are separate steps, and any steps of different threads interleave.

 Resuming checks nothing, as in the code: resuming a fiber that is not suspended leaves it `Broken`.
 */
module FiberRuntime {
  import opened Common
  import opened Primitives

  /** `Enrolled`: it put itself in a queue and has not yielded yet. */
  datatype Mode = Fresh | Running | Enrolled | Suspended | Ended | Broken

  /** Where the pending wake-up of a fiber is. */
  datatype Where =
    | Nowhere
    | InQueue(prim: nat)       // waiters of a primitive
    | InHand(holder: Fiber)    // popped by `holder`, which has yet to push it on a signal queue
    | InSignalQ(thread: nat)   // syncSignalFiberQ_ of a thread
    | InBatch(thread: nat)     // signaledFibers of a thread's loop
    | InWheel(thread: nat)     // a sleeping or polling fiber

  /** The blocking call a fiber is in. */
  datatype Pending = NoCall | Blocked(prim: nat, op: Op)

  /** `ticket`, `call`, `grants` and `resumes` are history: where the wake-up is, what it is for, how
      often the fiber was popped from a primitive's queue, and how often it was resumed from a
      signal queue. */
  datatype FiberRec = FiberRec(home: nat, mode: Mode, hand: seq<Fiber>,
                               ticket: Where, call: Pending, grants: nat, resumes: nat)

  /** `current` is the top of the thread's call stack above its main fiber. */
  datatype ThreadRec = ThreadRec(current: Option<Fiber>, signalQ: seq<Fiber>, batch: seq<Fiber>,
                                 sleepers: seq<Fiber>)

  datatype State = State(prims: seq<Prim>, owners: seq<Owners>,
                         fibers: seq<FiberRec>, threads: seq<ThreadRec>)

  datatype Label =
    | Start(f: Fiber)
    | Section(f: Fiber, p: nat, op: Op)
    | Deliver(f: Fiber)
    | Sleep(f: Fiber)
    | Yield(f: Fiber)
    | Swap(t: nat)
    | ResumeNext(t: nat)
    | FireTimer(t: nat, i: nat)
    | Finish(f: Fiber)
    | Recycle(f: Fiber)

  // ----- Steps -----------------------------------------------------------------------------------

  /** `f` is what its home thread executes. */
  predicate Active(s: State, f: Fiber) {
    && f < |s.fibers|
    && s.fibers[f].home < |s.threads|
    && s.threads[s.fibers[f].home].current == Some(f)
  }

  predicate AtLoop(s: State, t: nat) {
    t < |s.threads| && s.threads[t].current == None
  }

  /** Between its two halves, `condition_variable::wait` unlocks the mutex while already queued. */
  predicate UnlocksInWait(r: FiberRec) {
    r.mode == Enrolled && r.call.Blocked? && r.call.op == Register
  }

  ghost predicate Enabled(s: State, l: Label) {
    match l
    case Start(f) => f < |s.fibers| && s.fibers[f].mode == Fresh && AtLoop(s, s.fibers[f].home)
    case Section(f, p, op) =>
      && Active(s, f) && s.fibers[f].hand == []
      && p < |s.prims| && p < |s.owners|
      && Allowed(s.prims[p], op, f, s.owners[p])
      && (s.fibers[f].mode == Running || (UnlocksInWait(s.fibers[f]) && op == Unlock))
    case Deliver(f) => Active(s, f) && s.fibers[f].hand != []
    case Sleep(f) => Active(s, f) && s.fibers[f].mode == Running && s.fibers[f].hand == []
    case Yield(f) => Active(s, f) && s.fibers[f].mode == Enrolled && s.fibers[f].hand == []
    case Swap(t) => AtLoop(s, t) && s.threads[t].batch == []
    case ResumeNext(t) => AtLoop(s, t) && s.threads[t].batch != []
    case FireTimer(t, i) => AtLoop(s, t) && i < |s.threads[t].sleepers|
    case Finish(f) => Active(s, f) && s.fibers[f].mode == Running && s.fibers[f].hand == []
    case Recycle(f) => f < |s.fibers| && s.fibers[f].mode == Ended
  }

  function SetFiber(s: State, f: Fiber, r: FiberRec): State {
    if f < |s.fibers| then s.(fibers := s.fibers[f := r]) else s
  }

  function SetCurrent(s: State, t: nat, c: Option<Fiber>): State {
    if t < |s.threads| then s.(threads := s.threads[t := s.threads[t].(current := c)]) else s
  }

  /** The popped waiters, now in the hands of `g`. */
  function HandTo(fibers: seq<FiberRec>, g: Fiber, woken: seq<Fiber>): (r: seq<FiberRec>)
    ensures |r| == |fibers|
    ensures forall f :: 0 <= f < |r| ==>
      r[f] == if f in woken then fibers[f].(ticket := InHand(g), grants := fibers[f].grants + 1)
              else fibers[f]
  {
    seq(|fibers|, f requires 0 <= f < |fibers| =>
      if f in woken then fibers[f].(ticket := InHand(g), grants := fibers[f].grants + 1)
      else fibers[f])
  }

  /** Every fiber of `moved` gets ticket `w`. */
  function Ticketed(fibers: seq<FiberRec>, moved: seq<Fiber>, w: Where): (r: seq<FiberRec>)
    ensures |r| == |fibers|
    ensures forall f :: 0 <= f < |r| ==>
      r[f] == if f in moved then fibers[f].(ticket := w) else fibers[f]
  {
    seq(|fibers|, f requires 0 <= f < |fibers| =>
      if f in moved then fibers[f].(ticket := w) else fibers[f])
  }

  ghost function AfterSection(s: State, f: Fiber, p: nat, op: Op): State
    requires f < |s.fibers| && p < |s.prims| && p < |s.owners| && Fits(s.prims[p], op)
  {
    var e := Apply(s.prims[p], op, f);
    var own := OwnersAfter(s.prims[p], op, f, s.owners[p]);
    var handed := HandTo(s.fibers, f, e.woken);
    var self := handed[f].(hand := e.woken);
    var self' := if e.enqueued then self.(mode := Enrolled, ticket := InQueue(p), call := Blocked(p, op)) else self;
    s.(prims := s.prims[p := e.prim], owners := s.owners[p := own], fibers := handed[f := self'])
  }

  function AfterDeliver(s: State, f: Fiber): State
    requires f < |s.fibers| && s.fibers[f].hand != []
  {
    var me := s.fibers[f];
    var w := me.hand[0];
    if w >= |s.fibers| || s.fibers[w].home >= |s.threads| then s
    else
      var t := s.fibers[w].home;
      var s1 := SetFiber(s, f, me.(hand := me.hand[1..]));
      var s2 := SetFiber(s1, w, s1.fibers[w].(ticket := InSignalQ(t)));
      s2.(threads := s2.threads[t := s2.threads[t].(signalQ := s2.threads[t].signalQ + [w])])
  }

  function AfterSleep(s: State, f: Fiber): State
    requires Active(s, f)
  {
    var me := s.fibers[f];
    var t := me.home;
    SetFiber(s, f, me.(mode := Enrolled, ticket := InWheel(t)))
      .(threads := s.threads[t := s.threads[t].(sleepers := s.threads[t].sleepers + [f])])
  }

  /** Switching to a fiber: only a suspended one survives it. */
  function Switched(r: FiberRec): FiberRec {
    r.(mode := if r.mode == Suspended then Running else Broken, ticket := Nowhere, call := NoCall)
  }

  function AfterSwap(s: State, t: nat): State
    requires t < |s.threads|
  {
    var th := s.threads[t];
    s.(threads := s.threads[t := th.(signalQ := [], batch := th.signalQ)],
       fibers := Ticketed(s.fibers, th.signalQ, InBatch(t)))
  }

  function AfterResume(s: State, t: nat): State
    requires t < |s.threads| && s.threads[t].batch != []
  {
    var th := s.threads[t];
    var f := th.batch[0];
    if f >= |s.fibers| then s
    else
      var r := s.fibers[f];
      s.(threads := s.threads[t := th.(current := Some(f), batch := th.batch[1..])],
         fibers := s.fibers[f := Switched(r).(resumes := r.resumes + 1)])
  }

  function Without(q: seq<Fiber>, i: nat): seq<Fiber>
    requires i < |q|
  {
    q[..i] + q[i + 1..]
  }

  function AfterTimer(s: State, t: nat, i: nat): State
    requires t < |s.threads| && i < |s.threads[t].sleepers|
  {
    var th := s.threads[t];
    var f := th.sleepers[i];
    if f >= |s.fibers| then s
    else
      s.(threads := s.threads[t := th.(current := Some(f),
                                       sleepers := Without(th.sleepers, i))],
         fibers := s.fibers[f := Switched(s.fibers[f])])
  }

  ghost function Next(s: State, l: Label): State
    requires Enabled(s, l)
  {
    match l
    case Start(f) =>
      SetCurrent(SetFiber(s, f, s.fibers[f].(mode := Running)), s.fibers[f].home, Some(f))
    case Section(f, p, op) => AfterSection(s, f, p, op)
    case Deliver(f) => AfterDeliver(s, f)
    case Sleep(f) => AfterSleep(s, f)
    case Yield(f) =>
      SetCurrent(SetFiber(s, f, s.fibers[f].(mode := Suspended)), s.fibers[f].home, None)
    case Swap(t) => AfterSwap(s, t)
    case ResumeNext(t) => AfterResume(s, t)
    case FireTimer(t, i) => AfterTimer(s, t, i)
    case Finish(f) =>
      SetCurrent(SetFiber(s, f, s.fibers[f].(mode := Ended)), s.fibers[f].home, None)
    case Recycle(f) => SetFiber(s, f, s.fibers[f].(mode := Fresh))
  }

  // ----- The invariant ---------------------------------------------------------------------------

  /** The queue a ticket points into. */
  function At(s: State, w: Where): seq<Fiber> {
    match w
    case Nowhere => []
    case InQueue(p) => if p < |s.prims| then Queue(s.prims[p]) else []
    case InHand(g) => if g < |s.fibers| then s.fibers[g].hand else []
    case InSignalQ(t) => if t < |s.threads| then s.threads[t].signalQ else []
    case InBatch(t) => if t < |s.threads| then s.threads[t].batch else []
    case InWheel(t) => if t < |s.threads| then s.threads[t].sleepers else []
  }

  predicate TicketIs(s: State, f: Fiber, w: Where) {
    f < |s.fibers| && s.fibers[f].ticket == w
  }

  /** Each queue holds exactly the fibers whose ticket points there, once each. */
  ghost predicate Placed(s: State, w: Where) {
    Distinct(At(s, w)) && forall f :: f in At(s, w) <==> TicketIs(s, f, w)
  }

  ghost predicate TicketsInv(s: State) {
    forall w :: w != Nowhere ==> Placed(s, w)
  }

  predicate Popped(w: Where) {
    w.InHand? || w.InSignalQ? || w.InBatch?
  }

  ghost predicate FiberInv(s: State, f: Fiber)
    requires f < |s.fibers|
  {
    var r := s.fibers[f];
    && r.home < |s.threads|
    && r.mode != Broken
    && (r.mode == Enrolled || r.mode == Suspended <==> r.ticket != Nowhere)
    && (r.mode == Running || r.mode == Enrolled <==> s.threads[r.home].current == Some(f))
    && (r.hand != [] ==> r.mode == Running || r.mode == Enrolled)
    && (r.ticket.InSignalQ? || r.ticket.InBatch? || r.ticket.InWheel? ==> r.ticket.thread == r.home)
    && r.grants == r.resumes + (if Popped(r.ticket) then 1 else 0)
  }

  ghost predicate ThreadInv(s: State, t: nat)
    requires t < |s.threads|
  {
    var c := s.threads[t].current;
    c.Some? ==> c.value < |s.fibers| && s.fibers[c.value].home == t
  }

  /** A fiber that was popped from a lock's queue owns the lock. */
  ghost predicate Entitled(s: State, f: Fiber, p: nat, op: Op)
    requires p < |s.owners|
  {
    && (op == Lock ==> f in s.owners[p].writers)
    && (op == LockShared ==> f in s.owners[p].readers)
  }

  /** The call by which a queued fiber got into its queue. */
  function OpOf(p: Prim, f: Fiber): Op {
    match p
    case Mutex(_, _) => Lock
    case Shared(_, _, wq) => if f in wq then Lock else LockShared
    case Semaphore(_, _) => Wait
    case Condition(_) => Register
  }

  /** The pending call of a fiber agrees with where its wake-up is. */
  ghost predicate CallInv(s: State, f: Fiber)
    requires f < |s.fibers|
  {
    var r := s.fibers[f];
    && (r.call == NoCall <==> r.ticket == Nowhere || r.ticket.InWheel?)
    && (r.call.Blocked? ==> r.call.prim < |s.prims| && r.call.prim < |s.owners|)
    && (r.ticket.InQueue? ==>
          r.call.Blocked? && r.call.prim == r.ticket.prim && r.call.op == OpOf(s.prims[r.call.prim], f))
    && (r.call.Blocked? && Popped(r.ticket) ==> Entitled(s, f, r.call.prim, r.call.op))
  }

  ghost predicate CallsInv(s: State) {
    forall f :: 0 <= f < |s.fibers| ==> CallInv(s, f)
  }

  ghost predicate Inv(s: State) {
    && |s.owners| == |s.prims|
    && CallsInv(s)
    && (forall p {:trigger OwnInv(s.prims[p], s.owners[p])} :: 0 <= p < |s.prims| ==> OwnInv(s.prims[p], s.owners[p]))
    && TicketsInv(s)
    && (forall f :: 0 <= f < |s.fibers| ==> FiberInv(s, f))
    && (forall t :: 0 <= t < |s.threads| ==> ThreadInv(s, t))
  }

  // ----- Preservation: tickets -------------------------------------------------------------------

  lemma RemoveAt(q: seq<Fiber>, i: nat)
    requires i < |q| && Distinct(q)
    ensures Distinct(Without(q, i))
    ensures forall f :: f in Without(q, i) <==> f in q && f != q[i]
  {
    var q' := Without(q, i);
    assert forall j :: 0 <= j < |q'| ==> q'[j] == q[if j < i then j else j + 1];
    forall f | f in q && f != q[i]
      ensures f in q'
    {
      var j :| 0 <= j < |q| && q[j] == f;
      assert q'[if j < i then j else j - 1] == f;
    }
  }

  lemma PopFront(q: seq<Fiber>)
    requires q != [] && Distinct(q)
    ensures Distinct(q[1..])
    ensures forall f :: f in q[1..] <==> f in q && f != q[0]
  {
    RemoveAt(q, 0);
    assert Without(q, 0) == q[1..];
  }

  lemma PushBack(q: seq<Fiber>, x: Fiber)
    requires Distinct(q) && x !in q
    ensures Distinct(q + [x])
    ensures forall f :: f in q + [x] <==> f in q || f == x
  {}

  lemma SectionTickets(s: State, f: Fiber, p: nat, op: Op)
    requires Inv(s) && Enabled(s, Section(f, p, op))
    ensures TicketsInv(AfterSection(s, f, p, op))
  {
    var e := Apply(s.prims[p], op, f);
    QueueConservation(s.prims[p], op, f);
    assert Placed(s, InQueue(p)) && FiberInv(s, f);
    assert e.enqueued ==> !TicketIs(s, f, InQueue(p));
    QueueToHand(s, f, p, e, AfterSection(s, f, p, op));
  }

  lemma QueueToHand(s: State, f: Fiber, p: nat, e: Effect, s': State)
    requires TicketsInv(s) && f < |s.fibers| && p < |s.prims|
    requires var q := Queue(s.prims[p]); var added := if e.enqueued then [f] else [];
      Distinct(q + added) && Conserves(q, added, Queue(e.prim), e.woken)
    requires s.fibers[f].hand == []
    requires e.enqueued ==> e.woken == [] && s.fibers[f].ticket == Nowhere
    requires s'.threads == s.threads && s'.prims == s.prims[p := e.prim] && |s'.fibers| == |s.fibers|
    requires forall g :: 0 <= g < |s.fibers| ==>
      && s'.fibers[g].hand == (if g == f then e.woken else s.fibers[g].hand)
      && s'.fibers[g].ticket ==
           (if e.enqueued && g == f then InQueue(p) else if g in e.woken then InHand(f)
            else s.fibers[g].ticket)
    ensures TicketsInv(s')
  {
    assert Placed(s, InQueue(p)) && Placed(s, InHand(f));
    forall w | w != Nowhere
      ensures Placed(s', w)
    {
      assert Placed(s, w);
      assert w != InQueue(p) && w != InHand(f) ==> At(s', w) == At(s, w);
    }
  }

  lemma DeliverTickets(s: State, f: Fiber)
    requires Inv(s) && Enabled(s, Deliver(f))
    ensures TicketsInv(AfterDeliver(s, f))
  {
    var x := s.fibers[f].hand[0];
    assert Placed(s, InHand(f)) && x in At(s, InHand(f)) && TicketIs(s, x, InHand(f));
    assert FiberInv(s, x);
    forall w | w != Nowhere
      ensures Placed(AfterDeliver(s, f), w)
    {
      if w == InHand(f) {
        DeliverEmptiesHand(s, f, x);
      } else if w == InSignalQ(s.fibers[x].home) {
        DeliverSignals(s, f, x, s.fibers[x].home);
      } else {
        assert Placed(s, w);
        assert At(AfterDeliver(s, f), w) == At(s, w);
      }
    }
  }

  lemma DeliverEmptiesHand(s: State, f: Fiber, x: Fiber)
    requires TicketsInv(s) && f < |s.fibers| && s.fibers[f].hand != [] && x == s.fibers[f].hand[0]
    requires x < |s.fibers| && s.fibers[x].home < |s.threads|
    ensures Placed(AfterDeliver(s, f), InHand(f))
  {
    assert Placed(s, InHand(f));
    assert forall g :: g in At(s, InHand(f)) <==> TicketIs(s, g, InHand(f));
    PopFront(s.fibers[f].hand);
    assert At(AfterDeliver(s, f), InHand(f)) == s.fibers[f].hand[1..];
  }

  lemma DeliverSignals(s: State, f: Fiber, x: Fiber, t: nat)
    requires TicketsInv(s) && f < |s.fibers| && s.fibers[f].hand != [] && x == s.fibers[f].hand[0]
    requires TicketIs(s, x, InHand(f)) && t == s.fibers[x].home < |s.threads|
    ensures Placed(AfterDeliver(s, f), InSignalQ(t))
  {
    assert Placed(s, InSignalQ(t));
    assert forall g :: g in At(s, InSignalQ(t)) <==> TicketIs(s, g, InSignalQ(t));
    PushBack(s.threads[t].signalQ, x);
    assert At(AfterDeliver(s, f), InSignalQ(t)) == s.threads[t].signalQ + [x];
  }

  lemma SleepTickets(s: State, f: Fiber)
    requires Inv(s) && Enabled(s, Sleep(f))
    ensures TicketsInv(AfterSleep(s, f))
  {
    var s' := AfterSleep(s, f);
    assert FiberInv(s, f);
    var t := s.fibers[f].home;
    assert Placed(s, InWheel(t)) && !TicketIs(s, f, InWheel(t));
    PushBack(s.threads[t].sleepers, f);
    forall w | w != Nowhere
      ensures Placed(s', w)
    {
      assert Placed(s, w);
      assert w != InWheel(t) ==> At(s', w) == At(s, w);
    }
  }

  lemma SwapTickets(s: State, t: nat)
    requires Inv(s) && Enabled(s, Swap(t))
    ensures TicketsInv(AfterSwap(s, t))
  {
    forall w | w != Nowhere
      ensures Placed(AfterSwap(s, t), w)
    {
      if w == InSignalQ(t) {
        SwapEmptiesSignals(s, t);
      } else if w == InBatch(t) {
        SwapFillsBatch(s, t);
      } else {
        SwapElsewhere(s, t, w);
      }
    }
  }

  lemma SwapEmptiesSignals(s: State, t: nat)
    requires TicketsInv(s) && AtLoop(s, t)
    ensures Placed(AfterSwap(s, t), InSignalQ(t))
  {
    assert Placed(s, InSignalQ(t));
    assert At(AfterSwap(s, t), InSignalQ(t)) == [];
    assert forall f :: TicketIs(s, f, InSignalQ(t)) ==> f in At(s, InSignalQ(t));
  }

  lemma SwapFillsBatch(s: State, t: nat)
    requires TicketsInv(s) && AtLoop(s, t) && s.threads[t].batch == []
    ensures Placed(AfterSwap(s, t), InBatch(t))
  {
    var s' := AfterSwap(s, t);
    var q := s.threads[t].signalQ;
    assert Placed(s, InSignalQ(t)) && Placed(s, InBatch(t));
    forall f: Fiber
      ensures f in q <==> TicketIs(s', f, InBatch(t))
    {
      assert f in At(s, InSignalQ(t)) <==> TicketIs(s, f, InSignalQ(t));
      assert f in At(s, InBatch(t)) <==> TicketIs(s, f, InBatch(t));
    }
  }

  lemma SwapElsewhere(s: State, t: nat, w: Where)
    requires TicketsInv(s) && AtLoop(s, t) && w != Nowhere && w != InSignalQ(t) && w != InBatch(t)
    ensures Placed(AfterSwap(s, t), w)
  {
    assert Placed(s, w) && Placed(s, InSignalQ(t));
    assert At(AfterSwap(s, t), w) == At(s, w);
    assert forall f :: f in At(s, InSignalQ(t)) <==> TicketIs(s, f, InSignalQ(t));
  }

  lemma ResumeTickets(s: State, t: nat)
    requires Inv(s) && Enabled(s, ResumeNext(t))
    ensures TicketsInv(AfterResume(s, t))
  {
    var s' := AfterResume(s, t);
    var f := s.threads[t].batch[0];
    assert Placed(s, InBatch(t)) && f in At(s, InBatch(t)) && TicketIs(s, f, InBatch(t));
    PopFront(s.threads[t].batch);
    forall w | w != Nowhere
      ensures Placed(s', w)
    {
      assert Placed(s, w);
      assert w != InBatch(t) ==> At(s', w) == At(s, w);
    }
  }

  lemma TimerTickets(s: State, t: nat, i: nat)
    requires Inv(s) && Enabled(s, FireTimer(t, i))
    ensures TicketsInv(AfterTimer(s, t, i))
  {
    var s' := AfterTimer(s, t, i);
    var f := s.threads[t].sleepers[i];
    assert Placed(s, InWheel(t)) && f in At(s, InWheel(t)) && TicketIs(s, f, InWheel(t));
    var q := s.threads[t].sleepers;
    RemoveAt(q, i);
    assert At(s', InWheel(t)) == Without(q, i);
    forall w | w != Nowhere
      ensures Placed(s', w)
    {
      assert Placed(s, w);
      assert w != InWheel(t) ==> At(s', w) == At(s, w);
    }
  }

  lemma QuietTickets(s: State, l: Label)
    requires Inv(s) && Enabled(s, l) && (l.Start? || l.Yield? || l.Finish? || l.Recycle?)
    ensures TicketsInv(Next(s, l))
  {
    var s' := Next(s, l);
    forall w | w != Nowhere
      ensures Placed(s', w)
    {
      assert Placed(s, w);
      assert At(s', w) == At(s, w);
    }
  }

  lemma NextTickets(s: State, l: Label)
    requires Inv(s) && Enabled(s, l)
    ensures TicketsInv(Next(s, l))
  {
    match l
    case Section(f, p, op) => SectionTickets(s, f, p, op);
    case Deliver(f) => DeliverTickets(s, f);
    case Sleep(f) => SleepTickets(s, f);
    case Swap(t) => SwapTickets(s, t);
    case ResumeNext(t) => ResumeTickets(s, t);
    case FireTimer(t, i) => TimerTickets(s, t, i);
    case _ => QuietTickets(s, l);
  }

  // ----- Preservation: fibers and threads --------------------------------------------------------

  ghost predicate FibersInv(s: State) {
    && (forall f :: 0 <= f < |s.fibers| ==> FiberInv(s, f))
    && (forall t :: 0 <= t < |s.threads| ==> ThreadInv(s, t))
  }

  lemma PoppedWasQueued(s: State, f: Fiber, p: nat, op: Op, g: Fiber)
    requires Inv(s) && Enabled(s, Section(f, p, op))
    requires g in Apply(s.prims[p], op, f).woken
    ensures TicketIs(s, g, InQueue(p)) && g in Queue(s.prims[p])
    ensures !Apply(s.prims[p], op, f).enqueued
  {
    assert FiberInv(s, f) && Placed(s, InQueue(p));
    QueueConservation(s.prims[p], op, f);
    assert g in At(s, InQueue(p)) <==> TicketIs(s, g, InQueue(p));
  }

  lemma SectionFibers(s: State, f: Fiber, p: nat, op: Op)
    requires Inv(s) && Enabled(s, Section(f, p, op))
    ensures FibersInv(AfterSection(s, f, p, op))
  {
    var s' := AfterSection(s, f, p, op);
    forall g: Fiber | g < |s'.fibers|
      ensures FiberInv(s', g)
    {
      if g == f {
        SectionSelf(s, f, p, op);
      } else {
        SectionOther(s, f, p, op, g);
      }
    }
    forall t | 0 <= t < |s'.threads|
      ensures ThreadInv(s', t)
    {
      assert ThreadInv(s, t);
    }
  }

  lemma SectionSelf(s: State, f: Fiber, p: nat, op: Op)
    requires Inv(s) && Enabled(s, Section(f, p, op))
    ensures FiberInv(AfterSection(s, f, p, op), f)
  {
    assert FiberInv(s, f);
    if f in Apply(s.prims[p], op, f).woken {
      PoppedWasQueued(s, f, p, op, f);
    }
  }

  lemma SectionOther(s: State, f: Fiber, p: nat, op: Op, g: Fiber)
    requires Inv(s) && Enabled(s, Section(f, p, op)) && g < |s.fibers| && g != f
    ensures FiberInv(AfterSection(s, f, p, op), g)
  {
    assert FiberInv(s, g);
    if g in Apply(s.prims[p], op, f).woken {
      PoppedWasQueued(s, f, p, op, g);
    }
  }

  lemma DeliverFibers(s: State, f: Fiber)
    requires Inv(s) && Enabled(s, Deliver(f))
    ensures FibersInv(AfterDeliver(s, f))
  {
    var s' := AfterDeliver(s, f);
    var x := s.fibers[f].hand[0];
    assert FiberInv(s, f) && Placed(s, InHand(f));
    assert x in At(s, InHand(f)) && TicketIs(s, x, InHand(f));
    assert FiberInv(s, x);
    forall g | 0 <= g < |s'.fibers|
      ensures FiberInv(s', g)
    {
      assert FiberInv(s, g);
    }
    forall t | 0 <= t < |s'.threads|
      ensures ThreadInv(s', t)
    {
      assert ThreadInv(s, t);
    }
  }

  lemma SleepFibers(s: State, f: Fiber)
    requires Inv(s) && Enabled(s, Sleep(f))
    ensures FibersInv(AfterSleep(s, f))
  {
    var s' := AfterSleep(s, f);
    forall g | 0 <= g < |s'.fibers|
      ensures FiberInv(s', g)
    {
      assert FiberInv(s, g) && FiberInv(s, f);
    }
    forall t | 0 <= t < |s'.threads|
      ensures ThreadInv(s', t)
    {
      assert ThreadInv(s, t);
    }
  }

  lemma SwapFibers(s: State, t: nat)
    requires Inv(s) && Enabled(s, Swap(t))
    ensures FibersInv(AfterSwap(s, t))
  {
    var s' := AfterSwap(s, t);
    assert Placed(s, InSignalQ(t));
    forall g | 0 <= g < |s'.fibers|
      ensures FiberInv(s', g)
    {
      assert FiberInv(s, g);
      assert g in At(s, InSignalQ(t)) <==> TicketIs(s, g, InSignalQ(t));
    }
    forall u | 0 <= u < |s'.threads|
      ensures ThreadInv(s', u)
    {
      assert ThreadInv(s, u);
    }
  }

  lemma ResumeFibers(s: State, t: nat)
    requires Inv(s) && Enabled(s, ResumeNext(t))
    ensures FibersInv(AfterResume(s, t))
  {
    var s' := AfterResume(s, t);
    var f := s.threads[t].batch[0];
    ResumeHitsSuspended(s, t);
    forall g | 0 <= g < |s'.fibers|
      ensures FiberInv(s', g)
    {
      assert FiberInv(s, g);
    }
    forall u | 0 <= u < |s'.threads|
      ensures ThreadInv(s', u)
    {
      assert ThreadInv(s, u);
    }
  }

  lemma TimerFibers(s: State, t: nat, i: nat)
    requires Inv(s) && Enabled(s, FireTimer(t, i))
    ensures FibersInv(AfterTimer(s, t, i))
  {
    var s' := AfterTimer(s, t, i);
    TimerHitsSuspended(s, t, i);
    forall g | 0 <= g < |s'.fibers|
      ensures FiberInv(s', g)
    {
      assert FiberInv(s, g);
    }
    forall u | 0 <= u < |s'.threads|
      ensures ThreadInv(s', u)
    {
      assert ThreadInv(s, u);
    }
  }

  lemma QuietFibers(s: State, l: Label)
    requires Inv(s) && Enabled(s, l) && (l.Start? || l.Yield? || l.Finish? || l.Recycle?)
    ensures FibersInv(Next(s, l))
  {
    var s' := Next(s, l);
    forall g | 0 <= g < |s'.fibers|
      ensures FiberInv(s', g)
    {
      assert FiberInv(s, g) && FiberInv(s, l.f);
    }
    forall u | 0 <= u < |s'.threads|
      ensures ThreadInv(s', u)
    {
      assert ThreadInv(s, u);
      assert FiberInv(s, l.f);
    }
  }

  // ----- Preservation: calls ---------------------------------------------------------------------

  /** Whoever is popped from a lock's queue owns the lock at that moment. */
  lemma PoppedOwn(p: Prim, op: Op, self: Fiber, own: Owners, g: Fiber)
    requires Allowed(p, op, self, own) && Distinct(Queue(p))
    requires g in Apply(p, op, self).woken
    ensures var o := OwnersAfter(p, op, self, own);
      (OpOf(p, g) == Lock ==> g in o.writers) && (OpOf(p, g) == LockShared ==> g in o.readers)
  {
    if p.Mutex? {
      assert g == p.waiters[0];
    } else if p.Shared? {
      PoppedOwnShared(p, op, self, own, g);
    }
  }

  lemma PoppedOwnShared(p: Prim, op: Op, self: Fiber, own: Owners, g: Fiber)
    requires p.Shared? && Fits(p, op) && Distinct(Queue(p))
    requires g in Apply(p, op, self).woken
    ensures var o := OwnersAfter(p, op, self, own);
      (OpOf(p, g) == Lock ==> g in o.writers) && (OpOf(p, g) == LockShared ==> g in o.readers)
  {
    if p.wwaiters != [] {
      assert g == p.wwaiters[0] && OpOf(p, g) == Lock;
    } else {
      assert g in p.rwaiters && OpOf(p, g) == LockShared;
    }
  }

  /** A section does not move a waiter from one queue of the primitive to the other. */
  lemma StaysInItsQueue(p: Prim, op: Op, self: Fiber, g: Fiber)
    requires Fits(p, op) && Distinct(Queue(p))
    requires g in Queue(Apply(p, op, self).prim)
    ensures g in Queue(p) ==> g != self ==> OpOf(Apply(p, op, self).prim, g) == OpOf(p, g)
    ensures g !in Queue(p) ==> g == self && OpOf(Apply(p, op, self).prim, g) == op
  {
    if p.Shared? {
      var q := p.rwaiters + p.wwaiters;
      forall i, j | 0 <= i < |p.rwaiters| && 0 <= j < |p.wwaiters|
        ensures p.rwaiters[i] != p.wwaiters[j]
      {
        assert q[i] != q[|p.rwaiters| + j];
      }
    }
  }

  /** Nobody loses ownership but by unlocking. */
  lemma OthersKeepOwning(p: Prim, op: Op, self: Fiber, own: Owners, g: Fiber)
    requires Allowed(p, op, self, own) && g != self
    ensures var o := OwnersAfter(p, op, self, own);
      (g in own.writers ==> g in o.writers) && (g in own.readers ==> g in o.readers)
  {}

  lemma SectionCall(s: State, f: Fiber, p: nat, op: Op, g: Fiber)
    requires Inv(s) && Enabled(s, Section(f, p, op)) && g < |s.fibers|
    ensures CallInv(AfterSection(s, f, p, op), g)
  {
    assert CallInv(s, g) && FiberInv(s, f) && CallInv(s, f);
    if g in Apply(s.prims[p], op, f).woken {
      PoppedCall(s, f, p, op, g);
    } else if g == f {
      OwnCall(s, f, p, op);
    } else {
      OthersKeepOwning(s.prims[p], op, f, s.owners[p], g);
      if TicketIs(s, g, InQueue(p)) {
        QueuedCall(s, f, p, op, g);
      }
    }
  }

  lemma PoppedCall(s: State, f: Fiber, p: nat, op: Op, g: Fiber)
    requires Inv(s) && Enabled(s, Section(f, p, op)) && g < |s.fibers|
    requires g in Apply(s.prims[p], op, f).woken
    ensures CallInv(AfterSection(s, f, p, op), g)
  {
    PoppedWasQueued(s, f, p, op, g);
    assert CallInv(s, g) && Placed(s, InQueue(p));
    PoppedOwn(s.prims[p], op, f, s.owners[p], g);
  }

  lemma OwnCall(s: State, f: Fiber, p: nat, op: Op)
    requires Inv(s) && Enabled(s, Section(f, p, op))
    requires f !in Apply(s.prims[p], op, f).woken
    ensures CallInv(AfterSection(s, f, p, op), f)
  {
    assert CallInv(s, f) && FiberInv(s, f);
    if Apply(s.prims[p], op, f).enqueued {
      EnqueuedOp(s, f, p, op);
    }
  }

  lemma EnqueuedOp(s: State, f: Fiber, p: nat, op: Op)
    requires Inv(s) && Enabled(s, Section(f, p, op)) && Apply(s.prims[p], op, f).enqueued
    ensures OpOf(Apply(s.prims[p], op, f).prim, f) == op
  {
    assert FiberInv(s, f) && Placed(s, InQueue(p)) && !TicketIs(s, f, InQueue(p));
    QueueConservation(s.prims[p], op, f);
    StaysInItsQueue(s.prims[p], op, f, f);
  }

  lemma QueuedCall(s: State, f: Fiber, p: nat, op: Op, g: Fiber)
    requires Inv(s) && Enabled(s, Section(f, p, op)) && g < |s.fibers|
    requires g != f && g !in Apply(s.prims[p], op, f).woken && TicketIs(s, g, InQueue(p))
    ensures OpOf(Apply(s.prims[p], op, f).prim, g) == OpOf(s.prims[p], g)
  {
    assert Placed(s, InQueue(p)) && g in At(s, InQueue(p));
    QueueConservation(s.prims[p], op, f);
    StaysInItsQueue(s.prims[p], op, f, g);
  }

  /** What a step other than a section does to a fiber's call: it leaves it alone while the wake-up
      travels, or clears it when the fiber is resumed. */
  predicate Drift(r: FiberRec, r': FiberRec) {
    || (r'.call == r.call && (r'.ticket == r.ticket || (Popped(r.ticket) && Popped(r'.ticket))))
    || (!r.ticket.InQueue? && r'.call == NoCall && (r'.ticket == Nowhere || r'.ticket.InWheel?))
  }

  lemma QuietDrift(s: State, l: Label, g: Fiber)
    requires Inv(s) && Enabled(s, l) && !l.Section? && g < |s.fibers|
    ensures var s' := Next(s, l);
      s'.prims == s.prims && s'.owners == s.owners && |s'.fibers| == |s.fibers|
      && Drift(s.fibers[g], s'.fibers[g])
  {
    match l
    case Deliver(f) =>
      var x := s.fibers[f].hand[0];
      assert Placed(s, InHand(f)) && x in At(s, InHand(f)) && TicketIs(s, x, InHand(f));
    case Sleep(f) => assert FiberInv(s, f) && CallInv(s, f);
    case Swap(t) =>
      assert Placed(s, InSignalQ(t));
      assert g in At(s, InSignalQ(t)) <==> TicketIs(s, g, InSignalQ(t));
    case ResumeNext(t) => ResumeHitsSuspended(s, t);
    case FireTimer(t, i) => TimerHitsSuspended(s, t, i);
    case _ =>
  }

  lemma QuietCalls(s: State, l: Label)
    requires Inv(s) && Enabled(s, l) && !l.Section?
    ensures CallsInv(Next(s, l))
  {
    var s' := Next(s, l);
    forall g: Fiber | g < |s.fibers|
      ensures |s'.fibers| == |s.fibers| && Drift(s.fibers[g], s'.fibers[g])
      ensures s'.prims == s.prims && s'.owners == s.owners
    {
      QuietDrift(s, l, g);
    }
    DriftKeepsCalls(s, s');
  }

  lemma DriftKeepsCalls(s: State, s': State)
    requires Inv(s)
    requires s'.prims == s.prims && s'.owners == s.owners && |s'.fibers| == |s.fibers|
    requires forall g: Fiber :: g < |s.fibers| ==> Drift(s.fibers[g], s'.fibers[g])
    ensures CallsInv(s')
  {
    forall g | 0 <= g < |s'.fibers|
      ensures CallInv(s', g)
    {
      assert CallInv(s, g);
    }
  }

  // ----- Main results ----------------------------------------------------------------------------

  /** Although a waiter may be signalled before it yields, what a thread's loop takes from its signal
      queue is always a suspended fiber of that thread. */
  lemma ResumeHitsSuspended(s: State, t: nat)
    requires Inv(s) && Enabled(s, ResumeNext(t))
    ensures var f := s.threads[t].batch[0];
      f < |s.fibers| && s.fibers[f].mode == Suspended && s.fibers[f].home == t
      && s.fibers[f].ticket == InBatch(t) && s.fibers[f].hand == []
  {
    var f := s.threads[t].batch[0];
    assert Placed(s, InBatch(t)) && f in At(s, InBatch(t)) && TicketIs(s, f, InBatch(t));
    assert FiberInv(s, f);
  }

  lemma TimerHitsSuspended(s: State, t: nat, i: nat)
    requires Inv(s) && Enabled(s, FireTimer(t, i))
    ensures var f := s.threads[t].sleepers[i];
      f < |s.fibers| && s.fibers[f].mode == Suspended && s.fibers[f].home == t
      && s.fibers[f].ticket == InWheel(t) && s.fibers[f].hand == []
  {
    var f := s.threads[t].sleepers[i];
    assert Placed(s, InWheel(t)) && f in At(s, InWheel(t)) && TicketIs(s, f, InWheel(t));
    assert FiberInv(s, f);
  }

  /** Every step keeps the invariant. */
  lemma InvPreserved(s: State, l: Label)
    requires Inv(s) && Enabled(s, l)
    ensures Inv(Next(s, l))
  {
    NextTickets(s, l);
    NextCalls(s, l);
    NextFibers(s, l);
    NextOwners(s, l);
  }

  lemma NextCalls(s: State, l: Label)
    requires Inv(s) && Enabled(s, l)
    ensures CallsInv(Next(s, l))
  {
    if l.Section? {
      forall g: Fiber | g < |s.fibers| {
        SectionCall(s, l.f, l.p, l.op, g);
      }
    } else {
      QuietCalls(s, l);
    }
  }

  lemma NextFibers(s: State, l: Label)
    requires Inv(s) && Enabled(s, l)
    ensures FibersInv(Next(s, l))
  {
    match l
    case Section(f, p, op) => SectionFibers(s, f, p, op);
    case Deliver(f) => DeliverFibers(s, f);
    case Sleep(f) => SleepFibers(s, f);
    case Swap(t) => SwapFibers(s, t);
    case ResumeNext(t) => ResumeFibers(s, t);
    case FireTimer(t, i) => TimerFibers(s, t, i);
    case _ => QuietFibers(s, l);
  }

  lemma NextOwners(s: State, l: Label)
    requires Inv(s) && Enabled(s, l)
    ensures var s' := Next(s, l);
      |s'.owners| == |s'.prims| && forall p :: 0 <= p < |s'.prims| ==> OwnInv(s'.prims[p], s'.owners[p])
  {
    if l.Section? {
      OwnershipPreserved(s.prims[l.p], l.op, l.f, s.owners[l.p]);
    } else if |s.fibers| > 0 {
      QuietDrift(s, l, 0);
    }
  }

  // ----- Whole runs ------------------------------------------------------------------------------

  predicate Unused(p: Prim) {
    match p
    case Mutex(locked, q) => !locked && q == []
    case Shared(state, rq, wq) => state == 0 && rq == [] && wq == []
    case Semaphore(_, q) => q == []
    case Condition(q) => q == []
  }

  ghost predicate Init(s: State) {
    && |s.owners| == |s.prims|
    && (forall p :: 0 <= p < |s.prims| ==> Unused(s.prims[p]))
    && (forall p :: 0 <= p < |s.owners| ==> s.owners[p] == Owners(multiset{}, multiset{}))
    && (forall f :: 0 <= f < |s.fibers| ==>
          s.fibers[f].home < |s.threads| &&
          s.fibers[f] == FiberRec(s.fibers[f].home, Fresh, [], Nowhere, NoCall, 0, 0))
    && (forall t :: 0 <= t < |s.threads| ==> s.threads[t] == ThreadRec(None, [], [], []))
  }

  ghost predicate ValidRun(s: State, run: seq<Label>)
    decreases |run|
  {
    run == [] || (Enabled(s, run[0]) && ValidRun(Next(s, run[0]), run[1..]))
  }

  ghost function After(s: State, run: seq<Label>): State
    requires ValidRun(s, run)
    decreases |run|
  {
    if run == [] then s else After(Next(s, run[0]), run[1..])
  }

  lemma InitInv(s: State)
    requires Init(s)
    ensures Inv(s)
  {
    forall w | w != Nowhere
      ensures Placed(s, w)
    {
      assert At(s, w) == [];
    }
  }

  lemma {:induction false} RunKeepsInv(s: State, run: seq<Label>)
    requires Inv(s) && ValidRun(s, run)
    ensures Inv(After(s, run))
    decreases |run|
  {
    if run != [] {
      InvPreserved(s, run[0]);
      RunKeepsInv(Next(s, run[0]), run[1..]);
    }
  }

  /** Over every run: no fiber is ever resumed while it runs, a blocked or blocking fiber is in
      exactly one queue, in it once, and every other fiber in none; what a popped fiber was granted
      leads to exactly one resume. */
  lemma WakeSafety(s0: State, run: seq<Label>)
    requires Init(s0) && ValidRun(s0, run)
    ensures var s := After(s0, run);
      && (forall f :: 0 <= f < |s.fibers| ==> s.fibers[f].mode != Broken)
      && (forall w, v, i, j ::
            w != Nowhere && v != Nowhere && 0 <= i < |At(s, w)| && 0 <= j < |At(s, v)| ==>
            At(s, w)[i] == At(s, v)[j] ==> w == v && i == j)
      && (forall f: Fiber :: f < |s.fibers| ==>
            (s.fibers[f].mode == Enrolled || s.fibers[f].mode == Suspended
             <==> f in At(s, s.fibers[f].ticket)))
      && (forall f: Fiber :: f < |s.fibers| ==>
            s.fibers[f].resumes <= s.fibers[f].grants <= s.fibers[f].resumes + 1
            && (s.fibers[f].mode == Running ==> s.fibers[f].grants == s.fibers[f].resumes))
  {
    InitInv(s0);
    RunKeepsInv(s0, run);
    var s := After(s0, run);
    forall w, v, i, j | w != Nowhere && v != Nowhere && 0 <= i < |At(s, w)| && 0 <= j < |At(s, v)|
                        && At(s, w)[i] == At(s, v)[j]
      ensures w == v && i == j
    {
      OnePlace(s, w, v, At(s, w)[i]);
      assert Placed(s, w);
    }
    forall f: Fiber | f < |s.fibers|
      ensures FiberInv(s, f) && (f in At(s, s.fibers[f].ticket) <==> s.fibers[f].ticket != Nowhere)
    {
      assert FiberInv(s, f);
      if s.fibers[f].ticket != Nowhere {
        assert Placed(s, s.fibers[f].ticket) && TicketIs(s, f, s.fibers[f].ticket);
      }
    }
  }

  lemma OnePlace(s: State, w: Where, v: Where, f: Fiber)
    requires TicketsInv(s) && w != Nowhere && v != Nowhere && f in At(s, w) && f in At(s, v)
    ensures w == v
  {
    assert Placed(s, w) && Placed(s, v);
    assert TicketIs(s, f, w) && TicketIs(s, f, v);
  }

  /** Over every run: a mutex, and the exclusive side of a shared mutex, has at most one owner; a
      shared mutex has no writer beside readers, and its `state` says who is inside. */
  lemma LocksExclude(s0: State, run: seq<Label>, p: nat, f: Fiber, g: Fiber)
    requires Init(s0) && ValidRun(s0, run)
    requires var s := After(s0, run); p < |s.prims| && (s.prims[p].Mutex? || s.prims[p].Shared?)
    ensures var s := After(s0, run);
      && p < |s.owners|
      && (f in s.owners[p].writers && g in s.owners[p].writers ==> f == g)
      && (f in s.owners[p].writers ==> g !in s.owners[p].readers)
      && (s.prims[p].Shared? ==>
            if s.owners[p].writers != multiset{} then s.prims[p].state == -1
            else s.prims[p].state == |s.owners[p].readers|)
  {
    InitInv(s0);
    RunKeepsInv(s0, run);
    var s := After(s0, run);
    OwnersExclude(s.prims[p], s.owners[p], f, g);
  }

  /** Over every run: nobody waits for a free primitive, and readers wait for a shared mutex without a
      writer inside only behind a waiting writer. */
  lemma NobodyIsStranded(s0: State, run: seq<Label>, p: nat)
    requires Init(s0) && ValidRun(s0, run) && p < |After(s0, run).prims|
    ensures match After(s0, run).prims[p]
      case Mutex(locked, q) => q != [] ==> locked
      case Shared(state, rq, wq) =>
        (rq != [] || wq != [] ==> state != 0) && (rq != [] && state >= 0 ==> wq != [])
      case Semaphore(count, q) => q != [] ==> count == 0
      case Condition(_) => true
  {
    InitInv(s0);
    RunKeepsInv(s0, run);
    assert OwnInv(After(s0, run).prims[p], After(s0, run).owners[p]);
  }

  /** A blocking `lock()` or `lock_shared()` returns to an owner: when the loop resumes the caller,
      the lock was handed to it and nobody has taken it back. */
  lemma BlockedLockReturnsOwning(s: State, t: nat)
    requires Inv(s) && Enabled(s, ResumeNext(t))
    ensures var f := s.threads[t].batch[0]; var s' := Next(s, ResumeNext(t));
      && f < |s.fibers| && s.fibers[f].call.Blocked? && s.fibers[f].call.prim < |s'.owners|
      && s'.fibers[f].mode == Running
      && (s.fibers[f].call.op == Lock ==> f in s'.owners[s.fibers[f].call.prim].writers)
      && (s.fibers[f].call.op == LockShared ==> f in s'.owners[s.fibers[f].call.prim].readers)
  {
    ResumeHitsSuspended(s, t);
    assert CallInv(s, s.threads[t].batch[0]);
  }

  predicate ByFiber(l: Label, f: Fiber) {
    (l.Start? || l.Section? || l.Sleep? || l.Yield? || l.Finish? || l.Recycle?) && l.f == f
  }

  /** All that other fibers and the loop can do to a fiber's mode is to resume it. */
  lemma OthersOnlyResume(s: State, l: Label, f: Fiber)
    requires Inv(s) && Enabled(s, l) && f < |s.fibers| && !ByFiber(l, f)
    ensures |Next(s, l).fibers| == |s.fibers|
    ensures var r, r' := s.fibers[f], Next(s, l).fibers[f];
      (r'.mode == r.mode && r'.call == r.call) || (r.mode == Suspended && r'.mode == Running)
  {
    match l
    case Deliver(g) =>
      var x := s.fibers[g].hand[0];
      assert Placed(s, InHand(g)) && x in At(s, InHand(g)) && TicketIs(s, x, InHand(g));
    case ResumeNext(t) => ResumeHitsSuspended(s, t);
    case FireTimer(t, i) => TimerHitsSuspended(s, t, i);
    case _ =>
  }

  /** Running, about to yield, or waiting for something that is not a timer. */
  predicate Afoot(r: FiberRec) {
    (r.mode == Running || r.mode == Enrolled || r.mode == Suspended) && !r.ticket.InWheel?
  }

  /** Unless it sleeps, ends or enters a section, a fiber stays afoot, and its wake-up at most moves on. */
  lemma StaysAfoot(s: State, l: Label, f: Fiber)
    requires Inv(s) && Enabled(s, l) && f < |s.fibers| && Afoot(s.fibers[f])
    requires l.Section? || l.Sleep? || l.Finish? ==> l.f != f
    ensures |Next(s, l).fibers| == |s.fibers|
    ensures var r, r' := s.fibers[f], Next(s, l).fibers[f];
      Afoot(r') && (r'.ticket == r.ticket || r'.ticket == Nowhere || Popped(r'.ticket))
  {
    if !l.Section? {
      StaysAfootQuietly(s, l, f);
    }
  }

  lemma StaysAfootQuietly(s: State, l: Label, f: Fiber)
    requires Inv(s) && Enabled(s, l) && f < |s.fibers| && Afoot(s.fibers[f])
    requires !l.Section? && (l.Sleep? || l.Finish? ==> l.f != f)
    ensures |Next(s, l).fibers| == |s.fibers|
    ensures var r, r' := s.fibers[f], Next(s, l).fibers[f];
      Afoot(r') && (r'.ticket == r.ticket || r'.ticket == Nowhere || Popped(r'.ticket))
  {
    match l
    case Deliver(g) =>
      var x := s.fibers[g].hand[0];
      assert Placed(s, InHand(g)) && x in At(s, InHand(g)) && TicketIs(s, x, InHand(g));
    case ResumeNext(t) => ResumeHitsSuspended(s, t);
    case FireTimer(t, i) => TimerHitsSuspended(s, t, i);
    case _ =>
  }

  /** A section leaves its caller running, or queued on the section's primitive. */
  lemma SectionLeavesAfoot(s: State, f: Fiber, p: nat, op: Op)
    requires Inv(s) && Enabled(s, Section(f, p, op)) && s.fibers[f].mode == Running
    ensures var r := AfterSection(s, f, p, op).fibers[f];
      Afoot(r) && (r.ticket == Nowhere || r.ticket == InQueue(p))
  {
    assert FiberInv(s, f);
    if f in Apply(s.prims[p], op, f).woken {
      PoppedWasQueued(s, f, p, op, f);
    }
  }

  /** A primitive changes only in its own sections. */
  lemma SamePrims(s: State, l: Label, p: nat)
    requires Inv(s) && Enabled(s, l) && p < |s.prims| && (l.Section? ==> l.p != p)
    ensures var s' := Next(s, l);
      && |s'.prims| == |s.prims| && s'.prims[p] == s.prims[p]
      && |s'.owners| == |s.owners| && s'.owners[p] == s.owners[p]
      && |s'.fibers| == |s.fibers|
  {
    if !l.Section? && |s.fibers| > 0 {
      QuietDrift(s, l, 0);
    }
  }

  /** A popped waiter cannot be forgotten: it is in the hands of a fiber that is running and can do
      nothing before pushing it on, or already with its own thread. */
  lemma PoppedWaiterIsPassedOn(s: State, f: Fiber)
    requires Inv(s) && f < |s.fibers| && Popped(s.fibers[f].ticket)
    ensures var w := s.fibers[f].ticket;
      if w.InHand? then Active(s, w.holder) && Enabled(s, Deliver(w.holder))
      else w.thread == s.fibers[f].home && f in At(s, w)
  {
    var w := s.fibers[f].ticket;
    assert Placed(s, w) && TicketIs(s, f, w) && FiberInv(s, f);
    if w.InHand? {
      assert FiberInv(s, w.holder);
    }
  }

  /** A fiber that runs is queued nowhere. */
  lemma RunningIsInNoQueue(s: State, f: Fiber, p: nat)
    requires Inv(s) && f < |s.fibers| && s.fibers[f].mode == Running && p < |s.prims|
    ensures f !in Queue(s.prims[p]) && Distinct(Queue(s.prims[p]))
  {
    assert Placed(s, InQueue(p)) && FiberInv(s, f);
    assert f in At(s, InQueue(p)) <==> TicketIs(s, f, InQueue(p));
  }

  /** What unlocking a mutex changes, for its owners and for its queue. */
  lemma MutexUnlocked(s: State, f: Fiber, p: nat)
    requires Inv(s) && Enabled(s, Section(f, p, Unlock)) && s.prims[p].Mutex?
    ensures var s' := AfterSection(s, f, p, Unlock); var q := s.prims[p].waiters;
      && p < |s'.prims| && p < |s'.owners| && s'.prims[p].Mutex?
      && (forall g :: g in s'.owners[p].writers <==> q != [] && g == q[0])
      && (forall g :: g in s'.prims[p].waiters <==> g in q && g != q[0])
  {
    var q := s.prims[p].waiters;
    assert OwnInv(s.prims[p], s.owners[p]) && Placed(s, InQueue(p));
    UnlockOwners(s.prims[p], s.owners[p], f);
    if q != [] {
      PopFront(q);
    }
  }

  // ----- Bounded waiting -------------------------------------------------------------------------

  predicate ReleasesPrim(l: Label, p: nat) {
    l.Section? && l.p == p && IsRelease(l.op)
  }

  /** How often the run releases primitive `p`. */
  function ReleasesOn(run: seq<Label>, p: nat): nat {
    if run == [] then 0 else (if ReleasesPrim(run[0], p) then 1 else 0) + ReleasesOn(run[1..], p)
  }

  /** The fiber is in line for `p` before, throughout and after the run. */
  ghost predicate StaysInLine(s: State, run: seq<Label>, p: nat, f: Fiber)
    requires ValidRun(s, run)
    decreases |run|
  {
    && p < |s.prims| && f in Line(s.prims[p])
    && (run == [] || StaysInLine(Next(s, run[0]), run[1..], p, f))
  }

  /** One step: whoever stays in line keeps their place or moves up, strictly with a release if no
      reader leaves instead. */
  lemma StepMovesUp(s: State, l: Label, p: nat, i: nat) returns (k: nat)
    requires Inv(s) && Enabled(s, l) && p < |s.prims| && i < |Line(s.prims[p])|
    requires p < |Next(s, l).prims| && Line(s.prims[p])[i] in Line(Next(s, l).prims[p])
    ensures var s' := Next(s, l);
      && p < |s'.owners| && s'.owners[p].readers <= s.owners[p].readers
      && k < |Line(s'.prims[p])| && Line(s'.prims[p])[k] == Line(s.prims[p])[i]
      && k + ReadersAhead(s'.prims[p]) + (if ReleasesPrim(l, p) then 1 else 0) <= i + ReadersAhead(s.prims[p])
  {
    if l.Section? && l.p == p {
      var c := Call(l.op, l.f);
      CallsAreOrderly(s.prims[p], s.owners[p], c, i);
      if PlaceAfter(s.prims[p], c, i).Popped? {
        PoppedLeaves(s, l.f, p, l.op, Line(s.prims[p])[i]);
      }
      k := PlaceAfter(s.prims[p], c, i).i;
    } else {
      SamePrims(s, l, p);
      k := i;
    }
  }

  lemma PoppedLeaves(s: State, f: Fiber, p: nat, op: Op, g: Fiber)
    requires Inv(s) && Enabled(s, Section(f, p, op)) && g in Apply(s.prims[p], op, f).woken
    ensures g !in Queue(Apply(s.prims[p], op, f).prim)
  {
    PoppedWasQueued(s, f, p, op, g);
    QueueConservation(s.prims[p], op, f);
    assert Placed(s, InQueue(p));
    assert Queue(s.prims[p]) + [] == Queue(s.prims[p]);
  }

  lemma {:induction false} LineIsServed(s: State, run: seq<Label>, p: nat, i: nat)
    requires Inv(s) && ValidRun(s, run) && p < |s.prims| && i < |Line(s.prims[p])|
    requires StaysInLine(s, run, p, Line(s.prims[p])[i])
    ensures ReleasesOn(run, p) <= i + ReadersAhead(s.prims[p])
    ensures p < |After(s, run).owners| && After(s, run).owners[p].readers <= s.owners[p].readers
    decreases |run|
  {
    if run != [] {
      var k := StepMovesUp(s, run[0], p, i);
      InvPreserved(s, run[0]);
      LineIsServed(Next(s, run[0]), run[1..], p, k);
    }
  }

  /** Bounded bypass in any run of any number of fibers and threads: while a fiber with `i` others in front
      stays in line for a primitive, that is released at most `i` times plus once for each reader inside
      but one, so that the next release pops the fiber; and while a writer waits no new reader gets in. */
  lemma ServedInTime(s0: State, before: seq<Label>, s: State, run: seq<Label>, p: nat, i: nat)
    requires Init(s0) && ValidRun(s0, before) && s == After(s0, before) && ValidRun(s, run)
    requires p < |s.prims| && i < |Line(s.prims[p])|
    requires StaysInLine(s, run, p, Line(s.prims[p])[i])
    ensures ReleasesOn(run, p) <= i + ReadersAhead(s.prims[p])
    ensures p < |s.owners| && p < |After(s, run).owners|
    ensures After(s, run).owners[p].readers <= s.owners[p].readers
  {
    InitInv(s0);
    RunKeepsInv(s0, before);
    LineIsServed(s, run, p, i);
  }
}
