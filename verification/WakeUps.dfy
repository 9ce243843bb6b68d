/**
 How a wake-up reaches its fiber.  A popped fiber is in somebody's hand, then in the signal queue of its
 own thread, then in the batch that the thread's loop resumes; each step of that loop brings it exactly
 one closer.
 */
module WakeUps {
  import opened Common
  import P = Primitives
  import opened FiberRuntime

  // ----- Who executes ----------------------------------------------------------------------------

  /** What a thread executes after a step. */
  ghost function CurrentAfter(s: State, l: Label, t: nat): Option<P.Fiber>
    requires Inv(s) && Enabled(s, l) && t < |s.threads|
  {
    match l
    case Start(f) => if s.fibers[f].home == t then Some(f) else s.threads[t].current
    case Yield(f) => if s.fibers[f].home == t then None else s.threads[t].current
    case Finish(f) => if s.fibers[f].home == t then None else s.threads[t].current
    case ResumeNext(u) => if u == t then Some(s.threads[u].batch[0]) else s.threads[t].current
    case FireTimer(u, i) => if u == t then Some(s.threads[u].sleepers[i]) else s.threads[t].current
    case _ => s.threads[t].current
  }

  /** What a fiber does after a step. */
  ghost function ModeAfter(s: State, l: Label, f: P.Fiber): Mode
    requires Inv(s) && Enabled(s, l) && f < |s.fibers|
  {
    var same := s.fibers[f].mode;
    match l
    case Start(g) => if g == f then Running else same
    case Section(g, p, op) => if g == f && P.Apply(s.prims[p], op, g).enqueued then Enrolled else same
    case Sleep(g) => if g == f then Enrolled else same
    case Yield(g) => if g == f then Suspended else same
    case Finish(g) => if g == f then Ended else same
    case Recycle(g) => if g == f then Fresh else same
    case ResumeNext(u) => if s.threads[u].batch[0] == f then Running else same
    case FireTimer(u, i) => if s.threads[u].sleepers[i] == f then Running else same
    case _ => same
  }

  /** Control goes to a fiber when it is started, resumed or fired, and back to the loop when it yields or
      ends; nobody else's thread and nobody else's mode is touched. */
  lemma ControlPasses(s: State, l: Label)
    requires Inv(s) && Enabled(s, l)
    ensures var s' := Next(s, l);
      && |s'.threads| == |s.threads| && |s'.fibers| == |s.fibers|
      && (forall t :: 0 <= t < |s.threads| ==> s'.threads[t].current == CurrentAfter(s, l, t))
      && (forall f :: 0 <= f < |s.fibers| ==> s'.fibers[f].mode == ModeAfter(s, l, f))
  {
    match l
    case Start(f) => assert FiberInv(s, f);
    case Yield(f) => assert FiberInv(s, f);
    case Finish(f) => assert FiberInv(s, f);
    case Deliver(f) =>
      var x := s.fibers[f].hand[0];
      assert Placed(s, InHand(f)) && x in At(s, InHand(f)) && TicketIs(s, x, InHand(f));
    case ResumeNext(t) => ResumeHitsSuspended(s, t);
    case FireTimer(t, i) => TimerHitsSuspended(s, t, i);
    case _ =>
  }

  // ----- Ranks -----------------------------------------------------------------------------------

  /** The position of a fiber in a queue. */
  function Pos(q: seq<P.Fiber>, f: P.Fiber): nat
    requires f in q
  {
    if q[0] == f then 0 else 1 + Pos(q[1..], f)
  }

  lemma {:induction false} PosInLonger(q: seq<P.Fiber>, f: P.Fiber, x: P.Fiber)
    requires f in q
    ensures Pos(q + [x], f) == Pos(q, f)
  {
    if q[0] != f {
      assert (q + [x])[1..] == q[1..] + [x];
      PosInLonger(q[1..], f, x);
    }
  }

  lemma {:induction false} PosOfLast(q: seq<P.Fiber>, x: P.Fiber)
    requires x !in q
    ensures Pos(q + [x], x) == |q|
  {
    if q != [] {
      assert (q + [x])[1..] == q[1..] + [x];
      PosOfLast(q[1..], x);
    }
  }

  /** The wake-up has reached the fiber's own thread. */
  ghost predicate Signalled(s: State, f: P.Fiber) {
    && f < |s.fibers| && s.fibers[f].home < |s.threads|
    && (s.fibers[f].ticket == InSignalQ(s.fibers[f].home) || s.fibers[f].ticket == InBatch(s.fibers[f].home))
    && f in At(s, s.fibers[f].ticket)
  }

  /** How many steps of its thread's loop come before the one that resumes the fiber. */
  ghost function LoopRank(s: State, f: P.Fiber): nat
    requires Signalled(s, f)
  {
    var th := s.threads[s.fibers[f].home];
    if s.fibers[f].ticket.InBatch? then Pos(th.batch, f) else |th.batch| + 1 + Pos(th.signalQ, f)
  }

  /** A step of the loop of thread `t` over its signalled fibers. */
  predicate LoopStep(l: Label, t: nat) {
    (l.Swap? || l.ResumeNext?) && l.t == t
  }

  lemma SignalledWhere(s: State, f: P.Fiber)
    requires Inv(s) && f < |s.fibers| && (s.fibers[f].ticket.InSignalQ? || s.fibers[f].ticket.InBatch?)
    ensures Signalled(s, f)
  {
    assert FiberInv(s, f) && Placed(s, s.fibers[f].ticket) && TicketIs(s, f, s.fibers[f].ticket);
  }

  /** As long as fibers are signalled, the loop has something to do whenever it has control. */
  lemma LoopGoesOn(s: State, f: P.Fiber)
    requires Inv(s) && Signalled(s, f) && AtLoop(s, s.fibers[f].home)
    ensures Enabled(s, Swap(s.fibers[f].home)) || Enabled(s, ResumeNext(s.fibers[f].home))
  {}

  /** A step of the loop of a signalled fiber's thread brings the fiber exactly one closer, and resumes it
      when it is next; no other step changes its place. */
  lemma OneCloser(s: State, l: Label, f: P.Fiber)
    requires Inv(s) && Enabled(s, l) && Signalled(s, f)
    ensures var s', t := Next(s, l), s.fibers[f].home;
      if !LoopStep(l, t) then Signalled(s', f) && s'.fibers[f].home == t && LoopRank(s', f) == LoopRank(s, f)
      else if LoopRank(s, f) > 0 then
        Signalled(s', f) && s'.fibers[f].home == t && LoopRank(s', f) == LoopRank(s, f) - 1
      else
        && f < |s'.fibers| && t < |s'.threads|
        && s'.fibers[f].mode == Running && s'.threads[t].current == Some(f)
  {
    match l
    case Section(g, p, op) => SectionLeavesSignalled(s, g, p, op, f);
    case Deliver(g) => DeliverLeavesSignalled(s, g, f);
    case Swap(u) => SwapIsCloser(s, u, f);
    case ResumeNext(u) => ResumeIsCloser(s, u, f);
    case FireTimer(u, i) => TimerHitsSuspended(s, u, i);
    case _ => QuietLeavesSignalled(s, l, f);
  }

  lemma QuietLeavesSignalled(s: State, l: Label, f: P.Fiber)
    requires Inv(s) && Enabled(s, l) && Signalled(s, f)
    requires l.Start? || l.Sleep? || l.Yield? || l.Finish? || l.Recycle?
    ensures var s' := Next(s, l);
      Signalled(s', f) && s'.fibers[f].home == s.fibers[f].home && LoopRank(s', f) == LoopRank(s, f)
  {
    assert FiberInv(s, f);
  }

  /** A section leaves a popped fiber where it is. */
  lemma SectionKeepsTicket(s: State, g: P.Fiber, p: nat, op: P.Op, f: P.Fiber)
    requires Inv(s) && Enabled(s, Section(g, p, op)) && f < |s.fibers| && Popped(s.fibers[f].ticket)
    ensures var s' := AfterSection(s, g, p, op);
      && s'.threads == s.threads && |s'.fibers| == |s.fibers|
      && s'.fibers[f].ticket == s.fibers[f].ticket && s'.fibers[f].home == s.fibers[f].home
  {
    assert FiberInv(s, f) && FiberInv(s, g);
    if f in P.Apply(s.prims[p], op, g).woken {
      PoppedWasQueued(s, g, p, op, f);
    }
  }

  lemma SectionLeavesSignalled(s: State, g: P.Fiber, p: nat, op: P.Op, f: P.Fiber)
    requires Inv(s) && Enabled(s, Section(g, p, op)) && Signalled(s, f)
    ensures var s' := AfterSection(s, g, p, op);
      Signalled(s', f) && s'.fibers[f].home == s.fibers[f].home && LoopRank(s', f) == LoopRank(s, f)
  {
    SectionKeepsTicket(s, g, p, op, f);
  }

  lemma DeliverLeavesSignalled(s: State, g: P.Fiber, f: P.Fiber)
    requires Inv(s) && Enabled(s, Deliver(g)) && Signalled(s, f)
    ensures var s' := AfterDeliver(s, g);
      Signalled(s', f) && s'.fibers[f].home == s.fibers[f].home && LoopRank(s', f) == LoopRank(s, f)
  {
    var x := s.fibers[g].hand[0];
    assert Placed(s, InHand(g)) && x in At(s, InHand(g)) && TicketIs(s, x, InHand(g));
    var t := s.fibers[f].home;
    if s.fibers[f].ticket == InSignalQ(t) {
      PosInLonger(s.threads[t].signalQ, f, x);
    }
  }

  lemma SwapIsCloser(s: State, u: nat, f: P.Fiber)
    requires Inv(s) && Enabled(s, Swap(u)) && Signalled(s, f)
    ensures var s', t := AfterSwap(s, u), s.fibers[f].home;
      && Signalled(s', f) && s'.fibers[f].home == t
      && (if u == t then LoopRank(s, f) > 0 && LoopRank(s', f) == LoopRank(s, f) - 1
          else LoopRank(s', f) == LoopRank(s, f))
  {
    assert Placed(s, InSignalQ(u));
    assert f in At(s, InSignalQ(u)) <==> TicketIs(s, f, InSignalQ(u));
  }

  lemma ResumeIsCloser(s: State, u: nat, f: P.Fiber)
    requires Inv(s) && Enabled(s, ResumeNext(u)) && Signalled(s, f)
    ensures var s', t := AfterResume(s, u), s.fibers[f].home;
      && f < |s'.fibers| && t < |s'.threads|
      && (if u != t then Signalled(s', f) && s'.fibers[f].home == t && LoopRank(s', f) == LoopRank(s, f)
          else if LoopRank(s, f) > 0 then
            Signalled(s', f) && s'.fibers[f].home == t && LoopRank(s', f) == LoopRank(s, f) - 1
          else s'.fibers[f].mode == Running && s'.threads[t].current == Some(f))
  {
    ResumeHitsSuspended(s, u);
    var b := s.threads[u].batch;
    assert Placed(s, InBatch(u)) && (f in At(s, InBatch(u)) <==> TicketIs(s, f, InBatch(u)));
  }

  // ----- In somebody's hand ----------------------------------------------------------------------

  /** A popped fiber comes one closer with each push of its holder, who can do nothing else meanwhile; when
      it is next it goes to the end of its own thread's signal queue.  No other step changes its place. */
  lemma HandMovesOn(s: State, l: Label, f: P.Fiber, g: P.Fiber)
    requires Inv(s) && Enabled(s, l) && TicketIs(s, f, InHand(g))
    ensures g < |s.fibers| && f in s.fibers[g].hand && Enabled(s, Deliver(g))
    ensures var s', hand := Next(s, l), s.fibers[g].hand;
      if l == Deliver(g) && hand[0] == f then
        && Signalled(s', f) && s.fibers[f].home < |s.threads|
        && LoopRank(s', f) == |s.threads[s.fibers[f].home].batch| + 1 + |s.threads[s.fibers[f].home].signalQ|
      else
        && TicketIs(s', f, InHand(g)) && g < |s'.fibers| && f in s'.fibers[g].hand
        && Pos(s'.fibers[g].hand, f) == Pos(hand, f) - Bit(l == Deliver(g))
  {
    PoppedWaiterIsPassedOn(s, f);
    assert Placed(s, InHand(g)) && f in At(s, InHand(g));
    match l
    case Section(h, p, op) => SectionLeavesHand(s, h, p, op, f, g);
    case Deliver(h) => DeliverMovesHand(s, h, f, g);
    case Swap(t) => LoopLeavesHand(s, l, f, g);
    case ResumeNext(t) => LoopLeavesHand(s, l, f, g);
    case FireTimer(t, i) => LoopLeavesHand(s, l, f, g);
    case _ => QuietLeavesHand(s, l, f, g);
  }

  lemma QuietLeavesHand(s: State, l: Label, f: P.Fiber, g: P.Fiber)
    requires Inv(s) && Enabled(s, l) && TicketIs(s, f, InHand(g)) && g < |s.fibers| && f in s.fibers[g].hand
    requires l.Start? || l.Sleep? || l.Yield? || l.Finish? || l.Recycle?
    ensures var s' := Next(s, l);
      TicketIs(s', f, InHand(g)) && g < |s'.fibers| && s'.fibers[g].hand == s.fibers[g].hand
  {
    assert FiberInv(s, f) && FiberInv(s, g);
  }

  lemma LoopLeavesHand(s: State, l: Label, f: P.Fiber, g: P.Fiber)
    requires Inv(s) && Enabled(s, l) && TicketIs(s, f, InHand(g)) && g < |s.fibers| && f in s.fibers[g].hand
    requires l.Swap? || l.ResumeNext? || l.FireTimer?
    ensures var s' := Next(s, l);
      TicketIs(s', f, InHand(g)) && g < |s'.fibers| && s'.fibers[g].hand == s.fibers[g].hand
  {
    match l
    case Swap(t) =>
      assert Placed(s, InSignalQ(t));
      assert f in At(s, InSignalQ(t)) <==> TicketIs(s, f, InSignalQ(t));
    case ResumeNext(t) => ResumeHitsSuspended(s, t);
    case FireTimer(t, i) => TimerHitsSuspended(s, t, i);
  }

  lemma SectionLeavesHand(s: State, h: P.Fiber, p: nat, op: P.Op, f: P.Fiber, g: P.Fiber)
    requires Inv(s) && Enabled(s, Section(h, p, op)) && TicketIs(s, f, InHand(g))
    requires g < |s.fibers| && f in s.fibers[g].hand
    ensures var s' := AfterSection(s, h, p, op);
      TicketIs(s', f, InHand(g)) && g < |s'.fibers| && s'.fibers[g].hand == s.fibers[g].hand
  {
    assert FiberInv(s, h);
    if f in P.Apply(s.prims[p], op, h).woken {
      PoppedWasQueued(s, h, p, op, f);
    }
  }

  lemma DeliverMovesHand(s: State, h: P.Fiber, f: P.Fiber, g: P.Fiber)
    requires Inv(s) && Enabled(s, Deliver(h)) && TicketIs(s, f, InHand(g))
    requires g < |s.fibers| && f in s.fibers[g].hand
    ensures var s', hand := AfterDeliver(s, h), s.fibers[g].hand;
      if h == g && hand[0] == f then
        && Signalled(s', f) && s.fibers[f].home < |s.threads|
        && LoopRank(s', f) == |s.threads[s.fibers[f].home].batch| + 1 + |s.threads[s.fibers[f].home].signalQ|
      else
        && TicketIs(s', f, InHand(g)) && g < |s'.fibers| && f in s'.fibers[g].hand
        && Pos(s'.fibers[g].hand, f) == Pos(hand, f) - Bit(h == g)
  {
    var x := s.fibers[h].hand[0];
    assert Placed(s, InHand(h)) && x in At(s, InHand(h)) && TicketIs(s, x, InHand(h));
    assert FiberInv(s, x);
    if h == g && x == f {
      var t := s.fibers[f].home;
      assert Placed(s, InSignalQ(t));
      assert f in At(s, InSignalQ(t)) <==> TicketIs(s, f, InSignalQ(t));
      PosOfLast(s.threads[t].signalQ, f);
    }
  }

  // ----- Over whole runs -------------------------------------------------------------------------

  /** How many steps the loop of thread `t` makes over its signalled fibers. */
  function LoopSteps(run: seq<Label>, t: nat): nat {
    if run == [] then 0 else Bit(LoopStep(run[0], t)) + LoopSteps(run[1..], t)
  }

  /** At some point of the run the fiber is running. */
  ghost predicate RunsOnce(s: State, run: seq<Label>, f: P.Fiber)
    requires ValidRun(s, run)
    decreases |run|
  {
    || (f < |s.fibers| && s.fibers[f].mode == Running)
    || (run != [] && RunsOnce(Next(s, run[0]), run[1..], f))
  }

  /** In any run: a signalled fiber is resumed by the step of its thread's loop after the `LoopRank` ones
      that come before it, whatever else happens in between. */
  lemma {:induction false} SignalledIsResumed(s: State, run: seq<Label>, f: P.Fiber)
    requires Inv(s) && ValidRun(s, run) && Signalled(s, f)
    requires LoopSteps(run, s.fibers[f].home) > LoopRank(s, f)
    ensures RunsOnce(s, run, f)
    decreases |run|
  {
    OneCloser(s, run[0], f);
    InvPreserved(s, run[0]);
    if LoopStep(run[0], s.fibers[f].home) && LoopRank(s, f) == 0 {
      assert RunsOnce(Next(s, run[0]), run[1..], f);
    } else {
      SignalledIsResumed(Next(s, run[0]), run[1..], f);
    }
  }

  /** A timer that fires resumes its fiber, and leaves the other sleepers asleep in their order. */
  lemma TimerResumes(s: State, t: nat, i: nat)
    requires Inv(s) && Enabled(s, FireTimer(t, i))
    ensures var s', q := Next(s, FireTimer(t, i)), s.threads[t].sleepers;
      && q[i] < |s'.fibers| && t < |s'.threads|
      && s'.fibers[q[i]].mode == Running && s'.fibers[q[i]].ticket == Nowhere
      && s'.threads[t].current == Some(q[i]) && s'.threads[t].sleepers == q[..i] + q[i + 1..]
  {
    TimerHitsSuspended(s, t, i);
  }
}
