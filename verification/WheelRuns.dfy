/**
 Whole runs of a thread's timing wheel: any sequence of additions and turns of the loop, carried out on
 the heap, and what it amounts to for the plain set of deadlines.
 */
module WheelRuns {
  import opened Common
  import opened TimeoutList
  import opened MachineInts
  import opened WheelArithmetic
  import opened TimingWheel
  import opened DispatchRound
  import T = TimerRuns

  /** What happens to the wheel: a fiber that is not being dispatched adds an item, or the loop turns. */
  datatype Step =
    | Add(item: TimeoutItem, now: nat)
    | Turn(now: nat, ready: seq<TimeoutItem>, naps: seq<Nap>, beds: seq<TimeoutItem>)

  // ----- The steps on the set of pending items ---------------------------------------------------

  /** The items a step brings with it. */
  ghost function ItemsOf(s: Step): set<TimeoutItem> {
    match s
    case Add(item, _) => {item}
    case Turn(_, _, _, beds) => set x | x in beds
  }

  ghost function Items(steps: seq<Step>): set<TimeoutItem> {
    if steps == [] then {} else ItemsOf(steps[0]) + Items(steps[1..])
  }

  /** What a turn has to fire. */
  ghost function Due(p: set<TimeoutItem>, ready: seq<TimeoutItem>, now: nat): set<TimeoutItem> {
    set x | x in p && (x in ready || x.expire <= now)
  }

  ghost predicate StepOk(p: set<TimeoutItem>, start: nat, size: nat, s: Step) {
    match s
    case Add(item, now) => 0 < now < TWO63 && item.expire < TWO64
    case Turn(now, ready, naps, beds) =>
      && start <= now < TWO63 && GapOk(now - start, size)
      && (forall x :: x in ready ==> x in p)
      && BedsOk(naps, beds, now)
  }

  ghost function StartAfter(start: nat, s: Step): nat {
    if s.Turn? then s.now else start
  }

  /** Additions that are not past, firings, and the fibers that went to sleep when fired. */
  ghost function PendingAfter(p: set<TimeoutItem>, start: nat, s: Step): set<TimeoutItem>
    requires s.Turn? ==> |s.beds| == |s.naps|
  {
    match s
    case Add(item, now) => if start <= now <= item.expire then p + {item} else p
    case Turn(now, ready, naps, beds) =>
      p - Due(p, ready, now) + Sleepers(naps, beds, |Due(p, ready, now)|)
  }

  /** The environment keeps to its side in every step: in turns the clock does not go back nor jump too
      far, only pending pollers become ready, and every item is new. */
  ghost predicate Possible(p: set<TimeoutItem>, known: set<TimeoutItem>, start: nat, size: nat, steps: seq<Step>)
    decreases |steps|
  {
    steps == [] ||
    (StepOk(p, start, size, steps[0]) && ItemsOf(steps[0]) !! known &&
     Possible(PendingAfter(p, start, steps[0]), known + ItemsOf(steps[0]), StartAfter(start, steps[0]), size,
              steps[1..]))
  }

  ghost function PendingAtEnd(p: set<TimeoutItem>, known: set<TimeoutItem>, start: nat, size: nat,
                              steps: seq<Step>): set<TimeoutItem>
    requires Possible(p, known, start, size, steps)
    decreases |steps|
  {
    if steps == [] then p
    else
      PendingAtEnd(PendingAfter(p, start, steps[0]), known + ItemsOf(steps[0]), StartAfter(start, steps[0]), size,
                   steps[1..])
  }

  lemma {:induction false} NewItemsAreUnknown(p: set<TimeoutItem>, known: set<TimeoutItem>, start: nat, size: nat,
                                              steps: seq<Step>)
    requires Possible(p, known, start, size, steps)
    ensures Items(steps) !! known
    decreases |steps|
  {
    if steps != [] {
      NewItemsAreUnknown(PendingAfter(p, start, steps[0]), known + ItemsOf(steps[0]),
                         StartAfter(start, steps[0]), size, steps[1..]);
    }
  }

  // ----- The steps on the timers -----------------------------------------------------------------

  /** The deadlines of a set of items. */
  ghost function Deadlines(p: set<TimeoutItem>): map<TimeoutItem, nat> {
    map x | x in p :: x.expire
  }

  /** The event of the timers that a step is. */
  ghost predicate Matches(s: Step, e: T.Event<TimeoutItem>) {
    match s
    case Add(item, now) => e == T.Add(item, item.expire, now)
    case Turn(now, ready, naps, beds) =>
      |beds| == |naps| && e.Round? && e.now == now && e.ready == ready
      && e.added == Deadlines(Sleepers(naps, beds, |e.fired|))
  }

  /** The timers say of the wheel what is pending, and since when. */
  ghost predicate Linked(t: T.Timers<TimeoutItem>, wheel: StTimeout)
    reads wheel
  {
    t.pending == Deadlines(wheel.pending) && t.last == wheel.start
  }

  /** What `StTimeout.AddTimeout` promises of the wheel is an addition. */
  lemma AddRefinesTimers(t: T.Timers<TimeoutItem>, p0: set<TimeoutItem>, item: TimeoutItem, now: nat)
    requires t.pending == Deadlines(p0) && item !in t.known
    ensures var e := T.Add(item, item.expire, now);
      T.Enabled(t, e) && T.Next(t, e).pending == Deadlines(PendingAfter(p0, t.last, Add(item, now)))
  {}

  /** What `Round` promises of the wheel is one round of the timers. */
  lemma RoundRefinesTimers(t: T.Timers<TimeoutItem>, p0: set<TimeoutItem>, s: Step, fired: seq<TimeoutItem>)
    requires s.Turn? && t.pending == Deadlines(p0) && t.last <= s.now && BedsOk(s.naps, s.beds, s.now)
    requires FiredRightly(p0, s.ready, s.now, fired)
    requires forall x :: x in s.beds ==> x !in t.known
    ensures var e := T.Round(s.now, s.ready, fired, Deadlines(Sleepers(s.naps, s.beds, |fired|)));
      T.Enabled(t, e) && T.Next(t, e).pending == Deadlines(PendingAfter(p0, t.last, s))
  {
    FiredIsDue(p0, s.ready, s.now, fired);
  }

  lemma FiredIsDue(p: set<TimeoutItem>, ready: seq<TimeoutItem>, now: nat, fired: seq<TimeoutItem>)
    requires FiredRightly(p, ready, now, fired)
    ensures (set x | x in fired) == Due(p, ready, now) && |Due(p, ready, now)| == |fired|
  {
    SizeOfDistinct(fired);
  }

  lemma {:induction false} SizeOfDistinct(q: seq<TimeoutItem>)
    requires Distinct(q)
    ensures |set x | x in q| == |q|
  {
    if q != [] {
      var k := |q| - 1;
      SizeOfDistinct(q[..k]);
      assert q == q[..k] + [q[k]];
      assert (set x | x in q) == (set x | x in q[..k]) + {q[k]};
    }
  }

  // ----- On the heap -----------------------------------------------------------------------------

  /** Nothing has happened to these items yet. */
  ghost predicate AllNew(items: set<TimeoutItem>)
    reads items
  {
    forall x :: x in items ==> x.link == null && !x.bTimeout && !x.detached && x.raiseCnt == 0
  }

  /** An addition made outside the dispatch. */
  method DoAdd(wheel: StTimeout, s: Step, ghost rest: set<TimeoutItem>, ghost t: T.Timers<TimeoutItem>)
    returns (ghost e: T.Event<TimeoutItem>)
    requires wheel.Valid() && wheel.start > 0 && Arrived(wheel.pending, [])
    requires s.Add? && StepOk(wheel.pending, wheel.start, wheel.size, s) && Linked(t, wheel)
    requires s.item !in t.known && AllNew({s.item}) && AllNew(rest) && s.item !in rest
    modifies wheel`start, wheel`startIdx, wheel`pending, wheel.slots, wheel.pending`next, s.item
    ensures wheel.Valid() && wheel.start == old(wheel.start) && Arrived(wheel.pending, [])
    ensures wheel.pending == PendingAfter(old(wheel.pending), wheel.start, s)
    ensures AllNew(rest)
    ensures Matches(s, e) && T.Enabled(t, e) && Linked(T.Next(t, e), wheel)
  {
    AddRefinesTimers(t, wheel.pending, s.item, s.now);
    e := T.Add(s.item, s.item.expire, s.now);
    ghost var p := PendingAfter(wheel.pending, wheel.start, s);
    assert forall x :: x in p ==> !x.bTimeout && !x.detached && x.raiseCnt == 0;
    var ret := wheel.AddTimeout(s.item, s.now);
    assert wheel.pending == p;
  }

  /** A turn of the loop. */
  method DoTurn(wheel: StTimeout, s: Step, ghost rest: set<TimeoutItem>, ghost t: T.Timers<TimeoutItem>)
    returns (fired: seq<TimeoutItem>, ghost e: T.Event<TimeoutItem>)
    requires wheel.Valid() && wheel.start > 0 && Arrived(wheel.pending, [])
    requires s.Turn? && StepOk(wheel.pending, wheel.start, wheel.size, s) && Linked(t, wheel)
    requires (forall x :: x in s.beds ==> x !in t.known && x !in rest) && AllNew(ItemsOf(s)) && AllNew(rest)
    modifies wheel`start, wheel`startIdx, wheel`pending, wheel.slots, wheel.pending, s.beds
    ensures wheel.Valid() && wheel.start == s.now && Arrived(wheel.pending, [])
    ensures wheel.pending == PendingAfter(old(wheel.pending), old(wheel.start), s)
    ensures AllNew(rest)
    ensures Matches(s, e) && T.Enabled(t, e) && Linked(T.Next(t, e), wheel) && e.fired == fired
  {
    ghost var p0 := wheel.pending;
    wheel.PendingInSlots();
    assert rest !! p0;
    assert BedsFree(s.beds, 0) && BedsNew(s.beds) by {
      assert forall x :: x in s.beds ==> x in ItemsOf(s);
    }
    fired := Round(wheel, s.now, s.ready, s.naps, s.beds);
    FiredIsDue(p0, s.ready, s.now, fired);
    assert wheel.pending == PendingAfter(p0, old(wheel.start), s);
    RoundRefinesTimers(t, p0, s, fired);
    e := T.Round(s.now, s.ready, fired, Deadlines(Sleepers(s.naps, s.beds, |fired|)));
  }

  /** Where a run stands after its first `i` steps. */
  ghost predicate Standing(wheel: StTimeout, steps: seq<Step>, known: set<TimeoutItem>,
                           all: set<TimeoutItem>, goal: set<TimeoutItem>)
    reads wheel, wheel.slots, wheel.pending, Items(steps)
    reads wheel.pending`prev, wheel.pending`next, wheel.pending`link
  {
    && wheel.Valid() && wheel.start > 0 && Arrived(wheel.pending, [])
    && Possible(wheel.pending, known, wheel.start, wheel.size, steps)
    && PendingAtEnd(wheel.pending, known, wheel.start, wheel.size, steps) == goal
    && wheel.pending <= all && Items(steps) <= all && AllNew(Items(steps))
  }

  method DoStep(wheel: StTimeout, s: Step, ghost rest: seq<Step>, ghost known: set<TimeoutItem>,
                ghost all: set<TimeoutItem>, ghost goal: set<TimeoutItem>, ghost t: T.Timers<TimeoutItem>)
    returns (fired: seq<TimeoutItem>, ghost e: T.Event<TimeoutItem>)
    requires Standing(wheel, [s] + rest, known, all, goal)
    requires Linked(t, wheel) && t.known.Keys <= known
    modifies wheel`start, wheel`startIdx, wheel`pending, wheel.slots, all
    ensures Standing(wheel, rest, known + ItemsOf(s), all, goal)
    ensures Matches(s, e) && T.Enabled(t, e) && Linked(T.Next(t, e), wheel)
    ensures T.Next(t, e).known.Keys <= known + ItemsOf(s)
    ensures fired == if s.Turn? then e.fired else []
  {
    ghost var p := wheel.pending;
    assert ([s] + rest)[1..] == rest;
    NewItemsAreUnknown(PendingAfter(p, wheel.start, s), known + ItemsOf(s), StartAfter(wheel.start, s), wheel.size,
                       rest);
    fired := [];
    if s.Turn? {
      fired, e := DoTurn(wheel, s, Items(rest), t);
    } else {
      e := DoAdd(wheel, s, Items(rest), t);
    }
  }

  /** The firings recorded after `t0`, in order. */
  ghost predicate Logged(t0: T.Timers<TimeoutItem>, t: T.Timers<TimeoutItem>, fired: seq<TimeoutItem>) {
    && |t.log| == |t0.log| + |fired| && t0.log <= t.log
    && forall j :: 0 <= j < |fired| ==> t.log[|t0.log| + j].x == fired[j]
  }

  lemma LogStep(t0: T.Timers<TimeoutItem>, t: T.Timers<TimeoutItem>, fired: seq<TimeoutItem>,
                s: Step, e: T.Event<TimeoutItem>, more: seq<TimeoutItem>)
    requires Logged(t0, t, fired) && Matches(s, e) && T.Enabled(t, e)
    requires more == if s.Turn? then e.fired else []
    ensures Logged(t0, T.Next(t, e), fired + more)
  {
    if s.Turn? {
      T.LogAfter(t, e);
    }
  }

  /** What the run of the timers says of the first `i` steps. */
  ghost predicate Told(t0: T.Timers<TimeoutItem>, run: seq<T.Event<TimeoutItem>>, steps: seq<Step>, i: nat,
                       fired: seq<TimeoutItem>, known: set<TimeoutItem>)
  {
    && |run| == i <= |steps| && (forall j :: 0 <= j < i ==> Matches(steps[j], run[j]))
    && T.ValidRun(t0, run)
    && T.After(t0, run).known.Keys <= known && Logged(t0, T.After(t0, run), fired)
  }

  lemma TellOne(t0: T.Timers<TimeoutItem>, run: seq<T.Event<TimeoutItem>>, steps: seq<Step>, i: nat,
                fired: seq<TimeoutItem>, known: set<TimeoutItem>,
                e: T.Event<TimeoutItem>, more: seq<TimeoutItem>)
    requires Told(t0, run, steps, i, fired, known) && i < |steps|
    requires Matches(steps[i], e) && more == if steps[i].Turn? then e.fired else []
    requires T.Enabled(T.After(t0, run), e)
    requires T.Next(T.After(t0, run), e).known.Keys <= known + ItemsOf(steps[i])
    ensures Told(t0, run + [e], steps, i + 1, fired + more, known + ItemsOf(steps[i]))
    ensures T.After(t0, run + [e]) == T.Next(T.After(t0, run), e)
  {
    LogStep(t0, T.After(t0, run), fired, steps[i], e, more);
    T.RunThenOne(t0, run, e);
  }

  lemma FirstOfRest(steps: seq<Step>, i: nat)
    requires i < |steps|
    ensures steps[i..] == [steps[i]] + steps[i + 1..]
  {}

  /** Any run of additions and turns.  What is pending at the end is what the steps leave of the plain
      set; the run is one of the timers, so nothing fired early, nothing was lost, and nothing fired
      twice; `fired` is all that was fired, in order. */
  method Run(wheel: StTimeout, steps: seq<Step>, ghost known: set<TimeoutItem>, ghost t0: T.Timers<TimeoutItem>)
    returns (fired: seq<TimeoutItem>, ghost run: seq<T.Event<TimeoutItem>>)
    requires wheel.Valid() && wheel.start > 0 && Arrived(wheel.pending, [])
    requires Possible(wheel.pending, known, wheel.start, wheel.size, steps) && AllNew(Items(steps))
    requires Linked(t0, wheel) && t0.known.Keys <= known && T.Punctual(t0)
    modifies wheel`start, wheel`startIdx, wheel`pending, wheel.slots, wheel.pending, Items(steps)
    ensures wheel.Valid() && Arrived(wheel.pending, [])
    ensures wheel.pending == PendingAtEnd(old(wheel.pending), known, old(wheel.start), wheel.size, steps)
    ensures |run| == |steps| && forall i :: 0 <= i < |steps| ==> Matches(steps[i], run[i])
    ensures T.ValidRun(t0, run) && Linked(T.After(t0, run), wheel)
    ensures T.Punctual(T.After(t0, run)) && Logged(t0, T.After(t0, run), fired)
  {
    ghost var all := wheel.pending + Items(steps);
    ghost var goal := PendingAtEnd(wheel.pending, known, wheel.start, wheel.size, steps);
    ghost var seen := known;
    fired, run := [], [];
    var i := 0;
    assert steps[0..] == steps;
    while i < |steps|
      invariant 0 <= i <= |steps|
      invariant Standing(wheel, steps[i..], seen, all, goal)
      invariant Told(t0, run, steps, i, fired, seen) && Linked(T.After(t0, run), wheel)
    {
      FirstOfRest(steps, i);
      ghost var e;
      var more;
      more, e := DoStep(wheel, steps[i], steps[i + 1..], seen, all, goal, T.After(t0, run));
      TellOne(t0, run, steps, i, fired, seen, e, more);
      fired, run, seen := fired + more, run + [e], seen + ItemsOf(steps[i]);
      i := i + 1;
    }
    T.RunsArePunctual(t0, run);
  }

  lemma {:induction false} ItemsExist(steps: seq<Step>)
    ensures forall x :: x in Items(steps) ==> allocated(x)
  {
    if steps != [] {
      ItemsExist(steps[1..]);
    }
  }

  /** From a new wheel on. */
  method RunFromStart(size: nat, now: nat, steps: seq<Step>)
    returns (wheel: StTimeout, fired: seq<TimeoutItem>, ghost run: seq<T.Event<TimeoutItem>>)
    requires 0 < size < TWO31 && 0 < now < TWO63
    requires Possible({}, {}, now, size, steps) && AllNew(Items(steps))
    modifies Items(steps)
    ensures fresh(wheel) && wheel.Valid() && wheel.pending == PendingAtEnd({}, {}, now, size, steps)
    ensures |run| == |steps| && forall i :: 0 <= i < |steps| ==> Matches(steps[i], run[i])
    ensures var t0 := T.Timers(map[], map[], now, []);
      && T.ValidRun(t0, run) && Linked(T.After(t0, run), wheel)
      && T.Punctual(T.After(t0, run)) && Logged(t0, T.After(t0, run), fired)
  {
    ItemsExist(steps);
    wheel := new StTimeout(size, now);
    fired, run := Run(wheel, steps, {}, T.Timers(map[], map[], now, []));
  }
}
