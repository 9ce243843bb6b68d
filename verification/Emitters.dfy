/**
 The three event emitters of the stackless scheduler: conditions, file descriptors, deadlines.
 */
module Emitters {
  import opened Common

  /** `NO_DEADLINE`: the largest point in time. */
  const NO_DEADLINE: nat := 0x7FFF_FFFF_FFFF_FFFF

  /** What an event waits for beside its deadline, if for anything. */
  datatype Source = Condition | Epoll(fd: int) | Nothing

  /** An event somebody awaits; `id` is its identity (its address). */
  datatype Event = Event(id: nat, source: Source, deadline: nat)

  predicate HasDeadline(e: Event) { e.deadline != NO_DEADLINE }

  // ----- What results mean -----------------------------------------------------------------------

  datatype EventType = NONE | WAKEUP | TIMEOUT | ERROR | HANGUP

  /** The flags of an epoll event that matter. */
  datatype Flags = Flags(err: bool, hup: bool, rdhup: bool, input: bool, output: bool)

  /** What an emitter writes into the event it emits; `err` is 0 for success. */
  datatype Result = Result(kind: EventType, err: int, message: string)

  const ETIMEDOUT: int := 110

  // ----- The emitters as values ------------------------------------------------------------------

  datatype Emitter = ByCondition | ByDescriptor | ByDeadline

  /** The events an emitter takes note of. */
  predicate Takes(k: Emitter, e: Event) {
    match k
    case ByCondition => e.source.Condition?
    case ByDescriptor => e.source.Epoll?
    case ByDeadline => HasDeadline(e)
  }

  /** Of the registered emitters `reg`, there is a `k` and it takes note of the event. */
  predicate With(reg: seq<Emitter>, k: Emitter, e: Event) {
    k in reg && Takes(k, e)
  }

  /** Some registered emitter takes note of the event. */
  predicate Heard(reg: seq<Emitter>, e: Event) {
    With(reg, ByCondition, e) || With(reg, ByDescriptor, e) || With(reg, ByDeadline, e)
  }

  /** `awaiting_` of the condition and the epoll emitter, and the deadline-ordered `queue_`. */
  datatype State = State(cond: set<Event>, epoll: map<int, Event>, queue: seq<Event>)

  ghost predicate Ordered(q: seq<Event>) {
    forall i, j :: 0 <= i < j < |q| ==> q[i].deadline <= q[j].deadline
  }

  /** Where an ordered multiset puts a new element: behind its equals. */
  function Insert(q: seq<Event>, e: Event): seq<Event> {
    if q == [] then [e]
    else if q[0].deadline <= e.deadline then [q[0]] + Insert(q[1..], e)
    else [e] + q
  }

  /** Without the first occurrence of `e`. */
  function Erase(q: seq<Event>, e: Event): seq<Event> {
    if q == [] then []
    else if q[0] == e then q[1..]
    else [q[0]] + Erase(q[1..], e)
  }

  /** `NotifyArrival` of the registered emitters.  `emplace` does not replace an event already there. */
  function Arrive(reg: seq<Emitter>, s: State, e: Event): State {
    State(
      if With(reg, ByCondition, e) then s.cond + {e} else s.cond,
      if With(reg, ByDescriptor, e) && e.source.fd !in s.epoll then s.epoll[e.source.fd := e] else s.epoll,
      if With(reg, ByDeadline, e) then Insert(s.queue, e) else s.queue)
  }

  /** `NotifyDeparture` of the registered emitters.  `erase` goes by descriptor, not by event. */
  function Depart(reg: seq<Emitter>, s: State, e: Event): State {
    State(
      if With(reg, ByCondition, e) then s.cond - {e} else s.cond,
      if With(reg, ByDescriptor, e) then s.epoll - {e.source.fd} else s.epoll,
      if ByDeadline in reg then Erase(s.queue, e) else s.queue)
  }

  /** What the loop asks the registered emitters. */
  predicate Empty(reg: seq<Emitter>, s: State) {
    && (ByCondition in reg ==> s.cond == {})
    && (ByDescriptor in reg ==> s.epoll == map[])
    && (ByDeadline in reg ==> s.queue == [])
  }

  // ----- Agreement -------------------------------------------------------------------------------

  predicate InCond(s: State, e: Event) { e in s.cond }
  predicate InEpoll(s: State, e: Event) {
    e.source.Epoll? && e.source.fd in s.epoll && s.epoll[e.source.fd] == e
  }
  predicate InQueue(s: State, e: Event) { e in s.queue }

  /** An event of `live` is with exactly those registered emitters that take note of it, and no other
      event is anywhere. */
  ghost predicate Agrees(reg: seq<Emitter>, s: State, live: set<Event>) {
    && (forall e :: InCond(s, e) <==> e in live && With(reg, ByCondition, e))
    && (forall e :: InEpoll(s, e) <==> e in live && With(reg, ByDescriptor, e))
    && (forall e :: InQueue(s, e) <==> e in live && With(reg, ByDeadline, e))
    && (forall fd :: fd in s.epoll ==> s.epoll[fd].source == Epoll(fd))
    && Ordered(s.queue) && Distinct(s.queue)
  }

  lemma Cons(h: Event, t: seq<Event>)
    ensures forall x :: x in [h] + t <==> x == h || x in t
    ensures Ordered(t) && (forall x :: x in t ==> h.deadline <= x.deadline) ==> Ordered([h] + t)
    ensures Distinct(t) && h !in t ==> Distinct([h] + t)
  {
    var c := [h] + t;
    assert forall i :: 1 <= i < |c| ==> c[i] == t[i - 1] && t[i - 1] in t;
  }

  lemma Uncons(q: seq<Event>)
    requires q != []
    ensures q == [q[0]] + q[1..]
    ensures Ordered(q) ==> Ordered(q[1..]) && forall x :: x in q[1..] ==> q[0].deadline <= x.deadline
    ensures Distinct(q) ==> Distinct(q[1..]) && q[0] !in q[1..]
  {
    assert forall i :: 0 <= i < |q[1..]| ==> q[1..][i] == q[i + 1];
  }

  lemma {:induction false} InsertMeans(q: seq<Event>, e: Event)
    requires Ordered(q)
    ensures Ordered(Insert(q, e))
    ensures forall x :: x in Insert(q, e) <==> x in q || x == e
    ensures Distinct(q) && e !in q ==> Distinct(Insert(q, e))
  {
    if q != [] {
      Uncons(q);
      if q[0].deadline <= e.deadline {
        InsertMeans(q[1..], e);
        Cons(q[0], Insert(q[1..], e));
        assert forall x :: x in q <==> x == q[0] || x in q[1..];
      } else {
        Cons(e, q);
      }
    }
  }

  lemma {:induction false} EraseMeans(q: seq<Event>, e: Event)
    requires Ordered(q) && Distinct(q)
    ensures Ordered(Erase(q, e)) && Distinct(Erase(q, e))
    ensures forall x :: x in Erase(q, e) <==> x in q && x != e
  {
    if q != [] {
      Uncons(q);
      Cons(q[0], q[1..]);
      EraseMeans(q[1..], e);
      Cons(q[0], Erase(q[1..], e));
    }
  }

  /** The emitter of descriptors waits for the event's already. */
  predicate Taken(reg: seq<Emitter>, s: State, e: Event) {
    With(reg, ByDescriptor, e) && e.source.fd in s.epoll
  }

  /** A new event joins: agreement is kept exactly when no live event waits for the same descriptor. */
  lemma ArrivalAgrees(reg: seq<Emitter>, s: State, live: set<Event>, e: Event)
    requires Agrees(reg, s, live) && e !in live
    ensures Agrees(reg, Arrive(reg, s, e), live + {e}) <==> !Taken(reg, s, e)
  {
    var s' := Arrive(reg, s, e);
    assert !InQueue(s, e);
    InsertMeans(s.queue, e);
    if Taken(reg, s, e) {
      assert InEpoll(s, s.epoll[e.source.fd]);
      assert !InEpoll(s', e);
    } else {
      ArrivalInEpoll(reg, s, live, e);
      forall x
        ensures InCond(s', x) <==> x in live + {e} && With(reg, ByCondition, x)
        ensures InQueue(s', x) <==> x in live + {e} && With(reg, ByDeadline, x)
      {
        assert InCond(s, x) <==> x in live && With(reg, ByCondition, x);
        assert InQueue(s, x) <==> x in live && With(reg, ByDeadline, x);
      }
    }
  }

  lemma ArrivalInEpoll(reg: seq<Emitter>, s: State, live: set<Event>, e: Event)
    requires Agrees(reg, s, live) && e !in live && !Taken(reg, s, e)
    ensures forall x :: InEpoll(Arrive(reg, s, e), x) <==> x in live + {e} && With(reg, ByDescriptor, x)
  {
    forall x
      ensures InEpoll(Arrive(reg, s, e), x) <==> x in live + {e} && With(reg, ByDescriptor, x)
    {
      assert InEpoll(s, x) <==> x in live && With(reg, ByDescriptor, x);
    }
  }

  /** A live event leaves all emitters, and nothing else changes. */
  lemma DepartureAgrees(reg: seq<Emitter>, s: State, live: set<Event>, e: Event)
    requires Agrees(reg, s, live) && e in live
    ensures Agrees(reg, Depart(reg, s, e), live - {e})
    ensures var s' := Depart(reg, s, e); !InCond(s', e) && !InEpoll(s', e) && !InQueue(s', e)
  {
    var s' := Depart(reg, s, e);
    EraseMeans(s.queue, e);
    forall x
      ensures InCond(s', x) <==> x in live - {e} && With(reg, ByCondition, x)
      ensures InEpoll(s', x) <==> x in live - {e} && With(reg, ByDescriptor, x)
      ensures InQueue(s', x) <==> x in live - {e} && With(reg, ByDeadline, x)
    {
      assert InCond(s, x) <==> x in live && With(reg, ByCondition, x);
      assert InEpoll(s, x) <==> x in live && With(reg, ByDescriptor, x);
      assert InQueue(s, x) <==> x in live && With(reg, ByDeadline, x);
      assert InEpoll(s, e) <==> e in live && With(reg, ByDescriptor, e);
    }
  }

  /** Two live events on one descriptor: the second is never with the epoll emitter, and when it times
      out its departure takes the first one away. */
  lemma SharedDescriptorLosesTheFirst()
    ensures var reg := [ByDeadline, ByCondition, ByDescriptor];
      var a := Event(0, Epoll(5), NO_DEADLINE); var b := Event(1, Epoll(5), 10);
      var s := Arrive(reg, Arrive(reg, State({}, map[], []), a), b);
      InEpoll(s, a) && !InEpoll(s, b) && InQueue(s, b) && !InEpoll(Depart(reg, s, b), a)
  {}

  /** The registered emitters are all empty exactly if no live event is heard of by any of them. */
  lemma EmptyMeansNoneHeard(reg: seq<Emitter>, s: State, live: set<Event>)
    requires Agrees(reg, s, live)
    ensures Empty(reg, s) <==> forall e :: e in live ==> !Heard(reg, e)
  {
    assert forall e :: e in live && Heard(reg, e) ==> InCond(s, e) || InEpoll(s, e) || InQueue(s, e);
    assert forall e :: e in s.cond ==> InCond(s, e);
    assert forall e :: e in s.queue ==> InQueue(s, e);
    assert forall fd :: fd in s.epoll ==> InEpoll(s, s.epoll[fd]);
    assert s.epoll == map[] <==> s.epoll.Keys == {};
    assert s.queue == [] <==> forall e :: e !in s.queue by {
      assert s.queue != [] ==> s.queue[0] in s.queue;
    }
  }

  // ----- The emitters as objects -----------------------------------------------------------------

  class ConditionEmitter {
    var awaiting: set<Event>

    constructor ()
      ensures awaiting == {}
    {
      awaiting := {};
    }

    method NotifyArrival(e: Event)
      modifies this
      ensures awaiting == Arrive([ByCondition], State(old(awaiting), map[], []), e).cond
      ensures forall x :: x in awaiting <==> x in old(awaiting) || (x == e && e.source == Condition)
    {
      if e.source.Condition? {
        awaiting := awaiting + {e};
      }
    }

    method NotifyDeparture(e: Event)
      modifies this
      ensures awaiting == Depart([ByCondition], State(old(awaiting), map[], []), e).cond
      ensures forall x :: x in awaiting <==> x in old(awaiting) && !(x == e && e.source == Condition)
    {
      if e.source.Condition? {
        awaiting := awaiting - {e};
      }
    }

    /** Some event whose condition holds, if there is one, and its result. */
    method Emit(holds: Event -> bool) returns (r: Option<Event>, result: Result)
      ensures r.Some? ==> r.value in awaiting && holds(r.value) && result == Result(WAKEUP, 0, "")
      ensures r.None? ==> forall e :: e in awaiting ==> !holds(e)
    {
      var rest := awaiting;
      while rest != {}
        invariant rest <= awaiting && forall e :: e in awaiting && e !in rest ==> !holds(e)
        decreases rest
      {
        var e :| e in rest;
        if holds(e) {
          return Some(e), Result(WAKEUP, 0, "");
        }
        rest := rest - {e};
      }
      return None, Result(NONE, 0, "");
    }
  }

  class EpollEmitter {
    var awaiting: map<int, Event>

    constructor ()
      ensures awaiting == map[]
    {
      awaiting := map[];
    }

    method NotifyArrival(e: Event)
      modifies this
      ensures awaiting == Arrive([ByDescriptor], State({}, old(awaiting), []), e).epoll
      ensures forall fd :: fd in awaiting <==> fd in old(awaiting) || e.source == Epoll(fd)
      ensures forall fd :: fd in awaiting ==>
                awaiting[fd] == if fd in old(awaiting) then old(awaiting)[fd] else e
    {
      if !e.source.Epoll? {
        return;
      }
      if e.source.fd !in awaiting {
        awaiting := awaiting[e.source.fd := e];
      }
    }

    method NotifyDeparture(e: Event)
      modifies this
      ensures awaiting == Depart([ByDescriptor], State({}, old(awaiting), []), e).epoll
      ensures forall fd :: fd in awaiting <==> fd in old(awaiting) && e.source != Epoll(fd)
      ensures forall fd :: fd in awaiting ==> awaiting[fd] == old(awaiting)[fd]
    {
      if !e.source.Epoll? {
        return;
      }
      awaiting := awaiting - {e.source.fd};
    }

    /** Takes reports of the kernel, one at a time, until one is awaited or there are no more.  The result
        of the event goes by what is reported of its descriptor, whose pending error is `errno(fd)`:
        errors before hang-ups, and those before readiness; a report of none of these leaves the result
        as it was. */
    method Emit(reports: seq<(int, Flags)>, errno: int -> int, before: Result)
      returns (r: Option<Event>, result: Result, taken: nat)
      ensures taken <= |reports|
      ensures r.None? ==> taken == |reports| && forall i :: 0 <= i < |reports| ==> reports[i].0 !in awaiting
      ensures r.Some? ==>
        && taken > 0 && reports[taken - 1].0 in awaiting && r.value == awaiting[reports[taken - 1].0]
        && (forall i :: 0 <= i < taken - 1 ==> reports[i].0 !in awaiting)
        && var (fd, f) := reports[taken - 1];
        && (f.err ==> result == Result(ERROR, errno(fd), "Asynchronous socket error."))
        && (!f.err && (f.hup || f.rdhup) ==> result == Result(HANGUP, 0, ""))
        && (!f.err && !f.hup && !f.rdhup && (f.input || f.output) ==> result == Result(WAKEUP, 0, ""))
        && (!f.err && !f.hup && !f.rdhup && !f.input && !f.output ==> result == before)
    {
      taken, result := 0, before;
      while taken < |reports|
        invariant taken <= |reports| && result == before
        invariant forall i :: 0 <= i < taken ==> reports[i].0 !in awaiting
      {
        var (fd, f) := reports[taken];
        taken := taken + 1;
        if fd in awaiting {
          if f.err {
            result := Result(ERROR, errno(fd), "Asynchronous socket error.");
          } else if f.hup || f.rdhup {
            result := Result(HANGUP, 0, "");
          } else if f.input || f.output {
            result := Result(WAKEUP, 0, "");
          }
          return Some(awaiting[fd]), result, taken;
        }
      }
      return None, result, taken;
    }
  }

  class TimeoutEmitter {
    var queue: seq<Event>

    constructor ()
      ensures queue == []
    {
      queue := [];
    }

    method NotifyArrival(e: Event)
      requires Ordered(queue)
      modifies this
      ensures queue == Arrive([ByDeadline], State({}, map[], old(queue)), e).queue
      ensures !HasDeadline(e) ==> queue == old(queue)
      ensures HasDeadline(e) ==> exists i :: 0 <= i <= |old(queue)| && BehindEquals(old(queue), i, e) &&
                                             queue == old(queue)[..i] + [e] + old(queue)[i..]
    {
      if e.deadline != NO_DEADLINE {
        var i := 0;
        while i < |queue| && queue[i].deadline <= e.deadline
          invariant 0 <= i <= |queue|
          invariant forall j :: 0 <= j < i ==> queue[j].deadline <= e.deadline
        {
          i := i + 1;
        }
        InsertAt(queue, i, e);
        assert BehindEquals(queue, i, e);
        queue := queue[..i] + [e] + queue[i..];
      }
    }

    /** Among the elements with the event's deadline, the event itself is erased. */
    method NotifyDeparture(e: Event)
      requires Ordered(queue)
      modifies this
      ensures queue == Depart([ByDeadline], State({}, map[], old(queue)), e).queue
      ensures e !in old(queue) ==> queue == old(queue)
      ensures e in old(queue) ==> exists i :: 0 <= i < |old(queue)| && old(queue)[i] == e &&
                                              queue == old(queue)[..i] + old(queue)[i + 1..]
    {
      var i := 0;
      while i < |queue| && queue[i].deadline < e.deadline
        invariant 0 <= i <= |queue|
        invariant forall j :: 0 <= j < i ==> queue[j] != e
      {
        i := i + 1;
      }
      while i < |queue| && queue[i].deadline == e.deadline
        invariant 0 <= i <= |queue|
        invariant forall j :: 0 <= j < i ==> queue[j] != e
        invariant i < |queue| ==> e.deadline <= queue[i].deadline
      {
        if queue[i] == e {
          EraseAt(queue, i, e);
          queue := queue[..i] + queue[i + 1..];
          return;
        }
        i := i + 1;
      }
      EraseAbsent(queue, e);
    }

    /** The event with the earliest deadline, if that has passed, and its result. */
    method Emit(now: nat) returns (r: Option<Event>, result: Result)
      requires Ordered(queue)
      ensures r.Some? ==>
        && queue != [] && r.value == queue[0] && r.value.deadline < now
        && forall e :: e in queue ==> r.value.deadline <= e.deadline
      ensures r.Some? ==> result == Result(TIMEOUT, ETIMEDOUT, "Timed out by TimeoutEmitter.")
      ensures r.None? ==> forall e :: e in queue ==> now <= e.deadline
    {
      if |queue| != 0 {
        var v := queue[0];
        if v.deadline < now {
          return Some(v), Result(TIMEOUT, ETIMEDOUT, "Timed out by TimeoutEmitter.");
        }
      }
      return None, Result(NONE, 0, "");
    }
  }

  /** Every earlier deadline and every equal one is before `i`, and every later one is not. */
  predicate BehindEquals(q: seq<Event>, i: nat, e: Event)
    requires i <= |q|
  {
    && (forall j :: 0 <= j < i ==> q[j].deadline <= e.deadline)
    && (forall j :: i <= j < |q| ==> e.deadline < q[j].deadline)
  }

  lemma {:induction false} InsertAt(q: seq<Event>, i: nat, e: Event)
    requires i <= |q| && forall j :: 0 <= j < i ==> q[j].deadline <= e.deadline
    requires i < |q| ==> q[i].deadline > e.deadline
    ensures Insert(q, e) == q[..i] + [e] + q[i..]
  {
    if i > 0 {
      InsertAt(q[1..], i - 1, e);
      assert q[..i] == [q[0]] + q[1..][..i - 1] && q[i..] == q[1..][i - 1..];
    }
  }

  lemma {:induction false} EraseAt(q: seq<Event>, i: nat, e: Event)
    requires i < |q| && q[i] == e && forall j :: 0 <= j < i ==> q[j] != e
    ensures Erase(q, e) == q[..i] + q[i + 1..]
  {
    if i > 0 {
      EraseAt(q[1..], i - 1, e);
      assert q[..i] == [q[0]] + q[1..][..i - 1] && q[i + 1..] == q[1..][i..];
    }
  }

  lemma {:induction false} EraseAbsent(q: seq<Event>, e: Event)
    requires e !in q
    ensures Erase(q, e) == q
  {
    if q != [] {
      EraseAbsent(q[1..], e);
      assert q == [q[0]] + q[1..];
    }
  }
}
