/**
 One turn of a thread's event loop over its timing wheel: ready pollers are taken out of the wheel,
 the wheel is swept, items swept too early go back, and everybody else is fired.
 */
module DispatchRound {
  import opened Common
  import opened TimeoutList
  import opened MachineInts
  import opened WheelArithmetic
  import opened TimingWheel

  /** The items of a sequence in the order in which they first occur. */
  ghost function Firsts(s: seq<TimeoutItem>): seq<TimeoutItem> {
    if s == [] then []
    else
      var k := |s| - 1;
      if s[k] in s[..k] then Firsts(s[..k]) else Firsts(s[..k]) + [s[k]]
  }

  lemma {:induction false} FirstsCover(s: seq<TimeoutItem>)
    ensures forall x :: x in Firsts(s) <==> x in s
    ensures Distinct(Firsts(s))
  {
    if s != [] {
      FirstsCover(s[..|s| - 1]);
      assert s == s[..|s| - 1] + [s[|s| - 1]];
    }
  }

  lemma FirstsExtend(s: seq<TimeoutItem>, x: TimeoutItem)
    ensures Firsts(s + [x]) == if x in s then Firsts(s) else Firsts(s) + [x]
  {
    assert (s + [x])[..|s|] == s;
  }

  lemma TakeOneMore(s: seq<TimeoutItem>, k: nat)
    requires k < |s|
    ensures s[..k + 1] == s[..k] + [s[k]]
    ensures multiset(s[..k + 1]) == multiset(s[..k]) + multiset{s[k]}
    ensures forall x :: x in s[..k + 1] <==> x in s[..k] || x == s[k]
  {
    assert s[..k + 1] == s[..k] + [s[k]];
  }

  /** `OnPollPrepare`: a file descriptor of the poller became ready. */
  method OnPollPrepare(wheel: StTimeout, p: TimeoutItem, active: TimeoutItemLink)
    requires wheel.Valid() && active.Valid() && active !in wheel.slots
    requires !p.detached ==> p in wheel.pending
    modifies p, wheel`pending, wheel.slots, wheel.pending`next, wheel.pending`prev
    modifies active, active.items`next
    ensures wheel.Valid() && active.Valid()
    ensures p.raiseCnt == old(p.raiseCnt) + 1 && p.detached && p.bTimeout == old(p.bTimeout)
    ensures active.items == if old(p.detached) then old(active.items) else old(active.items) + [p]
    ensures wheel.pending == if old(p.detached) then old(wheel.pending) else old(wheel.pending) - {p}
  {
    wheel.PendingLinks(active);
    var first := !p.detached;
    p.raiseCnt, p.detached := p.raiseCnt + 1, true;
    wheel.StaysValid();
    active.StaysValid();
    if first {
      MoveToActive(wheel, p, active);
    }
  }

  method MoveToActive(wheel: StTimeout, p: TimeoutItem, active: TimeoutItemLink)
    requires wheel.Valid() && active.Valid() && active !in wheel.slots && p in wheel.pending
    modifies p`prev, p`next, p`link, wheel`pending, wheel.slots
    modifies wheel.pending`next, wheel.pending`prev, active, active.items`next
    ensures wheel.Valid() && active.Valid()
    ensures active.items == old(active.items) + [p] && wheel.pending == old(wheel.pending) - {p}
  {
    wheel.PendingLinks(active);
    wheel.Cancel(p);
    active.StaysValid();
    label cancelled:
    wheel.PendingLinks(active);
    active.AddTail(p);
    wheel.StaysValid@cancelled();
  }

  /** How the events `seen` left the items that were pending: each poller counts its own. */
  ghost predicate Arrived(p0: set<TimeoutItem>, seen: seq<TimeoutItem>)
    reads p0`raiseCnt, p0`detached, p0`bTimeout
  {
    forall x :: x in p0 ==>
      !x.bTimeout && x.raiseCnt == multiset(seen)[x] && (x.detached <==> x in seen)
  }

  /** The loop over the ready events.  Only the first event of a poller moves it. */
  method Arrive(wheel: StTimeout, ready: seq<TimeoutItem>, active: TimeoutItemLink)
    requires wheel.Valid() && active.Valid() && active !in wheel.slots && active.items == []
    requires Arrived(wheel.pending, []) && forall p :: p in ready ==> p in wheel.pending
    modifies wheel`pending, wheel.slots, wheel.pending, active
    ensures wheel.Valid() && active.Valid()
    ensures active.items == Firsts(ready)
    ensures forall x :: x in wheel.pending <==> x in old(wheel.pending) && x !in ready
    ensures Arrived(old(wheel.pending), ready)
  {
    var k := 0;
    ghost var p0, seen := wheel.pending, [];
    while k < |ready|
      invariant 0 <= k <= |ready| && seen == ready[..k]
      invariant wheel.Valid() && active.Valid()
      invariant active.items == Firsts(seen) && forall x :: x in active.items ==> x in p0
      invariant forall x :: x in wheel.pending <==> x in p0 && x !in seen
      invariant Arrived(p0, seen)
    {
      TakeOneMore(ready, k);
      FirstsExtend(seen, ready[k]);
      ArriveNext(wheel, ready[k], active, p0, seen);
      seen := seen + [ready[k]];
      k := k + 1;
    }
    assert seen == ready;
  }

  /** One turn of that loop. */
  method ArriveNext(wheel: StTimeout, p: TimeoutItem, active: TimeoutItemLink,
                    ghost p0: set<TimeoutItem>, ghost seen: seq<TimeoutItem>)
    requires wheel.Valid() && active.Valid() && active !in wheel.slots
    requires active.items == Firsts(seen) && p in p0 && Arrived(p0, seen)
    requires forall x :: x in wheel.pending <==> x in p0 && x !in seen
    modifies wheel`pending, wheel.slots, p, wheel.pending`next, wheel.pending`prev
    modifies active, active.items`next
    ensures wheel.Valid() && active.Valid()
    ensures active.items == Firsts(seen + [p])
    ensures forall x :: x in wheel.pending <==> x in p0 && x !in seen + [p]
    ensures Arrived(p0, seen + [p])
  {
    FirstsExtend(seen, p);
    OnPollPrepare(wheel, p, active);
  }

  /** The loop that marks what the sweep took. */
  method MarkTimedOut(list: TimeoutItemLink)
    requires list.Valid()
    modifies list.items`bTimeout
    ensures list.Valid() && forall x :: x in list.items ==> x.bTimeout
  {
    var lp := list.head;
    ghost var i := 0;
    while lp != null
      invariant 0 <= i <= |list.items|
      invariant lp == if i < |list.items| then list.items[i] else null
      invariant forall j :: 0 <= j < i ==> list.items[j].bTimeout
      decreases |list.items| - i
    {
      assert TimeoutItemLink.Node(list.items, i);
      lp.bTimeout := true;
      list.StaysValid();
      lp := lp.next;
      i := i + 1;
    }
  }

  // ----- Dispatch --------------------------------------------------------------------------------

  /** What the fiber of a fired item does before it yields again: it may go to sleep, at its own
      reading of the clock, on a new item (its bed). */
  datatype Nap = Awake | Asleep(at: nat)

  /** The items of `q` that are fired, in order: all but those swept too early. */
  ghost function Keep(q: seq<TimeoutItem>, late: set<TimeoutItem>): seq<TimeoutItem> {
    if q == [] then []
    else
      var k := |q| - 1;
      Keep(q[..k], late) + (if q[k] in late then [] else [q[k]])
  }

  lemma KeepExtend(q: seq<TimeoutItem>, late: set<TimeoutItem>, k: nat)
    requires k < |q|
    ensures Keep(q[..k + 1], late) == Keep(q[..k], late) + if q[k] in late then [] else [q[k]]
  {
    assert q[..k + 1][..k] == q[..k];
  }

  /** The beds of the first `n` fired items' fibers that went to sleep. */
  ghost function Sleepers(naps: seq<Nap>, beds: seq<TimeoutItem>, n: nat): set<TimeoutItem>
    requires |beds| == |naps|
  {
    set k: nat | k < n && k < |naps| && naps[k].Asleep? :: beds[k]
  }

  /** One item from the head of the active list: back into the wheel if it is not its time yet. */
  method PopOne(wheel: StTimeout, now: nat, active: TimeoutItemLink)
    returns (lp: TimeoutItem, again: bool)
    requires wheel.Valid() && active.Valid() && active !in wheel.slots && active.items != []
    requires 0 < wheel.start <= now < TWO63 && active.items[0].expire < TWO64
    modifies active, active.items`prev, active.items`next, active.items`link
    modifies active.items`isDelayActive, active.items`bTimeout
    modifies wheel`start, wheel`startIdx, wheel`pending, wheel.slots, wheel.pending`next
    ensures wheel.Valid() && active.Valid()
    ensures wheel.start == old(wheel.start) && wheel.startIdx == old(wheel.startIdx)
    ensures lp == old(active.items)[0] && active.items == old(active.items)[1..]
    ensures again <==> old(lp.bTimeout) && now < lp.expire
    ensures wheel.pending == old(wheel.pending) + if again then {lp} else {}
    ensures again ==> !lp.bTimeout
    ensures !again ==> lp.link == null && lp.bTimeout == old(lp.bTimeout)
    ensures forall x :: x in active.items ==> x.bTimeout == old(x.bTimeout)
  {
    wheel.PendingLinks(active);
    lp := active.head;
    active.PopHead();
    wheel.StaysValid();
    again := false;
    if lp.bTimeout && now < lp.expire {
      again := PutBack(wheel, now, active, lp);
    }
  }

  method PutBack(wheel: StTimeout, now: nat, active: TimeoutItemLink, lp: TimeoutItem)
    returns (again: bool)
    requires wheel.Valid() && active.Valid() && active !in wheel.slots && lp.link == null
    requires 0 < wheel.start <= now < lp.expire < TWO64 && now < TWO63
    modifies lp`prev, lp`next, lp`link, lp`isDelayActive, lp`bTimeout
    modifies wheel`start, wheel`startIdx, wheel`pending, wheel.slots, wheel.pending`next
    ensures wheel.Valid() && active.Valid() && unchanged(active)
    ensures wheel.start == old(wheel.start) && wheel.startIdx == old(wheel.startIdx)
    ensures again && !lp.bTimeout
    ensures wheel.pending == old(wheel.pending) + {lp}
  {
    wheel.PendingLinks(active);
    var ret := wheel.AddTimeout(lp, now);
    again := false;
    if ret == 0 {
      label added:
      lp.bTimeout := false;
      wheel.StaysValid@added();
      again := true;
    }
    active.StaysValid();
  }

  /** The sleeps that may happen in a round: on distinct new items, each with a deadline not before its
      own clock, which is not before the round's. */
  ghost predicate BedsOk(naps: seq<Nap>, beds: seq<TimeoutItem>, now: nat) {
    && |beds| == |naps|
    && (forall k :: 0 <= k < |naps| && naps[k].Asleep? ==>
          now <= naps[k].at <= beds[k].expire < TWO64 && naps[k].at < TWO63)
    && Distinct(beds)
  }

  ghost predicate BedsFree(beds: seq<TimeoutItem>, n: nat)
    reads beds`link
  {
    forall k :: n <= k < |beds| ==> beds[k].link == null
  }

  /** The fiber of the `n`th fired item runs until it yields. */
  method RunFiber(wheel: StTimeout, now: nat, active: TimeoutItemLink,
                  naps: seq<Nap>, beds: seq<TimeoutItem>, n: nat)
    requires wheel.Valid() && active.Valid() && active !in wheel.slots && 0 < wheel.start <= now
    requires BedsOk(naps, beds, now) && BedsFree(beds, n)
    modifies beds`prev, beds`next, beds`link, beds`isDelayActive
    modifies wheel`start, wheel`startIdx, wheel`pending, wheel.slots, wheel.pending`next
    ensures wheel.Valid() && active.Valid() && unchanged(active)
    ensures wheel.start == old(wheel.start) && BedsFree(beds, n + 1)
    ensures wheel.pending == old(wheel.pending) +
      if n < |naps| && naps[n].Asleep? then {beds[n]} else {}
  {
    if n < |naps| && naps[n].Asleep? {
      wheel.PendingLinks(active);
      var ret := wheel.AddTimeout(beds[n], naps[n].at);
      active.StaysValid();
    }
  }

  /** What the dispatch of the first `k` items of `q` has done. */
  ghost predicate Dispatched(p0: set<TimeoutItem>, q: seq<TimeoutItem>, late: set<TimeoutItem>,
                             naps: seq<Nap>, beds: seq<TimeoutItem>,
                             k: nat, fired: seq<TimeoutItem>, pending: set<TimeoutItem>)
  {
    && |beds| == |naps|
    && k <= |q| && fired == Keep(q[..k], late)
    && pending == p0 + (set x | x in q[..k] && x in late) + Sleepers(naps, beds, |fired|)
  }

  lemma AllDispatched(p0: set<TimeoutItem>, q: seq<TimeoutItem>, late: set<TimeoutItem>,
                      naps: seq<Nap>, beds: seq<TimeoutItem>,
                      fired: seq<TimeoutItem>, pending: set<TimeoutItem>)
    requires Dispatched(p0, q, late, naps, beds, |q|, fired, pending)
    requires forall x :: x in late ==> x in q
    ensures fired == Keep(q, late) && pending == p0 + late + Sleepers(naps, beds, |fired|)
  {
    assert q[..|q|] == q;
    assert late == set x | x in q && x in late;
  }

  lemma DispatchedNext(p0: set<TimeoutItem>, q: seq<TimeoutItem>, late: set<TimeoutItem>,
                       naps: seq<Nap>, beds: seq<TimeoutItem>,
                       k: nat, fired: seq<TimeoutItem>, pending: set<TimeoutItem>)
    requires Dispatched(p0, q, late, naps, beds, k, fired, pending) && k < |q|
    ensures q[k] in late ==> Dispatched(p0, q, late, naps, beds, k + 1, fired, pending + {q[k]})
    ensures q[k] !in late ==>
      Dispatched(p0, q, late, naps, beds, k + 1, fired + [q[k]],
        pending + if |fired| < |naps| && naps[|fired|].Asleep? then {beds[|fired|]} else {})
  {
    KeepExtend(q, late, k);
    TakeOneMore(q, k);
    var n := |fired|;
    assert Sleepers(naps, beds, n + 1)
        == Sleepers(naps, beds, n) + if n < |naps| && naps[n].Asleep? then {beds[n]} else {};
  }

  /** The marks of the items of `q` when the first `k` are dispatched. */
  ghost predicate Marks(q: seq<TimeoutItem>, late: set<TimeoutItem>, now: nat, k: nat)
    reads q`bTimeout
  {
    forall j :: 0 <= j < |q| ==>
      if j < k then q[j] in late ==> !q[j].bTimeout
      else q[j].bTimeout && now < q[j].expire <==> q[j] in late
  }

  lemma Parted(q: seq<TimeoutItem>, k: nat)
    requires k < |q| && Distinct(q)
    ensures forall j :: 0 <= j < k ==> q[j] !in q[k..]
    ensures forall j :: k < j < |q| ==> q[j] in q[k + 1..]
    ensures q[k..][0] == q[k] && q[k..][1..] == q[k + 1..]
  {
    forall j | k < j < |q|
      ensures q[j] in q[k + 1..]
    {
      assert q[k + 1..][j - k - 1] == q[j];
    }
  }

  /** The first half of a turn of the dispatch loop. */
  method PopNext(wheel: StTimeout, now: nat, active: TimeoutItemLink,
                 ghost q: seq<TimeoutItem>, ghost late: set<TimeoutItem>, ghost k: nat)
    returns (lp: TimeoutItem, again: bool)
    requires wheel.Valid() && active.Valid() && active !in wheel.slots
    requires 0 < wheel.start <= now < TWO63
    requires k < |q| && active.items == q[k..] && Distinct(q)
    requires q[k].expire < TWO64 && Marks(q, late, now, k)
    modifies active, active.items`prev, active.items`next, active.items`link
    modifies active.items`isDelayActive, active.items`bTimeout
    modifies wheel`start, wheel`startIdx, wheel`pending, wheel.slots, wheel.pending`next
    ensures wheel.Valid() && active.Valid() && wheel.start == old(wheel.start)
    ensures active.items == q[k + 1..] && lp == q[k] && (again <==> q[k] in late)
    ensures wheel.pending == old(wheel.pending) + if q[k] in late then {q[k]} else {}
    ensures Marks(q, late, now, k + 1)
  {
    Parted(q, k);
    lp, again := PopOne(wheel, now, active);
  }

  /** Where the dispatch loop stands after `k` turns. */
  ghost predicate Turned(wheel: StTimeout, now: nat, active: TimeoutItemLink,
                         naps: seq<Nap>, beds: seq<TimeoutItem>,
                         q: seq<TimeoutItem>, p0: set<TimeoutItem>, late: set<TimeoutItem>,
                         all: set<TimeoutItem>, k: nat, fired: seq<TimeoutItem>)
    reads wheel, wheel.slots, wheel.pending`prev, wheel.pending`next, wheel.pending`link
    reads active, active.items`prev, active.items`next, active.items`link, q`bTimeout, beds`link
  {
    && wheel.Valid() && active.Valid() && active !in wheel.slots
    && k <= |q| && active.items == q[k..]
    && Marks(q, late, now, k)
    && Dispatched(p0, q, late, naps, beds, k, fired, wheel.pending)
    && BedsFree(beds, |fired|)
    && wheel.pending <= all && (forall x :: x in q ==> x in all) && (forall x :: x in beds ==> x in all)
  }

  /** One turn of the dispatch loop. */
  method DispatchNext(wheel: StTimeout, now: nat, active: TimeoutItemLink,
                      naps: seq<Nap>, beds: seq<TimeoutItem>,
                      ghost q: seq<TimeoutItem>, ghost p0: set<TimeoutItem>, ghost late: set<TimeoutItem>,
                      ghost all: set<TimeoutItem>, ghost k: nat, fired: seq<TimeoutItem>)
    returns (fired': seq<TimeoutItem>)
    requires Turned(wheel, now, active, naps, beds, q, p0, late, all, k, fired) && k < |q|
    requires 0 < wheel.start <= now < TWO63
    requires Distinct(q) && q[k].expire < TWO64 && BedsOk(naps, beds, now)
    modifies active, wheel`start, wheel`startIdx, wheel`pending, wheel.slots
    modifies all`prev, all`next, all`link, all`isDelayActive, q`bTimeout
    ensures wheel.start == old(wheel.start)
    ensures Turned(wheel, now, active, naps, beds, q, p0, late, all, k + 1, fired')
  {
    DispatchedNext(p0, q, late, naps, beds, k, fired, wheel.pending);
    FreeBedsAreNotActive(active, beds, |fired|);
    var lp, again := PopNext(wheel, now, active, q, late, k);
    fired' := fired;
    if !again {
      fired' := fired + [lp];
      RunFiber(wheel, now, active, naps, beds, |fired|);
    }
  }

  lemma FreeBedsAreNotActive(active: TimeoutItemLink, beds: seq<TimeoutItem>, n: nat)
    requires active.Valid() && BedsFree(beds, n)
    ensures forall k :: n <= k < |beds| ==> beds[k] !in active.items
  {}

  /** The dispatch loop. */
  method Dispatch(wheel: StTimeout, now: nat, active: TimeoutItemLink,
                  naps: seq<Nap>, beds: seq<TimeoutItem>)
    returns (fired: seq<TimeoutItem>, ghost late: set<TimeoutItem>)
    requires wheel.Valid() && active.Valid() && active !in wheel.slots
    requires 0 < wheel.start <= now < TWO63
    requires forall x :: x in active.items ==> x.expire < TWO64
    requires BedsOk(naps, beds, now) && BedsFree(beds, 0)
    modifies active, active.items`prev, active.items`next, active.items`link
    modifies active.items`isDelayActive, active.items`bTimeout
    modifies beds`prev, beds`next, beds`link, beds`isDelayActive
    modifies wheel`start, wheel`startIdx, wheel`pending, wheel.slots
    modifies wheel.pending`prev, wheel.pending`next, wheel.pending`link, wheel.pending`isDelayActive
    ensures wheel.Valid() && wheel.start == old(wheel.start)
    ensures forall x :: x in late <==> x in old(active.items) && old(x.bTimeout) && now < x.expire
    ensures forall x :: x in late ==> !x.bTimeout
    ensures fired == Keep(old(active.items), late)
    ensures wheel.pending == old(wheel.pending) + late + Sleepers(naps, beds, |fired|)
  {
    ghost var q, p0 := active.items, wheel.pending;
    late := set x | x in q && x.bTimeout && now < x.expire;
    ghost var all := p0 + (set x | x in q) + (set x | x in beds);
    fired := DispatchLoop(wheel, now, active, naps, beds, q, p0, late, all);
    AllDispatched(p0, q, late, naps, beds, fired, wheel.pending);
  }

  /** Its turns. */
  method DispatchLoop(wheel: StTimeout, now: nat, active: TimeoutItemLink,
                      naps: seq<Nap>, beds: seq<TimeoutItem>,
                      ghost q: seq<TimeoutItem>, ghost p0: set<TimeoutItem>, ghost late: set<TimeoutItem>,
                      ghost all: set<TimeoutItem>)
    returns (fired: seq<TimeoutItem>)
    requires Turned(wheel, now, active, naps, beds, q, p0, late, all, 0, [])
    requires p0 == wheel.pending && Distinct(q) && forall x :: x in q ==> x.expire < TWO64
    requires 0 < wheel.start <= now < TWO63 && BedsOk(naps, beds, now)
    modifies active, wheel`start, wheel`startIdx, wheel`pending, wheel.slots
    modifies all`prev, all`next, all`link, all`isDelayActive, q`bTimeout
    ensures wheel.start == old(wheel.start)
    ensures Turned(wheel, now, active, naps, beds, q, p0, late, all, |q|, fired)
  {
    ghost var k := 0;
    fired := [];
    while active.head != null
      invariant 0 <= k <= |q| && wheel.start == old(wheel.start)
      invariant Turned(wheel, now, active, naps, beds, q, p0, late, all, k, fired)
      decreases |q| - k
    {
      fired := DispatchNext(wheel, now, active, naps, beds, q, p0, late, all, k, fired);
      k := k + 1;
    }
  }

  // ----- The whole round -------------------------------------------------------------------------

  /** Everything on the timeout list is marked and appended to the active list. */
  method MarkAndJoin(wheel: StTimeout, active: TimeoutItemLink, timeout: TimeoutItemLink)
    requires wheel.Valid() && active.Valid() && timeout.Valid() && active != timeout
    requires active !in wheel.slots && timeout !in wheel.slots
    modifies active, active.items`next, timeout, timeout.items`prev, timeout.items`link, timeout.items`bTimeout
    ensures wheel.Valid() && active.Valid()
    ensures active.items == old(active.items) + old(timeout.items)
    ensures forall x :: x in old(timeout.items) ==> x.bTimeout
    ensures forall x :: x in old(timeout.items) ==> x !in old(active.items)
    ensures forall x :: x in wheel.pending ==> x.bTimeout == old(x.bTimeout)
  {
    ghost var q := timeout.items;
    wheel.PendingLinks(timeout);
    assert forall x :: x in wheel.pending ==> x !in q;
    assert forall x :: x in q ==> x !in active.items;
    MarkTimedOut(timeout);
    assert forall x :: x in wheel.pending ==> x.bTimeout == old(x.bTimeout);
    JoinBeside(wheel, active, timeout);
  }

  method JoinBeside(wheel: StTimeout, active: TimeoutItemLink, timeout: TimeoutItemLink)
    requires wheel.Valid() && active.Valid() && timeout.Valid() && active != timeout
    requires active !in wheel.slots && timeout !in wheel.slots
    modifies active, active.items`next, timeout, timeout.items`prev, timeout.items`link
    ensures wheel.Valid() && active.Valid()
    ensures active.items == old(active.items) + old(timeout.items)
  {
    wheel.PendingLinks(timeout);
    wheel.PendingLinks(active);
    active.Join(timeout);
    wheel.StaysValid();
  }

  /** The sweep and the marks; what it took is appended to the active list. */
  method SweepAndMark(wheel: StTimeout, now: nat, active: TimeoutItemLink, ghost from: nat)
    returns (ghost acc: seq<TimeoutItem>)
    requires wheel.Valid() && active.Valid() && active !in wheel.slots
    requires 0 < from == wheel.start <= now < TWO63 && GapOk(now - from, wheel.size)
    modifies wheel`start, wheel`startIdx, wheel`pending, wheel.slots
    modifies wheel.pending`next, wheel.pending`prev, wheel.pending`link, wheel.pending`bTimeout
    modifies active, active.items`next
    ensures wheel.Valid() && active.Valid() && wheel.start == now
    ensures active.items == old(active.items) + acc
    ensures SweptInTime(old(wheel.pending), from, wheel.size, now, acc, wheel.pending)
    ensures forall x :: x in acc ==> x.bTimeout && x !in old(active.items)
    ensures forall x :: x in wheel.pending ==> x.bTimeout == old(x.bTimeout)
  {
    var timeout := new TimeoutItemLink();
    wheel.PendingLinks(active);
    acc := wheel.TakeInTime(now, timeout);
    active.StaysValid();
    MarkAndJoin(wheel, active, timeout);
  }

  // Keep, over a concatenation of a part nobody in which is late.
  lemma {:induction false} KeepConcat(a: seq<TimeoutItem>, b: seq<TimeoutItem>, late: set<TimeoutItem>)
    requires forall x :: x in a ==> x !in late
    ensures Keep(a + b, late) == a + Keep(b, late)
    decreases |b|
  {
    if b == [] {
      assert a + b == a;
      KeepAll(a, late);
    } else {
      var k := |b| - 1;
      assert (a + b)[..|a| + k] == a + b[..k];
      KeepConcat(a, b[..k], late);
    }
  }

  lemma {:induction false} KeepAll(a: seq<TimeoutItem>, late: set<TimeoutItem>)
    requires forall x :: x in a ==> x !in late
    ensures Keep(a, late) == a
  {
    if a != [] {
      KeepAll(a[..|a| - 1], late);
    }
  }

  /** `Keep` drops exactly the late items. */
  lemma {:induction false} KeepMembers(q: seq<TimeoutItem>, late: set<TimeoutItem>)
    ensures forall i :: 0 <= i < |Keep(q, late)| ==> Keep(q, late)[i] in q && Keep(q, late)[i] !in late
    ensures forall x :: x in Keep(q, late) <==> x in q && x !in late
  {
    if q != [] {
      KeepMembers(q[..|q| - 1], late);
      assert q == q[..|q| - 1] + [q[|q| - 1]];
    }
  }

  lemma {:induction false} KeepDistinct(q: seq<TimeoutItem>, late: set<TimeoutItem>)
    requires Distinct(q)
    ensures Distinct(Keep(q, late))
  {
    if q != [] {
      var k := |q| - 1;
      KeepDistinct(q[..k], late);
      KeepMembers(q[..k], late);
      assert q[k] !in q[..k];
    }
  }

  lemma {:induction false} KeepOrder(q: seq<TimeoutItem>, late: set<TimeoutItem>)
    requires forall i, j :: 0 <= i < j < |q| && q[i] !in late && q[j] !in late ==> q[i].expire <= q[j].expire
    ensures forall i, j :: 0 <= i < j < |Keep(q, late)| ==> Keep(q, late)[i].expire <= Keep(q, late)[j].expire
  {
    if q != [] {
      var k := |q| - 1;
      var p := q[..k];
      var r := Keep(p, late);
      KeepOrder(p, late);
      KeepMembers(p, late);
      forall i | 0 <= i < |r| && q[k] !in late
        ensures r[i].expire <= q[k].expire
      {
        assert r[i] in p;
        var j :| 0 <= j < |p| && p[j] == r[i];
      }
    }
  }

  /** What a round owes: everything with a ready event and everything due is fired, once, and nothing
      else; ready pollers first, in the order of their first events, then what is due. */
  ghost predicate FiredRightly(p0: set<TimeoutItem>, ready: seq<TimeoutItem>, now: nat,
                               fired: seq<TimeoutItem>)
  {
    && (forall x :: x in fired ==> x in p0 && (x in ready || x.expire <= now))
    && (forall x :: x in p0 && (x in ready || x.expire <= now) ==> x in fired)
    && Distinct(fired)
    && Firsts(ready) <= fired
  }

  /** Deadlines in order among those fired for timeout. */
  ghost predicate InOrderOfDeadline(fired: seq<TimeoutItem>, n: nat) {
    forall i, j :: n <= i < j < |fired| ==> fired[i].expire <= fired[j].expire
  }

  /** What is fired when the late items are left out: the ready pollers, then the rest of the sweep. */
  lemma FiredAre(ready: seq<TimeoutItem>, acc: seq<TimeoutItem>, late: set<TimeoutItem>,
                 fired: seq<TimeoutItem>)
    requires Distinct(acc) && forall x :: x in acc ==> x !in ready
    requires forall x :: x in late ==> x in acc
    requires fired == Keep(Firsts(ready) + acc, late)
    ensures fired == Firsts(ready) + Keep(acc, late) && Distinct(fired)
    ensures forall x :: x in fired <==> x in ready || (x in acc && x !in late)
  {
    FirstsCover(ready);
    KeepConcat(Firsts(ready), acc, late);
    KeepMembers(acc, late);
    KeepDistinct(acc, late);
    ConcatDistinct(Firsts(ready), Keep(acc, late));
  }

  lemma InOrder(ready: seq<TimeoutItem>, due: seq<TimeoutItem>)
    requires forall i, j :: 0 <= i < j < |due| ==> due[i].expire <= due[j].expire
    ensures InOrderOfDeadline(ready + due, |ready|)
  {
    var c := ready + due;
    assert forall i :: |ready| <= i < |c| ==> c[i] == due[i - |ready|];
  }

  lemma RoundAccounts(p0: set<TimeoutItem>, ready: seq<TimeoutItem>, start: nat, size: nat, now: nat,
                      p1: set<TimeoutItem>, acc: seq<TimeoutItem>, p2: set<TimeoutItem>,
                      late: set<TimeoutItem>, fired: seq<TimeoutItem>)
    requires forall x :: x in ready ==> x in p0
    requires p1 <= p0 && forall x :: x in p0 ==> (x in p1 <==> x !in ready)
    requires SweptInTime(p1, start, size, now, acc, p2)
    requires Distinct(acc)
    requires forall x :: x in late <==> x in acc && now < x.expire
    requires fired == Keep(Firsts(ready) + acc, late)
    ensures FiredRightly(p0, ready, now, fired)
    ensures p2 + late == p0 - (set x | x in fired)
    ensures now - start < size ==> InOrderOfDeadline(fired, |Firsts(ready)|)
  {
    FiredAre(ready, acc, late, fired);
    if now - start < size {
      KeepOrder(acc, late);
      InOrder(Firsts(ready), Keep(acc, late));
    }
  }

  /** The first half of a round: everything that may have to be fired is on the active list. */
  method Gather(wheel: StTimeout, now: nat, ready: seq<TimeoutItem>, active: TimeoutItemLink)
    returns (ghost p1: set<TimeoutItem>, ghost acc: seq<TimeoutItem>)
    requires wheel.Valid() && active.Valid() && active !in wheel.slots && active.items == []
    requires 0 < wheel.start <= now < TWO63 && GapOk(now - wheel.start, wheel.size)
    requires Arrived(wheel.pending, []) && forall p :: p in ready ==> p in wheel.pending
    modifies wheel`start, wheel`startIdx, wheel`pending, wheel.slots, wheel.pending, active
    ensures wheel.Valid() && active.Valid() && wheel.start == now
    ensures p1 <= old(wheel.pending) && forall x :: x in old(wheel.pending) ==> (x in p1 <==> x !in ready)
    ensures SweptInTime(p1, old(wheel.start), wheel.size, now, acc, wheel.pending)
    ensures active.items == Firsts(ready) + acc
    ensures forall x :: x in active.items ==>
      x in old(wheel.pending) && x.expire < TWO64 && (x.bTimeout <==> x in acc)
    ensures forall x :: x in wheel.pending ==> !x.bTimeout
    ensures Counted(old(wheel.pending), ready)
  {
    ghost var from, p0 := wheel.start, wheel.pending;
    assert forall x :: x in p0 ==> x.expire < TWO64;
    Arrive(wheel, ready, active);
    p1 := wheel.pending;
    FirstsCover(ready);
    acc := SweepAndMark(wheel, now, active, from);
    assert forall x :: x in wheel.pending ==> x in p1;
    Disjoint(active.items, Firsts(ready), acc);
  }

  lemma Disjoint(q: seq<TimeoutItem>, a: seq<TimeoutItem>, b: seq<TimeoutItem>)
    requires q == a + b && forall x :: x in b ==> x !in a
    ensures forall x :: x in q ==> (x in a <==> x !in b)
  {}

  /** Each poller of `p0` has counted its events. */
  ghost predicate Counted(p0: set<TimeoutItem>, ready: seq<TimeoutItem>)
    reads p0`raiseCnt, p0`detached
  {
    forall x :: x in p0 ==> x.raiseCnt == multiset(ready)[x] && (x.detached <==> x in ready)
  }

  /** New items: nothing has happened to them yet. */
  ghost predicate BedsNew(beds: seq<TimeoutItem>)
    reads beds`bTimeout, beds`raiseCnt, beds`detached
  {
    forall x :: x in beds ==> !x.bTimeout && !x.detached && x.raiseCnt == 0
  }

  /** One round: a refinement of the set of pending deadlines.  It fires what `FiredRightly` says and
      keeps everything else pending, however many turns of the wheel away; a fired poller has counted
      its events, so it has counted none exactly if the timer fired it.  What it requires of the wheel
      holds again afterwards, so that rounds can follow each other. */
  method Round(wheel: StTimeout, now: nat, ready: seq<TimeoutItem>, naps: seq<Nap>, beds: seq<TimeoutItem>)
    returns (fired: seq<TimeoutItem>)
    requires wheel.Valid() && 0 < wheel.start <= now < TWO63 && GapOk(now - wheel.start, wheel.size)
    requires Arrived(wheel.pending, []) && forall p :: p in ready ==> p in wheel.pending
    requires BedsOk(naps, beds, now) && BedsFree(beds, 0) && BedsNew(beds)
    modifies wheel`start, wheel`startIdx, wheel`pending, wheel.slots, wheel.pending
    modifies beds`prev, beds`next, beds`link, beds`isDelayActive
    ensures wheel.Valid() && wheel.start == now
    ensures FiredRightly(old(wheel.pending), ready, now, fired)
    ensures now - old(wheel.start) < wheel.size ==> InOrderOfDeadline(fired, |Firsts(ready)|)
    ensures wheel.pending == old(wheel.pending) - (set x | x in fired) + Sleepers(naps, beds, |fired|)
    ensures Counted(old(wheel.pending), ready)
    ensures Arrived(wheel.pending, [])
  {
    ghost var p0, from := wheel.pending, wheel.start;
    var active := new TimeoutItemLink();
    wheel.PendingInSlots();
    assert forall x :: x in beds ==> x.link == null && x !in p0;
    ghost var p1, acc := Gather(wheel, now, ready, active);
    assert BedsNew(beds);
    fired := FireAll(wheel, now, active, naps, beds, p0, ready, from, p1, acc);
    ReadyForNext(p0, ready, now, fired, naps, beds, wheel.pending);
  }

  /** After a round the wheel is as the next round wants it. */
  lemma ReadyForNext(p0: set<TimeoutItem>, ready: seq<TimeoutItem>, now: nat, fired: seq<TimeoutItem>,
                     naps: seq<Nap>, beds: seq<TimeoutItem>, p': set<TimeoutItem>)
    requires FiredRightly(p0, ready, now, fired) && Counted(p0, ready) && |beds| == |naps| && BedsNew(beds)
    requires forall x :: x in p0 && x !in fired ==> !x.bTimeout
    requires p' == p0 - (set x | x in fired) + Sleepers(naps, beds, |fired|)
    ensures Arrived(p', [])
  {
    forall x | x in p'
      ensures !x.bTimeout && !x.detached && x.raiseCnt == 0
    {
      if x in p0 && x !in fired {
        assert x !in ready && multiset(ready)[x] == 0;
      } else {
        assert x in Sleepers(naps, beds, |fired|) && x in beds;
      }
    }
  }

  /** The second half of a round. */
  method FireAll(wheel: StTimeout, now: nat, active: TimeoutItemLink, naps: seq<Nap>, beds: seq<TimeoutItem>,
                 ghost p0: set<TimeoutItem>, ghost ready: seq<TimeoutItem>, ghost from: nat,
                 ghost p1: set<TimeoutItem>, ghost acc: seq<TimeoutItem>)
    returns (fired: seq<TimeoutItem>)
    requires wheel.Valid() && active.Valid() && active !in wheel.slots && 0 < wheel.start <= now < TWO63
    requires forall x :: x in ready ==> x in p0
    requires p1 <= p0 && forall x :: x in p0 ==> (x in p1 <==> x !in ready)
    requires SweptInTime(p1, from, wheel.size, now, acc, wheel.pending)
    requires active.items == Firsts(ready) + acc
    requires forall x :: x in active.items ==> x.expire < TWO64 && (x.bTimeout <==> x in acc)
    requires forall x :: x in wheel.pending ==> !x.bTimeout
    requires BedsOk(naps, beds, now) && BedsFree(beds, 0) && BedsNew(beds)
    modifies active, active.items`prev, active.items`next, active.items`link
    modifies active.items`isDelayActive, active.items`bTimeout
    modifies beds`prev, beds`next, beds`link, beds`isDelayActive
    modifies wheel`start, wheel`startIdx, wheel`pending, wheel.slots
    modifies wheel.pending`prev, wheel.pending`next, wheel.pending`link, wheel.pending`isDelayActive
    ensures wheel.Valid() && wheel.start == old(wheel.start)
    ensures FiredRightly(p0, ready, now, fired)
    ensures now - from < wheel.size ==> InOrderOfDeadline(fired, |Firsts(ready)|)
    ensures wheel.pending == p0 - (set x | x in fired) + Sleepers(naps, beds, |fired|)
    ensures forall x :: x in p0 && x !in fired ==> !x.bTimeout
    ensures BedsNew(beds)
  {
    ghost var p2, q := wheel.pending, active.items;
    DropHead(q, Firsts(ready), acc);
    ghost var late;
    fired, late := DispatchGathered(wheel, now, active, naps, beds, ready, acc);
    RoundAccounts(p0, ready, from, wheel.size, now, p1, acc, p2, late, fired);
    StillPending(p0, p2, late, fired);
  }

  /** Dispatching what `Gather` gathered: late are the items of the sweep whose time has not come. */
  method DispatchGathered(wheel: StTimeout, now: nat, active: TimeoutItemLink,
                          naps: seq<Nap>, beds: seq<TimeoutItem>,
                          ghost ready: seq<TimeoutItem>, ghost acc: seq<TimeoutItem>)
    returns (fired: seq<TimeoutItem>, ghost late: set<TimeoutItem>)
    requires wheel.Valid() && active.Valid() && active !in wheel.slots && 0 < wheel.start <= now < TWO63
    requires active.items == Firsts(ready) + acc
    requires forall x :: x in active.items ==> x.expire < TWO64 && (x.bTimeout <==> x in acc)
    requires forall x :: x in wheel.pending ==> !x.bTimeout
    requires BedsOk(naps, beds, now) && BedsFree(beds, 0) && BedsNew(beds)
    modifies active, active.items`prev, active.items`next, active.items`link
    modifies active.items`isDelayActive, active.items`bTimeout
    modifies beds`prev, beds`next, beds`link, beds`isDelayActive
    modifies wheel`start, wheel`startIdx, wheel`pending, wheel.slots
    modifies wheel.pending`prev, wheel.pending`next, wheel.pending`link, wheel.pending`isDelayActive
    ensures wheel.Valid() && wheel.start == old(wheel.start)
    ensures forall x :: x in late <==> x in acc && now < x.expire
    ensures fired == Keep(Firsts(ready) + acc, late)
    ensures wheel.pending == old(wheel.pending) + late + Sleepers(naps, beds, |fired|)
    ensures forall x :: x in old(wheel.pending) || x in late ==> !x.bTimeout
    ensures BedsNew(beds)
  {
    wheel.PendingLinks(active);
    FreeBedsAreNotActive(active, beds, 0);
    assert forall x :: x in wheel.pending ==> x !in active.items;
    fired, late := Dispatch(wheel, now, active, naps, beds);
  }

  lemma StillPending(p0: set<TimeoutItem>, p2: set<TimeoutItem>, late: set<TimeoutItem>, fired: seq<TimeoutItem>)
    requires p2 + late == p0 - (set x | x in fired)
    ensures forall x :: x in p0 && x !in fired ==> x in p2 || x in late
  {
    forall x | x in p0 && x !in fired
      ensures x in p2 || x in late
    {
      assert x in p0 - (set x | x in fired);
    }
  }

  lemma DropHead(q: seq<TimeoutItem>, a: seq<TimeoutItem>, b: seq<TimeoutItem>)
    requires q == a + b && Distinct(q)
    ensures Distinct(b)
  {
    assert forall i :: 0 <= i < |b| ==> b[i] == q[|a| + i];
  }
}
