/**
 The timing wheel of a thread (`StTimeout`): adding items, taking one out, and the sweep.
 */
module TimingWheel {
  import opened Common
  import opened TimeoutList
  import opened MachineInts
  import opened WheelArithmetic

  class StTimeout {
    const size: nat                        // iItemSize_
    const slots: seq<TimeoutItemLink>      // pItems_, an array whose elements are the list objects
    var start: nat                         // ullStart_
    var startIdx: int                      // llStartIdx_
    ghost var pending: set<TimeoutItem>    // the items in the wheel

    ghost function Slot(x: TimeoutItem): nat
      reads this
      requires size > 0 && 0 <= startIdx && start <= x.expire
    {
      SlotOf(startIdx, start, x.expire, size)
    }

    ghost predicate Shape()
      reads this
    {
      && 0 < size < TWO31 && |slots| == size
      && forall i, j :: 0 <= i < j < size ==> slots[i] != slots[j]
    }

    /** Every pending item is in the slot its deadline asks for, and nothing else is in a slot. */
    ghost predicate Valid()
      reads this, slots, pending`prev, pending`next, pending`link
    {
      && Shape()
      && 0 <= startIdx <= start < TWO63
      && (start == 0 ==> pending == {})
      && (forall i, x :: 0 <= i < size && x in slots[i].items ==> x in pending)
      && (forall x :: x in pending ==> start <= x.expire < TWO64)
      && (forall i, x :: 0 <= i < size && x in slots[i].items ==> Slot(x) == i)
      && (forall x {:trigger Slot(x)} :: x in pending ==> x in slots[Slot(x)].items)
      && (forall i {:trigger slots[i].Valid()} :: 0 <= i < size ==> slots[i].Valid())
    }

    constructor (iSize: nat, now: nat)
      requires 0 < iSize < TWO31 && now < TWO63
      ensures Valid() && pending == {} && size == iSize && start == now && startIdx == 0
      ensures forall i :: 0 <= i < size ==> fresh(slots[i])
    {
      size := iSize;
      var a: seq<TimeoutItemLink> := [];
      while |a| < iSize
        invariant |a| <= iSize
        invariant forall i :: 0 <= i < |a| ==> fresh(a[i]) && a[i].Valid() && a[i].items == []
        invariant forall i, j :: 0 <= i < j < |a| ==> a[i] != a[j]
      {
        var l := new TimeoutItemLink();
        a := a + [l];
      }
      slots := a;
      start, startIdx, pending := now, 0, {};
    }

    /** A wheel that has no start time yet starts now. */
    method SetStart(now: nat)
      requires Valid() && 0 < now < TWO63
      modifies this`start, this`startIdx
      ensures Valid() && start > 0
      ensures start == if old(start) == 0 then now else old(start)
      ensures startIdx == if old(start) == 0 then 0 else old(startIdx)
    {
      if start == 0 {
        start := now;
        startIdx := 0;
      }
    }

    /** Registers an item for its deadline; refused when the deadline, or `now` itself, is already
        past. */
    method AddTimeout(item: TimeoutItem, now: nat) returns (ret: int)
      requires Valid() && 0 < now < TWO63 && item.expire < TWO64
      modifies this`start, this`startIdx, this`pending, slots, pending`next
      modifies item`prev, item`next, item`link, item`isDelayActive
      ensures Valid()
      ensures ret == 0 || ret == -1
      ensures ret == 0 <==> start <= now <= item.expire
      ensures start == if old(start) == 0 then now else old(start)
      ensures startIdx == if old(start) == 0 then 0 else old(startIdx)
      ensures pending == old(pending) + if ret == 0 && old(item.link) == null then {item} else {}
      ensures ret == 0 ==> (item.isDelayActive <==> item.expire - start >= size)
      ensures ret != 0 || old(item.link) != null ==> item.link == old(item.link)
    {
      SetStart(now);
      var diff := U64(item.expire - start);
      assert start <= item.expire ==> diff == item.expire - start;
      item.isDelayActive := diff >= size;
      if now < start || item.expire < now {
        return -1;
      }
      var idx := MachineSlot(startIdx, start, item.expire, size);
      MachineSlotExact(startIdx, start, item.expire, size);
      Insert(item, idx);
      return 0;
    }

    /** The lists of the other slots survive a change to one slot. */
    twostate lemma OtherSlotsStay(idx: nat)
      requires old(Valid()) && idx < size
      requires forall j :: 0 <= j < size && j != idx ==> unchanged(slots[j])
      requires forall x :: x in old(pending) && old(x.link) != slots[idx] ==>
        x.prev == old(x.prev) && x.next == old(x.next) && x.link == old(x.link)
      ensures forall j :: 0 <= j < size && j != idx ==> slots[j].Valid()
    {
      forall j | 0 <= j < size && j != idx
        ensures slots[j].Valid()
      {
        assert old(slots[j].Valid());
        assert slots[j] != slots[idx];
        slots[j].StaysValid();
      }
    }

    method Insert(item: TimeoutItem, idx: nat)
      requires Valid() && 0 < start <= item.expire < TWO64 && idx == Slot(item)
      modifies this`pending, slots[idx], slots[idx].items`next, item`prev, item`next, item`link
      ensures Valid()
      ensures pending == old(pending) + if old(item.link) == null then {item} else {}
      ensures old(item.link) != null ==> item.link == old(item.link)
    {
      if item.link != null {
        slots[idx].AddTail(item);
        return;
      }
      var slot := slots[idx];
      assert slots[idx].Valid();
      PendingInSlots();
      slot.AddTail(item);
      pending := pending + {item};
      SlotGained(idx, item);
    }

    /** The wheel is in order after an item was put into its slot. */
    twostate lemma SlotGained(idx: nat, new item: TimeoutItem)
      requires old(Valid()) && idx < size && unchanged(this`start) && unchanged(this`startIdx)
      requires forall j :: 0 <= j < size && j != idx ==> unchanged(slots[j])
      requires forall x :: x in old(pending) && old(x.link) != slots[idx] ==>
        x.prev == old(x.prev) && x.next == old(x.next) && x.link == old(x.link)
      requires 0 < start <= item.expire < TWO64 && Slot(item) == idx
      requires slots[idx].items == old(slots[idx].items) + [item] && slots[idx].Valid()
      requires pending == old(pending) + {item}
      ensures Valid()
    {
      OtherSlotsStay(idx);
      forall j, x | 0 <= j < size && x in slots[j].items
        ensures x in pending && Slot(x) == j
      {
        assert x == item || x in old(slots[j].items);
        assert x != item ==> old(Slot(x)) == j;
      }
      forall x | x in pending
        ensures x in slots[Slot(x)].items
      {
        assert x != item ==> x in old(slots[Slot(x)].items);
      }
    }

    /** The wheel is in order after the items `gone` were taken out of one slot. */
    twostate lemma SlotLost(idx: nat, new gone: set<TimeoutItem>)
      requires old(Valid()) && idx < size && unchanged(this`start) && unchanged(this`startIdx)
      requires forall j :: 0 <= j < size && j != idx ==> unchanged(slots[j])
      requires forall x :: x in old(pending) && old(x.link) != slots[idx] ==>
        x.prev == old(x.prev) && x.next == old(x.next) && x.link == old(x.link)
      requires forall x :: x in gone ==> x in old(slots[idx].items)
      requires forall x :: x in slots[idx].items <==> x in old(slots[idx].items) && x !in gone
      requires slots[idx].Valid()
      requires forall x :: x in pending <==> x in old(pending) && x !in gone
      ensures Valid()
    {
      OtherSlotsStay(idx);
      forall j, x | 0 <= j < size && x in slots[j].items
        ensures x in pending && Slot(x) == j
      {
        assert x in old(slots[j].items);
        assert old(Slot(x)) == j;
      }
      forall x | x in pending
        ensures x in slots[Slot(x)].items
      {
        assert x in old(slots[Slot(x)].items);
      }
    }

    /** Takes one item out before its time. */
    method Cancel(item: TimeoutItem)
      requires Valid() && item in pending
      modifies this`pending, item`prev, item`next, item`link, pending`next, pending`prev, slots
      ensures Valid() && pending == old(pending) - {item} && item.link == null
    {
      ghost var idx := Slot(item);
      ghost var slot := slots[idx];
      ghost var was := slot.items;
      assert slots[idx].Valid() && item in slot.items && item.link == slot;
      PendingInSlots();
      ghost var k := item.RemoveFromLink();
      DropDistinct(was, k);
      pending := pending - {item};
      SlotLost(idx, {item});
    }

    /** Moves what one slot holds to the end of the result. */
    method TakeSlot(idx: nat, result: TimeoutItemLink)
      requires Valid() && idx < size && result.Valid() && result !in slots
      modifies this`pending, slots[idx], result, result.items`next
      modifies slots[idx].items`prev, slots[idx].items`link
      ensures Valid() && result.Valid()
      ensures result.items == old(result.items) + old(slots[idx].items)
      ensures forall x :: x in pending <==> x in old(pending) && x !in old(slots[idx].items)
    {
      var slot := slots[idx];
      ghost var taken := slot.items;
      assert slots[idx].Valid();
      PendingInSlots();
      result.Join(slot);
      pending := set x | x in pending && x !in taken;
      SlotLost(idx, set x | x in taken);
    }

    /** One turn of the loop of the sweep. */
    method TakeOffset(i: nat, result: TimeoutItemLink) returns (ghost s: seq<TimeoutItem>)
      requires Valid() && result.Valid() && result !in slots && i < size
      modifies this`pending, result.items`next, slots, result
      modifies pending`prev, pending`link
      ensures Valid() && result.Valid()
      ensures result.items == old(result.items) + s
      ensures forall x :: x in s <==> x in old(pending) && Offset(x, start, size) == i
      ensures forall x :: x in pending <==> x in old(pending) && x !in s
    {
      var idx := (startIdx + i) % size;
      AroundIsMod(startIdx + i, size);
      s := slots[idx].items;
      SlotIsOffset(i, idx);
      TakeSlot(idx, result);
    }

    /** The loop of the sweep: everything up to `cnt` slots past the start index, slot by slot. */
    method Sweep(cnt: nat, result: TimeoutItemLink) returns (ghost acc: seq<TimeoutItem>)
      requires Valid() && result.Valid() && result !in slots
      requires cnt <= size
      modifies this`pending, result.items`next, slots, result
      modifies pending`next, pending`prev, pending`link
      ensures Valid() && result.Valid()
      ensures result.items == old(result.items) + acc
      ensures SweptSoFar(old(pending), start, size, cnt, acc, pending)
    {
      acc := [];
      var i := 0;
      while i < cnt
        invariant 0 <= i <= cnt
        invariant Valid() && result.Valid()
        invariant result.items == old(result.items) + acc
        invariant pending <= old(pending) && forall x :: x in acc ==> x in old(pending)
        invariant SweptSoFar(old(pending), start, size, i, acc, pending)
      {
        ghost var p := pending;
        ghost var s := TakeOffset(i, result);
        SweepOneMore(old(pending), start, size, i, acc, p, s, pending);
        AppendAssociates(old(result.items), acc, s);
        acc := acc + s;
        i := i + 1;
      }
    }

    /** The wheel stays in order as long as nobody touches it or what it holds. */
    twostate lemma StaysValid()
      requires old(Valid()) && unchanged(this)
      requires forall j :: 0 <= j < size ==> unchanged(slots[j])
      requires forall x :: x in pending ==>
        x.prev == old(x.prev) && x.next == old(x.next) && x.link == old(x.link)
      ensures Valid()
    {
      if start > 0 {
        StartMovedOn();
      } else {
        forall j | 0 <= j < size
          ensures slots[j].Valid()
        {
          assert old(slots[j].Valid());
          slots[j].StaysValid();
        }
      }
    }

    /** Pending items belong to the wheel's own lists. */
    lemma PendingInSlots()
      requires Valid()
      ensures forall x :: x in pending ==> x.link != null && x.link in slots
      ensures InLists()
    {
      forall x | x in pending
        ensures x.link == slots[Slot(x)] && x in slots[Slot(x)].items
      {
        assert slots[Slot(x)].Valid();
      }
    }

    lemma PendingLinks(other: TimeoutItemLink)
      requires Valid() && other !in slots
      ensures forall x :: x in pending ==> x.link != null && x.link in slots && x.link != other
    {
      PendingInSlots();
    }

    /** Moving the start time and the start index on by the same amount moves nobody to another slot. */
    twostate lemma StartMovedOn()
      requires old(Valid()) && unchanged(this`pending)
      requires forall j :: 0 <= j < size ==> unchanged(slots[j])
      requires forall x :: x in pending ==>
        x.prev == old(x.prev) && x.next == old(x.next) && x.link == old(x.link)
      requires old(start) <= start < TWO63 && 0 <= startIdx <= start && start > 0
      requires forall x :: x in pending ==> start <= x.expire
      requires pending != {} ==> startIdx - old(startIdx) == start - old(start)
      ensures Valid()
    {
      forall j | 0 <= j < size
        ensures slots[j].Valid()
      {
        assert old(slots[j].Valid());
        slots[j].StaysValid();
      }
      forall j, x | 0 <= j < size && x in slots[j].items
        ensures x in pending && Slot(x) == j
      {
        assert old(Slot(x)) == j;
      }
      forall x | x in pending
        ensures x in slots[Slot(x)].items
      {
        assert x in old(slots[Slot(x)].items);
      }
    }

    /** Every pending item is in one of the wheel's lists, whichever slot that is. */
    ghost predicate InLists()
      reads this`pending, slots, pending`link
    {
      forall x :: x in pending ==> x.link != null && x.link in slots && x in x.link.items
    }

    /** The end of the sweep: start time and start index move on. */
    method MoveOn(now: nat, cnt: nat, ghost p0: set<TimeoutItem>, ghost acc: seq<TimeoutItem>)
      requires Valid() && 0 < start <= now < TWO63
      requires cnt == SweepCount(now - start, size)
      requires forall x :: x in p0 ==> start <= x.expire
      requires SweptSoFar(p0, start, size, cnt, acc, pending)
      modifies this`start, this`startIdx
      ensures start == now && startIdx == old(startIdx) + cnt - 1 && InLists()
      ensures GapOk(now - old(start), size) ==>
        Valid() && SweptInTime(p0, old(start), size, now, acc, pending)
    {
      ghost var from := start;
      PendingInSlots();
      start := now;
      startIdx := startIdx + (cnt - 1);
      if GapOk(now - from, size) {
        SweepTakesDue(p0, from, size, now, acc, pending);
        StartMovedOn();
      }
    }

    /** A sweep of `cnt` slots. */
    method SweepAndMoveOn(now: nat, cnt: nat, result: TimeoutItemLink) returns (ghost acc: seq<TimeoutItem>)
      requires Valid() && 0 < start <= now < TWO63 && cnt == SweepCount(now - start, size)
      requires result.Valid() && result !in slots
      modifies this`start, this`startIdx, this`pending, slots
      modifies result.items`next, pending`next, pending`prev, pending`link, result
      ensures result.Valid() && result.items == old(result.items) + acc
      ensures start == now && startIdx == old(startIdx) + cnt - 1 && InLists()
      ensures SweptSoFar(old(pending), old(start), size, cnt, acc, pending)
      ensures GapOk(now - old(start), size) ==>
        Valid() && SweptInTime(old(pending), old(start), size, now, acc, pending)
    {
      ghost var p0 := pending;
      assert forall x :: x in p0 ==> start <= x.expire;
      acc := Sweep(cnt, result);
      MoveOn(now, cnt, p0, acc);
    }

    /** The sweep: appends to the result what is in the slots it counts, and nothing else.  Only when the
        gap since the last sweep does not survive the conversion to `int` is that not everything whose
        time may have come, nor the wheel in order afterwards. */
    method TakeAllTimeout(now: nat, result: TimeoutItemLink) returns (ghost acc: seq<TimeoutItem>)
      requires Valid() && 0 < now < TWO63
      requires result.Valid() && result !in slots
      modifies this`start, this`startIdx, this`pending, slots
      modifies result.items`next, pending`next, pending`prev, pending`link, result
      ensures result.Valid() && result.items == old(result.items) + acc && InLists()
      ensures var from := From(old(start), now);
        if Idle(from, now) then Valid() && start == from && pending == old(pending) && acc == []
        else start == now && SweptSoFar(old(pending), from, size, SweepCount(now - from, size), acc, pending)
      ensures var from := From(old(start), now);
        !Idle(from, now) && GapOk(now - from, size) ==>
          Valid() && SweptInTime(old(pending), from, size, now, acc, pending)
    {
      SetStart(now);
      acc := SweepIfDue(now, result);
    }

    /** The sweep of a wheel that has a start time. */
    method SweepIfDue(now: nat, result: TimeoutItemLink) returns (ghost acc: seq<TimeoutItem>)
      requires Valid() && 0 < now < TWO63 && start > 0
      requires result.Valid() && result !in slots
      modifies this`start, this`startIdx, this`pending, slots
      modifies result.items`next, pending`next, pending`prev, pending`link, result
      ensures result.Valid() && result.items == old(result.items) + acc && InLists()
      ensures if Idle(old(start), now) then Valid() && start == old(start) && pending == old(pending) && acc == []
        else
          && start == now
          && SweptSoFar(old(pending), old(start), size, SweepCount(now - old(start), size), acc, pending)
      ensures !Idle(old(start), now) && GapOk(now - old(start), size) ==>
        Valid() && SweptInTime(old(pending), old(start), size, now, acc, pending)
    {
      acc := [];
      if now >= start {
        var cnt := SweepCount(now - start, size);
        if cnt >= 0 {
          acc := SweepAndMoveOn(now, cnt, result);
          return;
        }
      }
      PendingInSlots();
    }

    /** The sweep of a running wheel whose clock has not gone back, nor jumped too far. */
    method TakeInTime(now: nat, result: TimeoutItemLink) returns (ghost acc: seq<TimeoutItem>)
      requires Valid() && 0 < start <= now < TWO63 && GapOk(now - start, size)
      requires result.Valid() && result !in slots && result.items == []
      modifies this`start, this`startIdx, this`pending, slots
      modifies pending`next, pending`prev, pending`link, result
      ensures result.Valid() && result.items == acc
      ensures Valid() && start == now
      ensures SweptInTime(old(pending), old(start), size, now, acc, pending)
    {
      acc := TakeAllTimeout(now, result);
    }

    static function From(start: nat, now: nat): nat {
      if start == 0 then now else start
    }

    /** Nothing is swept: the clock is behind, or the count overflowed. */
    predicate Idle(from: nat, now: nat) {
      now < from || SweepCount(now - from, size) < 0
    }

    /** What a slot holds is what is as far past the start index as the slot is. */
    lemma SlotIsOffset(i: nat, idx: nat)
      requires Valid() && i < size && idx == Around(startIdx + i, size)
      ensures forall x :: x in slots[idx].items <==> x in pending && Offset(x, start, size) == i
    {
      forall x | x in pending
        ensures x in slots[idx].items <==> Offset(x, start, size) == i
      {
        SameSlot(startIdx, x.expire - start, i, size);
        assert x in slots[Slot(x)].items;
      }
    }
  }

  // ----- A sweep that comes too late -------------------------------------------------------------

  /** An item due 1 ms after the wheel was started, and a sweep 2^32 ms after that: the sweep takes
      nothing, and the item stays in the wheel although its time is long past. */
  method SweepForgets(item: TimeoutItem) returns (wheel: StTimeout, result: TimeoutItemLink)
    requires item.expire == 2 && item.link == null
    modifies item
    ensures fresh(wheel) && fresh(result) && result.items == []
    ensures wheel.start == 1 + TWO32 > item.expire
    ensures wheel.pending == {item} && item.link in wheel.slots && item in item.link.items
  {
    wheel := new StTimeout(65536, 1);
    var ret := wheel.AddTimeout(item, 1);
    result := new TimeoutItemLink();
    HugeGapMisses();
    ghost var acc := wheel.TakeAllTimeout(1 + TWO32, result);
    assert Offset(item, 1, 65536) == 1;
    NothingIn(acc);
  }

  lemma NothingIn(q: seq<TimeoutItem>)
    requires forall x :: x !in q
    ensures q == []
  {
    if q != [] {
      HeadIsIn(q);
    }
  }

  lemma HeadIsIn(q: seq<TimeoutItem>)
    requires q != []
    ensures q[0] in q
  {}

  // ----- What a sweep takes ----------------------------------------------------------------------

  /** How many slots past the start index an item is. */
  ghost function Offset(x: TimeoutItem, start: nat, size: nat): nat {
    if size > 0 && start <= x.expire then Around(x.expire - start, size) else 0
  }

  /** Of the items `p0`, those up to `n` slots away are in `acc`, nearest first; `rest` are the others. */
  ghost predicate SweptSoFar(p0: set<TimeoutItem>, start: nat, size: nat, n: nat,
                             acc: seq<TimeoutItem>, rest: set<TimeoutItem>)
  {
    && (forall x :: x in p0 ==> if Offset(x, start, size) < n then x in acc else x in rest)
    && (forall x :: x in acc ==> x in p0 && Offset(x, start, size) < n)
    && (forall x :: x in rest ==> x in p0 && Offset(x, start, size) >= n)
    && (forall i, j :: 0 <= i < j < |acc| ==> Offset(acc[i], start, size) <= Offset(acc[j], start, size))
  }

  lemma AppendAssociates(a: seq<TimeoutItem>, b: seq<TimeoutItem>, c: seq<TimeoutItem>)
    ensures a + b + c == a + (b + c)
  {}

  lemma SweepOneMore(p0: set<TimeoutItem>, start: nat, size: nat, n: nat, acc: seq<TimeoutItem>,
                     p: set<TimeoutItem>, s: seq<TimeoutItem>, rest: set<TimeoutItem>)
    requires SweptSoFar(p0, start, size, n, acc, p)
    requires forall x :: x in s <==> x in p && Offset(x, start, size) == n
    requires forall x :: x in rest <==> x in p && x !in s
    ensures SweptSoFar(p0, start, size, n + 1, acc + s, rest)
  {
    var c := acc + s;
    forall i, j | 0 <= i < j < |c|
      ensures Offset(c[i], start, size) <= Offset(c[j], start, size)
    {
      assert c[i] in (if i < |acc| then acc else s);
      assert c[j] in (if j < |acc| then acc else s);
    }
  }

  /** The sweep at `now` of what was pending: it takes everything that is due, and when the last sweep
      was less than one turn ago, what is due comes in the order of the deadlines. */
  ghost predicate SweptInTime(p0: set<TimeoutItem>, start: nat, size: nat, now: nat,
                              acc: seq<TimeoutItem>, rest: set<TimeoutItem>)
  {
    && (forall x :: x in p0 ==> x in acc || x in rest)
    && (forall x :: x in acc ==> x in p0 && x !in rest)
    && (forall x :: x in rest ==> x in p0 && now < x.expire)
    && (now - start < size ==>
          forall i, j :: 0 <= i < j < |acc| && acc[i].expire <= now && acc[j].expire <= now
            ==> acc[i].expire <= acc[j].expire)
  }

  lemma SweepTakesDue(p0: set<TimeoutItem>, start: nat, size: nat, now: nat,
                      acc: seq<TimeoutItem>, rest: set<TimeoutItem>)
    requires 0 < size && start <= now && GapOk(now - start, size)
    requires forall x :: x in p0 ==> start <= x.expire
    requires 0 <= SweepCount(now - start, size)
    requires SweptSoFar(p0, start, size, SweepCount(now - start, size), acc, rest)
    ensures SweptInTime(p0, start, size, now, acc, rest)
    ensures now - start >= size ==> rest == {}
  {
    forall x | x in p0 && x.expire <= now
      ensures x !in rest
    {
      AroundAtMost(x.expire - start, size);
    }
  }
}
