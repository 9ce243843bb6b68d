/**
 The arithmetic of the timing wheel: which slot a deadline goes to, and how many slots a sweep takes,
 in the machine's integers and in the integers.
 */
module WheelArithmetic {
  import opened MachineInts

  /** Where one gets by counting `d` slots from slot 0, round and round a wheel of `n` slots. */
  function Around(d: nat, n: nat): (r: nat)
    requires n > 0
    ensures r < n
  {
    if d < n then d else Around(d - n, n)
  }

  lemma {:induction false} AroundIsMod(d: nat, n: nat)
    requires n > 0
    ensures Around(d, n) == d % n
  {
    if d >= n {
      AroundIsMod(d - n, n);
      ModShift(d - n, n, 1);
    }
  }

  /** The slot of a deadline: as far past the start index as the deadline is past the start time. */
  function SlotOf(startIdx: nat, start: nat, expire: nat, n: nat): (r: nat)
    requires n > 0 && start <= expire
    ensures r < n
  {
    Around(startIdx + (expire - start), n)
  }

  /** The slot the code computes, in unsigned 64-bit arithmetic. */
  function MachineSlot(startIdx: int, start: int, expire: int, n: nat): nat
    requires n > 0
  {
    U64(startIdx + U64(expire - start)) % n
  }

  /** The start index never overtakes the start time, so for every deadline the wheel accepts, up to
      UINT64_MAX, nothing wraps around, whatever the size of the wheel. */
  lemma MachineSlotExact(startIdx: nat, start: nat, expire: nat, n: nat)
    requires n > 0 && startIdx <= start <= expire < TWO64
    ensures U64(expire - start) == expire - start
    ensures MachineSlot(startIdx, start, expire, n) == SlotOf(startIdx, start, expire, n)
  {
    AroundIsMod(startIdx + (expire - start), n);
  }

  /** When the wheel size divides 2^64 the machine's slot is right even if the sum wraps around. */
  lemma MachineSlotWraps(startIdx: nat, start: nat, expire: nat, n: nat, q: nat)
    requires n > 0 && TWO64 == n * q && startIdx < TWO64 && start <= expire < TWO64
    ensures MachineSlot(startIdx, start, expire, n) == SlotOf(startIdx, start, expire, n)
  {
    var sum := startIdx + (expire - start);
    AroundIsMod(sum, n);
    Wrap(sum, TWO64);
    SmallRemainder(expire - start, TWO64);
    if sum >= TWO64 {
      ModShift(sum - TWO64, n, q);
    }
  }

  /** Two distances from the start index fall into the same slot exactly when they agree modulo the
      size. */
  lemma SameSlot(startIdx: nat, d: nat, i: nat, n: nat)
    requires i < n
    ensures Around(startIdx + d, n) == Around(startIdx + i, n) <==> Around(d, n) == i
  {
    AroundIsMod(startIdx + d, n);
    AroundIsMod(startIdx + i, n);
    AroundIsMod(d, n);
    SameRemainder(startIdx, d, i, n);
  }

  // ----- How many slots a sweep takes ------------------------------------------------------------

  function Min(a: int, b: int): int { if a <= b then a else b }

  /** `cnt` of TakeAllTimeout, `gap` milliseconds after the last sweep; negative means no sweep. */
  function SweepCount(gap: nat, n: nat): int {
    var cnt := Int32(gap + 1);
    if cnt > n then n else cnt
  }

  /** The gap survives the conversion to `int` well enough. */
  predicate GapOk(gap: nat, n: nat) {
    Int32(gap + 1) >= Min(gap + 1, n)
  }

  lemma SmallGapIsOk(gap: nat, n: nat)
    requires gap + 1 < TWO31
    ensures GapOk(gap, n) && SweepCount(gap, n) == Min(gap + 1, n)
  {}

  /** A deadline `d` milliseconds after the last sweep is in one of the slots taken. */
  predicate Swept(d: nat, gap: nat, n: nat)
    requires n > 0
  {
    Around(d, n) < SweepCount(gap, n)
  }

  /** The sweep reaches every deadline that has passed exactly when the gap is ok. */
  lemma SweepIsComplete(gap: nat, n: nat)
    requires 0 < n < TWO31
    ensures GapOk(gap, n) <==> forall d :: 0 <= d <= gap ==> Swept(d, gap, n)
  {
    if GapOk(gap, n) {
      forall d | 0 <= d <= gap
        ensures Swept(d, gap, n)
      {
        AroundAtMost(d, n);
      }
    } else {
      var d := Min(gap + 1, n) - 1;
      assert !Swept(d, gap, n);
    }
  }

  lemma {:induction false} AroundAtMost(d: nat, n: nat)
    requires n > 0
    ensures Around(d, n) <= d
  {
    if d >= n {
      AroundAtMost(d - n, n);
    }
  }

  /** With 65536 slots and 2^32 ms between two sweeps, only one slot is taken: an item that was due
      1 ms after the last sweep is missed. */
  lemma HugeGapMisses()
    ensures SweepCount(TWO32, 65536) == 1 && !Swept(1, TWO32, 65536) && !GapOk(TWO32, 65536)
  {}
}
