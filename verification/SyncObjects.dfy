/**
 The synchronisation primitives as objects updated in place.  Each method is the part of the C++
 method that runs under the object's spin lock.  It has the effect of `Primitives.Apply`, and says
 itself what that means for the owners, a ghost field: who gets the lock, who is handed it, and that
 exclusion holds.  `mustYield` says that the caller queued itself and yields next; `woken` are the fibers
 the caller pushes on signal queues next.
 */
module SyncObjects {
  import opened Primitives

  class FiberMutex {
    var waiters: seq<Fiber>
    var locked: bool
    ghost var owners: Owners

    function View(): Prim
      reads this
    {
      Mutex(locked, waiters)
    }

    ghost predicate Valid()
      reads this
    {
      OwnInv(View(), owners)
    }

    constructor ()
      ensures Valid() && View() == Mutex(false, []) && owners == Owners(multiset{}, multiset{})
    {
      waiters, locked := [], false;
      owners := Owners(multiset{}, multiset{});
    }

    method Lock(self: Fiber) returns (mustYield: bool)
      requires Valid()
      modifies this
      ensures Valid()
      ensures var e := Apply(old(View()), Op.Lock, self); View() == e.prim && mustYield == e.enqueued
      ensures mustYield <==> old(owners.writers) != multiset{}
      ensures if mustYield then owners == old(owners) && waiters == old(waiters) + [self]
        else owners.writers == multiset{self} && waiters == old(waiters)
    {
      GrantMeansOwning(View(), Op.Lock, self, owners);
      owners := OwnersAfter(View(), Op.Lock, self, owners);
      if !locked {
        locked := true;
        return false;
      }
      waiters := waiters + [self];
      return true;
    }

    method TryLock(self: Fiber) returns (ok: bool)
      requires Valid()
      modifies this
      ensures Valid()
      ensures var e := Apply(old(View()), Op.TryLock, self); View() == e.prim && ok == e.granted
      ensures ok <==> old(owners.writers) == multiset{}
      ensures if ok then owners.writers == multiset{self} && waiters == old(waiters) else unchanged(this)
    {
      GrantMeansOwning(View(), Op.TryLock, self, owners);
      owners := OwnersAfter(View(), Op.TryLock, self, owners);
      if !locked {
        locked := true;
        return true;
      }
      return false;
    }

    /** The mutex is handed to the first waiter, or it is free. */
    method Unlock(self: Fiber) returns (woken: seq<Fiber>)
      requires Valid() && self in owners.writers
      modifies this
      ensures Valid()
      ensures var e := Apply(old(View()), Op.Unlock, self); View() == e.prim && woken == e.woken
      ensures owners.writers == multiset(woken) && old(waiters) == woken + waiters
      ensures woken == [] <==> old(waiters) == []
    {
      UnlockOwners(View(), owners, self);
      OwnershipPreserved(View(), Op.Unlock, self, owners);
      SingletonMinus(owners.writers, self);
      owners := OwnersAfter(View(), Op.Unlock, self, owners);
      woken := [];
      if waiters != [] {
        woken := [waiters[0]];
        waiters := waiters[1..];
      } else {
        locked := false;
      }
    }
  }

  class SharedMutex {
    var rwaiters: seq<Fiber>
    var wwaiters: seq<Fiber>
    var state: int
    ghost var owners: Owners

    function View(): Prim
      reads this
    {
      Shared(state, rwaiters, wwaiters)
    }

    ghost predicate Valid()
      reads this
    {
      OwnInv(View(), owners)
    }

    constructor ()
      ensures Valid() && View() == Shared(0, [], []) && owners == Owners(multiset{}, multiset{})
    {
      rwaiters, wwaiters, state := [], [], 0;
      owners := Owners(multiset{}, multiset{});
    }

    /** Nobody else owns the lock, or the caller queues behind the other writers. */
    method Lock(self: Fiber) returns (mustYield: bool)
      requires Valid()
      modifies this
      ensures Valid()
      ensures var e := Apply(old(View()), Op.Lock, self); View() == e.prim && mustYield == e.enqueued
      ensures mustYield <==> old(owners) != Owners(multiset{}, multiset{})
      ensures if mustYield then owners == old(owners) && wwaiters == old(wwaiters) + [self]
        else owners == Owners(multiset{self}, multiset{})
    {
      Acquires(Op.Lock, self);
      owners := OwnersAfter(View(), Op.Lock, self, owners);
      if state == 0 {
        state := -1;
        return false;
      }
      wwaiters := wwaiters + [self];
      return true;
    }

    method TryLock(self: Fiber) returns (ok: bool)
      requires Valid()
      modifies this
      ensures Valid()
      ensures var e := Apply(old(View()), Op.TryLock, self); View() == e.prim && ok == e.granted
      ensures ok <==> old(owners) == Owners(multiset{}, multiset{})
      ensures if ok then owners == Owners(multiset{self}, multiset{}) else unchanged(this)
    {
      Acquires(Op.TryLock, self);
      owners := OwnersAfter(View(), Op.TryLock, self, owners);
      if state == 0 {
        state := -1;
        return true;
      }
      return false;
    }

    /** The lock is handed to the first writer, or to all waiting readers together, or it is free. */
    method Unlock(self: Fiber) returns (woken: seq<Fiber>)
      requires Valid() && self in owners.writers
      modifies this
      ensures Valid()
      ensures var e := Apply(old(View()), Op.Unlock, self); View() == e.prim && woken == e.woken
      ensures if old(wwaiters) != [] then owners == Owners(multiset{old(wwaiters)[0]}, multiset{})
        else owners == Owners(multiset{}, multiset(old(rwaiters)))
      ensures if old(wwaiters) != [] then old(wwaiters) == woken + wwaiters && |woken| == 1
        else woken == old(rwaiters) && rwaiters == wwaiters == []
    {
      ghost var p := View();
      woken := [];
      if wwaiters != [] {
        woken := [wwaiters[0]];
        wwaiters := wwaiters[1..];
      } else if rwaiters != [] {
        state := |rwaiters|;
        woken, rwaiters := rwaiters, [];
      } else {
        state := 0;
      }
      assert View() == Apply(p, Op.Unlock, self).prim;
      SharedUnlocked(p, self, owners);
      owners := OwnersAfter(p, Op.Unlock, self, owners);
    }

    /** No writer owns the lock or waits for it, or the caller queues. */
    method LockShared(self: Fiber) returns (mustYield: bool)
      requires Valid()
      modifies this
      ensures Valid()
      ensures var e := Apply(old(View()), Op.LockShared, self);
        View() == e.prim && mustYield == e.enqueued
      ensures mustYield <==> old(owners.writers) != multiset{} || old(wwaiters) != []
      ensures if mustYield then owners == old(owners) && rwaiters == old(rwaiters) + [self]
        else owners == Owners(multiset{}, old(owners.readers) + multiset{self})
    {
      Acquires(Op.LockShared, self);
      owners := OwnersAfter(View(), Op.LockShared, self, owners);
      if state >= 0 && wwaiters == [] {
        state := state + 1;
        return false;
      }
      rwaiters := rwaiters + [self];
      return true;
    }

    method TryLockShared(self: Fiber) returns (ok: bool)
      requires Valid()
      modifies this
      ensures Valid()
      ensures var e := Apply(old(View()), Op.TryLockShared, self); View() == e.prim && ok == e.granted
      ensures ok <==> old(owners.writers) == multiset{} && old(wwaiters) == []
      ensures if ok then owners == Owners(multiset{}, old(owners.readers) + multiset{self}) else unchanged(this)
    {
      Acquires(Op.TryLockShared, self);
      owners := OwnersAfter(View(), Op.TryLockShared, self, owners);
      if state >= 0 && wwaiters == [] {
        state := state + 1;
        return true;
      }
      return false;
    }

    /** One reader fewer; the last one hands the lock to the first writer, if one waits. */
    method UnlockShared(self: Fiber) returns (woken: seq<Fiber>)
      requires Valid() && self in owners.readers
      modifies this
      ensures Valid()
      ensures var e := Apply(old(View()), Op.UnlockShared, self); View() == e.prim && woken == e.woken
      ensures owners == Owners(multiset(woken), old(owners.readers) - multiset{self})
      ensures woken == if |old(owners.readers)| == 1 && old(wwaiters) != [] then [old(wwaiters)[0]] else []
    {
      ghost var p := View();
      woken := [];
      if state == 1 && wwaiters != [] {
        woken := [wwaiters[0]];
        wwaiters := wwaiters[1..];
        state := -1;
      } else {
        state := state - 1;
      }
      assert View() == Apply(p, Op.UnlockShared, self).prim;
      SharedLeft(p, self, owners);
      owners := OwnersAfter(p, Op.UnlockShared, self, owners);
    }

    /** What a lock call does to the owners. */
    lemma Acquires(op: Op, self: Fiber)
      requires Valid() && IsAcquire(op)
      ensures var e := Apply(View(), op, self); var o := OwnersAfter(View(), op, self, owners);
        && (e.granted <==> Free(View(), op, owners))
        && (!e.granted ==> o == owners)
        && (e.granted && (op.Lock? || op.TryLock?) ==> o == Owners(multiset{self}, multiset{}))
        && (e.granted && (op.LockShared? || op.TryLockShared?) ==>
              o == Owners(multiset{}, owners.readers + multiset{self}))
        && OwnInv(e.prim, o)
    {
      GrantsExactlyWhenFree(View(), op, self, owners);
      GrantMeansOwning(View(), op, self, owners);
      OwnershipPreserved(View(), op, self, owners);
    }
  }

  class FiberSemaphore {
    var waiters: seq<Fiber>
    var count: nat

    function View(): Prim
      reads this
    {
      Semaphore(count, waiters)
    }

    /** Nobody waits while there are tokens. */
    predicate Valid()
      reads this
    {
      count > 0 ==> waiters == []
    }

    constructor (count: nat)
      ensures Valid() && View() == Semaphore(count, [])
    {
      this.count, waiters := count, [];
    }

    method Wait(self: Fiber) returns (mustYield: bool)
      requires Valid()
      modifies this
      ensures Valid()
      ensures var e := Apply(old(View()), Op.Wait, self); View() == e.prim && mustYield == e.enqueued
      ensures count - |waiters| == old(count - |waiters|) - 1
      ensures mustYield <==> old(count) == 0
      ensures mustYield ==> waiters == old(waiters) + [self]
    {
      if count > 0 {
        count := count - 1;
        return false;
      }
      waiters := waiters + [self];
      return true;
    }

    method TryWait(self: Fiber) returns (ok: bool)
      requires Valid()
      modifies this
      ensures Valid()
      ensures var e := Apply(old(View()), Op.TryWait, self); View() == e.prim && ok == e.granted
      ensures ok <==> old(count) > 0
      ensures if ok then count == old(count) - 1 && waiters == old(waiters) else unchanged(this)
    {
      if count > 0 {
        count := count - 1;
        return true;
      }
      return false;
    }

    /** The token goes to the first waiter, or on offer. */
    method Signal(self: Fiber) returns (woken: seq<Fiber>)
      requires Valid()
      modifies this
      ensures Valid()
      ensures var e := Apply(old(View()), Op.Signal, self); View() == e.prim && woken == e.woken
      ensures count - |waiters| == old(count - |waiters|) + 1
      ensures old(waiters) == woken + waiters && |woken| == if old(waiters) == [] then 0 else 1
    {
      woken := [];
      if waiters != [] {
        woken := [waiters[0]];
        waiters := waiters[1..];
      } else {
        count := count + 1;
      }
    }
  }

  class ConditionVariable {
    var waiters: seq<Fiber>

    function View(): Prim
      reads this
    {
      Condition(waiters)
    }

    constructor ()
      ensures View() == Condition([])
    {
      waiters := [];
    }

    /** The first section of `wait`; the caller then unlocks its mutex and only then yields. */
    method Register(self: Fiber)
      modifies this
      ensures View() == Apply(old(View()), Op.Register, self).prim
      ensures waiters == old(waiters) + [self]
    {
      waiters := waiters + [self];
    }

    method NotifyOne(self: Fiber) returns (woken: seq<Fiber>)
      modifies this
      ensures var e := Apply(old(View()), Op.NotifyOne, self); View() == e.prim && woken == e.woken
      ensures old(waiters) == woken + waiters && |woken| == if old(waiters) == [] then 0 else 1
    {
      woken := [];
      if waiters != [] {
        woken := [waiters[0]];
        waiters := waiters[1..];
      }
    }

    method NotifyAll(self: Fiber) returns (woken: seq<Fiber>)
      modifies this
      ensures var e := Apply(old(View()), Op.NotifyAll, self); View() == e.prim && woken == e.woken
      ensures woken == old(waiters) && waiters == []
    {
      woken := [];
      if waiters != [] {
        woken, waiters := waiters, [];
      }
    }
  }
}
