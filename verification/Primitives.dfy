/**
 The spin-locked sections of the fiber synchronisation primitives, as functions on values.

 Every operation of `mutex`, `shared_mutex`, `semaphore` and `condition_variable` touches the
 primitive's fields only between one `mtx.Lock()` and the matching `mtx.Unlock()`.  `Apply` is that
 section.  What comes after it (yielding, or pushing the popped waiters on their threads' signal
 queues) is the business of module FiberRuntime.
 */
module Primitives {
  import opened Common

  type Fiber = nat

  datatype Prim =
    | Mutex(locked: bool, waiters: seq<Fiber>)
    | Shared(state: int, rwaiters: seq<Fiber>, wwaiters: seq<Fiber>)
    | Semaphore(count: nat, waiters: seq<Fiber>)
    | Condition(waiters: seq<Fiber>)

  datatype Op =
    | Lock | TryLock | Unlock
    | LockShared | TryLockShared | UnlockShared
    | Wait | TryWait | Signal
    | Register | NotifyOne | NotifyAll

  /** The outcome of a section: the new fields, whether the caller queued itself (and must yield),
      whether it obtained what it asked for at once, and the waiters it popped. */
  datatype Effect = Effect(prim: Prim, enqueued: bool, granted: bool, woken: seq<Fiber>)

  predicate Fits(p: Prim, op: Op) {
    match p
    case Mutex(_, _) => op.Lock? || op.TryLock? || op.Unlock?
    case Shared(_, _, _) =>
      op.Lock? || op.TryLock? || op.Unlock? || op.LockShared? || op.TryLockShared? || op.UnlockShared?
    case Semaphore(_, _) => op.Wait? || op.TryWait? || op.Signal?
    case Condition(_) => op.Register? || op.NotifyOne? || op.NotifyAll?
  }

  function Apply(p: Prim, op: Op, self: Fiber): Effect
    requires Fits(p, op)
  {
    match p
    case Mutex(locked, q) =>
      if op.Unlock? then
        if q != [] then Effect(Mutex(locked, q[1..]), false, true, [q[0]])
        else Effect(Mutex(false, q), false, true, [])
      else if !locked then Effect(Mutex(true, q), false, true, [])
      else if op.Lock? then Effect(Mutex(locked, q + [self]), true, false, [])
      else Effect(p, false, false, [])
    case Shared(state, rq, wq) => ApplyShared(state, rq, wq, op, self)
    case Semaphore(count, q) =>
      if op.Signal? then
        if q != [] then Effect(Semaphore(count, q[1..]), false, true, [q[0]])
        else Effect(Semaphore(count + 1, q), false, true, [])
      else if count > 0 then Effect(Semaphore(count - 1, q), false, true, [])
      else if op.Wait? then Effect(Semaphore(count, q + [self]), true, false, [])
      else Effect(p, false, false, [])
    case Condition(q) =>
      if op.Register? then Effect(Condition(q + [self]), true, false, [])
      else if op.NotifyAll? then Effect(Condition([]), false, true, q)
      else if q != [] then Effect(Condition(q[1..]), false, true, [q[0]])
      else Effect(p, false, true, [])
  }

  function ApplyShared(state: int, rq: seq<Fiber>, wq: seq<Fiber>, op: Op, self: Fiber): Effect
    requires Fits(Shared(state, rq, wq), op)
  {
    var p := Shared(state, rq, wq);
    match op
    case Lock =>
      if state == 0 then Effect(Shared(-1, rq, wq), false, true, [])
      else Effect(Shared(state, rq, wq + [self]), true, false, [])
    case TryLock =>
      if state == 0 then Effect(Shared(-1, rq, wq), false, true, [])
      else Effect(p, false, false, [])
    case Unlock =>
      if wq != [] then Effect(Shared(state, rq, wq[1..]), false, true, [wq[0]])
      else if rq != [] then Effect(Shared(|rq|, [], wq), false, true, rq)
      else Effect(Shared(0, rq, wq), false, true, [])
    case LockShared =>
      if state >= 0 && wq == [] then Effect(Shared(state + 1, rq, wq), false, true, [])
      else Effect(Shared(state, rq + [self], wq), true, false, [])
    case TryLockShared =>
      if state >= 0 && wq == [] then Effect(Shared(state + 1, rq, wq), false, true, [])
      else Effect(p, false, false, [])
    case UnlockShared =>
      if state == 1 && wq != [] then Effect(Shared(-1, rq, wq[1..]), false, true, [wq[0]])
      else Effect(Shared(state - 1, rq, wq), false, true, [])
    case _ => Effect(p, false, false, [])
  }

  /** Everybody queued on a primitive. */
  function Queue(p: Prim): seq<Fiber> {
    if p.Shared? then p.rwaiters + p.wwaiters else p.waiters
  }

  /** Before and after a section: whoever was queued, and the caller if it queued itself, is now
      either queued or popped, never both, and nowhere twice. */
  ghost predicate Conserves(q: seq<Fiber>, added: seq<Fiber>, q': seq<Fiber>, woken: seq<Fiber>) {
    && (forall f :: f in q' || f in woken <==> f in q || f in added)
    && (Distinct(q + added) ==> Distinct(q') && Distinct(woken) && forall f :: f in woken ==> f !in q')
  }

  /** No section loses, duplicates or invents a waiter. */
  lemma QueueConservation(p: Prim, op: Op, self: Fiber)
    requires Fits(p, op)
    ensures var e := Apply(p, op, self);
      Conserves(Queue(p), if e.enqueued then [self] else [], Queue(e.prim), e.woken)
  {
    if p.Shared? {
      SharedConservation(p, op, self);
    } else {
      LineConservation(p, op, self);
    }
  }

  lemma LineConservation(p: Prim, op: Op, self: Fiber)
    requires !p.Shared? && Fits(p, op)
    ensures var e := Apply(p, op, self);
      Conserves(Queue(p), if e.enqueued then [self] else [], Queue(e.prim), e.woken)
  {
    LineCases(p.waiters, self);
  }

  /** All that can happen to a queue: it stays, loses its head, loses everybody, or gains one. */
  lemma LineCases(q: seq<Fiber>, x: Fiber)
    ensures Conserves(q, [], q, []) && Conserves(q, [], [], q) && Conserves(q, [x], q + [x], [])
    ensures q != [] ==> Conserves(q, [], q[1..], [q[0]])
  {
    assert q + [] == q && [] + q == q;
    SplitConserves(q, []);
    if q != [] {
      SplitConserves([], q);
      assert [] + q[1..] == q[1..];
    }
  }

  lemma SharedConservation(p: Prim, op: Op, self: Fiber)
    requires p.Shared? && Fits(p, op)
    ensures var e := Apply(p, op, self);
      Conserves(Queue(p), if e.enqueued then [self] else [], Queue(e.prim), e.woken)
  {
    var q := Queue(p);
    assert q + [] == q;
    SplitConserves(p.rwaiters, p.wwaiters);
    InsertConserves(p.rwaiters, p.wwaiters, self);
    assert p.rwaiters + (p.wwaiters + [self]) == q + [self];
  }

  /** Popping the head of the second of two queues, or all of the first when the second is empty. */
  lemma SplitConserves(r: seq<Fiber>, w: seq<Fiber>)
    ensures w != [] ==> Conserves(r + w, [], r + w[1..], [w[0]])
    ensures w == [] ==> Conserves(r + w, [], [], r)
    ensures Conserves(r + w, [], r + w, [])
  {
    assert r + w + [] == r + w;
    if w == [] {
      assert r + w == r;
    } else {
      var q, q' := r + w, r + w[1..];
      assert w == [w[0]] + w[1..];
      assert q[|r|] == w[0];
      if Distinct(q) {
        forall i, j | 0 <= i < j < |q'|
          ensures q'[i] != q'[j]
        {
          assert q'[i] == q[if i < |r| then i else i + 1];
          assert q'[j] == q[if j < |r| then j else j + 1];
        }
      }
      forall f | f in q'
        ensures f in q && (Distinct(q) ==> f != w[0])
      {
        var i :| 0 <= i < |q'| && q'[i] == f;
        assert q[if i < |r| then i else i + 1] == f;
      }
    }
  }

  lemma InsertConserves(r: seq<Fiber>, w: seq<Fiber>, x: Fiber)
    ensures Conserves(r + w, [x], r + [x] + w, [])
  {
    var q := r + w + [x];
    var q' := r + [x] + w;
    assert forall f :: f in q' <==> f in q;
    if Distinct(q) {
      forall i, j | 0 <= i < j < |q'|
        ensures q'[i] != q'[j]
      {
        var k := if i < |r| then i else if i == |r| then |q| - 1 else i - 1;
        var l := if j < |r| then j else if j == |r| then |q| - 1 else j - 1;
        assert q'[i] == q[k] && q'[j] == q[l];
      }
    }
  }

  // ----- Ownership -------------------------------------------------------------------------------

  /** Who owns a lock.  A popped waiter owns it from the moment it is popped: the lock is handed
      over, never released in between. A fiber may hold several shared locks, hence multisets. */
  datatype Owners = Owners(writers: multiset<Fiber>, readers: multiset<Fiber>)

  /** The callers' discipline: only an owner unlocks. */
  ghost predicate Allowed(p: Prim, op: Op, self: Fiber, own: Owners) {
    Fits(p, op) && (op.Unlock? ==> self in own.writers) && (op.UnlockShared? ==> self in own.readers)
  }

  ghost function OwnersAfter(p: Prim, op: Op, self: Fiber, own: Owners): Owners
    requires Fits(p, op)
  {
    var e := Apply(p, op, self);
    match op
    case Lock | TryLock =>
      if e.granted then own.(writers := own.writers + multiset{self}) else own
    case LockShared | TryLockShared =>
      if e.granted then own.(readers := own.readers + multiset{self}) else own
    case Unlock =>
      var rest := own.writers - multiset{self};
      if p.Mutex? || p.wwaiters != []
      then own.(writers := rest + multiset(e.woken))
      else Owners(rest, own.readers + multiset(e.woken))
    case UnlockShared =>
      Owners(own.writers + multiset(e.woken), own.readers - multiset{self})
    case _ => own
  }

  /** Exclusion, and no waiter stranded in front of a free primitive. */
  ghost predicate OwnInv(p: Prim, own: Owners) {
    match p
    case Mutex(locked, q) =>
      && own.readers == multiset{}
      && (if locked then |own.writers| == 1 else own.writers == multiset{} && q == [])
    case Shared(state, rq, wq) =>
      && (if state == -1 then |own.writers| == 1 && own.readers == multiset{}
          else state >= 0 && own.writers == multiset{} && |own.readers| == state)
      && (state == 0 ==> rq == [] && wq == [])
      && (state >= 0 && rq != [] ==> wq != [])
    case Semaphore(count, q) => count > 0 ==> q == []
    case Condition(_) => true
  }

  lemma OwnershipPreserved(p: Prim, op: Op, self: Fiber, own: Owners)
    requires Allowed(p, op, self, own)
    requires OwnInv(p, own)
    ensures OwnInv(Apply(p, op, self).prim, OwnersAfter(p, op, self, own))
  {
    if p.Mutex? {
      MutexOwnership(p, op, self, own);
    } else if p.Shared? {
      if op.Unlock? {
        UnlockOwnership(p, op, self, own);
      } else if op.UnlockShared? {
        UnlockSharedOwnership(p, op, self, own);
      } else {
        AcquireOwnership(p, op, self, own);
      }
    }
  }

  lemma MutexOwnership(p: Prim, op: Op, self: Fiber, own: Owners)
    requires Allowed(p, op, self, own)
    requires OwnInv(p, own)
    requires p.Mutex?
    ensures OwnInv(Apply(p, op, self).prim, OwnersAfter(p, op, self, own))
  {
    if op.Unlock? {
      SingletonMinus(own.writers, self);
    }
  }

  lemma UnlockOwnership(p: Prim, op: Op, self: Fiber, own: Owners)
    requires Allowed(p, op, self, own)
    requires OwnInv(p, own)
    requires p.Shared? && op.Unlock?
    ensures OwnInv(Apply(p, op, self).prim, OwnersAfter(p, op, self, own))
  {
    SingletonMinus(own.writers, self);
    var o := OwnersAfter(p, op, self, own);
    if p.wwaiters != [] {
      assert o.writers == multiset{p.wwaiters[0]};
    } else {
      assert o == Owners(multiset{}, multiset(p.rwaiters));
    }
  }

  lemma UnlockSharedOwnership(p: Prim, op: Op, self: Fiber, own: Owners)
    requires Allowed(p, op, self, own)
    requires OwnInv(p, own)
    requires p.Shared? && op.UnlockShared?
    ensures OwnInv(Apply(p, op, self).prim, OwnersAfter(p, op, self, own))
  {
    assert |own.readers - multiset{self}| == |own.readers| - 1;
  }

  lemma AcquireOwnership(p: Prim, op: Op, self: Fiber, own: Owners)
    requires Allowed(p, op, self, own)
    requires OwnInv(p, own)
    requires p.Shared? && !op.Unlock? && !op.UnlockShared?
    ensures OwnInv(Apply(p, op, self).prim, OwnersAfter(p, op, self, own))
  {
  }

  lemma SingletonMinus(m: multiset<Fiber>, x: Fiber)
    requires |m| == 1 && x in m
    ensures m - multiset{x} == multiset{} && m == multiset{x}
  {
    assert m == multiset{x} + (m - multiset{x});
  }

  /** Two fibers never own a mutex (or the exclusive side of a shared mutex) together, and readers
      never share it with a writer. */
  lemma OwnersExclude(p: Prim, own: Owners, f: Fiber, g: Fiber)
    requires p.Mutex? || p.Shared?
    requires OwnInv(p, own)
    ensures f in own.writers && g in own.writers ==> f == g
    ensures f in own.writers ==> g !in own.readers
    ensures p.Shared? ==> (p.state == -1 <==> own.writers != multiset{})
  {
    if f in own.writers {
      SingletonMinus(own.writers, f);
    }
  }

  /** A lock call makes its caller the owner or the last in the queue, and changes nobody else. */
  lemma LockOwners(p: Prim, own: Owners, f: Fiber)
    requires p.Mutex?
    ensures var e := Apply(p, Lock, f); var o := OwnersAfter(p, Lock, f, own);
      && (forall g :: g != f ==> (g in o.writers <==> g in own.writers))
      && (forall g :: g != f ==> (g in Queue(e.prim) <==> g in Queue(p)))
      && (if e.enqueued then f in Queue(e.prim) && o == own
          else Queue(e.prim) == Queue(p) && f in o.writers)
  {}

  /** After an unlock the mutex belongs to the head of its queue, or to nobody. */
  lemma UnlockOwners(p: Prim, own: Owners, f: Fiber)
    requires p.Mutex? && OwnInv(p, own) && f in own.writers
    ensures var e := Apply(p, Unlock, f); var o := OwnersAfter(p, Unlock, f, own);
      && (forall g :: g in o.writers <==> p.waiters != [] && g == p.waiters[0])
      && e.prim.waiters == if p.waiters == [] then [] else p.waiters[1..]
  {
    SingletonMinus(own.writers, f);
  }

  /** After an exclusive unlock the lock belongs to the first writer, or to all waiting readers. */
  lemma SharedUnlocked(p: Prim, f: Fiber, own: Owners)
    requires p.Shared? && OwnInv(p, own) && f in own.writers
    ensures OwnInv(Apply(p, Unlock, f).prim, OwnersAfter(p, Unlock, f, own))
    ensures OwnersAfter(p, Unlock, f, own)
         == if p.wwaiters != [] then Owners(multiset{p.wwaiters[0]}, multiset{})
            else Owners(multiset{}, multiset(p.rwaiters))
  {
    OwnershipPreserved(p, Unlock, f, own);
    SingletonMinus(own.writers, f);
  }

  /** After a shared unlock there is one reader fewer; the last hands the lock to the first writer. */
  lemma SharedLeft(p: Prim, f: Fiber, own: Owners)
    requires p.Shared? && OwnInv(p, own) && f in own.readers
    ensures OwnInv(Apply(p, UnlockShared, f).prim, OwnersAfter(p, UnlockShared, f, own))
    ensures |own.readers| == p.state
    ensures OwnersAfter(p, UnlockShared, f, own)
         == Owners(multiset(Apply(p, UnlockShared, f).woken), own.readers - multiset{f})
  {
    OwnershipPreserved(p, UnlockShared, f, own);
    assert own.readers != multiset{};
    var w := multiset(Apply(p, UnlockShared, f).woken);
    assert multiset{} + w == w;
  }

  // ----- Availability ----------------------------------------------------------------------------

  predicate IsAcquire(op: Op) {
    op.Lock? || op.TryLock? || op.LockShared? || op.TryLockShared?
  }

  /** Whether nobody is in the way of a lock call: an owner, or a writer queued before a reader. */
  ghost predicate Free(p: Prim, op: Op, own: Owners) {
    && own.writers == multiset{}
    && (op.Lock? || op.TryLock? ==> own.readers == multiset{})
    && (op.LockShared? || op.TryLockShared? ==> Line(p) == [])
  }

  /** A lock is granted exactly when it is free; a call it is refused to queues the caller, or, in the
      `try` form, changes nothing. */
  lemma GrantsExactlyWhenFree(p: Prim, op: Op, self: Fiber, own: Owners)
    requires OwnInv(p, own) && Allowed(p, op, self, own) && IsAcquire(op)
    ensures var e := Apply(p, op, self); e.granted <==> Free(p, op, own)
    ensures var e := Apply(p, op, self);
      if e.granted then Queue(e.prim) == Queue(p) && !e.enqueued
      else if op.Lock? || op.LockShared? then e.enqueued && self in Queue(e.prim)
      else e.prim == p && !e.enqueued
  {
    if p.Shared? {
      assert own.readers == multiset{} <==> |own.readers| == 0;
      assert own.writers == multiset{} <==> |own.writers| == 0;
    }
  }

  /** The caller of a granted call joins the owners, and the caller of a refused one does not. */
  lemma GrantMeansOwning(p: Prim, op: Op, self: Fiber, own: Owners)
    requires OwnInv(p, own) && Allowed(p, op, self, own) && IsAcquire(op)
    ensures var o := OwnersAfter(p, op, self, own);
      if !Apply(p, op, self).granted then o == own
      else if op.Lock? || op.TryLock? then o == Owners(multiset{self}, multiset{})
      else o == Owners(multiset{}, own.readers + multiset{self})
  {
    GrantsExactlyWhenFree(p, op, self, own);
  }

  function Blocking(op: Op): Op {
    match op
    case TryLock => Lock
    case TryLockShared => LockShared
    case TryWait => Wait
    case _ => op
  }

  /** A `try` call does what the blocking call does when that returns at once, and nothing when that
      would queue the caller. */
  lemma TryAgrees(p: Prim, op: Op, self: Fiber)
    requires Fits(p, op) && Blocking(op) != op
    ensures var e, b := Apply(p, op, self), Apply(p, Blocking(op), self);
      if b.enqueued then e == Effect(p, false, false, []) else e == b
  {}

  // ----- First come, first served, and writer preference -----------------------------------------

  datatype Call = Call(op: Op, caller: Fiber)

  predicate IsRelease(op: Op) {
    op.Unlock? || op.UnlockShared? || op.Signal? || op.NotifyOne? || op.NotifyAll?
  }

  /** The queue whose order the primitive honours: for a shared mutex, its writers. */
  function Line(p: Prim): seq<Fiber> {
    if p.Shared? then p.wwaiters else p.waiters
  }

  /** How many readers have to leave before the one that hands the lock over. */
  function ReadersAhead(p: Prim): nat {
    if p.Shared? && p.state > 0 then p.state - 1 else 0
  }

  /** Where the waiter at position `i` of the line stands after one call. */
  datatype Place = Popped | At(i: nat)

  ghost function PlaceAfter(p: Prim, c: Call, i: nat): Place
    requires Fits(p, c.op) && i < |Line(p)|
  {
    var gone := |Line(p)| - |Line(Apply(p, c.op, c.caller).prim)|;
    if gone <= 0 then At(i) else if i < gone then Popped else At(i - gone)
  }

  /** One call made while somebody waits in line: nobody is let past them, no reader gets in, they
      keep their place or move up, and a release brings them strictly closer.  When they are popped
      they own the lock. */
  ghost predicate Orderly(p: Prim, own: Owners, c: Call, i: nat)
    requires Fits(p, c.op) && i < |Line(p)|
  {
    var e := Apply(p, c.op, c.caller);
    var o := OwnersAfter(p, c.op, c.caller, own);
    && o.readers <= own.readers
    && (!IsRelease(c.op) ==> !e.granted && o == own)
    && match PlaceAfter(p, c, i)
       case Popped =>
         && Line(p)[i] in e.woken
         && (p.Mutex? || p.Shared? ==> o == Owners(multiset{Line(p)[i]}, multiset{}))
       case At(k) =>
         && k < |Line(e.prim)| && Line(e.prim)[k] == Line(p)[i]
         && k <= i
         && k + ReadersAhead(e.prim) + (if IsRelease(c.op) then 1 else 0) <= i + ReadersAhead(p)
  }

  lemma CallsAreOrderly(p: Prim, own: Owners, c: Call, i: nat)
    requires OwnInv(p, own) && Allowed(p, c.op, c.caller, own)
    requires i < |Line(p)|
    ensures Orderly(p, own, c, i)
  {
    if c.op.Unlock? {
      UnlockIsOrderly(p, own, c, i);
    } else if c.op.UnlockShared? {
      UnlockSharedIsOrderly(p, own, c, i);
    } else if IsRelease(c.op) {
      SignalIsOrderly(p, own, c, i);
    } else {
      EntryIsOrderly(p, own, c, i);
    }
  }

  lemma SignalIsOrderly(p: Prim, own: Owners, c: Call, i: nat)
    requires p.Semaphore? || p.Condition?
    requires Fits(p, c.op) && IsRelease(c.op) && i < |Line(p)|
    ensures Orderly(p, own, c, i)
  {}

  lemma EntryIsOrderly(p: Prim, own: Owners, c: Call, i: nat)
    requires OwnInv(p, own) && Allowed(p, c.op, c.caller, own)
    requires !IsRelease(c.op) && i < |Line(p)|
    ensures Orderly(p, own, c, i)
  {
    if p.Shared? {
      assert p.state != 0 && p.wwaiters != [];
    }
  }

  lemma UnlockIsOrderly(p: Prim, own: Owners, c: Call, i: nat)
    requires OwnInv(p, own) && Allowed(p, c.op, c.caller, own)
    requires c.op.Unlock? && i < |Line(p)|
    ensures Orderly(p, own, c, i)
  {
    if p.Mutex? {
      MutexHandsOver(p, own, c, i);
    } else {
      WriterHandsOver(p, own, c, i);
    }
  }

  lemma MutexHandsOver(p: Prim, own: Owners, c: Call, i: nat)
    requires OwnInv(p, own) && Allowed(p, c.op, c.caller, own)
    requires p.Mutex? && c.op.Unlock? && i < |Line(p)|
    ensures Orderly(p, own, c, i)
  {
    SingletonMinus(own.writers, c.caller);
    assert OwnersAfter(p, c.op, c.caller, own) == Owners(multiset{p.waiters[0]}, multiset{});
  }

  lemma WriterHandsOver(p: Prim, own: Owners, c: Call, i: nat)
    requires OwnInv(p, own) && Allowed(p, c.op, c.caller, own)
    requires p.Shared? && c.op.Unlock? && i < |Line(p)|
    ensures Orderly(p, own, c, i)
  {
    SingletonMinus(own.writers, c.caller);
    assert OwnersAfter(p, c.op, c.caller, own) == Owners(multiset{p.wwaiters[0]}, multiset{});
  }

  lemma UnlockSharedIsOrderly(p: Prim, own: Owners, c: Call, i: nat)
    requires OwnInv(p, own) && Allowed(p, c.op, c.caller, own)
    requires c.op.UnlockShared? && i < |Line(p)|
    ensures Orderly(p, own, c, i)
  {
    assert own.readers != multiset{} && p.state >= 1;
    if p.state == 1 {
      LastReaderHandsOver(p, own, c, i);
    } else {
      ReaderLeaves(p, own, c, i);
    }
  }

  lemma ReaderLeaves(p: Prim, own: Owners, c: Call, i: nat)
    requires p.Shared? && p.state > 1 && c.op.UnlockShared? && i < |Line(p)|
    ensures Orderly(p, own, c, i)
  {
    assert Apply(p, c.op, c.caller) == Effect(p.(state := p.state - 1), false, true, []);
  }

  lemma LastReaderHandsOver(p: Prim, own: Owners, c: Call, i: nat)
    requires p.Shared? && p.state == 1 && c.op.UnlockShared? && i < |Line(p)|
    requires OwnInv(p, own) && c.caller in own.readers
    ensures Orderly(p, own, c, i)
  {
    SingletonMinus(own.readers, c.caller);
    assert OwnersAfter(p, c.op, c.caller, own) == Owners(multiset{p.wwaiters[0]}, multiset{});
  }

  ghost predicate ValidCalls(p: Prim, own: Owners, calls: seq<Call>)
    decreases |calls|
  {
    calls == [] ||
    (Allowed(p, calls[0].op, calls[0].caller, own) &&
     ValidCalls(Apply(p, calls[0].op, calls[0].caller).prim,
                OwnersAfter(p, calls[0].op, calls[0].caller, own), calls[1..]))
  }

  /** The waiter at position `i` is popped by none of the calls. */
  ghost predicate StillInLine(p: Prim, own: Owners, calls: seq<Call>, i: nat)
    requires ValidCalls(p, own, calls)
    decreases |calls|
  {
    i < |Line(p)| &&
    (calls == [] ||
     (var place := PlaceAfter(p, calls[0], i);
      place.At? &&
      StillInLine(Apply(p, calls[0].op, calls[0].caller).prim,
                  OwnersAfter(p, calls[0].op, calls[0].caller, own), calls[1..], place.i)))
  }

  ghost function Releases(calls: seq<Call>): nat {
    if calls == [] then 0
    else (if IsRelease(calls[0].op) then 1 else 0) + Releases(calls[1..])
  }

  ghost function OwnersAtEnd(p: Prim, own: Owners, calls: seq<Call>): Owners
    requires ValidCalls(p, own, calls)
    decreases |calls|
  {
    if calls == [] then own
    else OwnersAtEnd(Apply(p, calls[0].op, calls[0].caller).prim,
                     OwnersAfter(p, calls[0].op, calls[0].caller, own), calls[1..])
  }

  /** Bounded bypass: whoever stays in line sees no more releases than there are waiters in front, and
      readers inside but for one, whatever anybody calls in between, and is popped by the next; and while
      a writer waits for a shared mutex, nobody new gets a shared lock. */
  lemma {:induction false} BoundedBypass(p: Prim, own: Owners, calls: seq<Call>, i: nat)
    requires OwnInv(p, own) && ValidCalls(p, own, calls)
    requires StillInLine(p, own, calls, i)
    ensures Releases(calls) <= i + ReadersAhead(p)
    ensures OwnersAtEnd(p, own, calls).readers <= own.readers
    decreases |calls|
  {
    if calls != [] {
      var c := calls[0];
      CallsAreOrderly(p, own, c, i);
      OwnershipPreserved(p, c.op, c.caller, own);
      BoundedBypass(Apply(p, c.op, c.caller).prim, OwnersAfter(p, c.op, c.caller, own), calls[1..],
                    PlaceAfter(p, c, i).i);
    }
  }
}
