/**
 What goes into a `channel<T>` and what comes out of it, told from the calls alone: `write(x)` begins with
 a value, and `read()` ends with one.
 */
module ChannelValues {
  import opened Common
  import opened Primitives
  import opened Channel

  // ----- Values in the hands of fibers -----------------------------------------------------------

  /** The value a writer has yet to push. */
  function ToPush<T>(pc: Pc<T>): seq<T> {
    if pc.WSpace? || pc.WLock? then [pc.x] else []
  }

  /** The value a reader has popped and will return. */
  function ToReturn<T>(pc: Pc<T>): seq<T> {
    if pc.RPopped? || pc.RUnlock? then [pc.x] else []
  }

  /** How often a fiber has the value `v` in its hands. */
  function Hands<T(==)>(pc: Pc<T>, v: T): nat {
    Times(ToPush(pc), v) + Times(ToReturn(pc), v)
  }

  lemma TimesOfBoth<T>(a: seq<T>, b: seq<T>, c: seq<T>, d: seq<T>, v: T)
    requires a + b == c + d
    ensures Times(a, v) + Times(b, v) == Times(c, v) + Times(d, v)
  {
    TimesConcat(a, b, v);
    TimesConcat(c, d, v);
  }

  /** How often `v` is in the hands of fibers. */
  function Carried<T(==)>(pcs: seq<Pc<T>>, v: T): nat {
    if pcs == [] then 0 else Hands(pcs[0], v) + Carried(pcs[1..], v)
  }

  lemma {:induction false} CarriedUpdate<T>(pcs: seq<Pc<T>>, f: nat, pc: Pc<T>, v: T)
    requires f < |pcs|
    ensures Carried(pcs[f := pc], v) + Hands(pcs[f], v) == Carried(pcs, v) + Hands(pc, v)
  {
    if f == 0 {
      assert pcs[f := pc][1..] == pcs[1..];
    } else {
      assert pcs[f := pc][1..] == pcs[1..][f - 1 := pc];
      CarriedUpdate(pcs[1..], f - 1, pc, v);
    }
  }

  lemma {:induction false} NothingCarried<T>(pcs: seq<Pc<T>>, v: T)
    requires forall f :: 0 <= f < |pcs| ==> pcs[f] == Outside
    ensures Carried(pcs, v) == 0
  {
    if pcs != [] {
      assert forall f :: 0 <= f < |pcs[1..]| ==> pcs[1..][f] == pcs[f + 1];
      NothingCarried(pcs[1..], v);
    }
  }

  // ----- What a call brings in and takes out -----------------------------------------------------

  /** The value with which fiber `f` calls `write`. */
  function Passed<T>(a: Act<T>, f: Fiber): seq<T> {
    if a.BeginWrite? && a.f == f then [a.x] else []
  }

  /** The value that fiber `f` pushes. */
  function Pushed<T>(s: State<T>, a: Act<T>, f: Fiber): seq<T> {
    if a.Push? && a.f == f && f < |s.pcs| then ToPush(s.pcs[f]) else []
  }

  /** The value that fiber `f` has in its hands when it has popped. */
  ghost function Taken<T>(s: State<T>, a: Act<T>, f: Fiber): seq<T>
    requires Enabled(s, a)
  {
    if a.Pop? && a.f == f && f < |Next(s, a).pcs| then ToReturn(Next(s, a).pcs[f]) else []
  }

  /** The value that `read` returns to fiber `f`. */
  function Returned<T>(s: State<T>, a: Act<T>, f: Fiber): seq<T> {
    if a.EndRead? && a.f == f && f < |s.pcs| then ToReturn(s.pcs[f]) else []
  }

  /** The same, whichever fiber it is. */
  function In1<T>(a: Act<T>): seq<T> {
    if a.BeginWrite? then [a.x] else []
  }

  function Out1<T>(s: State<T>, a: Act<T>): seq<T> {
    if a.Runtime? then [] else Returned(s, a, a.f)
  }

  /** The value in a writer's hands changes when it calls and when it pushes. */
  lemma WriterPc<T>(s: State<T>, a: Act<T>, f: Fiber)
    requires Enabled(s, a) && f < |s.pcs|
    ensures |Next(s, a).pcs| == |s.pcs|
    ensures a.BeginWrite? && a.f == f ==> ToPush(s.pcs[f]) == [] && ToPush(Next(s, a).pcs[f]) == [a.x]
    ensures a.Push? && a.f == f ==> ToPush(Next(s, a).pcs[f]) == []
    ensures a.Runtime? || a.f != f || !(a.BeginWrite? || a.Push?) ==>
              ToPush(Next(s, a).pcs[f]) == ToPush(s.pcs[f])
  {}

  /** One step of a writer: what it passed and has not pushed yet stays in its hands. */
  lemma WriterStep<T>(s: State<T>, a: Act<T>, f: Fiber)
    requires Enabled(s, a) && f < |s.pcs|
    ensures |Next(s, a).pcs| == |s.pcs|
    ensures ToPush(s.pcs[f]) + Passed(a, f) == Pushed(s, a, f) + ToPush(Next(s, a).pcs[f])
  {
    WriterPc(s, a, f);
    NothingBeside(ToPush(s.pcs[f]));
    NothingBeside(ToPush(Next(s, a).pcs[f]));
  }

  /** The value in a reader's hands changes when it pops and when it returns. */
  lemma ReaderPc<T>(s: State<T>, a: Act<T>, f: Fiber, cap: nat)
    requires Inv(s, cap) && Enabled(s, a) && f < |s.pcs|
    ensures |Next(s, a).pcs| == |s.pcs|
    ensures a.Pop? && a.f == f ==> ToReturn(s.pcs[f]) == []
    ensures a.EndRead? && a.f == f ==> ToReturn(Next(s, a).pcs[f]) == []
    ensures a.Runtime? || a.f != f || !(a.Pop? || a.EndRead?) ==>
              ToReturn(Next(s, a).pcs[f]) == ToReturn(s.pcs[f])
  {
    assert PcInv(s, f);
  }

  /** One step of a reader: what it took and has not returned yet stays in its hands. */
  lemma ReaderStep<T>(s: State<T>, a: Act<T>, f: Fiber, cap: nat)
    requires Inv(s, cap) && Enabled(s, a) && f < |s.pcs|
    ensures |Next(s, a).pcs| == |s.pcs|
    ensures ToReturn(s.pcs[f]) + Taken(s, a, f) == Returned(s, a, f) + ToReturn(Next(s, a).pcs[f])
  {
    ReaderPc(s, a, f, cap);
    NothingBeside(ToReturn(s.pcs[f]));
    NothingBeside(ToReturn(Next(s, a).pcs[f]));
  }

  /** One step of the queue: pushed at one end, taken from the other. */
  lemma QueueStep<T>(s: State<T>, a: Act<T>, cap: nat)
    requires Inv(s, cap) && Enabled(s, a)
    ensures s.items + Put(s, a) == Got(s, a) + Next(s, a).items
  {
    if a.Pop? {
      assert PcInv(s, a.f);
      HeadAndTail(s.items);
      NothingBeside(s.items);
    } else {
      NoPop(s, a);
    }
  }

  function Put<T>(s: State<T>, a: Act<T>): seq<T> {
    if a.Runtime? then [] else Pushed(s, a, a.f)
  }

  ghost function Got<T>(s: State<T>, a: Act<T>): seq<T>
    requires Enabled(s, a)
  {
    if a.Runtime? then [] else Taken(s, a, a.f)
  }

  lemma NoPop<T>(s: State<T>, a: Act<T>)
    requires Enabled(s, a) && !a.Pop?
    ensures Got(s, a) == [] && Next(s, a).items == s.items + Put(s, a)
  {}

  // ----- What a run brings in and takes out ------------------------------------------------------

  /** The values with which `write` was called, in the order of the calls. */
  function AllPassed<T>(run: seq<Act<T>>): seq<T> {
    if run == [] then []
    else In1(run[0]) + AllPassed(run[1..])
  }

  /** The values that `read` returned, in the order of the returns. */
  ghost function AllReturned<T>(s: State<T>, run: seq<Act<T>>): seq<T>
    requires ValidRun(s, run)
    decreases |run|
  {
    if run == [] then []
    else Out1(s, run[0]) + AllReturned(Next(s, run[0]), run[1..])
  }

  /** The values that were pushed, as the writers had them in their hands. */
  ghost function AllPut<T>(s: State<T>, run: seq<Act<T>>): seq<T>
    requires ValidRun(s, run)
    decreases |run|
  {
    if run == [] then [] else Put(s, run[0]) + AllPut(Next(s, run[0]), run[1..])
  }

  /** The values that were popped, as the readers had them in their hands. */
  ghost function AllGot<T>(s: State<T>, run: seq<Act<T>>): seq<T>
    requires ValidRun(s, run)
    decreases |run|
  {
    if run == [] then [] else Got(s, run[0]) + AllGot(Next(s, run[0]), run[1..])
  }

  /** Of fiber `f` alone: what it passed to `write`, pushed, popped, and was returned by `read`. */
  function PassedBy<T>(run: seq<Act<T>>, f: Fiber): seq<T> {
    if run == [] then [] else Passed(run[0], f) + PassedBy(run[1..], f)
  }

  ghost function PushedBy<T>(s: State<T>, run: seq<Act<T>>, f: Fiber): seq<T>
    requires ValidRun(s, run)
    decreases |run|
  {
    if run == [] then [] else Pushed(s, run[0], f) + PushedBy(Next(s, run[0]), run[1..], f)
  }

  ghost function TakenBy<T>(s: State<T>, run: seq<Act<T>>, f: Fiber): seq<T>
    requires ValidRun(s, run)
    decreases |run|
  {
    if run == [] then [] else Taken(s, run[0], f) + TakenBy(Next(s, run[0]), run[1..], f)
  }

  ghost function ReturnedTo<T>(s: State<T>, run: seq<Act<T>>, f: Fiber): seq<T>
    requires ValidRun(s, run)
    decreases |run|
  {
    if run == [] then [] else Returned(s, run[0], f) + ReturnedTo(Next(s, run[0]), run[1..], f)
  }

  /** From `a + x == y + b` and `b + xs == ys + c` one gets the same of both steps together. */
  lemma Chain<T>(a: seq<T>, x: seq<T>, y: seq<T>, b: seq<T>, xs: seq<T>, ys: seq<T>, c: seq<T>)
    requires a + x == y + b && b + xs == ys + c
    ensures a + (x + xs) == (y + ys) + c
  {
    assert a + (x + xs) == (a + x) + xs;
    assert (y + b) + xs == y + (b + xs);
    assert y + (ys + c) == (y + ys) + c;
  }

  lemma {:induction false} QueueRun<T>(s: State<T>, run: seq<Act<T>>, cap: nat)
    requires Inv(s, cap) && ValidRun(s, run)
    ensures s.items + AllPut(s, run) == AllGot(s, run) + After(s, run).items
    decreases |run|
  {
    if run == [] {
      NothingBeside(s.items);
    } else {
      var s1 := Next(s, run[0]);
      QueueStep(s, run[0], cap);
      StepKeepsInv(s, run[0], cap);
      QueueRun(s1, run[1..], cap);
      Chain(s.items, Put(s, run[0]), Got(s, run[0]), s1.items, AllPut(s1, run[1..]), AllGot(s1, run[1..]),
            After(s, run).items);
    }
  }

  lemma {:induction false} WriterRun<T>(s: State<T>, run: seq<Act<T>>, f: Fiber)
    requires ValidRun(s, run) && f < |s.pcs|
    ensures |After(s, run).pcs| == |s.pcs|
    ensures ToPush(s.pcs[f]) + PassedBy(run, f) == PushedBy(s, run, f) + ToPush(After(s, run).pcs[f])
    decreases |run|
  {
    if run == [] {
      NothingBeside(ToPush(s.pcs[f]));
    } else {
      var s1 := Next(s, run[0]);
      WriterStep(s, run[0], f);
      WriterRun(s1, run[1..], f);
      Chain(ToPush(s.pcs[f]), Passed(run[0], f), Pushed(s, run[0], f), ToPush(s1.pcs[f]),
            PassedBy(run[1..], f), PushedBy(s1, run[1..], f), ToPush(After(s, run).pcs[f]));
    }
  }

  lemma {:induction false} ReaderRun<T>(s: State<T>, run: seq<Act<T>>, f: Fiber, cap: nat)
    requires Inv(s, cap) && ValidRun(s, run) && f < |s.pcs|
    ensures |After(s, run).pcs| == |s.pcs|
    ensures ToReturn(s.pcs[f]) + TakenBy(s, run, f) == ReturnedTo(s, run, f) + ToReturn(After(s, run).pcs[f])
    decreases |run|
  {
    if run == [] {
      NothingBeside(ToReturn(s.pcs[f]));
    } else {
      var s1 := Next(s, run[0]);
      ReaderStep(s, run[0], f, cap);
      StepKeepsInv(s, run[0], cap);
      ReaderRun(s1, run[1..], f, cap);
      Chain(ToReturn(s.pcs[f]), Taken(s, run[0], f), Returned(s, run[0], f), ToReturn(s1.pcs[f]),
            TakenBy(s1, run[1..], f), ReturnedTo(s1, run[1..], f), ToReturn(After(s, run).pcs[f]));
    }
  }

  // ----- Main results ----------------------------------------------------------------------------

  /** Over every run: first in, first out.  The values that readers pop are, in order, the first of those
      that writers push; the others are in the channel. */
  lemma FirstInFirstOut<T>(s0: State<T>, run: seq<Act<T>>, s: State<T>, cap: nat)
    requires Init(s0, cap) && ValidRun(s0, run) && s == After(s0, run)
    ensures AllPut(s0, run) == AllGot(s0, run) + s.items
  {
    InitInv(s0, cap);
    QueueRun(s0, run, cap);
    NothingBeside(AllPut(s0, run));
  }

  /** Over every run, for every fiber: it pushes what it passed to `write`, in that order, but for a value
      still in its hands. */
  lemma WritersPushWhatTheyPass<T>(s0: State<T>, run: seq<Act<T>>, s: State<T>, cap: nat, f: Fiber)
    requires Init(s0, cap) && ValidRun(s0, run) && s == After(s0, run) && f < |s0.pcs|
    ensures f < |s.pcs| && PassedBy(run, f) == PushedBy(s0, run, f) + ToPush(s.pcs[f])
  {
    WriterRun(s0, run, f);
    NothingBeside(PassedBy(run, f));
  }

  /** Over every run, for every fiber: `read` returns to it what it popped, in that order, but for a value
      still in its hands. */
  lemma ReadersReturnWhatTheyPop<T>(s0: State<T>, run: seq<Act<T>>, s: State<T>, cap: nat, f: Fiber)
    requires Init(s0, cap) && ValidRun(s0, run) && s == After(s0, run) && f < |s0.pcs|
    ensures f < |s.pcs| && TakenBy(s0, run, f) == ReturnedTo(s0, run, f) + ToReturn(s.pcs[f])
  {
    InitInv(s0, cap);
    ReaderRun(s0, run, f, cap);
    NothingBeside(TakenBy(s0, run, f));
  }

  /** How often `v` is somewhere between a call of `write` and a return of `read`. */
  function Inside<T(==)>(s: State<T>, v: T): nat {
    Times(s.items, v) + Carried(s.pcs, v)
  }

  lemma StepConserves<T>(s: State<T>, a: Act<T>, cap: nat, v: T)
    requires Inv(s, cap) && Enabled(s, a)
    ensures Inside(s, v) + Times(In1(a), v) == Times(Out1(s, a), v) + Inside(Next(s, a), v)
  {
    if !a.Runtime? {
      var s', f := Next(s, a), a.f;
      WriterStep(s, a, f);
      ReaderStep(s, a, f, cap);
      QueueStep(s, a, cap);
      TimesOfBoth(ToPush(s.pcs[f]), Passed(a, f), Pushed(s, a, f), ToPush(s'.pcs[f]), v);
      TimesOfBoth(ToReturn(s.pcs[f]), Taken(s, a, f), Returned(s, a, f), ToReturn(s'.pcs[f]), v);
      TimesOfBoth(s.items, Put(s, a), Got(s, a), s'.items, v);
      OnlyTheCaller(s, a);
      CarriedUpdate(s.pcs, f, s'.pcs[f], v);
    }
  }

  lemma OnlyTheCaller<T>(s: State<T>, a: Act<T>)
    requires Enabled(s, a)
    ensures if a.Runtime? then Next(s, a).pcs == s.pcs
      else a.f < |s.pcs| == |Next(s, a).pcs| && Next(s, a).pcs == s.pcs[a.f := Next(s, a).pcs[a.f]]
  {}

  lemma {:induction false} RunConserves<T>(s: State<T>, run: seq<Act<T>>, cap: nat, v: T)
    requires Inv(s, cap) && ValidRun(s, run)
    ensures Inside(s, v) + Times(AllPassed(run), v) == Times(AllReturned(s, run), v) + Inside(After(s, run), v)
    decreases |run|
  {
    if run != [] {
      var a, s1 := run[0], Next(s, run[0]);
      StepConserves(s, a, cap, v);
      StepKeepsInv(s, a, cap);
      RunConserves(s1, run[1..], cap, v);
      TimesConcat(In1(a), AllPassed(run[1..]), v);
      TimesConcat(Out1(s, a), AllReturned(s1, run[1..]), v);
    }
  }

  /** Over every run, with any number of readers and writers: every value that was passed to `write` was
      returned by `read`, is in the channel, or is in the hands of a fiber, as often as it was passed. */
  lemma ValuesAreConserved<T>(s0: State<T>, run: seq<Act<T>>, s: State<T>, cap: nat, v: T)
    requires Init(s0, cap) && ValidRun(s0, run) && s == After(s0, run)
    ensures Times(AllPassed(run), v) == Times(AllReturned(s0, run), v) + Times(s.items, v) + Carried(s.pcs, v)
  {
    InitInv(s0, cap);
    NothingCarried(s0.pcs, v);
    RunConserves(s0, run, cap, v);
  }

  // ----- One reader, one writer ------------------------------------------------------------------

  predicate Writes<T>(pc: Pc<T>) {
    pc.WSpace? || pc.WLock?
  }

  predicate Reads<T>(pc: Pc<T>) {
    pc.RFull? || pc.RLock? || pc.RFront? || pc.RPopped? || pc.RUnlock?
  }

  ghost predicate OnlyWriter<T>(s: State<T>, w: Fiber) {
    forall f :: 0 <= f < |s.pcs| && f != w ==> !Writes(s.pcs[f])
  }

  ghost predicate OnlyReader<T>(s: State<T>, r: Fiber) {
    forall f :: 0 <= f < |s.pcs| && f != r ==> !Reads(s.pcs[f])
  }

  lemma {:induction false} WriterAlone<T>(s: State<T>, run: seq<Act<T>>, w: Fiber)
    requires ValidRun(s, run) && OnlyWriter(s, w)
    requires forall k :: 0 <= k < |run| && run[k].BeginWrite? ==> run[k].f == w
    ensures AllPassed(run) == PassedBy(run, w) && AllPut(s, run) == PushedBy(s, run, w)
    decreases |run|
  {
    if run != [] {
      OnlyTheCaller(s, run[0]);
      assert forall k :: 0 <= k < |run[1..]| ==> run[1..][k] == run[k + 1];
      WriterStays(s, run[0], w);
      WriterAlone(Next(s, run[0]), run[1..], w);
    }
  }

  lemma WriterStays<T>(s: State<T>, a: Act<T>, w: Fiber)
    requires Enabled(s, a) && OnlyWriter(s, w) && (a.BeginWrite? ==> a.f == w)
    ensures OnlyWriter(Next(s, a), w) && Put(s, a) == Pushed(s, a, w) && In1(a) == Passed(a, w)
  {
    OnlyTheCaller(s, a);
  }

  lemma {:induction false} ReaderAlone<T>(s: State<T>, run: seq<Act<T>>, r: Fiber)
    requires ValidRun(s, run) && OnlyReader(s, r)
    requires forall k :: 0 <= k < |run| && run[k].BeginRead? ==> run[k].f == r
    ensures AllReturned(s, run) == ReturnedTo(s, run, r) && AllGot(s, run) == TakenBy(s, run, r)
    decreases |run|
  {
    if run != [] {
      OnlyTheCaller(s, run[0]);
      assert forall k :: 0 <= k < |run[1..]| ==> run[1..][k] == run[k + 1];
      ReaderStays(s, run[0], r);
      ReaderAlone(Next(s, run[0]), run[1..], r);
    }
  }

  lemma ReaderStays<T>(s: State<T>, a: Act<T>, r: Fiber)
    requires Enabled(s, a) && OnlyReader(s, r) && (a.BeginRead? ==> a.f == r)
    ensures OnlyReader(Next(s, a), r) && Got(s, a) == Taken(s, a, r) && Out1(s, a) == Returned(s, a, r)
  {
    OnlyTheCaller(s, a);
  }

  /** With one reader, and any number of writers: what `read` has returned are the first values pushed, in
      that order; then come the value in the reader's hands and those in the channel. */
  lemma OneReader<T>(s0: State<T>, run: seq<Act<T>>, s: State<T>, cap: nat, r: Fiber)
    requires Init(s0, cap) && ValidRun(s0, run) && s == After(s0, run) && r < |s0.pcs|
    requires forall k :: 0 <= k < |run| && run[k].BeginRead? ==> run[k].f == r
    ensures r < |s.pcs| && AllPut(s0, run) == AllReturned(s0, run) + ToReturn(s.pcs[r]) + s.items
  {
    FirstInFirstOut(s0, run, s, cap);
    ReaderAlone(s0, run, r);
    ReadersReturnWhatTheyPop(s0, run, s, cap, r);
  }

  /** With one writer, and any number of readers: the values popped are the first values passed to `write`,
      in that order; then come those in the channel, and the value in the writer's hands. */
  lemma OneWriter<T>(s0: State<T>, run: seq<Act<T>>, s: State<T>, cap: nat, w: Fiber)
    requires Init(s0, cap) && ValidRun(s0, run) && s == After(s0, run) && w < |s0.pcs|
    requires forall k :: 0 <= k < |run| && run[k].BeginWrite? ==> run[k].f == w
    ensures w < |s.pcs| && AllPassed(run) == AllGot(s0, run) + s.items + ToPush(s.pcs[w])
  {
    FirstInFirstOut(s0, run, s, cap);
    WriterAlone(s0, run, w);
    WritersPushWhatTheyPass(s0, run, s, cap, w);
  }
}
