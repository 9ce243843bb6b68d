/**
 Timers as their users see them: a set of deadlines, and rounds that fire what is due.  The timing
 wheel refines this (`WheelRuns.RoundRefinesTimers`); here is what follows over whole runs.
 */
module TimerRuns {
  import opened Common

  /** One firing: when, when the round before was, and whether an event was ready or the timer fired. */
  datatype Firing<X> = Firing(x: X, at: nat, prev: nat, ready: bool)

  /** `known` are the deadlines of everything ever added, `last` is the time of the last round. */
  datatype Timers<X> = Timers(pending: map<X, nat>, known: map<X, nat>, last: nat, log: seq<Firing<X>>)

  datatype Event<X> =
    | Add(x: X, deadline: nat, now: nat)
    | Round(now: nat, ready: seq<X>, fired: seq<X>, added: map<X, nat>)

  ghost predicate FiredExactly<X>(pending: map<X, nat>, now: nat, ready: seq<X>, fired: seq<X>) {
    && (forall x :: x in fired ==> x in pending && (x in ready || pending[x] <= now))
    && (forall x :: x in pending && (x in ready || pending[x] <= now) ==> x in fired)
    && Distinct(fired)
  }

  /** An addition is accepted unless its deadline, or the clock itself, is behind. */
  predicate Accepts<X>(t: Timers<X>, deadline: nat, now: nat) {
    t.last <= now <= deadline
  }

  /** In rounds the clock does not go back; every addition is a new timer, and those made while a round
      is running are not past. */
  ghost predicate Enabled<X>(t: Timers<X>, e: Event<X>) {
    match e
    case Add(x, _, _) => x !in t.known
    case Round(now, ready, fired, added) =>
      && t.last <= now && FiredExactly(t.pending, now, ready, fired)
      && forall x :: x in added ==> x !in t.known && now <= added[x]
  }

  ghost function Firings<X>(t: Timers<X>, now: nat, ready: seq<X>, fired: seq<X>): (r: seq<Firing<X>>)
    ensures |r| == |fired|
  {
    seq(|fired|, i requires 0 <= i < |fired| => Firing(fired[i], now, t.last, fired[i] in ready))
  }

  ghost function Next<X>(t: Timers<X>, e: Event<X>): Timers<X>
    requires Enabled(t, e)
  {
    match e
    case Add(x, deadline, now) =>
      if !Accepts(t, deadline, now) then t
      else t.(pending := t.pending[x := deadline], known := t.known[x := deadline])
    case Round(now, ready, fired, added) =>
      Timers(t.pending - (set x | x in fired) + added, t.known + added, now,
             t.log + Firings(t, now, ready, fired))
  }

  ghost predicate ValidRun<X>(t: Timers<X>, run: seq<Event<X>>)
    decreases |run|
  {
    run == [] || (Enabled(t, run[0]) && ValidRun(Next(t, run[0]), run[1..]))
  }

  ghost function After<X>(t: Timers<X>, run: seq<Event<X>>): Timers<X>
    requires ValidRun(t, run)
    decreases |run|
  {
    if run == [] then t else After(Next(t, run[0]), run[1..])
  }

  /** Everything ever added is pending with its deadline, or was fired. */
  ghost predicate NothingLost<X>(t: Timers<X>) {
    && (forall x :: x in t.pending ==> x in t.known && t.pending[x] == t.known[x] && t.last <= t.known[x])
    && (forall x :: x in t.known && x !in t.pending ==> exists i :: 0 <= i < |t.log| && t.log[i].x == x)
  }

  /** What was fired is not pending any more, and was fired once. */
  ghost predicate FiredOnce<X>(t: Timers<X>) {
    && (forall i :: 0 <= i < |t.log| ==> t.log[i].x in t.known && t.log[i].x !in t.pending)
    && (forall i, j :: 0 <= i < j < |t.log| ==> t.log[i].x != t.log[j].x)
  }

  /** No timer fired early, and none later than the first round that could fire it. */
  ghost predicate OnTime<X>(t: Timers<X>) {
    forall i :: 0 <= i < |t.log| && !t.log[i].ready ==>
      t.log[i].x in t.known && t.log[i].prev <= t.known[t.log[i].x] <= t.log[i].at
  }

  ghost predicate Punctual<X>(t: Timers<X>) {
    NothingLost(t) && FiredOnce(t) && OnTime(t)
  }

  /** The log after a round: the old one, then the firings. */
  lemma LogAfter<X>(t: Timers<X>, e: Event<X>)
    requires Enabled(t, e) && e.Round?
    ensures var t' := Next(t, e); var n := |t.log|;
      && |t'.log| == n + |e.fired|
      && (forall i :: 0 <= i < n ==> t'.log[i] == t.log[i])
      && (forall i :: n <= i < n + |e.fired| ==>
            e.fired[i - n] in e.fired
            && t'.log[i] == Firing(e.fired[i - n], e.now, t.last, e.fired[i - n] in e.ready))
  {}

  lemma RoundLosesNothing<X>(t: Timers<X>, e: Event<X>)
    requires NothingLost(t) && Enabled(t, e) && e.Round?
    ensures NothingLost(Next(t, e))
  {
    var t' := Next(t, e);
    LogAfter(t, e);
    forall x | x in t'.known && x !in t'.pending
      ensures exists i :: 0 <= i < |t'.log| && t'.log[i].x == x
    {
      if x in t.pending {
        var i :| 0 <= i < |e.fired| && e.fired[i] == x;
        assert t'.log[|t.log| + i].x == x;
      } else {
        var i :| 0 <= i < |t.log| && t.log[i].x == x;
        assert t'.log[i].x == x;
      }
    }
  }

  lemma RoundFiresOnce<X>(t: Timers<X>, e: Event<X>)
    requires NothingLost(t) && FiredOnce(t) && Enabled(t, e) && e.Round?
    ensures FiredOnce(Next(t, e))
  {
    var t', n := Next(t, e), |t.log|;
    LogAfter(t, e);
    forall i, j | 0 <= i < j < |t'.log|
      ensures t'.log[i].x != t'.log[j].x
    {
      if i >= n {
        assert e.fired[i - n] != e.fired[j - n];
      }
    }
  }

  lemma RoundIsOnTime<X>(t: Timers<X>, e: Event<X>)
    requires Punctual(t) && Enabled(t, e) && e.Round?
    ensures OnTime(Next(t, e))
  {
    LogAfter(t, e);
  }

  lemma AddIsPunctual<X>(t: Timers<X>, e: Event<X>)
    requires Punctual(t) && Enabled(t, e) && e.Add?
    ensures Punctual(Next(t, e))
  {
    if Accepts(t, e.deadline, e.now) {
      var t' := Next(t, e);
      forall x | x in t'.known && x !in t'.pending
        ensures exists i :: 0 <= i < |t'.log| && t'.log[i].x == x
      {
        assert x in t.known && x !in t.pending;
      }
    }
  }

  /** Over every run with a clock that does not go back. */
  lemma {:induction false} RunsArePunctual<X>(t: Timers<X>, run: seq<Event<X>>)
    requires Punctual(t) && ValidRun(t, run)
    ensures Punctual(After(t, run))
    decreases |run|
  {
    if run != [] {
      if run[0].Round? {
        RoundLosesNothing(t, run[0]);
        RoundFiresOnce(t, run[0]);
        RoundIsOnTime(t, run[0]);
      } else {
        AddIsPunctual(t, run[0]);
      }
      RunsArePunctual(Next(t, run[0]), run[1..]);
    }
  }

  /** One more event at the end of a run. */
  lemma {:induction false} RunThenOne<X>(t: Timers<X>, run: seq<Event<X>>, e: Event<X>)
    requires ValidRun(t, run) && Enabled(After(t, run), e)
    ensures ValidRun(t, run + [e]) && After(t, run + [e]) == Next(After(t, run), e)
    decreases |run|
  {
    if run != [] {
      assert (run + [e])[1..] == run[1..] + [e];
      RunThenOne(Next(t, run[0]), run[1..], e);
    } else {
      assert run + [e] == [e];
    }
  }
}
