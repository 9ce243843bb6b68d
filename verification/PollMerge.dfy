/**
 The hooked `poll`: entries for the same descriptor are merged before waiting, because an epoll
 instance takes a descriptor only once, and the answers are handed back to every entry afterwards.
 */
module PollMerge {
  import opened Common
  import opened EventMasks

  datatype PollFd = PollFd(fd: int, events: bv16, revents: bv16)

  /** Everything the entries for `fd` ask for. */
  ghost function Wanted(fds: seq<PollFd>, fd: int): bv16 {
    if fds == [] then 0
    else
      var k := |fds| - 1;
      if fds[k].fd == fd then Wanted(fds[..k], fd) | fds[k].events else Wanted(fds[..k], fd)
  }

  ghost predicate Mentions(fds: seq<PollFd>, fd: int) {
    exists i :: 0 <= i < |fds| && fds[i].fd == fd
  }

  /** The descriptors in the order in which they first occur. */
  ghost function FirstFds(fds: seq<PollFd>): seq<int> {
    if fds == [] then []
    else
      var k := |fds| - 1;
      FirstFds(fds[..k]) + (if Mentions(fds[..k], fds[k].fd) then [] else [fds[k].fd])
  }

  ghost predicate NoDuplicates(fds: seq<PollFd>) {
    forall i, j :: 0 <= i < j < |fds| ==> fds[i].fd != fds[j].fd
  }

  /** What merging the entries must give: one slot per descriptor, in order of first occurrence, asking
      for everything its entries ask for; the map leads from descriptors to slots. */
  ghost predicate Merged(fds: seq<PollFd>, slots: seq<PollFd>, m: map<int, nat>) {
    Slotted(fds, slots) && Asked(fds, slots) && Mapped(fds, slots, m)
  }

  ghost predicate Slotted(fds: seq<PollFd>, slots: seq<PollFd>) {
    |slots| == |FirstFds(fds)| && forall j :: 0 <= j < |slots| ==> slots[j].fd == FirstFds(fds)[j]
  }

  ghost predicate Asked(fds: seq<PollFd>, slots: seq<PollFd>) {
    forall j :: 0 <= j < |slots| ==> slots[j].events == Wanted(fds, slots[j].fd)
  }

  ghost predicate Mapped(fds: seq<PollFd>, slots: seq<PollFd>, m: map<int, nat>) {
    && (forall j :: 0 <= j < |slots| ==> slots[j].fd in m && m[slots[j].fd] == j)
    && (forall fd :: fd in m ==> m[fd] < |slots| && slots[m[fd]].fd == fd)
    && (forall fd :: fd in m <==> Mentions(fds, fd))
  }

  lemma WantedNothing(fds: seq<PollFd>, fd: int)
    requires !Mentions(fds, fd)
    ensures Wanted(fds, fd) == 0
  {
    if fds != [] {
      var k := |fds| - 1;
      assert fds[k].fd != fd;
      forall i | 0 <= i < k
        ensures fds[..k][i].fd != fd
      {
        assert fds[i].fd != fd;
      }
      WantedNothing(fds[..k], fd);
    }
  }

  // The effect of one more entry on the reference definitions.

  lemma OneMoreWanted(p: seq<PollFd>, e: PollFd, fd: int)
    ensures Wanted(p + [e], fd) == if e.fd == fd then Wanted(p, fd) | e.events else Wanted(p, fd)
  {
    assert (p + [e])[..|p|] == p;
  }

  lemma OneMoreMentioned(p: seq<PollFd>, e: PollFd)
    ensures forall fd :: Mentions(p + [e], fd) <==> Mentions(p, fd) || e.fd == fd
  {
    var q := p + [e];
    assert forall i :: 0 <= i < |p| ==> q[i] == p[i];
    assert q[|p|] == e;
  }

  lemma OneMoreFirst(p: seq<PollFd>, e: PollFd)
    ensures FirstFds(p + [e]) == FirstFds(p) + if Mentions(p, e.fd) then [] else [e.fd]
  {
    assert (p + [e])[..|p|] == p;
  }

  /** A slot asks for more. */
  function Widened(slots: seq<PollFd>, j: nat, events: bv16): (r: seq<PollFd>)
    requires j < |slots|
    ensures |r| == |slots| && forall k :: 0 <= k < |slots| ==> r[k].fd == slots[k].fd
    ensures forall k :: 0 <= k < |slots| && k != j ==> r[k] == slots[k]
  {
    slots[j := slots[j].(events := slots[j].events | events)]
  }

  lemma MergeOld(p: seq<PollFd>, e: PollFd, slots: seq<PollFd>, m: map<int, nat>)
    requires Merged(p, slots, m) && e.fd in m
    ensures Merged(p + [e], Widened(slots, m[e.fd], e.events), m)
  {
    forall k | 0 <= k < |slots| && k != m[e.fd]
      ensures slots[k].fd != e.fd
    {
      assert m[slots[k].fd] == k;
    }
    MergeOldAsked(p, e, slots, m[e.fd]);
    MergeOldMapped(p, e, slots, m, Widened(slots, m[e.fd], e.events));
  }

  lemma MergeOldMapped(p: seq<PollFd>, e: PollFd, slots: seq<PollFd>, m: map<int, nat>, slots': seq<PollFd>)
    requires Slotted(p, slots) && Mapped(p, slots, m) && e.fd in m
    requires |slots'| == |slots| && forall k :: 0 <= k < |slots| ==> slots'[k].fd == slots[k].fd
    ensures Slotted(p + [e], slots') && Mapped(p + [e], slots', m)
  {
    OneMoreMentioned(p, e);
    OneMoreFirst(p, e);
  }

  lemma MergeOldAsked(p: seq<PollFd>, e: PollFd, slots: seq<PollFd>, j: nat)
    requires Asked(p, slots) && j < |slots| && slots[j].fd == e.fd
    requires forall k :: 0 <= k < |slots| && k != j ==> slots[k].fd != e.fd
    ensures Asked(p + [e], Widened(slots, j, e.events))
  {
    forall k | 0 <= k < |slots|
      ensures Widened(slots, j, e.events)[k].events == Wanted(p + [e], slots[k].fd)
    {
      OneMoreWanted(p, e, slots[k].fd);
    }
  }

  lemma MergeNew(p: seq<PollFd>, e: PollFd, slots: seq<PollFd>, m: map<int, nat>)
    requires Merged(p, slots, m) && e.fd !in m
    ensures Merged(p + [e], slots + [e], m[e.fd := |slots|])
  {
    OneMoreMentioned(p, e);
    OneMoreFirst(p, e);
    MergeNewAsked(p, e, slots);
  }

  lemma MergeNewAsked(p: seq<PollFd>, e: PollFd, slots: seq<PollFd>)
    requires Asked(p, slots) && !Mentions(p, e.fd)
    requires forall k :: 0 <= k < |slots| ==> slots[k].fd != e.fd
    ensures Asked(p + [e], slots + [e])
  {
    WantedNothing(p, e.fd);
    OneMoreWanted(p, e, e.fd);
    forall k | 0 <= k < |slots| {
      OneMoreWanted(p, e, slots[k].fd);
    }
  }

  /** Slots are distinct, and there are as many as entries exactly if no descriptor occurs twice. */
  lemma {:induction false} SlotCount(fds: seq<PollFd>)
    ensures |FirstFds(fds)| <= |fds|
    ensures |FirstFds(fds)| == |fds| <==> NoDuplicates(fds)
    ensures Distinct(FirstFds(fds))
    ensures forall i :: 0 <= i < |FirstFds(fds)| ==> Mentions(fds, FirstFds(fds)[i])
  {
    if fds != [] {
      var k := |fds| - 1;
      var p, e := fds[..k], fds[k];
      assert fds == p + [e];
      SlotCount(p);
      OneMoreMentioned(p, e);
      OneMoreFirst(p, e);
      if NoDuplicates(p) && !Mentions(p, e.fd) {
        forall i, j | 0 <= i < j < |fds|
          ensures fds[i].fd != fds[j].fd
        {
          assert p[i].fd == fds[i].fd;
        }
      }
      if NoDuplicates(fds) {
        assert forall i :: 0 <= i < k ==> p[i].fd != e.fd;
      }
    }
  }

  /** What an entry asks for is part of what its slot asks for. */
  lemma {:induction false} WantedCovers(fds: seq<PollFd>, i: nat)
    requires i < |fds|
    ensures fds[i].events & Wanted(fds, fds[i].fd) == fds[i].events
  {
    var k := |fds| - 1;
    if i < k {
      WantedCovers(fds[..k], i);
    }
  }

  // ----- The code --------------------------------------------------------------------------------

  /** The merge loop. */
  method Merge(fds: seq<PollFd>) returns (slots: seq<PollFd>, m: map<int, nat>)
    ensures Merged(fds, slots, m)
  {
    slots, m := [], map[];
    var i := 0;
    ghost var p: seq<PollFd> := [];
    while i < |fds|
      invariant 0 <= i <= |fds| && p == fds[..i]
      invariant Merged(p, slots, m)
    {
      assert fds[..i + 1] == fds[..i] + [fds[i]];
      if fds[i].fd !in m {
        MergeNew(p, fds[i], slots, m);
        m := m[fds[i].fd := |slots|];
        slots := slots + [fds[i]];
      } else {
        MergeOld(p, fds[i], slots, m);
        slots := Widened(slots, m[fds[i].fd], fds[i].events);
      }
      p := p + [fds[i]];
      i := i + 1;
    }
    assert p == fds;
  }

  /** `co_poll_inner` on an array: what it finds for each entry is up to the environment.  It returns for
      how many entries it found something, or -1 if it could not wait. */
  method WaitFor(fds: array<PollFd>, answers: nat -> bv16, failed: bool) returns (ret: int)
    modifies fds
    ensures forall i :: 0 <= i < fds.Length ==> fds[i] == old(fds[i]).(revents := answers(i))
    ensures ret == if failed then -1 else Answers(answers, fds.Length)
  {
    var i, n := 0, 0;
    while i < fds.Length
      invariant 0 <= i <= fds.Length && n == Answers(answers, i)
      invariant forall j :: 0 <= j < fds.Length ==>
        fds[j] == if j < i then old(fds[j]).(revents := answers(j)) else old(fds[j])
    {
      fds[i] := fds[i].(revents := answers(i));
      n := n + if answers(i) != 0 then 1 else 0;
      i := i + 1;
    }
    return if failed then -1 else n;
  }

  /** The scatter loop: every entry gets what was found for its descriptor, as far as it asked. */
  method Scatter(fds: array<PollFd>, slots: array<PollFd>, m: map<int, nat>)
    requires fds != slots
    requires forall i :: 0 <= i < fds.Length ==> fds[i].fd in m && m[fds[i].fd] < slots.Length
    modifies fds
    ensures forall i :: 0 <= i < fds.Length ==>
      fds[i] == old(fds[i]).(revents := slots[m[old(fds[i].fd)]].revents & old(fds[i].events))
  {
    var i := 0;
    while i < fds.Length
      invariant 0 <= i <= fds.Length
      invariant forall j :: i <= j < fds.Length ==> fds[j] == old(fds[j])
      invariant forall j :: 0 <= j < i ==>
        fds[j] == old(fds[j]).(revents := slots[m[old(fds[j].fd)]].revents & old(fds[j].events))
    {
      fds[i] := fds[i].(revents := slots[m[fds[i].fd]].revents & fds[i].events);
      i := i + 1;
    }
  }

  /** Every entry got its own answer. */
  ghost predicate HandedOver(was: seq<PollFd>, fds: seq<PollFd>, answers: nat -> bv16) {
    |fds| == |was| && forall i :: 0 <= i < |fds| ==> fds[i] == was[i].(revents := answers(i))
  }

  /** The hooked `poll` with a timeout.  What it waits for never names a descriptor twice; `waited` is
      that list, and `m` its map.  It returns for how many of these something was found. */
  method Poll(fds: array<PollFd>, answers: nat -> bv16, failed: bool)
    returns (n: int, waited: seq<PollFd>, ghost m: map<int, nat>)
    modifies fds
    ensures NoDuplicates(waited) && n == if failed then -1 else Answers(answers, |waited|)
    ensures if NoDuplicates(old(fds[..])) then
        waited == old(fds[..]) && HandedOver(old(fds[..]), fds[..], answers)
      else
        Merged(old(fds[..]), waited, m) && fds[..] == Outcome(old(fds[..]), Found(m, answers), n)
  {
    var slots, map1 := [], map[];
    if fds.Length > 1 {
      slots, map1 := Merge(fds[..]);
    }
    m := map1;
    SlotCount(fds[..]);
    if |slots| == fds.Length || fds.Length == 1 {
      waited := fds[..];
      n := WaitFor(fds, answers, failed);
    } else {
      waited := slots;
      assert forall i :: 0 <= i < fds.Length ==> Mentions(fds[..], fds[..][i].fd);
      n := WaitAndScatter(fds, slots, map1, answers, failed);
    }
  }

  /** The second branch of `poll`: waiting for the slots, and handing the answers back. */
  method WaitAndScatter(fds: array<PollFd>, slots: seq<PollFd>, m: map<int, nat>, answers: nat -> bv16, failed: bool)
    returns (ret: int)
    requires forall i :: 0 <= i < fds.Length ==> fds[i].fd in m && m[fds[i].fd] < |slots|
    modifies fds
    ensures ret == if failed then -1 else Answers(answers, |slots|)
    ensures fds[..] == Outcome(old(fds[..]), Found(m, answers), ret)
  {
    ghost var was, found := fds[..], Found(m, answers);
    var merged := new PollFd[|slots|](i requires 0 <= i < |slots| => slots[i]);
    ret := WaitFor(merged, answers, failed);
    if ret > 0 {
      assert forall i :: 0 <= i < |was| ==> merged[m[was[i].fd]].revents == found(was[i].fd);
      Scatter(fds, merged, m);
      forall i | 0 <= i < |was|
        ensures fds[i] == Outcome(was, found, ret)[i]
      {
      }
    }
  }

  // ----- What the number means -------------------------------------------------------------------

  /** For how many of the first `k` something was found. */
  function Answers(answers: nat -> bv16, k: nat): nat {
    if k == 0 then 0 else Answers(answers, k - 1) + if answers(k - 1) != 0 then 1 else 0
  }

  /** How many entries have something in `revents`, which is what `poll` is to return. */
  function Raised(fds: seq<PollFd>): nat {
    if fds == [] then 0
    else Raised(fds[..|fds| - 1]) + if fds[|fds| - 1].revents != 0 then 1 else 0
  }

  /** What was found, by descriptor. */
  function Found(m: map<int, nat>, answers: nat -> bv16): int -> bv16 {
    fd => if fd in m then answers(m[fd]) else 0
  }

  /** The entries after `poll`: each has what was found for its descriptor, as far as it asked; or they are
      untouched, if nothing was found. */
  function Outcome(was: seq<PollFd>, found: int -> bv16, n: int): (fds: seq<PollFd>)
    ensures |fds| == |was|
    ensures n <= 0 ==> fds == was
  {
    if n <= 0 then was
    else seq(|was|, i requires 0 <= i < |was| => was[i].(revents := found(was[i].fd) & was[i].events))
  }

  /** How many entries get something. */
  function HitCount(q: seq<PollFd>, found: int -> bv16): nat {
    if q == [] then 0
    else
      var e := q[|q| - 1];
      HitCount(q[..|q| - 1], found) + if Hits(found(e.fd), e.events) then 1 else 0
  }

  /** The descriptors of these entries. */
  ghost function HitFds(q: seq<PollFd>, found: int -> bv16): set<int> {
    set i | 0 <= i < |q| && Hits(found(q[i].fd), q[i].events) :: q[i].fd
  }

  ghost predicate OneHitEach(q: seq<PollFd>, found: int -> bv16) {
    forall i, j :: 0 <= i < j < |q| && q[i].fd == q[j].fd ==>
      !Hits(found(q[i].fd), q[i].events) || !Hits(found(q[j].fd), q[j].events)
  }

  /** No descriptor is asked about by two entries. */
  ghost predicate OneAsker(q: seq<PollFd>) {
    forall i, j :: 0 <= i < j < |q| && q[i].fd == q[j].fd ==> q[i].events == 0 || q[j].events == 0
  }

  lemma OneMoreHit(p: seq<PollFd>, e: PollFd, found: int -> bv16)
    ensures var hit := Hits(found(e.fd), e.events);
      && HitFds(p + [e], found) == HitFds(p, found) + (if hit then {e.fd} else {})
      && HitCount(p + [e], found) == HitCount(p, found) + (if hit then 1 else 0)
      && (OneHitEach(p + [e], found) <==> OneHitEach(p, found) && (hit ==> e.fd !in HitFds(p, found)))
  {
    var q := p + [e];
    assert q[..|p|] == p && q[|p|] == e;
    assert forall i :: 0 <= i < |p| ==> q[i] == p[i];
  }

  /** More entries get something than descriptors have something, unless each descriptor has only one such
      entry. */
  lemma {:induction false} HitsAreDescriptors(q: seq<PollFd>, found: int -> bv16)
    ensures |HitFds(q, found)| <= HitCount(q, found)
    ensures |HitFds(q, found)| == HitCount(q, found) <==> OneHitEach(q, found)
  {
    if q != [] {
      var k := |q| - 1;
      HitsAreDescriptors(q[..k], found);
      OneMoreHit(q[..k], q[k], found);
      assert q == q[..k] + [q[k]];
    }
  }

  /** A slot gets something exactly if one of its entries does. */
  lemma {:induction false} WantedHits(q: seq<PollFd>, fd: int, found: int -> bv16)
    ensures Hits(found(fd), Wanted(q, fd)) <==> fd in HitFds(q, found)
  {
    if q == [] {
      HitsNothing(found(fd));
    } else {
      var k := |q| - 1;
      WantedHits(q[..k], fd, found);
      WantedHitsStep(q[..k], q[k], fd, found);
      assert q == q[..k] + [q[k]];
    }
  }

  lemma WantedHitsStep(p: seq<PollFd>, e: PollFd, fd: int, found: int -> bv16)
    requires Hits(found(fd), Wanted(p, fd)) <==> fd in HitFds(p, found)
    ensures Hits(found(fd), Wanted(p + [e], fd)) <==> fd in HitFds(p + [e], found)
  {
    OneMoreHit(p, e, found);
    NextWantedHits(p, e, fd, found(fd));
  }

  lemma NextWantedHits(p: seq<PollFd>, e: PollFd, fd: int, a: bv16)
    ensures Hits(a, Wanted(p + [e], fd)) <==> Hits(a, Wanted(p, fd)) || (e.fd == fd && Hits(a, e.events))
  {
    if e.fd != fd {
      OneMoreWanted(p, e, fd);
    } else if Hits(a, Wanted(p, fd)) {
      StillHits(p, e, a);
    } else if Hits(a, e.events) {
      NowHits(p, e, a);
    } else {
      StillHitsNothing(p, e, a);
    }
  }

  lemma StillHits(p: seq<PollFd>, e: PollFd, a: bv16)
    requires Hits(a, Wanted(p, e.fd))
    ensures Hits(a, Wanted(p + [e], e.fd))
  {
    OneMoreWanted(p, e, e.fd);
    HitsLeft(a, Wanted(p, e.fd), e.events);
  }

  lemma NowHits(p: seq<PollFd>, e: PollFd, a: bv16)
    requires Hits(a, e.events)
    ensures Hits(a, Wanted(p + [e], e.fd))
  {
    OneMoreWanted(p, e, e.fd);
    HitsRight(a, Wanted(p, e.fd), e.events);
  }

  lemma StillHitsNothing(p: seq<PollFd>, e: PollFd, a: bv16)
    requires !Hits(a, Wanted(p, e.fd)) && !Hits(a, e.events)
    ensures !Hits(a, Wanted(p + [e], e.fd))
  {
    OneMoreWanted(p, e, e.fd);
    HitsNeither(a, Wanted(p, e.fd), e.events);
  }

  // ----- When the number is right ----------------------------------------------------------------

  /** Nothing is found that no entry of the descriptor asked for. */
  ghost predicate Within(slots: seq<PollFd>, answers: nat -> bv16) {
    forall j :: 0 <= j < |slots| ==> answers(j) & slots[j].events == answers(j)
  }

  /** The slots with an answer are the slots that get something. */
  lemma {:induction false} AnswersAreHits(slots: seq<PollFd>, k: nat, found: int -> bv16, answers: nat -> bv16)
    requires k <= |slots| && Within(slots, answers)
    requires forall j :: 0 <= j < k ==> found(slots[j].fd) == answers(j)
    ensures HitCount(slots[..k], found) == Answers(answers, k)
  {
    if k > 0 {
      AnswersAreHits(slots, k - 1, found, answers);
      OneMoreHit(slots[..k - 1], slots[k - 1], found);
      assert slots[..k] == slots[..k - 1] + [slots[k - 1]];
      AnswerIsHit(slots, k - 1, found, answers);
    }
  }

  lemma AnswerIsHit(slots: seq<PollFd>, j: nat, found: int -> bv16, answers: nat -> bv16)
    requires j < |slots| && Within(slots, answers) && found(slots[j].fd) == answers(j)
    ensures Hits(found(slots[j].fd), slots[j].events) <==> answers(j) != 0
  {
    HitsWithin(answers(j), slots[j].events);
  }

  /** The number of answers is the number of descriptors with an entry that gets something. */
  lemma AnswersAreDescriptors(was: seq<PollFd>, slots: seq<PollFd>, m: map<int, nat>, answers: nat -> bv16)
    requires Merged(was, slots, m) && Within(slots, answers)
    ensures Answers(answers, |slots|) == |HitFds(was, Found(m, answers))|
  {
    var found := Found(m, answers);
    AnswersAreHits(slots, |slots|, found, answers);
    assert slots[..|slots|] == slots;
    HitsAreDescriptors(slots, found);
    assert OneHitEach(slots, found);
    SlotsHitTheSame(was, slots, m, found);
  }

  lemma SlotsHitTheSame(was: seq<PollFd>, slots: seq<PollFd>, m: map<int, nat>, found: int -> bv16)
    requires Merged(was, slots, m)
    ensures HitFds(slots, found) == HitFds(was, found)
  {
    forall fd
      ensures fd in HitFds(slots, found) <==> fd in HitFds(was, found)
    {
      WantedHits(was, fd, found);
      if fd in m {
        assert slots[m[fd]].fd == fd && slots[m[fd]].events == Wanted(was, fd);
      } else {
        WantedNothing(was, fd);
        HitsNothing(found(fd));
      }
    }
  }

  /** After handing back, the entries with something are those that get something. */
  lemma {:induction false} RaisedIsHits(was: seq<PollFd>, found: int -> bv16, n: int)
    requires n > 0
    ensures Raised(Outcome(was, found, n)) == HitCount(was, found)
  {
    if was != [] {
      var k := |was| - 1;
      RaisedIsHits(was[..k], found, n);
      assert Outcome(was, found, n)[..k] == Outcome(was[..k], found, n);
    }
  }

  /** `poll` with duplicates returned the right number: as many entries have something. */
  ghost predicate NumberIsRight(was: seq<PollFd>, slots: seq<PollFd>, m: map<int, nat>, answers: nat -> bv16) {
    var n := Answers(answers, |slots|);
    Raised(Outcome(was, Found(m, answers), n)) == n
  }

  /** The number is right for one set of answers exactly if no descriptor has two entries that get
      something, or, when nothing was found, no entry came with something in `revents`. */
  lemma NumberIsRightIf(was: seq<PollFd>, slots: seq<PollFd>, m: map<int, nat>, answers: nat -> bv16)
    requires Merged(was, slots, m) && Within(slots, answers)
    ensures NumberIsRight(was, slots, m, answers) <==>
            if Answers(answers, |slots|) > 0 then OneHitEach(was, Found(m, answers)) else Raised(was) == 0
  {
    var found, n := Found(m, answers), Answers(answers, |slots|);
    AnswersAreDescriptors(was, slots, m, answers);
    HitsAreDescriptors(was, found);
    if n > 0 {
      RaisedIsHits(was, found, n);
    }
  }

  lemma OneAskerOneHit(was: seq<PollFd>, found: int -> bv16)
    requires OneAsker(was)
    ensures OneHitEach(was, found)
  {
    forall i | 0 <= i < |was|
      ensures was[i].events == 0 ==> !Hits(found(was[i].fd), was[i].events)
    {
      HitsNothing(found(was[i].fd));
    }
  }

  /** Two entries that ask about one descriptor both get something when all that was asked for is found. */
  lemma TwoAskersTwoHits(was: seq<PollFd>, slots: seq<PollFd>, m: map<int, nat>, i: nat, j: nat)
    requires Merged(was, slots, m) && i < j < |was| && was[i].fd == was[j].fd
    requires was[i].events != 0 && was[j].events != 0
    ensures exists answers :: Within(slots, answers) && !NumberIsRight(was, slots, m, answers)
  {
    var answers := (k: nat) => if k < |slots| then slots[k].events else 0;
    forall k | 0 <= k < |slots|
      ensures answers(k) & slots[k].events == answers(k)
    {
      TrivialMasks(slots[k].events);
    }
    var found, fd := Found(m, answers), was[i].fd;
    assert Mentions(was, fd);
    assert found(fd) == Wanted(was, fd);
    AskerHits(was, i);
    AskerHits(was, j);
    assert fd in HitFds(was, found);
    AnswersAreDescriptors(was, slots, m, answers);
    NumberIsRightIf(was, slots, m, answers);
    assert Within(slots, answers) && !NumberIsRight(was, slots, m, answers);
  }

  lemma AskerHits(was: seq<PollFd>, i: nat)
    requires i < |was| && was[i].events != 0
    ensures Hits(Wanted(was, was[i].fd), was[i].events)
  {
    WantedCovers(was, i);
    HitsCovered(Wanted(was, was[i].fd), was[i].events);
  }

  /** Whatever the wait finds of what it was asked for, the hooked `poll` returns the number of entries with
      something in `revents`: if, and only if, no descriptor is asked about by two entries, and no entry
      comes with something in `revents`. */
  lemma NumberIsRightExactly(was: seq<PollFd>, slots: seq<PollFd>, m: map<int, nat>)
    requires Merged(was, slots, m)
    ensures (forall answers :: Within(slots, answers) ==> NumberIsRight(was, slots, m, answers))
      <==> OneAsker(was) && Raised(was) == 0
  {
    if OneAsker(was) && Raised(was) == 0 {
      forall answers | Within(slots, answers)
        ensures NumberIsRight(was, slots, m, answers)
      {
        NumberIsRightIf(was, slots, m, answers);
        OneAskerOneHit(was, Found(m, answers));
      }
    } else if !OneAsker(was) {
      var i, j :| 0 <= i < j < |was| && was[i].fd == was[j].fd && was[i].events != 0 && was[j].events != 0;
      TwoAskersTwoHits(was, slots, m, i, j);
    } else {
      StaleIsLeft(was, slots, m);
    }
  }

  /** What an entry brings along in `revents` stays there when nothing is found. */
  lemma StaleIsLeft(was: seq<PollFd>, slots: seq<PollFd>, m: map<int, nat>)
    requires Merged(was, slots, m) && Raised(was) > 0
    ensures exists answers :: Within(slots, answers) && !NumberIsRight(was, slots, m, answers)
  {
    SilentIsWithin(slots);
    SilentNumber(was, slots, m);
    assert !NumberIsRight(was, slots, m, Silent);
  }

  lemma SilentNumber(was: seq<PollFd>, slots: seq<PollFd>, m: map<int, nat>)
    ensures NumberIsRight(was, slots, m, Silent) <==> Raised(was) == 0
  {
    NoAnswers(|slots|, Silent);
  }

  function Silent(j: nat): bv16 { 0 }

  lemma SilentIsWithin(slots: seq<PollFd>)
    ensures Within(slots, Silent)
  {
    forall j | 0 <= j < |slots|
      ensures Silent(j) & slots[j].events == Silent(j)
    {
      TrivialMasks(slots[j].events);
    }
  }

  lemma {:induction false} NoAnswers(k: nat, answers: nat -> bv16)
    requires forall j :: 0 <= j < k ==> answers(j) == 0
    ensures Answers(answers, k) == 0
  {
    if k > 0 {
      NoAnswers(k - 1, answers);
    }
  }

  // ----- Two inputs ------------------------------------------------------------------------------

  const POLLIN: bv16 := 0x001
  const POLLERR: bv16 := 0x008

  lemma RaisedOfTwo(x: PollFd, y: PollFd)
    ensures Raised([x, y]) == (if x.revents != 0 then 1 else 0) + (if y.revents != 0 then 1 else 0)
  {
    var q, p := [x, y], [x];
    assert q[..1] == p && p[..0] == [];
    assert Raised(p) == Raised(p[..0]) + if x.revents != 0 then 1 else 0;
  }

  /** Two entries wait for input of one descriptor, and there is some: both say so, and 1 is returned. */
  method TwoReadersCountOnce() returns (n: int, fds: array<PollFd>)
    ensures n == 1 && Raised(fds[..]) == 2
  {
    n, fds := PollTwice(POLLIN);
    TrivialMasks(POLLIN);
    RaisedOfTwo(fds[0], fds[1]);
    assert fds[..] == [fds[0], fds[1]];
  }

  /** An error nobody asked for: it is counted, and then masked away from both entries. */
  method ErrorIsMaskedAway() returns (n: int, fds: array<PollFd>)
    ensures n == 1 && Raised(fds[..]) == 0
  {
    n, fds := PollTwice(POLLERR);
    RaisedOfTwo(fds[0], fds[1]);
    assert fds[..] == [fds[0], fds[1]];
  }

  /** Two entries wait for input of descriptor 3, and `answer` is found for it. */
  method PollTwice(answer: bv16) returns (n: int, fds: array<PollFd>)
    requires answer != 0
    ensures n == 1 && fds.Length == 2
    ensures fds[0].revents == fds[1].revents == answer & POLLIN
  {
    fds := new PollFd[2](_ => PollFd(3, POLLIN, 0));
    ghost var was := fds[..];
    OneDescriptor(was);
    var waited;
    ghost var m;
    n, waited, m := Poll(fds, _ => answer, false);
    assert fds[..][0] == fds[0] && fds[..][1] == fds[1];
  }

  lemma OneDescriptor(was: seq<PollFd>)
    requires |was| == 2 && was[0].fd == was[1].fd
    ensures FirstFds(was) == [was[0].fd] && !NoDuplicates(was)
    ensures Mentions(was, was[0].fd)
  {
    var p := [was[0]];
    OneMoreFirst([], was[0]);
    OneMoreFirst(p, was[1]);
    assert [] + [was[0]] == p && p + [was[1]] == was;
    assert p[0].fd == was[1].fd;
  }
}
