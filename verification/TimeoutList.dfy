/**
 The intrusive doubly linked list of timeout items.  `items` is what a list holds, in order; every
 item in it points back to the list, so an item is in at most one list.
 */
module TimeoutList {
  import opened Common

  class TimeoutItem {
    var prev: TimeoutItem?
    var next: TimeoutItem?
    var link: TimeoutItemLink?

    const expire: nat         // ullExpireTime, set before the item goes anywhere
    var isDelayActive: bool
    var bTimeout: bool

    // The two fields a poller adds.
    var detached: bool        // iAllEventDetach
    var raiseCnt: nat         // iRaiseCnt

    constructor (expire: nat)
      ensures prev == null && next == null && link == null && this.expire == expire
      ensures !isDelayActive && !bTimeout && !detached && raiseCnt == 0
    {
      prev, next, link := null, null, null;
      this.expire, isDelayActive, bTimeout, detached, raiseCnt := expire, false, false, false, 0;
    }

    /** Takes the item out of whatever list it is in, from any position. */
    method RemoveFromLink() returns (ghost k: nat)
      requires link != null ==> link.Valid() && this in link.items
      modifies this`prev, this`next, this`link
      modifies if link == null then {} else {link}
      modifies (if link == null then [] else link.items)`next
      modifies (if link == null then [] else link.items)`prev
      ensures link == null
      ensures old(link) != null ==> old(link).Valid() && prev == null && next == null
      ensures old(link) != null ==> k < |old(link.items)| && old(link.items)[k] == this
      ensures old(link) != null ==>
        old(link).items == old(link.items)[..k] + old(link.items)[k + 1..]
      ensures old(link) == null ==> prev == old(prev) && next == old(next)
    {
      k := 0;
      var lst := link;
      if lst == null {
        return;
      }
      k :| 0 <= k < |lst.items| && lst.items[k] == this;
      Unlink(lst, k);
    }

    /** The pointer surgery of `RemoveFromLink`. */
    method Unlink(lst: TimeoutItemLink, ghost k: nat)
      requires lst.Valid() && k < |lst.items| && lst.items[k] == this
      modifies this`link, lst, lst.items`next, lst.items`prev
      ensures lst.Valid() && link == null && prev == null && next == null
      ensures lst.items == old(lst.items)[..k] + old(lst.items)[k + 1..]
    {
      ghost var was, n := lst.items, |lst.items|;
      assert this == lst.head <==> k == 0;
      assert this == lst.tail <==> k == n - 1;
      assert TimeoutItemLink.Node(was, k);
      if this == lst.head {
        lst.head := next;
        if lst.head != null {
          lst.head.prev := null;
        }
      } else {
        if prev != null {
          prev.next := next;
        }
      }
      if this == lst.tail {
        lst.tail := prev;
        if lst.tail != null {
          lst.tail.next := null;
        }
      } else {
        next.prev := prev;
      }
      prev, next := null, null;
      link := null;
      lst.items := was[..k] + was[k + 1..];
      DropDistinct(was, k);
      TimeoutItemLink.NodesWithout(was, k);
    }
  }

  lemma ConcatDistinct(a: seq<TimeoutItem>, b: seq<TimeoutItem>)
    requires Distinct(a)
    requires Distinct(b)
    requires forall x :: x in a ==> x !in b
    ensures Distinct(a + b)
  {
    var c := a + b;
    forall i, j | 0 <= i < j < |c|
      ensures c[i] != c[j]
    {
      assert i < |a| ==> c[i] == a[i] && a[i] in a;
      assert j >= |a| ==> c[j] == b[j - |a|] && b[j - |a|] in b;
    }
  }

  lemma DropDistinct(q: seq<TimeoutItem>, k: nat)
    requires k < |q| && Distinct(q)
    ensures var c := q[..k] + q[k + 1..];
      Distinct(c) && forall x :: x in c <==> x in q && x != q[k]
  {
    var c := q[..k] + q[k + 1..];
    assert forall i :: 0 <= i < |c| ==> c[i] == q[if i < k then i else i + 1];
    forall x | x in q && x != q[k]
      ensures x in c
    {
      var i :| 0 <= i < |q| && q[i] == x;
      assert c[if i < k then i else i - 1] == x;
    }
  }

  class TimeoutItemLink {
    var head: TimeoutItem?
    var tail: TimeoutItem?
    ghost var items: seq<TimeoutItem>

    /** The neighbours of the `i`th item. */
    static ghost predicate Node(q: seq<TimeoutItem>, i: nat)
      requires i < |q|
      reads q`prev, q`next
    {
      && q[i].prev == (if i == 0 then null else q[i - 1])
      && q[i].next == (if i == |q| - 1 then null else q[i + 1])
    }

    ghost predicate Valid()
      reads this, items`prev, items`next, items`link
    {
      && (if items == [] then head == null && tail == null
          else head == items[0] && tail == items[|items| - 1])
      && (forall x :: x in items ==> x.link == this)
      && (forall i :: 0 <= i < |items| ==> Node(items, i))
      && Distinct(items)
    }

    constructor ()
      ensures Valid() && items == []
    {
      head, tail, items := null, null, [];
    }

    /** A list whose items keep their pointers stays as it is. */
    twostate lemma StaysValid()
      requires old(Valid()) && unchanged(this)
      requires forall x :: x in items ==>
        old(allocated(x)) && x.prev == old(x.prev) && x.next == old(x.next) && x.link == old(x.link)
      ensures Valid()
    {
      forall i | 0 <= i < |items|
        ensures Node(items, i)
      {
        assert old(Node(items, i));
      }
    }

    /** The neighbours after the `k`th item was unlinked. */
    static twostate lemma NodesWithout(q: seq<TimeoutItem>, new k: nat)
      requires k < |q| && forall i :: 0 <= i < |q| ==> old(Node(q, i))
      requires forall i :: 0 <= i < |q| && i != k && i != k - 1 ==> q[i].next == old(q[i].next)
      requires forall i :: 0 <= i < |q| && i != k && i != k + 1 ==> q[i].prev == old(q[i].prev)
      requires k > 0 ==> q[k - 1].next == old(q[k].next)
      requires k < |q| - 1 ==> q[k + 1].prev == old(q[k].prev)
      ensures var c := q[..k] + q[k + 1..]; forall i :: 0 <= i < |c| ==> Node(c, i)
    {
      var c := q[..k] + q[k + 1..];
      assert old(Node(q, k));
      forall i | 0 <= i < |c|
        ensures Node(c, i)
      {
        assert old(Node(q, if i < k then i else i + 1));
      }
    }

    /** The neighbours of the `i`th item while the parts `q[..n]` and `q[n..]` are not linked. */
    static ghost predicate Apart(q: seq<TimeoutItem>, n: nat, i: nat)
      requires i < |q|
      reads q`prev, q`next
    {
      && q[i].prev == (if i == 0 || i == n then null else q[i - 1])
      && q[i].next == (if i == n - 1 || i == |q| - 1 then null else q[i + 1])
    }

    static lemma TwoParts(a: seq<TimeoutItem>, b: seq<TimeoutItem>)
      requires forall i :: 0 <= i < |a| ==> Node(a, i)
      requires forall i :: 0 <= i < |b| ==> Node(b, i)
      ensures var c := a + b; forall i :: 0 <= i < |c| ==> Apart(c, |a|, i)
    {
      var c := a + b;
      forall i | 0 <= i < |c|
        ensures Apart(c, |a|, i)
      {
        assert if i < |a| then Node(a, i) else Node(b, i - |a|);
      }
    }

    /** The neighbours after the parts `q[..n]` and `q[n..]` were linked. */
    static twostate lemma NodesLinked(q: seq<TimeoutItem>, new n: nat)
      requires n < |q| && forall i :: 0 <= i < |q| ==> old(Apart(q, n, i))
      requires forall i :: 0 <= i < |q| && i != n - 1 ==> q[i].next == old(q[i].next)
      requires forall i :: 0 <= i < |q| && i != n ==> q[i].prev == old(q[i].prev)
      requires n > 0 ==> q[n - 1].next == q[n]
      requires q[n].prev == if n > 0 then q[n - 1] else null
      ensures forall i :: 0 <= i < |q| ==> Node(q, i)
    {
      forall i | 0 <= i < |q|
        ensures Node(q, i)
      {
        assert old(Apart(q, n, i));
      }
    }

    /** Appends the item, unless it is in some list already. */
    method AddTail(ap: TimeoutItem)
      requires Valid()
      modifies this, ap`prev, ap`next, ap`link, items`next
      ensures Valid()
      ensures old(ap.link) == null ==> items == old(items) + [ap]
      ensures old(ap.link) != null ==> unchanged(this) && unchanged(ap) && unchanged(old(items))
    {
      if ap.link != null {
        return;
      }
      if tail != null {
        tail.next := ap;
        ap.next := null;
        ap.prev := tail;
        tail := ap;
      } else {
        head, tail := ap, ap;
        ap.next, ap.prev := null, null;
      }
      ap.link := this;
      items := items + [ap];
      forall i | 0 <= i < |items|
        ensures Node(items, i)
      {
        assert i < |items| - 1 ==> old(Node(items, i));
      }
    }

    method PopHead()
      requires Valid()
      modifies this, items`prev, items`next, items`link
      ensures Valid()
      ensures items == if old(items) == [] then [] else old(items)[1..]
      ensures old(items) != [] ==>
        old(items)[0].link == null && old(items)[0].prev == null && old(items)[0].next == null
    {
      if head == null {
        return;
      }
      var lp := head;
      assert Node(items, 0);
      if head == tail {
        head, tail := null, null;
      } else {
        head := head.next;
      }
      lp.prev, lp.next := null, null;
      lp.link := null;
      if head != null {
        head.prev := null;
      }
      items := items[1..];
      forall i | 0 <= i < |items|
        ensures Node(items, i)
      {
        assert old(Node(items, i + 1));
      }
    }

    /** The loop of `Join`: everything from `first` on now belongs to this list. */
    method Adopt(first: TimeoutItem?, ghost chain: seq<TimeoutItem>)
      requires first == if chain == [] then null else chain[0]
      requires forall i :: 0 <= i < |chain| ==> Node(chain, i)
      modifies chain`link
      ensures forall x :: x in chain ==> x.link == this
    {
      var lp := first;
      ghost var i := 0;
      while lp != null
        invariant 0 <= i <= |chain|
        invariant lp == if i < |chain| then chain[i] else null
        invariant forall j :: 0 <= j < i ==> chain[j].link == this
        decreases |chain| - i
        modifies chain`link
      {
        assert Node(chain, i);
        lp.link := this;
        lp := lp.next;
        i := i + 1;
      }
    }

    /** The pointer surgery of `Join`, on the items `c` of both lists, of which the first `n` were this
        list's. */
    method Link(other: TimeoutItemLink, ghost c: seq<TimeoutItem>, ghost n: nat)
      requires other != this && n < |c| && Distinct(c) && forall x :: x in c ==> x.link == this
      requires forall i :: 0 <= i < |c| ==> Apart(c, n, i)
      requires if n == 0 then tail == null else head == c[0] && tail == c[n - 1]
      requires other.head == c[n] && other.tail == c[|c| - 1]
      modifies this, other, c[..n]`next, {c[n]}`prev
      ensures Valid() && other.Valid() && items == c && other.items == []
    {
      assert Apart(c, n, n);
      var lp := other.head;
      if tail != null {
        tail.next := lp;
        lp.prev := tail;
        tail := other.tail;
      } else {
        head := other.head;
        tail := other.tail;
      }
      other.head, other.tail := null, null;
      items, other.items := c, [];
      NodesLinked(c, n);
    }

    /** Moves everything from the other list to the end of this one. */
    method Join(other: TimeoutItemLink)
      requires Valid() && other.Valid() && other != this
      modifies this, other, items`next, other.items`prev, other.items`link
      ensures Valid() && other.Valid()
      ensures items == old(items) + old(other.items) && other.items == []
    {
      if other.head == null {
        return;
      }
      ghost var a, b := items, other.items;
      ConcatDistinct(a, b);
      TwoParts(a, b);
      ghost var c := a + b;
      assert c[..|a|] == a && c[|a|] == b[0];
      Adopt(other.head, b);
      assert forall x :: x in c ==> x.link == this;
      Link(other, c, |a|);
    }
  }
}
