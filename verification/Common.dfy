/**
 Definitions shared by the other modules.
 */
module Common {

  datatype Option<T> = None | Some(value: T)

  function Bit(b: bool): nat { if b then 1 else 0 }

  ghost predicate Distinct<T>(q: seq<T>) {
    forall i, j :: 0 <= i < j < |q| ==> q[i] != q[j]
  }

  function Times<T(==)>(q: seq<T>, v: T): nat { multiset(q)[v] }

  lemma NothingBeside<T>(q: seq<T>)
    ensures [] + q == q && q + [] == q
  {}

  lemma Regroup<T>(a: seq<T>, b: seq<T>, c: seq<T>)
    ensures (a + b) + c == a + (b + c)
  {}

  lemma HeadAndTail<T>(q: seq<T>)
    requires q != []
    ensures q == [q[0]] + q[1..]
  {}

  lemma TimesConcat<T>(a: seq<T>, b: seq<T>, v: T)
    ensures Times(a + b, v) == Times(a, v) + Times(b, v)
  {
    assert multiset(a + b) == multiset(a) + multiset(b);
  }
}
