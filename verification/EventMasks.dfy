/**
 Masks of poll events.
 */
module EventMasks {

  /** The two masks have an event in common. */
  predicate Hits(a: bv16, b: bv16) { a & b != 0 }

  // What a union hits, case by case.

  lemma HitsLeft(a: bv16, b: bv16, c: bv16)
    requires Hits(a, b)
    ensures Hits(a, b | c)
  {}

  lemma HitsRight(a: bv16, b: bv16, c: bv16)
    requires Hits(a, c)
    ensures Hits(a, b | c)
  {}

  lemma HitsNeither(a: bv16, b: bv16, c: bv16)
    requires !Hits(a, b) && !Hits(a, c)
    ensures !Hits(a, b | c)
  {}

  lemma HitsNothing(a: bv16)
    ensures !Hits(a, 0) && !Hits(0, a)
  {}

  lemma HitsWithin(a: bv16, b: bv16)
    requires a & b == a
    ensures Hits(a, b) <==> a != 0
  {}

  lemma HitsCovered(a: bv16, b: bv16)
    requires b & a == b
    ensures Hits(a, b) <==> b != 0
  {}

  lemma TrivialMasks(a: bv16)
    ensures 0 & a == 0 && a & a == a
  {}
}
