/**
  Floating-point values as the store reads them from text, where the words for
  infinity and for not-a-number count as numbers, and how they compare and add up.
 */
module Floats {

  datatype Float = Finite(value: real) | Infinite(positive: bool) | NaN {
    /** Comparisons; with not-a-number each of them fails. */
    predicate AtMost(v: real) { if Finite? then value <= v else Infinite? && !positive }
    predicate AtLeast(v: real) { if Finite? then value >= v else Infinite? && positive }
    predicate Above(v: real) { if Finite? then value > v else Infinite? && positive }
  }

  const ZERO := Finite(0.0)

  /** Addition, rounded as the machine rounds it. */
  type Adder = (Float, Float) -> Float

  /** Above zero, or not a number: what is never refused for being too small. */
  predicate Counts(q: Float) {
    q.NaN? || q.Above(0.0)
  }

  /** What these proofs use of addition: nothing added to zero is rounded, positive
      values add up to positive ones, and not-a-number swallows everything. */
  ghost predicate Lawful(add: Adder) {
    && (forall q :: add(ZERO, q) == q)
    && (forall a, b :: Counts(a) && Counts(b) ==> Counts(add(a, b)) && (add(a, b).NaN? <==> a.NaN? || b.NaN?))
  }
}
