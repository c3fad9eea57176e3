/** The per-side orderings that fix each ladder's sort direction. */
module Util {
  import opened Common

  datatype Ordering = Less | Equal | Greater {
    /** The ordering seen from the other operand. */
    function Reverse(): Ordering {
      match this
      case Less => Greater
      case Equal => Equal
      case Greater => Less
    }
  }

  /** Bids: a higher price is the better one. */
  function BidsComparator(lhs: Decimal64, rhs: Decimal64): (r: Ordering)
    ensures r == Greater <==> lhs > rhs
    ensures r == Less <==> lhs < rhs
    ensures r == Equal <==> lhs == rhs
  {
    if lhs > rhs then Greater
    else if lhs < rhs then Less
    else Equal
  }

  /** Asks: a lower price is the better one. */
  function AsksComparator(lhs: Decimal64, rhs: Decimal64): (r: Ordering)
    ensures r == Less <==> lhs > rhs
    ensures r == Greater <==> lhs < rhs
    ensures r == Equal <==> lhs == rhs
  {
    if lhs > rhs then Less
    else if lhs < rhs then Greater
    else Equal
  }

  /**
   * The comparator a ladder of the given side is built with: `Less` means
   * `lhs` is further from the touch, a lower bid or a higher ask.
   */
  function Compare(side: Side, lhs: Decimal64, rhs: Decimal64): (r: Ordering)
    ensures r == Equal <==> lhs == rhs
    ensures r == Less <==> (if side == Buy then lhs < rhs else lhs > rhs)
    ensures r == Greater <==> (if side == Buy then lhs > rhs else lhs < rhs)
  {
    match side
    case Buy => BidsComparator(lhs, rhs)
    case Sell => AsksComparator(lhs, rhs)
  }

  /** A level at price `a` is further from the touch than one at price `b`. */
  predicate Worse(side: Side, a: Decimal64, b: Decimal64) {
    Compare(side, a, b) == Less
  }

  lemma AsksReversesBids(a: Decimal64, b: Decimal64)
    ensures AsksComparator(a, b) == BidsComparator(b, a)
  {
  }

  /** Swapping the operands reverses the result. */
  lemma CompareAntisymmetric(side: Side, a: Decimal64, b: Decimal64)
    ensures Compare(side, b, a) == Compare(side, a, b).Reverse()
  {
  }

  lemma CompareTransitive(side: Side, a: Decimal64, b: Decimal64, c: Decimal64)
    ensures Compare(side, a, b) == Less && Compare(side, b, c) == Less ==> Compare(side, a, c) == Less
    ensures Compare(side, a, b) == Greater && Compare(side, b, c) == Greater ==> Compare(side, a, c) == Greater
  {
  }

  /** Exactly one of "worse", "same price", "better" holds: a strict total order. */
  lemma CompareTotal(side: Side, a: Decimal64, b: Decimal64)
    ensures Compare(side, a, b) == Equal <==> a == b
    ensures Worse(side, a, b) <==> !(a == b || Worse(side, b, a))
  {
  }
}
