/** Three-way comparison results and total preorders. */
module Orders {

  /** Rust's `std::cmp::Ordering`. */
  datatype Ordering = Less | Equal | Greater

  function Flip(o: Ordering): Ordering
  {
    match o
    case Less => Greater
    case Equal => Equal
    case Greater => Less
  }

  /** `le` is reflexive, transitive and total: a comparator under which every
      two elements are ordered, though distinct elements may tie. */
  ghost predicate TotalPreorder<T(!new)>(le: (T, T) -> bool)
  {
    && (forall x :: le(x, x))
    && (forall x, y :: le(x, y) || le(y, x))
    && (forall x, y, z :: le(x, y) && le(y, z) ==> le(x, z))
  }

  /** The three-way comparison `le` induces. */
  function CompareBy<T>(le: (T, T) -> bool, a: T, b: T): (o: Ordering)
    ensures o != Greater <==> le(a, b)
    ensures o == Equal <==> le(a, b) && le(b, a)
  {
    if !le(a, b) then Greater
    else if le(b, a) then Equal
    else Less
  }

  /** Under a total preorder, comparing the other way round flips the result. */
  lemma CompareByFlips<T(!new)>(le: (T, T) -> bool, a: T, b: T)
    requires TotalPreorder(le)
    ensures CompareBy(le, b, a) == Flip(CompareBy(le, a, b))
  {
    assert le(a, b) || le(b, a);
  }
}
