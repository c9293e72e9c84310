/** Option and Result, and counting. */
module Basics {
  datatype Option<+T> = None | Some(value: T)

  datatype Result<+T> = Ok(value: T) | Err(message: string)

  /** A set and its image under an injective function have the same size. */
  lemma {:induction false} ImageSize<S(!new), T(!new)>(ids: set<S>, image: set<T>, f: S -> T)
    requires forall x, y :: x in ids && y in ids && f(x) == f(y) ==> x == y
    requires forall x :: x in ids ==> f(x) in image
    requires forall y :: y in image ==> exists x :: x in ids && f(x) == y
    ensures |image| == |ids|
  {
    if |ids| == 0 {
      assert forall y :: y !in image;
      assert image == {};
    } else {
      var x :| x in ids;
      ImageSize(ids - {x}, image - {f(x)}, f);
    }
  }
}
