/** Small shared vocabulary: optional values, raised errors, minimum and maximum. */
module Prelude {
  datatype Option<+T> = None | Some(value: T)

  /** The exceptions that leave a service function and make the caller roll its transaction back. */
  datatype Error = ValueError | IntegrityError | RuntimeError | MultipleResultsFound | EffectError

  datatype Result<+T> = Ok(value: T) | Raised(error: Error)

  function Min(a: int, b: int): int {
    if a <= b then a else b
  }

  function Max(a: int, b: int): int {
    if a <= b then b else a
  }

  lemma {:induction false} SubsetSize<T>(a: set<T>, b: set<T>)
    requires a <= b
    ensures |a| <= |b|
  {
    if a == {} {
    } else {
      var x :| x in a;
      SubsetSize(a - {x}, b - {x});
    }
  }
}
