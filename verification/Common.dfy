/** Result-carrying datatypes shared by every module, in the spirit of core/result.hpp. */
module Common {

  datatype Option<+T> = None | Some(value: T)

  datatype Result<+T, +E> = Ok(value: T) | Err(error: E)

  /** Stated for the arguments at hand, so that longer proofs need not regroup sequences themselves. */
  lemma Assoc<T>(a: seq<T>, b: seq<T>, c: seq<T>)
    ensures (a + b) + c == a + (b + c)
  {
  }
}
