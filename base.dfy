/** Option and Result, shared by every codec of the model. */
module Base {

  /** Rust's `Option<T>`. */
  datatype Option<T> = None | Some(value: T)

  /** Rust's `Result<T, E>`; `E` names the error site of the source. */
  datatype Result<T, E> = Ok(value: T) | Err(error: E)

  /** One more element of a prefix. */
  lemma TakeNext<T>(xs: seq<T>, k: nat)
    requires k < |xs|
    ensures xs[..k + 1] == xs[..k] + [xs[k]]
  {
  }

  lemma SnocAssoc<T>(a: seq<T>, b: seq<T>, x: T)
    ensures a + b + [x] == a + (b + [x])
  {
  }
}
