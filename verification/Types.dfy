/** What the component models share: failure-carrying values and counting. */
module Types {

  datatype Option<+T> = None | Some(value: T)

  datatype Result<+T, +E> = Ok(value: T) | Err(error: E)

  function Min(a: nat, b: nat): nat { if a <= b then a else b }

  /** Counts a condition. */
  function One(b: bool): (n: nat) {
    if b then 1 else 0
  }
}
