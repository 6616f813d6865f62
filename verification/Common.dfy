/** Small types and facts shared by the models. */
module Common {

  datatype Option<+T> = None | Some(value: T)

  /** A Python call that may raise instead of returning. */
  datatype Result<+T> = Ok(value: T) | Raised(error: Error)

  datatype Error = ValueError | TypeError | UnboundLocalError | AttributeError | OverflowError

  function Min(a: int, b: int): (m: int)
    ensures m <= a && m <= b && (m == a || m == b)
  {
    if a <= b then a else b
  }

  function Max(a: nat, b: nat): (m: nat)
    ensures m >= a && m >= b && (m == a || m == b)
  {
    if a >= b then a else b
  }
}
