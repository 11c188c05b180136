/** Values shared by every part of the valuation engine: addresses, and the
    outcomes of a helper that can fail. */
module Types {

  /** An on-chain address (a token, a pair, an account), compared by identity.
      Its textual, case-insensitive comparison is not part of this model. */
  type Address = nat

  datatype Option<+T> = None | Some(value: T)

  /** The two ways the valuation helpers fail: the path finder gives up, or
      the pro-rata split divides by an LP total supply of zero. */
  datatype Error = RouteNotFound | DivisionByZero

  datatype Result<+T> = Ok(value: T) | Err(error: Error)
}
