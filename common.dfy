/** Small value types shared by the ledger model. */
module Common {

  /** A value that may be missing: a PHP `null`, or a key absent from a response array. */
  datatype Option<T> = None | Some(value: T) {

    /** The value, or `default` when it is missing (`Arr::get($a, $key, $default)`). */
    function GetOr(default: T): (v: T) {
      match this
      case Some(v) => v
      case None => default
    }
  }

  /** The store-side failures the model keeps; they propagate to the caller unchanged. */
  datatype StoreError =
    | IndexNotFound       // the ledger index does not exist
    | IndexAlreadyExists  // the ledger index exists already and cannot be created again

  /** The outcome of a call into the store: a value, or the error the store raised. */
  datatype Result<T> = Ok(value: T) | Err(error: StoreError)

  function Min(a: int, b: int): (m: int) {
    if a <= b then a else b
  }
}
