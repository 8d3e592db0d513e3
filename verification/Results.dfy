/** Outcomes of operations that throw in the program. */
module Results {

  /** `Err(code)` carries the numeric exception id of the JSON library. */
  datatype Result<+T> = Ok(value: T) | Err(code: nat) {

    predicate IsFailure() {
      Err?
    }

    function PropagateFailure<U>(): Result<U>
      requires Err?
    {
      Err(code)
    }

    function Extract(): T
      requires Ok?
    {
      value
    }
  }

  datatype Option<+T> = None | Some(value: T)

  // Exception ids of the JSON library.
  const PATCH_NOT_ARRAY := 104
  const PATCH_MALFORMED := 105
  const INDEX_LEADING_ZERO := 106
  const POINTER_NO_SLASH := 107
  const POINTER_BAD_ESCAPE := 108
  const INDEX_NOT_NUMBER := 109
  const UNFLATTEN_INVALID := 313
  const UNFLATTEN_NOT_OBJECT := 314
  const UNFLATTEN_NOT_PRIMITIVE := 315
  const INDEX_OUT_OF_RANGE := 401
  const INDEX_DASH := 402
  const KEY_NOT_FOUND := 403
  const TOKEN_UNRESOLVED := 404
  const POINTER_NO_PARENT := 405
  const INDEX_TOO_LARGE := 410
  const TEST_FAILED := 501

  /** Not an exception of the library: an internal assertion of the program was reached. */
  const ASSERTION_FAILED := 0
}
