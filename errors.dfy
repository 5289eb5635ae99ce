/** The ways an instruction of the vault can abort. */
module Errors {

  datatype VaultError =
    | NotEnoughFunds           // the vault's own error code: share balance below the burn amount
    | WidthdrawAmountTooSmall  // the vault's own error code (spelled as in the program)
    | MathError                // the venue library's error for a failed checked subtraction
    | CastingFailure           // the venue library's error for a failed integer cast
    | Panic                    // `unwrap` of None, an arithmetic overflow, an index out of range
    | ExchangeFailure          // an error returned by a call into the venue (the clearing house)
    | TokenFailure             // an error returned by the token program

  /** The value of a computation that may abort. */
  datatype Result<T> = Ok(value: T) | Err(error: VaultError)

  /** The result of an instruction or of a sub-call: `ProgramResult`. */
  datatype Outcome = Pass | Fail(error: VaultError)
}
