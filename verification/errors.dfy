/** Error kinds an instruction can end with, and the Result type that carries
    either the post-state or the error. An instruction that ends in `Err` is
    rolled back by the runtime: no account it touched is changed. */
module Errors {

  datatype Error =
    | AccountNotInitialized   // a required account does not exist (Anchor account loading)
    | AccountAlreadyInUse     // `init` on an address that already holds an account
    | InsufficientFunds       // token transfer: source balance below the amount
    | MintMismatch            // token transfer: source and destination hold different mints
    | OwnerMismatch           // token transfer: the authority does not own the source account
    | Overflow                // token transfer: destination balance would exceed u64
    | ArithmeticOverflow      // checked u64 arithmetic in the program panicked
    | PrivilegeEscalation     // signer seeds of a CPI do not derive the required signer

  datatype Result<+T> = Ok(value: T) | Err(error: Error) {

    predicate IsFailure() {
      Err?
    }

    function PropagateFailure<U>(): Result<U>
      requires Err?
    {
      Err(error)
    }

    function Extract(): T
      requires Ok?
    {
      value
    }
  }
}
