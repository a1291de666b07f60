/** The machine integers of the program and the ways in which an instruction can fail. */
module Machine {

  const U64_LIMIT: int := 0x1_0000_0000_0000_0000
  const U128_LIMIT: int := 0x1_0000_0000_0000_0000_0000_0000_0000_0000

  type u8 = n: int | 0 <= n < 0x100
  type u16 = n: int | 0 <= n < 0x1_0000
  type u32 = n: int | 0 <= n < 0x1_0000_0000
  type u64 = n: int | 0 <= n < U64_LIMIT
  type u128 = n: int | 0 <= n < U128_LIMIT

  datatype Option<+T> = None | Some(value: T)

  /** Why an instruction stopped.  `Panicked` stands for every unwrap of nothing, cast out of
      range, `unreachable!` and overflow check; `TransferRejected` for a refusal by the token program. */
  datatype Error =
    | InvalidStatus
    | InvalidInput
    | InsufficientFunds
    | ExceededSlippage
    | NotAllowZeroLP
    | TakePnlError
    | CheckedAddOverflow
    | CheckedSubOverflow
    | Panicked
    | TransferRejected
    | InvalidWhitelistAccount
    | WhitelistFull
    | TransferHookNotWhitelisted
    | InvalidAccountData
    | UninitializedAccount
    | InvalidAccountOwner
    | AccountAlreadyInitialized
    | InvalidInstructionData

  /** The outcome of a computation that can fail; usable with `:-`. */
  datatype Result<+T> = Ok(value: T) | Err(error: Error) {
    predicate IsFailure() {
      Err?
    }

    function PropagateFailure<U>(): Result<U>
      requires Err?
    {
      Err(error)
    }

    function Extract(): T
      requires Ok?
    {
      value
    }
  }

  /** `ok_or` and `unwrap`: continue only when the condition holds. */
  function Check(condition: bool, error: Error): Result<()> {
    if condition then Ok(()) else Err(error)
  }
}
