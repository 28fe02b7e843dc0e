/** Basic vocabulary of the exchange-and-settlement engine: identifiers,
    exact fixed-point quantities, the error taxonomy and a failure-compatible
    result type. */
module Types {

  /** Currency keys (`sUSD`, `sEUR`, `iBTC`, ...). */
  type Asset = string

  /** Holder addresses. */
  type Account = nat

  /** Seconds on the shared, monotonically increasing ledger clock. */
  type Time = nat

  /** Token quantities. The ledger works in 18-decimal fixed point; the model
      uses exact non-negative reals instead. */
  type Amount = x: real | 0.0 <= x

  /** A fee rate is a fraction of the amount exchanged. */
  type FeeRate = r: real | 0.0 <= r <= 1.0

  /** An oracle price, in the common unit of account: always positive. */
  type Price = p: real | 0.0 < p witness 1.0

  /** The key of a balance and of a settlement queue. */
  datatype Holding = Holding(account: Account, asset: Asset)

  /** Every way an operation can abort. An aborted operation has no effect. */
  datatype Error =
    | Unauthorized        // not invoked through the ledger-facing boundary, or not by the owner
    | Suspended           // "Operation prohibited": system, exchange or an asset is suspended
    | NotApproved         // delegate not approved to exchange on behalf of the authoriser
    | StaleRate           // "Src/dest rate stale or not found"
    | WaitingPeriod       // "Cannot settle during waiting period"
    | QueueFull           // "Max queue length reached"
    | InsufficientBalance // the debit would drive a balance below zero

  datatype Result<+T> = Ok(value: T) | Err(error: Error) {

    predicate IsFailure() {
      Err?
    }

    function PropagateFailure<U>(): Result<U>
      requires Err?
    {
      Err(error)
    }

    function Extract(): T
      requires Ok?
    {
      value
    }
  }

  function Min(a: real, b: real): (m: real)
    ensures m <= a && m <= b
    ensures m == a || m == b
  {
    if a <= b then a else b
  }
}
