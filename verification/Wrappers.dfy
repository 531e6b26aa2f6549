/** Optional values, results, and the error sentinels of the settlement subsystem. */
module Wrappers {

  datatype Option<+T> = None | Some(value: T)

  datatype Result<+T> = Success(value: T) | Failure(error: Error) {
    predicate IsFailure() { Failure? }

    function PropagateFailure<U>(): Result<U>
      requires Failure?
    {
      Failure(error)
    }

    function Extract(): T
      requires Success?
    {
      value
    }
  }

  /** One constructor per sentinel the Go packages export or return. */
  datatype Error =
    | InvalidOwner
    | InvalidDenom
    | InvalidAmount
    | AmountNotPositive
    | InvalidDepositRecord
    | DepositAlreadyApplied
    | InvalidWithdrawIntent
    | InvalidWithdrawRequest
    | WithdrawAlreadyApplied
    | InsufficientBalance
    | NonceMismatch
    | InvalidNullifierInput
    | InvalidWithdrawAddress
    | InvalidBuildInput
    | InsufficientOffchainBalance
    | InvalidSettlementInputs
    | InvalidWitnessInputs
    | InvalidPublicInputs
    | RecordNotFound
    | NoPendingSettlementOperations
    | InvalidPendingSettlement
    | ProofVerificationFailed
    | RelayerFailed
    | ProveFailed
    | BatchNotAccepted
}
