/** What the three contracts take from the Soroban host: addresses, bounded integers whose
    overflow aborts the call, authorisation, and calls that either commit or panic. */
module Soroban {

  datatype Address = Address(id: nat)

  const I128_MAX: int := 0x7FFF_FFFF_FFFF_FFFF_FFFF_FFFF_FFFF_FFFF
  const U32_MAX: int := 0xFFFF_FFFF

  type I128 = x: int | -I128_MAX - 1 <= x <= I128_MAX
  type U32 = x: int | 0 <= x <= U32_MAX

  /** One constructor for each way a contract call can abort. */
  datatype Reason =
    | Unauthorized
    | NotPositive
    | ContractPaused
    | TokenRefused
    | Overflow
    | CounterOverflow
    | AlreadyCharged
    | AlreadyRefunded
    | InsufficientBalance
    | InsufficientRevenue
    | NotASigner
    | MissingEntry
    | AlreadyExecuted
    | QuorumNotReached
    | ThresholdZero
    | ThresholdTooLarge
    | DuplicateSigners
    | AlreadyRecorded

  /** The result of a contract call: the value it commits, or the panic that rolls it back. */
  datatype Outcome<+T> = Ok(value: T) | Panic(reason: Reason)

  /** The state after a call: the new one if it committed, the old one if it panicked. */
  function Commit<S>(s: S, o: Outcome<S>): S {
    match o
    case Ok(s') => s'
    case Panic(_) => s
  }

  /** What the caller of an entry point without a return value sees. */
  function Status<S>(o: Outcome<S>): Outcome<()> {
    match o
    case Ok(_) => Ok(())
    case Panic(reason) => Panic(reason)
  }

  /** `require_auth`: `who` signed this call. A contract authorises only the calls it makes
      itself, and none of the contracts here calls itself, so it never counts as a signer. */
  predicate Authorised(auths: set<Address>, who: Address, self: Address) {
    who in auths && who != self
  }

  predicate FitsI128(x: int) {
    -I128_MAX - 1 <= x <= I128_MAX
  }
}
