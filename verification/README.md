# Verified model of the pay-per-token gateway's money path

This project models, in Dafny, the path a payment takes through the gateway, and proves what each
part keeps over every run:

- **Credit escrow** (`EscrowSpec`, `EscrowProofs`, `EscrowEffects`, `CreditEscrow`): prepaid
  balances, revenue, per-quote guards and usage logs next to a token ledger. A call commits or
  panics, and a panic rolls everything back.
- **Settlement** (`Settlement`): metered quotes charged and refunded against the escrow, in any
  order.
- **Multi-signature wallet** (`MultisigSpec`, `MultisigProofs`, `MultisigEffects`, `Multisig`):
  payouts by quorum, with signer rotation while proposals are open.
- **Payment verifier** (`VerifierSpec`, `VerifierProofs`, `VerifierEffects`, `PaymentVerifier`):
  three keyed structures that refine one append-only log. `Paging` is the paginated read of all
  three contracts.
- **Amount codec** (`Strings`, `BigInts`, `Amounts`) and its Python twin.
- **Quotes and verification** (`Quotes`, `Verification`, `HonestPayer`): what is asked for, what is
  accepted, and why the two fit.
- **Single use and exclusion in time** (`ReplaySpec`, `ReplayProofs`, `Replay`, `LockSpec`,
  `LockProofs`, `Lock`).
- **Event stream** (`Sse`): reassembly of server-sent events from chunks, a subset of section 9.2,
  Server-sent events, of the WHATWG HTML Standard.

Each contract, and each object the TypeScript code updates in place, is a class whose methods
overwrite its fields. Each method is proved against a pure transition function (`...Spec`), and the
theorems are about those functions and their runs. The `...Effects` modules say in the fields of the
state what each call does, exactly when it commits, and whose signature it needs. `Soroban` holds
addresses, bounded integers and panics; `Wrappers` holds the optional value; `Connection` is the
fate of a Redis request; `Sums` adds up the values of a map of any size; `Token` is the token
contract.

`require_auth` is membership in the set of addresses that signed the call. A contract address never
counts as a signer, because a contract authorises only calls it makes itself and none of these
contracts calls itself; without this rule a deposit by the escrow to itself would create a claim
without a token.

## What the proofs show about the code

- In-memory replay protection is not simply "more conservative" than Redis. Compared with a store
  that carried out the same operations it never grants more (`NeverMorePermissive`). Against a Redis
  left to itself it gives the same answers over a run exactly when no claim of the run finds the
  timer of its own hash overdue (`AgreesWithRedisIff`); after one such claim it can even grant what
  Redis refuses (`LateTimerOvertakes`).
- The Python codec says that it mirrors the TypeScript one. It does so exactly under the conditions
  of `PythonFormatsAlikeIff` and `ParsersAgreeIff`: a fraction longer than seven digits is cut off
  in Python and read whole in TypeScript (`LongFractionParsesDifferently`), an empty whole part is
  an error in Python and zero in TypeScript (`EmptyWholeParsesDifferently`), and an amount of more
  than 28 digits is rounded in Python (`SmallestLongAmount`).
- `verifyStellarPayment` compares the transaction time with both ends of the window; a `created_at`
  that does not parse fails neither comparison. An accepted payment for a quote with an issue time
  lies in the window exactly when its time could be read (`WindowIsEnforcedIff`); `TimeDecides` has a payment that is accepted only
  because its time could not.
- After a rotation the multisig wallet still counts approvals by signers that have been removed
  (`RemovedSignerCounts`). A payout has a quorum of current signers exactly when the recorded
  approvers that are still signers, with the caller, reach the threshold (`QuorumIsCurrentIff`), and
  always while no rotation has taken place (`QuorumIsCurrentWithoutRotation`).

## Model

| member | source | states |
|---|---|---|
| `Token.TransferConserves` | contracts/credit-escrow/src/lib.rs:210-211 | A committed token transfer moves exactly the amount from payer to payee, touches no other account, keeps all accounts non-negative and the supply constant; a self-transfer changes nothing. |
| `Token.TransferSucceedsIff` | contracts/credit-escrow/src/lib.rs:210-211 | On a sound ledger a transfer is refused only for a negative amount or too few tokens: crediting the payee never leaves the i128 range. |
| `Token.TokenContract.Transfer` | contracts/credit-escrow/src/lib.rs:183-184 | The in-place transfer (debit, then credit, undone on overflow) is the pure one. |
| `CreditEscrow.Escrow.constructor` | contracts/credit-escrow/src/lib.rs:161-169 | Deployment gives an unpaused escrow with empty books and leaves the token ledger alone. |
| `CreditEscrow.Escrow.Deposit` | contracts/credit-escrow/src/lib.rs:172-192 | The new state and the panic raised are those of the state machine; a panic after the token moved restores the ledger. |
| `CreditEscrow.Escrow.Withdraw` | contracts/credit-escrow/src/lib.rs:195-220 | As above; a refused token transfer restores the balance already written. |
| `CreditEscrow.Escrow.Charge` | contracts/credit-escrow/src/lib.rs:226-280 | As above; an overflow of revenue or of the usage counter undoes guard, balance, revenue and log entry. |
| `CreditEscrow.Escrow.Refund` | contracts/credit-escrow/src/lib.rs:287-317 | As above; guard and balance are restored when the token transfer is refused. |
| `CreditEscrow.Escrow.WithdrawRevenue` | contracts/credit-escrow/src/lib.rs:325-348 | As above; the revenue scalar is restored when the token transfer is refused. |
| `CreditEscrow.Escrow.SetAdmin` | contracts/credit-escrow/src/lib.rs:363-369 | Only the current administrator hands over administration. |
| `CreditEscrow.Escrow.SetPaused` | contracts/credit-escrow/src/lib.rs:372-378 | Only the administrator sets the pause flag. |
| `CreditEscrow.Escrow.GetUsage` | contracts/credit-escrow/src/lib.rs:386-400 | The read loop returns exactly the promised page of the dense log: at most `limit` and at most 50 entries from `offset`, none skipped, for every 32-bit offset and limit. |
| `CreditEscrow.ReadAll` | contracts/credit-escrow/src/lib.rs:386-400 | A client that reads page after page gets the whole usage log of the user in order. |
| `EscrowProofs.StepSolvent` | contracts/credit-escrow/src/lib.rs:172-348 | Any single transaction keeps solvency, and changes the excess of holdings over claims by exactly the tokens donated. |
| `EscrowProofs.RunSolvent` | contracts/credit-escrow/src/lib.rs:172-348 | Over every run, for any number of users: balances and revenue are non-negative, their sum is covered by the tokens held, and the difference is exactly the sum of the donations. |
| `EscrowProofs.AccountingEquation` | contracts/credit-escrow/src/lib.rs:1144-1151 | Holdings equal the sum of all balances plus revenue in every state reachable from deployment, when tokens arrive only through deposits and no payout names the contract itself. |
| `EscrowProofs.SucceedsExactlyWhenGuarded` | contracts/credit-escrow/src/lib.rs:187-345 | In a solvent state each entry point commits if and only if its own guards hold; no payout fails for lack of tokens and no balance or revenue addition overflows. |
| `EscrowProofs.OnlyAdminConfigures` | contracts/credit-escrow/src/lib.rs:363-378 | The administrator and the pause flag change only by an authorised call of the current administrator that names the new value, and such a call changes nothing else. |
| `EscrowProofs.PausedFreezes` | contracts/credit-escrow/src/lib.rs:180-182 | While paused, no run changes a balance, the revenue, a log or a guard, and no token leaves the contract. |
| `EscrowProofs.UserConservation` | contracts/credit-escrow/src/lib.rs:187-306 | Per user over every run: old balance plus deposits equals new balance plus withdrawals, charges and refunds. |
| `EscrowProofs.StepLog` | contracts/credit-escrow/src/lib.rs:262-277 | A transaction leaves a user's log alone or appends exactly the event of the charge it committed. |
| `EscrowProofs.DeployedIsGood` | contracts/credit-escrow/src/lib.rs:161-169 | A freshly deployed escrow satisfies the invariants the run theorems start from. |
| `EscrowProofs.RunFromDeployment` | contracts/credit-escrow/src/lib.rs:161-348 | Every state reachable from deployment is solvent and has dense, readable logs. |
| `EscrowProofs.RunLog` | contracts/credit-escrow/src/lib.rs:236-277 | Over every run each user's log is dense, only grows at its end, names pairwise distinct quotes and exactly those under a CHARGED guard; it gains exactly what the user was charged. |
| `EscrowProofs.RevenueIsLogged` | contracts/credit-escrow/src/lib.rs:252-277 | Revenue plus all revenue ever withdrawn equals the sum of the amounts in all users' usage logs, over every run. |
| `EscrowProofs.OthersSucceedWhenGuarded` | contracts/credit-escrow/src/lib.rs:363-378 | The configuration calls commit exactly with the administrator's signature, and token transfers exactly with the payer's signature and tokens. |
| `EscrowEffects.DepositEffect` | contracts/credit-escrow/src/lib.rs:172-192 | A committed deposit moves the amount from the user to the contract, credits the user, and changes no other account, balance or field. |
| `EscrowEffects.WithdrawEffect` | contracts/credit-escrow/src/lib.rs:195-220 | A committed withdrawal pays the user what the user's balance loses, and nobody else anything. |
| `EscrowEffects.ChargeEffect` | contracts/credit-escrow/src/lib.rs:226-280 | A committed charge moves no token; what the balance loses is revenue, and the guard and the usage count of the user are set. |
| `EscrowEffects.RefundEffect` | contracts/credit-escrow/src/lib.rs:287-317 | A committed refund pays the user, not anybody else, what the user's balance loses, and sets the refund guard. |
| `EscrowEffects.WithdrawRevenueEffect` | contracts/credit-escrow/src/lib.rs:325-348 | The named destination is paid what the revenue loses. |
| `EscrowEffects.BalancesNeedSignature` | contracts/credit-escrow/src/lib.rs:195-306 | A balance falls only by a withdrawal signed by its user or a charge or refund signed by the administrator. |
| `EscrowEffects.RevenueNeedsSignature` | contracts/credit-escrow/src/lib.rs:325-340 | Revenue falls only by a withdrawal signed by the administrator. |
| `EscrowEffects.TokensNeedSignature` | contracts/credit-escrow/src/lib.rs:172-348 | Tokens leave an account other than the contract's only with its signature. |
| `EscrowEffects.SharedTestsFirst` | contracts/credit-escrow/src/lib.rs:172-335 | With the signature given, the amount is tested before the pause flag, and both before anything else. |
| `EscrowEffects.GuardsBeforeBalance` | contracts/credit-escrow/src/lib.rs:236-306 | Behind these tests a used guard is reported before a missing balance, each exactly where it applies. |
| `Settlement.CostIsMetered` | packages/x402-core/src/index.ts:661-684 | The metered price is perTokenPrice times tokens as an exact number, and at least one stroop. |
| `Settlement.QuoteCoversEstimate` | packages/x402-core/src/index.ts:94-112 | A per-token quote asks for at least the price of its whole token estimate, with or without the minimum. |
| `Settlement.NeverUnderpaid` | packages/x402-core/src/index.ts:690-712 | Within the estimate `comparePayment` never reports an underpayment, and its surplus text is the exact difference. |
| `Settlement.EstimatesArePrepaid` | apps/gateway/src/modules/x402/escrow-client.ts:279-311 | Quotes used within their estimate and covered by the balances meet every condition of the settlement theorem: each charge and refund amount is positive and inside the contract's range. |
| `Settlement.UsageGuards` | contracts/credit-escrow/src/lib.rs:236-242 | Settling distinct quotes uses every idempotency guard at most once, and only guards of these quotes. |
| `Settlement.CoveredDrawsSucceed` | contracts/credit-escrow/src/lib.rs:226-317 | Any list of charges and refunds with fresh distinct guards, covered by each user's balance, succeeds call by call among any calls of others; the end state is exactly the sums of the list, what the other calls did, and every guard set. |
| `Settlement.OnlyDepositsElsewhere` | contracts/credit-escrow/src/lib.rs:172-348 | What the other calls of such a run do to the balance of a settled user is that user's deposits and nothing else. |
| `Settlement.AnyInterleavingSettles` | apps/gateway/src/modules/x402/escrow-client.ts:251-329 | For any list of distinct metered quotes of any users whose balances cover them, every interleaving of the charges and refunds, among any deposits, token transfers, revenue withdrawals and calls of other users, succeeds, draws exactly the quotes, raises revenue by the costs, lowers holdings by the surpluses, and pays each user exactly that user's surpluses; any repeated call fails and changes nothing. |
| `Settlement.SettlementAlone` | apps/gateway/src/modules/x402/escrow-client.ts:251-329 | Without calls of others the same sums are the whole change of balances, revenue and holdings. |
| `Multisig.HasUniqueSigners` | contracts/multisig/src/lib.rs:350-359 | The nested index loop decides exactly pairwise distinctness. |
| `Multisig.ValidateConfig` | contracts/multisig/src/lib.rs:152-161 | The configuration checks in the contract's order, with the panic each raises. |
| `Multisig.Wallet.Deploy` | contracts/multisig/src/lib.rs:149-170 | Deployment succeeds exactly for a valid configuration and then stores it. |
| `Multisig.Wallet.Propose` | contracts/multisig/src/lib.rs:172-198 | State and panic are those of the state machine; the returned id is the old count. |
| `Multisig.Wallet.Approve` | contracts/multisig/src/lib.rs:200-241 | As above; a refused payout leaves even the approval unrecorded. |
| `Multisig.Wallet.SetSigners` | contracts/multisig/src/lib.rs:256-302 | As above; the de-duplication loop is the recursive collection of distinct authorised signers. |
| `Multisig.Wallet.GetProposals` | contracts/multisig/src/lib.rs:326-341 | The read loop returns exactly the promised page of the proposal list. |
| `Multisig.ReadAll` | contracts/multisig/src/lib.rs:326-341 | A client that reads page after page gets the whole proposal list in order. |
| `MultisigProofs.CollectIsSet` | contracts/multisig/src/lib.rs:271-280 | The loop accepts exactly lists of authorised current signers, and collects exactly their set, each once. |
| `MultisigProofs.RotationGate` | contracts/multisig/src/lib.rs:256-302 | A rotation commits if and only if every listed approver is an authorised current signer, the number of distinct approvers reaches the threshold, and the new configuration is valid; it then changes only the configuration, to the new one. |
| `MultisigProofs.StepGood` | contracts/multisig/src/lib.rs:149-302 | Every call keeps: distinct signers, 1 <= threshold <= signers, dense ids, distinct approvals; terms never change, approvals only grow, an executed proposal is final. |
| `MultisigProofs.RunGood` | contracts/multisig/src/lib.rs:149-302 | The same over every run, rotations included. |
| `MultisigProofs.OnlyApprovalsPay` | contracts/multisig/src/lib.rs:222-235 | A proposal becomes executed only by an authorised approval of a then-current signer that brings the distinct approvals to the then-current threshold, and exactly its terms are paid. |
| `MultisigProofs.NothingElsePays` | contracts/multisig/src/lib.rs:222-235 | A call that executes no proposal never lowers the wallet's tokens. |
| `MultisigProofs.ApprovalsAreGenuine` | contracts/multisig/src/lib.rs:204-219 | At any time of any run, each recorded approval was given in an earlier transaction authorised by its signer, who was a signer then. |
| `MultisigProofs.TermsAreGenuine` | contracts/multisig/src/lib.rs:172-193 | At any time of any run, each proposal has the destination and amount of the transaction that proposed it under that id. |
| `MultisigProofs.PaidAtMostOnce` | contracts/multisig/src/lib.rs:210-223 | No proposal is paid twice in a run. |
| `MultisigProofs.PaidOnceWithQuorum` | contracts/multisig/src/lib.rs:200-241 | Payout safety across rotations: an executed proposal was paid by exactly one transaction, which met the then-current threshold with distinct genuine approvals. |
| `MultisigProofs.QuorumIsCurrentIff` | contracts/multisig/src/lib.rs:204-235 | When a payout has a threshold quorum of current signers: exactly when the recorded approvers that are still signers, with the caller, reach the threshold; with approvals just at the threshold, exactly when every recorded approver is still a signer. |
| `MultisigProofs.RemovedSignerCounts` | contracts/multisig/src/lib.rs:204-302 | A run from deployment in which a payout at threshold 2 counts one current signer only: the other approver was rotated out before. |
| `MultisigProofs.QuorumIsCurrentWithoutRotation` | contracts/multisig/src/lib.rs:204-235 | As long as no rotation has committed, every payout has a quorum of current signers. |
| `MultisigProofs.WalletConservation` | contracts/multisig/src/lib.rs:226-231 | Over every run the wallet holds its funding minus the amounts of executed proposals to other destinations. |
| `MultisigProofs.OrderDoesNotMatter` | contracts/multisig/src/lib.rs:217-235 | Among any other calls, while no rotation commits and the wallet covers the amount: approvals in any order and with repeats execute exactly at the threshold-th distinct signer; recorded approvals are the distinct signers seen, in first-seen order, up to the threshold. |
| `MultisigProofs.NothingPaidBefore` | contracts/multisig/src/lib.rs:217-235 | Approvals of a proposal that have not executed it have moved no token. |
| `MultisigEffects.ProposeEffect` | contracts/multisig/src/lib.rs:172-198 | Anybody's proposal of a positive amount commits as long as the counter has room; it is stored open, without approvals, under the next id with its terms and time, and nothing else changes. |
| `MultisigEffects.ApproveCommitsIff` | contracts/multisig/src/lib.rs:200-241 | An approval commits exactly when a current signer signed it, the proposal exists and is open, and, if it completes the quorum, the wallet holds the amount. |
| `MultisigEffects.ApproveEffect` | contracts/multisig/src/lib.rs:210-241 | It adds the signer once; exactly at the threshold the proposal is executed and its destination, and nobody else, is paid; no other proposal changes. |
| `MultisigEffects.ApproveReasons` | contracts/multisig/src/lib.rs:200-215 | The order of the tests: signature, membership, existence, execution. |
| `MultisigEffects.TokensNeedSignature` | contracts/multisig/src/lib.rs:200-302 | Tokens leave an account other than the wallet's only with its signature. |
| `PaymentVerifier.Verifier.constructor` | contracts/payment-verifier/src/lib.rs:157-165 | Deployment starts with empty, consistent structures. |
| `PaymentVerifier.Verifier.RecordPayment` | contracts/payment-verifier/src/lib.rs:168-226 | State and panic are those of the state machine; a counter overflow undoes all three entries. |
| `PaymentVerifier.Verifier.Refund` | contracts/payment-verifier/src/lib.rs:268-292 | State and panic are those of the state machine. |
| `PaymentVerifier.Verifier.SetAdmin` | contracts/payment-verifier/src/lib.rs:302-308 | Only the administrator hands over administration. |
| `PaymentVerifier.Verifier.SetPaused` | contracts/payment-verifier/src/lib.rs:310-316 | Only the administrator sets the pause flag. |
| `PaymentVerifier.Verifier.IsPaymentUsed` | contracts/payment-verifier/src/lib.rs:230-233 | The constant-time check is membership in the log. |
| `PaymentVerifier.Verifier.GetPayment` | contracts/payment-verifier/src/lib.rs:257-262 | The two indexed reads return what a linear search of the whole log returns. |
| `PaymentVerifier.Verifier.GetPayments` | contracts/payment-verifier/src/lib.rs:241-253 | The read loop returns exactly the promised page of the log. |
| `PaymentVerifier.ReadAll` | contracts/payment-verifier/src/lib.rs:241-253 | A client that reads page after page gets the whole log in order. |
| `VerifierProofs.IndexIsSearch` | contracts/payment-verifier/src/lib.rs:230-262 | The used set and the index agree with a search of the log for every hash, recorded or not. |
| `VerifierProofs.StepRefines` | contracts/payment-verifier/src/lib.rs:168-316 | One call on the three keyed structures does to the log what a plain append-only log does, commits when it commits, and panics for the same reason. |
| `VerifierProofs.RunRefines` | contracts/payment-verifier/src/lib.rs:168-316 | The same over every run, with the one-to-one correspondence of used hashes and indices 0..count kept throughout. |
| `VerifierProofs.RunFromDeployment` | contracts/payment-verifier/src/lib.rs:157-316 | Every state reachable from deployment has that correspondence, so that its reads answer as a search of the log. |
| `VerifierProofs.LogOnlyGrows` | contracts/payment-verifier/src/lib.rs:268-292 | No run moves or alters an entry, except that a refunded flag may go from false to true. |
| `VerifierProofs.RecordedOnceRefundedOnce` | contracts/payment-verifier/src/lib.rs:189-288 | After any run a recorded hash cannot be recorded again, refunded or not, and a refunded payment cannot be refunded again. |
| `VerifierEffects.RecordCommitsIff` | contracts/payment-verifier/src/lib.rs:168-192 | A payment is recorded exactly when the administrator signed, the contract is not paused, the amount is positive, the hash is new and the counter has room. |
| `VerifierEffects.RecordEffect` | contracts/payment-verifier/src/lib.rs:194-225 | The new entry holds payer, payee, amount, asset, time and quote as they were passed, verified and not refunded; no other entry changes. |
| `VerifierEffects.RecordIsKept` | contracts/payment-verifier/src/lib.rs:202-262 | After any later run a lookup of the hash still finds what was recorded; only the refunded flag is open. |
| `VerifierEffects.RefundEffect` | contracts/payment-verifier/src/lib.rs:268-292 | A refund commits exactly for the administrator on an unpaused contract and a recorded, unrefunded hash; it sets the flag of that entry and nothing else. |
| `VerifierEffects.ConfigurationEffect` | contracts/payment-verifier/src/lib.rs:302-316 | The configuration changes exactly by a call the administrator signed, to what it names, and nothing changes without that signature. |
| `VerifierEffects.Reasons` | contracts/payment-verifier/src/lib.rs:168-292 | Each panic is raised exactly where it applies, in the contract's order. |
| `Paging.WalkRecoversLog` | contracts/payment-verifier/src/lib.rs:241-253 | Reading page after page, each from behind the last entry received, ends and yields the whole log in order, each entry once, for every limit >= 1. |
| `Paging.PageHolds` | contracts/payment-verifier/src/lib.rs:241-253 | A page holds the entries from the offset on, in order: all there are, but at most `limit` and at most 50. |
| `BigInts.ParseToString` | packages/shared/src/index.ts:79-98 | `BigInt(n.toString())` is n for every integer. |
| `BigInts.ToDecOfValue` | packages/shared/src/index.ts:79-98 | Printing the value of a digit string removes its leading zeros and nothing else. |
| `BigInts.ParseSigned` | packages/shared/src/index.ts:96-98 | A sign in front of digits is read. |
| `BigInts.ParseIgnoresBlanks` | packages/shared/src/index.ts:96-98 | Blanks around a text do not matter, and a blank text is 0. |
| `BigInts.ParseRadix` | packages/shared/src/index.ts:96-98 | Hexadecimal, octal and binary prefixes are read, in either case. |
| `BigInts.ParseRefuses` | packages/shared/src/index.ts:96-98 | A text with a character that no number can contain is refused. |
| `Amounts.ParseText` | packages/shared/src/index.ts:95-99 | Parsing reads a digit string with a fraction as the number it denotes. |
| `Amounts.FormatParseRoundTrip` | packages/shared/src/index.ts:79-99 | Every natural number survives formatting and parsing, for every number of decimals up to 22. |
| `Amounts.AmountRoundTrip` | packages/shared/src/index.ts:113-123 | The same on the strings the functions exchange; neither of them throws. |
| `Amounts.UnitIsTenMillionStroops` | packages/shared/src/index.ts:101-123 | One unit is ten million stroops, and the seven digits behind the dot count the rest. |
| `Amounts.SecondDotIgnored` | packages/shared/src/index.ts:95-99 | Everything behind a second dot is ignored. |
| `Amounts.MalformedThrows` | packages/shared/src/index.ts:79-99 | A part with a character that no number can contain makes the parser throw; the formatter throws exactly on what is no number. |
| `Amounts.ParseFormatIsCanonical` | packages/shared/src/index.ts:79-99 | Parsing and formatting any digit string with at most d fraction digits gives its spelling without redundant zeros. |
| `Amounts.CanonicalKeepsAmount` | packages/shared/src/index.ts:95-99 | The canonical spelling denotes the same amount, so formatting after parsing is idempotent. |
| `Amounts.SameAmountSameText` | packages/shared/src/index.ts:79-99 | Two spellings denote the same amount if and only if they have the same canonical form. |
| `Amounts.PythonFormatsRounded` | python/x402_sdk/stellar.py:47-57 | The Python formatter gives the TypeScript text of the amount rounded to its first 28 digits. |
| `Amounts.RoundsToNearest` | python/x402_sdk/stellar.py:53 | That rounding goes to the nearest multiple, and to the even one of two equally near. |
| `Amounts.PythonFormatsAlikeIff` | python/x402_sdk/stellar.py:47-57 | The Python formatter gives the TypeScript text if and only if the amount has no non-zero digit beyond its first 28. |
| `Amounts.BelowLimitNoExcess` | python/x402_sdk/stellar.py:47-57 | Below 10^28 that condition always holds. |
| `Amounts.LongAmountsFormatDifferently` | python/x402_sdk/stellar.py:47-57 | Every amount of 29 digits whose last digit is not zero is formatted differently. |
| `Amounts.SmallestLongAmount` | python/x402_sdk/stellar.py:47-57 | 10^28 + 1 is such an amount, for every number of decimals. |
| `Amounts.LongFractionParsesDifferently` | python/x402_sdk/stellar.py:60-67 | The parsers disagree on 1.12345678 with seven decimals. |
| `Amounts.EmptyWholeParsesDifferently` | python/x402_sdk/stellar.py:60-67 | On .5 the Python parser raises and the TypeScript one returns a number. |
| `Amounts.ParsersAgreeIff` | python/x402_sdk/stellar.py:60-67 | On digit strings the two parsers agree if and only if the whole part is not empty and the fraction has at most d digits or only zeros. |
| `Quotes.PrefixOfOwnMemo` | packages/x402-core/src/index.ts:47-72 | The prefix recovered from a quote's own memo is the first 28 characters of its id. |
| `Quotes.MemoLookupIsExact` | packages/x402-core/src/index.ts:47-72 | For every UUID string and every 24-hex memo: the quote has the memo if and only if the recovered prefix is a prefix of its id. |
| `Quotes.MemoIsRecognisedIff` | packages/x402-core/src/index.ts:63-72 | Exactly the 24-character hex strings of either case are taken for memos. |
| `Quotes.MemoOfAnyId` | packages/x402-core/src/index.ts:47-49 | Any id gives a memo of at most 24 characters without dashes: of a dashless id its first ones. |
| `Quotes.ComputeAmount` | packages/x402-core/src/index.ts:94-112 | The reassigned amount is the listed price, raised to the minimum; a malformed price throws. |
| `Quotes.BuildQuote` | packages/x402-core/src/index.ts:116-135 | The quote takes over price and token estimate only where it is metered, the issuer only for USDC, and its window from now on. |
| `Quotes.GenerateQuote` | packages/x402-core/src/index.ts:84-135 | The quote has that amount, the memo of its id, the window from now on, and the issuer of its asset. |
| `Quotes.QuoteIsMaximum` | packages/x402-core/src/index.ts:94-112 | Under a minimum the quoted number is the larger of the listed price and the minimum; an unclamped flat price is quoted verbatim. |
| `Quotes.QuoteInFields` | packages/x402-core/src/index.ts:84-135 | What the quote takes over: id, memo, route, first accepted asset or USDC, issuer for USDC alone, provider, a window from now for the given seconds, and price and estimate of a metered route. |
| `Quotes.MeteredAmount` | packages/x402-core/src/index.ts:94-112 | A metered quote asks for the price times the tokens the request estimates, or 4096 where it gives none; under a minimum for the larger of the two. |
| `Quotes.FlatAmount` | packages/x402-core/src/index.ts:99-112 | Any other quote asks for the flat price as written, or 0, unless that is below the minimum. |
| `Quotes.QuoteThrowsIff` | packages/x402-core/src/index.ts:94-112 | Quote generation throws exactly on a price it has to read and cannot. |
| `Quotes.PriceInFields` | packages/x402-core/src/index.ts:661-684 | A flat route costs its flat price whatever was used, a metered one price times tokens, also beyond the estimate, and anything else nothing. |
| `Quotes.SurplusIsDifference` | packages/x402-core/src/index.ts:690-712 | For all parseable amounts the reported surplus is paid minus cost, and the two flags are its sign. |
| `Verification.Examine` | packages/x402-core/src/index.ts:362-390 | The test of one operation: whether it reached the provider, the number it delivered, and whether that pays. |
| `Verification.FindPayment` | packages/x402-core/src/index.ts:358-391 | The search returns the first paying operation; if there is none, the notes it took are the largest amount that arrived and whether anything reached the provider. |
| `Verification.DecideOnOperations` | packages/x402-core/src/index.ts:292-490 | The decision after the second request, for every operation list. |
| `Verification.PaysInFields` | packages/x402-core/src/index.ts:284-391 | An operation pays exactly if it is of an allowed kind, in the quote's asset of the quote's issuer (native for XLM), to the payment address, and its amount at least, or for flat quotes exactly, what is required. |
| `Verification.AcceptsInFields` | packages/x402-core/src/index.ts:219-490 | The acceptance condition in the fields of quote, transaction and operations: success, a required text memo equal to the quote's, the window, and such an operation. |
| `Verification.RequiredWithoutMinimum` | packages/x402-core/src/index.ts:312-333 | Without a minimum the quoted amount is required; where a per-token deposit is nothing, the price of one token, or one stroop. |
| `Verification.RequiredUnderMinimum` | packages/x402-core/src/index.ts:334-340 | Under a minimum the larger of that and the minimum is required. |
| `Verification.ReportsInFields` | packages/x402-core/src/index.ts:358-413 | Which operations count for the largest amount received, and which for the refusal of path payments. |
| `Verification.VerifyStellarPayment` | packages/x402-core/src/index.ts:219-508 | Verified if and only if the transaction succeeded, a required memo matches, the price parses, some allowed operation pays, and the time is inside the window, also spelled out in the fields; payer and amount are those of the first such operation; each failure reason holds exactly where it is reported, and a short deposit reports the largest amount received. |
| `Verification.RequiredBounds` | packages/x402-core/src/index.ts:312-343 | The required amount is at least the minimum, and at least one stroop for a per-token quote. |
| `Verification.WindowIsEnforcedIff` | packages/x402-core/src/index.ts:448-490 | An accepted payment was made inside the window of its quote if and only if the time of the transaction could be read (and, for a quote without an issue time, is not negative). |
| `Verification.UnreadableTimeIsAccepted` | packages/x402-core/src/index.ts:448-490 | A payment that passes every other test is accepted when the time cannot be read. |
| `Verification.NothingIsFree` | packages/x402-core/src/index.ts:334-340 | An accepted payment delivered at least the minimum to the provider, and at least one stroop for a per-token quote. |
| `HonestPayer.HorizonTextParses` | packages/x402-core/src/index.ts:373-377 | Horizon's seven-decimal text of an amount is read back as that amount. |
| `HonestPayer.SdkPaysQuotedAmount` | packages/sdk/src/index.ts:263-268 | The units the SDK hands to the transaction builder denote the quoted stroops. |
| `HonestPayer.RequiredIsQuoted` | packages/x402-core/src/index.ts:312-343 | With the same positive minimum, verification asks for exactly what was quoted. |
| `HonestPayer.HonestPayerIsAccepted` | packages/x402-core/src/index.ts:84-135 | For every generated quote with a positive minimum, paying its amount to the provider inside the window is accepted. |
| `HonestPayer.FlatQuotesAreExact` | packages/x402-core/src/index.ts:388-390 | For a flat quote acceptance means that some operation delivered exactly the quoted stroops to the provider. |
| `HonestPayer.TimeDecides` | packages/x402-core/src/index.ts:448-490 | For every amount, one payment that is refused after the window and accepted when its time cannot be read. |
| `Sse.DataLine` | packages/sdk/src/index.ts:410-414 | A data line gives back its payload, with LF or CRLF endings. |
| `Sse.DataLineIff` | packages/sdk/src/index.ts:410-414 | Whatever the blanks around it, a line is data exactly if it starts with `data: `. |
| `Sse.DoneLine` | packages/sdk/src/index.ts:415-418 | The sentinel line is recognised with either line ending. |
| `Sse.SplitIsExact` | packages/sdk/src/index.ts:407-408 | Splitting at newlines loses nothing and leaves no newline inside a line. |
| `Sse.CompleteContinues` | packages/sdk/src/index.ts:406-408 | Keeping the unterminated rest in the buffer and splitting again gives the lines of the whole text. |
| `Sse.HandleLines` | packages/sdk/src/index.ts:410-434 | The inner loop over the lines of one chunk does what handling the lines one by one does. |
| `Sse.SseGenerator` | packages/sdk/src/index.ts:384-439 | For every way of cutting the text into chunks, events and receipt are those of handling the terminated lines of the whole text. |
| `Sse.ProgressMeans` | packages/sdk/src/index.ts:410-433 | Events are exactly the chunks before the first [DONE], none after it; the receipt is the last receipt event of all lines, before or after [DONE]. |
| `Replay.ReplayProtection.constructor` | packages/x402-core/src/index.ts:548-557 | A new object knows no hash. |
| `Replay.ReplayProtection.IsUsed` | packages/x402-core/src/index.ts:560-566 | With Redis, whether the key is held; without, membership in the set. An unanswered request raises. |
| `Replay.ReplayProtection.Claim` | packages/x402-core/src/index.ts:574-589 | With Redis, won exactly when SET NX EX is applied and answered; without, exactly when the hash is not used. A winning claim marks the hash; a lost reply leaves the key set. |
| `Replay.ReplayProtection.MarkUsed` | packages/x402-core/src/index.ts:592-610 | With Redis, sets the key with a new expiry whether it is held or not; without, marks the hash and replaces its timer. |
| `Replay.ReplayProtection.Release` | packages/x402-core/src/index.ts:616-635 | With Redis, deletes the key if the request arrives and swallows the error if not; without, frees the hash and clears its timer. |
| `Replay.ReplayProtection.Fire` | packages/x402-core/src/index.ts:604-609 | A due timer frees the hash it was armed for. |
| `ReplayProofs.RunGood` | packages/x402-core/src/index.ts:592-635 | In every reachable state the used hashes are exactly the keys with one live timer, and each live timer is the current one of its hash: a superseded timer cannot fire. |
| `ReplayProofs.InitiallyGood` | packages/x402-core/src/index.ts:548-557 | The empty object and the empty store satisfy what the run theorems start from. |
| `ReplayProofs.OnlyReleaseOrExpiryFrees` | packages/x402-core/src/index.ts:604-635 | A hash leaves the set only by its own release or by its current timer, at or after the time that timer was armed for. |
| `ReplayProofs.ReleaseFrees` | packages/x402-core/src/index.ts:616-635 | A released hash is free at once with no timer left, and the next claim of it wins. |
| `ReplayProofs.ClaimAndMarkUse` | packages/x402-core/src/index.ts:574-610 | A claim of a free hash wins; it, and any mark, make the hash used for the TTL. |
| `ReplayProofs.FireFrees` | packages/x402-core/src/index.ts:604-609 | A due timer that runs frees its hash and no other. |
| `ReplayProofs.OtherHashesStay` | packages/x402-core/src/index.ts:574-635 | Operations on other hashes, and the clock, leave a hash and its expiry alone. |
| `ReplayProofs.StoreReleaseFrees` | packages/x402-core/src/index.ts:616-627 | In Redis mode a release frees its key at once and no other. |
| `ReplayProofs.StoreClaimHolds` | packages/x402-core/src/index.ts:574-603 | In Redis mode a granted claim and a mark hold the key for the TTL and change no other. |
| `ReplayProofs.ClaimsAreExclusive` | packages/x402-core/src/index.ts:574-610 | After a winning claim and any claims, marks, timer firings and releases of other hashes: before the deadline that the latest mark or winning claim has set the hash is used, until exactly that deadline; and while the clock keeps below it no claim of the hash wins. |
| `ReplayProofs.NeverMorePermissive` | packages/x402-core/src/index.ts:548-635 | Over every run each claim that wins in memory is one that SET NX EX would grant on a store that carried out the same operations. |
| `ReplayProofs.AnswersDifferIffOverdue` | packages/x402-core/src/index.ts:574-589 | The in-memory answer to a claim differs from that store's if and only if the timer of the hash is overdue. |
| `ReplayProofs.AgreesWithRedisIff` | packages/x402-core/src/index.ts:538-589 | Over every run all answers agree with those of a Redis left to itself if and only if no claim of the run finds the timer of its own hash overdue. |
| `ReplayProofs.AgreesWithRedisOnTime` | packages/x402-core/src/index.ts:538-547 | With timers on time they agree, and between due timers the used hashes are the held keys. |
| `ReplayProofs.StoreClaimsAreExclusive` | packages/x402-core/src/index.ts:574-603 | In Redis mode a claimed key is held exactly while the clock is below the deadline that the latest mark or granted claim of any instance has set, short of a release; no claim is granted before. |
| `ReplayProofs.LateTimerOvertakes` | packages/x402-core/src/index.ts:604-609 | A concrete run with one late timer after which the object grants a claim that an independent Redis refuses. |
| `Lock.RedisServer.Set` | apps/gateway/src/common/distributed-lock.ts:80 | SET with NX and EX: applied exactly when the key is absent or expired. |
| `Lock.RedisServer.Eval` | apps/gateway/src/common/distributed-lock.ts:58-63 | The compare-and-delete script removes a live key exactly when it holds the token. |
| `Lock.TryAcquireLock` | apps/gateway/src/common/distributed-lock.ts:72-86 | Reports acquired, held or unavailable, and has the effect of the request that reached the server, also when the reply was lost. |
| `Lock.ReleaseLock` | apps/gateway/src/common/distributed-lock.ts:92-98 | Has the effect of the script if the request arrives, and none otherwise. |
| `LockProofs.RunGood` | apps/gateway/src/common/distributed-lock.ts:65-98 | Over every interleaving the stored value of a key is the token of its latest applied SET, and an earlier grant had run out or been released when a later one began. |
| `LockProofs.MutualExclusion` | apps/gateway/src/common/distributed-lock.ts:65-86 | In every reachable state two grants of one key are never both inside their TTL unless the earlier one was released before the later began. |
| `LockProofs.StaleReleaseIsHarmless` | apps/gateway/src/common/distributed-lock.ts:54-63 | A release by the owner of an overtaken grant changes nothing. |
| `LockProofs.LostReplyFreesByTtl` | apps/gateway/src/common/distributed-lock.ts:68-86 | Over all interleavings: from the end of its TTL on, an applied acquisition, reported as unavailable or not, no longer holds its key; whoever holds it then was granted it later under another token, and if nobody was, the next attempt acquires the lock. |
| `LockProofs.AcquiredExcludesOthers` | apps/gateway/src/common/distributed-lock.ts:72-98 | Whoever is told that it acquired the lock holds it alone over all interleavings, until its TTL runs out or a release under its own token is sent: every attempt by others is told held, if it is told anything. |
| `LockProofs.ReleaseFrees` | apps/gateway/src/common/distributed-lock.ts:58-98 | The owner's release that arrives frees the key at once: the next attempt acquires it. |
| `LockProofs.ReleasedUntilNextGrant` | apps/gateway/src/common/distributed-lock.ts:58-98 | After such a release, over all interleavings: whoever holds the key was granted it later under another token, and if nobody was, the next attempt acquires it. |
| `LockProofs.OtherTokenIsHarmless` | apps/gateway/src/common/distributed-lock.ts:58-63 | A release under another token than the stored one, or one that does not arrive, changes nothing. |
| `LockProofs.NoEffect` | apps/gateway/src/common/distributed-lock.ts:72-98 | A request that does not arrive and an attempt on a held key change nothing. |
| `LockProofs.OtherKeysStay` | apps/gateway/src/common/distributed-lock.ts:58-98 | No request touches another key than its own. |

## Left out

- IsUsed: an error of Redis is one value; connection options, retries and the `size` getter are not modelled.
- Fire: the event loop's choice of when to run a due timer is left open, so timers may be arbitrarily late; delays beyond the platform's 32-bit limit are excluded by the type `Ttl`.
- FormatParseRoundTrip: amounts are natural numbers; the formatter's output for negative amounts is modelled but nothing is proved about it.
- ParsersAgreeIff: digit strings only; Python's `int` also takes underscores and non-ASCII digits.
- ParseFormatIsCanonical: fractions of at most d digits, as the documentation of `parseAmount` restricts its promise.
- QuoteIsMaximum: token estimates are integers; a fractional estimate makes `BigInt` throw.
- SseGenerator: text is modelled as characters; UTF-8 decoding and JSON parsing are a classification of each payload, and the generator is run to the end of the stream.
- MutualExclusion: holders are identified by fresh tokens, as `randomUUID` promises; a process that keeps working after its TTL is not modelled.
- TransferSucceedsIff: trust lines, frozen accounts and the 64-bit limit of classic accounts are not part of the token model; issuance keeps the supply within i128.
- AnyInterleavingSettles: other draws on the balances being settled are excluded, since they could use up the balance; so are pausing and a change of administrator.
- Storage TTL, rent, archived entries and events of the contracts; every written entry is readable.
- Horizon, Soroban RPC and Redis transport: their answers are inputs. Clocks, fresh ids and tokens are parameters.
- Key handling, signatures, XDR, transaction building and confirmation polling in the SDKs.
- The database records, debts, notifications, dashboards, configuration guards, tracing and retry helpers.
