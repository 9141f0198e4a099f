/** The decision of `verifyStellarPayment`, given Horizon's answers. */
module Verification {
  import opened Wrappers
  import opened BigInts
  import opened Amounts
  import opened Quotes

  datatype Op = Op(
    kind: string,
    assetType: Option<string>,
    assetCode: Option<string>,
    assetIssuer: Option<string>,
    to: Option<string>,
    from: string,
    amount: Option<string>)

  /** `createdAt` in milliseconds; None when the date does not parse. */
  datatype Transaction = Transaction(
    memoType: string,
    memo: Option<string>,
    successful: bool,
    sourceAccount: string,
    ledger: int,
    createdAt: Option<int>)

  datatype TxAnswer = TxMissing | TxError | TxFound(tx: Transaction)
  datatype OpsAnswer = OpsError | OpsFound(ops: seq<Op>)

  datatype Failure =
    | Verified
    | NotFoundOnChain
    | MemoMismatch
    | FailedOnChain
    | NoMatch
    | PathPaymentRefused
    | BelowDeposit
    | BeforeIssue
    | AfterExpiry
    | HorizonTrouble

  datatype Result = Result(
    verified: bool,
    payerAddress: string,
    amount: string,
    ledger: int,
    timestamp: Option<int>,
    failure: Failure)

  // ---------------------------------------------------------------------------------------
  // What the decision is meant to be

  predicate IsPaymentKind(kind: string) {
    kind == "payment" || kind == "path_payment_strict_send" || kind == "path_payment_strict_receive"
  }

  predicate Allowed(op: Op, allowPath: bool) {
    IsPaymentKind(op.kind) && (allowPath || op.kind == "payment")
  }

  predicate ReachesProvider(op: Op, quote: Quote) {
    && (if quote.asset == "XLM" then op.assetType == Some("native")
        else op.assetCode == Some(quote.asset) && op.assetIssuer == quote.assetIssuer)
    && op.to == Some(quote.paymentAddress)
  }

  /** The stroops an operation delivers; None when its amount is not a number. */
  function Delivered(op: Op): Option<int> {
    match op.amount
    case None => None
    case Some(text) =>
      match UnitsToStroops(text)
      case None => None
      case Some(stroops) => Parse(stroops)
  }

  /** The number goes through its decimal text and comes out the same. */
  lemma DeliveredNumber(op: Op, text: string)
    requires op.amount == Some(text)
    ensures Delivered(op) == ParseNumber(text, STELLAR_DECIMALS)
  {
    var num := ParseNumber(text, STELLAR_DECIMALS);
    if num.Some? {
      ParseToString(num.value);
    }
  }

  /** What satisfies the quote; None when a price is not a number. */
  function Required(quote: Quote, min: string): Option<int> {
    match BeforeMinimum(quote)
    case None => None
    case Some(base) =>
      if min == "" then Some(base)
      else match Parse(min)
        case None => None
        case Some(m) => Some(if base < m then m else base)
  }

  function BeforeMinimum(quote: Quote): Option<int> {
    match Parse(quote.amount)
    case None => None
    case Some(deposit) =>
      if quote.pricingModel == Flat || deposit > 0 then Some(deposit)
      else if quote.perTokenPrice == "" then Some(1)
      else match Parse(quote.perTokenPrice)
        case None => None
        case Some(price) => Some(if price > 0 then price else 1)
  }

  predicate Pays(op: Op, quote: Quote, allowPath: bool, required: int) {
    && Allowed(op, allowPath) && ReachesProvider(op, quote)
    && Delivered(op).Some? && Enough(quote, Delivered(op).value, required)
  }

  /** A per-token deposit must be covered; a flat price must be met exactly. */
  predicate Enough(quote: Quote, delivered: int, required: int) {
    if quote.pricingModel == PerToken then required <= delivered else delivered == required
  }

  predicate MemoMatches(tx: Transaction, quote: Quote) {
    quote.requireMemo && quote.memo != "" ==> tx.memoType == "text" && tx.memo == Some(quote.memo)
  }

  predicate TooEarly(tx: Transaction, quote: Quote) {
    quote.issuedAt != 0 && tx.createdAt.Some? && tx.createdAt.value < 1000 * quote.issuedAt
  }

  predicate TooLate(tx: Transaction, quote: Quote) {
    tx.createdAt.Some? && 1000 * quote.expiresAt < tx.createdAt.value
  }

  /** Everything up to the search went well, and `required` is what is asked for. */
  predicate Searchable(quote: Quote, answer: TxAnswer, ops: OpsAnswer, min: string) {
    && answer.TxFound? && MemoMatches(answer.tx, quote) && answer.tx.successful
    && ops.OpsFound? && Required(quote, min).Some?
  }

  /** The payment is accepted: on every ground the documentation names, and on no other. */
  ghost predicate Accepts(quote: Quote, answer: TxAnswer, ops: OpsAnswer, min: string, allowPath: bool) {
    && Searchable(quote, answer, ops, min)
    && (exists i :: 0 <= i < |ops.ops| && Pays(ops.ops[i], quote, allowPath, Required(quote, min).value))
    && !TooEarly(answer.tx, quote) && !TooLate(answer.tx, quote)
  }

  ghost predicate FirstPaying(ops: seq<Op>, i: int, quote: Quote, allowPath: bool, required: int) {
    && 0 <= i < |ops| && Pays(ops[i], quote, allowPath, required)
    && forall j | 0 <= j < i :: !Pays(ops[j], quote, allowPath, required)
  }

  ghost predicate SomePays(ops: seq<Op>, quote: Quote, allowPath: bool, required: int) {
    exists i :: 0 <= i < |ops| && Pays(ops[i], quote, allowPath, required)
  }

  /** `largest` is the greatest amount any allowed operation brought to the provider, or 0. */
  ghost predicate IsLargest(ops: seq<Op>, n: int, quote: Quote, allowPath: bool, largest: int)
    requires 0 <= n <= |ops|
  {
    && 0 <= largest
    && NoneAbove(ops, n, quote, allowPath, largest)
    && (largest > 0 ==> Reaches(ops, n, quote, allowPath, largest))
  }

  ghost predicate NoneAbove(ops: seq<Op>, n: int, quote: Quote, allowPath: bool, bound: int)
    requires 0 <= n <= |ops|
  {
    forall j | 0 <= j < n :: AtMost(ops[j], quote, allowPath, bound)
  }

  predicate AtMost(op: Op, quote: Quote, allowPath: bool, bound: int) {
    Reported(op, quote, allowPath) ==> Delivered(op).value <= bound
  }

  ghost predicate Reaches(ops: seq<Op>, n: int, quote: Quote, allowPath: bool, amount: int)
    requires 0 <= n <= |ops|
  {
    exists j :: 0 <= j < n && Reported(ops[j], quote, allowPath) && Delivered(ops[j]).value == amount
  }

  ghost predicate NonePays(ops: seq<Op>, n: int, quote: Quote, allowPath: bool, required: int)
    requires 0 <= n <= |ops|
  {
    forall j | 0 <= j < n :: !Pays(ops[j], quote, allowPath, required)
  }

  lemma NonePaysNext(ops: seq<Op>, n: int, quote: Quote, allowPath: bool, required: int)
    requires 0 <= n < |ops| && NonePays(ops, n, quote, allowPath, required)
    requires !Pays(ops[n], quote, allowPath, required)
    ensures NonePays(ops, n + 1, quote, allowPath, required)
  {
  }

  lemma AtMostGrows(op: Op, quote: Quote, allowPath: bool, bound: int, next: int)
    requires AtMost(op, quote, allowPath, bound) && bound <= next
    ensures AtMost(op, quote, allowPath, next)
  {
  }

  lemma NoneAboveNext(ops: seq<Op>, n: int, quote: Quote, allowPath: bool, bound: int, next: int)
    requires 0 <= n < |ops| && NoneAbove(ops, n, quote, allowPath, bound) && bound <= next
    requires AtMost(ops[n], quote, allowPath, next)
    ensures NoneAbove(ops, n + 1, quote, allowPath, next)
  {
    forall j | 0 <= j < n + 1 ensures AtMost(ops[j], quote, allowPath, next) {
      AtMostGrows(ops[j], quote, allowPath, if j < n then bound else next, next);
    }
  }

  lemma ReachesNext(ops: seq<Op>, n: int, quote: Quote, allowPath: bool, amount: int)
    requires 0 <= n < |ops|
    requires Reaches(ops, n, quote, allowPath, amount)
             || (Reported(ops[n], quote, allowPath) && Delivered(ops[n]).value == amount)
    ensures Reaches(ops, n + 1, quote, allowPath, amount)
  {
  }

  lemma LargestGrows(ops: seq<Op>, n: int, quote: Quote, allowPath: bool, largest: int, delivered: Option<int>)
    requires 0 <= n < |ops| && IsLargest(ops, n, quote, allowPath, largest)
    requires delivered == if Reported(ops[n], quote, allowPath) then Delivered(ops[n]) else None
    ensures IsLargest(ops, n + 1, quote, allowPath,
                      if delivered.Some? && delivered.value > largest then delivered.value else largest)
  {
    var next := if delivered.Some? && delivered.value > largest then delivered.value else largest;
    NoneAboveNext(ops, n, quote, allowPath, largest, next);
    if next > 0 {
      ReachesNext(ops, n, quote, allowPath, next);
    }
  }

  lemma ProviderNext(ops: seq<Op>, n: int, quote: Quote, allowPath: bool)
    requires 0 <= n < |ops|
    ensures SawProvider(ops, n + 1, quote, allowPath) <==>
      SawProvider(ops, n, quote, allowPath) || (Allowed(ops[n], allowPath) && ReachesProvider(ops[n], quote))
  {
  }

  ghost predicate SawProvider(ops: seq<Op>, n: int, quote: Quote, allowPath: bool)
    requires 0 <= n <= |ops|
  {
    exists j :: 0 <= j < n && Allowed(ops[j], allowPath) && ReachesProvider(ops[j], quote)
  }

  predicate Reported(op: Op, quote: Quote, allowPath: bool) {
    Allowed(op, allowPath) && ReachesProvider(op, quote) && Delivered(op).Some?
  }

  predicate PathReaches(op: Op, quote: Quote) {
    IsPaymentKind(op.kind) && op.kind != "payment" && ReachesProvider(op, quote)
  }

  function OrZero(t: Option<int>): Option<int> {
    if t.None? then Some(0) else t
  }

  function Rejected(tx: Transaction, amount: string, failure: Failure): Result {
    Result(false, tx.sourceAccount, amount, tx.ledger, OrZero(tx.createdAt), failure)
  }

  function Payer(op: Op, tx: Transaction): string {
    if op.from != "" then op.from else tx.sourceAccount
  }

  // ---------------------------------------------------------------------------------------
  // The same in the fields of quote, transaction and operation

  /** A direct or, where it is allowed, a path payment in the right asset of the right issuer to the
      right address; for a per-token quote of at least `required` stroops, for a flat one of exactly
      as many. */
  ghost predicate Satisfies(op: Op, quote: Quote, allowPath: bool, required: int) {
    && (op.kind == "payment"
        || (allowPath && (op.kind == "path_payment_strict_send" || op.kind == "path_payment_strict_receive")))
    && op.to == Some(quote.paymentAddress)
    && (quote.asset == "XLM" ==> op.assetType == Some("native"))
    && (quote.asset != "XLM" ==> op.assetCode == Some(quote.asset) && op.assetIssuer == quote.assetIssuer)
    && op.amount.Some?
    && exists stroops :: ParseNumber(op.amount.value, 7) == Some(stroops)
         && (quote.pricingModel == PerToken ==> required <= stroops)
         && (quote.pricingModel == Flat ==> stroops == required)
  }

  lemma PaysInFields(op: Op, quote: Quote, allowPath: bool, required: int)
    ensures Pays(op, quote, allowPath, required) <==> Satisfies(op, quote, allowPath, required)
  {
    if op.amount.Some? {
      DeliveredNumber(op, op.amount.value);
    }
  }

  /** A required memo is the quote's own, as text. */
  predicate MemoFits(tx: Transaction, quote: Quote) {
    !quote.requireMemo || quote.memo == "" || (tx.memoType == "text" && tx.memo == Some(quote.memo))
  }

  predicate TimeFits(tx: Transaction, quote: Quote) {
    tx.createdAt.None?
    || (&& tx.createdAt.value <= 1000 * quote.expiresAt
        && (quote.issuedAt == 0 || 1000 * quote.issuedAt <= tx.createdAt.value))
  }

  /** The payment is accepted exactly on these grounds. */
  lemma AcceptsInFields(quote: Quote, tx: Transaction, ops: seq<Op>, min: string, allowPath: bool)
    ensures Accepts(quote, TxFound(tx), OpsFound(ops), min, allowPath) <==>
              && tx.successful && MemoFits(tx, quote) && TimeFits(tx, quote)
              && Required(quote, min).Some?
              && exists i :: 0 <= i < |ops| && Satisfies(ops[i], quote, allowPath, Required(quote, min).value)
  {
    if Required(quote, min).Some? {
      forall i | 0 <= i < |ops|
        ensures Pays(ops[i], quote, allowPath, Required(quote, min).value)
                <==> Satisfies(ops[i], quote, allowPath, Required(quote, min).value)
      {
        PaysInFields(ops[i], quote, allowPath, Required(quote, min).value);
      }
    }
  }

  /** What is required without a minimum: the quoted amount; and where that is nothing, for a
      per-token quote, the price of one token, or one stroop where that is nothing too. */
  lemma RequiredWithoutMinimum(quote: Quote)
    ensures var required, deposit, price := Required(quote, ""), Parse(quote.amount), Parse(quote.perTokenPrice);
            && (deposit.None? ==> required.None?)
            && (deposit.Some? && (quote.pricingModel == Flat || 0 < deposit.value) ==> required == deposit)
            && (deposit.Some? && quote.pricingModel == PerToken && deposit.value <= 0 ==>
                  && (quote.perTokenPrice == "" ==> required == Some(1))
                  && (quote.perTokenPrice != "" && price.None? ==> required.None?)
                  && (quote.perTokenPrice != "" && price.Some? ==>
                        required.Some? && IsLarger(required.value, price.value, 1)))
  {
  }

  /** Under a minimum it is the larger of that and the minimum. */
  lemma RequiredUnderMinimum(quote: Quote, min: string)
    requires min != ""
    ensures Required(quote, min).Some? <==> Required(quote, "").Some? && Parse(min).Some?
    ensures Required(quote, min).Some? ==>
              IsLarger(Required(quote, min).value, Required(quote, "").value, Parse(min).value)
  {
  }

  /** What a failure report is about. */
  lemma ReportsInFields(op: Op, quote: Quote, allowPath: bool)
    ensures PathReaches(op, quote) <==>
              && (op.kind == "path_payment_strict_send" || op.kind == "path_payment_strict_receive")
              && op.to == Some(quote.paymentAddress)
              && (quote.asset == "XLM" ==> op.assetType == Some("native"))
              && (quote.asset != "XLM" ==> op.assetCode == Some(quote.asset) && op.assetIssuer == quote.assetIssuer)
    ensures Reported(op, quote, allowPath) <==>
              && (op.kind == "payment" || (allowPath && PathReaches(op, quote)))
              && op.to == Some(quote.paymentAddress)
              && (quote.asset == "XLM" ==> op.assetType == Some("native"))
              && (quote.asset != "XLM" ==> op.assetCode == Some(quote.asset) && op.assetIssuer == quote.assetIssuer)
              && op.amount.Some? && ParseNumber(op.amount.value, 7).Some?
  {
    if op.amount.Some? {
      DeliveredNumber(op, op.amount.value);
    }
  }

  // ---------------------------------------------------------------------------------------
  // The search

  /** The test `find` makes of one operation: does it reach the provider, and with what. */
  method Examine(op: Op, quote: Quote, allowPath: bool, required: int)
    returns (reaches: bool, amount: Option<int>, pays: bool)
    ensures reaches <==> Allowed(op, allowPath) && ReachesProvider(op, quote)
    ensures amount == if Reported(op, quote, allowPath) then Delivered(op) else None
    ensures pays <==> Pays(op, quote, allowPath, required)
  {
    if !(Allowed(op, allowPath) && ReachesProvider(op, quote)) { return false, None, false; }
    amount := Delivered(op);
    return true, amount, amount.Some? && Enough(quote, amount.value, required);
  }

  /** The `find` over the payment operations, with what it notes on the way. */
  method FindPayment(ops: seq<Op>, quote: Quote, allowPath: bool, required: int)
    returns (found: Option<Op>, sawProviderOp: bool, largest: int)
    ensures found.Some? <==> SomePays(ops, quote, allowPath, required)
    ensures found.Some? ==> exists i :: FirstPaying(ops, i, quote, allowPath, required) && found.value == ops[i]
    ensures found.None? ==> IsLargest(ops, |ops|, quote, allowPath, largest)
    ensures found.None? ==> (sawProviderOp <==> SawProvider(ops, |ops|, quote, allowPath))
  {
    sawProviderOp, largest := false, 0;
    var i := 0;
    while i < |ops|
      invariant 0 <= i <= |ops|
      invariant NonePays(ops, i, quote, allowPath, required)
      invariant IsLargest(ops, i, quote, allowPath, largest)
      invariant sawProviderOp <==> SawProvider(ops, i, quote, allowPath)
    {
      var reaches, amount, pays := Examine(ops[i], quote, allowPath, required);
      if pays {
        assert FirstPaying(ops, i, quote, allowPath, required);
        return Some(ops[i]), sawProviderOp, largest;
      }
      LargestGrows(ops, i, quote, allowPath, largest, amount);
      ProviderNext(ops, i, quote, allowPath);
      NonePaysNext(ops, i, quote, allowPath, required);
      if reaches {
        sawProviderOp := true;
      }
      if amount.Some? && amount.value > largest {
        largest := amount.value;
      }
      i := i + 1;
    }
    return None, sawProviderOp, largest;
  }

  // ---------------------------------------------------------------------------------------
  // The decision

  method VerifyStellarPayment(quote: Quote, answer: TxAnswer, ops: OpsAnswer, min: string, allowPath: bool)
    returns (r: Result)
    // Sound and complete.
    ensures r.verified <==> Accepts(quote, answer, ops, min, allowPath)
    ensures r.verified <==> r.failure == Verified
    ensures r.verified ==>
      && answer.TxFound? && ops.OpsFound? && answer.tx.successful
      && MemoFits(answer.tx, quote) && TimeFits(answer.tx, quote) && Required(quote, min).Some?
      && exists i :: 0 <= i < |ops.ops| && Satisfies(ops.ops[i], quote, allowPath, Required(quote, min).value)
    // Payer and amount are those of the first operation that pays, also when it came at a bad time.
    ensures Searchable(quote, answer, ops, min) && SomePays(ops.ops, quote, allowPath, Required(quote, min).value)
      ==> exists i :: FirstPaying(ops.ops, i, quote, allowPath, Required(quote, min).value)
                      && r.payerAddress == (if ops.ops[i].from != "" then ops.ops[i].from
                                            else answer.tx.sourceAccount)
                      && r.amount == ToString(Delivered(ops.ops[i]).value)
                      && r.timestamp == answer.tx.createdAt && r.ledger == answer.tx.ledger
    // A deposit that falls short is reported with the largest amount that arrived.
    ensures r.failure == BelowDeposit <==>
      && Searchable(quote, answer, ops, min)
      && quote.pricingModel == PerToken
      && !SomePays(ops.ops, quote, allowPath, Required(quote, min).value)
      && exists j :: 0 <= j < |ops.ops| && Reported(ops.ops[j], quote, allowPath) && Delivered(ops.ops[j]).value > 0
    ensures r.failure == BelowDeposit ==>
      exists largest :: IsLargest(ops.ops, |ops.ops|, quote, allowPath, largest)
                        && r == Rejected(answer.tx, ToString(largest), BelowDeposit)
    // A path payment is named as the reason only where it is the reason.
    ensures r.failure == PathPaymentRefused <==>
      && Searchable(quote, answer, ops, min) && !allowPath
      && (forall j | 0 <= j < |ops.ops| :: !(ops.ops[j].kind == "payment" && ReachesProvider(ops.ops[j], quote)))
      && (exists j :: 0 <= j < |ops.ops| && PathReaches(ops.ops[j], quote))
    // The remaining grounds, in the order in which they are tried.
    ensures r.failure == NotFoundOnChain <==> answer.TxMissing?
    ensures r.failure == MemoMismatch <==> answer.TxFound? && !MemoMatches(answer.tx, quote)
    ensures r.failure == FailedOnChain <==>
      answer.TxFound? && MemoMatches(answer.tx, quote) && !answer.tx.successful
    ensures r.failure == HorizonTrouble <==>
      || answer.TxError?
      || (answer.TxFound? && MemoMatches(answer.tx, quote) && answer.tx.successful && ops.OpsError?)
    ensures r.failure in {MemoMismatch, FailedOnChain, NoMatch, PathPaymentRefused} ==>
      r == Rejected(answer.tx, "0", r.failure)
    ensures r.failure in {MemoMismatch, FailedOnChain, NoMatch, PathPaymentRefused, BelowDeposit} ==>
      && !r.verified && r.payerAddress == answer.tx.sourceAccount && r.ledger == answer.tx.ledger
      && r.timestamp == (if answer.tx.createdAt.Some? then answer.tx.createdAt else Some(0))
      && (r.failure != BelowDeposit ==> r.amount == "0")
    ensures r.failure in {NotFoundOnChain, HorizonTrouble} ==> r == Result(false, "", "0", 0, Some(0), r.failure)
    ensures r.failure == BeforeIssue <==>
      && Searchable(quote, answer, ops, min) && SomePays(ops.ops, quote, allowPath, Required(quote, min).value)
      && TooEarly(answer.tx, quote)
    ensures r.failure == AfterExpiry <==>
      && Searchable(quote, answer, ops, min) && SomePays(ops.ops, quote, allowPath, Required(quote, min).value)
      && !TooEarly(answer.tx, quote) && TooLate(answer.tx, quote)
  {
    var trouble := Result(false, "", "0", 0, Some(0), HorizonTrouble);
    match answer {
      case TxMissing => return trouble.(failure := NotFoundOnChain);
      case TxError => return trouble;
      case TxFound(tx) =>
        if !MemoMatches(tx, quote) { return Rejected(tx, "0", MemoMismatch); }
        if !tx.successful { return Rejected(tx, "0", FailedOnChain); }
        match ops {
          case OpsError => return trouble;
          case OpsFound(list) =>
            r := DecideOnOperations(quote, tx, list, min, allowPath);
            AcceptsInFields(quote, tx, list, min, allowPath);
        }
    }
  }

  /** The part behind the second request. */
  method DecideOnOperations(quote: Quote, tx: Transaction, ops: seq<Op>, min: string, allowPath: bool)
    returns (r: Result)
    ensures Required(quote, min).None? ==> r == Rejected(tx, "0", NoMatch)
    ensures Required(quote, min).Some? ==>
      Decided(quote, tx, ops, Required(quote, min).value, allowPath, r)
  {
    var required := Required(quote, min);
    if required.None? { return Rejected(tx, "0", NoMatch); }
    var found, sawProviderOp, largest := FindPayment(ops, quote, allowPath, required.value);
    if found.None? {
      if !allowPath && !sawProviderOp && exists op | op in ops :: PathReaches(op, quote) {
        return Rejected(tx, "0", PathPaymentRefused);
      }
      if quote.pricingModel == PerToken && sawProviderOp && largest > 0 {
        return Rejected(tx, ToString(largest), BelowDeposit);
      }
      return Rejected(tx, "0", NoMatch);
    }
    var op := found.value;
    var paid := ToString(Delivered(op).value);
    var failure :=
      if quote.issuedAt != 0 && tx.createdAt.Some? && tx.createdAt.value < 1000 * quote.issuedAt then BeforeIssue
      else if tx.createdAt.Some? && tx.createdAt.value > 1000 * quote.expiresAt then AfterExpiry
      else Verified;
    return Result(failure == Verified, Payer(op, tx), paid, tx.ledger, tx.createdAt, failure);
  }

  ghost predicate Decided(quote: Quote, tx: Transaction, ops: seq<Op>, required: int, allowPath: bool, r: Result) {
    if SomePays(ops, quote, allowPath, required) then
      && r.failure == (if TooEarly(tx, quote) then BeforeIssue
                       else if TooLate(tx, quote) then AfterExpiry
                       else Verified)
      && r.verified == (r.failure == Verified)
      && r.timestamp == tx.createdAt && r.ledger == tx.ledger
      && exists i :: FirstPaying(ops, i, quote, allowPath, required)
           && r.payerAddress == Payer(ops[i], tx) && r.amount == ToString(Delivered(ops[i]).value)
    else
      && !r.verified
      && r.failure in {NoMatch, PathPaymentRefused, BelowDeposit}
      && (r.failure != BelowDeposit ==> r == Rejected(tx, "0", r.failure))
      && (r.failure == PathPaymentRefused <==>
           && !allowPath
           && (forall j | 0 <= j < |ops| :: !(Allowed(ops[j], false) && ReachesProvider(ops[j], quote)))
           && (exists j :: 0 <= j < |ops| && PathReaches(ops[j], quote)))
      && (r.failure == BelowDeposit <==>
           && quote.pricingModel == PerToken
           && exists j :: 0 <= j < |ops| && Reported(ops[j], quote, allowPath) && Delivered(ops[j]).value > 0)
      && (r.failure == BelowDeposit ==>
           exists largest :: IsLargest(ops, |ops|, quote, allowPath, largest)
                             && r == Rejected(tx, ToString(largest), BelowDeposit))
  }

  lemma RequiredBounds(quote: Quote, min: string)
    requires Required(quote, min).Some?
    ensures min != "" ==> Parse(min).Some? && Parse(min).value <= Required(quote, min).value
    ensures quote.pricingModel == PerToken ==> 1 <= Required(quote, min).value
  {
  }

  /** The operation brought the provider the minimum, and for a per-token quote a stroop. */
  predicate WorthSomething(op: Op, quote: Quote, min: string) {
    && ReachesProvider(op, quote) && Delivered(op).Some?
    && (min != "" ==> Parse(min).Some? && Parse(min).value <= Delivered(op).value)
    && (quote.pricingModel == PerToken ==> 1 <= Delivered(op).value)
  }

  predicate InWindow(quote: Quote, time: int) {
    1000 * quote.issuedAt <= time <= 1000 * quote.expiresAt
  }

  /** When an accepted payment was made inside the window of its quote: exactly when the time of
      the transaction could be read, and, for a quote without an issue time, is not negative. */
  lemma WindowIsEnforcedIff(quote: Quote, tx: Transaction, ops: OpsAnswer, min: string, allowPath: bool)
    requires Accepts(quote, TxFound(tx), ops, min, allowPath)
    ensures tx.createdAt.Some? && InWindow(quote, tx.createdAt.value) <==>
              tx.createdAt.Some? && (quote.issuedAt != 0 || 0 <= tx.createdAt.value)
    ensures quote.issuedAt != 0 ==>
              (tx.createdAt.Some? && InWindow(quote, tx.createdAt.value) <==> tx.createdAt.Some?)
  {
  }

  /** A payment that is refused for its time alone is accepted when the time cannot be read. */
  lemma UnreadableTimeIsAccepted(quote: Quote, tx: Transaction, ops: OpsAnswer, min: string, allowPath: bool)
    requires Searchable(quote, TxFound(tx), ops, min)
    requires SomePays(ops.ops, quote, allowPath, Required(quote, min).value)
    ensures Accepts(quote, TxFound(tx.(createdAt := None)), ops, min, allowPath)
  {
    var i :| 0 <= i < |ops.ops| && Pays(ops.ops[i], quote, allowPath, Required(quote, min).value);
    assert Pays(ops.ops[i], quote, allowPath, Required(quote, min).value);
  }

  /** No free access: whatever the prices say, an accepted payment delivered at least the
      minimum, and for a per-token quote at least one stroop. */
  lemma NothingIsFree(quote: Quote, answer: TxAnswer, ops: seq<Op>, min: string, allowPath: bool)
    requires Accepts(quote, answer, OpsFound(ops), min, allowPath)
    ensures exists i :: 0 <= i < |ops| && WorthSomething(ops[i], quote, min)
  {
    RequiredBounds(quote, min);
    var required := Required(quote, min).value;
    var i :| 0 <= i < |ops| && Pays(ops[i], quote, allowPath, required);
    assert WorthSomething(ops[i], quote, min);
  }
}
