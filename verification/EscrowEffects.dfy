/** What each call of the escrow does when it commits, who can bring it about, and why it panics,
    account by account. */
module EscrowEffects {
  import opened Soroban
  import opened Sums
  import opened Token
  import opened EscrowSpec

  /** The entry of `k` changed by `amount`, and no other. */
  ghost predicate Changed<K(!new)>(m: map<K, int>, m': map<K, int>, k: K, amount: int) {
    Get(m', k) == Get(m, k) + amount && forall j | j != k :: Get(m', j) == Get(m, j)
  }

  /** The user's tokens go to the contract, and the user's balance grows by as much. */
  lemma DepositEffect(s: State, tx: Tx)
    requires Sound(s.ledger) && tx.call.Deposit? && Exec(s, tx).Ok?
    ensures var s', user, amount := Step(s, tx), tx.call.user, tx.call.amount;
            && s' == s.(ledger := s'.ledger, balances := s'.balances)
            && Moved(s.ledger, s'.ledger, user, s.self, amount)
            && Changed(s.balances, s'.balances, user, amount)
  {
    MoveMoves(s.ledger, tx.call.user, s.self, tx.call.amount);
  }

  /** The user is paid what the user's balance loses. */
  lemma WithdrawEffect(s: State, tx: Tx)
    requires Sound(s.ledger) && tx.call.Withdraw? && Exec(s, tx).Ok?
    ensures var s', user, amount := Step(s, tx), tx.call.user, tx.call.amount;
            && s' == s.(ledger := s'.ledger, balances := s'.balances)
            && Moved(s.ledger, s'.ledger, s.self, user, amount)
            && Changed(s.balances, s'.balances, user, -amount)
  {
    MoveMoves(s.ledger, s.self, tx.call.user, tx.call.amount);
  }

  /** A charge moves no token: what the user's balance loses is revenue. */
  lemma ChargeEffect(s: State, tx: Tx)
    requires tx.call.Charge? && Exec(s, tx).Ok?
    ensures var s', user, amount := Step(s, tx), tx.call.user, tx.call.amount;
            && s' == s.(balances := s'.balances, revenue := s'.revenue, charged := s'.charged,
                        usage := s'.usage, usageCount := s'.usageCount)
            && Changed(s.balances, s'.balances, user, -amount)
            && s'.revenue == s.revenue + amount
            && (user, tx.call.quoteId) !in s.charged
            && s'.charged == s.charged + {(user, tx.call.quoteId)}
            && Changed(s.usageCount, s'.usageCount, user, 1)
  {
  }

  /** A refund pays the user, and nobody else, what the user's balance loses. */
  lemma RefundEffect(s: State, tx: Tx)
    requires Sound(s.ledger) && tx.call.Refund? && Exec(s, tx).Ok?
    ensures var s', user, amount := Step(s, tx), tx.call.user, tx.call.amount;
            && s' == s.(ledger := s'.ledger, balances := s'.balances, refunded := s'.refunded)
            && Moved(s.ledger, s'.ledger, s.self, user, amount)
            && Changed(s.balances, s'.balances, user, -amount)
            && (user, tx.call.quoteId) !in s.refunded
            && s'.refunded == s.refunded + {(user, tx.call.quoteId)}
  {
    MoveMoves(s.ledger, s.self, tx.call.user, tx.call.amount);
  }

  /** The named destination is paid what the revenue loses. */
  lemma WithdrawRevenueEffect(s: State, tx: Tx)
    requires Sound(s.ledger) && tx.call.WithdrawRevenue? && Exec(s, tx).Ok?
    ensures var s', amount := Step(s, tx), tx.call.amount;
            && s' == s.(ledger := s'.ledger, revenue := s'.revenue)
            && Moved(s.ledger, s'.ledger, s.self, tx.call.destination, amount)
            && s'.revenue == s.revenue - amount
  {
    MoveMoves(s.ledger, s.self, tx.call.destination, tx.call.amount);
  }

  lemma TokenEffect(s: State, tx: Tx)
    requires Sound(s.ledger) && Exec(s, tx).Ok?
    ensures tx.call.TokenTransfer? ==>
              Moved(s.ledger, Step(s, tx).ledger, tx.call.from, tx.call.to, tx.call.amount)
    ensures tx.call.TokenMint? ==> Changed(s.ledger, Step(s, tx).ledger, tx.call.to, tx.call.amount)
    ensures tx.call.TokenTransfer? || tx.call.TokenMint? ==> Step(s, tx) == s.(ledger := Step(s, tx).ledger)
  {
    if tx.call.TokenTransfer? {
      MoveMoves(s.ledger, tx.call.from, tx.call.to, tx.call.amount);
    }
  }

  // ---------------------------------------------------------------------------------------
  // Who can bring it about

  /** A balance is lowered only by a withdrawal its user signed, or by a charge or refund the
      administrator signed. */
  lemma BalancesNeedSignature(s: State, tx: Tx, u: Address)
    requires Sound(s.ledger) && Get(Step(s, tx).balances, u) < Get(s.balances, u)
    ensures || (tx.call.Withdraw? && tx.call.user == u && u in tx.auths)
            || ((tx.call.Charge? || tx.call.Refund?) && tx.call.user == u && s.admin in tx.auths)
  {
    match tx.call
    case Deposit(_, _) => DepositEffect(s, tx);
    case Withdraw(_, _) => WithdrawEffect(s, tx);
    case Charge(_, _, _) => ChargeEffect(s, tx);
    case Refund(_, _, _) => RefundEffect(s, tx);
    case WithdrawRevenue(_, _) => WithdrawRevenueEffect(s, tx);
    case TokenTransfer(_, _, _) => TokenEffect(s, tx);
    case TokenMint(_, _) => TokenEffect(s, tx);
    case _ =>
  }

  /** Revenue is lowered only by a withdrawal the administrator signed. */
  lemma RevenueNeedsSignature(s: State, tx: Tx)
    requires Sound(s.ledger) && Step(s, tx).revenue < s.revenue
    ensures tx.call.WithdrawRevenue? && s.admin in tx.auths
  {
    match tx.call
    case Deposit(_, _) => DepositEffect(s, tx);
    case Withdraw(_, _) => WithdrawEffect(s, tx);
    case Charge(_, _, _) => ChargeEffect(s, tx);
    case Refund(_, _, _) => RefundEffect(s, tx);
    case _ =>
  }

  /** Tokens leave an account other than the contract's only with that account's signature. */
  lemma TokensNeedSignature(s: State, tx: Tx, a: Address)
    requires Sound(s.ledger) && a != s.self && Get(Step(s, tx).ledger, a) < Get(s.ledger, a)
    ensures a in tx.auths
  {
    match tx.call
    case Deposit(_, _) => DepositEffect(s, tx);
    case Withdraw(_, _) => WithdrawEffect(s, tx);
    case Charge(_, _, _) => ChargeEffect(s, tx);
    case Refund(_, _, _) => RefundEffect(s, tx);
    case WithdrawRevenue(_, _) => WithdrawRevenueEffect(s, tx);
    case TokenTransfer(_, _, _) => TokenEffect(s, tx);
    case TokenMint(_, _) => TokenEffect(s, tx);
    case _ =>
  }

  // ---------------------------------------------------------------------------------------
  // Why a call panics

  /** Whose signature a call needs. */
  function Signer(s: State, call: Call): Address
    requires !call.TokenMint?
  {
    match call
    case Deposit(user, _) => user
    case Withdraw(user, _) => user
    case TokenTransfer(from, _, _) => from
    case _ => s.admin
  }

  predicate MovesValue(call: Call) {
    call.Deposit? || call.Withdraw? || call.Charge? || call.Refund? || call.WithdrawRevenue?
  }

  lemma UnauthorizedIff(s: State, tx: Tx)
    requires !tx.call.TokenMint?
    ensures Exec(s, tx) == Panic(Unauthorized) <==>
              Signer(s, tx.call) !in tx.auths || Signer(s, tx.call) == s.self
  {
  }

  /** The tests that all entry points share come first, in this order. */
  lemma SharedTestsFirst(s: State, tx: Tx)
    requires MovesValue(tx.call) && Signer(s, tx.call) in tx.auths && Signer(s, tx.call) != s.self
    ensures Exec(s, tx) == Panic(NotPositive) <==> tx.call.amount <= 0
    ensures Exec(s, tx) == Panic(ContractPaused) <==> 0 < tx.call.amount && s.paused
  {
  }

  /** Behind these tests an idempotency guard is reported before a missing balance. */
  lemma GuardsBeforeBalance(s: State, tx: Tx)
    requires MovesValue(tx.call) && Signer(s, tx.call) in tx.auths && Signer(s, tx.call) != s.self
    requires 0 < tx.call.amount && !s.paused
    ensures Exec(s, tx) == Panic(AlreadyCharged) <==> tx.call.Charge? && (tx.call.user, tx.call.quoteId) in s.charged
    ensures Exec(s, tx) == Panic(AlreadyRefunded) <==>
              tx.call.Refund? && (tx.call.user, tx.call.quoteId) in s.refunded
    ensures Exec(s, tx) == Panic(InsufficientBalance) <==>
              && (tx.call.Withdraw? || tx.call.Charge? || tx.call.Refund?)
              && Get(s.balances, tx.call.user) < tx.call.amount
              && (tx.call.Charge? ==> (tx.call.user, tx.call.quoteId) !in s.charged)
              && (tx.call.Refund? ==> (tx.call.user, tx.call.quoteId) !in s.refunded)
    ensures Exec(s, tx) == Panic(InsufficientRevenue) <==> tx.call.WithdrawRevenue? && s.revenue < tx.call.amount
  {
  }
}
