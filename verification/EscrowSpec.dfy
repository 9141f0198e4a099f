/** The credit escrow as a state machine: each entry point as the state it commits or the
    panic it raises, tests in the order in which the contract makes them. */
module EscrowSpec {
  import opened Soroban
  import opened Sums
  import opened Token

  datatype UsageEvent = UsageEvent(user: Address, amount: int, quoteId: string, timestamp: nat)

  datatype State = State(
    self: Address,
    admin: Address,
    paused: bool,
    balances: map<Address, int>,
    revenue: int,
    usageCount: map<Address, int>,
    usage: map<(Address, int), UsageEvent>,
    charged: set<(Address, string)>,
    refunded: set<(Address, string)>,
    ledger: Ledger)

  /** Entry points, plus the two ways the token ledger changes behind the contract's back. */
  datatype Call =
    | Deposit(user: Address, amount: I128)
    | Withdraw(user: Address, amount: I128)
    | Charge(user: Address, amount: I128, quoteId: string)
    | Refund(user: Address, amount: I128, quoteId: string)
    | WithdrawRevenue(destination: Address, amount: I128)
    | SetAdmin(newAdmin: Address)
    | SetPaused(flag: bool)
    | TokenTransfer(from: Address, to: Address, amount: I128)
    | TokenMint(to: Address, amount: I128)

  /** A transaction: a call, the addresses that authorised it, and the ledger time. */
  datatype Tx = Tx(call: Call, auths: set<Address>, time: nat)

  function DoDeposit(s: State, auths: set<Address>, user: Address, amount: int): Outcome<State> {
    if !Authorised(auths, user, s.self) then Panic(Unauthorized)
    else if amount <= 0 then Panic(NotPositive)
    else if s.paused then Panic(ContractPaused)
    else match Move(s.ledger, user, s.self, amount)
      case Panic(reason) => Panic(reason)
      case Ok(ledger) =>
        var credited := Get(s.balances, user) + amount;
        if !FitsI128(credited) then Panic(Overflow)
        else Ok(s.(ledger := ledger, balances := s.balances[user := credited]))
  }

  function DoWithdraw(s: State, auths: set<Address>, user: Address, amount: int): Outcome<State> {
    if !Authorised(auths, user, s.self) then Panic(Unauthorized)
    else if amount <= 0 then Panic(NotPositive)
    else if s.paused then Panic(ContractPaused)
    else if Get(s.balances, user) < amount then Panic(InsufficientBalance)
    else PayOut(s.(balances := s.balances[user := Get(s.balances, user) - amount]), user, amount)
  }

  function PayOut(s: State, to: Address, amount: int): Outcome<State> {
    match Move(s.ledger, s.self, to, amount)
    case Panic(reason) => Panic(reason)
    case Ok(ledger) => Ok(s.(ledger := ledger))
  }

  function DoCharge(s: State, auths: set<Address>, time: nat,
                    user: Address, amount: int, quoteId: string): Outcome<State> {
    var count := Get(s.usageCount, user);
    if !Authorised(auths, s.admin, s.self) then Panic(Unauthorized)
    else if amount <= 0 then Panic(NotPositive)
    else if s.paused then Panic(ContractPaused)
    else if (user, quoteId) in s.charged then Panic(AlreadyCharged)
    else if Get(s.balances, user) < amount then Panic(InsufficientBalance)
    else if !FitsI128(s.revenue + amount) then Panic(Overflow)
    else if count >= U32_MAX then Panic(CounterOverflow)
    else Ok(s.(charged := s.charged + {(user, quoteId)},
               balances := s.balances[user := Get(s.balances, user) - amount],
               revenue := s.revenue + amount,
               usage := s.usage[(user, count) := UsageEvent(user, amount, quoteId, time)],
               usageCount := s.usageCount[user := count + 1]))
  }

  function DoRefund(s: State, auths: set<Address>,
                    user: Address, amount: int, quoteId: string): Outcome<State> {
    if !Authorised(auths, s.admin, s.self) then Panic(Unauthorized)
    else if amount <= 0 then Panic(NotPositive)
    else if s.paused then Panic(ContractPaused)
    else if (user, quoteId) in s.refunded then Panic(AlreadyRefunded)
    else if Get(s.balances, user) < amount then Panic(InsufficientBalance)
    else PayOut(s.(refunded := s.refunded + {(user, quoteId)},
                   balances := s.balances[user := Get(s.balances, user) - amount]), user, amount)
  }

  function DoWithdrawRevenue(s: State, auths: set<Address>,
                             destination: Address, amount: int): Outcome<State> {
    if !Authorised(auths, s.admin, s.self) then Panic(Unauthorized)
    else if amount <= 0 then Panic(NotPositive)
    else if s.paused then Panic(ContractPaused)
    else if s.revenue < amount then Panic(InsufficientRevenue)
    else PayOut(s.(revenue := s.revenue - amount), destination, amount)
  }

  function DoSetAdmin(s: State, auths: set<Address>, newAdmin: Address): Outcome<State> {
    if !Authorised(auths, s.admin, s.self) then Panic(Unauthorized)
    else Ok(s.(admin := newAdmin))
  }

  function DoSetPaused(s: State, auths: set<Address>, flag: bool): Outcome<State> {
    if !Authorised(auths, s.admin, s.self) then Panic(Unauthorized)
    else Ok(s.(paused := flag))
  }

  /** Tokens moved by somebody else: the escrow contract never signs such a transfer. */
  function DoTokenTransfer(s: State, auths: set<Address>,
                           from: Address, to: Address, amount: int): Outcome<State> {
    if !Authorised(auths, from, s.self) then Panic(Unauthorized)
    else match Move(s.ledger, from, to, amount)
      case Panic(reason) => Panic(reason)
      case Ok(ledger) => Ok(s.(ledger := ledger))
  }

  ghost function Exec(s: State, tx: Tx): Outcome<State> {
    match tx.call
    case Deposit(user, amount) => DoDeposit(s, tx.auths, user, amount)
    case Withdraw(user, amount) => DoWithdraw(s, tx.auths, user, amount)
    case Charge(user, amount, quoteId) => DoCharge(s, tx.auths, tx.time, user, amount, quoteId)
    case Refund(user, amount, quoteId) => DoRefund(s, tx.auths, user, amount, quoteId)
    case WithdrawRevenue(destination, amount) => DoWithdrawRevenue(s, tx.auths, destination, amount)
    case SetAdmin(newAdmin) => DoSetAdmin(s, tx.auths, newAdmin)
    case SetPaused(flag) => DoSetPaused(s, tx.auths, flag)
    case TokenTransfer(from, to, amount) => DoTokenTransfer(s, tx.auths, from, to, amount)
    case TokenMint(to, amount) =>
      match Mint(s.ledger, to, amount)
      case Panic(reason) => Panic(reason)
      case Ok(ledger) => Ok(s.(ledger := ledger))
  }

  ghost function Step(s: State, tx: Tx): State {
    Commit(s, Exec(s, tx))
  }

  ghost function Run(s: State, txs: seq<Tx>): State
    decreases |txs|
  {
    if txs == [] then s else Run(Step(s, txs[0]), txs[1..])
  }

  /** A freshly deployed escrow on any sound token ledger. */
  ghost predicate Deployed(s: State) {
    && Sound(s.ledger)
    && !s.paused && s.balances == map[] && s.revenue == 0
    && s.usageCount == map[] && s.usage == map[] && s.charged == {} && s.refunded == {}
  }

  // ---------------------------------------------------------------------------------------
  // Invariants

  /** Tokens the contract holds beyond what it owes to users and to the administrator. */
  ghost function Surplus(s: State): int {
    Get(s.ledger, s.self) - Total(s.balances) - s.revenue
  }

  ghost predicate Solvent(s: State) {
    && Sound(s.ledger)
    && NonNegative(s.balances)
    && 0 <= s.revenue
    && 0 <= Surplus(s)
  }

  /** User `u`'s log fills exactly the indices 0..count. */
  ghost predicate Dense(s: State, u: Address) {
    && 0 <= Get(s.usageCount, u) <= U32_MAX
    && forall i :: (u, i) in s.usage <==> 0 <= i < Get(s.usageCount, u)
  }

  ghost function Log(s: State, u: Address): (log: seq<UsageEvent>)
    requires Dense(s, u)
    ensures |log| == Get(s.usageCount, u)
  {
    seq(Get(s.usageCount, u), i requires 0 <= i < Get(s.usageCount, u) => s.usage[(u, i)])
  }

  /** The log of `u` names pairwise distinct quotes, and exactly those under a CHARGED guard. */
  ghost predicate LogMatchesGuards(s: State, u: Address)
    requires Dense(s, u)
  {
    var log := Log(s, u);
    && (forall i | 0 <= i < |log| :: log[i].user == u && (u, log[i].quoteId) in s.charged)
    && (forall i, j | 0 <= i < j < |log| :: log[i].quoteId != log[j].quoteId)
    && (forall q | (u, q) in s.charged :: exists i :: 0 <= i < |log| && log[i].quoteId == q)
  }

  ghost predicate LogOk(s: State, u: Address) {
    Dense(s, u) && LogMatchesGuards(s, u)
  }

  ghost predicate History(s: State) {
    forall u :: LogOk(s, u)
  }
}
