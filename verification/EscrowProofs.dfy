/** Solvency, conservation and history of the escrow over every run. */
module EscrowProofs {
  import opened Soroban
  import opened Sums
  import opened Token
  import opened EscrowSpec

  /** Tokens a successful transaction brings to the contract without creating a claim:
      transfers and mints to it, and payouts that name the contract as recipient. */
  ghost function Donation(s: State, tx: Tx): int {
    if Exec(s, tx).Panic? then 0
    else match tx.call
      case Withdraw(user, amount) => if user == s.self then amount else 0
      case Refund(user, amount, _) => if user == s.self then amount else 0
      case WithdrawRevenue(destination, amount) => if destination == s.self then amount else 0
      case TokenTransfer(_, to, amount) => if to == s.self then amount else 0
      case TokenMint(to, amount) => if to == s.self then amount else 0
      case _ => 0
  }

  ghost function Donations(s: State, txs: seq<Tx>): int
    decreases |txs|
  {
    if txs == [] then 0 else Donation(s, txs[0]) + Donations(Step(s, txs[0]), txs[1..])
  }

  lemma PayOutKeeps(s: State, to: Address, amount: int)
    requires Sound(s.ledger) && 0 < amount && PayOut(s, to, amount).Ok?
    ensures var s' := PayOut(s, to, amount).value;
            && Sound(s'.ledger) && s' == s.(ledger := s'.ledger)
            && Get(s'.ledger, s.self) == Get(s.ledger, s.self) - (if to == s.self then 0 else amount)
  {
    TransferConserves(s.ledger, s.self, to, amount);
  }

  ghost predicate SolventAfter(s: State, s': State, donation: int) {
    Solvent(s') && Surplus(s') == Surplus(s) + donation && 0 <= donation
  }

  lemma DepositSolvent(s: State, auths: set<Address>, user: Address, amount: int)
    requires Solvent(s) && DoDeposit(s, auths, user, amount).Ok?
    ensures SolventAfter(s, DoDeposit(s, auths, user, amount).value, 0)
  {
    TransferConserves(s.ledger, user, s.self, amount);
    TotalUpdate(s.balances, user, Get(s.balances, user) + amount);
  }

  /** Lowering one claim by `amount` and paying it out keeps solvency. */
  lemma ClaimPaidSolvent(s: State, lowered: State, to: Address, amount: int)
    requires Solvent(s) && 0 < amount && PayOut(lowered, to, amount).Ok?
    requires lowered.ledger == s.ledger && lowered.self == s.self
    requires NonNegative(lowered.balances) && 0 <= lowered.revenue
    requires Total(lowered.balances) + lowered.revenue == Total(s.balances) + s.revenue - amount
    ensures SolventAfter(s, PayOut(lowered, to, amount).value, if to == s.self then amount else 0)
  {
    PayOutKeeps(lowered, to, amount);
  }

  lemma WithdrawSolvent(s: State, auths: set<Address>, user: Address, amount: int)
    requires Solvent(s) && DoWithdraw(s, auths, user, amount).Ok?
    ensures SolventAfter(s, DoWithdraw(s, auths, user, amount).value, if user == s.self then amount else 0)
  {
    TotalUpdate(s.balances, user, Get(s.balances, user) - amount);
    ClaimPaidSolvent(s, s.(balances := s.balances[user := Get(s.balances, user) - amount]), user, amount);
  }

  lemma ChargeSolvent(s: State, auths: set<Address>, time: nat, user: Address, amount: int, q: string)
    requires Solvent(s) && DoCharge(s, auths, time, user, amount, q).Ok?
    ensures SolventAfter(s, DoCharge(s, auths, time, user, amount, q).value, 0)
  {
    TotalUpdate(s.balances, user, Get(s.balances, user) - amount);
  }

  lemma RefundSolvent(s: State, auths: set<Address>, user: Address, amount: int, q: string)
    requires Solvent(s) && DoRefund(s, auths, user, amount, q).Ok?
    ensures SolventAfter(s, DoRefund(s, auths, user, amount, q).value, if user == s.self then amount else 0)
  {
    TotalUpdate(s.balances, user, Get(s.balances, user) - amount);
    ClaimPaidSolvent(s, s.(refunded := s.refunded + {(user, q)},
                           balances := s.balances[user := Get(s.balances, user) - amount]), user, amount);
  }

  lemma WithdrawRevenueSolvent(s: State, auths: set<Address>, to: Address, amount: int)
    requires Solvent(s) && DoWithdrawRevenue(s, auths, to, amount).Ok?
    ensures SolventAfter(s, DoWithdrawRevenue(s, auths, to, amount).value, if to == s.self then amount else 0)
  {
    ClaimPaidSolvent(s, s.(revenue := s.revenue - amount), to, amount);
  }

  lemma TokenTransferSolvent(s: State, auths: set<Address>, from: Address, to: Address, amount: int)
    requires Solvent(s) && DoTokenTransfer(s, auths, from, to, amount).Ok?
    ensures SolventAfter(s, DoTokenTransfer(s, auths, from, to, amount).value, if to == s.self then amount else 0)
  {
    TransferConserves(s.ledger, from, to, amount);
  }

  /** One transaction keeps solvency and changes the surplus by the donation alone. */
  lemma StepSolvent(s: State, tx: Tx)
    requires Solvent(s)
    ensures SolventAfter(s, Step(s, tx), Donation(s, tx))
  {
    if Exec(s, tx).Ok? {
      match tx.call
      case Deposit(user, amount) => DepositSolvent(s, tx.auths, user, amount);
      case Withdraw(user, amount) => WithdrawSolvent(s, tx.auths, user, amount);
      case Charge(user, amount, q) => ChargeSolvent(s, tx.auths, tx.time, user, amount, q);
      case Refund(user, amount, q) => RefundSolvent(s, tx.auths, user, amount, q);
      case WithdrawRevenue(to, amount) => WithdrawRevenueSolvent(s, tx.auths, to, amount);
      case TokenTransfer(from, to, amount) => TokenTransferSolvent(s, tx.auths, from, to, amount);
      case TokenMint(to, amount) => MintAdds(s.ledger, to, amount);
      case _ =>
    }
  }

  /** Solvency over every run: what the contract holds always covers all balances plus the
      revenue, and the difference is exactly the tokens donated to it. */
  lemma {:induction false} RunSolvent(s: State, txs: seq<Tx>)
    requires Solvent(s)
    ensures Solvent(Run(s, txs))
    ensures Surplus(Run(s, txs)) == Surplus(s) + Donations(s, txs)
    ensures 0 <= Donations(s, txs)
    decreases |txs|
  {
    if txs != [] {
      StepSolvent(s, txs[0]);
      RunSolvent(Step(s, txs[0]), txs[1..]);
    }
  }

  /** A transaction that cannot hand the contract tokens except by a deposit. */
  predicate NamesOthers(self: Address, tx: Tx) {
    match tx.call
    case Withdraw(user, _) => user != self
    case Refund(user, _, _) => user != self
    case WithdrawRevenue(destination, _) => destination != self
    case TokenTransfer(_, to, _) => to != self
    case TokenMint(to, _) => to != self
    case _ => true
  }

  lemma {:induction false} NoDonations(s: State, txs: seq<Tx>)
    requires forall i | 0 <= i < |txs| :: NamesOthers(s.self, txs[i])
    ensures Donations(s, txs) == 0
    decreases |txs|
  {
    if txs != [] {
      assert NamesOthers(s.self, txs[0]);
      assert forall i | 0 <= i < |txs[1..]| :: txs[1..][i] == txs[i + 1];
      NoDonations(Step(s, txs[0]), txs[1..]);
    }
  }

  /** The accounting equation the repository samples with random walks, for every run, any
      number of users and any interleaving: holdings == sum of balances + revenue. */
  lemma AccountingEquation(s: State, txs: seq<Tx>)
    requires Deployed(s) && Get(s.ledger, s.self) == 0
    requires forall i | 0 <= i < |txs| :: NamesOthers(s.self, txs[i])
    ensures var e := Run(s, txs);
            && Get(e.ledger, e.self) == Total(e.balances) + e.revenue
            && NonNegative(e.balances) && 0 <= e.revenue
  {
    RunSolvent(s, txs);
    NoDonations(s, txs);
  }

  // ---------------------------------------------------------------------------------------
  // When calls succeed

  lemma PayOutSucceeds(s: State, to: Address, amount: int)
    requires Sound(s.ledger) && 0 < amount <= Get(s.ledger, s.self)
    ensures PayOut(s, to, amount).Ok?
  {
    TransferSucceedsIff(s.ledger, s.self, to, amount);
  }

  ghost predicate AdminCall(s: State, tx: Tx) {
    s.admin in tx.auths && s.admin != s.self && !s.paused
  }

  /** In a solvent state a call commits exactly when its own guards hold: no payout fails for
      lack of tokens and no balance or revenue addition overflows. */
  lemma SucceedsExactlyWhenGuarded(s: State, tx: Tx)
    requires Solvent(s)
    ensures match tx.call
      case Deposit(user, amount) =>
        Exec(s, tx).Ok? <==> user in tx.auths && user != s.self && !s.paused
                             && 0 < amount <= Get(s.ledger, user)
      case Withdraw(user, amount) =>
        Exec(s, tx).Ok? <==> user in tx.auths && user != s.self && !s.paused
                             && 0 < amount <= Get(s.balances, user)
      case Charge(user, amount, q) =>
        Exec(s, tx).Ok? <==> AdminCall(s, tx) && 0 < amount <= Get(s.balances, user)
                             && (user, q) !in s.charged && Get(s.usageCount, user) < U32_MAX
      case Refund(user, amount, q) =>
        Exec(s, tx).Ok? <==> AdminCall(s, tx) && 0 < amount <= Get(s.balances, user)
                             && (user, q) !in s.refunded
      case WithdrawRevenue(_, amount) =>
        Exec(s, tx).Ok? <==> AdminCall(s, tx) && 0 < amount <= s.revenue
      case _ => true
    ensures Exec(s, tx) != Panic(Overflow)
    ensures Exec(s, tx) == Panic(TokenRefused) ==>
              tx.call.Deposit? || tx.call.TokenTransfer? || tx.call.TokenMint?
  {
    EntriesBelowTotal(s.ledger, s.self, s.self);
    match tx.call
    case Deposit(user, amount) =>
      TransferSucceedsIff(s.ledger, user, s.self, amount);
      EntriesBelowTotal(s.ledger, s.self, user);
      EntriesBelowTotal(s.balances, user, user);
    case Withdraw(user, amount) =>
      EntriesBelowTotal(s.balances, user, user);
      if 0 < amount <= Get(s.balances, user) {
        PayOutSucceeds(s.(balances := s.balances[user := Get(s.balances, user) - amount]), user, amount);
      }
    case Charge(user, amount, q) =>
      EntriesBelowTotal(s.balances, user, user);
    case Refund(user, amount, q) =>
      EntriesBelowTotal(s.balances, user, user);
      if 0 < amount <= Get(s.balances, user) {
        PayOutSucceeds(s.(refunded := s.refunded + {(user, q)},
                          balances := s.balances[user := Get(s.balances, user) - amount]), user, amount);
      }
    case WithdrawRevenue(destination, amount) =>
      SumNonNegative(s.balances.Keys, s.balances);
      if 0 < amount <= s.revenue {
        PayOutSucceeds(s.(revenue := s.revenue - amount), destination, amount);
      }
    case _ =>
  }

  /** The same for the remaining calls. */
  lemma OthersSucceedWhenGuarded(s: State, tx: Tx)
    requires Solvent(s)
    ensures tx.call.SetAdmin? || tx.call.SetPaused? ==>
              (Exec(s, tx).Ok? <==> s.admin in tx.auths && s.admin != s.self)
    ensures tx.call.TokenTransfer? ==>
              (Exec(s, tx).Ok? <==> tx.call.from in tx.auths && tx.call.from != s.self
                                    && 0 <= tx.call.amount <= Get(s.ledger, tx.call.from))
    ensures tx.call.TokenMint? ==> (Exec(s, tx).Ok? <==> 0 <= tx.call.amount <= I128_MAX - Total(s.ledger))
  {
    if tx.call.TokenTransfer? {
      TransferSucceedsIff(s.ledger, tx.call.from, tx.call.to, tx.call.amount);
    }
  }

  // ---------------------------------------------------------------------------------------
  // Who may do what

  /** The administrator changes only by the current one's own call, to the address it names; the
      pause flag likewise; and such a call changes nothing else. */
  lemma OnlyAdminConfigures(s: State, tx: Tx)
    ensures var s' := Step(s, tx);
            && (s'.admin != s.admin ==> tx.call == SetAdmin(s'.admin) && s.admin in tx.auths)
            && (s'.paused != s.paused ==> tx.call == SetPaused(s'.paused) && s.admin in tx.auths)
            && (s.admin in tx.auths && s.admin != s.self ==>
                  && (tx.call.SetAdmin? ==> s' == s.(admin := tx.call.newAdmin))
                  && (tx.call.SetPaused? ==> s' == s.(paused := tx.call.flag)))
  {
    if Exec(s, tx).Ok? {
      var s' := Exec(s, tx).value;
      match tx.call
      case SetAdmin(newAdmin) => assert s'.paused == s.paused;
      case SetPaused(flag) => assert s'.admin == s.admin;
      case _ => assert s'.admin == s.admin && s'.paused == s.paused;
    }
  }

  /** Everything the contract stores, apart from its configuration and the token ledger. */
  ghost predicate SameBooks(s: State, s': State) {
    && s'.self == s.self && s'.balances == s.balances && s'.revenue == s.revenue
    && s'.usageCount == s.usageCount && s'.usage == s.usage
    && s'.charged == s.charged && s'.refunded == s.refunded
  }

  lemma PausedStep(s: State, tx: Tx)
    requires Solvent(s) && s.paused && tx.call != SetPaused(false)
    ensures Step(s, tx).paused && SameBooks(s, Step(s, tx))
    ensures Get(s.ledger, s.self) <= Get(Step(s, tx).ledger, s.self)
  {
    StepSolvent(s, tx);
  }

  /** While the contract is paused no run changes a balance, the revenue, a log or a guard, and
      no token leaves the contract. */
  lemma {:induction false} PausedFreezes(s: State, txs: seq<Tx>)
    requires Solvent(s) && s.paused
    requires forall i | 0 <= i < |txs| :: txs[i].call != SetPaused(false)
    ensures Run(s, txs).paused && SameBooks(s, Run(s, txs))
    ensures Get(s.ledger, s.self) <= Get(Run(s, txs).ledger, s.self)
    decreases |txs|
  {
    if txs != [] {
      PausedStep(s, txs[0]);
      StepSolvent(s, txs[0]);
      assert forall i | 0 <= i < |txs[1..]| :: txs[1..][i] == txs[i + 1];
      PausedFreezes(Step(s, txs[0]), txs[1..]);
    }
  }

  // ---------------------------------------------------------------------------------------
  // Conservation per user and of revenue

  datatype Flow = Flow(deposited: int, withdrawn: int, charged: int, refunded: int)

  ghost function FlowOf(s: State, tx: Tx, u: Address): Flow {
    if Exec(s, tx).Panic? then Flow(0, 0, 0, 0)
    else match tx.call
      case Deposit(user, amount) => Flow(if user == u then amount else 0, 0, 0, 0)
      case Withdraw(user, amount) => Flow(0, if user == u then amount else 0, 0, 0)
      case Charge(user, amount, _) => Flow(0, 0, if user == u then amount else 0, 0)
      case Refund(user, amount, _) => Flow(0, 0, 0, if user == u then amount else 0)
      case _ => Flow(0, 0, 0, 0)
  }

  ghost function Flows(s: State, txs: seq<Tx>, u: Address): Flow
    decreases |txs|
  {
    if txs == [] then Flow(0, 0, 0, 0)
    else
      var f := FlowOf(s, txs[0], u);
      var g := Flows(Step(s, txs[0]), txs[1..], u);
      Flow(f.deposited + g.deposited, f.withdrawn + g.withdrawn,
           f.charged + g.charged, f.refunded + g.refunded)
  }

  ghost function RevenueWithdrawn(s: State, txs: seq<Tx>): int
    decreases |txs|
  {
    if txs == [] then 0
    else
      (if txs[0].call.WithdrawRevenue? && Exec(s, txs[0]).Ok? then txs[0].call.amount else 0)
      + RevenueWithdrawn(Step(s, txs[0]), txs[1..])
  }

  ghost function Amounts(usage: map<(Address, int), UsageEvent>): map<(Address, int), int> {
    map k | k in usage :: usage[k].amount
  }

  /** The sum of the amounts in all users' usage logs. */
  ghost function Logged(s: State): int {
    Total(Amounts(s.usage))
  }

  ghost function SumAmounts(log: seq<UsageEvent>): int {
    if log == [] then 0 else SumAmounts(log[..|log| - 1]) + log[|log| - 1].amount
  }

  lemma StepUserConservation(s: State, tx: Tx, u: Address)
    ensures var f := FlowOf(s, tx, u);
            Get(s.balances, u) + f.deposited
            == Get(Step(s, tx).balances, u) + f.withdrawn + f.charged + f.refunded
  {
    if Exec(s, tx).Ok? {
      match tx.call
      case Deposit(user, amount) =>
        assert DoDeposit(s, tx.auths, user, amount).value.balances
               == s.balances[user := Get(s.balances, user) + amount];
      case Withdraw(user, amount) =>
        assert DoWithdraw(s, tx.auths, user, amount).value.balances
               == s.balances[user := Get(s.balances, user) - amount];
      case Charge(user, amount, q) =>
        assert DoCharge(s, tx.auths, tx.time, user, amount, q).value.balances
               == s.balances[user := Get(s.balances, user) - amount];
      case Refund(user, amount, q) =>
        assert DoRefund(s, tx.auths, user, amount, q).value.balances
               == s.balances[user := Get(s.balances, user) - amount];
      case WithdrawRevenue(to, amount) =>
        assert DoWithdrawRevenue(s, tx.auths, to, amount).value.balances == s.balances;
      case _ =>
    }
  }

  /** Per user, what went in is what went out plus the balance. */
  lemma {:induction false} UserConservation(s: State, txs: seq<Tx>, u: Address)
    ensures var f := Flows(s, txs, u);
            Get(s.balances, u) + f.deposited
            == Get(Run(s, txs).balances, u) + f.withdrawn + f.charged + f.refunded
    decreases |txs|
  {
    if txs != [] {
      StepUserConservation(s, txs[0], u);
      UserConservation(Step(s, txs[0]), txs[1..], u);
    }
  }

  // ---------------------------------------------------------------------------------------
  // The usage log

  lemma ChargeDense(s: State, auths: set<Address>, time: nat, v: Address, amount: int, q: string, u: Address)
    requires Dense(s, u) && Dense(s, v) && DoCharge(s, auths, time, v, amount, q).Ok?
    ensures var s' := DoCharge(s, auths, time, v, amount, q).value;
            && Dense(s', u)
            && Log(s', u) == Log(s, u) + (if u == v then [UsageEvent(v, amount, q, time)] else [])
  {
    var s' := DoCharge(s, auths, time, v, amount, q).value;
    var n := Get(s.usageCount, v);
    assert forall i :: (u, i) in s'.usage <==> (u, i) in s.usage || (u == v && i == n);
  }

  lemma ChargeGuards(s: State, auths: set<Address>, time: nat, v: Address, amount: int, q: string, u: Address)
    requires LogOk(s, u) && Dense(s, v) && DoCharge(s, auths, time, v, amount, q).Ok?
    ensures LogOk(DoCharge(s, auths, time, v, amount, q).value, u)
  {
    ChargeDense(s, auths, time, v, amount, q, u);
    var s' := DoCharge(s, auths, time, v, amount, q).value;
    var log, log' := Log(s, u), Log(s', u);
    assert forall i | 0 <= i < |log| :: log'[i] == log[i];
    forall p | (u, p) in s'.charged
      ensures exists i :: 0 <= i < |log'| && log'[i].quoteId == p
    {
      if (u, p) in s.charged {
        var i :| 0 <= i < |log| && log[i].quoteId == p;
        assert log'[i].quoteId == p;
      } else {
        assert log'[|log|].quoteId == p;
      }
    }
  }

  /** The event a transaction adds to `u`'s log, if any: the charge it committed. */
  ghost function Added(s: State, tx: Tx, u: Address): seq<UsageEvent> {
    if tx.call.Charge? && tx.call.user == u && Exec(s, tx).Ok?
    then [UsageEvent(u, tx.call.amount, tx.call.quoteId, tx.time)] else []
  }

  ghost predicate SameLogs(s: State, s': State) {
    s'.usage == s.usage && s'.usageCount == s.usageCount && s'.charged == s.charged
  }

  lemma OthersKeepLogs(s: State, tx: Tx)
    requires !(tx.call.Charge? && Exec(s, tx).Ok?)
    ensures SameLogs(s, Step(s, tx))
  {
    if Exec(s, tx).Ok? {
      match tx.call
      case Deposit(user, amount) => assert SameLogs(s, DoDeposit(s, tx.auths, user, amount).value);
      case Withdraw(user, amount) => assert SameLogs(s, DoWithdraw(s, tx.auths, user, amount).value);
      case Refund(user, amount, q) => assert SameLogs(s, DoRefund(s, tx.auths, user, amount, q).value);
      case WithdrawRevenue(to, amount) => assert SameLogs(s, DoWithdrawRevenue(s, tx.auths, to, amount).value);
      case _ =>
    }
  }

  lemma SameLogsOk(s: State, s': State, u: Address)
    requires LogOk(s, u) && SameLogs(s, s')
    ensures LogOk(s', u) && Log(s', u) == Log(s, u)
  {
    assert Log(s', u) == Log(s, u);
  }

  /** A transaction leaves `u`'s log alone or appends the charge it committed. */
  lemma StepLog(s: State, tx: Tx, u: Address)
    requires History(s) && LogOk(s, u)
    ensures LogOk(Step(s, tx), u)
    ensures Log(Step(s, tx), u) == Log(s, u) + Added(s, tx, u)
  {
    var s' := Step(s, tx);
    if tx.call.Charge? && Exec(s, tx).Ok? {
      assert LogOk(s, tx.call.user);
      ChargeDense(s, tx.auths, tx.time, tx.call.user, tx.call.amount, tx.call.quoteId, u);
      ChargeGuards(s, tx.auths, tx.time, tx.call.user, tx.call.amount, tx.call.quoteId, u);
    } else {
      OthersKeepLogs(s, tx);
      SameLogsOk(s, s', u);
    }
  }

  lemma StepHistory(s: State, tx: Tx)
    requires History(s)
    ensures History(Step(s, tx))
  {
    forall u ensures LogOk(Step(s, tx), u) {
      StepLog(s, tx, u);
    }
  }

  lemma DeployedIsGood(s: State)
    requires Deployed(s)
    ensures Solvent(s) && History(s)
  {
    EntriesBelowTotal(s.ledger, s.self, s.self);
  }

  lemma SumAmountsConcat(log: seq<UsageEvent>, added: seq<UsageEvent>)
    requires |added| <= 1
    ensures SumAmounts(log + added) == SumAmounts(log) + SumAmounts(added)
  {
    if added == [] {
      assert log + added == log;
    } else {
      assert (log + added)[..|log + added| - 1] == log;
      assert added[..0] == [];
    }
  }

  lemma AddedIsFlow(s: State, tx: Tx, u: Address)
    ensures |Added(s, tx, u)| <= 1
    ensures SumAmounts(Added(s, tx, u)) == FlowOf(s, tx, u).charged
  {
    var added := Added(s, tx, u);
    assert added != [] ==> added[..|added| - 1] == [];
  }

  /** Over every run each user's log stays dense, only grows at its end, and names exactly the
      quotes under a CHARGED guard, each once; what it gained is what the user was charged. */
  lemma {:induction false} RunLog(s: State, txs: seq<Tx>, u: Address)
    requires History(s) && LogOk(s, u)
    ensures var e := Run(s, txs);
            && History(e) && LogOk(e, u)
            && Log(s, u) <= Log(e, u)
            && SumAmounts(Log(e, u)) == SumAmounts(Log(s, u)) + Flows(s, txs, u).charged
    decreases |txs|
  {
    if txs != [] {
      var s' := Step(s, txs[0]);
      StepHistory(s, txs[0]);
      StepLog(s, txs[0], u);
      AddedIsFlow(s, txs[0], u);
      SumAmountsConcat(Log(s, u), Added(s, txs[0], u));
      RunLog(s', txs[1..], u);
    }
  }

  /** Every reachable state is solvent and has readable logs. */
  lemma RunFromDeployment(s: State, txs: seq<Tx>, u: Address)
    requires Deployed(s)
    ensures Solvent(Run(s, txs)) && History(Run(s, txs)) && Dense(Run(s, txs), u)
  {
    DeployedIsGood(s);
    RunSolvent(s, txs);
    assert LogOk(s, u);
    RunLog(s, txs, u);
  }

  lemma ChargeLogs(s: State, auths: set<Address>, time: nat, user: Address, amount: int, q: string)
    requires LogOk(s, user) && DoCharge(s, auths, time, user, amount, q).Ok?
    ensures var s' := DoCharge(s, auths, time, user, amount, q).value;
            s'.revenue == s.revenue + amount && Logged(s') == Logged(s) + amount
  {
    var s' := DoCharge(s, auths, time, user, amount, q).value;
    var key := (user, Get(s.usageCount, user));
    assert key !in s.usage;
    TotalUpdate(Amounts(s.usage), key, amount);
    assert Amounts(s'.usage) == Amounts(s.usage)[key := amount];
  }

  lemma OthersKeepRevenue(s: State, tx: Tx)
    requires !(tx.call.Charge? && Exec(s, tx).Ok?)
    ensures Step(s, tx).revenue ==
            s.revenue - (if tx.call.WithdrawRevenue? && Exec(s, tx).Ok? then tx.call.amount else 0)
  {
    if Exec(s, tx).Ok? {
      match tx.call
      case Deposit(user, amount) => assert DoDeposit(s, tx.auths, user, amount).value.revenue == s.revenue;
      case Withdraw(user, amount) => assert DoWithdraw(s, tx.auths, user, amount).value.revenue == s.revenue;
      case Refund(user, amount, q) => assert DoRefund(s, tx.auths, user, amount, q).value.revenue == s.revenue;
      case WithdrawRevenue(to, amount) =>
        assert DoWithdrawRevenue(s, tx.auths, to, amount).value.revenue == s.revenue - amount;
      case _ =>
    }
  }

  lemma StepRevenue(s: State, tx: Tx)
    requires History(s)
    ensures Step(s, tx).revenue - Logged(Step(s, tx)) ==
            s.revenue - Logged(s)
            - (if tx.call.WithdrawRevenue? && Exec(s, tx).Ok? then tx.call.amount else 0)
  {
    if tx.call.Charge? && Exec(s, tx).Ok? {
      assert LogOk(s, tx.call.user);
      ChargeLogs(s, tx.auths, tx.time, tx.call.user, tx.call.amount, tx.call.quoteId);
    } else {
      OthersKeepLogs(s, tx);
      OthersKeepRevenue(s, tx);
    }
  }

  /** Every unit of revenue, withdrawn or not, is an amount in some user's usage log. */
  lemma {:induction false} RevenueIsLogged(s: State, txs: seq<Tx>)
    requires History(s)
    ensures History(Run(s, txs))
    ensures Run(s, txs).revenue + RevenueWithdrawn(s, txs) - s.revenue == Logged(Run(s, txs)) - Logged(s)
    decreases |txs|
  {
    if txs != [] {
      StepRevenue(s, txs[0]);
      StepHistory(s, txs[0]);
      RevenueIsLogged(Step(s, txs[0]), txs[1..]);
    }
  }
}
