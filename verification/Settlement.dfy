/** Settlement of metered quotes against the escrow: any number of quotes of any users, their
    charges and refunds in any order. */
module Settlement {
  import opened Wrappers
  import opened Soroban
  import opened Sums
  import opened BigInts
  import opened Quotes
  import opened EscrowSpec
  import opened EscrowProofs
  import opened EscrowEffects

  /** A per-token quote of `user` after `tokens` tokens were used. */
  datatype Usage = Usage(user: Address, quote: Quote, options: Options, tokens: int)

  /** The quote came from `generateQuote`, at a price of at least one stroop, and the usage
      stayed within the estimate. */
  ghost predicate WithinEstimate(u: Usage) {
    && Metered(u.options.route)
    && Parse(u.options.route.perTokenPrice).Some? && 1 <= Parse(u.options.route.perTokenPrice).value
    && 0 < u.tokens <= Estimate(u.options)
    && exists id, now :: QuoteFor(u.options, id, now) == Some(u.quote)
  }

  function Cost(u: Usage): int {
    match CalculatePrice(u.options.route, u.tokens)
    case None => 0
    case Some(text) => match Parse(text) { case None => 0 case Some(cost) => cost }
  }

  function Quoted(u: Usage): int {
    match Parse(u.quote.amount)
    case None => 0
    case Some(amount) => amount
  }

  function Price(u: Usage): int {
    match Parse(u.options.route.perTokenPrice)
    case None => 0
    case Some(price) => price
  }

  /** The metered cost is price times tokens, as an exact number. */
  lemma CostIsMetered(u: Usage)
    requires WithinEstimate(u)
    ensures CalculatePrice(u.options.route, u.tokens).Some?
    ensures Parse(CalculatePrice(u.options.route, u.tokens).value) == Some(Cost(u))
    ensures Cost(u) == Price(u) * u.tokens && 1 <= Cost(u)
  {
    ParseToString(Price(u) * u.tokens);
    MulMono(Price(u), 1, u.tokens);
  }

  lemma QuotedIsListedOrMore(options: Options, listed: int)
    requires ListedAmount(options) == Some(ToString(listed)) && QuotedAmount(options).Some?
    ensures Parse(QuotedAmount(options).value).Some? && listed <= Parse(QuotedAmount(options).value).value
  {
    ParseToString(listed);
    if options.minPaymentAmount != "" {
      ParseToString(Parse(options.minPaymentAmount).value);
    }
  }

  /** The quote asks for at least the price of the whole estimate. */
  lemma QuoteCoversEstimate(u: Usage)
    requires WithinEstimate(u)
    ensures Parse(u.quote.amount) == Some(Quoted(u)) && Price(u) * Estimate(u.options) <= Quoted(u)
  {
    QuotedIsListedOrMore(u.options, Price(u) * Estimate(u.options));
  }

  lemma CostWithinQuote(u: Usage)
    requires WithinEstimate(u)
    ensures 1 <= Cost(u) <= Quoted(u)
  {
    CostIsMetered(u);
    QuoteCoversEstimate(u);
    MulMono(Price(u), u.tokens, Estimate(u.options));
  }

  lemma AmountsParse(u: Usage)
    requires WithinEstimate(u)
    ensures CalculatePrice(u.options.route, u.tokens).Some?
    ensures Parse(CalculatePrice(u.options.route, u.tokens).value) == Some(Cost(u))
    ensures Parse(u.quote.amount) == Some(Quoted(u))
  {
    CostIsMetered(u);
    QuoteCoversEstimate(u);
  }

  lemma CompareCovered(u: Usage, cost: string)
    requires Parse(cost) == Some(Cost(u)) && Parse(u.quote.amount) == Some(Quoted(u)) && Cost(u) <= Quoted(u)
    ensures ComparePayment(u.quote.amount, cost)
            == Some(Comparison(ToString(Quoted(u) - Cost(u)), Cost(u) < Quoted(u), false))
  {
    CompareNumbers(u.quote.amount, cost, Quoted(u), Cost(u));
  }

  /** A quote never asks for less than the tokens cost: the caller is never underpaid, and the
      surplus is what the quote exceeds the cost by. */
  lemma NeverUnderpaid(u: Usage)
    requires WithinEstimate(u)
    ensures CalculatePrice(u.options.route, u.tokens).Some?
    ensures ComparePayment(u.quote.amount, CalculatePrice(u.options.route, u.tokens).value)
            == Some(Comparison(ToString(Quoted(u) - Cost(u)), Cost(u) < Quoted(u), false))
  {
    AmountsParse(u);
    CostWithinQuote(u);
    CompareCovered(u, CalculatePrice(u.options.route, u.tokens).value);
  }

  /** Amounts the contract can be called with. */
  predicate Payable(u: Usage) {
    1 <= Cost(u) <= Quoted(u) <= I128_MAX
  }

  /** `settleEscrow`: charge the cost, then refund what is left of the quote, if anything. */
  function SettlementCalls(u: Usage): seq<Call>
    requires Payable(u)
  {
    [Charge(u.user, Cost(u), u.quote.id)]
    + (if Cost(u) < Quoted(u) then [Refund(u.user, Quoted(u) - Cost(u), u.quote.id)] else [])
  }

  ghost predicate AllPayable(us: seq<Usage>) {
    forall i | 0 <= i < |us| :: Payable(us[i])
  }

  ghost function AllCalls(us: seq<Usage>): seq<Call>
    requires AllPayable(us)
  {
    if us == [] then [] else SettlementCalls(us[0]) + AllCalls(us[1..])
  }

  // ---------------------------------------------------------------------------------------
  // Sums over lists of calls do not depend on the order

  ghost function SumOf<T(!new)>(xs: seq<T>, f: T -> int): int {
    if xs == [] then 0 else f(xs[0]) + SumOf(xs[1..], f)
  }

  lemma {:induction false} SumConcat<T(!new)>(xs: seq<T>, ys: seq<T>, f: T -> int)
    ensures SumOf(xs + ys, f) == SumOf(xs, f) + SumOf(ys, f)
    decreases |xs|
  {
    if xs == [] {
      assert xs + ys == ys;
    } else {
      assert (xs + ys)[1..] == xs[1..] + ys;
      SumConcat(xs[1..], ys, f);
    }
  }

  lemma SumCons<T(!new)>(x: T, xs: seq<T>, f: T -> int)
    ensures SumOf([x] + xs, f) == f(x) + SumOf(xs, f)
  {
    assert ([x] + xs)[1..] == xs;
  }

  lemma SumWithout<T(!new)>(ys: seq<T>, i: nat, f: T -> int)
    requires i < |ys|
    ensures SumOf(ys, f) == f(ys[i]) + SumOf(ys[..i] + ys[i + 1..], f)
  {
    assert ys == ys[..i] + ([ys[i]] + ys[i + 1..]);
    SumConcat(ys[..i], [ys[i]] + ys[i + 1..], f);
    SumCons(ys[i], ys[i + 1..], f);
    SumConcat(ys[..i], ys[i + 1..], f);
  }

  lemma MultisetWithout<T>(ys: seq<T>, i: nat)
    requires i < |ys|
    ensures multiset(ys[..i] + ys[i + 1..]) == multiset(ys) - multiset{ys[i]}
  {
    assert ys == ys[..i] + [ys[i]] + ys[i + 1..];
  }

  lemma BothWithout<T>(xs: seq<T>, ys: seq<T>, i: nat)
    requires xs != [] && i < |ys| && ys[i] == xs[0] && multiset(xs) == multiset(ys)
    ensures multiset(xs[1..]) == multiset(ys[..i] + ys[i + 1..])
  {
    MultisetWithout(xs, 0);
    MultisetWithout(ys, i);
    assert xs[..0] + xs[1..] == xs[1..];
  }

  lemma Locate<T>(xs: seq<T>, ys: seq<T>) returns (i: nat)
    requires xs != [] && multiset(xs) == multiset(ys)
    ensures i < |ys| && ys[i] == xs[0]
  {
    assert xs[0] in multiset(ys);
    i :| 0 <= i < |ys| && ys[i] == xs[0];
  }

  lemma {:induction false} SumPermuted<T(!new)>(xs: seq<T>, ys: seq<T>, f: T -> int)
    requires multiset(xs) == multiset(ys)
    ensures SumOf(xs, f) == SumOf(ys, f)
    decreases |xs|
  {
    if xs == [] {
      assert |multiset(ys)| == 0;
    } else {
      var i := Locate(xs, ys);
      BothWithout(xs, ys, i);
      SumPermuted(xs[1..], ys[..i] + ys[i + 1..], f);
      SumWithout(ys, i, f);
    }
  }

  // ---------------------------------------------------------------------------------------
  // Measures of a call

  predicate IsDraw(c: Call) {
    c.Charge? || c.Refund?
  }

  /** The idempotency guard a draw sets. */
  datatype Guard = Guard(isRefund: bool, user: Address, quoteId: string)

  function GuardOf(c: Call): Guard
    requires IsDraw(c)
  {
    Guard(c.Refund?, c.user, c.quoteId)
  }

  predicate Guarded(s: State, g: Guard) {
    if g.isRefund then (g.user, g.quoteId) in s.refunded else (g.user, g.quoteId) in s.charged
  }

  function Has(g: Guard): Call -> int {
    (c: Call) => if IsDraw(c) && GuardOf(c) == g then 1 else 0
  }

  function Draws(a: Address): Call -> int {
    (c: Call) => if IsDraw(c) && c.user == a then c.amount else 0
  }

  function Counts(a: Address): Call -> int {
    (c: Call) => if c.Charge? && c.user == a then 1 else 0
  }

  function Charges(): Call -> int {
    (c: Call) => if c.Charge? then c.amount else 0
  }

  function Refunds(): Call -> int {
    (c: Call) => if c.Refund? then c.amount else 0
  }

  function RefundsTo(a: Address): Call -> int {
    (c: Call) => if c.Refund? && c.user == a then c.amount else 0
  }

  // ---------------------------------------------------------------------------------------
  // Any list of draws whose guards are fresh and distinct and whose amounts are covered

  /** A draw on the balance of one of `users`. */
  predicate DrawsOn(users: set<Address>, c: Call) {
    (c.Charge? || c.Refund? || c.Withdraw?) && c.user in users
  }

  ghost predicate ProperDraw(s: State, users: set<Address>, c: Call) {
    IsDraw(c) && 0 < c.amount && c.user in users && c.user != s.self
  }

  /** Each guard of `users` is used at most once, by the past and the list together; each balance
      covers what the list draws from it; and the usage counters have room. */
  ghost predicate Covered(s: State, calls: seq<Call>, users: set<Address>) {
    && Solvent(s) && !s.paused
    && (forall i | 0 <= i < |calls| :: ProperDraw(s, users, calls[i]))
    && (forall g: Guard | g.user in users :: SumOf(calls, Has(g)) + (if Guarded(s, g) then 1 else 0) <= 1)
    && (forall a | a in users :: SumOf(calls, Draws(a)) <= Get(s.balances, a))
    && (forall a | a in users :: SumOf(calls, Counts(a)) + Get(s.usageCount, a) <= U32_MAX)
  }

  /** Anybody's call that leaves the administrator and the pause flag alone and draws on no
      balance of `users`. */
  ghost predicate Foreign(s: State, tx: Tx, users: set<Address>) {
    !DrawsOn(users, tx.call) && Step(s, tx).admin == s.admin && Step(s, tx).paused == s.paused
  }

  /** The run makes `calls` in this order and by the administrator, among any foreign calls. */
  ghost predicate Interleaved(s: State, txs: seq<Tx>, users: set<Address>, calls: seq<Call>)
    decreases |txs|
  {
    if txs == [] then calls == []
    else if DrawsOn(users, txs[0].call) then
      && calls != [] && calls[0] == txs[0].call && Authorised(txs[0].auths, s.admin, s.self)
      && Interleaved(Step(s, txs[0]), txs[1..], users, calls[1..])
    else Foreign(s, txs[0], users) && Interleaved(Step(s, txs[0]), txs[1..], users, calls)
  }

  /** Every draw of the run on a balance of `users` commits. */
  ghost predicate DrawsSucceed(s: State, txs: seq<Tx>, users: set<Address>)
    decreases |txs|
  {
    txs == []
    || (&& (DrawsOn(users, txs[0].call) ==> Exec(s, txs[0]).Ok?)
        && DrawsSucceed(Step(s, txs[0]), txs[1..], users))
  }

  /** What the foreign calls of a run did to the balance of `a`, to the revenue, to the tokens the
      contract holds and to those of `a`. */
  datatype Effect = Effect(balance: int, revenue: int, held: int, own: int)

  ghost function Change(s: State, tx: Tx, a: Address): Effect {
    var s' := Step(s, tx);
    Effect(Get(s'.balances, a) - Get(s.balances, a), s'.revenue - s.revenue,
           Get(s'.ledger, s.self) - Get(s.ledger, s.self), Get(s'.ledger, a) - Get(s.ledger, a))
  }

  ghost function Elsewhere(s: State, txs: seq<Tx>, users: set<Address>, a: Address): Effect
    decreases |txs|
  {
    if txs == [] then Effect(0, 0, 0, 0)
    else
      var rest := Elsewhere(Step(s, txs[0]), txs[1..], users, a);
      if DrawsOn(users, txs[0].call) then rest
      else
        var first := Change(s, txs[0], a);
        Effect(first.balance + rest.balance, first.revenue + rest.revenue, first.held + rest.held,
               first.own + rest.own)
  }

  lemma {:induction false} MeasuresNonNegative(calls: seq<Call>, a: Address)
    requires forall i | 0 <= i < |calls| :: IsDraw(calls[i]) && 0 < calls[i].amount
    ensures 0 <= SumOf(calls, Draws(a)) && 0 <= SumOf(calls, Counts(a))
    decreases |calls|
  {
    if calls != [] {
      MeasuresNonNegative(calls[1..], a);
    }
  }

  lemma {:induction false} HasNonNegative(calls: seq<Call>, g: Guard)
    ensures 0 <= SumOf(calls, Has(g))
    decreases |calls|
  {
    if calls != [] {
      HasNonNegative(calls[1..], g);
    }
  }

  /** What one draw does, spelled out. */
  lemma DrawEffect(s: State, tx: Tx)
    requires Solvent(s) && IsDraw(tx.call) && tx.call.user != s.self && Exec(s, tx).Ok?
    ensures var s' := Step(s, tx);
            && s'.self == s.self && s'.admin == s.admin && s'.paused == s.paused
            && s'.balances == s.balances[tx.call.user := Get(s.balances, tx.call.user) - tx.call.amount]
            && (forall a :: Get(s'.usageCount, a) == Get(s.usageCount, a) + Counts(a)(tx.call))
            && (forall g :: Guarded(s', g) <==> Guarded(s, g) || g == GuardOf(tx.call))
            && s'.revenue == s.revenue + Charges()(tx.call)
            && Get(s'.ledger, s.self) == Get(s.ledger, s.self) - Refunds()(tx.call)
            && (forall a | a != s.self :: Get(s'.ledger, a) == Get(s.ledger, a) + RefundsTo(a)(tx.call))
  {
    if tx.call.Refund? {
      PayOutKeeps(s.(refunded := s.refunded + {(tx.call.user, tx.call.quoteId)},
                     balances := s.balances[tx.call.user := Get(s.balances, tx.call.user) - tx.call.amount]),
                  tx.call.user, tx.call.amount);
      RefundEffect(s, tx);
    }
  }

  lemma FirstDraw(s: State, tx: Tx, calls: seq<Call>, users: set<Address>)
    requires calls != [] && calls[0] == tx.call && Covered(s, calls, users)
    requires Authorised(tx.auths, s.admin, s.self)
    ensures Exec(s, tx).Ok?
  {
    var a := tx.call.user;
    assert calls == [tx.call] + calls[1..];
    assert forall i | 0 <= i < |calls[1..]| :: calls[1..][i] == calls[i + 1];
    MeasuresNonNegative(calls[1..], a);
    HasNonNegative(calls[1..], GuardOf(tx.call));
    assert SumOf(calls, Draws(a)) == tx.call.amount + SumOf(calls[1..], Draws(a));
    assert SumOf(calls, Has(GuardOf(tx.call))) == 1 + SumOf(calls[1..], Has(GuardOf(tx.call)));
    assert SumOf(calls, Counts(a)) == Counts(a)(tx.call) + SumOf(calls[1..], Counts(a));
    assert !Guarded(s, GuardOf(tx.call));
    SucceedsExactlyWhenGuarded(s, tx);
  }

  lemma RestCovered(s: State, tx: Tx, calls: seq<Call>, users: set<Address>)
    requires calls != [] && calls[0] == tx.call && Covered(s, calls, users) && Exec(s, tx).Ok?
    ensures Covered(Step(s, tx), calls[1..], users)
  {
    var s', rest := Step(s, tx), calls[1..];
    DrawEffect(s, tx);
    StepSolvent(s, tx);
    assert forall i | 0 <= i < |rest| :: rest[i] == calls[i + 1];
    forall g: Guard | g.user in users ensures SumOf(rest, Has(g)) + (if Guarded(s', g) then 1 else 0) <= 1 {
      assert SumOf(calls, Has(g)) == Has(g)(tx.call) + SumOf(rest, Has(g));
    }
    forall a | a in users ensures SumOf(rest, Draws(a)) <= Get(s'.balances, a) {
      assert SumOf(calls, Draws(a)) == Draws(a)(tx.call) + SumOf(rest, Draws(a));
    }
    forall a | a in users ensures SumOf(rest, Counts(a)) + Get(s'.usageCount, a) <= U32_MAX {
      assert SumOf(calls, Counts(a)) == Counts(a)(tx.call) + SumOf(rest, Counts(a));
    }
  }

  /** A foreign call takes nothing from what the remaining draws need. */
  lemma ForeignKeepsCovered(s: State, tx: Tx, calls: seq<Call>, users: set<Address>)
    requires Covered(s, calls, users) && Foreign(s, tx, users)
    ensures Covered(Step(s, tx), calls, users) && Step(s, tx).self == s.self
    ensures forall g | Guarded(s, g) :: Guarded(Step(s, tx), g)
  {
    var s' := Step(s, tx);
    StepSolvent(s, tx);
    ForeignSpares(s, tx, users);
    forall i | 0 <= i < |calls| ensures ProperDraw(s', users, calls[i]) {
      assert ProperDraw(s, users, calls[i]);
    }
  }

  /** Balances of `users` are not lowered, and their logs and guards are as before. */
  ghost predicate Spares(s: State, s': State, users: set<Address>) {
    && s'.self == s.self
    && (forall a | a in users :: Get(s.balances, a) <= Get(s'.balances, a))
    && (forall a | a in users :: Get(s'.usageCount, a) == Get(s.usageCount, a))
    && (forall g: Guard | g.user in users :: Guarded(s', g) <==> Guarded(s, g))
    && (forall g | Guarded(s, g) :: Guarded(s', g))
  }

  lemma DepositSpares(s: State, auths: set<Address>, user: Address, amount: int, users: set<Address>)
    requires DoDeposit(s, auths, user, amount).Ok?
    ensures Spares(s, DoDeposit(s, auths, user, amount).value, users)
  {
    var s' := DoDeposit(s, auths, user, amount).value;
    assert s'.balances == s.balances[user := Get(s.balances, user) + amount];
    assert SameLogs(s, s') && s'.refunded == s.refunded;
  }

  lemma WithdrawSpares(s: State, auths: set<Address>, user: Address, amount: int, users: set<Address>)
    requires DoWithdraw(s, auths, user, amount).Ok? && user !in users
    ensures Spares(s, DoWithdraw(s, auths, user, amount).value, users)
  {
    var s' := DoWithdraw(s, auths, user, amount).value;
    assert s'.balances == s.balances[user := Get(s.balances, user) - amount];
    assert SameLogs(s, s') && s'.refunded == s.refunded;
  }

  lemma ChargeSpares(s: State, auths: set<Address>, time: nat, user: Address, amount: int, q: string,
                     users: set<Address>)
    requires DoCharge(s, auths, time, user, amount, q).Ok? && user !in users
    ensures Spares(s, DoCharge(s, auths, time, user, amount, q).value, users)
  {
  }

  lemma RefundSpares(s: State, auths: set<Address>, user: Address, amount: int, q: string, users: set<Address>)
    requires DoRefund(s, auths, user, amount, q).Ok? && user !in users
    ensures Spares(s, DoRefund(s, auths, user, amount, q).value, users)
  {
    var s' := DoRefund(s, auths, user, amount, q).value;
    assert s'.balances == s.balances[user := Get(s.balances, user) - amount];
    assert SameLogs(s, s') && s'.refunded == s.refunded + {(user, q)};
  }

  lemma SameBooksSpare(s: State, s': State, users: set<Address>)
    requires SameBooks(s, s'.(revenue := s.revenue))
    ensures Spares(s, s', users)
  {
  }

  lemma ForeignSpares(s: State, tx: Tx, users: set<Address>)
    requires Foreign(s, tx, users)
    ensures Spares(s, Step(s, tx), users)
  {
    if Exec(s, tx).Ok? {
      match tx.call
      case Deposit(user, amount) => DepositSpares(s, tx.auths, user, amount, users);
      case Withdraw(user, amount) => WithdrawSpares(s, tx.auths, user, amount, users);
      case Charge(user, amount, q) => ChargeSpares(s, tx.auths, tx.time, user, amount, q, users);
      case Refund(user, amount, q) => RefundSpares(s, tx.auths, user, amount, q, users);
      case WithdrawRevenue(to, amount) =>
        SameBooksSpare(s, DoWithdrawRevenue(s, tx.auths, to, amount).value, users);
      case _ => SameBooksSpare(s, Step(s, tx), users);
    }
  }

  /** The state after a list of draws: exactly what the list and the foreign calls say, and every
      guard set. */
  ghost predicate Drawn(s: State, e: State, calls: seq<Call>, txs: seq<Tx>, users: set<Address>) {
    && e.self == s.self && e.admin == s.admin && e.paused == s.paused && Solvent(e)
    && (forall a :: Get(e.balances, a)
                    == Get(s.balances, a) - SumOf(calls, Draws(a)) + Elsewhere(s, txs, users, a).balance)
    && e.revenue == s.revenue + SumOf(calls, Charges()) + Elsewhere(s, txs, users, s.self).revenue
    && Get(e.ledger, e.self)
       == Get(s.ledger, s.self) - SumOf(calls, Refunds()) + Elsewhere(s, txs, users, s.self).held
    && (forall a | a != s.self :: Get(e.ledger, a)
                    == Get(s.ledger, a) + SumOf(calls, RefundsTo(a)) + Elsewhere(s, txs, users, a).own)
    && (forall g | Guarded(s, g) :: Guarded(e, g))
    && (forall i | 0 <= i < |calls| && IsDraw(calls[i]) :: Guarded(e, GuardOf(calls[i])))
  }

  lemma DrawnFirst(s: State, txs: seq<Tx>, e: State, calls: seq<Call>, users: set<Address>)
    requires txs != [] && calls != [] && calls[0] == txs[0].call && DrawsOn(users, calls[0])
    requires IsDraw(calls[0]) && calls[0].user != s.self && Solvent(s) && Exec(s, txs[0]).Ok?
    requires Drawn(Step(s, txs[0]), e, calls[1..], txs[1..], users)
    ensures Drawn(s, e, calls, txs, users)
  {
    var tx, rest, s' := txs[0], calls[1..], Step(s, txs[0]);
    DrawEffect(s, tx);
    forall a ensures Get(e.balances, a)
                     == Get(s.balances, a) - SumOf(calls, Draws(a)) + Elsewhere(s, txs, users, a).balance {
      assert SumOf(calls, Draws(a)) == Draws(a)(tx.call) + SumOf(rest, Draws(a));
      assert Elsewhere(s, txs, users, a) == Elsewhere(s', txs[1..], users, a);
    }
    DrawnFirstOwn(s, txs, e, calls, users);
    assert Guarded(s', GuardOf(tx.call));
    forall i | 0 <= i < |calls| && IsDraw(calls[i]) ensures Guarded(e, GuardOf(calls[i])) {
      if i > 0 { assert calls[i] == rest[i - 1]; }
    }
  }

  lemma {:induction false} DrawnFirstOwn(s: State, txs: seq<Tx>, e: State, calls: seq<Call>, users: set<Address>)
    requires txs != [] && calls != [] && calls[0] == txs[0].call && DrawsOn(users, calls[0])
    requires IsDraw(calls[0]) && calls[0].user != s.self && Solvent(s) && Exec(s, txs[0]).Ok?
    requires Drawn(Step(s, txs[0]), e, calls[1..], txs[1..], users)
    ensures forall a | a != s.self :: Get(e.ledger, a)
                     == Get(s.ledger, a) + SumOf(calls, RefundsTo(a)) + Elsewhere(s, txs, users, a).own
  {
    var tx, rest, s' := txs[0], calls[1..], Step(s, txs[0]);
    DrawEffect(s, tx);
    forall a | a != s.self ensures Get(e.ledger, a)
                     == Get(s.ledger, a) + SumOf(calls, RefundsTo(a)) + Elsewhere(s, txs, users, a).own {
      assert SumOf(calls, RefundsTo(a)) == RefundsTo(a)(tx.call) + SumOf(rest, RefundsTo(a));
      assert Elsewhere(s, txs, users, a) == Elsewhere(s', txs[1..], users, a);
    }
  }

  lemma DrawnForeign(s: State, txs: seq<Tx>, e: State, calls: seq<Call>, users: set<Address>)
    requires txs != [] && Foreign(s, txs[0], users) && Covered(s, calls, users)
    requires Drawn(Step(s, txs[0]), e, calls, txs[1..], users)
    ensures Drawn(s, e, calls, txs, users)
  {
    var s' := Step(s, txs[0]);
    ForeignKeepsCovered(s, txs[0], calls, users);
    forall a ensures Get(e.balances, a)
                     == Get(s.balances, a) - SumOf(calls, Draws(a)) + Elsewhere(s, txs, users, a).balance {
      assert Elsewhere(s, txs, users, a).balance
             == Change(s, txs[0], a).balance + Elsewhere(s', txs[1..], users, a).balance;
    }
    forall a | a != s.self ensures Get(e.ledger, a)
                     == Get(s.ledger, a) + SumOf(calls, RefundsTo(a)) + Elsewhere(s, txs, users, a).own {
      assert Elsewhere(s, txs, users, a).own
             == Change(s, txs[0], a).own + Elsewhere(s', txs[1..], users, a).own;
    }
  }

  lemma {:induction false} CoveredDrawsSucceed(s: State, txs: seq<Tx>, calls: seq<Call>, users: set<Address>)
    requires Covered(s, calls, users) && Interleaved(s, txs, users, calls)
    ensures DrawsSucceed(s, txs, users) && Drawn(s, Run(s, txs), calls, txs, users)
    decreases |txs|
  {
    if txs != [] {
      var s' := Step(s, txs[0]);
      if DrawsOn(users, txs[0].call) {
        FirstDraw(s, txs[0], calls, users);
        DrawEffect(s, txs[0]);
        RestCovered(s, txs[0], calls, users);
        CoveredDrawsSucceed(s', txs[1..], calls[1..], users);
        DrawnFirst(s, txs, Run(s, txs), calls, users);
      } else {
        ForeignKeepsCovered(s, txs[0], calls, users);
        CoveredDrawsSucceed(s', txs[1..], calls, users);
        DrawnForeign(s, txs, Run(s, txs), calls, users);
      }
    }
  }

  /** Foreign calls change the balance of one of `users` by that user's deposits alone. */
  lemma {:induction false} OnlyDepositsElsewhere(s: State, txs: seq<Tx>, calls: seq<Call>, users: set<Address>,
                                                 a: Address)
    requires Interleaved(s, txs, users, calls) && a in users
    ensures Elsewhere(s, txs, users, a).balance == Flows(s, txs, a).deposited
    decreases |txs|
  {
    if txs != [] {
      StepUserConservation(s, txs[0], a);
      var rest := if DrawsOn(users, txs[0].call) then calls[1..] else calls;
      OnlyDepositsElsewhere(Step(s, txs[0]), txs[1..], rest, users, a);
    }
  }

  // ---------------------------------------------------------------------------------------
  // Usages

  function QuotedBy(a: Address): Usage -> int {
    (u: Usage) => if u.user == a then Quoted(u) else 0
  }

  function Costs(): Usage -> int {
    (u: Usage) => Cost(u)
  }

  function Surpluses(): Usage -> int {
    (u: Usage) => Quoted(u) - Cost(u)
  }

  function SurplusOf(a: Address): Usage -> int {
    (u: Usage) => if u.user == a then Quoted(u) - Cost(u) else 0
  }

  ghost predicate DistinctQuotes(us: seq<Usage>) {
    forall i, j | 0 <= i < j < |us| :: us[i].user != us[j].user || us[i].quote.id != us[j].quote.id
  }

  ghost predicate FreshQuotes(s: State, us: seq<Usage>) {
    forall i | 0 <= i < |us| ::
      (us[i].user, us[i].quote.id) !in s.charged && (us[i].user, us[i].quote.id) !in s.refunded
  }

  lemma SumTwo<T(!new)>(xs: seq<T>, f: T -> int)
    requires |xs| <= 2
    ensures SumOf(xs, f) == (if |xs| > 0 then f(xs[0]) else 0) + (if |xs| > 1 then f(xs[1]) else 0)
  {
  }

  lemma OneUsage(u: Usage, a: Address)
    requires Payable(u)
    ensures var cs := SettlementCalls(u);
            && SumOf(cs, Draws(a)) == QuotedBy(a)(u)
            && SumOf(cs, Charges()) == Cost(u)
            && SumOf(cs, Refunds()) == Quoted(u) - Cost(u)
            && SumOf(cs, RefundsTo(a)) == SurplusOf(a)(u)
            && SumOf(cs, Counts(a)) <= 1
  {
    var cs := SettlementCalls(u);
    SumTwo(cs, Draws(a));
    SumTwo(cs, Charges());
    SumTwo(cs, Refunds());
    SumTwo(cs, RefundsTo(a));
    SumTwo(cs, Counts(a));
  }

  lemma {:induction false} UsageTotals(us: seq<Usage>, a: Address)
    requires AllPayable(us)
    ensures var cs := AllCalls(us);
            && SumOf(cs, Draws(a)) == SumOf(us, QuotedBy(a))
            && SumOf(cs, Charges()) == SumOf(us, Costs())
            && SumOf(cs, Refunds()) == SumOf(us, Surpluses())
            && SumOf(cs, RefundsTo(a)) == SumOf(us, SurplusOf(a))
            && SumOf(cs, Counts(a)) <= |us|
    decreases |us|
  {
    if us != [] {
      var first, rest := SettlementCalls(us[0]), AllCalls(us[1..]);
      UsageTotals(us[1..], a);
      OneUsage(us[0], a);
      SumConcat(first, rest, Draws(a));
      SumConcat(first, rest, Charges());
      SumConcat(first, rest, Refunds());
      SumConcat(first, rest, RefundsTo(a));
      SumConcat(first, rest, Counts(a));
    }
  }

  ghost predicate Names(us: seq<Usage>, g: Guard) {
    exists i :: 0 <= i < |us| && us[i].user == g.user && us[i].quote.id == g.quoteId
  }

  lemma OneUsageGuards(u: Usage, g: Guard)
    requires Payable(u)
    ensures var n := SumOf(SettlementCalls(u), Has(g));
            0 <= n <= 1 && (n == 1 ==> u.user == g.user && u.quote.id == g.quoteId)
  {
    SumTwo(SettlementCalls(u), Has(g));
  }

  /** Settling distinct quotes uses each guard at most once, and only guards of these quotes. */
  lemma {:induction false} UsageGuards(us: seq<Usage>, g: Guard)
    requires AllPayable(us) && DistinctQuotes(us)
    ensures var n := SumOf(AllCalls(us), Has(g)); 0 <= n <= 1 && (n == 1 ==> Names(us, g))
    decreases |us|
  {
    if us != [] {
      var rest := us[1..];
      assert forall i | 0 <= i < |rest| :: rest[i] == us[i + 1];
      UsageGuards(rest, g);
      OneUsageGuards(us[0], g);
      SumConcat(SettlementCalls(us[0]), AllCalls(rest), Has(g));
      if Names(rest, g) {
        var j :| 0 <= j < |rest| && rest[j].user == g.user && rest[j].quote.id == g.quoteId;
        assert us[j + 1] == rest[j];
        assert us[0].user != us[j + 1].user || us[0].quote.id != us[j + 1].quote.id;
      }
    }
  }

  function Users(us: seq<Usage>): set<Address> {
    set u | u in us :: u.user
  }

  lemma {:induction false} AllCallsAreDraws(s: State, us: seq<Usage>, users: set<Address>)
    requires AllPayable(us) && forall i | 0 <= i < |us| :: us[i].user != s.self && us[i].user in users
    ensures forall i | 0 <= i < |AllCalls(us)| :: ProperDraw(s, users, AllCalls(us)[i])
    decreases |us|
  {
    if us != [] {
      AllCallsAreDraws(s, us[1..], users);
      var first := SettlementCalls(us[0]);
      assert forall i | 0 <= i < |first| :: ProperDraw(s, users, first[i]);
    }
  }

  /** Distinct and unsettled quotes of users other than the escrow, for each user a balance that
      covers the total of that user's quotes, and room in the 32-bit usage counters. */
  ghost predicate Unsettled(s: State, us: seq<Usage>) {
    && Solvent(s) && !s.paused
    && (forall i | 0 <= i < |us| :: us[i].user != s.self)
    && DistinctQuotes(us) && FreshQuotes(s, us)
    && (forall a :: SumOf(us, QuotedBy(a)) <= Get(s.balances, a))
    && (forall a :: |us| + Get(s.usageCount, a) <= U32_MAX)
  }

  /** What the settlement of `us` requires. */
  ghost predicate Prepaid(s: State, us: seq<Usage>) {
    Unsettled(s, us) && AllPayable(us)
  }

  lemma {:induction false} QuotedBelowSum(us: seq<Usage>, i: nat, a: Address)
    requires forall j | 0 <= j < |us| :: 0 <= Quoted(us[j])
    requires i < |us| ==> us[i].user == a
    ensures (if i < |us| then Quoted(us[i]) else 0) <= SumOf(us, QuotedBy(a))
    decreases |us|
  {
    if us != [] {
      assert forall j | 0 <= j < |us[1..]| :: us[1..][j] == us[j + 1];
      QuotedBelowSum(us[1..], if i == 0 then |us| else i - 1, a);
    }
  }

  /** Quotes used within their estimate need no further condition: a balance that covers them
      keeps every amount inside the range of the contract's numbers. */
  lemma EstimatesArePrepaid(s: State, us: seq<Usage>)
    requires Unsettled(s, us) && forall i | 0 <= i < |us| :: WithinEstimate(us[i])
    ensures Prepaid(s, us)
  {
    forall i | 0 <= i < |us| ensures 1 <= Cost(us[i]) <= Quoted(us[i]) {
      CostWithinQuote(us[i]);
    }
    EntriesBelowTotal(s.ledger, s.self, s.self);
    forall i | 0 <= i < |us| ensures Payable(us[i]) {
      QuotedBelowSum(us, i, us[i].user);
      EntriesBelowTotal(s.balances, us[i].user, us[i].user);
    }
  }

  lemma PrepaidIsCovered(s: State, us: seq<Usage>, calls: seq<Call>)
    requires Prepaid(s, us) && multiset(calls) == multiset(AllCalls(us))
    ensures Covered(s, calls, Users(us))
  {
    var cs := AllCalls(us);
    AllCallsAreDraws(s, us, Users(us));
    forall i | 0 <= i < |calls|
      ensures ProperDraw(s, Users(us), calls[i])
    {
      assert calls[i] in multiset(calls);
      assert calls[i] in cs;
    }
    forall g ensures SumOf(calls, Has(g)) + (if Guarded(s, g) then 1 else 0) <= 1 {
      SumPermuted(calls, cs, Has(g));
      UsageGuards(us, g);
    }
    forall a ensures SumOf(calls, Draws(a)) <= Get(s.balances, a) {
      SumPermuted(calls, cs, Draws(a));
      UsageTotals(us, a);
    }
    forall a ensures SumOf(calls, Counts(a)) + Get(s.usageCount, a) <= U32_MAX {
      SumPermuted(calls, cs, Counts(a));
      UsageTotals(us, a);
    }
  }

  /** What the run did beyond its foreign calls: each balance lower by the quotes of its user,
      the revenue higher by the costs, the holdings lower by the surpluses, and the tokens of each
      user higher by that user's surpluses. */
  ghost predicate Settled(s: State, txs: seq<Tx>, us: seq<Usage>) {
    var e, users := Run(s, txs), Users(us);
    && (forall a :: Get(e.balances, a)
                    == Get(s.balances, a) - SumOf(us, QuotedBy(a)) + Elsewhere(s, txs, users, a).balance)
    && (forall a | a in users :: Elsewhere(s, txs, users, a).balance == Flows(s, txs, a).deposited)
    && e.revenue == s.revenue + SumOf(us, Costs()) + Elsewhere(s, txs, users, s.self).revenue
    && Get(e.ledger, e.self)
       == Get(s.ledger, s.self) - SumOf(us, Surpluses()) + Elsewhere(s, txs, users, s.self).held
    && (forall a | a != s.self :: Get(e.ledger, a)
                    == Get(s.ledger, a) + SumOf(us, SurplusOf(a)) + Elsewhere(s, txs, users, a).own)
  }

  lemma RepeatFails(e: State, tx: Tx, calls: seq<Call>)
    requires forall i | 0 <= i < |calls| && IsDraw(calls[i]) :: Guarded(e, GuardOf(calls[i]))
    requires tx.call in calls && IsDraw(tx.call)
    ensures Exec(e, tx).Panic? && Step(e, tx) == e
  {
    var i :| 0 <= i < |calls| && calls[i] == tx.call;
    assert Guarded(e, GuardOf(calls[i]));
  }

  /** Settlement of any list of distinct metered quotes that the users' balances cover, among any
      other calls that neither draw on these balances nor pause the contract nor change its
      administrator: however the charges and refunds are interleaved, every one of them succeeds;
      each user is drawn exactly the sum of the quotes, revenue grows by the sum of the costs, the
      tokens held shrink by the sum of the surpluses, each user is paid that user's surpluses and
      nobody else anything; and repeating any of the calls fails without a change. */
  lemma AnyInterleavingSettles(s: State, us: seq<Usage>, txs: seq<Tx>, calls: seq<Call>)
    requires Prepaid(s, us) && Interleaved(s, txs, Users(us), calls)
    requires multiset(calls) == multiset(AllCalls(us))
    ensures DrawsSucceed(s, txs, Users(us))
    ensures Settled(s, txs, us)
    ensures forall tx: Tx | tx.call in calls ::
              Exec(Run(s, txs), tx).Panic? && Step(Run(s, txs), tx) == Run(s, txs)
  {
    var cs, e, users := AllCalls(us), Run(s, txs), Users(us);
    PrepaidIsCovered(s, us, calls);
    CoveredDrawsSucceed(s, txs, calls, users);
    forall a ensures SumOf(calls, Draws(a)) == SumOf(us, QuotedBy(a)) {
      SumPermuted(calls, cs, Draws(a));
      UsageTotals(us, a);
    }
    forall a ensures SumOf(calls, RefundsTo(a)) == SumOf(us, SurplusOf(a)) {
      SumPermuted(calls, cs, RefundsTo(a));
      UsageTotals(us, a);
    }
    forall a | a in users ensures Elsewhere(s, txs, users, a).balance == Flows(s, txs, a).deposited {
      OnlyDepositsElsewhere(s, txs, calls, users, a);
    }
    SumPermuted(calls, cs, Charges());
    SumPermuted(calls, cs, Refunds());
    UsageTotals(us, s.self);
    forall tx: Tx | tx.call in calls
      ensures Exec(e, tx).Panic? && Step(e, tx) == e
    {
      RepeatFails(e, tx, calls);
    }
  }

  /** A run of draws alone leaves nothing to foreign calls. */
  lemma {:induction false} NothingElsewhere(s: State, txs: seq<Tx>, users: set<Address>, a: Address)
    requires forall i | 0 <= i < |txs| :: DrawsOn(users, txs[i].call)
    ensures Elsewhere(s, txs, users, a) == Effect(0, 0, 0, 0)
    decreases |txs|
  {
    if txs != [] {
      assert DrawsOn(users, txs[0].call);
      assert forall i | 0 <= i < |txs[1..]| :: txs[1..][i] == txs[i + 1];
      NothingElsewhere(Step(s, txs[0]), txs[1..], users, a);
    }
  }

  ghost function Calls(txs: seq<Tx>): seq<Call> {
    seq(|txs|, i requires 0 <= i < |txs| => txs[i].call)
  }

  ghost predicate ByAdmin(s: State, txs: seq<Tx>) {
    forall i | 0 <= i < |txs| :: Authorised(txs[i].auths, s.admin, s.self)
  }

  lemma {:induction false} DrawsInterleave(s: State, txs: seq<Tx>, users: set<Address>)
    requires ByAdmin(s, txs) && forall i | 0 <= i < |txs| :: DrawsOn(users, txs[i].call)
    ensures Interleaved(s, txs, users, Calls(txs))
    decreases |txs|
  {
    if txs != [] {
      assert DrawsOn(users, txs[0].call);
      assert forall i | 0 <= i < |txs[1..]| :: txs[1..][i] == txs[i + 1];
      assert Calls(txs)[1..] == Calls(txs[1..]);
      OnlyAdminConfigures(s, txs[0]);
      DrawsInterleave(Step(s, txs[0]), txs[1..], users);
    }
  }

  /** Without foreign calls the sums are exact. */
  lemma SettlementAlone(s: State, us: seq<Usage>, txs: seq<Tx>)
    requires Prepaid(s, us) && ByAdmin(s, txs) && multiset(Calls(txs)) == multiset(AllCalls(us))
    ensures Interleaved(s, txs, Users(us), Calls(txs))
    ensures var e := Run(s, txs);
            && (forall a :: Get(e.balances, a) == Get(s.balances, a) - SumOf(us, QuotedBy(a)))
            && e.revenue == s.revenue + SumOf(us, Costs())
            && Get(e.ledger, e.self) == Get(s.ledger, s.self) - SumOf(us, Surpluses())
            && (forall a | a != s.self :: Get(e.ledger, a) == Get(s.ledger, a) + SumOf(us, SurplusOf(a)))
  {
    var users := Users(us);
    PrepaidIsCovered(s, us, Calls(txs));
    forall i | 0 <= i < |txs| ensures DrawsOn(users, txs[i].call) {
      assert ProperDraw(s, users, Calls(txs)[i]);
    }
    DrawsInterleave(s, txs, users);
    AnyInterleavingSettles(s, us, txs, Calls(txs));
    forall a ensures Elsewhere(s, txs, users, a) == Effect(0, 0, 0, 0) {
      NothingElsewhere(s, txs, users, a);
    }
  }
}
