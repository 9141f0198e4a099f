/** The payment-verifier contract: three keyed structures, and the plain append-only log they
    are meant to agree with. */
module VerifierSpec {
  import opened Soroban

  datatype Payment = Payment(
    txHash: string,
    payer: Address,
    payee: Address,
    amount: int,
    asset: string,
    timestamp: nat,
    quoteId: string,
    verified: bool,
    refunded: bool)

  /** The contract's storage. */
  datatype State = State(
    self: Address,
    admin: Address,
    paused: bool,
    count: int,
    payments: map<int, Payment>,
    txIndex: map<string, int>,
    usedTx: set<string>)

  datatype Call =
    | Record(txHash: string, payer: Address, payee: Address, amount: I128, asset: string,
             timestamp: nat, quoteId: string)
    | RefundPayment(txHash: string)
    | SetAdmin(newAdmin: Address)
    | SetPaused(flag: bool)

  datatype Tx = Tx(call: Call, auths: set<Address>)

  function NewPayment(c: Call): Payment
    requires c.Record?
  {
    Payment(c.txHash, c.payer, c.payee, c.amount, c.asset, c.timestamp, c.quoteId, true, false)
  }

  function DoRecord(s: State, auths: set<Address>, c: Call): Outcome<State>
    requires c.Record?
  {
    if !Authorised(auths, s.admin, s.self) then Panic(Unauthorized)
    else if s.paused then Panic(ContractPaused)
    else if c.amount <= 0 then Panic(NotPositive)
    else if c.txHash in s.usedTx then Panic(AlreadyRecorded)
    else if s.count >= U32_MAX then Panic(CounterOverflow)
    else Ok(s.(usedTx := s.usedTx + {c.txHash},
               payments := s.payments[s.count := NewPayment(c)],
               txIndex := s.txIndex[c.txHash := s.count],
               count := s.count + 1))
  }

  function DoRefund(s: State, auths: set<Address>, txHash: string): Outcome<State> {
    if !Authorised(auths, s.admin, s.self) then Panic(Unauthorized)
    else if s.paused then Panic(ContractPaused)
    else if txHash !in s.txIndex || s.txIndex[txHash] !in s.payments then Panic(MissingEntry)
    else
      var p := s.payments[s.txIndex[txHash]];
      if p.refunded then Panic(AlreadyRefunded)
      else Ok(s.(payments := s.payments[s.txIndex[txHash] := p.(refunded := true)]))
  }

  function DoSetAdmin(s: State, auths: set<Address>, newAdmin: Address): Outcome<State> {
    if !Authorised(auths, s.admin, s.self) then Panic(Unauthorized) else Ok(s.(admin := newAdmin))
  }

  function DoSetPaused(s: State, auths: set<Address>, flag: bool): Outcome<State> {
    if !Authorised(auths, s.admin, s.self) then Panic(Unauthorized) else Ok(s.(paused := flag))
  }

  function Exec(s: State, tx: Tx): Outcome<State> {
    match tx.call
    case Record(_, _, _, _, _, _, _) => DoRecord(s, tx.auths, tx.call)
    case RefundPayment(txHash) => DoRefund(s, tx.auths, txHash)
    case SetAdmin(newAdmin) => DoSetAdmin(s, tx.auths, newAdmin)
    case SetPaused(flag) => DoSetPaused(s, tx.auths, flag)
  }

  ghost function Run(s: State, txs: seq<Tx>): State
    decreases |txs|
  {
    if txs == [] then s else Run(Commit(s, Exec(s, txs[0])), txs[1..])
  }

  ghost predicate Deployed(s: State) {
    !s.paused && s.count == 0 && s.payments == map[] && s.txIndex == map[] && s.usedTx == {}
  }

  /** Used hashes and indices 0..count correspond one to one. */
  ghost predicate Good(s: State) {
    && 0 <= s.count <= U32_MAX
    && (forall i :: i in s.payments <==> 0 <= i < s.count)
    && s.txIndex.Keys == s.usedTx
    && (forall h | h in s.txIndex :: s.txIndex[h] in s.payments && s.payments[s.txIndex[h]].txHash == h)
    && (forall i | i in s.payments :: s.payments[i].txHash in s.txIndex && s.txIndex[s.payments[i].txHash] == i)
  }

  // ---------------------------------------------------------------------------------------
  // The plain log

  datatype Plain = Plain(self: Address, admin: Address, paused: bool, log: seq<Payment>)

  ghost function Abstract(s: State): Plain
    requires Good(s)
  {
    Plain(s.self, s.admin, s.paused,
          seq(s.count, i requires 0 <= i < s.count => s.payments[i]))
  }

  /** Linear search: the position of the first payment with this hash, or the length. */
  function Find(log: seq<Payment>, txHash: string): nat {
    if log == [] || log[0].txHash == txHash then 0 else 1 + Find(log[1..], txHash)
  }

  function PlainExec(p: Plain, tx: Tx): Outcome<Plain> {
    match tx.call
    case Record(txHash, _, _, amount, _, _, _) =>
      if !Authorised(tx.auths, p.admin, p.self) then Panic(Unauthorized)
      else if p.paused then Panic(ContractPaused)
      else if amount <= 0 then Panic(NotPositive)
      else if Find(p.log, txHash) < |p.log| then Panic(AlreadyRecorded)
      else if |p.log| >= U32_MAX then Panic(CounterOverflow)
      else Ok(p.(log := p.log + [NewPayment(tx.call)]))
    case RefundPayment(txHash) =>
      if !Authorised(tx.auths, p.admin, p.self) then Panic(Unauthorized)
      else if p.paused then Panic(ContractPaused)
      else
        var i := Find(p.log, txHash);
        if i >= |p.log| then Panic(MissingEntry)
        else if p.log[i].refunded then Panic(AlreadyRefunded)
        else Ok(p.(log := p.log[i := p.log[i].(refunded := true)]))
    case SetAdmin(newAdmin) =>
      if !Authorised(tx.auths, p.admin, p.self) then Panic(Unauthorized) else Ok(p.(admin := newAdmin))
    case SetPaused(flag) =>
      if !Authorised(tx.auths, p.admin, p.self) then Panic(Unauthorized) else Ok(p.(paused := flag))
  }

  ghost function PlainRun(p: Plain, txs: seq<Tx>): Plain
    decreases |txs|
  {
    if txs == [] then p else PlainRun(Commit(p, PlainExec(p, txs[0])), txs[1..])
  }
}
