/** The multi-signature payout wallet as a state machine. */
module MultisigSpec {
  import opened Soroban
  import opened Token

  datatype Proposal = Proposal(
    id: int,
    destination: Address,
    amount: int,
    executed: bool,
    approvals: seq<Address>,
    createdAt: nat)

  datatype State = State(
    self: Address,
    signers: seq<Address>,
    threshold: int,
    count: int,
    proposals: map<int, Proposal>,
    ledger: Ledger)

  datatype Call =
    | Propose(destination: Address, amount: I128)
    | Approve(signer: Address, id: U32)
    | SetSigners(approvers: seq<Address>, newSigners: seq<Address>, newThreshold: U32)
    | TokenTransfer(from: Address, to: Address, amount: I128)
    | TokenMint(to: Address, amount: I128)

  datatype Tx = Tx(call: Call, auths: set<Address>, time: nat)

  ghost predicate Distinct<T>(xs: seq<T>) {
    forall i, j | 0 <= i < j < |xs| :: xs[i] != xs[j]
  }

  ghost function CheckConfig(signers: seq<Address>, threshold: int): Outcome<()> {
    if threshold == 0 then Panic(ThresholdZero)
    else if threshold > |signers| then Panic(ThresholdTooLarge)
    else if !Distinct(signers) then Panic(DuplicateSigners)
    else Ok(())
  }

  function DoPropose(s: State, time: nat, destination: Address, amount: int): Outcome<State> {
    if amount <= 0 then Panic(NotPositive)
    else if s.count >= U32_MAX then Panic(CounterOverflow)
    else Ok(s.(count := s.count + 1,
               proposals := s.proposals[s.count := Proposal(s.count, destination, amount, false, [], time)]))
  }

  /** A second approval by the same signer adds nothing. */
  function Recorded(approvals: seq<Address>, signer: Address): seq<Address> {
    if signer in approvals then approvals else approvals + [signer]
  }

  function DoApprove(s: State, auths: set<Address>, signer: Address, id: int): Outcome<State> {
    if !Authorised(auths, signer, s.self) then Panic(Unauthorized)
    else if signer !in s.signers then Panic(NotASigner)
    else if id !in s.proposals then Panic(MissingEntry)
    else if s.proposals[id].executed then Panic(AlreadyExecuted)
    else
      var approvals := Recorded(s.proposals[id].approvals, signer);
      var p := s.proposals[id].(approvals := approvals);
      if |approvals| < s.threshold then Ok(s.(proposals := s.proposals[id := p]))
      else match Move(s.ledger, s.self, p.destination, p.amount)
        case Panic(reason) => Panic(reason)
        case Ok(ledger) => Ok(s.(ledger := ledger, proposals := s.proposals[id := p.(executed := true)]))
  }

  /** The distinct members of `approvers` behind those in `acc`, in order of first mention. */
  function Collect(s: State, auths: set<Address>, approvers: seq<Address>, acc: seq<Address>): Outcome<seq<Address>>
    decreases |approvers|
  {
    if approvers == [] then Ok(acc)
    else if approvers[0] !in s.signers then Panic(NotASigner)
    else if approvers[0] in acc then Collect(s, auths, approvers[1..], acc)
    else if !Authorised(auths, approvers[0], s.self) then Panic(Unauthorized)
    else Collect(s, auths, approvers[1..], acc + [approvers[0]])
  }

  ghost function DoSetSigners(s: State, auths: set<Address>, approvers: seq<Address>,
                              newSigners: seq<Address>, newThreshold: int): Outcome<State> {
    match Collect(s, auths, approvers, [])
    case Panic(reason) => Panic(reason)
    case Ok(unique) =>
      if |unique| < s.threshold then Panic(QuorumNotReached)
      else match CheckConfig(newSigners, newThreshold)
        case Panic(reason) => Panic(reason)
        case Ok(_) => Ok(s.(signers := newSigners, threshold := newThreshold))
  }

  /** Tokens moved by somebody else; the wallet signs transfers only inside `approve`. */
  function DoTokenTransfer(s: State, auths: set<Address>,
                           from: Address, to: Address, amount: int): Outcome<State> {
    if !Authorised(auths, from, s.self) then Panic(Unauthorized)
    else match Move(s.ledger, from, to, amount)
      case Panic(reason) => Panic(reason)
      case Ok(ledger) => Ok(s.(ledger := ledger))
  }

  ghost function Exec(s: State, tx: Tx): Outcome<State> {
    match tx.call
    case Propose(destination, amount) => DoPropose(s, tx.time, destination, amount)
    case Approve(signer, id) => DoApprove(s, tx.auths, signer, id)
    case SetSigners(approvers, newSigners, newThreshold) =>
      DoSetSigners(s, tx.auths, approvers, newSigners, newThreshold)
    case TokenTransfer(from, to, amount) => DoTokenTransfer(s, tx.auths, from, to, amount)
    case TokenMint(to, amount) =>
      match Mint(s.ledger, to, amount)
      case Panic(reason) => Panic(reason)
      case Ok(ledger) => Ok(s.(ledger := ledger))
  }

  ghost function Step(s: State, tx: Tx): State {
    Commit(s, Exec(s, tx))
  }

  ghost function Run(s: State, txs: seq<Tx>): State
    decreases |txs|
  {
    if txs == [] then s else Step(Run(s, txs[..|txs| - 1]), txs[|txs| - 1])
  }

  ghost predicate ConfigOk(s: State) {
    Distinct(s.signers) && 1 <= s.threshold <= |s.signers|
  }

  /** Ids are dense; an open or paid proposal lists each approver once and pays something. */
  ghost predicate ProposalsOk(s: State) {
    && 0 <= s.count <= U32_MAX
    && (forall id :: id in s.proposals <==> 0 <= id < s.count)
    && (forall id | id in s.proposals ::
          s.proposals[id].id == id && 0 < s.proposals[id].amount && Distinct(s.proposals[id].approvals))
  }

  ghost predicate Good(s: State) {
    Sound(s.ledger) && ConfigOk(s) && ProposalsOk(s)
  }

  ghost predicate Deployed(s: State) {
    Sound(s.ledger) && ConfigOk(s) && s.count == 0 && s.proposals == map[]
  }

  ghost function Log(s: State): (log: seq<Proposal>)
    requires ProposalsOk(s)
    ensures |log| == s.count
  {
    seq(s.count, i requires 0 <= i < s.count => s.proposals[i])
  }

  ghost predicate Executed(s: State, id: int) {
    id in s.proposals && s.proposals[id].executed
  }
}
