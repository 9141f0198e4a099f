/** What each call of the wallet does when it commits, and exactly when it does. */
module MultisigEffects {
  import opened Soroban
  import opened Sums
  import opened Token
  import opened MultisigSpec
  import opened MultisigProofs

  /** Anybody may propose a positive amount, as long as the counter has room; the proposal is open,
      has no approval, and nothing else changes. */
  lemma ProposeEffect(s: State, tx: Tx)
    requires tx.call.Propose?
    ensures Exec(s, tx).Ok? <==> 0 < tx.call.amount && s.count < U32_MAX
    ensures Exec(s, tx) == Panic(NotPositive) <==> tx.call.amount <= 0
    ensures Exec(s, tx).Ok? ==>
      var s' := Step(s, tx);
      && s' == s.(count := s.count + 1, proposals := s'.proposals)
      && s'.proposals.Keys == s.proposals.Keys + {s.count}
      && (forall i | i in s.proposals && i != s.count :: s'.proposals[i] == s.proposals[i])
      && var p := s'.proposals[s.count];
         && p.id == s.count && p.destination == tx.call.destination && p.amount == tx.call.amount
         && !p.executed && p.approvals == [] && p.createdAt == tx.time
  {
  }

  /** The approvals there would be with one by `signer`. */
  ghost function Tally(p: Proposal, signer: Address): nat {
    |(set x | x in p.approvals) + {signer}|
  }

  lemma TallyIsRecorded(p: Proposal, signer: Address)
    requires Distinct(p.approvals)
    ensures Tally(p, signer) == |Recorded(p.approvals, signer)|
  {
    var after := Recorded(p.approvals, signer);
    DistinctCount(after);
    assert (set x | x in after) == (set x | x in p.approvals) + {signer};
  }

  /** An approval commits exactly when a current signer signed it, the proposal exists and is open,
      and, if it completes the quorum, the wallet holds the amount. */
  lemma ApproveCommitsIff(s: State, tx: Tx)
    requires Good(s) && tx.call.Approve?
    ensures var signer, id := tx.call.signer, tx.call.id;
            Exec(s, tx).Ok? <==>
              && signer in tx.auths && signer != s.self && signer in s.signers
              && id in s.proposals && !s.proposals[id].executed
              && (s.threshold <= Tally(s.proposals[id], signer) ==>
                    s.proposals[id].amount <= Get(s.ledger, s.self))
  {
    var id := tx.call.id;
    if id in s.proposals {
      TallyIsRecorded(s.proposals[id], tx.call.signer);
      TransferSucceedsIff(s.ledger, s.self, s.proposals[id].destination, s.proposals[id].amount);
    }
  }

  /** It adds the signer to the approvals, once, and touches no other proposal; when the approvals
      reach the threshold, and only then, the proposal is executed and its destination is paid. */
  lemma ApproveEffect(s: State, tx: Tx)
    requires Good(s) && tx.call.Approve? && Exec(s, tx).Ok?
    ensures var s', signer, id := Step(s, tx), tx.call.signer, tx.call.id;
            && s' == s.(ledger := s'.ledger, proposals := s'.proposals)
            && s'.proposals.Keys == s.proposals.Keys && id in s.proposals
            && (forall i | i in s.proposals && i != id :: s'.proposals[i] == s.proposals[i])
            && var p, p' := s.proposals[id], s'.proposals[id];
               && p' == p.(approvals := p'.approvals, executed := p'.executed)
               && p'.approvals == (if signer in p.approvals then p.approvals else p.approvals + [signer])
               && (p'.executed <==> s.threshold <= Tally(p, signer))
               && (if p'.executed then Moved(s.ledger, s'.ledger, s.self, p.destination, p.amount)
                   else s'.ledger == s.ledger)
  {
    var p := s.proposals[tx.call.id];
    TallyIsRecorded(p, tx.call.signer);
    if s.threshold <= |Recorded(p.approvals, tx.call.signer)| {
      MoveMoves(s.ledger, s.self, p.destination, p.amount);
    }
  }

  /** The order of the tests. */
  lemma ApproveReasons(s: State, tx: Tx)
    requires tx.call.Approve?
    ensures var o, signer, id := Exec(s, tx), tx.call.signer, tx.call.id;
            var signed := signer in tx.auths && signer != s.self;
            && (o == Panic(Unauthorized) <==> !signed)
            && (o == Panic(NotASigner) <==> signed && signer !in s.signers)
            && (o == Panic(MissingEntry) <==> signed && signer in s.signers && id !in s.proposals)
            && (o == Panic(AlreadyExecuted) <==>
                  signed && signer in s.signers && id in s.proposals && s.proposals[id].executed)
  {
  }

  /** Tokens leave an account other than the wallet's only with that account's signature. */
  lemma TokensNeedSignature(s: State, tx: Tx, a: Address)
    requires Good(s) && a != s.self && Get(Step(s, tx).ledger, a) < Get(s.ledger, a)
    ensures a in tx.auths
  {
    match tx.call
    case Approve(_, _) => ApproveEffect(s, tx);
    case TokenTransfer(from, to, amount) => MoveMoves(s.ledger, from, to, amount);
    case _ =>
  }
}
