/** What each call of the verifier does when it commits, exactly when it does, and that a record
    keeps what was recorded. */
module VerifierEffects {
  import opened Soroban
  import opened VerifierSpec
  import opened VerifierProofs

  /** The entry holds what `c` passed, verified and not refunded. */
  ghost predicate Holds(p: Payment, c: Call)
    requires c.Record?
  {
    && p.txHash == c.txHash && p.payer == c.payer && p.payee == c.payee && p.amount == c.amount
    && p.asset == c.asset && p.timestamp == c.timestamp && p.quoteId == c.quoteId && p.verified
  }

  predicate SignedByAdmin(s: State, tx: Tx) {
    s.admin in tx.auths && s.admin != s.self
  }

  /** A payment is recorded exactly when the administrator signed, the contract is not paused, the
      amount is positive, the hash is new and the counter has room. */
  lemma RecordCommitsIff(s: State, tx: Tx)
    requires tx.call.Record?
    ensures Exec(s, tx).Ok? <==>
              && SignedByAdmin(s, tx) && !s.paused && 0 < tx.call.amount
              && tx.call.txHash !in s.usedTx && s.count < U32_MAX
  {
  }

  /** The entry under the next index holds what was passed; no other entry and nothing else of the
      storage changes. */
  lemma RecordEffect(s: State, tx: Tx)
    requires tx.call.Record? && Exec(s, tx).Ok?
    ensures var s', c := Commit(s, Exec(s, tx)), tx.call;
            && s' == s.(count := s.count + 1, payments := s'.payments, txIndex := s'.txIndex, usedTx := s'.usedTx)
            && s'.usedTx == s.usedTx + {c.txHash} && s'.txIndex == s.txIndex[c.txHash := s.count]
            && s'.payments.Keys == s.payments.Keys + {s.count}
            && (forall i | i in s.payments && i != s.count :: s'.payments[i] == s.payments[i])
            && Holds(s'.payments[s.count], c) && !s'.payments[s.count].refunded
  {
  }

  /** A refund commits exactly when the administrator signed, the contract is not paused, and the
      hash is recorded and not refunded yet; it sets the flag of that entry and nothing else. */
  lemma RefundEffect(s: State, tx: Tx)
    requires Good(s) && tx.call.RefundPayment?
    ensures Exec(s, tx).Ok? <==>
              && SignedByAdmin(s, tx) && !s.paused && tx.call.txHash in s.usedTx
              && !s.payments[s.txIndex[tx.call.txHash]].refunded
    ensures Exec(s, tx).Ok? ==>
      var s', i := Commit(s, Exec(s, tx)), s.txIndex[tx.call.txHash];
      && s' == s.(payments := s'.payments) && s'.payments.Keys == s.payments.Keys
      && s'.payments[i] == s.payments[i].(refunded := true)
      && forall j | j in s.payments && j != i :: s'.payments[j] == s.payments[j]
  {
  }

  /** The configuration changes exactly by a call the administrator signed, to what it names. */
  lemma ConfigurationEffect(s: State, tx: Tx)
    ensures var s' := Commit(s, Exec(s, tx));
            && s'.admin == (if tx.call.SetAdmin? && SignedByAdmin(s, tx) then tx.call.newAdmin else s.admin)
            && s'.paused == (if tx.call.SetPaused? && SignedByAdmin(s, tx) then tx.call.flag else s.paused)
            && (tx.call.SetAdmin? || tx.call.SetPaused? ==> s' == s.(admin := s'.admin, paused := s'.paused))
            && (s' != s ==> s.admin in tx.auths)
  {
  }

  /** The order of the tests. */
  lemma Reasons(s: State, tx: Tx)
    requires Good(s)
    ensures var o := Exec(s, tx);
            && (o == Panic(Unauthorized) <==> !SignedByAdmin(s, tx))
            && (o == Panic(ContractPaused) <==>
                  SignedByAdmin(s, tx) && s.paused && (tx.call.Record? || tx.call.RefundPayment?))
            && (o == Panic(NotPositive) <==>
                  SignedByAdmin(s, tx) && !s.paused && tx.call.Record? && tx.call.amount <= 0)
            && (o == Panic(AlreadyRecorded) <==>
                  && SignedByAdmin(s, tx) && !s.paused && tx.call.Record? && 0 < tx.call.amount
                  && tx.call.txHash in s.usedTx)
            && (o == Panic(MissingEntry) <==>
                  SignedByAdmin(s, tx) && !s.paused && tx.call.RefundPayment? && tx.call.txHash !in s.usedTx)
  {
  }

  /** Whatever follows a recorded payment, a lookup of its hash finds what was recorded; only the
      refunded flag is open. */
  lemma RecordIsKept(s: State, tx: Tx, txs: seq<Tx>)
    requires Good(s) && tx.call.Record? && Exec(s, tx).Ok?
    ensures var e := Run(Commit(s, Exec(s, tx)), txs); var h := tx.call.txHash;
            && Good(e) && h in e.usedTx
            && var log := Abstract(e).log; var i := Find(log, h);
               i < |log| && i == s.count && Holds(log[i], tx.call)
  {
    var s', h := Commit(s, Exec(s, tx)), tx.call.txHash;
    RecordEffect(s, tx);
    StepRefines(s, tx);
    RunRefines(s', txs);
    LogOnlyGrows(Abstract(s'), txs);
    IndexIsSearch(s', h);
    IndexIsSearch(Run(s', txs), h);
    var log, later := Abstract(s').log, Abstract(Run(s', txs)).log;
    LaterKeepsHashes(log, later, h);
    var i := s.count;
    assert log[i] == s'.payments[i];
    assert later[i].(refunded := log[i].refunded) == log[i];
  }
}
