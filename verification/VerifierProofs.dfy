/** The verifier's index refines the plain log over every run. */
module VerifierProofs {
  import opened Soroban
  import opened VerifierSpec

  lemma {:induction false} FindIsFirst(log: seq<Payment>, txHash: string)
    ensures var i := Find(log, txHash);
            && i <= |log|
            && (i < |log| ==> log[i].txHash == txHash)
            && (forall j | 0 <= j < i :: log[j].txHash != txHash)
    decreases |log|
  {
    if log != [] && log[0].txHash != txHash {
      FindIsFirst(log[1..], txHash);
      var i := Find(log[1..], txHash);
      forall j | 0 <= j < 1 + i ensures log[j].txHash != txHash {
        assert j > 0 ==> log[j] == log[1..][j - 1];
      }
    }
  }

  /** The index answers what a search of the whole log answers. */
  lemma IndexIsSearch(s: State, txHash: string)
    requires Good(s)
    ensures var log := Abstract(s).log;
            && (txHash in s.usedTx <==> Find(log, txHash) < |log|)
            && (txHash in s.txIndex ==> s.txIndex[txHash] == Find(log, txHash))
  {
    var log := Abstract(s).log;
    FindIsFirst(log, txHash);
    var i := Find(log, txHash);
    if i < |log| {
      assert s.payments[i].txHash == txHash;
    }
    if txHash in s.txIndex {
      assert log[s.txIndex[txHash]].txHash == txHash;
    }
  }

  lemma RecordRefines(s: State, auths: set<Address>, c: Call)
    requires Good(s) && c.Record? && DoRecord(s, auths, c).Ok?
    ensures var s' := DoRecord(s, auths, c).value;
            Good(s') && Abstract(s') == Abstract(s).(log := Abstract(s).log + [NewPayment(c)])
  {
    var s' := DoRecord(s, auths, c).value;
    assert Abstract(s').log == Abstract(s).log + [NewPayment(c)];
  }

  lemma RefundRefines(s: State, auths: set<Address>, txHash: string)
    requires Good(s) && DoRefund(s, auths, txHash).Ok?
    ensures var s' := DoRefund(s, auths, txHash).value;
            var i := s.txIndex[txHash];
            && Good(s')
            && Abstract(s') == Abstract(s).(log := Abstract(s).log[i := s.payments[i].(refunded := true)])
  {
    var s' := DoRefund(s, auths, txHash).value;
    var i := s.txIndex[txHash];
    assert Abstract(s').log == Abstract(s).log[i := s.payments[i].(refunded := true)];
  }

  /** One call on the indexed storage does to the abstract log what the plain log does, commits
      when it commits, and panics for the same reason. */
  lemma StepRefines(s: State, tx: Tx)
    requires Good(s)
    ensures Good(Commit(s, Exec(s, tx)))
    ensures Abstract(Commit(s, Exec(s, tx))) == Commit(Abstract(s), PlainExec(Abstract(s), tx))
    ensures Status(Exec(s, tx)) == Status(PlainExec(Abstract(s), tx))
  {
    match tx.call
    case Record(txHash, _, _, _, _, _, _) =>
      IndexIsSearch(s, txHash);
      if DoRecord(s, tx.auths, tx.call).Ok? {
        RecordRefines(s, tx.auths, tx.call);
      }
    case RefundPayment(txHash) =>
      IndexIsSearch(s, txHash);
      if DoRefund(s, tx.auths, txHash).Ok? {
        RefundRefines(s, tx.auths, txHash);
      }
    case _ =>
      if Exec(s, tx).Ok? {
        assert Abstract(Exec(s, tx).value).log == Abstract(s).log;
      }
  }

  /** Refinement over every run. */
  lemma {:induction false} RunRefines(s: State, txs: seq<Tx>)
    requires Good(s)
    ensures Good(Run(s, txs)) && Abstract(Run(s, txs)) == PlainRun(Abstract(s), txs)
    decreases |txs|
  {
    if txs != [] {
      StepRefines(s, txs[0]);
      RunRefines(Commit(s, Exec(s, txs[0])), txs[1..]);
    }
  }

  lemma RunFromDeployment(s: State, txs: seq<Tx>)
    requires Deployed(s)
    ensures Good(Run(s, txs))
  {
    RunRefines(s, txs);
  }

  /** What no run undoes: entries keep their place and all fields, except that `refunded` may
      go from false to true. */
  ghost predicate Later(log: seq<Payment>, log': seq<Payment>) {
    && |log| <= |log'|
    && forall i | 0 <= i < |log| ::
         && log'[i].(refunded := log[i].refunded) == log[i]
         && (log[i].refunded ==> log'[i].refunded)
  }

  lemma {:induction false} LogOnlyGrows(p: Plain, txs: seq<Tx>)
    ensures Later(p.log, PlainRun(p, txs).log)
    decreases |txs|
  {
    if txs != [] {
      LogOnlyGrows(Commit(p, PlainExec(p, txs[0])), txs[1..]);
    }
  }

  lemma LaterKeepsHashes(log: seq<Payment>, log': seq<Payment>, txHash: string)
    requires Later(log, log') && Find(log, txHash) < |log|
    ensures Find(log', txHash) == Find(log, txHash)
  {
    FindIsFirst(log, txHash);
    FindIsFirst(log', txHash);
    forall k | 0 <= k < |log|
      ensures log'[k].txHash == log[k].txHash
    {
      assert log'[k].(refunded := log[k].refunded) == log[k];
    }
  }

  ghost predicate AlreadyMarked(s: State, txHash: string)
    requires Good(s)
  {
    txHash in s.txIndex && s.payments[s.txIndex[txHash]].refunded
  }

  /** A hash once recorded can never be recorded again, whatever happens in between, refunds
      included; and once refunded it can never be refunded again. */
  lemma RecordedOnceRefundedOnce(s: State, txs: seq<Tx>, tx: Tx)
    requires Good(s)
    ensures tx.call.Record? && tx.call.txHash in s.usedTx ==> Exec(Run(s, txs), tx).Panic?
    ensures tx.call.RefundPayment? && AlreadyMarked(s, tx.call.txHash) ==> Exec(Run(s, txs), tx).Panic?
  {
    if tx.call.Record? || tx.call.RefundPayment? {
      var h := tx.call.txHash;
      RunRefines(s, txs);
      LogOnlyGrows(Abstract(s), txs);
      IndexIsSearch(s, h);
      IndexIsSearch(Run(s, txs), h);
      if h in s.usedTx {
        LaterKeepsHashes(Abstract(s).log, Abstract(Run(s, txs)).log, h);
        var i := s.txIndex[h];
        assert Abstract(Run(s, txs)).log[i] == Run(s, txs).payments[i];
        assert Abstract(s).log[i] == s.payments[i];
      }
    }
  }
}
