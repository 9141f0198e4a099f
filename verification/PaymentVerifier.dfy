/** The payment-verifier contract as an object, proved against VerifierSpec. */
module PaymentVerifier {
  import opened Wrappers
  import opened Soroban
  import opened Paging
  import opened VerifierSpec
  import opened VerifierProofs

  class Verifier {
    const self: Address
    var admin: Address
    var paused: bool
    var count: int
    var payments: map<int, Payment>
    var txIndex: map<string, int>
    var usedTx: set<string>

    ghost function View(): State
      reads this
    {
      State(self, admin, paused, count, payments, txIndex, usedTx)
    }

    constructor (self: Address, admin: Address)
      ensures this.self == self && this.admin == admin && Deployed(View()) && Good(View())
    {
      this.self, this.admin, paused := self, admin, false;
      count, payments, txIndex, usedTx := 0, map[], map[], {};
    }

    method RecordPayment(auths: set<Address>, c: Call) returns (r: Outcome<()>)
      requires c.Record?
      modifies this
      ensures View() == Commit(old(View()), DoRecord(old(View()), auths, c))
      ensures r == Status(DoRecord(old(View()), auths, c))
    {
      if !Authorised(auths, admin, self) { return Panic(Unauthorized); }
      if paused { return Panic(ContractPaused); }
      if c.amount <= 0 { return Panic(NotPositive); }
      if c.txHash in usedTx { return Panic(AlreadyRecorded); }
      var idx := count;
      var usedBefore, paymentsBefore, indexBefore := usedTx, payments, txIndex;
      usedTx := usedTx + {c.txHash};
      payments := payments[idx := NewPayment(c)];
      txIndex := txIndex[c.txHash := idx];
      if count >= U32_MAX {
        usedTx, payments, txIndex := usedBefore, paymentsBefore, indexBefore;
        return Panic(CounterOverflow);
      }
      count := count + 1;
      return Ok(());
    }

    method Refund(auths: set<Address>, txHash: string) returns (r: Outcome<()>)
      modifies this
      ensures View() == Commit(old(View()), DoRefund(old(View()), auths, txHash))
      ensures r == Status(DoRefund(old(View()), auths, txHash))
    {
      if !Authorised(auths, admin, self) { return Panic(Unauthorized); }
      if paused { return Panic(ContractPaused); }
      if txHash !in txIndex { return Panic(MissingEntry); }
      var idx := txIndex[txHash];
      if idx !in payments { return Panic(MissingEntry); }
      var payment := payments[idx];
      if payment.refunded { return Panic(AlreadyRefunded); }
      payment := payment.(refunded := true);
      payments := payments[idx := payment];
      return Ok(());
    }

    method SetAdmin(auths: set<Address>, newAdmin: Address) returns (r: Outcome<()>)
      modifies this
      ensures View() == Commit(old(View()), DoSetAdmin(old(View()), auths, newAdmin))
      ensures r == Status(DoSetAdmin(old(View()), auths, newAdmin))
    {
      if !Authorised(auths, admin, self) { return Panic(Unauthorized); }
      admin := newAdmin;
      return Ok(());
    }

    method SetPaused(auths: set<Address>, flag: bool) returns (r: Outcome<()>)
      modifies this
      ensures View() == Commit(old(View()), DoSetPaused(old(View()), auths, flag))
      ensures r == Status(DoSetPaused(old(View()), auths, flag))
    {
      if !Authorised(auths, admin, self) { return Panic(Unauthorized); }
      paused := flag;
      return Ok(());
    }

    /** Membership in the log. */
    method IsPaymentUsed(txHash: string) returns (used: bool)
      requires Good(View())
      ensures used <==> exists i :: 0 <= i < |Abstract(View()).log| && Abstract(View()).log[i].txHash == txHash
    {
      used := txHash in usedTx;
      IndexIsSearch(View(), txHash);
      FindIsFirst(Abstract(View()).log, txHash);
    }

    /** The first payment of the log with this hash. */
    method GetPayment(txHash: string) returns (r: Option<Payment>)
      requires Good(View())
      ensures var log := Abstract(View()).log;
              r == if Find(log, txHash) < |log| then Some(log[Find(log, txHash)]) else None
    {
      IndexIsSearch(View(), txHash);
      FindIsFirst(Abstract(View()).log, txHash);
      if txHash !in txIndex { return None; }
      var idx := txIndex[txHash];
      if idx !in payments { return None; }
      return Some(payments[idx]);
    }

    method GetPayments(offset: U32, limit: U32) returns (result: seq<Payment>)
      requires Good(View())
      ensures result == Page(Abstract(View()).log, offset, limit)
    {
      ghost var log := Abstract(View()).log;
      var end := PageEnd(offset, limit, count);
      result := [];
      var i := offset;
      while i < end
        invariant offset <= i && (offset < end ==> i <= end)
        invariant result == if offset < end then log[offset..i] else []
      {
        assert log[i] == payments[i] && log[offset..i + 1] == log[offset..i] + [log[i]];
        if i in payments {
          result := result + [payments[i]];
        }
        i := i + 1;
      }
    }
  }

  /** A client that reads page after page, each from behind the last entry received, gets the
      whole log in order. */
  method ReadAll(verifier: Verifier, limit: U32) returns (all: seq<Payment>)
    requires Good(verifier.View()) && 1 <= limit
    ensures all == Abstract(verifier.View()).log
  {
    ghost var log := Abstract(verifier.View()).log;
    var offset: U32 := 0;
    all := [];
    while true
      invariant 0 <= offset <= |log| && all == log[..offset]
      decreases |log| - offset
    {
      var page := verifier.GetPayments(offset, limit);
      if page == [] {
        assert offset == |log|;
        return;
      }
      assert log[..offset + |page|] == log[..offset] + page;
      all := all + page;
      offset := offset + |page|;
    }
  }
}
