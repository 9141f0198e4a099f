/** The multi-signature wallet contract as an object, proved against MultisigSpec. */
module Multisig {
  import opened Soroban
  import opened Token
  import opened Paging
  import opened MultisigSpec

  /** `has_unique_signers`: the nested index loop decides distinctness. */
  method HasUniqueSigners(signers: seq<Address>) returns (r: bool)
    ensures r <==> Distinct(signers)
  {
    for i := 0 to |signers|
      invariant forall a, b | 0 <= a < i && a < b < |signers| :: signers[a] != signers[b]
    {
      for j := i + 1 to |signers|
        invariant forall b | i < b < j :: signers[i] != signers[b]
      {
        if signers[i] == signers[j] {
          return false;
        }
      }
    }
    return true;
  }

  method ValidateConfig(signers: seq<Address>, threshold: U32) returns (r: Outcome<()>)
    ensures r == CheckConfig(signers, threshold)
    ensures r.Ok? <==> Distinct(signers) && 1 <= threshold <= |signers|
    ensures r == Panic(ThresholdZero) <==> threshold == 0
    ensures r == Panic(ThresholdTooLarge) <==> 0 < threshold && |signers| < threshold
  {
    if threshold == 0 { return Panic(ThresholdZero); }
    if threshold > |signers| { return Panic(ThresholdTooLarge); }
    var unique := HasUniqueSigners(signers);
    if !unique { return Panic(DuplicateSigners); }
    return Ok(());
  }

  class Wallet {
    const self: Address
    const token: TokenContract
    var signers: seq<Address>
    var threshold: int
    var count: int
    var proposals: map<int, Proposal>

    ghost function View(): State
      reads this, token
    {
      State(self, signers, threshold, count, proposals, token.balances)
    }

    constructor Init(self: Address, signers: seq<Address>, threshold: int, token: TokenContract)
      ensures View() == State(self, signers, threshold, 0, map[], token.balances)
      ensures this.token == token && token.balances == old(token.balances)
    {
      this.self, this.token, this.signers, this.threshold := self, token, signers, threshold;
      count, proposals := 0, map[];
    }

    /** The deployment transaction: it fails on a bad configuration. */
    static method Deploy(self: Address, signers: seq<Address>, threshold: U32, token: TokenContract)
      returns (r: Outcome<Wallet>)
      ensures r.Ok? <==> Distinct(signers) && 1 <= threshold <= |signers|
      ensures r.Panic? ==> r.reason == CheckConfig(signers, threshold).reason
      ensures r.Ok? ==> fresh(r.value) && r.value.View().signers == signers
                        && r.value.View().threshold == threshold && r.value.token == token
      ensures r.Ok? && Sound(token.balances) ==> Deployed(r.value.View())
    {
      var valid := ValidateConfig(signers, threshold);
      if valid.Panic? { return Panic(valid.reason); }
      var w := new Wallet.Init(self, signers, threshold, token);
      return Ok(w);
    }

    method Propose(time: nat, destination: Address, amount: I128) returns (r: Outcome<int>)
      modifies this
      ensures View() == Commit(old(View()), DoPropose(old(View()), time, destination, amount))
      ensures Status(r) == Status(DoPropose(old(View()), time, destination, amount))
      ensures r.Ok? ==> r.value == old(count)
    {
      if amount <= 0 { return Panic(NotPositive); }
      if count >= U32_MAX { return Panic(CounterOverflow); }
      var id := count;
      count := count + 1;
      proposals := proposals[id := Proposal(id, destination, amount, false, [], time)];
      return Ok(id);
    }

    method Approve(auths: set<Address>, signer: Address, id: U32) returns (r: Outcome<()>)
      modifies this, token
      ensures View() == Commit(old(View()), DoApprove(old(View()), auths, signer, id))
      ensures r == Status(DoApprove(old(View()), auths, signer, id))
    {
      if !Authorised(auths, signer, self) { return Panic(Unauthorized); }
      if signer !in signers { return Panic(NotASigner); }
      if id !in proposals { return Panic(MissingEntry); }
      var proposal := proposals[id];
      if proposal.executed { return Panic(AlreadyExecuted); }
      if signer !in proposal.approvals {
        proposal := proposal.(approvals := proposal.approvals + [signer]);
      }
      if |proposal.approvals| >= threshold && !proposal.executed {
        proposal := proposal.(executed := true);
        var ok := token.Transfer(self, proposal.destination, proposal.amount);
        if !ok { return Panic(TokenRefused); }
      }
      proposals := proposals[id := proposal];
      return Ok(());
    }

    method SetSigners(auths: set<Address>, approvers: seq<Address>, newSigners: seq<Address>, newThreshold: U32)
      returns (r: Outcome<()>)
      modifies this
      ensures View() == Commit(old(View()), DoSetSigners(old(View()), auths, approvers, newSigners, newThreshold))
      ensures r == Status(DoSetSigners(old(View()), auths, approvers, newSigners, newThreshold))
    {
      ghost var s := View();
      var unique: seq<Address> := [];
      var i := 0;
      while i < |approvers|
        invariant 0 <= i <= |approvers| && View() == s
        invariant Collect(s, auths, approvers, []) == Collect(s, auths, approvers[i..], unique)
      {
        var approver := approvers[i];
        if approver !in signers { return Panic(NotASigner); }
        if approver !in unique {
          if !Authorised(auths, approver, self) { return Panic(Unauthorized); }
          unique := unique + [approver];
        }
        i := i + 1;
      }
      if |unique| < threshold { return Panic(QuorumNotReached); }
      var valid := ValidateConfig(newSigners, newThreshold);
      if valid.Panic? { return Panic(valid.reason); }
      signers := newSigners;
      threshold := newThreshold;
      return Ok(());
    }

    /** One page of the proposal list: nothing is skipped, because ids have no holes. */
    method GetProposals(offset: U32, limit: U32) returns (result: seq<Proposal>)
      requires ProposalsOk(View())
      ensures result == Page(Log(View()), offset, limit)
    {
      ghost var log := Log(View());
      var end := PageEnd(offset, limit, count);
      result := [];
      var i := offset;
      while i < end
        invariant offset <= i && (offset < end ==> i <= end)
        invariant result == if offset < end then log[offset..i] else []
      {
        assert log[offset..i + 1] == log[offset..i] + [log[i]];
        if i in proposals {
          result := result + [proposals[i]];
        }
        i := i + 1;
      }
    }
  }

  /** A client that reads page after page, each from behind the last entry received, gets the
      whole log in order. */
  method ReadAll(wallet: Wallet, limit: U32) returns (all: seq<Proposal>)
    requires ProposalsOk(wallet.View()) && 1 <= limit
    ensures all == Log(wallet.View())
  {
    ghost var log := Log(wallet.View());
    var offset: U32 := 0;
    all := [];
    while true
      invariant 0 <= offset <= |log| && all == log[..offset]
      decreases |log| - offset
    {
      var page := wallet.GetProposals(offset, limit);
      if page == [] {
        assert offset == |log|;
        return;
      }
      assert log[..offset + |page|] == log[..offset] + page;
      all := all + page;
      offset := offset + |page|;
    }
  }
}
