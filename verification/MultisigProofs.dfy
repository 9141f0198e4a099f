/** Payout safety of the wallet over every run, across any number of signer rotations. */
module MultisigProofs {
  import opened Soroban
  import opened Sums
  import opened Token
  import opened MultisigSpec

  // ---------------------------------------------------------------------------------------
  // Configuration and rotation

  ghost predicate AllSign(s: State, auths: set<Address>, xs: seq<Address>) {
    forall x | x in xs :: x in s.signers && x in auths && x != s.self
  }

  /** The de-duplication loop accepts exactly lists of authorised signers and keeps each once. */
  lemma {:induction false} CollectIsSet(s: State, auths: set<Address>, approvers: seq<Address>, acc: seq<Address>)
    requires Distinct(acc) && AllSign(s, auths, acc)
    ensures var r := Collect(s, auths, approvers, acc);
            && (r.Ok? <==> AllSign(s, auths, approvers))
            && (r.Panic? ==> r.reason == NotASigner || r.reason == Unauthorized)
            && (r.Ok? ==> Distinct(r.value)
                          && (set x | x in r.value) == (set x | x in acc) + (set x | x in approvers))
    decreases |approvers|
  {
    if approvers != [] {
      var a := approvers[0];
      assert approvers == [a] + approvers[1..];
      if a in s.signers && a in acc {
        CollectIsSet(s, auths, approvers[1..], acc);
      } else if a in s.signers && Authorised(auths, a, s.self) {
        CollectIsSet(s, auths, approvers[1..], acc + [a]);
      }
    }
  }

  lemma {:induction false} DistinctCount<T>(xs: seq<T>)
    requires Distinct(xs)
    ensures |set x | x in xs| == |xs|
    decreases |xs|
  {
    if xs != [] {
      var init, last := xs[..|xs| - 1], xs[|xs| - 1];
      DistinctCount(init);
      assert (set x | x in xs) == (set x | x in init) + {last};
    }
  }

  /** A rotation commits exactly when every listed approver is a current signer who authorised
      the call, the distinct approvers reach the threshold, and the new configuration is valid. */
  lemma RotationGate(s: State, auths: set<Address>, approvers: seq<Address>,
                     newSigners: seq<Address>, newThreshold: U32)
    ensures DoSetSigners(s, auths, approvers, newSigners, newThreshold).Ok? <==>
              && AllSign(s, auths, approvers)
              && s.threshold <= |set a | a in approvers|
              && Distinct(newSigners) && 1 <= newThreshold <= |newSigners|
    ensures DoSetSigners(s, auths, approvers, newSigners, newThreshold) == Panic(QuorumNotReached) <==>
              AllSign(s, auths, approvers) && |set a | a in approvers| < s.threshold
    ensures var e := Commit(s, DoSetSigners(s, auths, approvers, newSigners, newThreshold));
            e == if DoSetSigners(s, auths, approvers, newSigners, newThreshold).Ok?
                 then s.(signers := newSigners, threshold := newThreshold) else s
  {
    CollectIsSet(s, auths, approvers, []);
    var r := Collect(s, auths, approvers, []);
    if r.Ok? {
      DistinctCount(r.value);
      assert (set x | x in r.value) == (set a | a in approvers);
    }
  }

  // ---------------------------------------------------------------------------------------
  // One step

  /** What no step undoes: proposals stay, keep their terms and their recorded approvals in
      order, and an executed one does not change at all. */
  ghost predicate Extends(s: State, s': State) {
    && s'.self == s.self
    && forall id | id in s.proposals ::
         && id in s'.proposals
         && s'.proposals[id].destination == s.proposals[id].destination
         && s'.proposals[id].amount == s.proposals[id].amount
         && s.proposals[id].approvals <= s'.proposals[id].approvals
         && (s.proposals[id].executed ==> s'.proposals[id] == s.proposals[id])
  }

  lemma ApproveGood(s: State, auths: set<Address>, signer: Address, id: int)
    requires Good(s) && DoApprove(s, auths, signer, id).Ok?
    ensures Good(DoApprove(s, auths, signer, id).value)
    ensures Extends(s, DoApprove(s, auths, signer, id).value)
  {
    var p := s.proposals[id];
    if s.threshold <= |Recorded(p.approvals, signer)| {
      TransferConserves(s.ledger, s.self, p.destination, p.amount);
    }
  }

  lemma StepGood(s: State, tx: Tx)
    requires Good(s)
    ensures Good(Step(s, tx)) && Extends(s, Step(s, tx))
  {
    if Exec(s, tx).Ok? {
      match tx.call
      case Propose(destination, amount) =>
      case Approve(signer, id) => ApproveGood(s, tx.auths, signer, id);
      case SetSigners(approvers, newSigners, newThreshold) =>
      case TokenTransfer(from, to, amount) => TransferConserves(s.ledger, from, to, amount);
      case TokenMint(to, amount) => MintAdds(s.ledger, to, amount);
    }
  }

  /** The one way a proposal becomes executed: an approval by a then-current signer that brings
      the distinct recorded approvals to the then-current threshold, and pays it. */
  ghost predicate PaysOut(s: State, tx: Tx, id: int) {
    && tx.call.Approve? && tx.call.id == id
    && tx.call.signer in s.signers && tx.call.signer in tx.auths && tx.call.signer != s.self
    && id in s.proposals && !s.proposals[id].executed
    && var s' := Step(s, tx);
       && id in s'.proposals && s'.proposals[id].executed
       && tx.call.signer in s'.proposals[id].approvals
       && Distinct(s'.proposals[id].approvals)
       && s.threshold <= |s'.proposals[id].approvals|
       && Move(s.ledger, s.self, s.proposals[id].destination, s.proposals[id].amount) == Ok(s'.ledger)
  }

  lemma OnlyApprovalsPay(s: State, tx: Tx, id: int)
    requires Good(s)
    requires Executed(Step(s, tx), id) && !Executed(s, id)
    ensures PaysOut(s, tx, id)
  {
    StepGood(s, tx);
  }

  /** A step that executes no proposal moves wallet tokens only inwards. */
  lemma NothingElsePays(s: State, tx: Tx)
    requires Good(s)
    requires !exists id :: Executed(Step(s, tx), id) && !Executed(s, id)
    ensures Get(s.ledger, s.self) <= Get(Step(s, tx).ledger, s.self)
  {
    if Exec(s, tx).Ok? {
      match tx.call
      case Approve(signer, id) =>
        assert Executed(Step(s, tx), id) ==> Executed(s, id);
      case TokenTransfer(from, to, amount) => TransferConserves(s.ledger, from, to, amount);
      case _ =>
    }
  }

  // ---------------------------------------------------------------------------------------
  // Runs

  ghost function At(s: State, txs: seq<Tx>, k: nat): State
    requires k <= |txs|
  {
    Run(s, txs[..k])
  }

  lemma AtNext(s: State, txs: seq<Tx>, k: nat)
    requires k < |txs|
    ensures At(s, txs, k + 1) == Step(At(s, txs, k), txs[k])
  {
    assert txs[..k + 1][..k] == txs[..k];
  }

  lemma {:induction false} RunGood(s: State, txs: seq<Tx>)
    requires Good(s)
    ensures Good(Run(s, txs)) && Extends(s, Run(s, txs))
    decreases |txs|
  {
    if txs != [] {
      RunGood(s, txs[..|txs| - 1]);
      StepGood(Run(s, txs[..|txs| - 1]), txs[|txs| - 1]);
    }
  }

  lemma ExtendsTransitive(a: State, b: State, c: State)
    requires Extends(a, b) && Extends(b, c)
    ensures Extends(a, c)
  {
  }

  lemma AtGood(s: State, txs: seq<Tx>, k: nat)
    requires Good(s) && k <= |txs|
    ensures Good(At(s, txs, k))
  {
    RunGood(s, txs[..k]);
  }

  lemma {:induction false} ExtendsBetween(s: State, txs: seq<Tx>, j: nat, k: nat)
    requires Good(s) && j <= k <= |txs|
    ensures Extends(At(s, txs, j), At(s, txs, k))
    decreases k
  {
    if j < k {
      ExtendsBetween(s, txs, j, k - 1);
      AtGood(s, txs, k - 1);
      StepGood(At(s, txs, k - 1), txs[k - 1]);
      AtNext(s, txs, k - 1);
      ExtendsTransitive(At(s, txs, j), At(s, txs, k - 1), At(s, txs, k));
    }
  }

  /** Transaction `j` is `a`'s own approval of `id`, made while `a` was a signer. */
  ghost predicate ApprovedAt(s: State, txs: seq<Tx>, a: Address, id: int, j: nat)
    requires j < |txs|
  {
    && txs[j].call.Approve? && txs[j].call.id == id && txs[j].call.signer == a
    && a in At(s, txs, j).signers && a in txs[j].auths && a != At(s, txs, j).self
  }

  ghost predicate ApprovedBefore(s: State, txs: seq<Tx>, a: Address, id: int, k: nat)
    requires k <= |txs|
  {
    exists j: nat :: j < k && ApprovedAt(s, txs, a, id, j)
  }

  /** Every approval recorded by then was given by its signer, as a signer at that time. */
  ghost predicate Genuine(s: State, txs: seq<Tx>, id: int, k: nat)
    requires k <= |txs|
  {
    && id in At(s, txs, k).proposals
    && forall a | a in At(s, txs, k).proposals[id].approvals :: ApprovedBefore(s, txs, a, id, k)
  }

  lemma NewApproval(s: State, tx: Tx, a: Address, id: int)
    requires Good(s) && id in Step(s, tx).proposals && a in Step(s, tx).proposals[id].approvals
    requires !(id in s.proposals && a in s.proposals[id].approvals)
    ensures tx.call == Approve(a, id) && a in s.signers && a in tx.auths && a != s.self
  {
  }

  lemma NewProposal(s: State, tx: Tx, id: int)
    requires Good(s) && id in Step(s, tx).proposals && id !in s.proposals
    ensures tx.call.Propose? && s.count == id
    ensures tx.call == Propose(Step(s, tx).proposals[id].destination, Step(s, tx).proposals[id].amount)
  {
  }

  lemma {:induction false} ApprovalsAreGenuine(s: State, txs: seq<Tx>, id: int, k: nat)
    requires Deployed(s) && k <= |txs| && id in At(s, txs, k).proposals
    ensures Genuine(s, txs, id, k)
    decreases k
  {
    if k > 0 {
      var before := At(s, txs, k - 1);
      AtGood(s, txs, k - 1);
      AtNext(s, txs, k - 1);
      if id in before.proposals {
        ApprovalsAreGenuine(s, txs, id, k - 1);
      }
      forall a | a in At(s, txs, k).proposals[id].approvals
        ensures ApprovedBefore(s, txs, a, id, k)
      {
        if id in before.proposals && a in before.proposals[id].approvals {
          assert ApprovedBefore(s, txs, a, id, k - 1);
        } else {
          NewApproval(before, txs[k - 1], a, id);
          assert ApprovedAt(s, txs, a, id, k - 1);
        }
      }
    }
  }

  /** Transaction `j` proposed `id` with the terms it has in `e`. */
  ghost predicate ProposedAt(s: State, txs: seq<Tx>, id: int, p: Proposal, j: nat)
    requires j < |txs|
  {
    && txs[j].call.Propose? && At(s, txs, j).count == id
    && txs[j].call.destination == p.destination && txs[j].call.amount == p.amount
  }

  /** Every proposal has the destination and the amount it was proposed with, at any time. */
  lemma {:induction false} TermsAreGenuine(s: State, txs: seq<Tx>, id: int, k: nat)
    requires Deployed(s) && k <= |txs| && id in At(s, txs, k).proposals
    ensures exists j: nat :: j < k && ProposedAt(s, txs, id, At(s, txs, k).proposals[id], j)
    decreases k
  {
    if k > 0 {
      var before := At(s, txs, k - 1);
      AtGood(s, txs, k - 1);
      StepGood(before, txs[k - 1]);
      AtNext(s, txs, k - 1);
      if id in before.proposals {
        TermsAreGenuine(s, txs, id, k - 1);
        var j: nat :| j < k - 1 && ProposedAt(s, txs, id, before.proposals[id], j);
        assert ProposedAt(s, txs, id, At(s, txs, k).proposals[id], j);
      } else {
        NewProposal(before, txs[k - 1], id);
        assert ProposedAt(s, txs, id, At(s, txs, k).proposals[id], k - 1);
      }
    }
  }

  ghost predicate PaidAt(s: State, txs: seq<Tx>, id: int, k: nat)
    requires k < |txs|
  {
    PaysOut(At(s, txs, k), txs[k], id)
  }

  lemma {:induction false} FirstExecution(s: State, txs: seq<Tx>, id: int, n: nat) returns (k: nat)
    requires Deployed(s) && n <= |txs| && Executed(At(s, txs, n), id)
    ensures k < n && !Executed(At(s, txs, k), id) && Executed(At(s, txs, k + 1), id)
    decreases n
  {
    assert n > 0;
    if Executed(At(s, txs, n - 1), id) {
      k := FirstExecution(s, txs, id, n - 1);
    } else {
      k := n - 1;
    }
  }

  lemma PaidAtMostOnce(s: State, txs: seq<Tx>, id: int, k: nat, m: nat)
    requires Deployed(s) && k < m < |txs| && PaidAt(s, txs, id, k)
    ensures !PaidAt(s, txs, id, m)
  {
    AtNext(s, txs, k);
    AtGood(s, txs, k + 1);
    ExtendsBetween(s, txs, k + 1, m);
  }

  /** Transaction `k` pays proposal `id` with genuine approvals, and no other pays it. */
  ghost predicate OnlyPayment(s: State, txs: seq<Tx>, id: int, k: nat) {
    && k < |txs| && PaidAt(s, txs, id, k) && Genuine(s, txs, id, k + 1)
    && forall m: nat | m < |txs| && m != k :: !PaidAt(s, txs, id, m)
  }

  lemma FirstPayment(s: State, txs: seq<Tx>, id: int) returns (k: nat)
    requires Deployed(s) && Executed(Run(s, txs), id)
    ensures k < |txs| && PaidAt(s, txs, id, k) && Genuine(s, txs, id, k + 1)
  {
    assert txs[..|txs|] == txs;
    k := FirstExecution(s, txs, id, |txs|);
    RunGood(s, txs[..k]);
    AtNext(s, txs, k);
    OnlyApprovalsPay(At(s, txs, k), txs[k], id);
    ApprovalsAreGenuine(s, txs, id, k + 1);
  }

  /** Payout safety across rotations: an executed proposal was paid by exactly one transaction
      of the run, and that one met the quorum with genuine, distinct approvals. */
  lemma PaidOnceWithQuorum(s: State, txs: seq<Tx>, id: int)
    requires Deployed(s) && Executed(Run(s, txs), id)
    ensures exists k: nat :: OnlyPayment(s, txs, id, k)
  {
    var k := FirstPayment(s, txs, id);
    forall m: nat | m < |txs| && m != k
      ensures !PaidAt(s, txs, id, m)
    {
      if PaidAt(s, txs, id, m) {
        if m < k {
          PaidAtMostOnce(s, txs, id, m, k);
        } else {
          PaidAtMostOnce(s, txs, id, k, m);
        }
      }
    }
    assert OnlyPayment(s, txs, id, k);
  }

  // ---------------------------------------------------------------------------------------
  // Approvals of signers that have been removed

  /** The members of `xs` that are signers now. */
  ghost function StillSigners(s: State, xs: seq<Address>): set<Address> {
    set x | x in xs && x in s.signers
  }

  /** The approvals recorded for `id` include a threshold of current signers. */
  ghost predicate CurrentQuorum(s: State, id: int) {
    id in s.proposals && s.threshold <= |StillSigners(s, s.proposals[id].approvals)|
  }

  lemma {:induction false} StillSignersCount(s: State, xs: seq<Address>)
    requires Distinct(xs)
    ensures |StillSigners(s, xs)| <= |xs|
    ensures |StillSigners(s, xs)| == |xs| <==> forall x | x in xs :: x in s.signers
    decreases |xs|
  {
    if xs == [] {
      assert StillSigners(s, xs) == {};
    } else {
      var init, last := xs[..|xs| - 1], xs[|xs| - 1];
      assert xs == init + [last];
      StillSignersCount(s, init);
      assert StillSigners(s, xs) == StillSigners(s, init) + (if last in s.signers then {last} else {});
      assert last !in init;
    }
  }

  /** When a payout has a quorum of current signers: exactly when those of the approvers recorded
      before that are still signers, with the caller, reach the threshold; and where the approvals
      just reach the threshold, exactly when every recorded approver is still a signer. */
  lemma QuorumIsCurrentIff(s: State, tx: Tx, id: int)
    requires Good(s) && PaysOut(s, tx, id)
    ensures var recorded, caller := s.proposals[id].approvals, tx.call.signer;
            && (CurrentQuorum(Step(s, tx), id) <==> s.threshold <= |StillSigners(s, recorded) + {caller}|)
            && (|Step(s, tx).proposals[id].approvals| == s.threshold ==>
                  (CurrentQuorum(Step(s, tx), id) <==> forall x | x in recorded :: x in s.signers))
  {
    var recorded, caller := s.proposals[id].approvals, tx.call.signer;
    var s' := Step(s, tx);
    assert s'.proposals[id].approvals == Recorded(recorded, caller);
    assert StillSigners(s', Recorded(recorded, caller)) == StillSigners(s, recorded) + {caller};
    StillSignersCount(s', Recorded(recorded, caller));
  }

  ghost predicate NoRotation(s: State, txs: seq<Tx>, k: nat)
    requires k <= |txs|
  {
    forall j | 0 <= j < k :: !(txs[j].call.SetSigners? && Exec(At(s, txs, j), txs[j]).Ok?)
  }

  lemma {:induction false} SignersStay(s: State, txs: seq<Tx>, k: nat)
    requires k <= |txs| && NoRotation(s, txs, k)
    ensures At(s, txs, k).signers == s.signers
    decreases k
  {
    if k > 0 {
      SignersStay(s, txs, k - 1);
      AtNext(s, txs, k - 1);
    }
  }

  /** As long as no rotation has committed, every payout has a quorum of current signers. */
  lemma QuorumIsCurrentWithoutRotation(s: State, txs: seq<Tx>, id: int, k: nat)
    requires Deployed(s) && k < |txs| && NoRotation(s, txs, k) && PaidAt(s, txs, id, k)
    ensures CurrentQuorum(At(s, txs, k + 1), id)
  {
    var e := At(s, txs, k);
    AtGood(s, txs, k);
    AtNext(s, txs, k);
    ApprovalsAreGenuine(s, txs, id, k);
    SignersStay(s, txs, k);
    forall x | x in e.proposals[id].approvals ensures x in e.signers {
      var j: nat :| j < k && ApprovedAt(s, txs, x, id, j);
      SignersStay(s, txs, j);
    }
    StillSignersCount(Step(e, txs[k]), Step(e, txs[k]).proposals[id].approvals);
  }

  /** A wallet with one token unit, whose three signers need two approvals. */
  ghost function Sample(self: Address, a: Address, b: Address, c: Address): State {
    State(self, [a, b, c], 2, 0, map[], map[self := 1])
  }

  /** `a` approves, is replaced by `d`, and `d` completes the quorum. */
  ghost function ReplacedApprover(to: Address, a: Address, b: Address, c: Address, d: Address): seq<Tx> {
    [Tx(Propose(to, 1), {}, 0),
     Tx(Approve(a, 0), {a}, 0),
     Tx(SetSigners([b, c], [b, c, d], 2), {b, c}, 0),
     Tx(Approve(d, 0), {d}, 0)]
  }

  lemma RunOfFour(s: State, t1: Tx, t2: Tx, t3: Tx, t4: Tx)
    ensures Run(s, [t1, t2, t3, t4]) == Step(Step(Step(Step(s, t1), t2), t3), t4)
    ensures At(s, [t1, t2, t3, t4], 3) == Step(Step(Step(s, t1), t2), t3)
  {
    var txs := [t1, t2, t3, t4];
    assert txs[..4] == txs && txs[..0] == [];
    AtNext(s, txs, 0);
    AtNext(s, txs, 1);
    AtNext(s, txs, 2);
    AtNext(s, txs, 3);
  }

  lemma SampleIsDeployed(self: Address, a: Address, b: Address, c: Address)
    requires Distinct([a, b, c])
    ensures Deployed(Sample(self, a, b, c))
  {
    TotalUpdate(map[], self, 1);
    assert map[][self := 1] == map[self := 1];
  }

  /** The state before the last of these calls. */
  ghost function Rotated(self: Address, to: Address, a: Address, b: Address, c: Address, d: Address): State {
    State(self, [b, c, d], 2, 1, map[0 := Proposal(0, to, 1, false, [a], 0)], map[self := 1])
  }

  lemma ReplacedApproverRotates(self: Address, to: Address, a: Address, b: Address, c: Address, d: Address)
    requires Distinct([self, to, a, b, c, d])
    ensures var s, txs := Sample(self, a, b, c), ReplacedApprover(to, a, b, c, d);
            Step(Step(Step(s, txs[0]), txs[1]), txs[2]) == Rotated(self, to, a, b, c, d)
  {
    var s, txs := Sample(self, a, b, c), ReplacedApprover(to, a, b, c, d);
    var s1 := State(self, [a, b, c], 2, 1, map[0 := Proposal(0, to, 1, false, [], 0)], map[self := 1]);
    var s2 := s1.(proposals := map[0 := Proposal(0, to, 1, false, [a], 0)]);
    var all := [self, to, a, b, c, d];
    assert all[0] != all[2] && all[0] != all[3] && all[0] != all[4] && all[3] != all[4];
    assert all[3] != all[5] && all[4] != all[5];
    assert Step(s, txs[0]) == s1;
    assert a in s1.signers && b in s1.signers && c in s1.signers;
    assert Recorded([], a) == [a];
    assert Step(s1, txs[1]) == s2;
    assert [b, c][1..] == [c] && [c][1..] == [];
    assert Collect(s2, {b, c}, [], [b, c]) == Ok([b, c]);
    assert Collect(s2, {b, c}, [c], [b]) == Collect(s2, {b, c}, [], [b] + [c]);
    assert [b] + [c] == [b, c] && [] + [b] == [b];
    assert Collect(s2, {b, c}, [b, c], []) == Collect(s2, {b, c}, [c], [b]);
  }

  lemma RemovedSignerCompletes(self: Address, to: Address, a: Address, b: Address, c: Address, d: Address)
    requires Distinct([self, to, a, b, c, d]) && Good(Rotated(self, to, a, b, c, d))
    ensures var s, tx := Rotated(self, to, a, b, c, d), Tx(Approve(d, 0), {d}, 0);
            && PaysOut(s, tx, 0) && Step(s, tx).proposals[0].approvals == [a, d]
            && Step(s, tx).signers == [b, c, d] && Step(s, tx).threshold == 2
  {
    var s, tx := Rotated(self, to, a, b, c, d), Tx(Approve(d, 0), {d}, 0);
    var all := [self, to, a, b, c, d];
    assert all[0] != all[5] && all[2] != all[5];
    assert d in s.signers && Recorded([a], d) == [a, d];
    TransferSucceedsIff(s.ledger, self, to, 1);
    OnlyApprovalsPay(s, tx, 0);
  }

  /** A run from deployment in which a payout does not have a quorum of current signers: of the
      two approvals it counts, one is by a signer that has been removed in between. */
  lemma RemovedSignerCounts(self: Address, to: Address, a: Address, b: Address, c: Address, d: Address)
    requires Distinct([self, to, a, b, c, d])
    ensures var s, txs := Sample(self, a, b, c), ReplacedApprover(to, a, b, c, d);
            && Deployed(s) && PaidAt(s, txs, 0, 3)
            && !CurrentQuorum(Run(s, txs), 0)
            && StillSigners(Run(s, txs), Run(s, txs).proposals[0].approvals) == {d}
  {
    var s, txs := Sample(self, a, b, c), ReplacedApprover(to, a, b, c, d);
    var all := [self, to, a, b, c, d];
    assert all[2..5] == [a, b, c];
    assert all[2] != all[3] && all[2] != all[4] && all[2] != all[5];
    SampleIsDeployed(self, a, b, c);
    RunOfFour(s, txs[0], txs[1], txs[2], txs[3]);
    ReplacedApproverRotates(self, to, a, b, c, d);
    AtGood(s, txs, 3);
    RemovedSignerCompletes(self, to, a, b, c, d);
    assert StillSigners(Run(s, txs), [a, d]) == {d};
  }

  // ---------------------------------------------------------------------------------------
  // Where the wallet's tokens went

  /** Amounts of executed proposals that left the wallet. */
  ghost function Paid(s: State): map<int, int> {
    map id | id in s.proposals ::
      if s.proposals[id].executed && s.proposals[id].destination != s.self
      then s.proposals[id].amount else 0
  }

  ghost function Received(s: State, tx: Tx): int {
    if Exec(s, tx).Panic? then 0
    else match tx.call
      case TokenTransfer(_, to, amount) => if to == s.self then amount else 0
      case TokenMint(to, amount) => if to == s.self then amount else 0
      case _ => 0
  }

  ghost function Funding(s: State, txs: seq<Tx>): int
    decreases |txs|
  {
    if txs == [] then 0
    else Funding(s, txs[..|txs| - 1]) + Received(Run(s, txs[..|txs| - 1]), txs[|txs| - 1])
  }

  ghost function Account(s: State): int {
    Get(s.ledger, s.self) + Total(Paid(s))
  }

  lemma ApproveAccounts(s: State, auths: set<Address>, signer: Address, id: int)
    requires Good(s) && DoApprove(s, auths, signer, id).Ok?
    ensures Account(DoApprove(s, auths, signer, id).value) == Account(s)
  {
    var s' := DoApprove(s, auths, signer, id).value;
    var p := s.proposals[id];
    var paid' := if s'.proposals[id].executed && p.destination != s.self then p.amount else 0;
    TotalUpdate(Paid(s), id, paid');
    assert Paid(s') == Paid(s)[id := paid'];
    if s'.proposals[id].executed {
      TransferConserves(s.ledger, s.self, p.destination, p.amount);
    }
  }

  lemma StepAccounts(s: State, tx: Tx)
    requires Good(s)
    ensures Account(Step(s, tx)) == Account(s) + Received(s, tx)
  {
    if Exec(s, tx).Ok? {
      match tx.call
      case Propose(destination, amount) =>
        TotalUpdate(Paid(s), s.count, 0);
        assert Paid(Step(s, tx)) == Paid(s)[s.count := 0];
      case Approve(signer, id) => ApproveAccounts(s, tx.auths, signer, id);
      case SetSigners(approvers, newSigners, newThreshold) =>
        assert Paid(Step(s, tx)) == Paid(s);
      case TokenTransfer(from, to, amount) =>
        TransferConserves(s.ledger, from, to, amount);
        assert Paid(Step(s, tx)) == Paid(s);
      case TokenMint(to, amount) =>
        assert Paid(Step(s, tx)) == Paid(s);
    }
  }

  /** Over every run the wallet holds what it was funded with minus what executed proposals
      paid out to others. */
  lemma {:induction false} WalletConservation(s: State, txs: seq<Tx>)
    requires Deployed(s)
    ensures var e := Run(s, txs);
            Get(e.ledger, e.self) == Get(s.ledger, s.self) + Funding(s, txs) - Total(Paid(e))
    decreases |txs|
  {
    if txs == [] {
      assert Paid(s) == map[];
    } else {
      WalletConservation(s, txs[..|txs| - 1]);
      RunGood(s, txs[..|txs| - 1]);
      StepAccounts(Run(s, txs[..|txs| - 1]), txs[|txs| - 1]);
    }
  }

  // ---------------------------------------------------------------------------------------
  // Approvals between rotations

  /** The distinct members of a list, in order of first appearance. */
  ghost function FirstSeen(xs: seq<Address>): (r: seq<Address>)
    ensures forall x :: x in r <==> x in xs
    ensures Distinct(r)
  {
    if xs == [] then []
    else
      var r := FirstSeen(xs[..|xs| - 1]);
      assert xs == xs[..|xs| - 1] + [xs[|xs| - 1]];
      Recorded(r, xs[|xs| - 1])
  }

  /** An approval of `id` by a signer who authorised it. */
  ghost predicate Approves(s: State, tx: Tx, id: int) {
    && tx.call.Approve? && tx.call.id == id
    && tx.call.signer in s.signers && tx.call.signer in tx.auths && tx.call.signer != s.self
  }

  /** The signers who approve `id` in a run, with repeats, among any other calls. */
  ghost function Approvers(s: State, txs: seq<Tx>, id: int): seq<Address>
    decreases |txs|
  {
    if txs == [] then []
    else
      var init, last := txs[..|txs| - 1], txs[|txs| - 1];
      Approvers(s, init, id) + (if Approves(s, last, id) then [last.call.signer] else [])
  }

  /** No rotation commits, and as long as `id` is open the wallet covers its amount. */
  ghost predicate Undisturbed(s: State, txs: seq<Tx>, id: int)
    decreases |txs|
  {
    txs == []
    || (var init, last := txs[..|txs| - 1], txs[|txs| - 1];
        && Undisturbed(s, init, id)
        && StaysPayable(Run(s, init), last, id))
  }

  ghost predicate StaysPayable(e: State, tx: Tx, id: int) {
    && !(tx.call.SetSigners? && Exec(e, tx).Ok?)
    && (id in e.proposals && !e.proposals[id].executed ==> e.proposals[id].amount <= Get(e.ledger, e.self))
  }

  /** Proposal `id` of `s` after the approvals `xs`, as the promise describes it. */
  ghost predicate ApprovedBy(s: State, e: State, id: int, xs: seq<Address>)
    requires 0 <= s.threshold
  {
    && id in s.proposals && id in e.proposals
    && e.signers == s.signers && e.threshold == s.threshold && e.self == s.self
    && var p := e.proposals[id];
       && p.destination == s.proposals[id].destination && p.amount == s.proposals[id].amount
       && (p.executed <==> s.threshold <= |FirstSeen(xs)|)
       && p.approvals == (if p.executed then FirstSeen(xs)[..s.threshold] else FirstSeen(xs))
  }

  lemma NextApproval(s: State, e: State, id: int, xs: seq<Address>, tx: Tx)
    requires Good(s) && Good(e) && ApprovedBy(s, e, id, xs)
    requires StaysPayable(e, tx, id) && Approves(s, tx, id)
    ensures ApprovedBy(s, Step(e, tx), id, xs + [tx.call.signer])
  {
    var x := tx.call.signer;
    assert (xs + [x])[..|xs|] == xs;
    assert FirstSeen(xs + [x]) == Recorded(FirstSeen(xs), x);
    var p := e.proposals[id];
    if !p.executed {
      TransferSucceedsIff(e.ledger, e.self, p.destination, p.amount);
    }
  }

  lemma OtherCall(s: State, e: State, id: int, xs: seq<Address>, tx: Tx)
    requires Good(s) && Good(e) && ApprovedBy(s, e, id, xs)
    requires StaysPayable(e, tx, id) && !Approves(s, tx, id)
    ensures ApprovedBy(s, Step(e, tx), id, xs)
  {
    if Exec(e, tx).Ok? {
      assert Step(e, tx).proposals[id] == e.proposals[id];
    }
  }

  /** Between two rotations, while the wallet covers the amount, and among any other calls:
      approvals in any order and with any repeats execute the proposal exactly at the threshold-th
      distinct signer; recorded approvals are the distinct signers seen so far, in order of first
      appearance. */
  lemma {:induction false} OrderDoesNotMatter(s: State, id: int, txs: seq<Tx>)
    requires Good(s) && id in s.proposals
    requires !s.proposals[id].executed && s.proposals[id].approvals == []
    requires Undisturbed(s, txs, id)
    ensures ApprovedBy(s, Run(s, txs), id, Approvers(s, txs, id))
    decreases |txs|
  {
    if txs != [] {
      var init, last := txs[..|txs| - 1], txs[|txs| - 1];
      OrderDoesNotMatter(s, id, init);
      RunGood(s, init);
      if Approves(s, last, id) {
        NextApproval(s, Run(s, init), id, Approvers(s, init, id), last);
      } else {
        OtherCall(s, Run(s, init), id, Approvers(s, init, id), last);
        assert Approvers(s, txs, id) == Approvers(s, init, id);
      }
    }
  }

  /** Nothing is paid before: as long as a run of such approvals alone has not executed the
      proposal, it has moved no token. */
  lemma {:induction false} NothingPaidBefore(s: State, id: int, txs: seq<Tx>)
    requires Good(s) && id in s.proposals && !Executed(Run(s, txs), id)
    requires forall i | 0 <= i < |txs| :: txs[i].call.Approve? && txs[i].call.id == id
    ensures Run(s, txs).ledger == s.ledger
    decreases |txs|
  {
    if txs != [] {
      var init, last := txs[..|txs| - 1], txs[|txs| - 1];
      assert txs[|txs| - 1].call.id == id;
      RunGood(s, init);
      StepGood(Run(s, init), last);
      assert forall i | 0 <= i < |init| :: init[i] == txs[i];
      NothingPaidBefore(s, id, init);
    }
  }
}
