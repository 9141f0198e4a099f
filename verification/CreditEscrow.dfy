/** The credit-escrow contract as an object that overwrites its storage entries, proved against
    the state machine of EscrowSpec. A panic undoes what the call has written so far. */
module CreditEscrow {
  import opened Soroban
  import opened Sums
  import opened Token
  import opened Paging
  import opened EscrowSpec

  class Escrow {
    const self: Address
    const token: TokenContract
    var admin: Address
    var paused: bool
    var balances: map<Address, int>
    var revenue: int
    var usageCount: map<Address, int>
    var usage: map<(Address, int), UsageEvent>
    var charged: set<(Address, string)>
    var refunded: set<(Address, string)>

    ghost function View(): State
      reads this, token
    {
      State(self, admin, paused, balances, revenue, usageCount, usage, charged, refunded,
            token.balances)
    }

    constructor (self: Address, admin: Address, token: TokenContract)
      ensures this.self == self && this.token == token && this.admin == admin
      ensures Sound(token.balances) ==> Deployed(View())
      ensures token.balances == old(token.balances)
    {
      this.self, this.token, this.admin, this.paused := self, token, admin, false;
      balances, revenue, usageCount, usage := map[], 0, map[], map[];
      charged, refunded := {}, {};
    }

    method Deposit(auths: set<Address>, user: Address, amount: I128) returns (r: Outcome<()>)
      modifies this, token
      ensures View() == Commit(old(View()), DoDeposit(old(View()), auths, user, amount))
      ensures r == Status(DoDeposit(old(View()), auths, user, amount))
    {
      if !Authorised(auths, user, self) { return Panic(Unauthorized); }
      if amount <= 0 { return Panic(NotPositive); }
      if paused { return Panic(ContractPaused); }
      var before := token.balances;
      var ok := token.Transfer(user, self, amount);
      if !ok { return Panic(TokenRefused); }
      var current := Get(balances, user);
      if !FitsI128(current + amount) {
        token.balances := before;
        return Panic(Overflow);
      }
      balances := balances[user := current + amount];
      return Ok(());
    }

    method Withdraw(auths: set<Address>, user: Address, amount: I128) returns (r: Outcome<()>)
      modifies this, token
      ensures View() == Commit(old(View()), DoWithdraw(old(View()), auths, user, amount))
      ensures r == Status(DoWithdraw(old(View()), auths, user, amount))
    {
      if !Authorised(auths, user, self) { return Panic(Unauthorized); }
      if amount <= 0 { return Panic(NotPositive); }
      if paused { return Panic(ContractPaused); }
      var current := Get(balances, user);
      if current < amount { return Panic(InsufficientBalance); }
      var before := balances;
      balances := balances[user := current - amount];
      var ok := token.Transfer(self, user, amount);
      if !ok {
        balances := before;
        return Panic(TokenRefused);
      }
      return Ok(());
    }

    method Charge(auths: set<Address>, time: nat, user: Address, amount: I128, quoteId: string)
      returns (r: Outcome<()>)
      modifies this
      ensures View() == Commit(old(View()), DoCharge(old(View()), auths, time, user, amount, quoteId))
      ensures r == Status(DoCharge(old(View()), auths, time, user, amount, quoteId))
    {
      if !Authorised(auths, admin, self) { return Panic(Unauthorized); }
      if amount <= 0 { return Panic(NotPositive); }
      if paused { return Panic(ContractPaused); }
      if (user, quoteId) in charged { return Panic(AlreadyCharged); }
      var current := Get(balances, user);
      if current < amount { return Panic(InsufficientBalance); }
      var chargedBefore, balancesBefore := charged, balances;
      charged := charged + {(user, quoteId)};
      balances := balances[user := current - amount];
      if !FitsI128(revenue + amount) {
        charged, balances := chargedBefore, balancesBefore;
        return Panic(Overflow);
      }
      var revenueBefore, usageBefore := revenue, usage;
      revenue := revenue + amount;
      var count := Get(usageCount, user);
      usage := usage[(user, count) := UsageEvent(user, amount, quoteId, time)];
      if count >= U32_MAX {
        charged, balances, revenue, usage := chargedBefore, balancesBefore, revenueBefore, usageBefore;
        return Panic(CounterOverflow);
      }
      usageCount := usageCount[user := count + 1];
      return Ok(());
    }

    method Refund(auths: set<Address>, user: Address, amount: I128, quoteId: string)
      returns (r: Outcome<()>)
      modifies this, token
      ensures View() == Commit(old(View()), DoRefund(old(View()), auths, user, amount, quoteId))
      ensures r == Status(DoRefund(old(View()), auths, user, amount, quoteId))
    {
      if !Authorised(auths, admin, self) { return Panic(Unauthorized); }
      if amount <= 0 { return Panic(NotPositive); }
      if paused { return Panic(ContractPaused); }
      if (user, quoteId) in refunded { return Panic(AlreadyRefunded); }
      var current := Get(balances, user);
      if current < amount { return Panic(InsufficientBalance); }
      var refundedBefore, balancesBefore := refunded, balances;
      refunded := refunded + {(user, quoteId)};
      balances := balances[user := current - amount];
      var ok := token.Transfer(self, user, amount);
      if !ok {
        refunded, balances := refundedBefore, balancesBefore;
        return Panic(TokenRefused);
      }
      return Ok(());
    }

    method WithdrawRevenue(auths: set<Address>, destination: Address, amount: I128)
      returns (r: Outcome<()>)
      modifies this, token
      ensures View() == Commit(old(View()), DoWithdrawRevenue(old(View()), auths, destination, amount))
      ensures r == Status(DoWithdrawRevenue(old(View()), auths, destination, amount))
    {
      if !Authorised(auths, admin, self) { return Panic(Unauthorized); }
      if amount <= 0 { return Panic(NotPositive); }
      if paused { return Panic(ContractPaused); }
      if revenue < amount { return Panic(InsufficientRevenue); }
      var before := revenue;
      revenue := revenue - amount;
      var ok := token.Transfer(self, destination, amount);
      if !ok {
        revenue := before;
        return Panic(TokenRefused);
      }
      return Ok(());
    }

    method SetAdmin(auths: set<Address>, newAdmin: Address) returns (r: Outcome<()>)
      modifies this
      ensures View() == Commit(old(View()), DoSetAdmin(old(View()), auths, newAdmin))
      ensures r == Status(DoSetAdmin(old(View()), auths, newAdmin))
    {
      if !Authorised(auths, admin, self) { return Panic(Unauthorized); }
      admin := newAdmin;
      return Ok(());
    }

    method SetPaused(auths: set<Address>, flag: bool) returns (r: Outcome<()>)
      modifies this
      ensures View() == Commit(old(View()), DoSetPaused(old(View()), auths, flag))
      ensures r == Status(DoSetPaused(old(View()), auths, flag))
    {
      if !Authorised(auths, admin, self) { return Panic(Unauthorized); }
      paused := flag;
      return Ok(());
    }

    /** One page of a user's history: nothing is skipped, because the log has no holes. */
    method GetUsage(user: Address, offset: U32, limit: U32) returns (result: seq<UsageEvent>)
      requires Dense(View(), user)
      ensures result == Page(Log(View(), user), offset, limit)
    {
      var count := Get(usageCount, user);
      ghost var log := Log(View(), user);
      var end := PageEnd(offset, limit, count);
      result := [];
      var i := offset;
      while i < end
        invariant offset <= i && (offset < end ==> i <= end)
        invariant result == if offset < end then log[offset..i] else []
      {
        assert log[offset..i + 1] == log[offset..i] + [log[i]];
        if (user, i) in usage {
          result := result + [usage[(user, i)]];
        }
        i := i + 1;
      }
    }
  }

  /** A client that reads page after page, each from behind the last entry received, gets the
      whole log in order. */
  method ReadAll(escrow: Escrow, user: Address, limit: U32) returns (all: seq<UsageEvent>)
    requires Dense(escrow.View(), user) && 1 <= limit
    ensures all == Log(escrow.View(), user)
  {
    ghost var log := Log(escrow.View(), user);
    var offset: U32 := 0;
    all := [];
    while true
      invariant 0 <= offset <= |log| && all == log[..offset]
      decreases |log| - offset
    {
      var page := escrow.GetUsage(user, offset, limit);
      if page == [] {
        assert offset == |log|;
        return;
      }
      assert log[..offset + |page|] == log[..offset] + page;
      all := all + page;
      offset := offset + |page|;
    }
  }
}
