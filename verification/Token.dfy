/** The token contract the escrow and the multisig wallet pay with. */
module Token {
  import opened Soroban
  import opened Sums

  type Ledger = map<Address, int>

  /** `transfer`: debit first, then credit. It refuses a negative amount, an amount above the
      payer's balance, and a credit that would leave the i128 range. */
  function Move(l: Ledger, from: Address, to: Address, amount: int): (r: Outcome<Ledger>) {
    if amount < 0 || Get(l, from) < amount then Panic(TokenRefused)
    else
      var debited := l[from := Get(l, from) - amount];
      if !FitsI128(Get(debited, to) + amount) then Panic(TokenRefused)
      else Ok(debited[to := Get(debited, to) + amount])
  }

  /** Issuance by the token's administrator; the supply stays inside the i128 range. */
  ghost function Mint(l: Ledger, to: Address, amount: int): (r: Outcome<Ledger>) {
    if amount < 0 || I128_MAX < Total(l) + amount then Panic(TokenRefused)
    else Ok(l[to := Get(l, to) + amount])
  }

  ghost predicate Sound(l: Ledger) {
    NonNegative(l) && Total(l) <= I128_MAX
  }

  /** A transfer moves `amount` from one account to the other and creates no token. */
  lemma TransferConserves(l: Ledger, from: Address, to: Address, amount: int)
    requires Sound(l) && Move(l, from, to, amount).Ok?
    ensures var l' := Move(l, from, to, amount).value;
            && Sound(l') && Total(l') == Total(l)
            && (forall a | a != from && a != to :: Get(l', a) == Get(l, a))
            && (from == to ==> Get(l', from) == Get(l, from))
            && (from != to ==> (Get(l', from) == Get(l, from) - amount
                                && Get(l', to) == Get(l, to) + amount))
  {
    var debited := l[from := Get(l, from) - amount];
    TotalUpdate(l, from, Get(l, from) - amount);
    TotalUpdate(debited, to, Get(debited, to) + amount);
  }

  /** `amount` tokens went from one account to the other, and no other account changed. */
  ghost predicate Moved(l: Ledger, l': Ledger, from: Address, to: Address, amount: int) {
    && (forall a | a != from && a != to :: Get(l', a) == Get(l, a))
    && (from == to ==> Get(l', from) == Get(l, from))
    && (from != to ==> Get(l', from) == Get(l, from) - amount && Get(l', to) == Get(l, to) + amount)
  }

  lemma MoveMoves(l: Ledger, from: Address, to: Address, amount: int)
    requires Sound(l) && Move(l, from, to, amount).Ok?
    ensures Moved(l, Move(l, from, to, amount).value, from, to, amount)
  {
    TransferConserves(l, from, to, amount);
  }

  /** On a sound ledger the only reasons to refuse are a negative amount or too few tokens. */
  lemma TransferSucceedsIff(l: Ledger, from: Address, to: Address, amount: int)
    requires Sound(l)
    ensures Move(l, from, to, amount).Ok? <==> 0 <= amount <= Get(l, from)
  {
    if 0 <= amount <= Get(l, from) {
      EntriesBelowTotal(l, from, to);
      EntriesBelowTotal(l, to, from);
    }
  }

  lemma MintAdds(l: Ledger, to: Address, amount: int)
    requires Sound(l) && Mint(l, to, amount).Ok?
    ensures Sound(Mint(l, to, amount).value)
    ensures Total(Mint(l, to, amount).value) == Total(l) + amount
    ensures Get(Mint(l, to, amount).value, to) == Get(l, to) + amount
    ensures forall a | a != to :: Get(Mint(l, to, amount).value, a) == Get(l, a)
  {
    TotalUpdate(l, to, Get(l, to) + amount);
  }

  class TokenContract {
    var balances: Ledger

    constructor (initial: Ledger)
      ensures balances == initial
    {
      balances := initial;
    }

    method Transfer(from: Address, to: Address, amount: int) returns (ok: bool)
      modifies this
      ensures ok == Move(old(balances), from, to, amount).Ok?
      ensures balances == Commit(old(balances), Move(old(balances), from, to, amount))
    {
      var payer := Get(balances, from);
      if amount < 0 || payer < amount {
        return false;
      }
      var before := balances;
      balances := balances[from := payer - amount];
      var payee := Get(balances, to);
      if !FitsI128(payee + amount) {
        balances := before;
        return false;
      }
      balances := balances[to := payee + amount];
      return true;
    }
  }
}
