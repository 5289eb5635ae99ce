/** Balances of the token program's accounts, as plain counters.
    Only what the vault's instructions rely on is modelled: a transfer
    moves exactly its amount or fails, a mint and a burn change the
    account and the supply by exactly their amount or fail. */
module Token {
  import opened Numeric
  import opened Errors

  /** A token account (the shares account of a depositor, a collateral account). */
  class TokenAccount {
    var amount: u64

    constructor (amount: u64)
      ensures this.amount == amount
    {
      this.amount := amount;
    }
  }

  /** A mint; for the vault's own mint, `supply` is the number of shares outstanding. */
  class Mint {
    var supply: u64

    constructor (supply: u64)
      ensures this.supply == supply
    {
      this.supply := supply;
    }
  }

  /** `transfer`: fails without effect when the source holds too little
      or the destination would overflow. */
  method Transfer(from: TokenAccount, to: TokenAccount, amount: u64) returns (r: Outcome)
    requires from != to
    modifies from, to
    ensures r.Pass? <==> amount <= old(from.amount) && old(to.amount) + amount <= U64_MAX
    ensures r.Pass? ==> from.amount == old(from.amount) - amount && to.amount == old(to.amount) + amount
    ensures r.Fail? ==> r.error == TokenFailure && from.amount == old(from.amount) && to.amount == old(to.amount)
  {
    if from.amount < amount || to.amount + amount > U64_MAX {
      return Fail(TokenFailure);
    }
    from.amount := from.amount - amount;
    to.amount := to.amount + amount;
    r := Pass;
  }

  /** `mint_to`: supply and destination grow by `amount`, or it fails without effect. */
  method MintTo(mint: Mint, to: TokenAccount, amount: u64) returns (r: Outcome)
    modifies mint, to
    ensures r.Pass? <==> old(mint.supply) + amount <= U64_MAX && old(to.amount) + amount <= U64_MAX
    ensures r.Pass? ==> mint.supply == old(mint.supply) + amount && to.amount == old(to.amount) + amount
    ensures r.Fail? ==> r.error == TokenFailure && mint.supply == old(mint.supply) && to.amount == old(to.amount)
  {
    if mint.supply + amount > U64_MAX || to.amount + amount > U64_MAX {
      return Fail(TokenFailure);
    }
    mint.supply := mint.supply + amount;
    to.amount := to.amount + amount;
    r := Pass;
  }

  /** `burn`: account and supply shrink by `amount`, or it fails without effect. */
  method Burn(mint: Mint, from: TokenAccount, amount: u64) returns (r: Outcome)
    modifies mint, from
    ensures r.Pass? <==> amount <= old(from.amount) && amount <= old(mint.supply)
    ensures r.Pass? ==> mint.supply == old(mint.supply) - amount && from.amount == old(from.amount) - amount
    ensures r.Fail? ==> r.error == TokenFailure && mint.supply == old(mint.supply) && from.amount == old(from.amount)
  {
    if from.amount < amount || mint.supply < amount {
      return Fail(TokenFailure);
    }
    mint.supply := mint.supply - amount;
    from.amount := from.amount - amount;
    r := Pass;
  }
}
