/** The vault's own state: the share ledger and the position direction. */
module State {
  import opened Numeric
  import opened Errors
  import Token

  /** The direction of the vault's exposure in one market; derived, never stored. */
  datatype Position = Long | Short | None

  /** The vault's ledger account: the number of shares issued and not yet burned. */
  class VaultState {
    var totalAmountMinted: u64

    /** The ledger as the account is first created (all fields zero). */
    constructor ()
      ensures totalAmountMinted == 0
    {
      totalAmountMinted := 0;
    }
  }

  /** The ledger of minted shares agrees with the supply of the share mint. */
  ghost predicate Backed(vault: VaultState, shares: Token.Mint)
    reads vault, shares
  {
    vault.totalAmountMinted == shares.supply
  }

  /** The ledger after a deposit of `mintAmount` shares: `checked_add(..).unwrap()`. */
  function LedgerCredit(total: u64, mintAmount: u64): (r: Result<u64>)
    ensures r.Ok? <==> total + mintAmount <= U64_MAX
    ensures r.Err? ==> r.error == Panic
    ensures r.Ok? ==> r.value - total == mintAmount
  {
    if total + mintAmount > U64_MAX then Err(Panic) else Ok(total + mintAmount)
  }

  /** The ledger after a withdrawal that burns `burnAmount` shares:
      `checked_sub(burn_amount as u64).unwrap()`. */
  function LedgerDebit(total: u64, burnAmount: u128): (r: Result<u64>)
    ensures burnAmount <= U64_MAX ==> (r.Ok? <==> burnAmount <= total)
    ensures r.Err? ==> r.error == Panic
    ensures r.Ok? && burnAmount <= U64_MAX ==> total - r.value == burnAmount
  {
    var burned := AsU64(burnAmount);
    if burned > total then Err(Panic) else Ok(total - burned)
  }

  /** Depositing `d` and then burning `d` shares gives the ledger back its old value. */
  lemma CreditThenDebitRestores(total: u64, d: u64)
    requires LedgerCredit(total, d).Ok?
    ensures LedgerDebit(LedgerCredit(total, d).value, d) == Ok(total)
  {
  }
}
