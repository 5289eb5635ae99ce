/** The `deposit` instruction: shares are minted one-for-one against the
    collateral deposited, the ledger of minted shares is credited, and the
    collateral travels from the depositor through the vault's collateral
    account into the venue. */
module Deposits {
  import opened Numeric
  import opened Errors
  import opened State
  import opened Exchange
  import Token

  /** `deposit`. */
  method Deposit(
    vault: VaultState, shares: Token.Mint,
    userVaultAta: Token.TokenAccount, userCollateralAta: Token.TokenAccount, vaultCollateralAta: Token.TokenAccount,
    ex: ClearingHouse, depositAmount: u64)
    returns (r: Outcome, ghost calls: seq<CallRecord>)
    requires userVaultAta != userCollateralAta && userVaultAta != vaultCollateralAta
    requires userCollateralAta != vaultCollateralAta
    modifies vault, shares, userVaultAta, userCollateralAta, vaultCollateralAta, ex
    ensures ex.log == old(ex.log) + calls
    // the checked addition to the ledger is the only panic, and it comes first
    ensures r == Fail(Panic) <==> old(vault.totalAmountMinted) + depositAmount > U64_MAX
    ensures r == Fail(Panic) ==>
      && calls == [] && ex.Observe() == old(ex.Observe())
      && unchanged(vault, shares, userVaultAta, userCollateralAta, vaultCollateralAta)
    // the venue is called only once both token movements have gone through,
    // and its verdict is the result
    ensures r.Fail? && r.error != ExchangeFailure ==> calls == [] && ex.Observe() == old(ex.Observe())
    ensures calls == [] <==> r.Fail? && r.error != ExchangeFailure
    ensures calls != [] ==>
      calls == [CallRecord(Call.DepositCollateral(depositAmount, vaultCollateralAta), old(ex.Observe()), ex.Observe(),
                           if r.Pass? then -(depositAmount as int) else 0, r)]
    // the mint and the transfer fail exactly on their own conditions
    ensures r == Fail(TokenFailure) <==>
      && old(vault.totalAmountMinted) + depositAmount <= U64_MAX
      && (|| old(shares.supply) + depositAmount > U64_MAX
          || old(userVaultAta.amount) + depositAmount > U64_MAX
          || old(userCollateralAta.amount) < depositAmount
          || old(vaultCollateralAta.amount) + depositAmount > U64_MAX)
    ensures r.Pass? ==>
      && calls == [CallRecord(Call.DepositCollateral(depositAmount, vaultCollateralAta), old(ex.Observe()), ex.Observe(),
                              -(depositAmount as int), Pass)]
      && vault.totalAmountMinted == old(vault.totalAmountMinted) + depositAmount
      && shares.supply == old(shares.supply) + depositAmount
      && userVaultAta.amount == old(userVaultAta.amount) + depositAmount
      && userCollateralAta.amount == old(userCollateralAta.amount) - depositAmount
      && vaultCollateralAta.amount == old(vaultCollateralAta.amount)
      && ex.positions == old(ex.positions) && ex.markets == old(ex.markets)
    // with nothing open, the venue credits the vault with exactly the deposit
    ensures r.Pass? && NoOpenPosition(old(ex.positions)) ==> ex.collateral == old(ex.collateral) + depositAmount
    ensures r.Pass? && old(Backed(vault, shares)) ==> Backed(vault, shares)
  {
    ghost var log0 := ex.log;
    var mintAmount := depositAmount;
    var credited := LedgerCredit(vault.totalAmountMinted, mintAmount);
    if credited.Err? {
      return Fail(Panic), [];
    }
    vault.totalAmountMinted := credited.value;
    var minted := Token.MintTo(shares, userVaultAta, mintAmount);
    if minted.Fail? {
      return minted, [];
    }
    var sent := Token.Transfer(userCollateralAta, vaultCollateralAta, depositAmount);
    if sent.Fail? {
      return sent, [];
    }
    r := ex.DepositCollateral(depositAmount, vaultCollateralAta);
    calls := ex.log[|log0|..];
  }
}
