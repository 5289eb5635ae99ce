/** The `withdraw` instruction: a pro-rata refund for burned shares, a
    partial offset of the open position so that exposure follows the
    collateral that stays, a recomputation of the refund from the
    collateral the venue reports after that trade, and the payout. */
module Redemption {
  import opened Numeric
  import opened Errors
  import opened State
  import opened Exchange
  import opened Rebalancer
  import Token

  // ---------------------------------------------------------------------
  // Arithmetic of a redemption

  /** The collateral owed for burning `burnAmount` of `totalMinted` shares:
      a checked 128-bit product and a checked division, each aborting on
      failure, then a truncating cast to 64 bits. */
  function Refund(burnAmount: u128, collateral: u128, totalMinted: u64): (r: Result<u64>)
    ensures r.Err? ==> r.error == Panic
  {
    var n := burnAmount * collateral;
    if n > U128_MAX || totalMinted == 0 then Err(Panic)
    else Ok(AsU64(n / totalMinted))
  }

  /** Division of naturals rounds down. */
  lemma DivFloor(n: nat, t: nat)
    requires t > 0
    ensures (n / t) * t <= n < (n / t + 1) * t
  {
    assert n == (n / t) * t + n % t;
  }

  lemma MulMonotone(a: nat, b: nat, t: nat)
    requires a <= b
    ensures a * t <= b * t
  {
    assert b * t - a * t == (b - a) * t;
  }

  /** A bound on the dividend bounds the quotient. */
  lemma {:induction false} DivBelow(n: nat, t: nat, c: nat)
    requires t > 0 && n <= c * t
    ensures n / t <= c
  {
    DivFloor(n, t);
    if n / t > c {
      MulMonotone(c + 1, n / t, t);
    }
  }

  /** The refund aborts exactly on a u128 overflow of the product or an
      empty ledger; otherwise, unless the `as u64` cast truncates, it is
      the floor of the pro-rata share of the collateral. */
  lemma {:induction false} RefundIsFloor(burnAmount: u128, collateral: u128, totalMinted: u64)
    ensures Refund(burnAmount, collateral, totalMinted).Ok? <==> burnAmount * collateral <= U128_MAX && totalMinted > 0
    ensures Refund(burnAmount, collateral, totalMinted).Ok? && burnAmount * collateral / totalMinted <= U64_MAX ==>
      var refund := Refund(burnAmount, collateral, totalMinted).value;
      refund * totalMinted <= burnAmount * collateral < (refund + 1) * totalMinted
  {
    if Refund(burnAmount, collateral, totalMinted).Ok? && burnAmount * collateral / totalMinted <= U64_MAX {
      DivFloor(burnAmount * collateral, totalMinted);
    }
  }

  /** A refund of zero, rejected as too small, is exactly a quotient whose
      low 64 bits are zero; when the cast does not truncate, exactly a
      product below the total supply. */
  lemma {:induction false} RefundZeroIff(burnAmount: u128, collateral: u128, totalMinted: u64)
    requires Refund(burnAmount, collateral, totalMinted).Ok?
    ensures Refund(burnAmount, collateral, totalMinted).value == 0
        <==> (burnAmount * collateral / totalMinted) % (U64_MAX + 1) == 0
    ensures burnAmount * collateral / totalMinted <= U64_MAX ==>
      (Refund(burnAmount, collateral, totalMinted).value == 0 <==> burnAmount * collateral < totalMinted)
  {
    var n := burnAmount * collateral;
    var q := n / totalMinted;
    assert Refund(burnAmount, collateral, totalMinted).value == q % (U64_MAX + 1);
    if q <= U64_MAX {
      DivFloor(n, totalMinted);
      if q >= 1 {
        MulMonotone(1, q, totalMinted);
      }
    }
  }

  /** As written, a pro-rata share of exactly 2^64 (the sole share of a
      vault holding 2^64 units of collateral) is cast to a refund of zero
      and rejected as too small, although the product exceeds the supply. */
  lemma TruncatedRefundIsRejected(burnAmount: u128, collateral: u128, totalMinted: u64)
    requires burnAmount == 1 && collateral == U64_MAX + 1 && totalMinted == 1
    ensures Refund(burnAmount, collateral, totalMinted) == Ok(0)
    ensures burnAmount * collateral >= totalMinted
  {
  }

  /** Burning no more than the whole supply never pays out more than the
      whole collateral. */
  lemma {:induction false} RefundWithinCollateral(burnAmount: u128, collateral: u128, totalMinted: u64)
    requires Refund(burnAmount, collateral, totalMinted).Ok?
    requires burnAmount <= totalMinted
    ensures Refund(burnAmount, collateral, totalMinted).value <= collateral
  {
    var n := burnAmount * collateral;
    MulMonotone(burnAmount, totalMinted, collateral);
    assert n <= collateral * totalMinted;
    DivBelow(n, totalMinted, collateral);
  }

  /** Burning the whole supply pays out the whole collateral. */
  lemma {:induction false} FullBurnTakesAll(burnAmount: u128, collateral: u128, totalMinted: u64)
    requires burnAmount == totalMinted > 0
    requires burnAmount * collateral <= U128_MAX && collateral <= U64_MAX
    ensures Refund(burnAmount, collateral, totalMinted) == Ok(collateral)
  {
    var n := burnAmount * collateral;
    DivBelow(n, totalMinted, collateral);
    DivFloor(n, totalMinted);
    if n / totalMinted < collateral {
      MulMonotone(n / totalMinted + 1, collateral, totalMinted);
    }
  }

  /** `liabilities - (collateral - refund)`, both subtractions unchecked u128
      arithmetic that aborts on underflow. */
  function ReduceAmount(liabilities: u128, collateral: u128, refund: u64): (r: Result<u128>)
    ensures r.Err? ==> r.error == Panic
    ensures r.Ok? <==> refund <= collateral && collateral - refund <= liabilities
    ensures r.Ok? ==> liabilities - r.value == collateral - refund
  {
    if refund > collateral then Err(Panic)
    else
      var newCollateral := collateral - refund;
      if liabilities < newCollateral then Err(Panic) else Ok(liabilities - newCollateral)
  }

  /** With overflow checks on, a partial redemption from a vault with no
      exposure aborts: the collateral that stays exceeds the zero
      liabilities, and the unchecked subtraction computing the offset
      underflows.  (With wrapping arithmetic the wrapped offset would go
      unused, since no position is held.) */
  lemma PartialRedemptionWithoutExposureAborts(collateral: u128, refund: u64)
    requires 0 < refund < collateral
    ensures ReduceAmount(0, collateral, refund) == Err(Panic)
  {
  }

  /** The direction of the offsetting trade: against the position held. */
  function ReduceDirection(p: Position): (d: Direction)
    requires p != Position.None
    ensures AsPosition(d) != p
  {
    match p
    case Long => Direction.Short
    case Short => Direction.Long
  }

  // ---------------------------------------------------------------------
  // The instruction

  /** The depositor's and the vault's share-side balances when `withdraw`
      starts: collateral and share accounts of the depositor, the share
      supply and the ledger. */
  datatype Holdings = Holdings(userCollateral: u64, userShares: u64, supply: u64, totalMinted: u64)

  ghost function HoldingsOf(vault: VaultState, shares: Token.Mint, userVaultAta: Token.TokenAccount,
                            userCollateralAta: Token.TokenAccount): Holdings
    reads vault, shares, userVaultAta, userCollateralAta
  {
    Holdings(userCollateralAta.amount, userVaultAta.amount, shares.supply, vault.totalAmountMinted)
  }

  /** The result of the payout once the venue has released collateral and
      the vault's collateral account has grown by `received`: the sanity
      check (an underflowing `balance_after - balance_before` aborts, any
      other amount than the refund is rejected as too small), then the
      transfer to the depositor, the burn and the ledger debit. */
  function PayoutVerdict(received: int, refund: u64, burnAmount: u128, h: Holdings): (r: Outcome)
    ensures received < 0 ==> r == Fail(Panic)
    ensures 0 <= received && received != refund ==> r == Fail(WidthdrawAmountTooSmall)
    ensures r.Pass? <==>
      && received == refund
      && h.userCollateral + refund <= U64_MAX
      && AsU64(burnAmount) <= h.userShares && AsU64(burnAmount) <= h.supply
      && AsU64(burnAmount) <= h.totalMinted
  {
    if received < 0 then Fail(Panic)
    else if received != refund then Fail(WidthdrawAmountTooSmall)
    else if h.userCollateral + refund > U64_MAX then Fail(TokenFailure)
    else if AsU64(burnAmount) > h.userShares || AsU64(burnAmount) > h.supply then Fail(TokenFailure)
    else if AsU64(burnAmount) > h.totalMinted then Fail(Panic)
    else Pass
  }

  /** The last call: `withdraw_collateral` of `refund` into `into`, from
      venue state `v` to `vEnd`; its rejection is the result, and otherwise
      the payout decides it on what the venue paid into `into`. */
  ghost predicate Payout(v: ExchangeState, vEnd: ExchangeState, refund: u64, into: Token.TokenAccount,
                         burnAmount: u128, h: Holdings, r: Outcome, calls: seq<CallRecord>)
  {
    && |calls| == 1
    && calls[0].call == Call.WithdrawCollateral(refund, into)
    && calls[0].before == v
    && calls[0].after == vEnd
    && r == (if calls[0].result.Fail? then calls[0].result else PayoutVerdict(calls[0].paid, refund, burnAmount, h))
  }

  /** The refund recomputed after the offsetting trade, from the reloaded
      venue state `v1`: the liabilities are recomputed (which can abort),
      then the refund, which must again be positive. */
  function RecomputedRefund(v1: ExchangeState, burnAmount: u128, totalMinted: u64): (r: Result<u64>)
    ensures r.Ok? ==> r.value > 0 && Refund(burnAmount, v1.collateral, totalMinted) == Ok(r.value)
    ensures r.Err? ==> r.error == Panic || r.error == WidthdrawAmountTooSmall
    ensures TotalLiabilities(v1).Err? ==> r == Err(Panic)
    ensures r == Err(WidthdrawAmountTooSmall) <==>
      TotalLiabilities(v1).Ok? && Refund(burnAmount, v1.collateral, totalMinted) == Ok(0)
    ensures TotalLiabilities(v1).Ok? && Refund(burnAmount, v1.collateral, totalMinted).Ok?
            && Refund(burnAmount, v1.collateral, totalMinted).value > 0 ==>
      r == Refund(burnAmount, v1.collateral, totalMinted)
  {
    if TotalLiabilities(v1).Err? then Err(Panic)
    else
      match Refund(burnAmount, v1.collateral, totalMinted)
      case Err(e) => Err(e)
      case Ok(refund) => if refund == 0 then Err(WidthdrawAmountTooSmall) else Ok(refund)
  }

  /** The calls of `withdraw` once the estimate `refund` and the size of the
      offset `amountToReduce` are known, for a vault holding position `p`:
      with no position straight to the payout, otherwise first the
      offsetting trade, whose rejection ends the instruction, and then the
      payout of the recomputed refund. */
  ghost predicate Settled(
    v0: ExchangeState, vEnd: ExchangeState, p: Position, m: u64, amountToReduce: u128, refund: u64,
    into: Token.TokenAccount, burnAmount: u128, h: Holdings, r: Outcome, calls: seq<CallRecord>)
  {
    if p == Position.None then Payout(v0, vEnd, refund, into, burnAmount, h, r, calls)
    else
      && |calls| >= 1
      && calls[0].call == Call.Open(ReduceDirection(p), amountToReduce, 0, m)
      && calls[0].before == v0
      && if calls[0].result.Fail? then r == calls[0].result && |calls| == 1 && vEnd == calls[0].after == v0
         else
           var v1 := calls[0].after;
           match RecomputedRefund(v1, burnAmount, h.totalMinted)
           case Err(e) => r == Fail(e) && |calls| == 1 && vEnd == v1
           case Ok(refund1) => Payout(v1, vEnd, refund1, into, burnAmount, h, r, calls[1..])
  }

  /** The calls of one `withdraw` from venue state `v0` to `vEnd`, paying
      into the vault's collateral account `into`, for a depositor with
      holdings `h`. */
  ghost predicate Redeemed(
    v0: ExchangeState, vEnd: ExchangeState, isFor: (MarketPosition, u64) -> bool, m: u64,
    into: Token.TokenAccount, burnAmount: u128, h: Holdings, r: Outcome, calls: seq<CallRecord>)
  {
    if TotalLiabilities(v0).Err? then r == Fail(Panic) && calls == [] && vEnd == v0
    else if h.userShares < burnAmount then r == Fail(NotEnoughFunds) && calls == [] && vEnd == v0
    else
      match Refund(burnAmount, v0.collateral, h.totalMinted)
      case Err(_) => r == Fail(Panic) && calls == [] && vEnd == v0
      case Ok(refund) =>
        if refund == 0 then r == Fail(WidthdrawAmountTooSmall) && calls == [] && vEnd == v0
        else
          match ReduceAmount(TotalLiabilities(v0).value, v0.collateral, refund)
          case Err(_) => r == Fail(Panic) && calls == [] && vEnd == v0
          case Ok(amountToReduce) =>
            Settled(v0, vEnd, CurrentPosition(v0.positions, isFor, m), m, amountToReduce, refund,
                    into, burnAmount, h, r, calls)
  }

  /** The calls of a redemption from the position check on: at most an
      offsetting open and then the venue withdrawal, chained from `v0` to
      `vEnd`; a rejected call is the last one and its verdict is the result;
      a success ends with a withdrawal into `into` that paid exactly the
      amount asked for, after every call succeeded. */
  lemma SettledCalls(
    v0: ExchangeState, vEnd: ExchangeState, p: Position, m: u64, amountToReduce: u128, refund: u64,
    into: Token.TokenAccount, burnAmount: u128, h: Holdings, r: Outcome, calls: seq<CallRecord>)
    requires Settled(v0, vEnd, p, m, amountToReduce, refund, into, burnAmount, h, r, calls)
    ensures 1 <= |calls| <= 2
    ensures Chained(v0, vEnd, calls)
    ensures forall i | 0 <= i < |calls| && calls[i].result.Fail? :: i == |calls| - 1 && r == calls[i].result
    ensures r.Pass? ==>
      && (forall i | 0 <= i < |calls| :: calls[i].result.Pass?)
      && calls[|calls| - 1].call == Call.WithdrawCollateral(calls[|calls| - 1].call.amount, into)
      && calls[|calls| - 1].paid == calls[|calls| - 1].call.amount
  {
  }

  /** The calls of one redemption: none when it fails before the offset,
      and otherwise those of `SettledCalls`. */
  lemma RedemptionCalls(
    v0: ExchangeState, vEnd: ExchangeState, isFor: (MarketPosition, u64) -> bool, m: u64,
    into: Token.TokenAccount, burnAmount: u128, h: Holdings, r: Outcome, calls: seq<CallRecord>)
    requires Redeemed(v0, vEnd, isFor, m, into, burnAmount, h, r, calls)
    ensures |calls| <= 2
    ensures Chained(v0, vEnd, calls)
    ensures forall i | 0 <= i < |calls| && calls[i].result.Fail? :: i == |calls| - 1 && r == calls[i].result
    ensures r.Pass? ==>
      && |calls| >= 1
      && (forall i | 0 <= i < |calls| :: calls[i].result.Pass?)
      && calls[|calls| - 1].call == Call.WithdrawCollateral(calls[|calls| - 1].call.amount, into)
      && calls[|calls| - 1].paid == calls[|calls| - 1].call.amount
  {
    if TotalLiabilities(v0).Ok? && h.userShares >= burnAmount {
      match Refund(burnAmount, v0.collateral, h.totalMinted)
      case Err(_) =>
      case Ok(refund) =>
        if refund != 0 {
          match ReduceAmount(TotalLiabilities(v0).value, v0.collateral, refund)
          case Err(_) =>
          case Ok(amountToReduce) =>
            SettledCalls(v0, vEnd, CurrentPosition(v0.positions, isFor, m), m, amountToReduce, refund,
                         into, burnAmount, h, r, calls);
        }
    }
  }

  /** The offsetting trade of `withdraw` against the position `p` held; once
      it is accepted, the reload of the user account, the recomputation of
      the liabilities and of the refund, and its check against zero. */
  method Offset(ex: ClearingHouse, p: Position, amountToReduce: u128, marketIndex: u64,
                burnAmount: u128, totalMinted: u64)
    returns (r: Outcome, refund: u64)
    requires p != Position.None
    modifies ex
    ensures |ex.log| == |old(ex.log)| + 1 && ex.log[..|old(ex.log)|] == old(ex.log)
    ensures ex.log[|old(ex.log)|].call == Call.Open(ReduceDirection(p), amountToReduce, 0, marketIndex)
    ensures ex.log[|old(ex.log)|].before == old(ex.Observe())
    ensures ex.log[|old(ex.log)|].after == ex.Observe()
    ensures ex.log[|old(ex.log)|].result.Fail? ==>
      r == ex.log[|old(ex.log)|].result && ex.Observe() == old(ex.Observe())
    ensures ex.log[|old(ex.log)|].result.Pass? ==>
      match RecomputedRefund(ex.log[|old(ex.log)|].after, burnAmount, totalMinted)
      case Err(e) => r == Fail(e)
      case Ok(v) => r == Pass && refund == v
  {
    var reduced := ex.OpenPosition(ReduceDirection(p), amountToReduce, 0, marketIndex);
    if reduced.Fail? {
      return reduced, 0;
    }
    var userCollateral := ex.collateral;  // user.reload()
    var liabilities := ComputeTotalLiabilities(ex);
    if liabilities.Err? {
      return Fail(Panic), 0;
    }
    var recomputed := Refund(burnAmount, userCollateral, totalMinted);
    if recomputed.Err? {
      return Fail(Panic), 0;
    }
    refund := recomputed.value;
    if refund == 0 {
      return Fail(WidthdrawAmountTooSmall), 0;
    }
    r := Pass;
  }

  /** The end of `withdraw`: `withdraw_collateral` of the refund into the
      vault's collateral account, the check that this account grew by
      exactly the refund (its cached balance `balanceBefore` from the start
      of the instruction against its reloaded one), the transfer of the
      refund to the depositor, the burn, and the ledger decrement. Nothing
      moves the vault's collateral account before the venue withdrawal, so
      the cached balance is still the live one when this starts. */
  method PayOut(
    vault: VaultState, shares: Token.Mint,
    userVaultAta: Token.TokenAccount, userCollateralAta: Token.TokenAccount, vaultCollateralAta: Token.TokenAccount,
    ex: ClearingHouse, refund: u64, burnAmount: u128, balanceBefore: u64)
    returns (r: Outcome)
    requires userVaultAta != userCollateralAta && userVaultAta != vaultCollateralAta
    requires userCollateralAta != vaultCollateralAta
    requires vaultCollateralAta.amount == balanceBefore
    modifies vault, shares, userVaultAta, userCollateralAta, vaultCollateralAta, ex
    ensures |ex.log| == |old(ex.log)| + 1 && ex.log[..|old(ex.log)|] == old(ex.log)
    ensures Payout(old(ex.Observe()), ex.Observe(), refund, vaultCollateralAta, burnAmount,
                   old(HoldingsOf(vault, shares, userVaultAta, userCollateralAta)), r, ex.log[|old(ex.log)|..])
    ensures ex.log[|old(ex.log)|].result.Pass? && ex.log[|old(ex.log)|].paid != refund ==>
      vaultCollateralAta.amount == balanceBefore + ex.log[|old(ex.log)|].paid
    ensures r.Pass? ==>
      && LedgerDebit(old(vault.totalAmountMinted), burnAmount) == Ok(vault.totalAmountMinted)
      && userVaultAta.amount == old(userVaultAta.amount) - AsU64(burnAmount)
      && shares.supply == old(shares.supply) - AsU64(burnAmount)
      && userCollateralAta.amount == old(userCollateralAta.amount) + refund
      && vaultCollateralAta.amount == balanceBefore
  {
    var withdrawn := ex.WithdrawCollateral(refund, vaultCollateralAta);
    if withdrawn.Fail? {
      return withdrawn;
    }
    var balanceAfter := vaultCollateralAta.amount;  // vault_collateral_ata.reload()
    if balanceAfter < balanceBefore {
      return Fail(Panic);
    }
    if balanceAfter - balanceBefore != refund {
      return Fail(WidthdrawAmountTooSmall);
    }
    var sent := Token.Transfer(vaultCollateralAta, userCollateralAta, refund);
    if sent.Fail? {
      return sent;
    }
    var burned := Token.Burn(shares, userVaultAta, AsU64(burnAmount));
    if burned.Fail? {
      return burned;
    }
    var ledger := LedgerDebit(vault.totalAmountMinted, burnAmount);
    if ledger.Err? {
      return Fail(Panic);
    }
    vault.totalAmountMinted := ledger.value;
    r := Pass;
  }

  /** Everything of `withdraw` from the position check on: the offsetting
      trade when a position is held, then the payout. `balanceBefore` is the
      vault's collateral account as deserialised when the instruction
      started. */
  method Settle(
    vault: VaultState, shares: Token.Mint,
    userVaultAta: Token.TokenAccount, userCollateralAta: Token.TokenAccount, vaultCollateralAta: Token.TokenAccount,
    ex: ClearingHouse, p: Position, amountToReduce: u128, refund: u64, burnAmount: u128, marketIndex: u64,
    balanceBefore: u64)
    returns (r: Outcome, ghost calls: seq<CallRecord>)
    requires userVaultAta != userCollateralAta && userVaultAta != vaultCollateralAta
    requires userCollateralAta != vaultCollateralAta
    requires vaultCollateralAta.amount == balanceBefore
    modifies vault, shares, userVaultAta, userCollateralAta, vaultCollateralAta, ex
    ensures ex.log == old(ex.log) + calls && |calls| >= 1
    ensures Settled(old(ex.Observe()), ex.Observe(), p, marketIndex, amountToReduce, refund, vaultCollateralAta, burnAmount,
                    old(HoldingsOf(vault, shares, userVaultAta, userCollateralAta)), r, calls)
    ensures r.Pass? ==>
      && LedgerDebit(old(vault.totalAmountMinted), burnAmount) == Ok(vault.totalAmountMinted)
      && userVaultAta.amount == old(userVaultAta.amount) - AsU64(burnAmount)
      && shares.supply == old(shares.supply) - AsU64(burnAmount)
      && calls[|calls| - 1].call.WithdrawCollateral?
      && userCollateralAta.amount == old(userCollateralAta.amount) + calls[|calls| - 1].call.amount
      && vaultCollateralAta.amount == balanceBefore
  {
    ghost var log0 := ex.log;
    var refundCollateralAmount := refund;
    if p != Position.None {
      r, refundCollateralAmount := Offset(ex, p, amountToReduce, marketIndex, burnAmount, vault.totalAmountMinted);
      if r.Fail? {
        return r, ex.log[|log0|..];
      }
    }
    ghost var log1 := ex.log;
    r := PayOut(vault, shares, userVaultAta, userCollateralAta, vaultCollateralAta, ex,
                          refundCollateralAmount, burnAmount, balanceBefore);
    calls := ex.log[|log0|..];
    assert calls[|log1| - |log0|..] == ex.log[|log1|..];
  }

  /** `withdraw`. */
  method Withdraw(
    vault: VaultState, shares: Token.Mint,
    userVaultAta: Token.TokenAccount, userCollateralAta: Token.TokenAccount, vaultCollateralAta: Token.TokenAccount,
    ex: ClearingHouse, burnAmount: u128, marketIndex: u64)
    returns (r: Outcome, ghost calls: seq<CallRecord>)
    requires userVaultAta != userCollateralAta && userVaultAta != vaultCollateralAta
    requires userCollateralAta != vaultCollateralAta
    modifies vault, shares, userVaultAta, userCollateralAta, vaultCollateralAta, ex
    ensures ex.log == old(ex.log) + calls
    ensures Redeemed(old(ex.Observe()), ex.Observe(), ex.isFor, marketIndex, vaultCollateralAta, burnAmount,
                     old(HoldingsOf(vault, shares, userVaultAta, userCollateralAta)), r, calls)
    ensures calls == [] ==>
      && ex.Observe() == old(ex.Observe())
      && unchanged(vault, shares, userVaultAta, userCollateralAta, vaultCollateralAta)
    ensures r.Pass? ==>
      && burnAmount <= old(userVaultAta.amount)
      && vault.totalAmountMinted == old(vault.totalAmountMinted) - burnAmount
      && userVaultAta.amount == old(userVaultAta.amount) - burnAmount
      && shares.supply == old(shares.supply) - burnAmount
      && |calls| >= 1 && calls[|calls| - 1].call.WithdrawCollateral?
      && calls[|calls| - 1].paid == calls[|calls| - 1].call.amount
      && userCollateralAta.amount == old(userCollateralAta.amount) + calls[|calls| - 1].call.amount
      && vaultCollateralAta.amount == old(vaultCollateralAta.amount)
    ensures r.Pass? && old(Backed(vault, shares)) ==> Backed(vault, shares)
  {
    // the accounts as deserialised when the instruction starts
    var userCollateral := ex.collateral;
    var vaultCollateralCached := vaultCollateralAta.amount;

    var liabilities := ComputeTotalLiabilities(ex);
    if liabilities.Err? {
      return Fail(Panic), [];
    }
    var userVaultBalance := userVaultAta.amount;
    if userVaultBalance < burnAmount {
      return Fail(NotEnoughFunds), [];
    }
    var refund := Refund(burnAmount, userCollateral, vault.totalAmountMinted);
    if refund.Err? {
      return Fail(Panic), [];
    }
    var refundCollateralAmount := refund.value;
    if refundCollateralAmount == 0 {
      return Fail(WidthdrawAmountTooSmall), [];
    }
    var amountToReduce := ReduceAmount(liabilities.value, userCollateral, refundCollateralAmount);
    if amountToReduce.Err? {
      return Fail(Panic), [];
    }
    var vaultPosition := CurrentPosition(ex.positions, ex.isFor, marketIndex);
    r, calls := Settle(vault, shares, userVaultAta, userCollateralAta, vaultCollateralAta, ex,
                                 vaultPosition, amountToReduce.value, refundCollateralAmount, burnAmount,
                                 marketIndex, vaultCollateralCached);
  }
}
