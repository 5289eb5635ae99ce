# Drift funding vault: a Dafny model

The drift funding vault is an on-chain program. It pools the deposits of
many depositors as collateral in one user account on the Drift clearing
house, a perpetual-futures venue. It then keeps that account positioned on
the side of a market that receives funding. Depositors get vault shares
one-for-one for the collateral they deposit. They redeem shares for their
pro-rata part of the collateral the venue reports.

The model has three instructions and the state they work on:

- `deposit` (module `Deposits`) credits the share ledger with a checked
  addition. It mints the shares to the depositor, moves the collateral from
  the depositor through the vault's own collateral account, and deposits it
  at the venue.
- `update_position` (module `Rebalancer`) reads the mark and oracle
  time-weighted average prices of one market. Their difference is the
  funding signal. On a nonzero signal it closes a position on the paying
  side. It then opens a position on the receiving side for the collateral
  not yet matched by liabilities, which are the valuation of all open
  position records. It is built from two queries: `get_current_position`
  and `compute_total_liabilies`.
- `withdraw` (module `Redemption`) estimates the refund as
  `burn * collateral / total_minted`. It offsets the open position by the
  part of the liabilities the remaining collateral no longer covers. It
  recomputes the refund from the collateral the venue reports after that
  trade. It withdraws that collateral from the venue, checks that the
  vault's collateral account grew by exactly the refund, passes the refund
  to the depositor, burns the shares and debits the ledger.

Representation choices:

- The vault's own state (module `State`) is the `VaultState` ledger account
  and the derived `Position` direction.
- Rust's fixed-width integers are subset types of `int` (module `Numeric`).
  Every `checked_*` call is an explicit bound test.
- Unchecked `+`, `-` and `+=` are modelled with overflow checks on. An
  overflow is an abort (`Panic`), as are `unwrap` of `None` and an
  out-of-range array index.
- `as u64` keeps the low 64 bits.
- The venue is the class `Exchange.ClearingHouse`. The vault sees its user
  collateral, its positions account, its markets account and its valuation
  of a position record. `open_position` and `close_position` either fail
  without effect or change all four in ways the vault cannot predict.
  `deposit_collateral` and `withdraw_collateral` name the vault's
  collateral token account they draw from or pay into. A successful deposit
  takes exactly the amount from that account. What a withdrawal pays into
  it is left to the venue, and `withdraw` checks it afterwards.
- The venue keeps a ghost log of every call it receives. Each record holds
  the venue state just before and just after the call, what the call paid
  into the token account it names, and the venue's verdict. The instruction
  contracts are statements about that log: which calls are issued, in which
  order, with which arguments, computed from which venue state. They state
  that the calls are chained, so each starts from the state the previous
  one left and the instruction ends in the state the last one left: the
  vault changes the venue only through its calls. They also state that a
  rejected call is the last one and that its error is the instruction's
  result, as every `?` on a cross-program call in the source demands.
- SPL token accounts and the share mint are classes of module `Token`.
  Their transfer, mint and burn fail without effect or move exactly the
  amount.
- Accounts that Anchor deserialises when an instruction starts are copied
  into locals, and `reload()` re-reads the live field. A zero-copy `load()`,
  as in `compute_total_liabilies`, always reads the live account. Cached
  fields keep the value they had when the instruction started: the venue
  user's collateral until the `reload()` that follows a venue call, and the
  `balance_before` of the `withdraw` sanity check, which is the vault's
  collateral account before the venue withdrawal.
- `update_position` computes a first liabilities estimate before any venue
  call. It only logs that estimate, and the model keeps it only for the
  abort it can raise. The trade is sized by the second estimate.
- A failing instruction returns `Fail(error)`. The Solana runtime discards
  every write of a failed instruction. The model does not undo the writes
  made before the failure, so its contracts promise nothing about the state
  after a failure, except where nothing was written yet.

Observations on the code as written:

- `withdraw` computes `liabilities - (collateral - refund)` even when the
  vault holds no position in the market, and the subtraction is unchecked.
  Under the overflow-check assumption of this model (see "## Left out"), a
  burn of less than the whole supply from a vault with no exposure anywhere
  underflows, so the redemption aborts.
  `Redemption.PartialRedemptionWithoutExposureAborts` states this, and
  `Redemption.Redeemed` models the code as written. A build that wraps
  instead would compute a wrapped offset and not use it, because no
  position is held. No build configuration is part of this model, so which
  of the two happens is not decided here.
- The refund is cast with `as u64` before the zero check. A pro-rata share
  of 2^64 or more units of collateral can therefore truncate to zero and be
  rejected as too small (`Redemption.TruncatedRefundIsRejected`).

## Model

| member | source | states |
|---|---|---|
| Numeric.AsU64 | programs/drift_vault/src/instructions/withdraw.rs:38-41 | `as u64` on an unsigned value: the identity on values that fit, never larger, and congruent to the input modulo 2^64 |
| State.VaultState.constructor | programs/drift_vault/src/state.rs:3-7 | a freshly created ledger account (the `Default` value) has minted nothing |
| State.LedgerCredit | programs/drift_vault/src/instructions/deposit.rs:31-33 | the ledger credit succeeds exactly when the sum fits in u64, grows the ledger by exactly the deposit, and otherwise aborts |
| State.LedgerDebit | programs/drift_vault/src/instructions/withdraw.rs:152-153 | the ledger debit of a burn that fits in u64 succeeds exactly when the burn does not exceed the ledger, shrinks it by exactly the burn, and otherwise aborts |
| State.CreditThenDebitRestores | programs/drift_vault/src/instructions/deposit.rs:31-33 | a debit (the `checked_sub` of withdraw.rs:152-153) of the amount just credited restores the ledger |
| Token.MintTo | programs/drift_vault/src/instructions/deposit.rs:42-50 | the mint succeeds exactly when supply and balance stay in u64; it adds exactly the amount to both, or changes nothing |
| Token.Transfer | programs/drift_vault/src/instructions/deposit.rs:57-64 | the transfer succeeds exactly when the source covers the amount and the target stays in u64; it moves exactly the amount, or changes nothing |
| Token.Burn | programs/drift_vault/src/instructions/withdraw.rs:142-149 | the burn succeeds exactly when balance and supply cover the amount; it removes exactly the amount from both, or changes nothing |
| Exchange.ClearingHouse.OpenPosition | programs/drift_vault/src/instructions/update_position.rs:262-300 | the open is logged with its direction, amount, limit price and market, the venue states before and after it, no payment, and the venue's verdict; a rejected open changes nothing |
| Exchange.ClearingHouse.ClosePosition | programs/drift_vault/src/instructions/update_position.rs:228-260 | the close is logged with its market, the states before and after it, no payment, and the verdict; a rejected close changes nothing |
| Exchange.ClearingHouse.DepositCollateral | programs/drift_vault/src/instructions/deposit.rs:90 | the deposit is logged with the vault's collateral account it draws from, the states before and after it, the change in that account, and the verdict; on success it takes exactly the amount from the vault's collateral account, leaves positions and markets alone, and with no open position credits exactly the amount |
| Exchange.ClearingHouse.WithdrawCollateral | programs/drift_vault/src/instructions/withdraw.rs:122 | the withdrawal is logged with the vault's collateral account it pays into, the states before and after it, what it paid into that account, and the verdict; it never touches positions or markets, and a failed one changes neither collateral nor the receiving account |
| Rebalancer.FundingSignal | programs/drift_vault/src/instructions/update_position.rs:34-41 | the signal is mark minus oracle TWAP, and it is computed whenever the mark fits in i128 and the difference does too; it is zero exactly when the two are equal; the cast fails exactly when the mark exceeds the i128 range, and the subtraction overflows only upwards |
| Rebalancer.FundingDirection | programs/drift_vault/src/instructions/update_position.rs:85-153 | the side that collects funding: long exactly when the signal is negative (line 114), short when it is positive (line 148); a position on that side is never one that is closed first |
| Rebalancer.Opposes | programs/drift_vault/src/instructions/update_position.rs:85-131 | the two branches that close before reopening: a short under a negative signal (line 87), a long under a positive one (line 122); only a held position under a nonzero signal opposes |
| Rebalancer.CloseExactlyWhenMisaligned | programs/drift_vault/src/instructions/update_position.rs:85-131 | a close is issued exactly when a position is held and it points away from the side that receives funding |
| Rebalancer.PositionIndex | programs/drift_vault/src/instructions/update_position.rs:188-191 | `position(is_for)` finds the first record for the market, or reports that no record is for it |
| Rebalancer.CurrentPosition | programs/drift_vault/src/instructions/update_position.rs:183-204 | None exactly when no record is for the market; otherwise Long exactly when the first such record has a positive base amount, and Short when it has zero or less |
| Rebalancer.LiabilitySum | programs/drift_vault/src/instructions/update_position.rs:212-223 | summing the valuations of the open records succeeds exactly when every record with a nonzero base amount can be valued, and otherwise aborts |
| Rebalancer.TotalLiabilities | programs/drift_vault/src/instructions/update_position.rs:206-226 | `compute_total_liabilies` as a value, with the u128 bound: it fails only by aborting, and is zero when no record is open |
| Rebalancer.LiabilityPrefix | programs/drift_vault/src/instructions/update_position.rs:213-223 | a prefix of the records fails only if the whole fails, and never sums to more than the whole |
| Rebalancer.ZeroRecordsContributeNothing | programs/drift_vault/src/instructions/update_position.rs:214-216 | records with a zero base amount are skipped: valuations that agree on the open records give the same liabilities |
| Rebalancer.NoOpenPositionNoLiabilities | programs/drift_vault/src/instructions/update_position.rs:206-226 | a positions account with no open record has zero liabilities |
| Rebalancer.ComputeTotalLiabilities | programs/drift_vault/src/instructions/update_position.rs:206-226 | the loop returns the total liabilities of the venue state; it aborts when a record cannot be valued or the u128 accumulator overflows |
| Rebalancer.AmountToTrade | programs/drift_vault/src/instructions/update_position.rs:102-106 | the trade size plus the liabilities equals the collateral when collateral covers liabilities, and it is zero when the vault is over-exposed |
| Rebalancer.AmountToTradeMonotone | programs/drift_vault/src/instructions/update_position.rs:74-78 | more collateral never gives a smaller trade |
| Rebalancer.AmountToTradePositiveIff | programs/drift_vault/src/instructions/update_position.rs:109-118 | an open is sized exactly when collateral strictly exceeds liabilities |
| Rebalancer.Reopen | programs/drift_vault/src/instructions/update_position.rs:98-118 | after the possible close: an abort when liabilities cannot be recomputed; no call and success when nothing is unmatched; otherwise one open in the funding direction at limit price 0 for exactly the unmatched collateral of the current venue state, whose verdict is the result; the venue ends in the state that open left, or unchanged when there is no open |
| Rebalancer.CloseAndReopen | programs/drift_vault/src/instructions/update_position.rs:85-131 | the close of an opposing position is logged from the state on entry; its rejection ends the instruction with the venue's error and changes nothing; otherwise the reopen follows from exactly the state the close left |
| Rebalancer.Realign | programs/drift_vault/src/instructions/update_position.rs:51-153 | with a nonzero signal: an abort when the first liabilities estimate fails; otherwise a close and reopen against an opposing position, or just the reopen |
| Rebalancer.UpdatePosition | programs/drift_vault/src/instructions/update_position.rs:24-156 | an unknown market aborts; a failing signal returns its error; a zero signal does nothing; otherwise a close only against an opposing position, whose rejection ends the instruction with the venue's error, then an open in the funding direction for the unmatched collateral of the venue state the close left (the reloaded user account), whose verdict is the result; the venue ends in the state the last call left |
| Rebalancer.RebalanceCalls | programs/drift_vault/src/instructions/update_position.rs:85-153 | a rebalance issues at most two calls: a close, only first, only against an opposing position; every open is last, in the funding direction, at limit price 0, for the positive unmatched collateral of the state it was issued from; a rejected call is the last one and its error is the result; a success means every call succeeded; the calls are chained from the starting venue state to the final one |
| Rebalancer.IdleWhenAlignedAndAllocated | programs/drift_vault/src/instructions/update_position.rs:120-153 | once aligned with the signal and fully allocated, a rebalance issues no call and succeeds |
| Redemption.Refund | programs/drift_vault/src/instructions/withdraw.rs:38-41 | the refund computation fails only by aborting |
| Redemption.RefundIsFloor | programs/drift_vault/src/instructions/withdraw.rs:38-41 | the refund aborts exactly on a u128 overflow of the product or an empty ledger; otherwise, when the cast does not truncate, it is the floor of the pro-rata share of the collateral |
| Redemption.RefundZeroIff | programs/drift_vault/src/instructions/withdraw.rs:43 | the refund is zero, and so rejected as too small, exactly when the low 64 bits of the quotient are zero; when the cast does not truncate, exactly when burn times collateral is below the supply |
| Redemption.TruncatedRefundIsRejected | programs/drift_vault/src/instructions/withdraw.rs:38-43 | a pro-rata share of exactly 2^64 is cast to a zero refund and rejected, although burn times collateral exceeds the supply |
| Redemption.RefundWithinCollateral | programs/drift_vault/src/instructions/withdraw.rs:37-41 | burning no more than the supply never pays out more than the whole collateral |
| Redemption.FullBurnTakesAll | programs/drift_vault/src/instructions/withdraw.rs:37-41 | burning the whole supply pays out the whole collateral, for collateral within u64; above that, `as u64` truncates the refund |
| Redemption.ReduceAmount | programs/drift_vault/src/instructions/withdraw.rs:52-53 | the offset is computed exactly when the refund is within the collateral and the remaining collateral is within the liabilities, and it is the liabilities in excess of the remaining collateral; otherwise abort |
| Redemption.PartialRedemptionWithoutExposureAborts | programs/drift_vault/src/instructions/withdraw.rs:52-53 | with zero liabilities, a refund smaller than the collateral makes the offset computation abort |
| Redemption.ReduceDirection | programs/drift_vault/src/instructions/withdraw.rs:58-68 | the offsetting trade always goes against the position held |
| Redemption.SettledCalls | programs/drift_vault/src/instructions/withdraw.rs:57-153 | from the position check on, one or two calls chained from the starting venue state to the final one; a rejected call is the last one and its error is the result; a success ends with a withdrawal into the vault's collateral account that paid exactly the amount asked for |
| Redemption.RedemptionCalls | programs/drift_vault/src/instructions/withdraw.rs:57-153 | a redemption issues at most two calls, chained from the starting venue state to the final one; a rejected call is the last one and its error is the result; a success ends with a withdrawal into the vault's collateral account that paid exactly the amount asked for, after every call succeeded |
| Redemption.Offset | programs/drift_vault/src/instructions/withdraw.rs:57-91 | the offsetting trade is logged with its direction, size and market; a rejected trade changes nothing and its error is the result; after an accepted one, the venue is left as the trade left it, and the result and refund are those of the recomputation from that state |
| Redemption.RecomputedRefund | programs/drift_vault/src/instructions/withdraw.rs:79-90 | the recomputed refund is a positive pro-rata refund of the reloaded collateral, and it is that refund whenever liabilities can be computed and the refund is positive; failing liabilities abort; it is rejected as too small exactly when liabilities can be computed and the refund is zero, and otherwise fails by aborting |
| Redemption.PayoutVerdict | programs/drift_vault/src/instructions/withdraw.rs:124-153 | the sanity check aborts when the vault's collateral account shrank and rejects any growth other than the refund as too small; the payout succeeds exactly when the growth is the refund and the transfer, the burn and the ledger debit can all go through |
| Redemption.PayOut | programs/drift_vault/src/instructions/withdraw.rs:93-153 | the venue withdrawal of the refund into the vault's collateral account is logged, and its rejection is the result; otherwise the result is the payout verdict for what the venue paid into the vault's collateral account, which is the account's final growth when the sanity check fails; on success the depositor receives exactly the refund, the shares are burned from balance and supply, the ledger is debited, and the vault's collateral account is back at its balance at the start of the instruction |
| Redemption.Settle | programs/drift_vault/src/instructions/withdraw.rs:54-153 | from the position check on: with no position, straight to the payout; with one, first the offset, whose rejection or failed recomputation ends the instruction with that error, and otherwise the payout of the refund recomputed from the state the trade left |
| Redemption.Withdraw | programs/drift_vault/src/instructions/withdraw.rs:20-156 | an abort on failing liabilities, `NotEnoughFunds` for a burn above the balance, and an abort or `WidthdrawAmountTooSmall` for the estimate occur before any call; every later error is the one the offset, the recomputation, the venue or the payout verdict produces; a success burns exactly the shares, debits the ledger by them, pays the depositor what the venue released, which is exactly what the withdrawal asked for, and keeps ledger and supply equal when they were equal before |
| Deposits.Deposit | programs/drift_vault/src/instructions/deposit.rs:19-93 | aborts exactly on ledger overflow and then changes nothing; a success mints exactly the deposit in shares, moves exactly the deposit from the depositor to the venue in one `deposit_collateral` call from the vault's collateral account whose verdict is the result, fails with a token error exactly when the mint or the transfer cannot go through, calls the venue exactly when neither fails, credits it in full when no position is open, and keeps ledger and supply equal when they were equal before |

## Left out

- `context.rs`, `initialize.rs`, `lib.rs` and `instructions/mod.rs` are not part of this model. They are account validation, account creation and the dispatch of instructions to handlers.
- Anchor's account constraints (seeds, `has_one`, mint equality, signers) are left out. Only the distinctness of the token accounts an instruction writes to is kept, as a precondition.
- The authority seeds and signing of cross-program calls are left out, because they only concern authorisation. `msg!` logging is left out because it is output only.
- The clearing house's trade execution, funding settlement, margin rules and the valuation in `calculate_base_asset_value_and_pnl` are left out. These are foreign code. The model replaces them with an uninterpreted valuation and unknown effects on the venue state.
- `MarketPosition::is_for` and `Markets::index_from_u64` are foreign code. The first is an uninterpreted function of the venue. The second is a bounds check on the markets sequence, and an out-of-range index aborts.
- The fixed sizes of the positions and markets arrays are left out. They are modelled as sequences of any length.
- Failures of `load()`, `reload()` and deserialisation are left out, because they are runtime failures of account access.
- The rollback of a failed instruction by the runtime is not modelled, so contracts say nothing about the state after a failure that followed an earlier write.
- Overflow checks are assumed to be on for the unchecked `-` and `+=`, so an overflow aborts instead of wrapping.
- The specific error code of `cast_to_i128` and of `math_error!` is not kept. They are the `CastingFailure` and `MathError` of this model, and `error.rs` is not part of it.
- Redemption.Refund: its own contract says only that it fails by aborting. What it computes is stated by `RefundIsFloor`, `RefundZeroIff`, `RefundWithinCollateral` and `FullBurnTakesAll`.
- Redemption.RefundIsFloor: the case where `as u64` truncates a quotient above the u64 range is left without a floor statement. `Numeric.AsU64` gives the truncated value, and `RefundZeroIff` covers that case for the zero check.
- Exchange.ClearingHouse.WithdrawCollateral: how much arrives in the vault's collateral account is left to the venue. That is why `withdraw` relies on its own balance check.
- The venue's log is a ghost field of the venue, so code that may modify the venue could in principle also append records to it. The before/after chain rules out writes to the venue's state between calls, but nothing in the model stops the vault's code from forging a record.
