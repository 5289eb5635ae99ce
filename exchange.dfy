/** The venue the vault trades on (the clearing house), seen from the vault.
    Its internals are not part of this model: how a trade is priced, how
    collateral moves after an open or a close, how a market position is
    valued and when a position record is "for" a market.  The valuation is
    an arbitrary function the venue holds, and a trade leaves collateral,
    positions, markets and valuation arbitrary; this is why the vault
    reloads and recomputes after each trade.
    Every call is logged together with the venue's state just before and
    just after it, what it paid into the token account it names, and the
    venue's verdict on it, so the instructions can state what they asked
    for, what state the size of the request was computed from, what became
    of a rejected call, and that the venue changed only through the calls. */
module Exchange {
  import opened Numeric
  import opened Errors
  import Token

  /** One record of the vault's positions account. */
  datatype MarketPosition = MarketPosition(marketIndex: u64, baseAssetAmount: i128)

  /** The part of a market's AMM the vault reads. */
  datatype Amm = Amm(lastMarkPriceTwap: u128, lastOraclePriceTwap: i128)

  /** The venue's trade direction. */
  datatype Direction = Long | Short

  /** The venue's mark-to-market value of a position record, or its failure. */
  datatype Valuation = Valued(value: u128) | Unpriceable

  /** A call the vault makes into the venue; a collateral movement names the
      vault's token account it draws from or pays into. */
  datatype Call =
    | Open(direction: Direction, amountIn: u128, limitPrice: u128, marketIndex: u64)
    | Close(marketIndex: u64)
    | DepositCollateral(amount: u64, account: Token.TokenAccount)
    | WithdrawCollateral(amount: u64, account: Token.TokenAccount)

  /** What the vault can observe of the venue. */
  datatype ExchangeState = ExchangeState(
    collateral: u128,
    positions: seq<MarketPosition>,
    markets: seq<Amm>,
    valuation: MarketPosition -> Valuation)

  /** A call, the venue state it was issued from and the one it left, what
      it paid into the token account the call names (negative when it drew
      from it, zero for a trade), and the venue's verdict. */
  datatype CallRecord = CallRecord(call: Call, before: ExchangeState, after: ExchangeState, paid: int, result: Outcome)

  /** The calls take the venue from `v0` to `vEnd`, each starting from the
      state the previous one left: nothing else changed the venue. */
  ghost predicate Chained(v0: ExchangeState, vEnd: ExchangeState, calls: seq<CallRecord>)
  {
    if calls == [] then vEnd == v0
    else
      && calls[0].before == v0
      && calls[|calls| - 1].after == vEnd
      && forall i | 0 <= i < |calls| - 1 :: calls[i].after == calls[i + 1].before
  }

  /** No record of the positions account holds a nonzero base amount. */
  predicate NoOpenPosition(positions: seq<MarketPosition>)
  {
    forall i | 0 <= i < |positions| :: positions[i].baseAssetAmount == 0
  }

  /** The vault's user account at the venue, its positions account and the markets. */
  class ClearingHouse {
    var collateral: u128
    var positions: seq<MarketPosition>
    var markets: seq<Amm>
    var valuation: MarketPosition -> Valuation
    /** `MarketPosition::is_for`, fixed by the venue. */
    const isFor: (MarketPosition, u64) -> bool
    /** Every call received, with the states around it. */
    ghost var log: seq<CallRecord>

    ghost function Observe(): ExchangeState
      reads this
    {
      ExchangeState(collateral, positions, markets, valuation)
    }

    constructor (collateral: u128, positions: seq<MarketPosition>, markets: seq<Amm>,
                 valuation: MarketPosition -> Valuation, isFor: (MarketPosition, u64) -> bool)
      ensures Observe() == ExchangeState(collateral, positions, markets, valuation)
      ensures this.isFor == isFor && log == []
    {
      this.collateral := collateral;
      this.positions := positions;
      this.markets := markets;
      this.valuation := valuation;
      this.isFor := isFor;
      log := [];
    }

    /** `open_position`: either rejected without effect or applied with an
        effect on collateral, positions, markets and valuation that the
        vault cannot predict. */
    method OpenPosition(direction: Direction, amount: u128, limitPrice: u128, marketIndex: u64)
      returns (r: Outcome)
      modifies this
      ensures log == old(log) + [CallRecord(Call.Open(direction, amount, limitPrice, marketIndex), old(Observe()), Observe(), 0, r)]
      ensures r.Fail? ==> r.error == ExchangeFailure && Observe() == old(Observe())
    {
      var before := Observe();
      var accepted: bool := *;
      if !accepted {
        r := Fail(ExchangeFailure);
      } else {
        collateral, positions, markets, valuation := *, *, *, *;
        r := Pass;
      }
      log := log + [CallRecord(Call.Open(direction, amount, limitPrice, marketIndex), before, Observe(), 0, r)];
    }

    /** `close_position`: like an open, its effect is unknown to the vault. */
    method ClosePosition(marketIndex: u64) returns (r: Outcome)
      modifies this
      ensures log == old(log) + [CallRecord(Call.Close(marketIndex), old(Observe()), Observe(), 0, r)]
      ensures r.Fail? ==> r.error == ExchangeFailure && Observe() == old(Observe())
    {
      var before := Observe();
      var accepted: bool := *;
      if !accepted {
        r := Fail(ExchangeFailure);
      } else {
        collateral, positions, markets, valuation := *, *, *, *;
        r := Pass;
      }
      log := log + [CallRecord(Call.Close(marketIndex), before, Observe(), 0, r)];
    }

    /** `deposit_collateral` from the token account `from`: takes exactly
        `amount` from it.  The venue settles funding on the way, so the
        collateral grows by exactly `amount` only when no position is open. */
    method DepositCollateral(amount: u64, from: Token.TokenAccount) returns (r: Outcome)
      modifies this, from
      ensures log == old(log) +
        [CallRecord(Call.DepositCollateral(amount, from), old(Observe()), Observe(), from.amount - old(from.amount), r)]
      ensures r.Pass? ==> amount <= old(from.amount) && from.amount == old(from.amount) - amount
      ensures r.Pass? ==> positions == old(positions) && markets == old(markets) && valuation == old(valuation)
      ensures r.Pass? && NoOpenPosition(old(positions)) ==> collateral == old(collateral) + amount
      ensures r.Fail? ==> r.error == ExchangeFailure && Observe() == old(Observe()) && from.amount == old(from.amount)
    {
      var before := Observe();
      ghost var held := from.amount;
      var accepted: bool := *;
      var settled: u128 := *;
      if NoOpenPosition(positions) {
        if collateral + amount > U128_MAX {
          accepted := false;
        } else {
          settled := collateral + amount;
        }
      }
      if !accepted || from.amount < amount {
        r := Fail(ExchangeFailure);
      } else {
        from.amount := from.amount - amount;
        collateral := settled;
        r := Pass;
      }
      log := log + [CallRecord(Call.DepositCollateral(amount, from), before, Observe(), from.amount - held, r)];
    }

    /** `withdraw_collateral` into the token account `to`: what arrives in
        `to` and what is left as collateral are up to the venue. */
    method WithdrawCollateral(amount: u64, to: Token.TokenAccount) returns (r: Outcome)
      modifies this, to
      ensures log == old(log) +
        [CallRecord(Call.WithdrawCollateral(amount, to), old(Observe()), Observe(), to.amount - old(to.amount), r)]
      ensures positions == old(positions) && markets == old(markets) && valuation == old(valuation)
      ensures r.Fail? ==> r.error == ExchangeFailure && collateral == old(collateral) && to.amount == old(to.amount)
    {
      var before := Observe();
      ghost var held := to.amount;
      var accepted: bool := *;
      if !accepted {
        r := Fail(ExchangeFailure);
      } else {
        collateral, to.amount := *, *;
        r := Pass;
      }
      log := log + [CallRecord(Call.WithdrawCollateral(amount, to), before, Observe(), to.amount - held, r)];
    }
  }
}
