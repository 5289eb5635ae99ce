/** The rebalancer: the `update_position` instruction and the two queries
    it is built from, the direction of the vault's position and the value
    of its open exposure ("liabilities"). */
module Rebalancer {
  import opened Numeric
  import opened Errors
  import opened State
  import opened Exchange

  // ---------------------------------------------------------------------
  // Funding signal

  /** `cast_to_i128(mark_twap)?.checked_sub(oracle_twap)`: negative when
      shorts pay longs, positive when longs pay shorts.  It is the exact
      difference of the two averages when that is representable, zero
      exactly when the averages are equal, and overflows only upwards (a
      mark above the i128 range fails the cast instead). */
  function FundingSignal(amm: Amm): (r: Result<i128>)
    ensures r.Ok? ==> r.value == amm.lastMarkPriceTwap - amm.lastOraclePriceTwap
    ensures r == Ok(0) <==> amm.lastMarkPriceTwap == amm.lastOraclePriceTwap
    ensures r == Err(CastingFailure) <==> amm.lastMarkPriceTwap > I128_MAX
    ensures r == Err(MathError)
        <==> amm.lastMarkPriceTwap <= I128_MAX && amm.lastMarkPriceTwap - amm.lastOraclePriceTwap > I128_MAX
    ensures r == Err(MathError) ==> amm.lastOraclePriceTwap < 0
    ensures amm.lastMarkPriceTwap <= I128_MAX && amm.lastMarkPriceTwap - amm.lastOraclePriceTwap <= I128_MAX ==>
      r == Ok(amm.lastMarkPriceTwap - amm.lastOraclePriceTwap)
  {
    if amm.lastMarkPriceTwap > I128_MAX then Err(CastingFailure)
    else
      var diff := amm.lastMarkPriceTwap - amm.lastOraclePriceTwap;
      if diff < I128_MIN || diff > I128_MAX then Err(MathError) else Ok(diff)
  }

  /** The direction that collects funding: long when the signal is negative. */
  function FundingDirection(f: int): (d: Direction)
    requires f != 0
    ensures d == Direction.Long <==> f < 0
    ensures !Opposes(AsPosition(d), f)
  {
    if f < 0 then Direction.Long else Direction.Short
  }

  function AsPosition(d: Direction): Position
  {
    match d
    case Long => Position.Long
    case Short => Position.Short
  }

  /** The two branches of `update_position` that close first: a short under a
      negative signal, a long under a positive one. */
  predicate Opposes(p: Position, f: int): (b: bool)
    ensures b ==> p != Position.None && f != 0
  {
    (f < 0 && p == Position.Short) || (f > 0 && p == Position.Long)
  }

  /** A close is issued exactly when there is a position and it points away
      from the funding direction; an aligned or absent position is kept. */
  lemma CloseExactlyWhenMisaligned(p: Position, f: int)
    requires f != 0
    ensures Opposes(p, f) <==> p != Position.None && p != AsPosition(FundingDirection(f))
  {
  }

  // ---------------------------------------------------------------------
  // Position derivation

  datatype SearchResult = NotFound | FoundAt(index: nat)

  /** Record `k` is the first record that is for market `m`. */
  ghost predicate IsFirstFor(ps: seq<MarketPosition>, isFor: (MarketPosition, u64) -> bool, m: u64, k: int)
  {
    0 <= k < |ps| && isFor(ps[k], m) && forall j | 0 <= j < k :: !isFor(ps[j], m)
  }

  /** `positions.iter().position(|p| p.is_for(m))`. */
  function PositionIndex(ps: seq<MarketPosition>, isFor: (MarketPosition, u64) -> bool, m: u64): (r: SearchResult)
    ensures r.FoundAt? ==> IsFirstFor(ps, isFor, m, r.index)
    ensures r.NotFound? ==> forall j | 0 <= j < |ps| :: !isFor(ps[j], m)
    decreases |ps|
  {
    if ps == [] then NotFound
    else if isFor(ps[0], m) then FoundAt(0)
    else
      match PositionIndex(ps[1..], isFor, m)
      case NotFound => NotFound
      case FoundAt(k) => FoundAt(k + 1)
  }

  /** `get_current_position`: no record for the market gives None; otherwise
      the first record for it decides, Long for a positive base amount and
      Short for anything else. */
  function CurrentPosition(ps: seq<MarketPosition>, isFor: (MarketPosition, u64) -> bool, m: u64): (p: Position)
    ensures p == Position.None <==> forall j | 0 <= j < |ps| :: !isFor(ps[j], m)
    ensures p == Position.Long <==> exists k :: IsFirstFor(ps, isFor, m, k) && ps[k].baseAssetAmount > 0
    ensures p == Position.Short <==> exists k :: IsFirstFor(ps, isFor, m, k) && ps[k].baseAssetAmount <= 0
  {
    match PositionIndex(ps, isFor, m)
    case NotFound => Position.None
    case FoundAt(k) =>
      FirstForIsUnique(ps, isFor, m, k);
      if ps[k].baseAssetAmount > 0 then Position.Long else Position.Short
  }

  lemma FirstForIsUnique(ps: seq<MarketPosition>, isFor: (MarketPosition, u64) -> bool, m: u64, k: int)
    requires IsFirstFor(ps, isFor, m, k)
    ensures forall j :: IsFirstFor(ps, isFor, m, j) ==> j == k
  {
  }

  // ---------------------------------------------------------------------
  // Liabilities

  /** The sum of the venue's valuation over the records with a nonzero base
      amount, taken in order; an unpriceable open record aborts (`unwrap`).
      The sum is unbounded here; the u128 bound is applied by `TotalLiabilities`. */
  function LiabilitySum(ps: seq<MarketPosition>, valuation: MarketPosition -> Valuation): (r: Result<nat>)
    ensures r.Err? ==> r.error == Panic
    ensures r.Ok? <==> forall i | 0 <= i < |ps| && ps[i].baseAssetAmount != 0 :: valuation(ps[i]).Valued?
    decreases |ps|
  {
    if ps == [] then Ok(0)
    else
      var last := ps[|ps| - 1];
      assert forall i | 0 <= i < |ps| - 1 :: ps[..|ps| - 1][i] == ps[i];
      match LiabilitySum(ps[..|ps| - 1], valuation)
      case Err(e) => Err(e)
      case Ok(s) =>
        if last.baseAssetAmount == 0 then Ok(s)
        else
          match valuation(last)
          case Unpriceable => Err(Panic)
          case Valued(v) => Ok(s + v)
  }

  /** `compute_total_liabilies` as a value: the sum, or a panic when a
      record cannot be valued or the u128 accumulator would overflow. */
  function TotalLiabilities(v: ExchangeState): (r: Result<u128>)
    ensures r.Err? ==> r.error == Panic
    ensures NoOpenPosition(v.positions) ==> r == Ok(0)
  {
    assert NoOpenPosition(v.positions) ==> LiabilitySum(v.positions, v.valuation) == Ok(0) by {
      if NoOpenPosition(v.positions) {
        NoOpenPositionNoLiabilities(v.positions, v.valuation);
      }
    }
    match LiabilitySum(v.positions, v.valuation)
    case Err(e) => Err(e)
    case Ok(s) => if s > U128_MAX then Err(Panic) else Ok(s)
  }

  /** A prefix fails only if the whole does, and a prefix never sums to more. */
  lemma {:induction false} LiabilityPrefix(ps: seq<MarketPosition>, valuation: MarketPosition -> Valuation, i: nat)
    requires i <= |ps|
    ensures LiabilitySum(ps[..i], valuation).Err? ==> LiabilitySum(ps, valuation).Err?
    ensures LiabilitySum(ps, valuation).Ok? ==>
      LiabilitySum(ps[..i], valuation).Ok? && LiabilitySum(ps[..i], valuation).value <= LiabilitySum(ps, valuation).value
    decreases |ps| - i
  {
    if i == |ps| {
      assert ps[..i] == ps;
    } else {
      var front := ps[..|ps| - 1];
      LiabilityPrefix(front, valuation, i);
      assert front[..i] == ps[..i];
    }
  }

  /** Records with a zero base amount contribute nothing: their valuation is
      never consulted, so two valuations that agree on the open records give
      the same liabilities. */
  lemma {:induction false} ZeroRecordsContributeNothing(
    ps: seq<MarketPosition>, v: MarketPosition -> Valuation, w: MarketPosition -> Valuation)
    requires forall i | 0 <= i < |ps| && ps[i].baseAssetAmount != 0 :: v(ps[i]) == w(ps[i])
    ensures LiabilitySum(ps, v) == LiabilitySum(ps, w)
    decreases |ps|
  {
    if ps != [] {
      var front := ps[..|ps| - 1];
      assert forall i | 0 <= i < |front| :: front[i] == ps[i];
      ZeroRecordsContributeNothing(front, v, w);
    }
  }

  /** With no open record the vault has no liabilities. */
  lemma {:induction false} NoOpenPositionNoLiabilities(ps: seq<MarketPosition>, v: MarketPosition -> Valuation)
    requires NoOpenPosition(ps)
    ensures LiabilitySum(ps, v) == Ok(0)
    decreases |ps|
  {
    if ps != [] {
      var front := ps[..|ps| - 1];
      assert forall i | 0 <= i < |front| :: front[i] == ps[i];
      NoOpenPositionNoLiabilities(front, v);
    }
  }

  /** `compute_total_liabilies`: the loop over the positions account,
      skipping records with a zero base amount. */
  method ComputeTotalLiabilities(ex: ClearingHouse) returns (r: Result<u128>)
    ensures r == TotalLiabilities(ex.Observe())
  {
    var ps := ex.positions;
    var liabilitiesAmount: u128 := 0;
    for i := 0 to |ps|
      invariant LiabilitySum(ps[..i], ex.valuation) == Ok(liabilitiesAmount)
    {
      assert ps[..i + 1][..i] == ps[..i];
      var marketPosition := ps[i];
      if marketPosition.baseAssetAmount != 0 {
        match ex.valuation(marketPosition)
        case Unpriceable =>
          LiabilityPrefix(ps, ex.valuation, i + 1);
          return Err(Panic);
        case Valued(value) =>
          if liabilitiesAmount + value > U128_MAX {
            assert LiabilitySum(ps[..i + 1], ex.valuation) == Ok(liabilitiesAmount + value);
            LiabilityPrefix(ps, ex.valuation, i + 1);
            return Err(Panic);
          }
          liabilitiesAmount := liabilitiesAmount + value;
      }
    }
    assert ps[..|ps|] == ps;
    r := Ok(liabilitiesAmount);
  }

  // ---------------------------------------------------------------------
  // Position sizing

  /** `amount_to_trade`: the collateral not yet matched by liabilities,
      clamped at zero when the vault is over-exposed. */
  function AmountToTrade(collateral: u128, liabilities: u128): (r: u128)
    ensures liabilities <= collateral ==> liabilities + r == collateral
    ensures collateral <= liabilities ==> r == 0
  {
    if liabilities > collateral then 0 else collateral - liabilities
  }

  /** More collateral never means a smaller trade. */
  lemma AmountToTradeMonotone(c1: u128, c2: u128, liabilities: u128)
    requires c1 <= c2
    ensures AmountToTrade(c1, liabilities) <= AmountToTrade(c2, liabilities)
  {
  }

  /** A trade is sized only when collateral strictly exceeds liabilities. */
  lemma AmountToTradePositiveIff(collateral: u128, liabilities: u128)
    ensures AmountToTrade(collateral, liabilities) > 0 <==> liabilities < collateral
  {
  }

  // ---------------------------------------------------------------------
  // The instruction

  /** After the (possible) close, with `v1` the venue as reloaded: recompute
      liabilities, then open in the funding direction for exactly the
      unmatched collateral if there is any, at limit price 0; the verdict on
      that open is the instruction's result, and the venue ends in `vEnd`. */
  ghost predicate Reopened(v1: ExchangeState, vEnd: ExchangeState, f: int, m: u64, r: Outcome, calls: seq<CallRecord>)
    requires f != 0
  {
    match TotalLiabilities(v1)
    case Err(_) => r == Fail(Panic) && calls == [] && vEnd == v1
    case Ok(l) =>
      var amount := AmountToTrade(v1.collateral, l);
      if amount == 0 then r == Pass && calls == [] && vEnd == v1
      else
        && |calls| == 1
        && calls[0].call == Call.Open(FundingDirection(f), amount, 0, m)
        && calls[0].before == v1
        && calls[0].after == vEnd
        && r == calls[0].result
  }

  /** One call of `update_position` with a nonzero signal `f`, from venue
      state `v0` to `vEnd`, returning `r` after issuing `calls`.  A rejected
      close ends the instruction with the venue's error. */
  ghost predicate Rebalanced(
    v0: ExchangeState, vEnd: ExchangeState, isFor: (MarketPosition, u64) -> bool,
    m: u64, f: int, r: Outcome, calls: seq<CallRecord>)
    requires f != 0
  {
    var p := CurrentPosition(v0.positions, isFor, m);
    if TotalLiabilities(v0).Err? then r == Fail(Panic) && calls == [] && vEnd == v0
    else if !Opposes(p, f) then Reopened(v0, vEnd, f, m, r, calls)
    else ClosedThenReopened(v0, vEnd, f, m, r, calls)
  }

  /** The close of market `m` from venue state `v0`, whose rejection ends the
      instruction with the venue's error, and otherwise the reopen from the
      state the close left. */
  ghost predicate ClosedThenReopened(v0: ExchangeState, vEnd: ExchangeState, f: int, m: u64, r: Outcome,
                                     calls: seq<CallRecord>)
    requires f != 0
  {
    && |calls| >= 1
    && calls[0].call == Call.Close(m)
    && calls[0].before == v0
    && if calls[0].result.Fail? then r == calls[0].result && |calls| == 1 && vEnd == calls[0].after == v0
       else Reopened(calls[0].after, vEnd, f, m, r, calls[1..])
  }

  /** The second half of `update_position`, after the (possible) close: the
      user account as reloaded, the liabilities recomputed, and an open in
      the funding direction for the unmatched collateral, if any. */
  method Reopen(ex: ClearingHouse, approxFunding: i128, marketIndex: u64)
    returns (r: Outcome, ghost calls: seq<CallRecord>)
    requires approxFunding != 0
    modifies ex
    ensures ex.log == old(ex.log) + calls
    ensures calls == [] ==> ex.Observe() == old(ex.Observe())
    ensures Reopened(old(ex.Observe()), ex.Observe(), approxFunding, marketIndex, r, calls)
  {
    ghost var log0 := ex.log;
    // the user account: reloaded after a close, as deserialised otherwise
    var userCollateral := ex.collateral;
    var liabilities := ComputeTotalLiabilities(ex);
    if liabilities.Err? {
      return Fail(Panic), [];
    }
    var amountToTrade := AmountToTrade(userCollateral, liabilities.value);
    if amountToTrade > 0 {
      r := ex.OpenPosition(FundingDirection(approxFunding), amountToTrade, 0, marketIndex);
    } else {
      r := Pass;
    }
    calls := ex.log[|log0|..];
  }

  /** The close of an opposing position and, once it is accepted, the
      reload and the reopen. */
  method CloseAndReopen(ex: ClearingHouse, approxFunding: i128, marketIndex: u64)
    returns (r: Outcome, ghost calls: seq<CallRecord>)
    requires approxFunding != 0
    modifies ex
    ensures ex.log == old(ex.log) + calls
    ensures ClosedThenReopened(old(ex.Observe()), ex.Observe(), approxFunding, marketIndex, r, calls)
  {
    ghost var log0 := ex.log;
    var closed := ex.ClosePosition(marketIndex);
    ghost var close := ex.log[|log0|];
    if closed.Fail? {
      return closed, [close];
    }
    ghost var reopened: seq<CallRecord>;
    r, reopened := Reopen(ex, approxFunding, marketIndex);
    calls := [close] + reopened;
    assert calls[1..] == reopened;
  }

  /** `update_position` once the signal is known and nonzero: the current
      position, the first liabilities estimate, the close of an opposing
      position, and then the reopen. */
  method Realign(ex: ClearingHouse, approxFunding: i128, marketIndex: u64)
    returns (r: Outcome, ghost calls: seq<CallRecord>)
    requires approxFunding != 0
    modifies ex
    ensures ex.log == old(ex.log) + calls
    ensures calls == [] ==> ex.Observe() == old(ex.Observe())
    ensures Rebalanced(old(ex.Observe()), ex.Observe(), ex.isFor, marketIndex, approxFunding, r, calls)
  {
    var vaultPosition := CurrentPosition(ex.positions, ex.isFor, marketIndex);
    // the first estimate is only logged, but computing it can abort
    var liabilities := ComputeTotalLiabilities(ex);
    if liabilities.Err? {
      return Fail(Panic), [];
    }
    if Opposes(vaultPosition, approxFunding) {
      r, calls := CloseAndReopen(ex, approxFunding, marketIndex);
    } else {
      r, calls := Reopen(ex, approxFunding, marketIndex);
    }
  }

  /** `update_position`. */
  method UpdatePosition(ex: ClearingHouse, marketIndex: u64) returns (r: Outcome, ghost calls: seq<CallRecord>)
    modifies ex
    ensures ex.log == old(ex.log) + calls
    ensures calls == [] ==> ex.Observe() == old(ex.Observe())
    ensures marketIndex >= |old(ex.markets)| ==> r == Fail(Panic) && calls == []
    ensures marketIndex < |old(ex.markets)| ==>
      var signal := FundingSignal(old(ex.markets)[marketIndex]);
      && (signal.Err? ==> r == Fail(signal.error) && calls == [])
      && (signal == Ok(0) ==> r == Pass && calls == [])
      && (signal.Ok? && signal.value != 0 ==>
            Rebalanced(old(ex.Observe()), ex.Observe(), ex.isFor, marketIndex, signal.value, r, calls))
  {
    if marketIndex >= |ex.markets| {
      return Fail(Panic), [];
    }
    var signal := FundingSignal(ex.markets[marketIndex]);
    if signal.Err? {
      return Fail(signal.error), [];
    }
    var approxFunding := signal.value;
    if approxFunding == 0 {
      return Pass, [];
    }
    r, calls := Realign(ex, approxFunding, marketIndex);
  }

  /** The calls of one rebalance: at most a close and then an open; the
      close only against an opposing position; every open in the funding
      direction, at limit price 0, for exactly the positive unmatched
      collateral of the venue state it was issued from; a rejected call is
      the last one and its verdict is the result; a success means every
      call succeeded. */
  lemma {:induction false} RebalanceCalls(
    v0: ExchangeState, vEnd: ExchangeState, isFor: (MarketPosition, u64) -> bool,
    m: u64, f: int, r: Outcome, calls: seq<CallRecord>)
    requires f != 0
    requires Rebalanced(v0, vEnd, isFor, m, f, r, calls)
    ensures |calls| <= 2
    ensures forall i | 0 <= i < |calls| && calls[i].call.Close? ::
      i == 0 && calls[i].call.marketIndex == m && Opposes(CurrentPosition(v0.positions, isFor, m), f)
    ensures forall i | 0 <= i < |calls| && calls[i].call.Open? ::
      && i == |calls| - 1
      && calls[i].call == Call.Open(FundingDirection(f), calls[i].call.amountIn, 0, m)
      && TotalLiabilities(calls[i].before).Ok?
      && calls[i].call.amountIn == AmountToTrade(calls[i].before.collateral, TotalLiabilities(calls[i].before).value)
      && calls[i].call.amountIn > 0
    ensures forall i | 0 <= i < |calls| && calls[i].result.Fail? :: i == |calls| - 1 && r == calls[i].result
    ensures r.Pass? ==> forall i | 0 <= i < |calls| :: calls[i].result.Pass?
    ensures Chained(v0, vEnd, calls)
  {
    var p := CurrentPosition(v0.positions, isFor, m);
    if TotalLiabilities(v0).Ok? && Opposes(p, f) {
      if calls[0].result.Pass? {
        assert ClosedThenReopened(v0, vEnd, f, m, r, calls);
        assert Reopened(calls[0].after, vEnd, f, m, r, calls[1..]);
      }
    }
  }

  /** Once the vault is aligned with the signal and fully allocated, a
      further rebalance on the same venue state issues nothing. */
  lemma IdleWhenAlignedAndAllocated(
    v0: ExchangeState, vEnd: ExchangeState, isFor: (MarketPosition, u64) -> bool,
    m: u64, f: int, r: Outcome, calls: seq<CallRecord>)
    requires f != 0
    requires Rebalanced(v0, vEnd, isFor, m, f, r, calls)
    requires !Opposes(CurrentPosition(v0.positions, isFor, m), f)
    requires TotalLiabilities(v0).Ok? && AmountToTrade(v0.collateral, TotalLiabilities(v0).value) == 0
    ensures r == Pass && calls == []
  {
  }
}
