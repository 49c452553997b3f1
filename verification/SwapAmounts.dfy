/** What a swap moves: how much of which token, which fee it counts, and when it goes
    through. */
module SwapAmounts {
  import opened Checked
  import opened Arith
  import opened CeilDiv
  import opened Curve
  import opened State
  import opened PoolLedger
  import opened Solvency

  // ---- The two sides of a swap ----

  function InVault(l: Ledger, dir: Direction): u64 {
    if dir.PC2Coin? then l.pcVault else l.coinVault
  }

  function OutVault(l: Ledger, dir: Direction): u64 {
    if dir.PC2Coin? then l.coinVault else l.pcVault
  }

  function InReserve(l: Ledger, dir: Direction): u64
    requires Solvent(l)
  {
    if dir.PC2Coin? then PcReserve(l) else CoinReserve(l)
  }

  function OutReserve(l: Ledger, dir: Direction): u64
    requires Solvent(l)
  {
    if dir.PC2Coin? then CoinReserve(l) else PcReserve(l)
  }

  /** The three totals a direction keeps. */
  function Volume(l: Ledger, dir: Direction): (nat, nat, nat) {
    if dir.PC2Coin? then (l.swaps.pcIn, l.swaps.coinOut, l.swaps.accPcFee)
    else (l.swaps.coinIn, l.swaps.pcOut, l.swaps.accCoinFee)
  }

  function Opposite(dir: Direction): Direction {
    if dir.PC2Coin? then Coin2PC else PC2Coin
  }

  /** A pool trades once it is open. */
  predicate Trading(l: Ledger, now: u64) {
    l.status == SwapOnly || (l.status == WaitingTrade && l.openTime <= now)
  }

  /** The vaults move by exactly the two legs, the direction's totals by the legs and the
      fee, and nothing else but the status of a waiting pool. */
  predicate Moved(l: Ledger, m: Ledger, dir: Direction, paid: nat, out: nat, fee: nat) {
    && InVault(m, dir) == InVault(l, dir) + paid
    && OutVault(m, dir) == OutVault(l, dir) - out
    && Volume(m, dir) == (Volume(l, dir).0 + paid, Volume(l, dir).1 + out, Volume(l, dir).2 + fee)
    && Volume(m, Opposite(dir)) == Volume(l, Opposite(dir))
    && m.status == SwapOnly
    && m == l.(status := m.status, pcVault := m.pcVault, coinVault := m.coinVault, swaps := m.swaps)
  }

  /** The vault and the totals have room for a swap. */
  predicate HasRoom(l: Ledger, dir: Direction, paid: nat, out: nat, fee: nat) {
    && InVault(l, dir) + paid < U64_LIMIT
    && Volume(l, dir).0 + paid < U128_LIMIT
    && Volume(l, dir).1 + out < U128_LIMIT
    && Volume(l, dir).2 + fee < U64_LIMIT
  }

  lemma SettleMoves(l: Ledger, dir: Direction, paid: u64, out: u64, fee: u64)
    requires out <= OutVault(l, dir) && l.status == SwapOnly
    ensures Settle(l, dir, paid, out, fee).Success? <==> HasRoom(l, dir, paid, out, fee)
    ensures Settle(l, dir, paid, out, fee).Success? ==>
      Moved(l, Settle(l, dir, paid, out, fee).value, dir, paid, out, fee)
  {
  }

  // ---- Exact in ----

  /** An exact-in swap goes through exactly when the pool trades, the payer has the input,
      the curve's payout is worth something and meets the minimum, and there is room; it
      then moves that input and that payout and counts that fee. */
  lemma SwapInIs(
    l: Ledger, dir: Direction, amountIn: u64, minimumOut: u64, funds: u64, now: u64, out: nat, fee: nat)
    requires Solvent(l) && l.fees.Validate()
    requires IsQuoteIn(amountIn, InReserve(l, dir), OutReserve(l, dir), l.fees.Swap(), out, fee)
    ensures var r := SwapIn(l, dir, amountIn, minimumOut, funds, now);
      && (r.Success? <==>
            && Trading(l, now) && 0 < amountIn <= funds && 0 < out && minimumOut <= out
            && HasRoom(l, dir, amountIn, out, fee))
      && (r.Success? ==> out < OutReserve(l, dir) && Moved(l, r.value, dir, amountIn, out, fee))
  {
    hide BaseInWithFee, IsQuoteIn, Settle, HasRoom, Moved;
    var rIn, rOut, f := InReserve(l, dir), OutReserve(l, dir), l.fees.Swap();
    BaseInFits(amountIn, rIn, rOut, f);
    var quote := BaseInWithFee(amountIn, rIn, rOut, f).value;
    QuoteInUnique(amountIn, rIn, rOut, f, out, fee, quote.0, quote.1);
    QuoteLeavesSomething(amountIn, rIn, rOut, f, out, fee);
    var o := l.(status := SwapOnly);
    SettleMoves(o, dir, amountIn, out, fee);
    OpensAs(l, o, dir, amountIn, out, fee);
  }

  /** Opening a waiting pool changes neither its room nor what a swap moves. */
  lemma OpensAs(l: Ledger, o: Ledger, dir: Direction, paid: nat, out: nat, fee: nat)
    requires o == l.(status := SwapOnly)
    ensures HasRoom(o, dir, paid, out, fee) <==> HasRoom(l, dir, paid, out, fee)
    ensures forall m :: Moved(o, m, dir, paid, out, fee) ==> Moved(l, m, dir, paid, out, fee)
  {
  }

  lemma QuoteLeavesSomething(amountIn: u64, rIn: u64, rOut: u64, f: SwapFee, out: nat, fee: nat)
    requires 0 < rIn && 0 < rOut && IsQuoteIn(amountIn, rIn, rOut, f, out, fee)
    ensures out < rOut
  {
    var net := amountIn - fee;
    if rOut <= out {
      MulMono(rOut, out, rIn + net);
      Distribute(rIn, net, rOut);
      MulMono(1, rIn, rOut);
    }
  }

  /** In terms of the vaults alone: what left the out side is the curve's payout for the
      input less the fee counted, and the fee is the input's share of it. */
  lemma SwapInMoves(l: Ledger, dir: Direction, amountIn: u64, minimumOut: u64, funds: u64, now: u64)
    requires Solvent(l) && l.fees.Validate() && SwapIn(l, dir, amountIn, minimumOut, funds, now).Success?
    ensures var m := SwapIn(l, dir, amountIn, minimumOut, funds, now).value;
      var out, fee := OutVault(l, dir) - OutVault(m, dir), Volume(m, dir).2 - Volume(l, dir).2;
      && Trading(l, now) && 0 < amountIn <= funds
      && 0 < out < OutReserve(l, dir) && minimumOut <= out && 0 <= fee
      && Moved(l, m, dir, amountIn, out, fee)
      && IsQuoteIn(amountIn, InReserve(l, dir), OutReserve(l, dir), l.fees.Swap(), out, fee)
  {
    hide SwapIn, BaseInWithFee, IsQuoteIn, HasRoom;
    BaseInFits(amountIn, InReserve(l, dir), OutReserve(l, dir), l.fees.Swap());
    var quote := BaseInWithFee(amountIn, InReserve(l, dir), OutReserve(l, dir), l.fees.Swap()).value;
    SwapInIs(l, dir, amountIn, minimumOut, funds, now, quote.0, quote.1);
  }

  // ---- Exact out ----

  /** An exact-out swap goes through exactly when the pool trades, the output is part of the
      reserve, its charge is worth something and within the payer's funds and maximum, and
      there is room; it then moves that charge and that output. */
  lemma SwapOutIs(
    l: Ledger, dir: Direction, maxIn: u64, amountOut: u64, funds: u64, now: u64, before: nat, charged: nat)
    requires Solvent(l) && l.fees.Validate()
    requires IsQuoteOut(amountOut, InReserve(l, dir), OutReserve(l, dir), l.fees.Swap(), before, charged)
    ensures before <= charged
    ensures var r := SwapOut(l, dir, maxIn, amountOut, funds, now);
      && (r.Success? <==>
            && Trading(l, now) && 0 < amountOut && 0 < charged <= funds && charged <= maxIn
            && HasRoom(l, dir, charged, amountOut, charged - before))
      && (r.Success? ==> Moved(l, r.value, dir, charged, amountOut, charged - before))
  {
    hide BaseOutWithFee, Settle, HasRoom, Moved, IsRoundedUp;
    var rIn, rOut, f := InReserve(l, dir), OutReserve(l, dir), l.fees.Swap();
    BaseOutFitsIff(amountOut, rIn, rOut, f, before, charged);
    GrossUpCovers(before, charged, f.denominator, f.denominator - f.numerator);
    if charged < U64_LIMIT {
      var o := l.(status := SwapOnly);
      SettleMoves(o, dir, charged, amountOut, charged - before);
      OpensAs(l, o, dir, charged, amountOut, charged - before);
    }
  }

  /** In terms of the vaults alone: exactly the output asked for leaves, and what is paid is
      its charge and no more, whatever the payer would have allowed. */
  lemma SwapOutMoves(l: Ledger, dir: Direction, maxIn: u64, amountOut: u64, funds: u64, now: u64)
    returns (before: nat)
    requires Solvent(l) && l.fees.Validate() && SwapOut(l, dir, maxIn, amountOut, funds, now).Success?
    ensures var m := SwapOut(l, dir, maxIn, amountOut, funds, now).value;
      var paid := InVault(m, dir) - InVault(l, dir);
      && Trading(l, now) && 0 < amountOut < OutReserve(l, dir)
      && before <= paid && 0 < paid <= funds && paid <= maxIn
      && Moved(l, m, dir, paid, amountOut, paid - before)
      && IsQuoteOut(amountOut, InReserve(l, dir), OutReserve(l, dir), l.fees.Swap(), before, paid)
  {
    hide BaseOutWithFee, Settle, HasRoom, IsRoundedUp;
    before := BaseOutIsQuoted(amountOut, InReserve(l, dir), OutReserve(l, dir), l.fees.Swap());
    var charged := BaseOutWithFee(amountOut, InReserve(l, dir), OutReserve(l, dir), l.fees.Swap()).value.0;
    SwapOutIs(l, dir, maxIn, amountOut, funds, now, before, charged);
  }

  /** An output of the whole reserve or more is refused. */
  lemma SwapOutKeepsReserve(l: Ledger, dir: Direction, maxIn: u64, amountOut: u64, funds: u64, now: u64)
    requires Solvent(l) && OutReserve(l, dir) <= amountOut
    ensures SwapOut(l, dir, maxIn, amountOut, funds, now).Failure?
  {
    hide Settle;
    EmptyingFails(amountOut, InReserve(l, dir), OutReserve(l, dir), l.fees.Swap());
  }
}
