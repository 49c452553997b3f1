/** Where each field of an instruction stands in its bytes. */
module CodecLayout {
  import opened Checked
  import opened State
  import opened Codec

  /** The little-endian word of n bytes at an offset, summed from its least byte. */
  function WordAt(b: Bytes, at: nat, n: nat): nat
    requires at + n <= |b|
  {
    if n == 0 then 0 else WordAt(b, at, n - 1) + b[at + n - 1] * Pow256(n - 1)
  }

  predicate Holds64(b: Bytes, at: nat, v: u64) {
    at + 8 <= |b| && WordAt(b, at, 8) == v
  }

  predicate Holds16(b: Bytes, at: nat, v: u16) {
    at + 2 <= |b| && WordAt(b, at, 2) == v
  }

  predicate HoldsPair(b: Bytes, at: nat, p: Pair) {
    Holds64(b, at, p.first) && Holds64(b, at + 8, p.second)
  }

  /** The four fractions of the fees, numerators first. */
  predicate HoldsFees(b: Bytes, at: nat, f: Fees) {
    && HoldsPair(b, at, Pair(f.minSeparateNumerator, f.minSeparateDenominator))
    && HoldsPair(b, at + 16, Pair(f.tradeFeeNumerator, f.tradeFeeDenominator))
    && HoldsPair(b, at + 32, Pair(f.pnlNumerator, f.pnlDenominator))
    && HoldsPair(b, at + 48, Pair(f.swapFeeNumerator, f.swapFeeDenominator))
  }

  /** The tag, then every field at its offset, and nothing after. */
  predicate Layout(i: Instruction, b: Bytes) {
    match i
    case Initialize(nonce, openTime) => |b| == 10 && b[..2] == [0, nonce] && Holds64(b, 2, openTime)
    case Initialize2(nonce, openTime, pc, coin) =>
      |b| == 26 && b[..2] == [1, nonce] && Holds64(b, 2, openTime) && HoldsPair(b, 10, Pair(pc, coin))
    case MonitorStep(plan, place, cancel) =>
      |b| == 7 && b[0] == 2 && Holds16(b, 1, plan) && Holds16(b, 3, place) && Holds16(b, 5, cancel)
    case Deposit(maxCoin, maxPc, baseSide, other) =>
      && |b| == (if other.Some? then 33 else 25) && b[0] == 3
      && HoldsPair(b, 1, Pair(maxCoin, maxPc)) && Holds64(b, 17, baseSide)
      && (other.Some? ==> Holds64(b, 25, other.value))
    case Withdraw(amount, minCoin, minPc) =>
      && |b| == (if minCoin.Some? && minPc.Some? then 25 else 9) && b[0] == 4
      && Holds64(b, 1, amount)
      && (minCoin.Some? && minPc.Some? ==> HoldsPair(b, 9, Pair(minCoin.value, minPc.value)))
    case MigrateToOpenBook => b == [5]
    case SetParams(param, value, key, fees, last) =>
      && |b| >= 2 && b[..2] == [6, param]
      && (if param == 10 then key.Some? && b[2..] == key.value
          else if param == 9 then fees.Some? && |b| == 66 && HoldsFees(b, 2, fees.value)
          else if param == 12 then last.Some? && |b| == 18 && HoldsPair(b, 2, last.value)
          else value.Some? && |b| == 10 && Holds64(b, 2, value.value))
    case WithdrawPnl => b == [7]
    case WithdrawSrm(amount) => |b| == 9 && b[0] == 8 && Holds64(b, 1, amount)
    case SwapBaseIn(amountIn, minimum) => |b| == 17 && b[0] == 9 && HoldsPair(b, 1, Pair(amountIn, minimum))
    case PreInitialize(nonce) => b == [10, nonce]
    case SwapBaseOut(maxIn, amountOut) => |b| == 17 && b[0] == 11 && HoldsPair(b, 1, Pair(maxIn, amountOut))
    case SimulateInfo(param, baseIn, baseOut) =>
      && |b| >= 2 && b[..2] == [12, param]
      && (if param == 1 then baseIn.Some? && |b| == 18 && HoldsPair(b, 2, baseIn.value)
          else if param == 2 then baseOut.Some? && |b| == 18 && HoldsPair(b, 2, baseOut.value)
          else |b| == 2)
    case AdminCancelOrders(limit) => |b| == 3 && b[0] == 13 && Holds16(b, 1, limit)
    case CreateConfigAccount => b == [14]
    case UpdateConfigAccount(param, owner, fee) =>
      && |b| >= 2 && b[..2] == [15, param]
      && (if param <= 1 then owner.Some? && b[2..] == owner.value
          else fee.Some? && |b| == 10 && Holds64(b, 2, fee.value))
  }

  // ---- Words ----

  lemma {:induction false} WordIsFromLe(b: Bytes, at: nat, n: nat)
    requires at + n <= |b|
    ensures WordAt(b, at, n) == FromLe(b[at..at + n])
  {
    if n > 0 {
      WordIsFromLe(b, at, n - 1);
      var s := b[at..at + n];
      assert s[..n - 1] == b[at..at + n - 1];
      FromLeLast(s);
    }
  }

  /** The last byte weighs most. */
  lemma {:induction false} FromLeLast(s: Bytes)
    requires s != []
    ensures FromLe(s) == FromLe(s[..|s| - 1]) + s[|s| - 1] * Pow256(|s| - 1)
  {
    if |s| > 1 {
      FromLeLast(s[1..]);
      assert s[1..][..|s| - 2] == s[..|s| - 1][1..];
      assert s[..|s| - 1] != [] && s[..|s| - 1][0] == s[0];
      Shift(s[0], FromLe(s[1..][..|s| - 2]), s[|s| - 1], Pow256(|s| - 2));
    } else {
      assert s[1..] == [] && s[..0] == [];
    }
  }

  lemma Shift(low: nat, middle: nat, top: nat, weight: nat)
    ensures low + 256 * (middle + top * weight) == (low + 256 * middle) + top * (256 * weight)
  {
  }

  lemma Holds64At(b: Bytes, at: nat, v: u64)
    requires at + 8 <= |b| && b[at..at + 8] == Bytes64(v)
    ensures Holds64(b, at, v)
  {
    WordSizes();
    FromLeToLe(v, 8);
    WordIsFromLe(b, at, 8);
  }

  lemma Holds16At(b: Bytes, at: nat, v: u16)
    requires at + 2 <= |b| && b[at..at + 2] == Bytes16(v)
    ensures Holds16(b, at, v)
  {
    WordSizes();
    FromLeToLe(v, 2);
    WordIsFromLe(b, at, 2);
  }

  lemma Slice(b: Bytes, i: nat, j: nat, k: nat, l: nat)
    requires k <= l <= j - i && j <= |b|
    ensures b[i..j][k..l] == b[i + k..i + l]
  {
    var s, r := b[i..j][k..l], b[i + k..i + l];
    assert |s| == |r|;
    forall x | 0 <= x < |s| ensures s[x] == r[x] {
      assert s[x] == b[i..j][k + x];
    }
  }

  lemma HoldsPairAt(b: Bytes, at: nat, p: Pair)
    requires at + 16 <= |b| && b[at..at + 16] == BytesPair(p)
    ensures HoldsPair(b, at, p)
  {
    assert b[at..at + 8] == b[at..at + 16][..8];
    assert b[at + 8..at + 16] == b[at..at + 16][8..];
    Holds64At(b, at, p.first);
    Holds64At(b, at + 8, p.second);
    hide Bytes64;
  }

  lemma HoldsFeesAt(b: Bytes, at: nat, f: Fees)
    requires at + 64 <= |b| && b[at..at + 64] == BytesFees(f)
    ensures HoldsFees(b, at, f)
  {
    hide BytesPair, HoldsPair;
    var p, s := FeePairs(f), b[at..at + 64];
    Slice(b, at, at + 64, 0, 16);
    Slice(b, at, at + 64, 16, 32);
    Slice(b, at, at + 64, 32, 48);
    Slice(b, at, at + 64, 48, 64);
    assert s[16..32] == BytesPair(p[1]) && s[32..48] == BytesPair(p[2]) && s[48..64] == BytesPair(p[3]);
    HoldsPairAt(b, at, p[0]);
    HoldsPairAt(b, at + 16, p[1]);
    HoldsPairAt(b, at + 32, p[2]);
    HoldsPairAt(b, at + 48, p[3]);
  }

  // ---- Every instruction ----

  /** Packed bytes lay out the tag and every field as above. */
  lemma PackLays(i: Instruction)
    requires Pack(i).Success?
    ensures Layout(i, Pack(i).value)
  {
    hide Holds64, Holds16, HoldsPair, HoldsFees;
    match i {
      case SetParams(_, _, _, _, _) => ParamsLay(i);
      case SimulateInfo(_, _, _) => SimulateLays(i);
      case UpdateConfigAccount(_, _, _) => ConfigLays(i);
      case Deposit(_, _, _, _) => DepositLays(i);
      case Withdraw(_, _, _) => WithdrawLays(i);
      case Initialize2(_, _, _, _) => Initialize2Lays(i);
      case MonitorStep(_, _, _) => MonitorStepLays(i);
      case _ => ShortLays(i);
    }
    hide Pack, Layout;
  }

  lemma ShortLays(i: Instruction)
    requires Pack(i).Success?
    requires !i.SetParams? && !i.SimulateInfo? && !i.UpdateConfigAccount?
    requires !i.Deposit? && !i.Withdraw? && !i.Initialize2? && !i.MonitorStep?
    ensures Layout(i, Pack(i).value)
  {
    hide Holds64, Holds16, HoldsPair, BytesPair, Bytes64, Bytes16;
    var b := Pack(i).value;
    match i {
      case Initialize(nonce, openTime) =>
        assert b[2..10] == Bytes64(openTime);
        Holds64At(b, 2, openTime);
      case WithdrawSrm(amount) =>
        assert b[1..9] == Bytes64(amount);
        Holds64At(b, 1, amount);
      case SwapBaseIn(amountIn, minimum) =>
        assert b[1..17] == BytesPair(Pair(amountIn, minimum));
        HoldsPairAt(b, 1, Pair(amountIn, minimum));
      case SwapBaseOut(maxIn, amountOut) =>
        assert b[1..17] == BytesPair(Pair(maxIn, amountOut));
        HoldsPairAt(b, 1, Pair(maxIn, amountOut));
      case AdminCancelOrders(limit) =>
        assert b[1..3] == Bytes16(limit);
        Holds16At(b, 1, limit);
      case PreInitialize(_) =>
      case MigrateToOpenBook =>
      case WithdrawPnl =>
      case CreateConfigAccount =>
    }
  }

  lemma Initialize2Lays(i: Instruction)
    requires i.Initialize2? && Pack(i).Success?
    ensures Layout(i, Pack(i).value)
  {
    hide Holds64, HoldsPair, BytesPair, Bytes64;
    var b := Pack(i).value;
    assert b[2..10] == Bytes64(i.openTime);
    assert b[10..26] == BytesPair(Pair(i.initPcAmount, i.initCoinAmount));
    Holds64At(b, 2, i.openTime);
    HoldsPairAt(b, 10, Pair(i.initPcAmount, i.initCoinAmount));
  }

  lemma MonitorStepLays(i: Instruction)
    requires i.MonitorStep? && Pack(i).Success?
    ensures Layout(i, Pack(i).value)
  {
    hide Holds16, Bytes16;
    var b := Pack(i).value;
    assert b[1..3] == Bytes16(i.planOrderLimit);
    assert b[3..5] == Bytes16(i.placeOrderLimit);
    assert b[5..7] == Bytes16(i.cancelOrderLimit);
    Holds16At(b, 1, i.planOrderLimit);
    Holds16At(b, 3, i.placeOrderLimit);
    Holds16At(b, 5, i.cancelOrderLimit);
  }

  lemma DepositLays(i: Instruction)
    requires i.Deposit? && Pack(i).Success?
    ensures Layout(i, Pack(i).value)
  {
    hide Holds64, HoldsPair, BytesPair, Bytes64;
    var b := Pack(i).value;
    assert b[1..17] == BytesPair(Pair(i.maxCoinAmount, i.maxPcAmount));
    assert b[17..25] == Bytes64(i.baseSide);
    HoldsPairAt(b, 1, Pair(i.maxCoinAmount, i.maxPcAmount));
    Holds64At(b, 17, i.baseSide);
    if i.otherAmountMin.Some? {
      assert b[25..33] == Bytes64(i.otherAmountMin.value);
      Holds64At(b, 25, i.otherAmountMin.value);
    }
  }

  lemma WithdrawLays(i: Instruction)
    requires i.Withdraw? && Pack(i).Success?
    ensures Layout(i, Pack(i).value)
  {
    hide Holds64, HoldsPair, BytesPair, Bytes64;
    var b := Pack(i).value;
    assert b[1..9] == Bytes64(i.amount);
    Holds64At(b, 1, i.amount);
    if i.minCoinAmount.Some? && i.minPcAmount.Some? {
      var least := Pair(i.minCoinAmount.value, i.minPcAmount.value);
      assert b[9..25] == BytesPair(least);
      HoldsPairAt(b, 9, least);
    }
  }

  lemma ParamsLay(i: Instruction)
    requires i.SetParams? && Pack(i).Success?
    ensures Layout(i, Pack(i).value)
  {
    hide Holds64, HoldsPair, HoldsFees, BytesPair, Bytes64, BytesFees;
    var b := Pack(i).value;
    var rest := PackParams(i).value;
    assert b == [6, i.param] + rest;
    assert b[2..] == rest;
    if i.param == 9 {
      assert b[2..66] == BytesFees(i.fees.value);
      HoldsFeesAt(b, 2, i.fees.value);
    } else if i.param == 12 {
      assert b[2..18] == BytesPair(i.lastOrderDistance.value);
      HoldsPairAt(b, 2, i.lastOrderDistance.value);
    } else if i.param != 10 {
      assert b[2..10] == Bytes64(i.value.value);
      Holds64At(b, 2, i.value.value);
    }
  }

  lemma SimulateLays(i: Instruction)
    requires i.SimulateInfo? && Pack(i).Success?
    ensures Layout(i, Pack(i).value)
  {
    hide HoldsPair, BytesPair;
    var b := Pack(i).value;
    var rest := PackSimulate(i).value;
    assert b == [12, i.param] + rest;
    if i.param == 1 {
      assert b[2..18] == BytesPair(i.swapBaseIn.value);
      HoldsPairAt(b, 2, i.swapBaseIn.value);
    } else if i.param == 2 {
      assert b[2..18] == BytesPair(i.swapBaseOut.value);
      HoldsPairAt(b, 2, i.swapBaseOut.value);
    }
  }

  lemma ConfigLays(i: Instruction)
    requires i.UpdateConfigAccount? && Pack(i).Success?
    ensures Layout(i, Pack(i).value)
  {
    hide Holds64, Bytes64;
    var b := Pack(i).value;
    var rest := PackConfig(i).value;
    assert b == [15, i.param] + rest;
    assert b[2..] == rest;
    if i.param == 2 {
      assert b[2..10] == Bytes64(i.createPoolFee.value);
      Holds64At(b, 2, i.createPoolFee.value);
    }
  }
}
