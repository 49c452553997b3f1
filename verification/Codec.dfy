/** The binary form of the program's instructions: a tag byte, then fields whose number
    and widths depend on the tag and sometimes on a parameter byte. */
module Codec {
  import opened Checked
  import opened State

  type Bytes = seq<u8>
  type Pubkey = k: Bytes | |k| == 32 witness seq(32, _ => 0)

  predicate DefaultKey(k: Pubkey) {
    forall b <- k :: b == 0
  }

  datatype Pair = Pair(first: u64, second: u64)

  datatype Instruction =
    | Initialize(nonce: u8, openTime: u64)
    | Initialize2(nonce: u8, openTime: u64, initPcAmount: u64, initCoinAmount: u64)
    | MonitorStep(planOrderLimit: u16, placeOrderLimit: u16, cancelOrderLimit: u16)
    | Deposit(maxCoinAmount: u64, maxPcAmount: u64, baseSide: u64, otherAmountMin: Option<u64>)
    | Withdraw(amount: u64, minCoinAmount: Option<u64>, minPcAmount: Option<u64>)
    | MigrateToOpenBook
    | SetParams(param: u8, value: Option<u64>, newPubkey: Option<Pubkey>, fees: Option<Fees>,
                lastOrderDistance: Option<Pair>)
    | WithdrawPnl
    | WithdrawSrm(amount: u64)
    | SwapBaseIn(amountIn: u64, minimumAmountOut: u64)
    | PreInitialize(nonce: u8)
    | SwapBaseOut(maxAmountIn: u64, amountOut: u64)
    | SimulateInfo(param: u8, swapBaseIn: Option<Pair>, swapBaseOut: Option<Pair>)
    | AdminCancelOrders(limit: u16)
    | CreateConfigAccount
    | UpdateConfigAccount(param: u8, owner: Option<Pubkey>, createPoolFee: Option<u64>)

  // ---- Little-endian words ----

  function Pow256(n: nat): (p: nat)
    ensures p > 0
  {
    if n == 0 then 1 else 256 * Pow256(n - 1)
  }

  function ToLe(v: nat, n: nat): (s: Bytes)
    ensures |s| == n
  {
    if n == 0 then [] else [v % 256] + ToLe(v / 256, n - 1)
  }

  function FromLe(s: Bytes): nat {
    if s == [] then 0 else s[0] + 256 * FromLe(s[1..])
  }

  lemma {:induction false} FromLeToLe(v: nat, n: nat)
    requires v < Pow256(n)
    ensures FromLe(ToLe(v, n)) == v
  {
    if n > 0 {
      FromLeToLe(v / 256, n - 1);
      assert ToLe(v, n)[1..] == ToLe(v / 256, n - 1);
    }
  }

  lemma {:induction false} ToLeFromLe(s: Bytes)
    ensures FromLe(s) < Pow256(|s|)
    ensures ToLe(FromLe(s), |s|) == s
  {
    if s != [] {
      ToLeFromLe(s[1..]);
      LowByte(s[0], FromLe(s[1..]), Pow256(|s| - 1));
      assert FromLe(s) == s[0] + 256 * FromLe(s[1..]);
      assert s == [s[0]] + s[1..];
      hide FromLe;
    }
  }

  lemma LowByte(low: u8, high: nat, bound: nat)
    requires high < bound
    ensures (low + 256 * high) % 256 == low && (low + 256 * high) / 256 == high
    ensures low + 256 * high < 256 * bound
  {
  }

  lemma WordSizes()
    ensures Pow256(2) == 0x1_0000 && Pow256(8) == U64_LIMIT
  {
    assert Pow256(4) == 0x1_0000_0000;
  }

  function Bytes16(v: u16): (s: Bytes)
    ensures |s| == 2
  {
    ToLe(v, 2)
  }

  function Bytes64(v: u64): (s: Bytes)
    ensures |s| == 8
  {
    ToLe(v, 8)
  }

  function Unpack8(s: Bytes): Result<(u8, Bytes)> {
    if |s| >= 1 then Success((s[0], s[1..])) else Failure(InvalidInstructionData)
  }

  function Unpack16(s: Bytes): Result<(u16, Bytes)> {
    if |s| >= 2 then
      WordSizes();
      ToLeFromLe(s[..2]);
      Success((FromLe(s[..2]), s[2..]))
    else Failure(InvalidInstructionData)
  }

  function Unpack64(s: Bytes): Result<(u64, Bytes)> {
    if |s| >= 8 then
      WordSizes();
      ToLeFromLe(s[..8]);
      Success((FromLe(s[..8]), s[8..]))
    else Failure(InvalidInstructionData)
  }

  /** Reading back what was written, and writing back what was read. */
  lemma Read16(v: u16, rest: Bytes)
    ensures Unpack16(Bytes16(v) + rest) == Success((v, rest))
  {
    WordSizes();
    FromLeToLe(v, 2);
    assert (Bytes16(v) + rest)[..2] == Bytes16(v);
  }

  lemma Read64(v: u64, rest: Bytes)
    ensures Unpack64(Bytes64(v) + rest) == Success((v, rest))
  {
    WordSizes();
    FromLeToLe(v, 8);
    assert (Bytes64(v) + rest)[..8] == Bytes64(v);
  }

  lemma Wrote16(s: Bytes)
    ensures Unpack16(s).Success? <==> |s| >= 2
    ensures Unpack16(s).Success? ==> s == Bytes16(Unpack16(s).value.0) + Unpack16(s).value.1
  {
    if |s| >= 2 {
      WordSizes();
      ToLeFromLe(s[..2]);
      assert s == s[..2] + s[2..];
    }
  }

  lemma Wrote64(s: Bytes)
    ensures Unpack64(s).Success? <==> |s| >= 8
    ensures Unpack64(s).Success? ==> s == Bytes64(Unpack64(s).value.0) + Unpack64(s).value.1
  {
    if |s| >= 8 {
      WordSizes();
      ToLeFromLe(s[..8]);
      assert s == s[..8] + s[8..];
    }
  }

  // ---- Groups of words ----

  function BytesPair(p: Pair): (s: Bytes)
    ensures |s| == 16
  {
    Bytes64(p.first) + Bytes64(p.second)
  }

  function UnpackPair(s: Bytes): Result<(Pair, Bytes)> {
    var (a, rest) :- Unpack64(s);
    var (b, rest2) :- Unpack64(rest);
    Success((Pair(a, b), rest2))
  }

  lemma ReadPair(p: Pair, rest: Bytes)
    ensures UnpackPair(BytesPair(p) + rest) == Success((p, rest))
  {
    assert BytesPair(p) + rest == Bytes64(p.first) + (Bytes64(p.second) + rest);
    Read64(p.first, Bytes64(p.second) + rest);
    Read64(p.second, rest);
    hide Bytes64, Unpack64;
  }

  lemma WrotePair(s: Bytes)
    ensures UnpackPair(s).Success? <==> |s| >= 16
    ensures UnpackPair(s).Success? ==> s == BytesPair(UnpackPair(s).value.0) + UnpackPair(s).value.1
    ensures UnpackPair(s).Failure? ==> UnpackPair(s).error == InvalidInstructionData
  {
    Wrote64(s);
    if Unpack64(s).Success? {
      var (a, rest) := Unpack64(s).value;
      Wrote64(rest);
      if Unpack64(rest).Success? {
        var (b, rest2) := Unpack64(rest).value;
        assert s == Bytes64(a) + (Bytes64(b) + rest2);
        assert s == BytesPair(Pair(a, b)) + rest2;
      }
    }
  }

  function FeePairs(f: Fees): seq<Pair> {
    [Pair(f.minSeparateNumerator, f.minSeparateDenominator),
     Pair(f.tradeFeeNumerator, f.tradeFeeDenominator),
     Pair(f.pnlNumerator, f.pnlDenominator),
     Pair(f.swapFeeNumerator, f.swapFeeDenominator)]
  }

  function BytesFees(f: Fees): (s: Bytes)
    ensures |s| == 64
  {
    var p := FeePairs(f);
    BytesPair(p[0]) + (BytesPair(p[1]) + (BytesPair(p[2]) + BytesPair(p[3])))
  }

  function UnpackFees(s: Bytes): Result<(Fees, Bytes)> {
    var (sep, r1) :- UnpackPair(s);
    var (trade, r2) :- UnpackPair(r1);
    var (pnl, r3) :- UnpackPair(r2);
    var (swap, r4) :- UnpackPair(r3);
    Success((Fees(sep.first, sep.second, trade.first, trade.second,
                  pnl.first, pnl.second, swap.first, swap.second), r4))
  }

  lemma ReadFees(f: Fees, rest: Bytes)
    ensures UnpackFees(BytesFees(f) + rest) == Success((f, rest))
  {
    hide BytesPair, UnpackPair;
    var p := FeePairs(f);
    var t3 := BytesPair(p[3]) + rest;
    var t2 := BytesPair(p[2]) + t3;
    var t1 := BytesPair(p[1]) + t2;
    assert BytesFees(f) + rest == BytesPair(p[0]) + t1;
    ReadPair(p[0], t1);
    ReadPair(p[1], t2);
    ReadPair(p[2], t3);
    ReadPair(p[3], rest);
  }

  lemma WroteFees(s: Bytes)
    ensures |s| >= 64 ==> UnpackFees(s).Success?
    ensures UnpackFees(s).Success? ==> s == BytesFees(UnpackFees(s).value.0) + UnpackFees(s).value.1
  {
    hide BytesPair, UnpackPair;
    WrotePair(s);
    if UnpackPair(s).Success? {
      var r1 := UnpackPair(s).value.1;
      WrotePair(r1);
      if UnpackPair(r1).Success? {
        var r2 := UnpackPair(r1).value.1;
        WrotePair(r2);
        if UnpackPair(r2).Success? {
          var r3 := UnpackPair(r2).value.1;
          WrotePair(r3);
        }
      }
    }
  }

  function UnpackKey(s: Bytes): Result<(Pubkey, Bytes)> {
    if |s| >= 32 then Success((s[..32], s[32..])) else Failure(IndexOutOfBounds)
  }

  lemma ReadKey(k: Pubkey, rest: Bytes)
    ensures UnpackKey(k + rest) == Success((k, rest))
  {
    assert (k + rest)[..32] == k;
  }

  // ---- Packing ----

  const AMM_PARAMS: u8 := 18
  const FEES_PARAM: u8 := 9
  const OWNER_PARAM: u8 := 10
  const LAST_ORDER_PARAM: u8 := 12

  function Selected<T>(o: Option<T>): Result<T> {
    if o.Some? then Success(o.value) else Failure(InvalidInstructionData)
  }

  function PackParams(i: Instruction): Result<Bytes>
    requires i.SetParams?
  {
    if i.param >= AMM_PARAMS then Failure(Unreachable)
    else if i.param == OWNER_PARAM then Selected(i.newPubkey)
    else if i.param == FEES_PARAM then
      var fees :- Selected(i.fees);
      Success(BytesFees(fees))
    else if i.param == LAST_ORDER_PARAM then
      var distance :- Selected(i.lastOrderDistance);
      Success(BytesPair(distance))
    else
      var value :- Selected(i.value);
      Success(Bytes64(value))
  }

  function PackSimulate(i: Instruction): Result<Bytes>
    requires i.SimulateInfo?
  {
    match i.param
    case 0 => Success([])
    case 1 =>
      var swap :- Selected(i.swapBaseIn);
      Success(BytesPair(swap))
    case 2 =>
      var swap :- Selected(i.swapBaseOut);
      Success(BytesPair(swap))
    case 3 => Success([])
    case _ => Failure(Unreachable)
  }

  function PackConfig(i: Instruction): Result<Bytes>
    requires i.UpdateConfigAccount?
  {
    if i.param <= 1 then
      var owner :- Selected(i.owner);
      :- Need(!DefaultKey(owner), InvalidInstructionData);
      Success(owner)
    else if i.param == 2 then
      var fee :- Selected(i.createPoolFee);
      Success(Bytes64(fee))
    else Failure(InvalidInstructionData)
  }

  function Tag(i: Instruction): u8 {
    match i
    case Initialize(_, _) => 0
    case Initialize2(_, _, _, _) => 1
    case MonitorStep(_, _, _) => 2
    case Deposit(_, _, _, _) => 3
    case Withdraw(_, _, _) => 4
    case MigrateToOpenBook => 5
    case SetParams(_, _, _, _, _) => 6
    case WithdrawPnl => 7
    case WithdrawSrm(_) => 8
    case SwapBaseIn(_, _) => 9
    case PreInitialize(_) => 10
    case SwapBaseOut(_, _) => 11
    case SimulateInfo(_, _, _) => 12
    case AdminCancelOrders(_) => 13
    case CreateConfigAccount => 14
    case UpdateConfigAccount(_, _, _) => 15
  }

  /** Everything after the tag. */
  function Body(i: Instruction): Result<Bytes> {
    match i
    case Initialize(nonce, openTime) => Success([nonce] + Bytes64(openTime))
    case Initialize2(nonce, openTime, pc, coin) =>
      Success([nonce] + (Bytes64(openTime) + BytesPair(Pair(pc, coin))))
    case MonitorStep(plan, place, cancel) =>
      Success(Bytes16(plan) + (Bytes16(place) + Bytes16(cancel)))
    case Deposit(maxCoin, maxPc, baseSide, otherMin) =>
      var other := if otherMin.Some? then Bytes64(otherMin.value) else [];
      Success(BytesPair(Pair(maxCoin, maxPc)) + (Bytes64(baseSide) + other))
    case Withdraw(amount, minCoin, minPc) =>
      var least := if minCoin.Some? && minPc.Some? then BytesPair(Pair(minCoin.value, minPc.value)) else [];
      Success(Bytes64(amount) + least)
    case SetParams(param, _, _, _, _) =>
      var rest :- PackParams(i);
      Success([param] + rest)
    case WithdrawSrm(amount) => Success(Bytes64(amount))
    case SwapBaseIn(amountIn, minimum) => Success(BytesPair(Pair(amountIn, minimum)))
    case PreInitialize(nonce) => Success([nonce])
    case SwapBaseOut(maxIn, amountOut) => Success(BytesPair(Pair(maxIn, amountOut)))
    case SimulateInfo(param, _, _) =>
      var rest :- PackSimulate(i);
      Success([param] + rest)
    case AdminCancelOrders(limit) => Success(Bytes16(limit))
    case UpdateConfigAccount(param, _, _) =>
      var rest :- PackConfig(i);
      Success([param] + rest)
    case MigrateToOpenBook => Success([])
    case WithdrawPnl => Success([])
    case CreateConfigAccount => Success([])
  }

  function Pack(i: Instruction): Result<Bytes> {
    var body :- Body(i);
    Success([Tag(i)] + body)
  }

  // ---- Unpacking ----

  function UnpackParams(param: u8, s: Bytes): Result<Instruction> {
    if param >= AMM_PARAMS then Failure(Unreachable)
    else if param == OWNER_PARAM then
      :- Need(|s| >= 32, InvalidInstructionData);
      var (key, _) :- UnpackKey(s);
      Success(SetParams(param, None, Some(key), None, None))
    else if param == FEES_PARAM then
      :- Need(|s| >= 64, InvalidInstructionData);
      var (fees, _) :- UnpackFees(s);
      Success(SetParams(param, None, None, Some(fees), None))
    else if param == LAST_ORDER_PARAM then
      :- Need(|s| >= 16, InvalidInstructionData);
      var (distance, _) :- UnpackPair(s);
      Success(SetParams(param, None, None, None, Some(distance)))
    else
      :- Need(|s| >= 8, InvalidInstructionData);
      var (value, _) :- Unpack64(s);
      Success(SetParams(param, Some(value), None, None, None))
  }

  function UnpackSimulate(param: u8, s: Bytes): Result<Instruction> {
    match param
    case 0 => Success(SimulateInfo(param, None, None))
    case 1 =>
      var (swap, _) :- UnpackPair(s);
      Success(SimulateInfo(param, Some(swap), None))
    case 2 =>
      var (swap, _) :- UnpackPair(s);
      Success(SimulateInfo(param, None, Some(swap)))
    case 3 => Success(SimulateInfo(param, None, None))
    case _ => Failure(Unreachable)
  }

  function UnpackConfig(param: u8, s: Bytes): Result<Instruction> {
    if param <= 1 then
      var (key, _) :- UnpackKey(s);
      Success(UpdateConfigAccount(param, Some(key), None))
    else if param == 2 then
      var (fee, _) :- Unpack64(s);
      Success(UpdateConfigAccount(param, None, Some(fee)))
    else Failure(InvalidInstructionData)
  }

  function UnpackDeposit(s: Bytes): Result<Instruction> {
    var (most, rest) :- UnpackPair(s);
    var (baseSide, rest2) :- Unpack64(rest);
    if |rest2| >= 8 then
      var (other, _) :- Unpack64(rest2);
      Success(Deposit(most.first, most.second, baseSide, Some(other)))
    else Success(Deposit(most.first, most.second, baseSide, None))
  }

  function UnpackWithdraw(s: Bytes): Result<Instruction> {
    var (amount, rest) :- Unpack64(s);
    if |rest| >= 16 then
      var (least, _) :- UnpackPair(rest);
      Success(Withdraw(amount, Some(least.first), Some(least.second)))
    else Success(Withdraw(amount, None, None))
  }

  function UnpackInitialize2(s: Bytes): Result<Instruction> {
    var (nonce, rest) :- Unpack8(s);
    var (openTime, rest2) :- Unpack64(rest);
    var (init, _) :- UnpackPair(rest2);
    Success(Initialize2(nonce, openTime, init.first, init.second))
  }

  function UnpackMonitorStep(s: Bytes): Result<Instruction> {
    var (plan, rest) :- Unpack16(s);
    var (place, rest2) :- Unpack16(rest);
    var (cancel, _) :- Unpack16(rest2);
    Success(MonitorStep(plan, place, cancel))
  }

  function UnpackBody(tag: u8, s: Bytes): Result<Instruction> {
    match tag
    case 0 =>
      var (nonce, rest) :- Unpack8(s);
      var (openTime, _) :- Unpack64(rest);
      Success(Initialize(nonce, openTime))
    case 1 => UnpackInitialize2(s)
    case 2 => UnpackMonitorStep(s)
    case 3 => UnpackDeposit(s)
    case 4 => UnpackWithdraw(s)
    case 5 => Success(MigrateToOpenBook)
    case 6 =>
      var (param, rest) :- Unpack8(s);
      UnpackParams(param, rest)
    case 7 => Success(WithdrawPnl)
    case 8 =>
      var (amount, _) :- Unpack64(s);
      Success(WithdrawSrm(amount))
    case 9 =>
      var (swap, _) :- UnpackPair(s);
      Success(SwapBaseIn(swap.first, swap.second))
    case 10 =>
      var (nonce, _) :- Unpack8(s);
      Success(PreInitialize(nonce))
    case 11 =>
      var (swap, _) :- UnpackPair(s);
      Success(SwapBaseOut(swap.first, swap.second))
    case 12 =>
      var (param, rest) :- Unpack8(s);
      UnpackSimulate(param, rest)
    case 13 =>
      var (limit, _) :- Unpack16(s);
      Success(AdminCancelOrders(limit))
    case 14 => Success(CreateConfigAccount)
    case 15 =>
      var (param, rest) :- Unpack8(s);
      UnpackConfig(param, rest)
    case _ => Failure(InvalidInstructionData)
  }

  function Unpack(s: Bytes): Result<Instruction> {
    var (tag, rest) :- Unpack8(s);
    UnpackBody(tag, rest)
  }

  // ---- Round trips ----

  /** What packing keeps of an instruction: only the field its parameter selects, and a
      withdrawal's minimums only together. */
  function Kept(i: Instruction): Instruction {
    match i
    case Withdraw(amount, minCoin, minPc) =>
      if minCoin.Some? && minPc.Some? then i else Withdraw(amount, None, None)
    case SetParams(param, value, key, fees, last) =>
      if param == OWNER_PARAM then SetParams(param, None, key, None, None)
      else if param == FEES_PARAM then SetParams(param, None, None, fees, None)
      else if param == LAST_ORDER_PARAM then SetParams(param, None, None, None, last)
      else SetParams(param, value, None, None, None)
    case SimulateInfo(param, baseIn, baseOut) =>
      SimulateInfo(param, if param == 1 then baseIn else None, if param == 2 then baseOut else None)
    case UpdateConfigAccount(param, owner, fee) =>
      if param <= 1 then UpdateConfigAccount(param, owner, None) else UpdateConfigAccount(param, None, fee)
    case _ => i
  }

  /** Whatever packs, unpacks to what packing keeps of it. */
  lemma PackThenUnpack(i: Instruction)
    requires Pack(i).Success?
    ensures Unpack(Pack(i).value) == Success(Kept(i))
  {
    BodyThenUnpack(i);
    var body := Body(i).value;
    assert Pack(i).value[1..] == body;
    hide Body, UnpackBody, Kept;
  }

  lemma BodyThenUnpack(i: Instruction)
    requires Body(i).Success?
    ensures UnpackBody(Tag(i), Body(i).value) == Success(Kept(i))
  {
    hide BytesPair, Bytes64, Bytes16, Unpack64, Unpack16, UnpackPair, UnpackFees, UnpackKey, BytesFees;
    match i {
      case Initialize(nonce, openTime) =>
        Read64(openTime, []);
        assert Bytes64(openTime) + [] == Bytes64(openTime);
      case WithdrawSrm(amount) =>
        Read64(amount, []);
        assert Bytes64(amount) + [] == Bytes64(amount);
      case SwapBaseIn(a, b) => ReadLastPair(Pair(a, b));
      case SwapBaseOut(a, b) => ReadLastPair(Pair(a, b));
      case AdminCancelOrders(limit) =>
        Read16(limit, []);
        assert Bytes16(limit) + [] == Bytes16(limit);
      case Initialize2(_, _, _, _) => Initialize2Reads(i);
      case MonitorStep(_, _, _) => MonitorStepReads(i);
      case Deposit(_, _, _, _) => DepositReads(i);
      case Withdraw(_, _, _) => WithdrawReads(i);
      case SetParams(_, _, _, _, _) => ParamsRead(i);
      case SimulateInfo(_, _, _) => SimulateReads(i);
      case UpdateConfigAccount(_, _, _) => ConfigReads(i);
      case PreInitialize(_) =>
      case MigrateToOpenBook =>
      case WithdrawPnl =>
      case CreateConfigAccount =>
    }
  }

  lemma ReadLastPair(p: Pair)
    ensures UnpackPair(BytesPair(p)) == Success((p, []))
  {
    ReadPair(p, []);
    assert BytesPair(p) + [] == BytesPair(p);
  }

  lemma ReadLast64(v: u64)
    ensures Unpack64(Bytes64(v)) == Success((v, []))
  {
    Read64(v, []);
    assert Bytes64(v) + [] == Bytes64(v);
  }

  lemma Initialize2Reads(i: Instruction)
    requires i.Initialize2?
    ensures UnpackInitialize2(Body(i).value) == Success(i)
  {
    hide BytesPair, Bytes64, Unpack64, UnpackPair;
    var init := Pair(i.initPcAmount, i.initCoinAmount);
    Read64(i.openTime, BytesPair(init));
    ReadLastPair(init);
    assert Body(i).value[1..] == Bytes64(i.openTime) + BytesPair(init);
  }

  lemma MonitorStepReads(i: Instruction)
    requires i.MonitorStep?
    ensures UnpackMonitorStep(Body(i).value) == Success(i)
  {
    hide Bytes16, Unpack16;
    Read16(i.planOrderLimit, Bytes16(i.placeOrderLimit) + Bytes16(i.cancelOrderLimit));
    Read16(i.placeOrderLimit, Bytes16(i.cancelOrderLimit));
    Read16(i.cancelOrderLimit, []);
    assert Bytes16(i.cancelOrderLimit) + [] == Bytes16(i.cancelOrderLimit);
  }

  lemma DepositReads(i: Instruction)
    requires i.Deposit?
    ensures UnpackDeposit(Body(i).value) == Success(i)
  {
    var other := if i.otherAmountMin.Some? then Bytes64(i.otherAmountMin.value) else [];
    assert |other| >= 8 <==> i.otherAmountMin.Some?;
    hide BytesPair, Bytes64, Unpack64, UnpackPair;
    ReadPair(Pair(i.maxCoinAmount, i.maxPcAmount), Bytes64(i.baseSide) + other);
    Read64(i.baseSide, other);
    if i.otherAmountMin.Some? {
      ReadLast64(i.otherAmountMin.value);
    }
  }

  lemma WithdrawReads(i: Instruction)
    requires i.Withdraw?
    ensures UnpackWithdraw(Body(i).value) == Success(Kept(i))
  {
    var both := i.minCoinAmount.Some? && i.minPcAmount.Some?;
    var least := if both then BytesPair(Pair(i.minCoinAmount.value, i.minPcAmount.value)) else [];
    assert |least| >= 16 <==> both;
    hide BytesPair, Bytes64, Unpack64, UnpackPair;
    Read64(i.amount, least);
    if both {
      ReadLastPair(Pair(i.minCoinAmount.value, i.minPcAmount.value));
    }
  }

  lemma ParamsRead(i: Instruction)
    requires i.SetParams? && PackParams(i).Success?
    ensures UnpackParams(i.param, PackParams(i).value) == Success(Kept(i))
  {
    if i.param == OWNER_PARAM {
      ReadKey(i.newPubkey.value, []);
      assert i.newPubkey.value + [] == i.newPubkey.value;
    } else if i.param == FEES_PARAM {
      ReadFees(i.fees.value, []);
      assert BytesFees(i.fees.value) + [] == BytesFees(i.fees.value);
    } else if i.param == LAST_ORDER_PARAM {
      ReadLastPair(i.lastOrderDistance.value);
    } else {
      ReadLast64(i.value.value);
    }
    hide Unpack64, UnpackPair, UnpackFees, ToLe, UnpackKey;
  }

  lemma SimulateReads(i: Instruction)
    requires i.SimulateInfo? && PackSimulate(i).Success?
    ensures UnpackSimulate(i.param, PackSimulate(i).value) == Success(Kept(i))
  {
    hide BytesPair, UnpackPair;
    if i.param == 1 {
      ReadLastPair(i.swapBaseIn.value);
    } else if i.param == 2 {
      ReadLastPair(i.swapBaseOut.value);
    }
  }

  lemma ConfigReads(i: Instruction)
    requires i.UpdateConfigAccount? && PackConfig(i).Success?
    ensures UnpackConfig(i.param, PackConfig(i).value) == Success(Kept(i))
  {
    hide Bytes64, Unpack64;
    if i.param <= 1 {
      assert i.owner.value[..32] == i.owner.value;
    } else {
      ReadLast64(i.createPoolFee.value);
    }
  }

  /** Exactly the fields the parameter selects are present, and a withdrawal's minimums
      are both present or both absent. */
  predicate Canonical(i: Instruction) {
    match i
    case Withdraw(_, minCoin, minPc) => minCoin.Some? <==> minPc.Some?
    case SetParams(param, value, key, fees, last) =>
      && (key.Some? ==> param == OWNER_PARAM)
      && (fees.Some? ==> param == FEES_PARAM)
      && (last.Some? ==> param == LAST_ORDER_PARAM)
      && (value.Some? ==> param !in {OWNER_PARAM, FEES_PARAM, LAST_ORDER_PARAM})
    case SimulateInfo(param, baseIn, baseOut) =>
      (baseIn.Some? ==> param == 1) && (baseOut.Some? ==> param == 2)
    case UpdateConfigAccount(param, owner, fee) =>
      (owner.Some? ==> param <= 1) && (fee.Some? ==> param > 1)
    case _ => true
  }

  /** An instruction that packs survives the round trip exactly when it is canonical. */
  lemma RoundTripIffCanonical(i: Instruction)
    requires Pack(i).Success?
    ensures Unpack(Pack(i).value) == Success(i) <==> Canonical(i)
  {
    PackThenUnpack(i);
    assert Kept(i) == i <==> Canonical(i);
    hide Pack, Unpack;
  }

  /** The parameter is known and the field it selects is present; a config owner is not
      the default key. */
  predicate Packable(i: Instruction) {
    match i
    case SetParams(param, value, key, fees, last) =>
      && param < AMM_PARAMS
      && (if param == OWNER_PARAM then key.Some?
          else if param == FEES_PARAM then fees.Some?
          else if param == LAST_ORDER_PARAM then last.Some?
          else value.Some?)
    case SimulateInfo(param, baseIn, baseOut) =>
      param < 4 && (param == 1 ==> baseIn.Some?) && (param == 2 ==> baseOut.Some?)
    case UpdateConfigAccount(param, owner, fee) =>
      param < 3 && (if param <= 1 then owner.Some? && !DefaultKey(owner.value) else fee.Some?)
    case _ => true
  }

  lemma PacksIff(i: Instruction)
    ensures Pack(i).Success? <==> Packable(i)
  {
    hide Bytes64, BytesPair, BytesFees, Bytes16, DefaultKey;
    match i
    case SetParams(_, _, _, _, _) => assert PackParams(i).Success? <==> Packable(i);
    case SimulateInfo(_, _, _) => assert PackSimulate(i).Success? <==> Packable(i);
    case UpdateConfigAccount(_, _, _) => assert PackConfig(i).Success? <==> Packable(i);
    case _ =>
  }

  /** What unpacks is canonical, packs again unless it names the default key as a config
      owner, and then packs to a prefix of the bytes it came from. */
  lemma UnpackThenPack(s: Bytes)
    requires Unpack(s).Success?
    ensures var i := Unpack(s).value;
      && Canonical(i)
      && (Pack(i).Success? <==> !(i.UpdateConfigAccount? && i.owner.Some? && DefaultKey(i.owner.value)))
      && (Pack(i).Success? ==> Pack(i).value <= s)
  {
    BodyThenPack(s[0], s[1..]);
    var i := Unpack(s).value;
    PacksIff(i);
    if Pack(i).Success? {
      assert s == [s[0]] + s[1..];
    }
    hide UnpackBody, Body;
  }

  ghost predicate CameFrom(i: Instruction, tag: u8, s: Bytes) {
    && Tag(i) == tag
    && Canonical(i)
    && (Packable(i) <==> !(i.UpdateConfigAccount? && i.owner.Some? && DefaultKey(i.owner.value)))
    && (Body(i).Success? ==> Body(i).value <= s)
  }

  lemma BodyThenPack(tag: u8, s: Bytes)
    requires UnpackBody(tag, s).Success?
    ensures CameFrom(UnpackBody(tag, s).value, tag, s)
  {
    hide BytesPair, Bytes64, Bytes16, Unpack64, Unpack16, UnpackPair, UnpackFees, UnpackKey, BytesFees, DefaultKey;
    if tag in {3, 4} {
      AmountsWrote(tag, s);
    } else if tag in {6, 12, 15} {
      ParametersWrote(tag, s);
    } else {
      FixedWrote(tag, s);
    }
  }

  lemma FixedWrote(tag: u8, s: Bytes)
    requires tag !in {3, 4, 6, 12, 15} && UnpackBody(tag, s).Success?
    ensures CameFrom(UnpackBody(tag, s).value, tag, s)
  {
    hide BytesPair, Bytes64, Bytes16, Unpack64, Unpack16, UnpackPair;
    if tag in {0, 1} {
      assert s == [s[0]] + s[1..];
      Wrote64(s[1..]);
      var rest := Unpack64(s[1..]).value.1;
      if tag == 1 {
        WrotePair(rest);
      }
    } else if tag in {2, 13} {
      Wrote16(s);
      if tag == 2 {
        var rest := Unpack16(s).value.1;
        Wrote16(rest);
        Wrote16(Unpack16(rest).value.1);
      }
    } else if tag == 8 {
      Wrote64(s);
    } else if tag in {9, 11} {
      WrotePair(s);
    } else if tag == 10 {
      assert s == [s[0]] + s[1..];
    }
  }

  lemma AmountsWrote(tag: u8, s: Bytes)
    requires tag in {3, 4} && UnpackBody(tag, s).Success?
    ensures CameFrom(UnpackBody(tag, s).value, tag, s)
  {
    hide BytesPair, Bytes64, Unpack64, UnpackPair;
    if tag == 3 {
      WrotePair(s);
      var rest := UnpackPair(s).value.1;
      Wrote64(rest);
      Wrote64(Unpack64(rest).value.1);
    } else {
      Wrote64(s);
      WrotePair(Unpack64(s).value.1);
    }
  }

  lemma ParametersWrote(tag: u8, s: Bytes)
    requires tag in {6, 12, 15} && UnpackBody(tag, s).Success?
    ensures CameFrom(UnpackBody(tag, s).value, tag, s)
  {
    hide BytesPair, Bytes64, Unpack64, UnpackPair, UnpackFees, BytesFees, DefaultKey;
    var rest := s[1..];
    assert s == [s[0]] + rest;
    Wrote64(rest);
    WrotePair(rest);
    WroteFees(rest);
    if |rest| >= 32 {
      assert rest == rest[..32] + rest[32..];
    }
  }

  // ---- Packing into a buffer ----

  /** Packing as the program does it: fields are appended to one growing buffer. */
  method PackBuffer(i: Instruction) returns (r: Result<Bytes>)
    ensures r == Pack(i)
  {
    hide Bytes64, Bytes16, BytesPair, BytesFees, PackParams, PackSimulate, PackConfig;
    var buf: Bytes := [];
    match i {
      case Initialize(nonce, openTime) =>
        buf := buf + [0];
        buf := buf + [nonce];
        buf := buf + Bytes64(openTime);
      case Initialize2(nonce, openTime, pc, coin) =>
        buf := buf + [1];
        buf := buf + [nonce];
        buf := buf + Bytes64(openTime);
        buf := AppendPair(buf, Pair(pc, coin));
      case MonitorStep(plan, place, cancel) =>
        buf := buf + [2];
        buf := buf + Bytes16(plan);
        buf := buf + Bytes16(place);
        buf := buf + Bytes16(cancel);
      case Deposit(maxCoin, maxPc, baseSide, other) =>
        buf := buf + [3];
        buf := AppendPair(buf, Pair(maxCoin, maxPc));
        buf := buf + Bytes64(baseSide);
        if other.Some? {
          buf := buf + Bytes64(other.value);
        }
      case Withdraw(amount, minCoin, minPc) =>
        buf := buf + [4];
        buf := buf + Bytes64(amount);
        if minCoin.Some? && minPc.Some? {
          buf := AppendPair(buf, Pair(minCoin.value, minPc.value));
        }
      case MigrateToOpenBook => buf := buf + [5];
      case SetParams(param, _, _, _, _) =>
        buf := buf + [6];
        buf := buf + [param];
        buf :- AppendParams(buf, i);
      case WithdrawPnl => buf := buf + [7];
      case WithdrawSrm(amount) =>
        buf := buf + [8];
        buf := buf + Bytes64(amount);
      case SwapBaseIn(amountIn, minimum) =>
        buf := buf + [9];
        buf := AppendPair(buf, Pair(amountIn, minimum));
      case PreInitialize(nonce) =>
        buf := buf + [10];
        buf := buf + [nonce];
      case SwapBaseOut(maxIn, amountOut) =>
        buf := buf + [11];
        buf := AppendPair(buf, Pair(maxIn, amountOut));
      case SimulateInfo(param, _, _) =>
        buf := buf + [12];
        buf := buf + [param];
        buf :- AppendSimulate(buf, i);
      case AdminCancelOrders(limit) =>
        buf := buf + [13];
        buf := buf + Bytes16(limit);
      case CreateConfigAccount => buf := buf + [14];
      case UpdateConfigAccount(param, _, _) =>
        buf := buf + [15];
        buf := buf + [param];
        buf :- AppendConfig(buf, i);
    }
    assert Pack(i).Success? && buf == Pack(i).value;
    return Success(buf);
  }

  method AppendPair(buf: Bytes, p: Pair) returns (r: Bytes)
    ensures r == buf + BytesPair(p)
  {
    r := buf + Bytes64(p.first);
    r := r + Bytes64(p.second);
  }

  method AppendFees(buf: Bytes, f: Fees) returns (r: Bytes)
    ensures r == buf + BytesFees(f)
  {
    hide BytesPair;
    r := AppendPair(buf, Pair(f.minSeparateNumerator, f.minSeparateDenominator));
    r := AppendPair(r, Pair(f.tradeFeeNumerator, f.tradeFeeDenominator));
    r := AppendPair(r, Pair(f.pnlNumerator, f.pnlDenominator));
    r := AppendPair(r, Pair(f.swapFeeNumerator, f.swapFeeDenominator));
  }

  method AppendParams(buf: Bytes, i: Instruction) returns (r: Result<Bytes>)
    requires i.SetParams?
    ensures var spec := PackParams(i);
      r == if spec.Success? then Success(buf + spec.value) else Failure(spec.error)
  {
    hide BytesPair, BytesFees, Bytes64;
    var out := buf;
    if i.param >= AMM_PARAMS {
      return Failure(Unreachable);
    } else if i.param == OWNER_PARAM {
      var key :- Selected(i.newPubkey);
      out := out + key;
    } else if i.param == FEES_PARAM {
      var fees :- Selected(i.fees);
      out := AppendFees(out, fees);
    } else if i.param == LAST_ORDER_PARAM {
      var distance :- Selected(i.lastOrderDistance);
      out := AppendPair(out, distance);
    } else {
      var value :- Selected(i.value);
      out := out + Bytes64(value);
    }
    return Success(out);
  }

  method AppendSimulate(buf: Bytes, i: Instruction) returns (r: Result<Bytes>)
    requires i.SimulateInfo?
    ensures var spec := PackSimulate(i);
      r == if spec.Success? then Success(buf + spec.value) else Failure(spec.error)
  {
    hide BytesPair;
    var out := buf;
    if i.param == 1 {
      var swap :- Selected(i.swapBaseIn);
      out := AppendPair(out, swap);
    } else if i.param == 2 {
      var swap :- Selected(i.swapBaseOut);
      out := AppendPair(out, swap);
    } else if i.param > 3 {
      return Failure(Unreachable);
    } else {
      assert buf + [] == buf;
    }
    return Success(out);
  }

  method AppendConfig(buf: Bytes, i: Instruction) returns (r: Result<Bytes>)
    requires i.UpdateConfigAccount?
    ensures var spec := PackConfig(i);
      r == if spec.Success? then Success(buf + spec.value) else Failure(spec.error)
  {
    hide Bytes64, DefaultKey;
    var out := buf;
    if i.param <= 1 {
      var owner :- Selected(i.owner);
      if DefaultKey(owner) {
        return Failure(InvalidInstructionData);
      }
      out := out + owner;
    } else if i.param == 2 {
      var fee :- Selected(i.createPoolFee);
      out := out + Bytes64(fee);
    } else {
      return Failure(InvalidInstructionData);
    }
    return Success(out);
  }
}
