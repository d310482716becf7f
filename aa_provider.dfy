/**
 * The computations inside the account-abstraction provider: the EIP-20
 * `transfer(address,uint256)` and `balanceOf(address)` calldata it builds by
 * hand (a 4-byte function selector followed by 32-byte words, as in the
 * Solidity Contract ABI Specification), the reading of a `balanceOf` reply,
 * the gas-cost and paymaster-fee arithmetic on bigints, and the "deployed"
 * test on an account's bytecode. What the SDK returns (gas estimate, gas
 * price, call reply, bytecode) is a parameter; a call that throws is `Err`.
 */
module AaProvider {
  import opened Wrappers
  import opened JsString
  import opened Radix

  /** First four bytes of keccak256("transfer(address,uint256)"), as written in the source. */
  const TRANSFER_SELECTOR: string := "0xa9059cbb"
  /** First four bytes of keccak256("balanceOf(address)"), as written in the source. */
  const BALANCE_OF_SELECTOR: string := "0x70a08231"

  /** A 32-byte word is 64 hex characters. */
  const WORD_CHARS: nat := 64
  /** 2^256 (lemma Radix.PowTwoSixteen): the first amount that no longer fits a uint256 word. */
  const UINT256_LIMIT: nat := Pow(16, 64)

  const WEI_PER_ETH: nat := 1_000_000_000_000_000_000
  /** The fee rate: 1000 fee units (1 USDT per 0.001 ETH) per ether of gas cost. */
  const FEE_UNITS_PER_ETH: nat := 1000
  /** Wei per fee unit: 10^18 / 1000. */
  const WEI_PER_FEE_UNIT: nat := 1_000_000_000_000_000

  const TRANSFER_ERROR: string := "Failed to execute USDT transfer"
  const GAS_COST_ERROR: string := "Failed to estimate gas cost"
  const PAYMASTER_FEE_ERROR: string := "Failed to estimate paymaster fee"
  const BALANCE_ERROR: string := "Failed to get USDT balance"

  /** An address as the source expects one: two prefix characters, then 40 hex digits. */
  predicate IsAddress(a: string)
  {
    |a| == 42 && AllDigitsIn(a[2..], 16)
  }

  /** `hex.padStart(64, '0')`: one ABI word, left-padded with zeros, never cut. */
  function Word(hex: string): (w: string)
    ensures |w| == if |hex| < WORD_CHARS then WORD_CHARS else |hex|
    ensures w == Repeat('0', |w| - |hex|) + hex
  {
    PadStart(hex, WORD_CHARS, '0')
  }

  /**
   * The calldata `executeUSDTTransfer` sends: the transfer selector, the
   * recipient word built from `to.slice(2)` and the amount word built from
   * `amount.toString(16)`.
   */
  function TransferCalldata(to: string, amount: int): (data: string)
    ensures |data| >= 10 + 2 * WORD_CHARS && data[..10] == TRANSFER_SELECTOR
  {
    TRANSFER_SELECTOR + Word(SliceFrom(to, 2)) + Word(ToStringRadix(amount, 16))
  }

  /** The calldata `getUSDTBalance` sends: the balanceOf selector and the account word. */
  function BalanceOfCalldata(account: string): (data: string)
    ensures |data| >= 10 + WORD_CHARS && data[..10] == BALANCE_OF_SELECTOR
  {
    BALANCE_OF_SELECTOR + Word(SliceFrom(account, 2))
  }

  /** The arguments of a `transfer` call. */
  datatype Transfer = Transfer(recipient: string, amount: nat)

  /** A word holding an address: twelve zero bytes, then twenty bytes of hex. */
  predicate IsAddressWord(w: string)
  {
    |w| == WORD_CHARS && (forall i :: 0 <= i < 24 ==> w[i] == '0') && AllDigitsIn(w[24..], 16)
  }

  /**
   * ABI decoding of `transfer(address,uint256)` calldata: the selector, an
   * address word and a uint256 word, and nothing else.
   */
  function DecodeTransfer(data: string): (r: Option<Transfer>)
    ensures r.Some? ==> |data| == 10 + 2 * WORD_CHARS && data[..10] == TRANSFER_SELECTOR
    ensures r.Some? ==> |r.value.recipient| == 42 && r.value.amount < UINT256_LIMIT
  {
    if |data| == 10 + 2 * WORD_CHARS && data[..10] == TRANSFER_SELECTOR
       && IsAddressWord(data[10..74]) && AllDigitsIn(data[74..], 16)
    then
      var amountWord := data[74..];
      ValueBelowPow(amountWord, 16);
      Some(Transfer("0x" + data[34..74], Value(amountWord, 16)))
    else None
  }

  /** ABI decoding of `balanceOf(address)` calldata: the selector and one address word. */
  function DecodeBalanceOf(data: string): (r: Option<string>)
    ensures r.Some? ==> |data| == 10 + WORD_CHARS && data[..10] == BALANCE_OF_SELECTOR && |r.value| == 42
  {
    if |data| == 10 + WORD_CHARS && data[..10] == BALANCE_OF_SELECTOR && IsAddressWord(data[10..])
    then Some("0x" + data[34..])
    else None
  }

  /** A string of `k` digits is worth less than `base^k`. */
  lemma {:induction false} ValueBelowPow(s: string, base: nat)
    requires 2 <= base <= 16 && AllDigitsIn(s, base)
    ensures Value(s, base) < Pow(base, |s|)
    decreases |s|
  {
    if s != [] {
      var p := s[..|s| - 1];
      ValueBelowPow(p, base);
      var x, d, m := Value(p, base), DigitValue(s[|s| - 1]), Pow(base, |p|);
      assert Value(s, base) == x * base + d;
      PowStep(base, |s|);
      assert Pow(base, |s|) == m * base;
      NextMultiple(x, m, d, base);
    }
  }

  /** Below `m`, a number times `b` plus a digit stays below `m * b`. */
  lemma NextMultiple(x: nat, m: nat, d: nat, b: nat)
    requires x < m && d < b
    ensures x * b + d < m * b
  {
    MulMonotone(x + 1, m, b);
    assert (x + 1) * b == x * b + b;
  }

  /** The amount word of an amount that fits uint256: exactly 64 digits denoting the amount. */
  lemma AmountWord(amount: nat)
    requires amount < UINT256_LIMIT
    ensures |Word(ToDigits(amount, 16))| == WORD_CHARS
    ensures AllDigitsIn(Word(ToDigits(amount, 16)), 16)
    ensures Value(Word(ToDigits(amount, 16)), 16) == amount
  {
    var digits := ToDigits(amount, 16);
    DigitsLengthBelow(amount, 16, WORD_CHARS);
    var k := WORD_CHARS - |digits|;
    assert Word(digits) == Repeat('0', k) + digits;
    ValueOfDigits(amount, 16);
    ValueLeadingZeros(k, digits, 16);
  }

  /** The recipient word of a 42-character address: 24 zeros, then the 40 characters after the prefix. */
  lemma AddressWord(to: string)
    requires |to| == 42
    ensures Word(SliceFrom(to, 2)) == Repeat('0', 24) + to[2..]
  {
  }

  /**
   * For a 42-character address and an amount below 2^256 the transfer
   * calldata is 138 characters: the selector, then two words of exactly 64
   * characters, the recipient's 40 characters after 24 zeros and the amount
   * in hex after zeros.
   */
  lemma TransferCalldataLayout(to: string, amount: int)
    requires |to| == 42 && 0 <= amount < UINT256_LIMIT
    ensures TransferCalldata(to, amount) == TRANSFER_SELECTOR + (Repeat('0', 24) + to[2..]) + Word(ToDigits(amount, 16))
    ensures |TransferCalldata(to, amount)| == 138 && |Word(ToDigits(amount, 16))| == WORD_CHARS
  {
    DigitsLengthBelow(amount, 16, WORD_CHARS);
    AddressWord(to);
  }

  /** The pieces of a four-part concatenation sit at their offsets. */
  lemma FourParts(a: string, b: string, c: string, d: string)
    ensures var s := a + (b + c) + d;
      && s[|a|..|a| + |b| + |c|] == b + c
      && s[|a| + |b|..|a| + |b| + |c|] == c
      && s[|a| + |b| + |c|..] == d
  {
  }

  /**
   * Decoding the transfer calldata gives back the recipient's hex part and
   * the amount: the last 64 characters read in base 16 are `amount`, and the
   * 40 before them are the address after its first two characters.
   */
  lemma TransferRoundTrip(to: string, amount: int)
    requires IsAddress(to) && 0 <= amount < UINT256_LIMIT
    ensures DecodeTransfer(TransferCalldata(to, amount)) == Some(Transfer("0x" + to[2..], amount))
  {
    var data := TransferCalldata(to, amount);
    var z, h, w := Repeat('0', 24), to[2..], Word(ToDigits(amount, 16));
    TransferCalldataLayout(to, amount);
    FourParts(TRANSFER_SELECTOR, z, h, w);
    assert data[10..74] == z + h && data[34..74] == h && data[74..] == w;
    assert IsAddressWord(z + h) by {
      assert (z + h)[24..] == h;
    }
    AmountWord(amount);
  }

  /** A recipient written with the `0x` prefix decodes to itself. */
  lemma TransferRecipientIsAddress(to: string, amount: int)
    requires IsAddress(to) && to[..2] == "0x" && 0 <= amount < UINT256_LIMIT
    ensures DecodeTransfer(TransferCalldata(to, amount)) == Some(Transfer(to, amount))
  {
    TransferRoundTrip(to, amount);
    assert to == to[..2] + to[2..];
  }

  /**
   * `to.slice(2)` drops the first two characters whatever they are: two
   * addresses that differ only there give the same calldata.
   */
  lemma TransferIgnoresPrefix(p: string, q: string, hex: string, amount: int)
    requires |p| == 2 && |q| == 2
    ensures TransferCalldata(p + hex, amount) == TransferCalldata(q + hex, amount)
  {
    assert (p + hex)[2..] == hex == (q + hex)[2..];
  }

  /**
   * `padStart` never cuts: from 2^256 on the amount field is longer than 64
   * characters, the calldata longer than 138, and it is no longer a valid
   * `transfer` encoding.
   */
  lemma TransferAmountNotTruncated(to: string, amount: int)
    requires |to| == 42 && amount >= UINT256_LIMIT
    ensures |Word(ToStringRadix(amount, 16))| > WORD_CHARS
    ensures |TransferCalldata(to, amount)| > 138
    ensures DecodeTransfer(TransferCalldata(to, amount)) == None
  {
    DigitsLengthAtLeast(amount, 16, WORD_CHARS);
  }

  /**
   * A negative bigint prints with a minus sign, which `padStart` keeps after
   * the zeros: the calldata is then no valid `transfer` encoding.
   */
  lemma TransferNegativeAmount(to: string, amount: int)
    requires IsAddress(to) && amount < 0
    ensures '-' in TransferCalldata(to, amount)
    ensures DecodeTransfer(TransferCalldata(to, amount)) == None
  {
    var data := TransferCalldata(to, amount);
    var digits := "-" + ToDigits(-amount, 16);
    var w := Word(digits);
    assert w[|w| - |digits|] == '-';
    assert data[10 + |Word(SliceFrom(to, 2))| + |w| - |digits|] == '-';
    if |data| == 138 {
      assert data[74..] == w;
      assert !IsDigitIn(data[74..][|w| - |digits|], 16);
    }
  }

  /**
   * For a 42-character account the balanceOf calldata is 74 characters: the
   * selector, 24 zeros and the account's 40 characters after the prefix; it
   * decodes back to the account.
   */
  lemma BalanceOfLayout(account: string)
    requires IsAddress(account)
    ensures BalanceOfCalldata(account) == BALANCE_OF_SELECTOR + Repeat('0', 24) + account[2..]
    ensures |BalanceOfCalldata(account)| == 74
    ensures DecodeBalanceOf(BalanceOfCalldata(account)) == Some("0x" + account[2..])
  {
    var data := BalanceOfCalldata(account);
    AddressWord(account);
    assert data[10..] == Repeat('0', 24) + account[2..];
    assert data[10..][24..] == account[2..];
  }

  /** The target, data and ether value of a contract call. */
  datatype CallRequest = CallRequest(target: string, data: string, value: nat)

  /** What `executeUSDTTransfer` hands to `sendTransaction`: the token contract, the calldata, no ether. */
  function TransferRequest(token: string, to: string, amount: int): (req: CallRequest)
    ensures req.target == token && req.value == 0
    ensures IsAddress(to) && 0 <= amount < UINT256_LIMIT ==>
      DecodeTransfer(req.data) == Some(Transfer("0x" + to[2..], amount))
  {
    var req := CallRequest(token, TransferCalldata(to, amount), 0);
    if IsAddress(to) && 0 <= amount < UINT256_LIMIT then (TransferRoundTrip(to, amount); req) else req
  }

  /** The result of `executeUSDTTransfer`: the hash `sendTransaction` returns, or its own error. */
  function ExecuteUsdtTransfer(sent: Result<string>): (r: Result<string>)
    ensures r.Ok? <==> sent.Ok?
    ensures r.Ok? ==> r.value == sent.value
    ensures r.Err? ==> r.message == TRANSFER_ERROR
  {
    match sent
    case Ok(hash) => Ok(hash)
    case Err(_) => Err(TRANSFER_ERROR)
  }

  predicate AllDecimal(s: string)
  {
    forall i :: 0 <= i < |s| ==> '0' <= s[i] <= '9'
  }

  /**
   * `BigInt(s)` for the literals it accepts: the empty string (read as 0),
   * `0x` or `0X` followed by at least one hex digit, or at least one decimal
   * digit. Any other string makes `BigInt` throw.
   */
  function ParseBigInt(s: string): (r: Option<nat>)
    ensures s == "" ==> r == Some(0)
    ensures |s| > 2 && (s[..2] == "0x" || s[..2] == "0X") && AllDigitsIn(s[2..], 16) ==>
      r == Some(Value(s[2..], 16))
    ensures s != "" && AllDecimal(s) ==> r.Some? && r.value == Value(s, 10)
    ensures s == "0x" || s == "0X" ==> r == None
  {
    if s == [] then Some(0)
    else if |s| > 2 && (s[..2] == "0x" || s[..2] == "0X") && AllDigitsIn(s[2..], 16) then
      assert s[1] == s[..2][1];
      Some(Value(s[2..], 16))
    else if AllDecimal(s) then
      assert AllDigitsIn(s, 10);
      Some(Value(s, 10))
    else None
  }

  /**
   * `getUSDTBalance` after the `balanceOf` call: no data (absent or empty)
   * reads as 0, otherwise the integer value of the returned hex; a call that
   * throws, or data `BigInt` cannot read, gives the balance error.
   */
  function UsdtBalance(reply: Result<Option<string>>): (r: Result<nat>)
    ensures reply.Err? ==> r == Err(BALANCE_ERROR)
    ensures reply.Ok? && (reply.value.None? || reply.value.value == "") ==> r == Ok(0)
    ensures reply.Ok? && reply.value.Some? && reply.value.value == "0x" ==> r == Err(BALANCE_ERROR)
    ensures (reply.Ok? && reply.value.Some? && |reply.value.value| > 2 && reply.value.value[..2] == "0x" &&
             AllDigitsIn(reply.value.value[2..], 16)) ==> r == Ok(Value(reply.value.value[2..], 16))
    ensures reply.Ok? && reply.value.Some? && reply.value.value != "" ==>
      (r.Ok? <==> ParseBigInt(reply.value.value).Some?)
  {
    match reply
    case Err(_) => Err(BALANCE_ERROR)
    case Ok(None) => Ok(0)
    case Ok(Some(data)) =>
      if data == "" then Ok(0)
      else match ParseBigInt(data)
        case Some(n) => Ok(n)
        case None => Err(BALANCE_ERROR)
  }

  /** A uint256 reply word reads back as the balance it encodes. */
  lemma BalanceReplyRoundTrip(balance: nat)
    requires balance < UINT256_LIMIT
    ensures UsdtBalance(Ok(Some("0x" + Word(ToDigits(balance, 16))))) == Ok(balance)
  {
    AmountWord(balance);
    var data := "0x" + Word(ToDigits(balance, 16));
    assert data[..2] == "0x" && data[2..] == Word(ToDigits(balance, 16));
  }

  /**
   * `estimateGasCost`: the gas estimate times the gas price, or the gas-cost
   * error when either SDK call throws.
   */
  function EstimateGasCost(gasEstimate: Result<nat>, gasPrice: Result<nat>): (r: Result<nat>)
    ensures r.Ok? <==> gasEstimate.Ok? && gasPrice.Ok?
    ensures r.Ok? ==> r.value == gasEstimate.value * gasPrice.value
    ensures r.Err? ==> r.message == GAS_COST_ERROR
  {
    if gasEstimate.Ok? && gasPrice.Ok? then Ok(gasEstimate.value * gasPrice.value)
    else Err(GAS_COST_ERROR)
  }

  /**
   * The paymaster fee for a gas cost in wei: `gasCost * 1000 / 10^18` in
   * bigint arithmetic, the largest whole number of fee units the cost covers.
   */
  function PaymasterFee(gasCost: nat): (fee: nat)
    ensures fee * WEI_PER_ETH <= gasCost * FEE_UNITS_PER_ETH < (fee + 1) * WEI_PER_ETH
  {
    (gasCost * FEE_UNITS_PER_ETH) / WEI_PER_ETH
  }

  /** `estimatePaymasterFee`: the fee for the estimated gas cost; any failure becomes the fee error. */
  function EstimatePaymasterFee(gasEstimate: Result<nat>, gasPrice: Result<nat>): (r: Result<nat>)
    ensures r.Ok? <==> gasEstimate.Ok? && gasPrice.Ok?
    ensures r.Ok? ==> r.value == PaymasterFee(gasEstimate.value * gasPrice.value)
    ensures r.Err? ==> r.message == PAYMASTER_FEE_ERROR
  {
    match EstimateGasCost(gasEstimate, gasPrice)
    case Ok(gasCost) => Ok(PaymasterFee(gasCost))
    case Err(_) => Err(PAYMASTER_FEE_ERROR)
  }

  /** The fee is the gas cost counted in whole units of 10^15 wei (0.001 ETH). */
  lemma PaymasterFeeInFeeUnits(gasCost: nat)
    ensures PaymasterFee(gasCost) == gasCost / WEI_PER_FEE_UNIT
    ensures PaymasterFee(gasCost) * WEI_PER_FEE_UNIT <= gasCost < (PaymasterFee(gasCost) + 1) * WEI_PER_FEE_UNIT
  {
    var fee := PaymasterFee(gasCost);
    assert fee * WEI_PER_FEE_UNIT * 1000 <= gasCost * 1000 < (fee + 1) * WEI_PER_FEE_UNIT * 1000;
    DivFacts(gasCost, WEI_PER_FEE_UNIT);
    var q := gasCost / WEI_PER_FEE_UNIT;
    assert (fee - q) * WEI_PER_FEE_UNIT == fee * WEI_PER_FEE_UNIT - q * WEI_PER_FEE_UNIT;
    SmallMultiple(fee - q, WEI_PER_FEE_UNIT);
  }

  /** A larger gas cost never gives a smaller fee. */
  lemma PaymasterFeeMonotone(g1: nat, g2: nat)
    requires g1 <= g2
    ensures PaymasterFee(g1) <= PaymasterFee(g2)
  {
    PaymasterFeeInFeeUnits(g1);
    PaymasterFeeInFeeUnits(g2);
    var f1, f2 := PaymasterFee(g1), PaymasterFee(g2);
    assert f1 * WEI_PER_FEE_UNIT < (f2 + 1) * WEI_PER_FEE_UNIT;
    MulCancelLt(f1, f2 + 1, WEI_PER_FEE_UNIT);
  }

  /** Gas costing less than 0.001 ETH is free. */
  lemma PaymasterFeeZeroBelowUnit(gasCost: nat)
    requires gasCost < WEI_PER_FEE_UNIT
    ensures PaymasterFee(gasCost) == 0
  {
    PaymasterFeeInFeeUnits(gasCost);
  }

  /**
   * `isSmartAccountDeployed`: true exactly when the bytecode lookup succeeds
   * with code present and different from "0x"; a lookup that throws gives false.
   */
  function IsSmartAccountDeployed(bytecode: Result<Option<string>>): (deployed: bool)
    ensures deployed <==> bytecode.Ok? && bytecode.value.Some? && bytecode.value.value != "0x"
    ensures bytecode.Err? ==> !deployed
  {
    match bytecode
    case Err(_) => false
    case Ok(code) => code.Some? && code.value != "0x"
  }
}
