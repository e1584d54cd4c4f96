/**
 * The helpers of test/testutils.ts that the user-operation tests lean on:
 * the Solidity panic-code names, the formatting of revert data by its
 * selector (`decodeRevertReason`), the key counter behind
 * `createAccountOwner`/`createAddress`, the initCode of a factory-deployed
 * account (`getAccountInitCode`) and the `ValidationResult` error filter
 * (`simulationResultCatch`).
 */
module TestUtils {
  import opened Wrappers
  import opened Bytes
  import opened Abi
  import opened Text
  import opened UserOp

  // ---------------------------------------------------------------------------
  // panicCodes

  /** The names of the Solidity panic codes (Solidity 0.8.0, "Panic via assert and Error via require"), spelling included. */
  const PANIC_CODES: map<nat, string> := map[
    0x01 := "assert(false)",
    0x11 := "arithmetic overflow/underflow",
    0x12 := "divide by zero",
    0x21 := "invalid enum value",
    0x22 := "storage byte array that is incorrectly encoded",
    0x31 := ".pop() on an empty array.",
    0x32 := "array sout-of-bounds or negative index",
    0x41 := "memory overflow",
    0x51 := "zero-initialized variable of internal function type"]

  /** `panicCodes[code] ?? code`: the name of a known code, else the code in decimal (BigNumber toString). */
  function PanicText(code: nat): (t: string)
    ensures code in PANIC_CODES ==> t == PANIC_CODES[code]
    ensures code !in PANIC_CODES ==> t == NatToDecimal(code)
  {
    if code in PANIC_CODES then PANIC_CODES[code] else NatToDecimal(code)
  }

  /** An unknown code is printed so that it can be read back. */
  lemma PanicTextOfUnknown(code: nat)
    requires code !in PANIC_CODES
    ensures forall i :: 0 <= i < |PanicText(code)| ==> '0' <= PanicText(code)[i] <= '9'
    ensures DecimalValue(PanicText(code)) == code
  {
    DecimalValueOfNatToDecimal(code);
  }

  // ---------------------------------------------------------------------------
  // decodeRevertReason

  /** `Error(string)`, the revert of `require` and `revert("...")`. */
  const ERROR_SELECTOR: string := "0x08c379a0"
  /** `FailedOp(uint256,address,string)`, the entry point's revert. */
  const FAILED_OP_SELECTOR: string := "0x00fa072b"
  /** `Panic(uint256)`, the revert of a failed assertion or arithmetic check. */
  const PANIC_SELECTOR: string := "0x4e487b71"

  predicate IsKnownSelector(sig: string) {
    sig == ERROR_SELECTOR || sig == FAILED_OP_SELECTOR || sig == PANIC_SELECTOR
  }

  /** Why ethers throws: the parameters are not hexadecimal bytes, or do not decode as the selector's arguments. */
  datatype DecodeError = InvalidHex | InvalidArguments

  /** `data.slice(0, 10)`: "0x" and the four selector bytes, or all of a shorter string. */
  function MethodSig(data: string): (sig: string)
    ensures |sig| == if |data| < 10 then |data| else 10
    ensures sig == data[..|sig|]
  {
    data[..if |data| < 10 then |data| else 10]
  }

  /** `'0x' + data.slice(10)`. */
  function DataParams(data: string): (params: string)
    ensures params == "0x" + data[|MethodSig(data)|..]
  {
    "0x" + data[|MethodSig(data)|..]
  }

  /** arrayify of the parameters, which throws on text that is not an even number of hexadecimal digits. */
  function ParamBytes(params: string): (r: Result<seq<Byte>, DecodeError>)
    ensures r.Ok? <==> ParseHex(params).Some?
    ensures r.Ok? ==> r.value == ParseHex(params).value
  {
    match ParseHex(params)
    case None => Err(InvalidHex)
    case Some(p) => Ok(p)
  }

  /** defaultAbiCoder.decode(['string'], p). */
  function DecodeErrorArgs(p: seq<Byte>): (r: Result<seq<Byte>, DecodeError>)
    ensures r.Ok? <==> ReadBytes(p, 0).Some?
  {
    match ReadBytes(p, 0)
    case None => Err(InvalidArguments)
    case Some(message) => Ok(message)
  }

  /** defaultAbiCoder.decode(['uint256', 'address', 'string'], p). */
  function DecodeFailedOpArgs(p: seq<Byte>): (r: Result<(nat, Address, seq<Byte>), DecodeError>)
    ensures r.Ok? <==> ReadUint(p, 0).Some? && ReadAddress(p, 32).Some? && ReadBytes(p, 64).Some?
  {
    match (ReadUint(p, 0), ReadAddress(p, 32), ReadBytes(p, 64))
    case (Some(opIndex), Some(paymaster), Some(message)) => Ok((opIndex, paymaster, message))
    case _ => Err(InvalidArguments)
  }

  /** defaultAbiCoder.decode(['uint256'], p). */
  function DecodePanicArgs(p: seq<Byte>): (r: Result<nat, DecodeError>)
    ensures r.Ok? <==> ReadUint(p, 0).Some?
  {
    match ReadUint(p, 0)
    case None => Err(InvalidArguments)
    case Some(code) => Ok(code)
  }

  /** The paymaster as the FailedOp text shows it: its checksummed address, or "none" for the zero address. */
  function PaymasterText(paymaster: Address, keccak: Keccak): string {
    var shown := ChecksumAddress(paymaster, keccak);
    if shown != ADDRESS_ZERO_TEXT then shown else "none"
  }

  /** `t` opens with `open` and closes with `close`. */
  predicate Bracketed(t: string, open: string, close: string) {
    |t| >= |open| + |close| && t[..|open|] == open && t[|t| - |close|..] == close
  }

  lemma BracketedConcat(open: string, inner: string, close: string)
    ensures Bracketed(open + inner + close, open, close)
  {
    var t := open + inner + close;
    assert t[..|open|] == open;
    assert t[|t| - |close|..] == close;
  }

  /** The `Error(string)` branch: `Error(<message>)`. */
  function ShowError(params: string): (r: Result<string, DecodeError>)
    ensures r.Ok? ==> Bracketed(r.value, "Error(", ")")
  {
    var p :- ParamBytes(params);
    var message :- DecodeErrorArgs(p);
    BracketedConcat("Error(", BytesToText(message), ")");
    Ok("Error(" + BytesToText(message) + ")")
  }

  /** The `FailedOp` branch: `FailedOp(<index>, <paymaster or none>, <message>)`. */
  function ShowFailedOp(params: string, keccak: Keccak): (r: Result<string, DecodeError>)
    ensures r.Ok? ==> Bracketed(r.value, "FailedOp(", ")")
  {
    var p :- ParamBytes(params);
    var args :- DecodeFailedOpArgs(p);
    var inner := NatToDecimal(args.0) + ", " + PaymasterText(args.1, keccak) + ", " + BytesToText(args.2);
    BracketedConcat("FailedOp(", inner, ")");
    Ok("FailedOp(" + inner + ")")
  }

  /** The `Panic(uint256)` branch: `Panic(<name or code> + ')`, the stray " + '" included. */
  function ShowPanic(params: string): (r: Result<string, DecodeError>)
    ensures r.Ok? ==> Bracketed(r.value, "Panic(", " + ')")
  {
    var p :- ParamBytes(params);
    var code :- DecodePanicArgs(p);
    BracketedConcat("Panic(", PanicText(code), " + ')");
    Ok("Panic(" + PanicText(code) + " + ')")
  }

  /**
   * decodeRevertReason: the text for revert data with a known selector, the
   * data itself or null (`None`) for any other, and `Err` where ethers throws.
   */
  function DecodeRevertReason(data: string, keccak: Keccak, nullIfNoMatch: bool := true): (r: Result<Option<string>, DecodeError>)
    ensures !IsKnownSelector(MethodSig(data)) ==> r == Ok(if nullIfNoMatch then None else Some(data))
    ensures IsKnownSelector(MethodSig(data)) && r.Ok? ==> r.value.Some?
    ensures MethodSig(data) == ERROR_SELECTOR && r.Ok? ==> Bracketed(r.value.value, "Error(", ")")
    ensures MethodSig(data) == FAILED_OP_SELECTOR && r.Ok? ==> Bracketed(r.value.value, "FailedOp(", ")")
    ensures MethodSig(data) == PANIC_SELECTOR && r.Ok? ==> Bracketed(r.value.value, "Panic(", " + ')")
  {
    var methodSig := MethodSig(data);
    if methodSig == ERROR_SELECTOR then
      var text :- ShowError(DataParams(data));
      Ok(Some(text))
    else if methodSig == FAILED_OP_SELECTOR then
      var text :- ShowFailedOp(DataParams(data), keccak);
      Ok(Some(text))
    else if methodSig == PANIC_SELECTOR then
      var text :- ShowPanic(DataParams(data));
      Ok(Some(text))
    else if !nullIfNoMatch then Ok(Some(data))
    else Ok(None)
  }

  /** The paymaster shows as "none" exactly when it is the zero address. */
  lemma PaymasterTextNone(paymaster: Address, keccak: Keccak)
    ensures PaymasterText(paymaster, keccak) == "none" <==> paymaster == ADDRESS_ZERO
    ensures paymaster != ADDRESS_ZERO ==> PaymasterText(paymaster, keccak) == ChecksumAddress(paymaster, keccak)
  {
    ChecksumIsZeroText(paymaster, keccak);
  }

  /** Revert data as a node returns it: the selector, then the ABI-encoded arguments in lower-case hexadecimal. */
  function RevertData(selector: string, args: seq<Byte>): (data: string)
    requires |selector| == 10
    ensures MethodSig(data) == selector && DataParams(data) == BytesToHex(args)
  {
    var data := selector + HexOfBytes(args);
    assert data[..10] == selector && data[10..] == HexOfBytes(args);
    data
  }

  /** The arguments of `Error(message)`. */
  function ErrorArgs(message: seq<Byte>): seq<Byte>
    requires FitsUint256(|message|)
  {
    EncodeUint(32) + EncodeBytes(message)
  }

  /** `Error(message)` revert data is shown as `Error(<message>)`. */
  lemma DecodeErrorRevert(message: seq<Byte>, nullIfNoMatch: bool, keccak: Keccak)
    requires |message| < SAFE_NUMBER_BOUND
    ensures DecodeRevertReason(RevertData(ERROR_SELECTOR, ErrorArgs(message)), keccak, nullIfNoMatch)
         == Ok(Some("Error(" + BytesToText(message) + ")"))
  {
    var args := ErrorArgs(message);
    ParseHexOfBytesToHex(args);
    assert args[0..32] == EncodeUint(32);
    assert args[32..32 + 32 + Ceil32(|message|)] == EncodeBytes(message);
    ReadBytesOfEncoded(args, 0, 32, message);
  }

  /** The arguments of `FailedOp(opIndex, paymaster, message)`. */
  function FailedOpArgs(opIndex: nat, paymaster: Address, message: seq<Byte>): seq<Byte>
    requires FitsUint256(opIndex) && FitsUint256(|message|)
  {
    EncodeUint(opIndex) + EncodeAddress(paymaster) + EncodeUint(96) + EncodeBytes(message)
  }

  /** The FailedOp arguments decode back to the index, the paymaster and the message. */
  lemma DecodeFailedOpArgsOf(opIndex: nat, paymaster: Address, message: seq<Byte>)
    requires FitsUint256(opIndex) && |message| < SAFE_NUMBER_BOUND
    ensures DecodeFailedOpArgs(FailedOpArgs(opIndex, paymaster, message)) == Ok((opIndex, paymaster, message))
  {
    var args := FailedOpArgs(opIndex, paymaster, message);
    assert args[0..32] == EncodeUint(opIndex);
    assert args[32..64] == EncodeAddress(paymaster);
    assert args[64..96] == EncodeUint(96);
    assert args[96..96 + 32 + Ceil32(|message|)] == EncodeBytes(message);
    ReadUintOfEncoded(args, 0, opIndex);
    ReadAddressOfEncoded(args, 32, paymaster);
    ReadBytesOfEncoded(args, 64, 96, message);
  }

  /** `FailedOp` revert data is shown with the index in decimal, the paymaster (or "none") and the message. */
  lemma DecodeFailedOpRevert(opIndex: nat, paymaster: Address, message: seq<Byte>, nullIfNoMatch: bool, keccak: Keccak)
    requires FitsUint256(opIndex) && |message| < SAFE_NUMBER_BOUND
    ensures DecodeRevertReason(RevertData(FAILED_OP_SELECTOR, FailedOpArgs(opIndex, paymaster, message)), keccak, nullIfNoMatch)
         == Ok(Some("FailedOp(" + (NatToDecimal(opIndex) + ", "
                    + (if paymaster == ADDRESS_ZERO then "none" else ChecksumAddress(paymaster, keccak)) + ", "
                    + BytesToText(message)) + ")"))
  {
    var args := FailedOpArgs(opIndex, paymaster, message);
    ShowFailedOpOf(opIndex, paymaster, message, keccak);
    DecodeFailedOpData(RevertData(FAILED_OP_SELECTOR, args), nullIfNoMatch, keccak);
    PaymasterTextNone(paymaster, keccak);
  }

  lemma SelectorsDiffer(sig: string)
    requires sig == FAILED_OP_SELECTOR
    ensures sig != ERROR_SELECTOR
  {
    assert ERROR_SELECTOR[3] != FAILED_OP_SELECTOR[3];
  }

  lemma DecodeFailedOpData(data: string, nullIfNoMatch: bool, keccak: Keccak)
    requires MethodSig(data) == FAILED_OP_SELECTOR
    ensures DecodeRevertReason(data, keccak, nullIfNoMatch)
         == match ShowFailedOp(DataParams(data), keccak) case Ok(t) => Ok(Some(t)) case Err(e) => Err(e)
  {
    SelectorsDiffer(MethodSig(data));
  }

  /** The FailedOp branch applied to the hexadecimal text of encoded arguments. */
  lemma ShowFailedOpOf(opIndex: nat, paymaster: Address, message: seq<Byte>, keccak: Keccak)
    requires FitsUint256(opIndex) && |message| < SAFE_NUMBER_BOUND
    ensures ShowFailedOp(BytesToHex(FailedOpArgs(opIndex, paymaster, message)), keccak)
         == Ok("FailedOp(" + (NatToDecimal(opIndex) + ", " + PaymasterText(paymaster, keccak) + ", " + BytesToText(message)) + ")")
  {
    ParseHexOfBytesToHex(FailedOpArgs(opIndex, paymaster, message));
    DecodeFailedOpArgsOf(opIndex, paymaster, message);
  }

  /** `Panic(code)` revert data is shown as `Panic(<name or code> + ')`, the stray " + '" included. */
  lemma DecodePanicRevert(code: nat, nullIfNoMatch: bool, keccak: Keccak)
    requires FitsUint256(code)
    ensures DecodeRevertReason(RevertData(PANIC_SELECTOR, EncodeUint(code)), keccak, nullIfNoMatch)
         == Ok(Some("Panic(" + PanicText(code) + " + ')"))
  {
    ParseHexOfBytesToHex(EncodeUint(code));
    ReadUintOfEncoded(EncodeUint(code), 0, code);
  }

  // ---------------------------------------------------------------------------
  // createAccountOwner / createAddress

  /** arrayify(BigNumber.from(n)): the big-endian bytes of `n` without leading zeros (one zero byte for 0). */
  function MinimalBE(n: nat): (s: seq<Byte>)
    ensures |s| > 0 && BEToUint(s) == n
  {
    if n < 256 then [n] else MinimalBE(n / 256) + [n % 256]
  }

  /** A wallet: its private key and the address the key controls. */
  datatype Wallet = Wallet(privateKey: Bytes32, address: Address)

  /** The address of a private key (secp256k1), which the model does not interpret. */
  type AddressOfKey = Bytes32 -> Address

  /**
   * The module-level key counter. `used` records, in order, every counter
   * value a key was derived from.
   */
  class AccountOwners {
    var counter: nat
    ghost var used: seq<nat>

    /** The counter has handed out exactly 1, 2, ..., counter. */
    ghost predicate Valid()
      reads this
    {
      |used| == counter && forall i :: 0 <= i < |used| ==> used[i] == i + 1
    }

    /** `let counter = 0`. */
    constructor ()
      ensures Valid() && counter == 0 && used == []
    {
      counter := 0;
      used := [];
    }

    /** createAccountOwner: `++counter`, then the wallet of keccak(arrayify(counter)). */
    method CreateAccountOwner(keccak: Keccak, addressOf: AddressOfKey) returns (owner: Wallet)
      requires Valid()
      modifies this
      ensures Valid()
      ensures counter == old(counter) + 1 && used == old(used) + [counter]
      ensures owner.privateKey == keccak(MinimalBE(counter)) && owner.address == addressOf(owner.privateKey)
    {
      counter := counter + 1;
      used := used + [counter];
      var privateKey := keccak(MinimalBE(counter));
      owner := Wallet(privateKey, addressOf(privateKey));
    }

    /** createAddress: the address of a fresh account owner. */
    method CreateAddress(keccak: Keccak, addressOf: AddressOfKey) returns (address: Address)
      requires Valid()
      modifies this
      ensures Valid()
      ensures counter == old(counter) + 1 && used == old(used) + [counter]
      ensures address == addressOf(keccak(MinimalBE(counter)))
    {
      var owner := CreateAccountOwner(keccak, addressOf);
      address := owner.address;
    }
  }

  /** The counter values used are strictly increasing from 1, so no two keys are derived from the same input. */
  lemma CounterValuesIncrease(used: seq<nat>, i: nat, j: nat)
    requires forall k :: 0 <= k < |used| ==> used[k] == k + 1
    requires i < j < |used|
    ensures 1 <= used[i] < used[j]
    ensures MinimalBE(used[i]) != MinimalBE(used[j])
  {
  }

  // ---------------------------------------------------------------------------
  // getAccountInitCode

  /** hexConcat([factory.address, createAccountCall]): the factory address, then the factory calldata. */
  function GetAccountInitCode(factory: Address, createAccountCall: seq<Byte>): (initCode: seq<Byte>)
    ensures |initCode| == 20 + |createAccountCall|
  {
    factory + createAccountCall
  }

  /** fillUserOp's 20-byte slicing recovers the factory address and the calldata. */
  lemma InitCodeSplits(factory: Address, createAccountCall: seq<Byte>)
    ensures InitAddr(GetAccountInitCode(factory, createAccountCall)) == factory
    ensures InitCallData(GetAccountInitCode(factory, createAccountCall)) == createAccountCall
  {
    var initCode := GetAccountInitCode(factory, createAccountCall);
    assert initCode[..20] == factory;
    assert initCode[20..] == createAccountCall;
  }

  /** Every initCode of 20 bytes or more is the initCode of its own factory address and calldata. */
  lemma InitCodeJoins(initCode: seq<Byte>)
    requires |initCode| >= 20
    ensures GetAccountInitCode(InitAddr(initCode), InitCallData(initCode)) == initCode
  {
  }

  // ---------------------------------------------------------------------------
  // simulationResultCatch

  /** A contract error as ethers raises it: the custom error's name (if any) and its decoded arguments. */
  datatype ContractError<A> = ContractError(errorName: Option<string>, errorArgs: A)

  const VALIDATION_RESULT: string := "ValidationResult"

  /** simulationResultCatch: the arguments of a `ValidationResult` error, any other error thrown again as it is. */
  function SimulationResultCatch<A>(e: ContractError<A>): (r: Result<A, ContractError<A>>)
    ensures r.Ok? <==> e.errorName == Some(VALIDATION_RESULT)
    ensures r.Ok? ==> r.value == e.errorArgs
    ensures r.Err? ==> r.error == e
  {
    if e.errorName != Some(VALIDATION_RESULT) then Err(e) else Ok(e.errorArgs)
  }
}
