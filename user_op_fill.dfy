/**
 * Filling a partial user operation (test/UserOp.ts): `fillUserOpDefaults`,
 * which merges a partial operation over defaults with null fields treated
 * as absent, `fillUserOp`, which completes the nonce, sender, gas limits and
 * fees from the entry point's provider, and `fillAndSign`.
 *
 * A `Partial<UserOperation>` object is a dictionary from field names to
 * values: a key may be absent, present with null/undefined (`None`), or
 * present with a value. The provider's answers (gas estimates, the on-chain
 * nonce, the counterfactual sender, the latest base fee, the chain id) are
 * inputs of the model; a rejected call is a `None` answer.
 */
module UserOpFill {
  import opened Wrappers
  import opened Bytes
  import opened Abi
  import opened UserOp

  // ---------------------------------------------------------------------------
  // Partial operations

  datatype Field =
    | Sender | Nonce | InitCode | CallData | CallGasLimit | VerificationGasLimit
    | PreVerificationGas | MaxFeePerGas | MaxPriorityFeePerGas | PaymasterAndData | Signature

  const ALL_FIELDS: set<Field> := {
    Sender, Nonce, InitCode, CallData, CallGasLimit, VerificationGasLimit,
    PreVerificationGas, MaxFeePerGas, MaxPriorityFeePerGas, PaymasterAndData, Signature }

  lemma AllFields(f: Field)
    ensures f in ALL_FIELDS
  {
  }

  datatype Value = AddressValue(address: Address) | UintValue(number: nat) | BytesValue(bytes: seq<Byte>)

  /** The type the UserOperation record gives each field. */
  predicate HasFieldType(f: Field, v: Value) {
    match f
    case Sender => v.AddressValue?
    case InitCode | CallData | PaymasterAndData | Signature => v.BytesValue?
    case _ => v.UintValue?
  }

  /** A `Partial<UserOperation>` object; `None` is a key holding null or undefined. */
  type PartialOp = map<Field, Option<Value>>

  /** The field holds a value (JavaScript's `!= null`). */
  predicate Given(op: PartialOp, f: Field) {
    f in op && op[f].Some?
  }

  /** Every value has its field's type, as `Partial<UserOperation>` demands. */
  predicate WellTyped(op: PartialOp) {
    forall f :: Given(op, f) ==> HasFieldType(f, op[f].value)
  }

  /** Every field holds a value of its type: the dictionary is a whole UserOperation. */
  predicate Complete(op: PartialOp) {
    forall f :: f in op && op[f].Some? && HasFieldType(f, op[f].value)
  }

  function FieldValue(op: UserOperation, f: Field): (v: Value)
    ensures HasFieldType(f, v)
  {
    match f
    case Sender => AddressValue(op.sender)
    case Nonce => UintValue(op.nonce)
    case InitCode => BytesValue(op.initCode)
    case CallData => BytesValue(op.callData)
    case CallGasLimit => UintValue(op.callGasLimit)
    case VerificationGasLimit => UintValue(op.verificationGasLimit)
    case PreVerificationGas => UintValue(op.preVerificationGas)
    case MaxFeePerGas => UintValue(op.maxFeePerGas)
    case MaxPriorityFeePerGas => UintValue(op.maxPriorityFeePerGas)
    case PaymasterAndData => BytesValue(op.paymasterAndData)
    case Signature => BytesValue(op.signature)
  }

  /** An operation is determined by its field values. */
  lemma FieldValueInjective(a: UserOperation, b: UserOperation)
    requires forall f :: FieldValue(a, f) == FieldValue(b, f)
    ensures a == b
  {
    assert FieldValue(a, Sender) == FieldValue(b, Sender);
    assert FieldValue(a, Nonce) == FieldValue(b, Nonce);
    assert FieldValue(a, InitCode) == FieldValue(b, InitCode);
    assert FieldValue(a, CallData) == FieldValue(b, CallData);
    assert FieldValue(a, CallGasLimit) == FieldValue(b, CallGasLimit);
    assert FieldValue(a, VerificationGasLimit) == FieldValue(b, VerificationGasLimit);
    assert FieldValue(a, PreVerificationGas) == FieldValue(b, PreVerificationGas);
    assert FieldValue(a, MaxFeePerGas) == FieldValue(b, MaxFeePerGas);
    assert FieldValue(a, MaxPriorityFeePerGas) == FieldValue(b, MaxPriorityFeePerGas);
    assert FieldValue(a, PaymasterAndData) == FieldValue(b, PaymasterAndData);
    assert FieldValue(a, Signature) == FieldValue(b, Signature);
  }

  /** An operation as a dictionary: every key present with its value. */
  function FromRecord(op: UserOperation): (d: PartialOp)
    ensures Complete(d) && forall f :: d[f] == Some(FieldValue(op, f))
  {
    forall f ensures f in ALL_FIELDS {
      AllFields(f);
    }
    map f | f in ALL_FIELDS :: Some(FieldValue(op, f))
  }

  /** A whole dictionary as an operation. */
  function ToRecord(d: PartialOp): (op: UserOperation)
    requires Complete(d)
    ensures forall f :: FieldValue(op, f) == d[f].value
  {
    UserOperation(
      sender := d[Sender].value.address,
      nonce := d[Nonce].value.number,
      initCode := d[InitCode].value.bytes,
      callData := d[CallData].value.bytes,
      callGasLimit := d[CallGasLimit].value.number,
      verificationGasLimit := d[VerificationGasLimit].value.number,
      preVerificationGas := d[PreVerificationGas].value.number,
      maxFeePerGas := d[MaxFeePerGas].value.number,
      maxPriorityFeePerGas := d[MaxPriorityFeePerGas].value.number,
      paymasterAndData := d[PaymasterAndData].value.bytes,
      signature := d[Signature].value.bytes)
  }

  // ---------------------------------------------------------------------------
  // fillUserOpDefaults

  /** The value of field `f` after the merge: the given value, else the default. */
  function Pick(op: PartialOp, f: Field, defaults: UserOperation): (v: Value)
    requires WellTyped(op)
    ensures HasFieldType(f, v)
  {
    if Given(op, f) then op[f].value else FieldValue(defaults, f)
  }

  /**
   * The operation `fillUserOpDefaults(op, defaults)` returns: every field that
   * holds a value keeps it, every null or absent field takes the default.
   */
  function WithDefaults(op: PartialOp, defaults: UserOperation): (filled: UserOperation)
    requires WellTyped(op)
    ensures forall f :: FieldValue(filled, f) == Pick(op, f, defaults)
  {
    UserOperation(
      sender := Pick(op, Sender, defaults).address,
      nonce := Pick(op, Nonce, defaults).number,
      initCode := Pick(op, InitCode, defaults).bytes,
      callData := Pick(op, CallData, defaults).bytes,
      callGasLimit := Pick(op, CallGasLimit, defaults).number,
      verificationGasLimit := Pick(op, VerificationGasLimit, defaults).number,
      preVerificationGas := Pick(op, PreVerificationGas, defaults).number,
      maxFeePerGas := Pick(op, MaxFeePerGas, defaults).number,
      maxPriorityFeePerGas := Pick(op, MaxPriorityFeePerGas, defaults).number,
      paymasterAndData := Pick(op, PaymasterAndData, defaults).bytes,
      signature := Pick(op, Signature, defaults).bytes)
  }

  /**
   * fillUserOpDefaults: copy the partial operation, delete every key that
   * holds null (so that it cannot override a default), then spread the copy
   * over the defaults.
   */
  method FillUserOpDefaults(op: PartialOp, defaults: UserOperation := DefaultsForUserOp)
    returns (filled: UserOperation)
    requires WellTyped(op)
    ensures filled == WithDefaults(op, defaults)
  {
    var partial := op;
    var keys := op.Keys;
    while keys != {}
      invariant keys <= op.Keys && partial.Keys <= op.Keys && keys <= partial.Keys
      invariant forall f :: f in partial ==> partial[f] == op[f]
      invariant forall f :: f in op && f !in keys ==> (f in partial <==> op[f].Some?)
      decreases keys
    {
      var key :| key in keys;
      if partial[key].None? {
        partial := partial - {key};
      }
      keys := keys - {key};
    }
    var merged := FromRecord(defaults) + partial;
    assert forall f :: merged[f] == if Given(op, f) then op[f] else Some(FieldValue(defaults, f));
    filled := ToRecord(merged);
    FieldValueInjective(filled, WithDefaults(op, defaults));
  }

  /** A field that holds an explicit null takes the default, exactly as an absent one. */
  lemma NullNeverOverrides(op: PartialOp, f: Field, defaults: UserOperation)
    requires WellTyped(op)
    ensures WellTyped(op[f := None]) && WellTyped(op - {f})
    ensures WithDefaults(op[f := None], defaults) == WithDefaults(op - {f}, defaults)
    ensures FieldValue(WithDefaults(op[f := None], defaults), f) == FieldValue(defaults, f)
  {
    var a, b := WithDefaults(op[f := None], defaults), WithDefaults(op - {f}, defaults);
    forall g ensures FieldValue(a, g) == FieldValue(b, g) {
      assert Given(op[f := None], g) <==> Given(op - {f}, g);
    }
    FieldValueInjective(a, b);
  }

  /** A whole operation ignores the defaults. */
  lemma WithDefaultsOfRecord(op: UserOperation, defaults: UserOperation)
    ensures WithDefaults(FromRecord(op), defaults) == op
  {
    FieldValueInjective(WithDefaults(FromRecord(op), defaults), op);
  }

  /** Filling an already filled operation changes nothing. */
  lemma WithDefaultsIdempotent(op: PartialOp, defaults: UserOperation)
    requires WellTyped(op)
    ensures WithDefaults(FromRecord(WithDefaults(op, defaults)), defaults) == WithDefaults(op, defaults)
  {
    WithDefaultsOfRecord(WithDefaults(op, defaults), defaults);
  }

  /** An operation with no field given is the defaults. */
  lemma WithDefaultsOfEmpty(defaults: UserOperation)
    ensures WithDefaults(map[], defaults) == defaults
  {
    FieldValueInjective(WithDefaults(map[], defaults), defaults);
  }

  // ---------------------------------------------------------------------------
  // The provider's answers

  /** A transaction request handed to `provider.estimateGas`. */
  datatype GasRequest = GasRequest(from: Option<Address>, to: Option<seq<Byte>>, data: seq<Byte>, gasLimit: Option<nat>)

  /**
   * What the entry point's provider answers; `None` is a call whose promise
   * rejects. `getSenderAddress` is the sender that
   * `entryPoint.callStatic.getSenderAddress(initCode)` reports in its revert;
   * `getNonce` is the answer of the nonce getter of the given name on the
   * account at the given address;
   * `latestBlock` is the answer of `getBlock('latest')` and `chainId` that of
   * `getNetwork()`.
   */
  datatype Provider = Provider(
    getSenderAddress: seq<Byte> -> Option<Address>,
    estimateGas: GasRequest -> Option<nat>,
    getNonce: (Address, string) -> Option<nat>,
    latestBlock: Option<Block>,
    chainId: Option<nat>)

  /** A block as `getBlock` returns it: only its base fee matters here, and a pre-London block has none. */
  datatype Block = Block(baseFeePerGas: Option<nat>)

  datatype EntryPoint = EntryPoint(address: Address, provider: Option<Provider>)

  /** The known deployer: its address, and the address it deploys a contract to for (code, salt). */
  datatype Create2Factory = Create2Factory(
    contractAddress: Address,
    getDeployedAddress: (seq<Byte>, seq<Byte>) -> Address)

  /** Why `fillUserOp` or `fillAndSign` throws. */
  datatype FillError =
    | NoProvider(message: string)   // one of the four messages below
    | CallFailed                    // a provider call rejected
    | NoBaseFee                     // the latest block has no baseFeePerGas
    | MissingEntryPoint             // fillAndSign dereferences an absent entry point
    | Encoding(error: EncodingError)

  const NO_PROVIDER: string := "no entrypoint/provider"
  const NO_PROVIDER_FOR_NONCE: string := "must have entryPoint to autofill nonce"
  const NO_PROVIDER_FOR_CALL_GAS: string := "must have entryPoint for callGasLimit estimate"
  const NO_PROVIDER_FOR_MAX_FEE: string := "must have entryPoint to autofill maxFeePerGas"

  /** The gas limit of the deployment estimate (10e6). */
  const DEPLOYMENT_GAS_LIMIT: nat := 10_000_000

  function ProviderOf(entryPoint: Option<EntryPoint>): Option<Provider> {
    if entryPoint.Some? then entryPoint.value.provider else None
  }

  /** `entryPoint?.address`. */
  function EntryPointAddress(entryPoint: Option<EntryPoint>): Option<Address> {
    if entryPoint.Some? then Some(entryPoint.value.address) else None
  }

  /** `op.sender`, null when it holds no value. */
  function SenderOf(op: PartialOp): Option<Address>
    requires WellTyped(op)
  {
    if Given(op, Sender) then Some(op[Sender].value.address) else None
  }

  /** The estimate that prices the deployment: a call of the factory with its calldata. */
  function DeploymentRequest(entryPoint: Option<EntryPoint>, initCode: seq<Byte>): GasRequest {
    GasRequest(EntryPointAddress(entryPoint), Some(InitAddr(initCode)), InitCallData(initCode), Some(DEPLOYMENT_GAS_LIMIT))
  }

  /** The estimate that prices the account call. */
  function CallRequest(entryPoint: Option<EntryPoint>, sender: Option<Address>, callData: seq<Byte>): GasRequest {
    GasRequest(EntryPointAddress(entryPoint), sender, callData, None)
  }

  // ---------------------------------------------------------------------------
  // fillUserOp, step by step

  /** Every field that holds a value in `a` holds the same value in `b`. */
  predicate Keeps(a: PartialOp, b: PartialOp) {
    forall f :: Given(a, f) ==> Given(b, f) && b[f] == a[f]
  }

  /** Field `f` holds the same value, or none, in `a` and `b`. */
  predicate Unchanged(a: PartialOp, b: PartialOp, f: Field) {
    (Given(a, f) <==> Given(b, f)) && (Given(a, f) ==> b[f] == a[f])
  }

  /** `b` is `a` with at most field `g` filled in. */
  predicate OnlyFills(a: PartialOp, b: PartialOp, g: Field) {
    Keeps(a, b) && forall f :: f != g ==> Unchanged(a, b, f)
  }

  /** With initCode and no sender: the known deployer's address, else the entry point's answer. */
  function SenderStep(op1: PartialOp, initCode: seq<Byte>, entryPoint: Option<EntryPoint>, factory: Create2Factory)
    : (r: Result<PartialOp, FillError>)
    requires WellTyped(op1)
    ensures r.Ok? ==> WellTyped(r.value) && OnlyFills(op1, r.value, Sender) && Given(r.value, Sender)
  {
    if Given(op1, Sender) then Ok(op1)
    else
      var initCallData := InitCallData(initCode);
      if InitAddr(initCode) == factory.contractAddress then
        var ctr := Drop(initCallData, 32);
        var salt := Take(initCallData, 32);
        Ok(op1[Sender := Some(AddressValue(factory.getDeployedAddress(ctr, salt)))])
      else if ProviderOf(entryPoint).None? then Err(NoProvider(NO_PROVIDER))
      else match ProviderOf(entryPoint).value.getSenderAddress(initCode)
        case None => Err(CallFailed)
        case Some(sender) => Ok(op1[Sender := Some(AddressValue(sender))])
  }

  /** With initCode and no verification gas: the default plus the deployment estimate. */
  function VerificationGasStep(op1: PartialOp, initCode: seq<Byte>, entryPoint: Option<EntryPoint>)
    : (r: Result<PartialOp, FillError>)
    requires WellTyped(op1)
    ensures r.Ok? ==> WellTyped(r.value) && OnlyFills(op1, r.value, VerificationGasLimit)
    ensures r.Ok? ==> Given(r.value, VerificationGasLimit)
  {
    if Given(op1, VerificationGasLimit) then Ok(op1)
    else if ProviderOf(entryPoint).None? then Err(NoProvider(NO_PROVIDER))
    else match ProviderOf(entryPoint).value.estimateGas(DeploymentRequest(entryPoint, initCode))
      case None => Err(CallFailed)
      case Some(estimate) =>
        Ok(op1[VerificationGasLimit := Some(UintValue(DefaultsForUserOp.verificationGasLimit + estimate))])
  }

  /** The initCode branch: nonce 0, then the sender, then the verification gas. */
  function InitCodeStep(op: PartialOp, entryPoint: Option<EntryPoint>, factory: Create2Factory)
    : (r: Result<PartialOp, FillError>)
    requires WellTyped(op) && Given(op, InitCode) && HasFieldType(InitCode, op[InitCode].value)
    ensures r.Ok? ==> WellTyped(r.value) && Keeps(op, r.value) && Given(r.value, Nonce)
    ensures r.Ok? ==> Given(r.value, Sender) && Given(r.value, VerificationGasLimit)
    ensures r.Ok? ==> forall f :: f !in {Sender, Nonce, VerificationGasLimit} ==> Unchanged(op, r.value, f)
  {
    var initCode := op[InitCode].value.bytes;
    var op1 := if Given(op, Nonce) then op else op[Nonce := Some(UintValue(0))];
    var op1 :- SenderStep(op1, initCode, entryPoint, factory);
    VerificationGasStep(op1, initCode, entryPoint)
  }

  /**
   * No nonce yet: the account's on-chain nonce, read at the sender as the
   * caller gave it. Without that sender the contract has no address, and
   * the getter's call rejects.
   */
  function NonceStep(op: PartialOp, op1: PartialOp, entryPoint: Option<EntryPoint>, getNonceFunction: string)
    : (r: Result<PartialOp, FillError>)
    requires WellTyped(op) && WellTyped(op1)
    ensures r.Ok? ==> WellTyped(r.value) && OnlyFills(op1, r.value, Nonce) && Given(r.value, Nonce)
    ensures !Given(op1, Nonce) && ProviderOf(entryPoint).Some? && SenderOf(op).None? ==> r == Err(CallFailed)
  {
    if Given(op1, Nonce) then Ok(op1)
    else if ProviderOf(entryPoint).None? then Err(NoProvider(NO_PROVIDER_FOR_NONCE))
    else match SenderOf(op)
      case None => Err(CallFailed)
      case Some(sender) =>
        match ProviderOf(entryPoint).value.getNonce(sender, getNonceFunction)
        case None => Err(CallFailed)
        case Some(nonce) => Ok(op1[Nonce := Some(UintValue(nonce))])
  }

  /** No call gas yet but callData given: the estimate of the account call. */
  function CallGasStep(op: PartialOp, op1: PartialOp, entryPoint: Option<EntryPoint>)
    : (r: Result<PartialOp, FillError>)
    requires WellTyped(op) && WellTyped(op1) && Keeps(op, op1)
    ensures r.Ok? ==> WellTyped(r.value) && OnlyFills(op1, r.value, CallGasLimit)
  {
    if Given(op1, CallGasLimit) || !Given(op, CallData) then Ok(op1)
    else if ProviderOf(entryPoint).None? then Err(NoProvider(NO_PROVIDER_FOR_CALL_GAS))
    else
      assert Given(op1, CallData);
      match ProviderOf(entryPoint).value.estimateGas(CallRequest(entryPoint, SenderOf(op1), op1[CallData].value.bytes))
      case None => Err(CallFailed)
      case Some(estimate) => Ok(op1[CallGasLimit := Some(UintValue(estimate))])
  }

  /** The priority fee as given, else the default 1 gwei (`??`). */
  function PriorityFeeOr(op1: PartialOp): nat
    requires WellTyped(op1)
  {
    if Given(op1, MaxPriorityFeePerGas) then op1[MaxPriorityFeePerGas].value.number
    else DefaultsForUserOp.maxPriorityFeePerGas
  }

  /** No maximum fee yet: the latest base fee plus the priority fee. */
  function MaxFeeStep(op1: PartialOp, entryPoint: Option<EntryPoint>): (r: Result<PartialOp, FillError>)
    requires WellTyped(op1)
    ensures r.Ok? ==> WellTyped(r.value) && OnlyFills(op1, r.value, MaxFeePerGas) && Given(r.value, MaxFeePerGas)
    ensures r.Err? ==> !Given(op1, MaxFeePerGas)
    ensures !Given(op1, MaxFeePerGas) && ProviderOf(entryPoint).Some? ==>
      var block := ProviderOf(entryPoint).value.latestBlock;
      && (block.None? ==> r == Err(CallFailed))
      && (block.Some? && block.value.baseFeePerGas.None? ==> r == Err(NoBaseFee))
  {
    if Given(op1, MaxFeePerGas) then Ok(op1)
    else if ProviderOf(entryPoint).None? then Err(NoProvider(NO_PROVIDER_FOR_MAX_FEE))
    else match ProviderOf(entryPoint).value.latestBlock
      case None => Err(CallFailed)
      case Some(block) =>
        match block.baseFeePerGas
        case None => Err(NoBaseFee)
        case Some(baseFee) => Ok(op1[MaxFeePerGas := Some(UintValue(baseFee + PriorityFeeOr(op1)))])
  }

  /** No priority fee yet: 1 gwei. */
  function PriorityStep(op1: PartialOp): (r: PartialOp)
    requires WellTyped(op1)
    ensures WellTyped(r) && OnlyFills(op1, r, MaxPriorityFeePerGas) && Given(r, MaxPriorityFeePerGas)
  {
    if Given(op1, MaxPriorityFeePerGas) then op1
    else op1[MaxPriorityFeePerGas := Some(UintValue(DefaultsForUserOp.maxPriorityFeePerGas))]
  }

  /** A zero pre-verification gas becomes the calldata cost of the gas packing. */
  function PreVerificationGasStep(op2: UserOperation): (r: Result<UserOperation, FillError>)
    ensures r.Err? <==> op2.preVerificationGas == 0 && !GasPackFits(op2)
    ensures r.Err? ==> r.error.Encoding?
    ensures r.Ok? ==> r.value == op2.(preVerificationGas := r.value.preVerificationGas)
    ensures r.Ok? && op2.preVerificationGas != 0 ==> r.value == op2
    ensures r.Ok? && op2.preVerificationGas == 0 ==> r.value.preVerificationGas == CallDataCost(PackForGas(op2).value).value
  {
    if op2.preVerificationGas != 0 then Ok(op2)
    else match PackForGas(op2)
      case Err(e) => Err(Encoding(e))
      case Ok(packed) => Ok(op2.(preVerificationGas := CallDataCost(packed).value))
  }

  /** The initCode branch, taken only when the caller gave initCode. */
  function InitCodeStage(op: PartialOp, entryPoint: Option<EntryPoint>, factory: Create2Factory)
    : (r: Result<PartialOp, FillError>)
    requires WellTyped(op)
    ensures r.Ok? ==> WellTyped(r.value) && Keeps(op, r.value)
    ensures r.Ok? ==> forall f :: f !in {Sender, Nonce, VerificationGasLimit} ==> Unchanged(op, r.value, f)
  {
    if Given(op, InitCode) then InitCodeStep(op, entryPoint, factory) else Ok(op)
  }

  /** Everything up to the defaults merge: the partial operation `op1`. */
  function FilledPartial(op: PartialOp, entryPoint: Option<EntryPoint>, factory: Create2Factory, getNonceFunction: string)
    : (r: Result<PartialOp, FillError>)
    requires WellTyped(op)
    ensures r.Ok? ==> WellTyped(r.value) && Keeps(op, r.value)
  {
    var op1 :- InitCodeStage(op, entryPoint, factory);
    var op1 :- NonceStep(op, op1, entryPoint, getNonceFunction);
    var op1 :- CallGasStep(op, op1, entryPoint);
    MaxFeeStep(op1, entryPoint)
  }

  /** The priority fee default, then fillUserOpDefaults over `op1`: the operation before pricing. */
  function Merged(op1: PartialOp): UserOperation
    requires WellTyped(op1)
  {
    WithDefaults(PriorityStep(op1), DefaultsForUserOp)
  }

  /** The operation `fillUserOp` returns, or why it throws. */
  function FillPolicy(op: PartialOp, entryPoint: Option<EntryPoint>, factory: Create2Factory, getNonceFunction: string)
    : Result<UserOperation, FillError>
    requires WellTyped(op)
  {
    var op1 :- FilledPartial(op, entryPoint, factory, getNonceFunction);
    PreVerificationGasStep(Merged(op1))
  }

  /** The initCode branch of fillUserOp (test/UserOp.ts, lines 120-154), updating its copy `op1` in place. */
  method FillFromInitCode(op: PartialOp, entryPoint: Option<EntryPoint>, factory: Create2Factory)
    returns (r: Result<PartialOp, FillError>)
    requires WellTyped(op) && Given(op, InitCode) && HasFieldType(InitCode, op[InitCode].value)
    ensures r == InitCodeStep(op, entryPoint, factory)
  {
    var op1 := op;
    var initCode := op1[InitCode].value.bytes;
    if !Given(op1, Nonce) {
      op1 := op1[Nonce := Some(UintValue(0))];
    }
    op1 :- FillSender(op1, initCode, entryPoint, factory);
    r := FillVerificationGas(op1, initCode, entryPoint);
  }

  /** The sender part of the initCode branch (test/UserOp.ts, lines 124-139). */
  method FillSender(op1: PartialOp, initCode: seq<Byte>, entryPoint: Option<EntryPoint>, factory: Create2Factory)
    returns (r: Result<PartialOp, FillError>)
    requires WellTyped(op1)
    ensures r == SenderStep(op1, initCode, entryPoint, factory)
  {
    var provider := ProviderOf(entryPoint);
    var initAddr := InitAddr(initCode);
    var initCallData := InitCallData(initCode);
    r := Ok(op1);
    if !Given(op1, Sender) {
      if initAddr == factory.contractAddress {
        var ctr := Drop(initCallData, 32);
        var salt := Take(initCallData, 32);
        r := Ok(op1[Sender := Some(AddressValue(factory.getDeployedAddress(ctr, salt)))]);
      } else {
        if provider.None? {
          return Err(NoProvider(NO_PROVIDER));
        }
        var sender := provider.value.getSenderAddress(initCode);
        if sender.None? {
          return Err(CallFailed);
        }
        r := Ok(op1[Sender := Some(AddressValue(sender.value))]);
      }
    }
  }

  /** The verification gas part of the initCode branch (test/UserOp.ts, lines 140-153). */
  method FillVerificationGas(op1: PartialOp, initCode: seq<Byte>, entryPoint: Option<EntryPoint>)
    returns (r: Result<PartialOp, FillError>)
    requires WellTyped(op1)
    ensures r == VerificationGasStep(op1, initCode, entryPoint)
  {
    var provider := ProviderOf(entryPoint);
    r := Ok(op1);
    if !Given(op1, VerificationGasLimit) {
      if provider.None? {
        return Err(NoProvider(NO_PROVIDER));
      }
      var initEstimate := provider.value.estimateGas(
        GasRequest(EntryPointAddress(entryPoint), Some(InitAddr(initCode)), InitCallData(initCode), Some(DEPLOYMENT_GAS_LIMIT)));
      if initEstimate.None? {
        return Err(CallFailed);
      }
      r := Ok(op1[VerificationGasLimit := Some(UintValue(DefaultsForUserOp.verificationGasLimit + initEstimate.value))]);
    }
  }

  /** fillUserOp's nonce block (test/UserOp.ts, lines 155-165). */
  method FillNonce(op: PartialOp, op1: PartialOp, entryPoint: Option<EntryPoint>, getNonceFunction: string)
    returns (r: Result<PartialOp, FillError>)
    requires WellTyped(op) && WellTyped(op1)
    ensures r == NonceStep(op, op1, entryPoint, getNonceFunction)
  {
    var provider := ProviderOf(entryPoint);
    r := Ok(op1);
    if !Given(op1, Nonce) {
      if provider.None? {
        return Err(NoProvider(NO_PROVIDER_FOR_NONCE));
      }
      var sender := SenderOf(op);
      if sender.None? {
        return Err(CallFailed);
      }
      var nonce := provider.value.getNonce(sender.value, getNonceFunction);
      if nonce.None? {
        return Err(CallFailed);
      }
      r := Ok(op1[Nonce := Some(UintValue(nonce.value))]);
    }
  }

  /** fillUserOp's call gas block (test/UserOp.ts, lines 167-180). */
  method FillCallGasLimit(op: PartialOp, op1: PartialOp, entryPoint: Option<EntryPoint>)
    returns (r: Result<PartialOp, FillError>)
    requires WellTyped(op) && WellTyped(op1) && Keeps(op, op1)
    ensures r == CallGasStep(op, op1, entryPoint)
  {
    var provider := ProviderOf(entryPoint);
    r := Ok(op1);
    if !Given(op1, CallGasLimit) && Given(op, CallData) {
      if provider.None? {
        return Err(NoProvider(NO_PROVIDER_FOR_CALL_GAS));
      }
      var gasEstimated := provider.value.estimateGas(
        GasRequest(EntryPointAddress(entryPoint), SenderOf(op1), op1[CallData].value.bytes, None));
      if gasEstimated.None? {
        return Err(CallFailed);
      }
      r := Ok(op1[CallGasLimit := Some(UintValue(gasEstimated.value))]);
    }
  }

  /** fillUserOp's fee block (test/UserOp.ts, lines 181-191). */
  method FillMaxFee(op1: PartialOp, entryPoint: Option<EntryPoint>) returns (r: Result<PartialOp, FillError>)
    requires WellTyped(op1)
    ensures r == MaxFeeStep(op1, entryPoint)
  {
    var provider := ProviderOf(entryPoint);
    r := Ok(op1);
    if !Given(op1, MaxFeePerGas) {
      if provider.None? {
        return Err(NoProvider(NO_PROVIDER_FOR_MAX_FEE));
      }
      var block := provider.value.latestBlock;
      if block.None? {
        return Err(CallFailed);
      }
      var baseFee := block.value.baseFeePerGas;
      if baseFee.None? {
        return Err(NoBaseFee);
      }
      var priorityFee := if Given(op1, MaxPriorityFeePerGas) then op1[MaxPriorityFeePerGas].value.number
                         else DefaultsForUserOp.maxPriorityFeePerGas;
      r := Ok(op1[MaxFeePerGas := Some(UintValue(baseFee.value + priorityFee))]);
    }
  }

  /**
   * fillUserOp: copy the partial operation into `op1`, complete its fields
   * block by block (asking the provider where the caller gave nothing), merge
   * the defaults and price a zero pre-verification gas.
   */
  method FillUserOp(op: PartialOp, entryPoint: Option<EntryPoint>, factory: Create2Factory,
                    getNonceFunction: string := "getNonce")
    returns (r: Result<UserOperation, FillError>)
    requires WellTyped(op)
    ensures r == FillPolicy(op, entryPoint, factory, getNonceFunction)
  {
    var op1 := op;
    if Given(op, InitCode) {
      op1 :- FillFromInitCode(op, entryPoint, factory);
    }
    op1 :- FillNonce(op, op1, entryPoint, getNonceFunction);
    op1 :- FillCallGasLimit(op, op1, entryPoint);
    op1 :- FillMaxFee(op1, entryPoint);
    assert FilledPartial(op, entryPoint, factory, getNonceFunction) == Ok(op1);
    if !Given(op1, MaxPriorityFeePerGas) {
      op1 := op1[MaxPriorityFeePerGas := Some(UintValue(DefaultsForUserOp.maxPriorityFeePerGas))];
    }
    var op2 := FillUserOpDefaults(op1);
    r := PricePreVerificationGas(op2);
  }

  /** fillUserOp's last block (test/UserOp.ts, lines 197-203): a zero pre-verification gas is priced by the gas packing. */
  method PricePreVerificationGas(op2: UserOperation) returns (r: Result<UserOperation, FillError>)
    ensures r == PreVerificationGasStep(op2)
  {
    var filled := op2;
    if filled.preVerificationGas == 0 {
      var packed := PackForGas(filled);
      if packed.Err? {
        return Err(Encoding(packed.error));
      }
      filled := filled.(preVerificationGas := CallDataCost(packed.value).value);
    }
    return Ok(filled);
  }

  // ---------------------------------------------------------------------------
  // fillAndSign

  /** signer.signMessage, which the model does not interpret. */
  type Signer = Bytes32 -> seq<Byte>

  /**
   * fillAndSign: fill the operation, hash it for the entry point and the
   * provider's chain, and return the filled operation with the signer's
   * signature of that hash.
   */
  method FillAndSign(op: PartialOp, signer: Signer, entryPoint: Option<EntryPoint>, factory: Create2Factory,
                     keccak: Keccak, getNonceFunction: string := "getNonce")
    returns (r: Result<UserOperation, FillError>)
    requires WellTyped(op)
    ensures var filled := FillPolicy(op, entryPoint, factory, getNonceFunction);
      && (filled.Err? ==> r == Err(filled.error))
      && (filled.Ok? && ProviderOf(entryPoint).None? ==> r == Err(MissingEntryPoint))
      && (filled.Ok? && ProviderOf(entryPoint).Some? && ProviderOf(entryPoint).value.chainId.None? ==> r == Err(CallFailed))
      && (filled.Ok? && ProviderOf(entryPoint).Some? && ProviderOf(entryPoint).value.chainId.Some? ==>
            var hash := GetUserOpHash(filled.value, entryPoint.value.address, ProviderOf(entryPoint).value.chainId.value, keccak);
            && (hash.Err? ==> r == Err(Encoding(hash.error)))
            && (hash.Ok? ==> r == Ok(filled.value.(signature := signer(hash.value)))))
    ensures r.Ok? ==>
      && ProviderOf(entryPoint).Some? && ProviderOf(entryPoint).value.chainId.Some?
      && var hash := GetUserOpHash(r.value, entryPoint.value.address, ProviderOf(entryPoint).value.chainId.value, keccak);
      && hash.Ok? && r.value.signature == signer(hash.value)
  {
    var provider := ProviderOf(entryPoint);
    var op2 :- FillUserOp(op, entryPoint, factory, getNonceFunction);
    if provider.None? {
      return Err(MissingEntryPoint);
    }
    if provider.value.chainId.None? {
      return Err(CallFailed);
    }
    var chainId := provider.value.chainId.value;
    var message := GetUserOpHash(op2, entryPoint.value.address, chainId, keccak);
    if message.Err? {
      return Err(Encoding(message.error));
    }
    r := Ok(op2.(signature := signer(message.value)));
    UserOpHashIgnoresSignature(op2, signer(message.value), entryPoint.value.address, chainId, keccak);
  }

  // ---------------------------------------------------------------------------
  // What fillUserOp promises. The rules speak of `Merged(op1)`, where `op1` is
  // the filled partial operation; FillPolicyResult says the result is that
  // operation, with a zero pre-verification gas priced.

  /** After the initCode branch, fillUserOp only fills the nonce, the call gas and the maximum fee. */
  lemma FilledPartialFrame(op: PartialOp, entryPoint: Option<EntryPoint>, factory: Create2Factory,
                           getNonceFunction: string, op1: PartialOp)
    requires WellTyped(op) && FilledPartial(op, entryPoint, factory, getNonceFunction) == Ok(op1)
    ensures InitCodeStage(op, entryPoint, factory).Ok?
    ensures Keeps(InitCodeStage(op, entryPoint, factory).value, op1)
    ensures forall f :: f !in {Nonce, CallGasLimit, MaxFeePerGas} ==>
      Unchanged(InitCodeStage(op, entryPoint, factory).value, op1, f)
  {
    var s1 := InitCodeStage(op, entryPoint, factory).value;
    var s2 := NonceStep(op, s1, entryPoint, getNonceFunction).value;
    var s3 := CallGasStep(op, s2, entryPoint).value;
    assert op1 == MaxFeeStep(s3, entryPoint).value;
  }

  /** The stages after the initCode branch, one by one. */
  lemma FilledPartialStages(op: PartialOp, entryPoint: Option<EntryPoint>, factory: Create2Factory,
                            getNonceFunction: string, op1: PartialOp)
    requires WellTyped(op) && FilledPartial(op, entryPoint, factory, getNonceFunction) == Ok(op1)
    ensures var s1 := InitCodeStage(op, entryPoint, factory);
      && s1.Ok?
      && var s2 := NonceStep(op, s1.value, entryPoint, getNonceFunction);
      && s2.Ok?
      && var s3 := CallGasStep(op, s2.value, entryPoint);
      && s3.Ok?
      && MaxFeeStep(s3.value, entryPoint) == Ok(op1)
  {
  }

  /** The sender after the initCode branch. */
  lemma InitCodeStageSender(op: PartialOp, entryPoint: Option<EntryPoint>, factory: Create2Factory, s1: PartialOp)
    requires WellTyped(op) && InitCodeStage(op, entryPoint, factory) == Ok(s1)
    ensures Given(op, Sender) ==> s1[Sender] == op[Sender]
    ensures !Given(op, Sender) && !Given(op, InitCode) ==> !Given(s1, Sender)
    ensures !Given(op, Sender) && Given(op, InitCode) ==>
      var initCode := op[InitCode].value.bytes;
      var initCallData := InitCallData(initCode);
      && Given(s1, Sender)
      && if InitAddr(initCode) == factory.contractAddress then
           s1[Sender].value.address == factory.getDeployedAddress(Drop(initCallData, 32), Take(initCallData, 32))
         else
           ProviderOf(entryPoint).Some? && ProviderOf(entryPoint).value.getSenderAddress(initCode) == Some(s1[Sender].value.address)
  {
    if Given(op, InitCode) && !Given(op, Sender) {
      var initCode := op[InitCode].value.bytes;
      var op1 := if Given(op, Nonce) then op else op[Nonce := Some(UintValue(0))];
      var s := SenderStep(op1, initCode, entryPoint, factory).value;
      assert s1 == VerificationGasStep(s, initCode, entryPoint).value;
      assert s1[Sender] == s[Sender];
    }
  }

  /** The nonce, the verification gas and the untouched fields after the initCode branch. */
  lemma InitCodeStageFields(op: PartialOp, entryPoint: Option<EntryPoint>, factory: Create2Factory, s1: PartialOp)
    requires WellTyped(op) && InitCodeStage(op, entryPoint, factory) == Ok(s1)
    ensures Given(op, InitCode) ==> Given(s1, Nonce) && Given(s1, VerificationGasLimit)
    ensures Given(op, InitCode) && !Given(op, Nonce) ==> s1[Nonce] == Some(UintValue(0))
    ensures Given(op, InitCode) && !Given(op, VerificationGasLimit) ==>
      && ProviderOf(entryPoint).Some?
      && var estimate := ProviderOf(entryPoint).value.estimateGas(DeploymentRequest(entryPoint, op[InitCode].value.bytes));
      && estimate.Some?
      && s1[VerificationGasLimit] == Some(UintValue(DEFAULT_VERIFICATION_GAS_LIMIT + estimate.value))
    ensures !Given(op, InitCode) ==> s1 == op
  {
    if Given(op, InitCode) {
      var initCode := op[InitCode].value.bytes;
      var op1 := if Given(op, Nonce) then op else op[Nonce := Some(UintValue(0))];
      var s := SenderStep(op1, initCode, entryPoint, factory).value;
      assert s1 == VerificationGasStep(s, initCode, entryPoint).value;
      assert Unchanged(op1, s, Nonce) && Unchanged(s, s1, Nonce);
    }
  }

  /** The sender: the caller's, else the known deployer's address, else the entry point's answer, else zero. */
  lemma SenderRule(op: PartialOp, entryPoint: Option<EntryPoint>, factory: Create2Factory, getNonceFunction: string,
                     op1: PartialOp)
    requires WellTyped(op) && FilledPartial(op, entryPoint, factory, getNonceFunction) == Ok(op1)
    ensures Given(op, Sender) ==> Merged(op1).sender == op[Sender].value.address
    ensures !Given(op, Sender) && Given(op, InitCode) ==>
      var initCode := op[InitCode].value.bytes;
      var initCallData := InitCallData(initCode);
      if InitAddr(initCode) == factory.contractAddress then
        Merged(op1).sender == factory.getDeployedAddress(Drop(initCallData, 32), Take(initCallData, 32))
      else
        ProviderOf(entryPoint).Some? && ProviderOf(entryPoint).value.getSenderAddress(initCode) == Some(Merged(op1).sender)
    ensures !Given(op, Sender) && !Given(op, InitCode) ==> Merged(op1).sender == ADDRESS_ZERO
  {
    FilledPartialFrame(op, entryPoint, factory, getNonceFunction, op1);
    var s1 := InitCodeStage(op, entryPoint, factory).value;
    InitCodeStageSender(op, entryPoint, factory, s1);
    assert Unchanged(s1, op1, Sender);
    assert Unchanged(op1, PriorityStep(op1), Sender);
    assert FieldValue(Merged(op1), Sender) == Pick(PriorityStep(op1), Sender, DefaultsForUserOp);
  }

  /** With neither nonce, initCode nor sender, the nonce getter has no account to call, so fillUserOp throws. */
  lemma NonceNeedsSender(op: PartialOp, entryPoint: Option<EntryPoint>, factory: Create2Factory, getNonceFunction: string)
    requires WellTyped(op) && ProviderOf(entryPoint).Some?
    requires !Given(op, Nonce) && !Given(op, InitCode) && !Given(op, Sender)
    ensures FilledPartial(op, entryPoint, factory, getNonceFunction) == Err(CallFailed)
    ensures FillPolicy(op, entryPoint, factory, getNonceFunction) == Err(CallFailed)
  {
    assert InitCodeStage(op, entryPoint, factory) == Ok(op);
  }

  /** The nonce: the caller's, else 0 with initCode, else the account's on-chain nonce. */
  lemma NonceRule(op: PartialOp, entryPoint: Option<EntryPoint>, factory: Create2Factory, getNonceFunction: string,
                    op1: PartialOp)
    requires WellTyped(op) && FilledPartial(op, entryPoint, factory, getNonceFunction) == Ok(op1)
    ensures Given(op, Nonce) ==> Merged(op1).nonce == op[Nonce].value.number
    ensures !Given(op, Nonce) && Given(op, InitCode) ==> Merged(op1).nonce == 0
    ensures !Given(op, Nonce) && !Given(op, InitCode) ==>
      && ProviderOf(entryPoint).Some?
      && Given(op, Sender)
      && ProviderOf(entryPoint).value.getNonce(op[Sender].value.address, getNonceFunction) == Some(Merged(op1).nonce)
  {
    FilledPartialStages(op, entryPoint, factory, getNonceFunction, op1);
    var s1 := InitCodeStage(op, entryPoint, factory).value;
    InitCodeStageFields(op, entryPoint, factory, s1);
    var s2 := NonceStep(op, s1, entryPoint, getNonceFunction).value;
    var s3 := CallGasStep(op, s2, entryPoint).value;
    assert Unchanged(s2, s3, Nonce) && Unchanged(s3, op1, Nonce) && Unchanged(op1, PriorityStep(op1), Nonce);
    assert FieldValue(Merged(op1), Nonce) == Pick(PriorityStep(op1), Nonce, DefaultsForUserOp);
  }

  /** The verification gas: the caller's, else 150000 plus the deployment estimate with initCode, else 150000. */
  lemma VerificationGasRule(op: PartialOp, entryPoint: Option<EntryPoint>, factory: Create2Factory,
                              getNonceFunction: string, op1: PartialOp)
    requires WellTyped(op) && FilledPartial(op, entryPoint, factory, getNonceFunction) == Ok(op1)
    ensures Given(op, VerificationGasLimit) ==> Merged(op1).verificationGasLimit == op[VerificationGasLimit].value.number
    ensures !Given(op, VerificationGasLimit) && Given(op, InitCode) ==>
      && ProviderOf(entryPoint).Some?
      && var estimate := ProviderOf(entryPoint).value.estimateGas(DeploymentRequest(entryPoint, op[InitCode].value.bytes));
      && estimate.Some?
      && Merged(op1).verificationGasLimit == DEFAULT_VERIFICATION_GAS_LIMIT + estimate.value
    ensures !Given(op, VerificationGasLimit) && !Given(op, InitCode) ==>
      Merged(op1).verificationGasLimit == DEFAULT_VERIFICATION_GAS_LIMIT
  {
    FilledPartialFrame(op, entryPoint, factory, getNonceFunction, op1);
    var s1 := InitCodeStage(op, entryPoint, factory).value;
    InitCodeStageFields(op, entryPoint, factory, s1);
    assert Unchanged(s1, op1, VerificationGasLimit) && Unchanged(op1, PriorityStep(op1), VerificationGasLimit);
    assert FieldValue(Merged(op1), VerificationGasLimit) == Pick(PriorityStep(op1), VerificationGasLimit, DefaultsForUserOp);
  }

  /** The call gas block on its own: it asks for an estimate exactly when callData is given and the call gas is not. */
  lemma CallGasStepRule(op: PartialOp, s2: PartialOp, entryPoint: Option<EntryPoint>, s3: PartialOp)
    requires WellTyped(op) && WellTyped(s2) && Keeps(op, s2) && Unchanged(op, s2, CallGasLimit)
    requires CallGasStep(op, s2, entryPoint) == Ok(s3)
    ensures Given(op, CallGasLimit) ==> s3[CallGasLimit] == op[CallGasLimit]
    ensures !Given(op, CallGasLimit) && Given(op, CallData) ==>
      && Given(s3, CallGasLimit)
      && ProviderOf(entryPoint).Some?
      && ProviderOf(entryPoint).value.estimateGas(CallRequest(entryPoint, SenderOf(s2), op[CallData].value.bytes))
         == Some(s3[CallGasLimit].value.number)
    ensures !Given(op, CallGasLimit) && !Given(op, CallData) ==> !Given(s3, CallGasLimit)
  {
  }

  /** The call gas: the caller's, else the estimate of the account call when callData is given, else 0. */
  lemma CallGasRule(op: PartialOp, entryPoint: Option<EntryPoint>, factory: Create2Factory,
                    getNonceFunction: string, op1: PartialOp)
    requires WellTyped(op) && FilledPartial(op, entryPoint, factory, getNonceFunction) == Ok(op1)
    ensures Given(op, CallGasLimit) ==> Merged(op1).callGasLimit == op[CallGasLimit].value.number
    ensures !Given(op, CallGasLimit) && Given(op, CallData) ==>
      var m := Merged(op1);
      var sender := if Given(op, Sender) || Given(op, InitCode) then Some(m.sender) else None;
      && ProviderOf(entryPoint).Some?
      && ProviderOf(entryPoint).value.estimateGas(CallRequest(entryPoint, sender, m.callData)) == Some(m.callGasLimit)
    ensures !Given(op, CallGasLimit) && !Given(op, CallData) ==> Merged(op1).callGasLimit == 0
  {
    FilledPartialStages(op, entryPoint, factory, getNonceFunction, op1);
    var s1 := InitCodeStage(op, entryPoint, factory).value;
    InitCodeStageSender(op, entryPoint, factory, s1);
    var s2 := NonceStep(op, s1, entryPoint, getNonceFunction).value;
    var s3 := CallGasStep(op, s2, entryPoint).value;
    assert Unchanged(op, s1, CallGasLimit) && Unchanged(s1, s2, CallGasLimit);
    assert Keeps(op, s2);
    CallGasStepRule(op, s2, entryPoint, s3);
    var m := Merged(op1);
    assert Unchanged(s1, s2, Sender) && Unchanged(s2, s3, Sender) && Unchanged(s3, op1, Sender);
    assert Unchanged(s3, op1, CallGasLimit);
    assert Unchanged(op1, PriorityStep(op1), Sender) && Unchanged(op1, PriorityStep(op1), CallGasLimit);
    assert FieldValue(m, CallGasLimit) == Pick(PriorityStep(op1), CallGasLimit, DefaultsForUserOp);
    assert FieldValue(m, Sender) == Pick(PriorityStep(op1), Sender, DefaultsForUserOp);
    UntouchedFieldsRule(op, entryPoint, factory, getNonceFunction, op1, CallData);
  }

  /** The fees: a missing maximum fee is the latest base fee plus the priority fee, and a missing priority fee is 1 gwei. */
  lemma FeeRule(op: PartialOp, entryPoint: Option<EntryPoint>, factory: Create2Factory,
                   getNonceFunction: string, op1: PartialOp)
    requires WellTyped(op) && FilledPartial(op, entryPoint, factory, getNonceFunction) == Ok(op1)
    ensures Given(op, MaxFeePerGas) ==> Merged(op1).maxFeePerGas == op[MaxFeePerGas].value.number
    ensures !Given(op, MaxFeePerGas) ==>
      && ProviderOf(entryPoint).Some?
      && var block := ProviderOf(entryPoint).value.latestBlock;
      && block.Some? && block.value.baseFeePerGas.Some?
      && Merged(op1).maxFeePerGas == block.value.baseFeePerGas.value + Merged(op1).maxPriorityFeePerGas
    ensures Given(op, MaxPriorityFeePerGas) ==> Merged(op1).maxPriorityFeePerGas == op[MaxPriorityFeePerGas].value.number
    ensures !Given(op, MaxPriorityFeePerGas) ==> Merged(op1).maxPriorityFeePerGas == DEFAULT_MAX_PRIORITY_FEE_PER_GAS
  {
    FilledPartialStages(op, entryPoint, factory, getNonceFunction, op1);
    var s1 := InitCodeStage(op, entryPoint, factory).value;
    var s2 := NonceStep(op, s1, entryPoint, getNonceFunction).value;
    var s3 := CallGasStep(op, s2, entryPoint).value;
    assert Unchanged(op, s1, MaxFeePerGas) && Unchanged(s1, s2, MaxFeePerGas) && Unchanged(s2, s3, MaxFeePerGas);
    assert Unchanged(op, s1, MaxPriorityFeePerGas) && Unchanged(s1, s2, MaxPriorityFeePerGas);
    assert Unchanged(s2, s3, MaxPriorityFeePerGas) && Unchanged(s3, op1, MaxPriorityFeePerGas);
    assert Unchanged(op1, PriorityStep(op1), MaxFeePerGas);
    assert FieldValue(Merged(op1), MaxFeePerGas) == Pick(PriorityStep(op1), MaxFeePerGas, DefaultsForUserOp);
    assert FieldValue(Merged(op1), MaxPriorityFeePerGas) == Pick(PriorityStep(op1), MaxPriorityFeePerGas, DefaultsForUserOp);
  }

  /**
   * fillUserOp never fills initCode, callData, preVerificationGas,
   * paymasterAndData or signature itself: they come from the caller or from
   * the defaults.
   */
  lemma UntouchedFieldsRule(op: PartialOp, entryPoint: Option<EntryPoint>, factory: Create2Factory,
                        getNonceFunction: string, op1: PartialOp, f: Field)
    requires WellTyped(op) && FilledPartial(op, entryPoint, factory, getNonceFunction) == Ok(op1)
    requires f in {InitCode, CallData, PreVerificationGas, PaymasterAndData, Signature}
    ensures FieldValue(Merged(op1), f) == Pick(op, f, DefaultsForUserOp)
  {
    FilledPartialFrame(op, entryPoint, factory, getNonceFunction, op1);
    var s1 := InitCodeStage(op, entryPoint, factory).value;
    assert Unchanged(op, s1, f) && Unchanged(s1, op1, f) && Unchanged(op1, PriorityStep(op1), f);
  }

  /** Every value the caller gave is in the merged operation. */
  lemma GivenFieldsKept(op: PartialOp, entryPoint: Option<EntryPoint>, factory: Create2Factory,
                         getNonceFunction: string, op1: PartialOp, f: Field)
    requires WellTyped(op) && FilledPartial(op, entryPoint, factory, getNonceFunction) == Ok(op1)
    requires Given(op, f)
    ensures FieldValue(Merged(op1), f) == op[f].value
  {
    assert Keeps(op1, PriorityStep(op1));
  }

  /** The filled operation, whose only change after the merge is the pricing of a zero pre-verification gas. */
  lemma FillPolicyResult(op: PartialOp, entryPoint: Option<EntryPoint>, factory: Create2Factory,
                         getNonceFunction: string, r: UserOperation)
    requires WellTyped(op) && FillPolicy(op, entryPoint, factory, getNonceFunction) == Ok(r)
    ensures FilledPartial(op, entryPoint, factory, getNonceFunction).Ok?
    ensures var m := Merged(FilledPartial(op, entryPoint, factory, getNonceFunction).value);
      && r == m.(preVerificationGas := r.preVerificationGas)
      && (m.preVerificationGas != 0 ==> r == m)
      && (m.preVerificationGas == 0 ==> GasPackFits(m) && r.preVerificationGas == CallDataCost(PackForGas(m).value).value)
  {
  }

  /** fillUserOp throws exactly when a block throws, or when a zero pre-verification gas cannot be packed. */
  lemma FillPolicyErrors(op: PartialOp, entryPoint: Option<EntryPoint>, factory: Create2Factory, getNonceFunction: string)
    requires WellTyped(op)
    ensures var filled := FilledPartial(op, entryPoint, factory, getNonceFunction);
      var r := FillPolicy(op, entryPoint, factory, getNonceFunction);
      && (filled.Err? ==> r == Err(filled.error))
      && (filled.Ok? ==> (r.Err? <==> Merged(filled.value).preVerificationGas == 0 && !GasPackFits(Merged(filled.value))))
      && (filled.Ok? && r.Err? ==> r.error.Encoding?)
  {
  }

  /** Without an entry point, the fields whose filling needs the provider. */
  predicate NeedsProvider(op: PartialOp, factory: Create2Factory)
    requires WellTyped(op)
  {
    || (Given(op, InitCode) && !Given(op, Sender) && InitAddr(op[InitCode].value.bytes) != factory.contractAddress)
    || (Given(op, InitCode) && !Given(op, VerificationGasLimit))
    || (!Given(op, InitCode) && !Given(op, Nonce))
    || (!Given(op, CallGasLimit) && Given(op, CallData))
    || !Given(op, MaxFeePerGas)
  }

  /**
   * Without an entry point (or one without a provider), filling fails exactly
   * when some field needs the provider, and then with the "must have
   * entryPoint" kind of error.
   */
  lemma NoProviderPartial(op: PartialOp, entryPoint: Option<EntryPoint>, factory: Create2Factory, getNonceFunction: string)
    requires WellTyped(op) && ProviderOf(entryPoint).None?
    ensures var filled := FilledPartial(op, entryPoint, factory, getNonceFunction);
      && (filled.Ok? <==> !NeedsProvider(op, factory))
      && (filled.Err? ==> filled.error.NoProvider?)
  {
  }

  /** With a provider, no block complains about a missing one. */
  lemma ProviderPartial(op: PartialOp, entryPoint: Option<EntryPoint>, factory: Create2Factory, getNonceFunction: string)
    requires WellTyped(op) && ProviderOf(entryPoint).Some?
    ensures var filled := FilledPartial(op, entryPoint, factory, getNonceFunction);
      filled.Err? ==> filled.error.CallFailed? || filled.error.NoBaseFee?
  {
  }

  /**
   * fillUserOp without a provider: it throws a "must have entryPoint" kind of
   * error exactly when some field needs the provider, and otherwise can only
   * fail to encode the operation while pricing a zero pre-verification gas.
   */
  lemma NoProviderRule(op: PartialOp, entryPoint: Option<EntryPoint>, factory: Create2Factory, getNonceFunction: string)
    requires WellTyped(op) && ProviderOf(entryPoint).None?
    ensures var r := FillPolicy(op, entryPoint, factory, getNonceFunction);
      && (r.Err? && r.error.NoProvider? <==> NeedsProvider(op, factory))
      && (r.Err? ==> r.error.NoProvider? || r.error.Encoding?)
  {
    NoProviderPartial(op, entryPoint, factory, getNonceFunction);
    FillPolicyErrors(op, entryPoint, factory, getNonceFunction);
  }

  /** fillUserOp with a provider fails only through a rejected call, a block without base fee, or encoding. */
  lemma ProviderRule(op: PartialOp, entryPoint: Option<EntryPoint>, factory: Create2Factory, getNonceFunction: string)
    requires WellTyped(op) && ProviderOf(entryPoint).Some?
    ensures var r := FillPolicy(op, entryPoint, factory, getNonceFunction);
      r.Err? ==> r.error.CallFailed? || r.error.NoBaseFee? || r.error.Encoding?
  {
    ProviderPartial(op, entryPoint, factory, getNonceFunction);
    FillPolicyErrors(op, entryPoint, factory, getNonceFunction);
  }

  /**
   * Every field the caller gave is in fillUserOp's result unchanged, except a
   * given pre-verification gas of 0, which is priced.
   */
  lemma FilledFieldsKept(op: PartialOp, entryPoint: Option<EntryPoint>, factory: Create2Factory,
                         getNonceFunction: string, r: UserOperation, f: Field)
    requires WellTyped(op) && FillPolicy(op, entryPoint, factory, getNonceFunction) == Ok(r)
    requires Given(op, f) && (f == PreVerificationGas ==> op[f].value != UintValue(0))
    ensures FieldValue(r, f) == op[f].value
  {
    FillPolicyResult(op, entryPoint, factory, getNonceFunction, r);
    var op1 := FilledPartial(op, entryPoint, factory, getNonceFunction).value;
    GivenFieldsKept(op, entryPoint, factory, getNonceFunction, op1, f);
    OnlyPvgChanged(Merged(op1), r, f);
  }

  /** An operation that differs from `m` at most in its pre-verification gas agrees with it elsewhere. */
  lemma OnlyPvgChanged(m: UserOperation, r: UserOperation, f: Field)
    requires r == m.(preVerificationGas := r.preVerificationGas)
    requires f == PreVerificationGas ==> m.preVerificationGas != 0 ==> r == m
    ensures f != PreVerificationGas || m.preVerificationGas != 0 ==> FieldValue(r, f) == FieldValue(m, f)
  {
  }

  /** Both packings accept the defaults, so an operation filled only from them can be hashed and priced. */
  lemma DefaultsFit()
    ensures UintFieldsFit(DefaultsForUserOp) && GasPackFits(DefaultsForUserOp)
    ensures WithDefaults(map[], DefaultsForUserOp) == DefaultsForUserOp
  {
    WithDefaultsOfEmpty(DefaultsForUserOp);
  }
}
