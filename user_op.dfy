/**
 * The user-operation codec of test/UserOp.ts: the operation record and its
 * defaults, the two ABI packings (`packUserOp`), the two-level ERC-4337
 * operation hash (`getUserOpHash`), the calldata gas rule (`callDataCost`)
 * and the slicing of `initCode` into factory address and factory calldata.
 */
module UserOp {
  import opened Wrappers
  import opened Bytes
  import opened Abi

  datatype UserOperation = UserOperation(
    sender: Address,
    nonce: nat,
    initCode: seq<Byte>,
    callData: seq<Byte>,
    callGasLimit: nat,
    verificationGasLimit: nat,
    preVerificationGas: nat,
    maxFeePerGas: nat,
    maxPriorityFeePerGas: nat,
    paymasterAndData: seq<Byte>,
    signature: seq<Byte>)

  const ADDRESS_ZERO: Address := Zeros(20)

  /** The verification gas budget an operation gets when it names none. */
  const DEFAULT_VERIFICATION_GAS_LIMIT: nat := 150000
  /** The pre-verification gas an operation gets when it names none. */
  const DEFAULT_PRE_VERIFICATION_GAS: nat := 21000
  /** 1 gwei, the priority fee an operation gets when it names none. */
  const DEFAULT_MAX_PRIORITY_FEE_PER_GAS: nat := 1_000_000_000

  /** DefaultsForUserOp: every byte field empty, every number zero except the three above. */
  const DefaultsForUserOp: UserOperation := UserOperation(
    sender := ADDRESS_ZERO,
    nonce := 0,
    initCode := [],
    callData := [],
    callGasLimit := 0,
    verificationGasLimit := DEFAULT_VERIFICATION_GAS_LIMIT,
    preVerificationGas := DEFAULT_PRE_VERIFICATION_GAS,
    maxFeePerGas := 0,
    maxPriorityFeePerGas := DEFAULT_MAX_PRIORITY_FEE_PER_GAS,
    paymasterAndData := [],
    signature := [])

  /** ethers' ABI coder throws when a `uint256` argument is 2^256 or more. */
  datatype EncodingError = ValueOutOfRange

  /** Every numeric field is a valid `uint256`. */
  predicate UintFieldsFit(op: UserOperation) {
    && FitsUint256(op.nonce)
    && FitsUint256(op.callGasLimit)
    && FitsUint256(op.verificationGasLimit)
    && FitsUint256(op.preVerificationGas)
    && FitsUint256(op.maxFeePerGas)
    && FitsUint256(op.maxPriorityFeePerGas)
  }

  // ---------------------------------------------------------------------------
  // packUserOp(op, true): ten static words, variable-length fields by their keccak

  function SignatureWords(op: UserOperation, keccak: Keccak): (ws: seq<Bytes32>)
    requires UintFieldsFit(op)
    ensures |ws| == 10
  {
    [ EncodeAddress(op.sender),
      EncodeUint(op.nonce),
      keccak(op.initCode),
      keccak(op.callData),
      EncodeUint(op.callGasLimit),
      EncodeUint(op.verificationGasLimit),
      EncodeUint(op.preVerificationGas),
      EncodeUint(op.maxFeePerGas),
      EncodeUint(op.maxPriorityFeePerGas),
      keccak(op.paymasterAndData) ]
  }

  /** packUserOp(op, true): the encoding that is hashed and signed. */
  function PackForSignature(op: UserOperation, keccak: Keccak): (r: Result<seq<Byte>, EncodingError>)
    ensures r.Ok? <==> UintFieldsFit(op)
    ensures r.Ok? ==> |r.value| == 320
  {
    if UintFieldsFit(op) then Ok(Flatten(SignatureWords(op, keccak))) else Err(ValueOutOfRange)
  }

  /** What the signature packing commits to. */
  datatype SignedFields = SignedFields(
    sender: Address,
    nonce: nat,
    initCodeHash: Bytes32,
    callDataHash: Bytes32,
    callGasLimit: nat,
    verificationGasLimit: nat,
    preVerificationGas: nat,
    maxFeePerGas: nat,
    maxPriorityFeePerGas: nat,
    paymasterAndDataHash: Bytes32)

  function SignedFieldsOf(op: UserOperation, keccak: Keccak): SignedFields {
    SignedFields(op.sender, op.nonce, keccak(op.initCode), keccak(op.callData),
                 op.callGasLimit, op.verificationGasLimit, op.preVerificationGas,
                 op.maxFeePerGas, op.maxPriorityFeePerGas, keccak(op.paymasterAndData))
  }

  /** ABI-decoding of (address, uint256, bytes32, bytes32, uint256 x5, bytes32); like ethers, bytes after the ten words are ignored. */
  function DecodeSignaturePack(p: seq<Byte>): Option<SignedFields> {
    var sender :- ReadAddress(p, 0);
    var nonce :- ReadUint(p, 32);
    var initCodeHash :- ReadWord(p, 64);
    var callDataHash :- ReadWord(p, 96);
    var callGasLimit :- ReadUint(p, 128);
    var verificationGasLimit :- ReadUint(p, 160);
    var preVerificationGas :- ReadUint(p, 192);
    var maxFeePerGas :- ReadUint(p, 224);
    var maxPriorityFeePerGas :- ReadUint(p, 256);
    var paymasterAndDataHash :- ReadWord(p, 288);
    Some(SignedFields(sender, nonce, initCodeHash, callDataHash, callGasLimit,
                      verificationGasLimit, preVerificationGas, maxFeePerGas,
                      maxPriorityFeePerGas, paymasterAndDataHash))
  }

  /** Bytes after the ten words do not change what the signing pack decodes to. */
  lemma DecodeSignaturePackPrefix(p: seq<Byte>, extra: seq<Byte>)
    requires |p| >= 320
    ensures DecodeSignaturePack(p + extra) == DecodeSignaturePack(p)
  {
    StaticReadsIgnoreTrailing(p, extra, 0);
    StaticReadsIgnoreTrailing(p, extra, 32);
    StaticReadsIgnoreTrailing(p, extra, 64);
    StaticReadsIgnoreTrailing(p, extra, 96);
    StaticReadsIgnoreTrailing(p, extra, 128);
    StaticReadsIgnoreTrailing(p, extra, 160);
    StaticReadsIgnoreTrailing(p, extra, 192);
    StaticReadsIgnoreTrailing(p, extra, 224);
    StaticReadsIgnoreTrailing(p, extra, 256);
    StaticReadsIgnoreTrailing(p, extra, 288);
  }

  /** The ten words are, in order, the sender, the nonce, the three digests and the five gas fields. */
  lemma SignaturePackRoundTrip(op: UserOperation, keccak: Keccak)
    requires UintFieldsFit(op)
    ensures DecodeSignaturePack(PackForSignature(op, keccak).value) == Some(SignedFieldsOf(op, keccak))
  {
    var ws := SignatureWords(op, keccak);
    var p := Flatten(ws);
    forall i | 0 <= i < 10
      ensures p[32 * i..32 * i + 32] == ws[i]
    {
      FlattenWord(ws, i);
    }
    assert p[0..32] == ws[0];
    ReadAddressOfEncoded(p, 0, op.sender);
    assert p[32..64] == ws[1];
    ReadUintOfEncoded(p, 32, op.nonce);
    assert p[64..96] == ws[2];
    assert p[96..128] == ws[3];
    assert p[128..160] == ws[4];
    ReadUintOfEncoded(p, 128, op.callGasLimit);
    assert p[160..192] == ws[5];
    ReadUintOfEncoded(p, 160, op.verificationGasLimit);
    assert p[192..224] == ws[6];
    ReadUintOfEncoded(p, 192, op.preVerificationGas);
    assert p[224..256] == ws[7];
    ReadUintOfEncoded(p, 224, op.maxFeePerGas);
    assert p[256..288] == ws[8];
    ReadUintOfEncoded(p, 256, op.maxPriorityFeePerGas);
    assert p[288..320] == ws[9];
  }

  /** Two operations with the same signature packing agree on every signed field and digest. */
  lemma SignaturePackInjective(a: UserOperation, b: UserOperation, keccak: Keccak)
    requires UintFieldsFit(a) && UintFieldsFit(b)
    requires PackForSignature(a, keccak) == PackForSignature(b, keccak)
    ensures SignedFieldsOf(a, keccak) == SignedFieldsOf(b, keccak)
  {
    SignaturePackRoundTrip(a, keccak);
    SignaturePackRoundTrip(b, keccak);
  }

  /** The signature field is not part of the signed packing. */
  lemma PackForSignatureIgnoresSignature(op: UserOperation, signature: seq<Byte>, keccak: Keccak)
    ensures PackForSignature(op.(signature := signature), keccak) == PackForSignature(op, keccak)
  {
  }

  // ---------------------------------------------------------------------------
  // packUserOp(op, false): an 11-word head and four dynamic tails

  /** The size of the tail of a dynamic `bytes` value. */
  function TailLength(b: seq<Byte>): nat {
    32 + Ceil32(|b|)
  }

  /** 11 head words and the tails of initCode, callData, paymasterAndData and signature. */
  function GasPackLength(op: UserOperation): nat {
    352 + TailLength(op.initCode) + TailLength(op.callData)
        + TailLength(op.paymasterAndData) + TailLength(op.signature)
  }

  /**
   * Every numeric field is a valid `uint256`, and so is the total length of
   * the gas packing. Each length and each offset is at most that total, so
   * they fit too.
   */
  predicate GasPackFits(op: UserOperation) {
    UintFieldsFit(op) && FitsUint256(GasPackLength(op))
  }

  /** Offsets, relative to the start of the encoding, of the four tails. */
  function InitCodeOffset(op: UserOperation): nat { 352 }
  function CallDataOffset(op: UserOperation): nat { 352 + TailLength(op.initCode) }
  function PaymasterAndDataOffset(op: UserOperation): nat { CallDataOffset(op) + TailLength(op.callData) }
  function SignatureOffset(op: UserOperation): nat { PaymasterAndDataOffset(op) + TailLength(op.paymasterAndData) }

  function GasHeadWords(op: UserOperation): (ws: seq<Bytes32>)
    requires GasPackFits(op)
    ensures |ws| == 11
  {
    [ EncodeAddress(op.sender),
      EncodeUint(op.nonce),
      EncodeUint(InitCodeOffset(op)),
      EncodeUint(CallDataOffset(op)),
      EncodeUint(op.callGasLimit),
      EncodeUint(op.verificationGasLimit),
      EncodeUint(op.preVerificationGas),
      EncodeUint(op.maxFeePerGas),
      EncodeUint(op.maxPriorityFeePerGas),
      EncodeUint(PaymasterAndDataOffset(op)),
      EncodeUint(SignatureOffset(op)) ]
  }

  /** packUserOp(op, false): the encoding whose calldata cost prices pre-verification gas. */
  function PackForGas(op: UserOperation): (r: Result<seq<Byte>, EncodingError>)
    ensures r.Ok? <==> GasPackFits(op)
    ensures r.Ok? ==> |r.value| == GasPackLength(op)
  {
    if GasPackFits(op) then
      Ok(Flatten(GasHeadWords(op)) + EncodeBytes(op.initCode) + EncodeBytes(op.callData)
         + EncodeBytes(op.paymasterAndData) + EncodeBytes(op.signature))
    else Err(ValueOutOfRange)
  }

  /** ABI-decoding of (address, uint256, bytes, bytes, uint256 x5, bytes, bytes). */
  function DecodeGasPack(p: seq<Byte>): Option<UserOperation> {
    var sender :- ReadAddress(p, 0);
    var nonce :- ReadUint(p, 32);
    var initCode :- ReadBytes(p, 64);
    var callData :- ReadBytes(p, 96);
    var callGasLimit :- ReadUint(p, 128);
    var verificationGasLimit :- ReadUint(p, 160);
    var preVerificationGas :- ReadUint(p, 192);
    var maxFeePerGas :- ReadUint(p, 224);
    var maxPriorityFeePerGas :- ReadUint(p, 256);
    var paymasterAndData :- ReadBytes(p, 288);
    var signature :- ReadBytes(p, 320);
    Some(UserOperation(sender, nonce, initCode, callData, callGasLimit, verificationGasLimit,
                       preVerificationGas, maxFeePerGas, maxPriorityFeePerGas, paymasterAndData,
                       signature))
  }

  lemma TailAt(p: seq<Byte>, pre: seq<Byte>, t: seq<Byte>, post: seq<Byte>)
    requires p == pre + t + post
    ensures p[|pre|..|pre| + |t|] == t
  {
  }

  /** The `i`-th head word of the gas packing. */
  lemma GasPackHeadWord(op: UserOperation, i: nat)
    requires GasPackFits(op) && i < 11
    ensures PackForGas(op).value[32 * i..32 * i + 32] == GasHeadWords(op)[i]
  {
    HeadWordAt(PackForGas(op).value, GasHeadWords(op), EncodeBytes(op.initCode), EncodeBytes(op.callData),
               EncodeBytes(op.paymasterAndData), EncodeBytes(op.signature), i);
  }

  /** The `i`-th word of flattened head words, followed by four tails, is the `i`-th word. */
  lemma HeadWordAt(p: seq<Byte>, ws: seq<Bytes32>, t1: seq<Byte>, t2: seq<Byte>, t3: seq<Byte>, t4: seq<Byte>, i: nat)
    requires p == Flatten(ws) + t1 + t2 + t3 + t4 && i < |ws|
    ensures p[32 * i..32 * i + 32] == ws[i]
  {
    var head := Flatten(ws);
    FlattenWord(ws, i);
    FiveParts(p, head, t1, t2, t3, t4);
    SliceOfSlice(p, 0, head, 32 * i, 32 * i + 32);
  }

  /** Where each part of a five-part concatenation lies. */
  lemma FiveParts(p: seq<Byte>, head: seq<Byte>, t1: seq<Byte>, t2: seq<Byte>, t3: seq<Byte>, t4: seq<Byte>)
    requires p == head + t1 + t2 + t3 + t4
    ensures p[..|head|] == head
    ensures p[|head|..|head| + |t1|] == t1
    ensures p[|head| + |t1|..|head| + |t1| + |t2|] == t2
    ensures p[|head| + |t1| + |t2|..|head| + |t1| + |t2| + |t3|] == t3
    ensures p[|head| + |t1| + |t2| + |t3|..] == t4
  {
    TailAt(p, [], head, t1 + t2 + t3 + t4);
    TailAt(p, head, t1, t2 + t3 + t4);
    TailAt(p, head + t1, t2, t3 + t4);
    TailAt(p, head + t1 + t2, t3, t4);
  }

  /** Where the four tails of a head-and-tails concatenation lie, given their running offsets. */
  lemma FourTails(p: seq<Byte>, head: seq<Byte>, t1: seq<Byte>, t2: seq<Byte>, t3: seq<Byte>, t4: seq<Byte>,
                  o1: nat, o2: nat, o3: nat, o4: nat)
    requires p == head + t1 + t2 + t3 + t4
    requires o1 == |head| && o2 == o1 + |t1| && o3 == o2 + |t2| && o4 == o3 + |t3|
    ensures p[o1..o1 + |t1|] == t1 && p[o2..o2 + |t2|] == t2
    ensures p[o3..o3 + |t3|] == t3 && p[o4..o4 + |t4|] == t4
  {
    FiveParts(p, head, t1, t2, t3, t4);
  }

  /**
   * The layout of the gas packing as the decoder sees it: the sender, the
   * numeric fields and the four tail offsets in the head words, and each tail
   * at its offset.
   */
  predicate GasLayout(p: seq<Byte>, op: UserOperation)
    requires GasPackFits(op)
  {
    && |p| == GasPackLength(op)
    && WordAt(p, 0, EncodeAddress(op.sender))
    && WordAt(p, 32, EncodeUint(op.nonce))
    && DynamicAt(p, 64, InitCodeOffset(op), op.initCode)
    && DynamicAt(p, 96, CallDataOffset(op), op.callData)
    && WordAt(p, 128, EncodeUint(op.callGasLimit))
    && WordAt(p, 160, EncodeUint(op.verificationGasLimit))
    && WordAt(p, 192, EncodeUint(op.preVerificationGas))
    && WordAt(p, 224, EncodeUint(op.maxFeePerGas))
    && WordAt(p, 256, EncodeUint(op.maxPriorityFeePerGas))
    && DynamicAt(p, 288, PaymasterAndDataOffset(op), op.paymasterAndData)
    && DynamicAt(p, 320, SignatureOffset(op), op.signature)
  }

  /** The first six head words of the gas packing. */
  lemma GasPackHeadLow(op: UserOperation)
    requires GasPackFits(op)
    ensures var p := PackForGas(op).value;
      && p[0..32] == EncodeAddress(op.sender)
      && p[32..64] == EncodeUint(op.nonce)
      && p[64..96] == EncodeUint(InitCodeOffset(op))
      && p[96..128] == EncodeUint(CallDataOffset(op))
      && p[128..160] == EncodeUint(op.callGasLimit)
      && p[160..192] == EncodeUint(op.verificationGasLimit)
  {
    GasPackHeadWord(op, 0);
    GasPackHeadWord(op, 1);
    GasPackHeadWord(op, 2);
    GasPackHeadWord(op, 3);
    GasPackHeadWord(op, 4);
    GasPackHeadWord(op, 5);
  }

  /** The last five head words of the gas packing. */
  lemma GasPackHeadHigh(op: UserOperation)
    requires GasPackFits(op)
    ensures var p := PackForGas(op).value;
      && p[192..224] == EncodeUint(op.preVerificationGas)
      && p[224..256] == EncodeUint(op.maxFeePerGas)
      && p[256..288] == EncodeUint(op.maxPriorityFeePerGas)
      && p[288..320] == EncodeUint(PaymasterAndDataOffset(op))
      && p[320..352] == EncodeUint(SignatureOffset(op))
  {
    GasPackHeadWord(op, 6);
    GasPackHeadWord(op, 7);
    GasPackHeadWord(op, 8);
    GasPackHeadWord(op, 9);
    GasPackHeadWord(op, 10);
  }

  /** Each tail of the gas packing sits at the offset its head word names. */
  lemma GasPackTails(op: UserOperation)
    requires GasPackFits(op)
    ensures var p := PackForGas(op).value;
      && p[InitCodeOffset(op)..InitCodeOffset(op) + TailLength(op.initCode)] == EncodeBytes(op.initCode)
      && p[CallDataOffset(op)..CallDataOffset(op) + TailLength(op.callData)] == EncodeBytes(op.callData)
      && p[PaymasterAndDataOffset(op)..PaymasterAndDataOffset(op) + TailLength(op.paymasterAndData)]
         == EncodeBytes(op.paymasterAndData)
      && p[SignatureOffset(op)..SignatureOffset(op) + TailLength(op.signature)] == EncodeBytes(op.signature)
  {
    var head := Flatten(GasHeadWords(op));
    FourTails(PackForGas(op).value, head, EncodeBytes(op.initCode), EncodeBytes(op.callData),
              EncodeBytes(op.paymasterAndData), EncodeBytes(op.signature),
              InitCodeOffset(op), CallDataOffset(op), PaymasterAndDataOffset(op), SignatureOffset(op));
  }

  /** The gas packing has the layout the decoder expects. */
  lemma GasPackLayout(op: UserOperation)
    requires GasPackFits(op)
    ensures GasLayout(PackForGas(op).value, op)
  {
    GasPackHeadLow(op);
    GasPackHeadHigh(op);
    GasPackTails(op);
  }

  /** The decoder reads back every field of an operation from a buffer with its layout. */
  lemma DecodeGasLayout(p: seq<Byte>, op: UserOperation)
    requires GasPackFits(op) && GasPackLength(op) < SAFE_NUMBER_BOUND
    requires GasLayout(p, op)
    ensures DecodeGasPack(p) == Some(op)
  {
    ReadAddressOfEncoded(p, 0, op.sender);
    ReadUintOfEncoded(p, 32, op.nonce);
    ReadUintOfEncoded(p, 128, op.callGasLimit);
    ReadUintOfEncoded(p, 160, op.verificationGasLimit);
    ReadUintOfEncoded(p, 192, op.preVerificationGas);
    ReadUintOfEncoded(p, 224, op.maxFeePerGas);
    ReadUintOfEncoded(p, 256, op.maxPriorityFeePerGas);
    GasLayoutTails(p, op);
    DecodeGasPackOfReads(p, op);
  }

  /** The four offset words of a buffer with the gas layout lead to the dynamic fields. */
  lemma GasLayoutTails(p: seq<Byte>, op: UserOperation)
    requires GasPackFits(op) && GasPackLength(op) < SAFE_NUMBER_BOUND
    requires GasLayout(p, op)
    ensures ReadBytes(p, 64) == Some(op.initCode) && ReadBytes(p, 96) == Some(op.callData)
    ensures ReadBytes(p, 288) == Some(op.paymasterAndData) && ReadBytes(p, 320) == Some(op.signature)
  {
    ReadBytesOfEncoded(p, 64, InitCodeOffset(op), op.initCode);
    ReadBytesOfEncoded(p, 96, CallDataOffset(op), op.callData);
    ReadBytesOfEncoded(p, 288, PaymasterAndDataOffset(op), op.paymasterAndData);
    ReadBytesOfEncoded(p, 320, SignatureOffset(op), op.signature);
  }

  /** The decoder assembles the operation from its eleven reads. */
  lemma DecodeGasPackOfReads(p: seq<Byte>, op: UserOperation)
    requires ReadAddress(p, 0) == Some(op.sender) && ReadUint(p, 32) == Some(op.nonce)
    requires ReadBytes(p, 64) == Some(op.initCode) && ReadBytes(p, 96) == Some(op.callData)
    requires ReadUint(p, 128) == Some(op.callGasLimit) && ReadUint(p, 160) == Some(op.verificationGasLimit)
    requires ReadUint(p, 192) == Some(op.preVerificationGas) && ReadUint(p, 224) == Some(op.maxFeePerGas)
    requires ReadUint(p, 256) == Some(op.maxPriorityFeePerGas)
    requires ReadBytes(p, 288) == Some(op.paymasterAndData) && ReadBytes(p, 320) == Some(op.signature)
    ensures DecodeGasPack(p) == Some(op)
  {
  }

  /**
   * The gas packing loses nothing: decoding it gives back the whole
   * operation, the signature included (for encodings shorter than 2^53 bytes,
   * beyond which ethers cannot read offsets).
   */
  lemma GasPackRoundTrip(op: UserOperation)
    requires GasPackFits(op) && GasPackLength(op) < SAFE_NUMBER_BOUND
    ensures DecodeGasPack(PackForGas(op).value) == Some(op)
  {
    GasPackLayout(op);
    DecodeGasLayout(PackForGas(op).value, op);
  }

  // ---------------------------------------------------------------------------
  // getUserOpHash

  /** The ABI encoding of (bytes32 packHash, address entryPoint, uint256 chainId). */
  function UserOpHashPreimage(packHash: Bytes32, entryPoint: Address, chainId: nat): (e: seq<Byte>)
    requires FitsUint256(chainId)
    ensures |e| == 96
  {
    Flatten([packHash, EncodeAddress(entryPoint), EncodeUint(chainId)])
  }

  /** keccak(abi(keccak(packUserOp(op, true)), entryPoint, chainId)). */
  function GetUserOpHash(op: UserOperation, entryPoint: Address, chainId: nat, keccak: Keccak)
    : (r: Result<Bytes32, EncodingError>)
    ensures r.Ok? <==> UintFieldsFit(op) && FitsUint256(chainId)
  {
    var pack :- PackForSignature(op, keccak);
    if FitsUint256(chainId) then Ok(keccak(UserOpHashPreimage(keccak(pack), entryPoint, chainId)))
    else Err(ValueOutOfRange)
  }

  /** The hash preimage reads back as the packing digest, the entry point and the chain id. */
  lemma UserOpHashPreimageLayout(packHash: Bytes32, entryPoint: Address, chainId: nat)
    requires FitsUint256(chainId)
    ensures ReadWord(UserOpHashPreimage(packHash, entryPoint, chainId), 0) == Some(packHash)
    ensures ReadAddress(UserOpHashPreimage(packHash, entryPoint, chainId), 32) == Some(entryPoint)
    ensures ReadUint(UserOpHashPreimage(packHash, entryPoint, chainId), 64) == Some(chainId)
  {
    var ws := [packHash, EncodeAddress(entryPoint), EncodeUint(chainId)];
    var e := UserOpHashPreimage(packHash, entryPoint, chainId);
    FlattenWord(ws, 0);
    FlattenWord(ws, 1);
    FlattenWord(ws, 2);
    ReadAddressOfEncoded(e, 32, entryPoint);
    ReadUintOfEncoded(e, 64, chainId);
  }

  /**
   * The operation hash binds the operation to one entry point and one chain:
   * equal preimages mean equal packing digests, entry points and chain ids.
   */
  lemma UserOpHashPreimageInjective(h1: Bytes32, e1: Address, c1: nat, h2: Bytes32, e2: Address, c2: nat)
    requires FitsUint256(c1) && FitsUint256(c2)
    requires UserOpHashPreimage(h1, e1, c1) == UserOpHashPreimage(h2, e2, c2)
    ensures h1 == h2 && e1 == e2 && c1 == c2
  {
    UserOpHashPreimageLayout(h1, e1, c1);
    UserOpHashPreimageLayout(h2, e2, c2);
  }

  /** Replacing the signature does not change the operation hash. */
  lemma UserOpHashIgnoresSignature(op: UserOperation, signature: seq<Byte>, entryPoint: Address,
                                   chainId: nat, keccak: Keccak)
    ensures GetUserOpHash(op.(signature := signature), entryPoint, chainId, keccak)
         == GetUserOpHash(op, entryPoint, chainId, keccak)
  {
    PackForSignatureIgnoresSignature(op, signature, keccak);
  }

  // ---------------------------------------------------------------------------
  // callDataCost

  /** 4 gas per zero byte (G_txdatazero), 16 per non-zero byte (EIP-2028). */
  function ByteCost(b: Byte): nat {
    if b == 0 then 4 else 16
  }

  /** `reduce((sum, x) => sum + x)` without an initial value: a left fold that starts from the first element. */
  function Reduce(xs: seq<nat>): nat
    requires |xs| > 0
  {
    if |xs| == 1 then xs[0] else Reduce(xs[..|xs| - 1]) + xs[|xs| - 1]
  }

  /** The per-byte costs, in order (`map` over the bytes). */
  function ByteCosts(data: seq<Byte>): (cs: seq<nat>)
    ensures |cs| == |data|
  {
    if data == [] then [] else ByteCosts(data[..|data| - 1]) + [ByteCost(data[|data| - 1])]
  }

  /** callDataCost: `None` where JavaScript's reduce of an empty array throws. */
  function CallDataCost(data: seq<Byte>): (c: Option<nat>)
    ensures c.Some? <==> data != []
  {
    if data == [] then None else Some(Reduce(ByteCosts(data)))
  }

  /** The number of zero bytes. */
  function ZeroBytes(data: seq<Byte>): nat {
    multiset(data)[0]
  }

  lemma {:induction false} ReduceCosts(data: seq<Byte>)
    requires data != []
    ensures ZeroBytes(data) <= |data|
    ensures Reduce(ByteCosts(data)) == 4 * ZeroBytes(data) + 16 * (|data| - ZeroBytes(data))
  {
    var costs := ByteCosts(data);
    var init := data[..|data| - 1];
    assert data == init + [data[|data| - 1]];
    assert multiset(data) == multiset(init) + multiset{data[|data| - 1]};
    if |data| > 1 {
      ReduceCosts(init);
      assert costs[..|costs| - 1] == ByteCosts(init);
    }
  }

  /** The cost is 4 per zero byte plus 16 per non-zero byte. */
  lemma CallDataCostCounts(data: seq<Byte>)
    requires data != []
    ensures ZeroBytes(data) <= |data|
    ensures CallDataCost(data) == Some(4 * ZeroBytes(data) + 16 * (|data| - ZeroBytes(data)))
  {
    ReduceCosts(data);
  }

  /** The cost lies between 4 and 16 gas per byte. */
  lemma CallDataCostBounds(data: seq<Byte>)
    requires data != []
    ensures 4 * |data| <= CallDataCost(data).value <= 16 * |data|
  {
    CallDataCostCounts(data);
  }

  /** All-zero data costs 4 gas per byte. */
  lemma CallDataCostAllZero(data: seq<Byte>)
    requires data != [] && forall i :: 0 <= i < |data| ==> data[i] == 0
    ensures CallDataCost(data) == Some(4 * |data|)
  {
    CallDataCostCounts(data);
    assert data == Zeros(|data|);
    assert ZeroBytes(data) == |data| by {
      ZerosCount(|data|);
    }
  }

  /** Data without zero bytes costs 16 gas per byte. */
  lemma CallDataCostNoZero(data: seq<Byte>)
    requires data != [] && forall i :: 0 <= i < |data| ==> data[i] != 0
    ensures CallDataCost(data) == Some(16 * |data|)
  {
    CallDataCostCounts(data);
    assert 0 !in data;
  }

  lemma {:induction false} ZerosCount(n: nat)
    ensures multiset(Zeros(n))[0] == n
  {
    if n > 0 {
      assert Zeros(n) == Zeros(n - 1) + [0];
      ZerosCount(n - 1);
    }
  }

  // ---------------------------------------------------------------------------
  // initCode slicing (hexDataSlice(initCode, 0, 20) and hexDataSlice(initCode, 20))

  function Min(a: nat, b: nat): nat { if a <= b then a else b }

  /** hexDataSlice(data, 0, n): the first `n` bytes, or all of them when there are fewer. */
  function Take(data: seq<Byte>, n: nat): (r: seq<Byte>)
    ensures |r| == Min(n, |data|) && r == data[..|r|]
  {
    data[..Min(n, |data|)]
  }

  /** hexDataSlice(data, n): what follows the first `n` bytes, empty when there are fewer. */
  function Drop(data: seq<Byte>, n: nat): (r: seq<Byte>)
    ensures Take(data, n) + r == data
  {
    data[Min(n, |data|)..]
  }

  /** The factory address part of initCode. */
  function InitAddr(initCode: seq<Byte>): seq<Byte> { Take(initCode, 20) }

  /** The factory calldata part of initCode. */
  function InitCallData(initCode: seq<Byte>): seq<Byte> { Drop(initCode, 20) }
}
