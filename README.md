# Client-side user operations of an ERC-4337 account-abstraction toolkit

This project models the test-side toolkit that builds ERC-4337 user operations before they are sent to the entry point. It has two parts.

- `test/UserOp.ts` covers the operation record and its defaults (`DefaultsForUserOp`), and both ABI packings of `packUserOp`:
  - the one for signing, with the dynamic fields hashed;
  - the one for gas pricing, with every field and the signature.

  It also covers the two-level hash `getUserOpHash`, the calldata gas rule `callDataCost`, and the merge of a partial operation over defaults, `fillUserOpDefaults`. Finally it covers `fillUserOp`, which fills the sender, nonce, gas limits and fees from the entry point's provider, and `fillAndSign`.
- `test/testutils.ts` covers the Solidity panic-code names and `decodeRevertReason`, which formats `Error`, `FailedOp` and `Panic` revert data. It also covers the key counter behind `createAccountOwner`/`createAddress`, `getAccountInitCode` and `simulationResultCatch`.

The files are:

| file | module | contents |
|---|---|---|
| `wrappers.dfy` | `Wrappers` | `Option` and `Result` |
| `bytes.dfy` | `Bytes` | bytes, 32-byte words, addresses, big-endian numbers; keccak-256 as a function parameter |
| `abi.dfy` | `Abi` | the static and dynamic parts of the Solidity ABI encoding, and ethers' strict decoder |
| `text.dfy` | `Text` | hexlify/arrayify, decimal text, EIP-55 checksummed addresses |
| `user_op.dfy` | `UserOp` | the operation, its packings, its hash, calldata cost, initCode slicing |
| `user_op_fill.dfy` | `UserOpFill` | partial operations, `fillUserOpDefaults`, `fillUserOp`, `fillAndSign` |
| `test_utils.dfy` | `TestUtils` | the `testutils.ts` helpers listed above |

How the model is built:

- **Partial operations.** A `Partial<UserOperation>` is a dictionary from field to `Option<Value>`. A key can be:
  - absent;
  - present with null or undefined (`None`);
  - present with a value.

  `fillUserOpDefaults` keeps its `for..in` deletion loop as a `while` loop over the key set. It is proved equal to `WithDefaults`, the field-by-field merge.
- **fillUserOp.** Each block of `fillUserOp` is a method that is proved equal to a step function. The steps are composed in `FilledPartial` (everything up to the merge with the defaults) and `FillPolicy` (the whole fill).
- **What filling promises.** One lemma per field states what `fillUserOp` puts there. These lemmas are stated on `Merged(op1)`, the merged operation before a zero pre-verification gas is priced. `FillPolicyResult` then says the result is that operation, with only the pre-verification gas possibly replaced.
- **Provider answers are inputs.** The provider's answers are fields of the `Provider` datatype: the counterfactual sender, gas estimates, the on-chain nonce, the latest block (`getBlock('latest')`) and the chain id (`getNetwork()`). A rejected call is a `None` answer, and it makes the model fail with `CallFailed`. A latest block without a base fee (a pre-London chain) is a separate error, `NoBaseFee`. A throw of the source is an `Err` of the model, except where "## Left out" says otherwise (invalid UTF-8 in a revert message, and a JavaScript number too large for `BigNumber.from`).
- **decodeRevertReason** works on the hexadecimal revert data as the source receives it. It keeps the source's output text exactly as written, including the stray `" + '"` inside `Panic(...)` and the spelling of the panic names.

## Model

| member | source | states |
|---|---|---|
| UserOp.DecodeSignaturePackPrefix | test/UserOp.ts:28-54 | decoding the signing pack reads only its ten words: like ethers, bytes after them change nothing |
| UserOp.PackForSignature | test/UserOp.ts:28-54 | packing for signing succeeds exactly when every `uint256` field is below 2^256, and is then ten words (320 bytes) |
| UserOp.SignaturePackRoundTrip | test/UserOp.ts:28-54 | ABI-decoding the signing pack gives back the sender, nonce, the keccak of initCode, callData and paymasterAndData, and the five gas fields |
| UserOp.SignaturePackInjective | test/UserOp.ts:28-54 | two operations with the same signing pack agree on every signed field and digest |
| UserOp.PackForSignatureIgnoresSignature | test/UserOp.ts:28-54 | the signing pack does not depend on the signature |
| UserOp.PackForGas | test/UserOp.ts:55-84 | the gas-pricing pack succeeds exactly when every number fits 256 bits, and has 11 head words plus four padded tails |
| UserOp.GasPackHeadWord | test/UserOp.ts:57-84 | the i-th 32-byte word of the gas pack is the i-th head word |
| UserOp.GasPackTails | test/UserOp.ts:57-84 | each dynamic field's length-prefixed, zero-padded tail sits at the offset its head word names |
| UserOp.GasPackLayout | test/UserOp.ts:57-84 | the gas pack has the full head/tail layout the ABI decoder reads |
| UserOp.DecodeGasLayout | test/UserOp.ts:57-84 | any buffer with that layout decodes to the operation |
| UserOp.GasPackRoundTrip | test/UserOp.ts:55-84 | decoding the gas pack gives back the whole operation, signature included |
| UserOp.GetUserOpHash | test/UserOp.ts:88-99 | the hash exists exactly when the operation's numbers and the chain id fit 256 bits, and is keccak of (keccak(signing pack), entry point, chain id) |
| UserOp.UserOpHashPreimageLayout | test/UserOp.ts:94-97 | the outer preimage holds the pack hash, the entry point address and the chain id in its three words |
| UserOp.UserOpHashPreimageInjective | test/UserOp.ts:94-97 | different (pack hash, entry point, chain id) triples give different outer preimages |
| UserOp.UserOpHashIgnoresSignature | test/UserOp.ts:88-99 | replacing the signature leaves the operation hash unchanged, so a signature can be attached after hashing |
| UserOp.CallDataCost | test/UserOp.ts:206-211 | the cost exists exactly when the data is not empty; `reduce` without an initial value throws on an empty array |
| UserOp.ReduceCosts | test/UserOp.ts:208-210 | the sum of the per-byte costs is 4 per zero byte plus 16 per other byte |
| UserOp.CallDataCostCounts | test/UserOp.ts:206-211 | callDataCost is 4 times the zero bytes plus 16 times the non-zero bytes |
| UserOp.CallDataCostBounds | test/UserOp.ts:206-211 | the cost lies between 4 and 16 gas per byte |
| UserOp.CallDataCostAllZero | test/UserOp.ts:206-211 | all-zero data costs 4 gas per byte |
| UserOp.CallDataCostNoZero | test/UserOp.ts:206-211 | data without zero bytes costs 16 gas per byte |
| UserOp.Take | test/UserOp.ts:121 | `hexDataSlice(initCode, 0, 20)` is the first min(20, length) bytes |
| UserOp.Drop | test/UserOp.ts:122 | `hexDataSlice(initCode, 20)` is the rest, so both slices together are the initCode |
| UserOpFill.WithDefaults | test/UserOp.ts:213-228 | every field of the merge is the partial's value if it holds one, otherwise the default |
| UserOpFill.FillUserOpDefaults | test/UserOp.ts:213-228 | the deletion loop followed by the object spread yields exactly the field-by-field merge |
| UserOpFill.NullNeverOverrides | test/UserOp.ts:218-225 | a key present with null merges as if it were absent, and then takes the default |
| UserOpFill.WithDefaultsOfRecord | test/UserOp.ts:226 | a complete operation is unchanged by the merge |
| UserOpFill.WithDefaultsIdempotent | test/UserOp.ts:213-228 | merging an already-merged operation again changes nothing |
| UserOpFill.WithDefaultsOfEmpty | test/UserOp.ts:226 | the empty partial operation merges to the defaults |
| UserOpFill.SenderStep | test/UserOp.ts:124-139 | the sender block fills only the sender, and fills it |
| UserOpFill.VerificationGasStep | test/UserOp.ts:140-153 | the verification-gas block fills only verificationGasLimit, and fills it |
| UserOpFill.InitCodeStep | test/UserOp.ts:120-154 | with initCode, the block keeps every given field, fills nonce, sender and verificationGasLimit, and leaves the other fields alone |
| UserOpFill.InitCodeStage | test/UserOp.ts:120-154 | the initCode block keeps given fields and touches only sender, nonce and verificationGasLimit |
| UserOpFill.NonceStep | test/UserOp.ts:155-165 | the nonce block fills only the nonce, and fills it; with a provider but no sender from the caller, the getter's contract has no address and the block fails with `CallFailed` |
| UserOpFill.CallGasStep | test/UserOp.ts:167-180 | the call-gas block changes nothing but callGasLimit |
| UserOpFill.MaxFeeStep | test/UserOp.ts:181-191 | the fee block fills only maxFeePerGas, and fills it; it fails only when maxFeePerGas is missing, with `CallFailed` when getBlock is rejected and `NoBaseFee` when the block has no base fee |
| UserOpFill.PriorityStep | test/UserOp.ts:194-196 | the priority-fee line fills only maxPriorityFeePerGas, and fills it |
| UserOpFill.PreVerificationGasStep | test/UserOp.ts:197-203 | a non-zero pre-verification gas is kept; a zero one becomes the calldata cost of the gas pack; the step fails only when that pack cannot be encoded; nothing else changes |
| UserOpFill.FilledPartial | test/UserOp.ts:118-196 | all blocks together keep every field the caller gave |
| UserOpFill.FillFromInitCode | test/UserOp.ts:120-154 | the imperative initCode block computes the initCode step |
| UserOpFill.FillSender | test/UserOp.ts:124-139 | the imperative sender block computes the sender step |
| UserOpFill.FillVerificationGas | test/UserOp.ts:140-153 | the imperative verification-gas block computes its step |
| UserOpFill.FillNonce | test/UserOp.ts:155-165 | the imperative nonce block computes the nonce step |
| UserOpFill.FillCallGasLimit | test/UserOp.ts:167-180 | the imperative call-gas block computes its step |
| UserOpFill.FillMaxFee | test/UserOp.ts:181-191 | the imperative fee block computes its step |
| UserOpFill.PricePreVerificationGas | test/UserOp.ts:197-203 | the imperative pricing of a zero pre-verification gas computes its step |
| UserOpFill.FillUserOp | test/UserOp.ts:113-204 | fillUserOp computes the fill policy, whose per-field results are stated by the rule lemmas below |
| UserOpFill.FillAndSign | test/UserOp.ts:230-246 | fills, then fails without a provider, and fails with `CallFailed` when getNetwork is rejected; otherwise returns the filled operation with the signer's signature over its hash for the entry point and chain, a signature that matches the returned operation's own hash |
| UserOpFill.FilledPartialFrame | test/UserOp.ts:118-196 | the later blocks keep the initCode block's output and change only nonce, callGasLimit and maxFeePerGas |
| UserOpFill.FilledPartialStages | test/UserOp.ts:118-196 | a successful fill passes through every block successfully, in order |
| UserOpFill.InitCodeStageSender | test/UserOp.ts:124-139 | a given sender is kept; without initCode it stays missing; with initCode it is the known deployer's deployed address for (code after 32 bytes, first 32 bytes as salt), else the entry point's getSenderAddress answer |
| UserOpFill.InitCodeStageFields | test/UserOp.ts:120-154 | with initCode: a missing nonce becomes 0, and a missing verificationGasLimit becomes 150000 plus the deployment estimate; without initCode nothing changes |
| UserOpFill.SenderRule | test/UserOp.ts:124-139 | the filled sender is the caller's, else derived from initCode as above, else the zero address |
| UserOpFill.NonceRule | test/UserOp.ts:123-165 | the filled nonce is the caller's, else 0 with initCode, else the on-chain nonce read through the named getter on the sender the caller gave, so such a fill needs a given sender |
| UserOpFill.NonceNeedsSender | test/UserOp.ts:155-165 | with a provider but no nonce, initCode or sender, the getter's contract has no address and fillUserOp throws |
| UserOpFill.VerificationGasRule | test/UserOp.ts:140-153 | the filled verificationGasLimit is the caller's, else 150000 plus the deployment estimate with initCode, else 150000 |
| UserOpFill.CallGasStepRule | test/UserOp.ts:167-180 | the call-gas block asks for an estimate exactly when callData is given and callGasLimit is not |
| UserOpFill.CallGasRule | test/UserOp.ts:167-180 | the filled callGasLimit is the caller's, else the estimate of the call from the entry point to the sender, else 0 |
| UserOpFill.FeeRule | test/UserOp.ts:181-196 | a missing maxFeePerGas is the latest block's base fee plus the priority fee, so a successful fill had a provider, a block and a base fee; a missing priority fee is 1 gwei |
| UserOpFill.UntouchedFieldsRule | test/UserOp.ts:197 | initCode, callData, preVerificationGas (before pricing), paymasterAndData and signature come from the caller or the defaults only |
| UserOpFill.GivenFieldsKept | test/UserOp.ts:118-197 | every field the caller gave is unchanged in the merged operation, before a zero pre-verification gas is priced |
| UserOpFill.FilledFieldsKept | test/UserOp.ts:113-204 | every field the caller gave is unchanged in fillUserOp's result, except a given pre-verification gas of 0, which is priced |
| UserOpFill.DefaultsFit | test/UserOp.ts:13-25 | the defaults fit both packings, and the empty partial operation merges to exactly the defaults |
| UserOpFill.FillPolicyResult | test/UserOp.ts:197-203 | the result is the merged operation, except that a zero pre-verification gas is replaced by the gas pack's calldata cost |
| UserOpFill.FillPolicyErrors | test/UserOp.ts:113-204 | filling fails exactly when a block fails, or when a zero pre-verification gas meets an operation that cannot be ABI-encoded |
| UserOpFill.NoProviderPartial | test/UserOp.ts:119-191 | without a provider, the blocks before the merge succeed exactly when no field needs one, and otherwise fail with one of the "no entrypoint/provider" kind of errors |
| UserOpFill.ProviderPartial | test/UserOp.ts:119-191 | with a provider, the blocks before the merge fail only through a rejected provider call or a block without a base fee |
| UserOpFill.NoProviderRule | test/UserOp.ts:113-204 | without a provider, fillUserOp throws a "no entrypoint/provider" kind of error exactly when some field needs one; its only other error is an operation that cannot be encoded for pricing a zero pre-verification gas |
| UserOpFill.ProviderRule | test/UserOp.ts:113-204 | with a provider, fillUserOp fails only through a rejected provider call, a block without a base fee, or an operation that cannot be encoded for pricing |
| TestUtils.PanicText | test/testutils.ts:19-30 | a known panic code shows its name from the table of nine names; any other code shows its decimal value, the `panicCodes[code] ?? code` lookup of test/testutils.ts line 122 |
| TestUtils.PanicTextOfUnknown | test/testutils.ts:122 | the text of an unknown code is all digits and reads back as the code |
| TestUtils.RevertData | test/testutils.ts:104-105 | slicing revert data gives back its selector and its argument bytes |
| TestUtils.ShowError | test/testutils.ts:107-110 | the `Error(string)` branch's text opens with `Error(` and closes with `)` |
| TestUtils.ShowFailedOp | test/testutils.ts:111-119 | the FailedOp branch's text opens with `FailedOp(` and closes with `)` |
| TestUtils.ShowPanic | test/testutils.ts:120-122 | the Panic branch's text opens with `Panic(` and closes with the stray ` + ')` |
| TestUtils.DecodeRevertReason | test/testutils.ts:100-128 | data with none of the three selectors comes back unchanged, or as null when `nullIfNoMatch`; a known selector that decodes always yields text: `Error(...)`, `FailedOp(...)` or `Panic(... + ')` by selector |
| TestUtils.DecodeErrorRevert | test/testutils.ts:107-110 | `Error(string)` revert data shows as `Error(<message>)` |
| TestUtils.DecodeFailedOpArgsOf | test/testutils.ts:112-115 | the encoded FailedOp arguments decode back to the index, the paymaster and the message |
| TestUtils.DecodeFailedOpData | test/testutils.ts:111-119 | data with the FailedOp selector is shown by the FailedOp branch |
| TestUtils.ShowFailedOpOf | test/testutils.ts:111-119 | the FailedOp branch applied to encoded arguments shows the index, the paymaster text and the message |
| TestUtils.DecodeFailedOpRevert | test/testutils.ts:111-119 | FailedOp revert data shows as `FailedOp(<index>, <checksummed paymaster or none>, <message>)` |
| TestUtils.PaymasterTextNone | test/testutils.ts:117 | the paymaster shows as `none` exactly when it is the zero address, and otherwise as its checksummed address |
| TestUtils.DecodePanicRevert | test/testutils.ts:120-122 | `Panic(uint256)` revert data shows as `Panic(<name or code> + ')` |
| TestUtils.MinimalBE | test/testutils.ts:35 | `arrayify(BigNumber.from(n))` is a non-empty byte string that denotes n |
| TestUtils.AccountOwners.constructor | test/testutils.ts:32 | the counter starts at 0 with no key handed out |
| TestUtils.AccountOwners.CreateAccountOwner | test/testutils.ts:34-39 | increments the counter first, derives the private key as keccak of the new counter's bytes, and returns that key's wallet |
| TestUtils.AccountOwners.CreateAddress | test/testutils.ts:41-43 | returns the address of a fresh owner, advancing the same counter |
| TestUtils.CounterValuesIncrease | test/testutils.ts:32-35 | counter values handed out are 1, 2, 3, ..., so no two owners get the same keccak input |
| TestUtils.GetAccountInitCode | test/testutils.ts:131-140 | the initCode is the factory address followed by the factory calldata |
| TestUtils.InitCodeSplits | test/testutils.ts:131-140 | fillUserOp's 20-byte slicing of such an initCode gives back the factory address and the calldata |
| TestUtils.InitCodeJoins | test/testutils.ts:131-140 | every initCode of at least 20 bytes is the initCode of its own factory address and calldata |
| TestUtils.SimulationResultCatch | test/testutils.ts:171-176 | a `ValidationResult` error yields its arguments; every other error is thrown again unchanged |

## Left out

- keccak-256, the secp256k1 address of a private key, and `signer.signMessage` are function parameters. The model does not interpret them.
- Provider calls are inputs: `getSenderAddress`, `estimateGas`, the nonce getter, `getBlock('latest')` and `getNetwork`. A failing call is a `None` answer, and the model then fails with `CallFailed`. It does not keep the rejection's own error value. `rethrow()` is not modelled beyond the failure itself.
- getSenderAddress reports the sender in a revert (`.catch(e => e.errorArgs.sender)`). The model takes that reported address as the answer. A call that yields no sender is `CallFailed`. The source differs here in one case. A revert that decodes to another known error, such as `FailedOp`, has `errorArgs` but no `sender`. The catch then returns undefined without throwing, and the sender later takes the zero address from the defaults. The model does not tell that case apart from a failed call.
- `src/Create2Factory` is not part of this model. Its `contractAddress` and `getDeployedAddress` are parameters. The comparison of lower-cased addresses is byte equality.
- `BigNumberish` values are unbounded naturals, and the model does not parse number strings. The `preVerificationGas.toString() === '0'` test is `== 0`. A value passed as a JavaScript `number` at or above 2^53 - 1 makes `BigNumber.from` throw "overflow" in the source.
- UserOp.GetUserOpHash: succeeds for every chain id below 2^256. The source's `chainId: number` goes through `BigNumber.from`, so it throws for a chain id of 9007199254740991 (2^53 - 1) and above.
- UserOpFill.FillAndSign: hashes with the network's chain id through `UserOp.GetUserOpHash`, so it inherits the same gap: the source throws for a chain id of 2^53 - 1 and above, the model signs.
- BigNumber sums (`150000 + estimate`, `baseFee + priority fee`) are unbounded. They would fail only later, at ABI encoding, and that failure is modelled there.
- ABI decoding of offsets and lengths is modelled at 2^53 and above as failure, as ethers converts them to JavaScript numbers. The round-trip lemmas require the lengths to be below that bound.
- UTF-8 decoding of ABI `string` values is one character per byte. ethers' `toUtf8String` throws on invalid UTF-8, for example the single byte 0xff.
- TestUtils.DecodeErrorRevert: shows every message as text. The source's decodeRevertReason throws for an `Error(string)` message that is not valid UTF-8.
- TestUtils.DecodeFailedOpRevert: shows every message as text. The source's decodeRevertReason throws for a `FailedOp` message that is not valid UTF-8.
- Building the nonce getter's ABI and `factory.interface.encodeFunctionData('createAccount', ...)` are outside the model. The factory calldata is opaque bytes.
- `fund`, `createAccount`, `getAccountAddress`, `rethrow`, the gas-checking helpers and the other deployment helpers of `test/testutils.ts` are outside the modelled core. So are the `ethers.Wallet` object and its provider connection.
- The Wallet constructor's rejection of a zero or out-of-range private key is not modelled.
- Promises and their ordering are not modelled. Every `await` is a read of the matching provider answer.
- UserOpFill.SenderRule, UserOpFill.NonceRule and the other field rules describe `Merged(op1)`, the operation before a zero pre-verification gas is priced. `UserOpFill.FillPolicyResult` relates them to `fillUserOp`'s result, and `UserOpFill.FilledFieldsKept` states the given fields for that result directly.
- TestUtils.PanicText states nothing about panic names compared with decimal text. The model does not prove that no name can be mistaken for a code.
