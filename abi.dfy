/**
 * The parts of the Solidity contract ABI encoding the toolkit uses
 * ("Formal Specification of the Encoding" in the Solidity documentation):
 * static words for `uint256`, `address` and `bytes32`, the tail of a dynamic
 * `bytes`/`string` value, and the readers of ethers' ABI decoder, which
 * throw (here: return `None`) when a read leaves the data.
 */
module Abi {
  import opened Wrappers
  import opened Bytes

  /** 2^256. */
  const UINT256_BOUND: nat := 0x1_0000_0000_0000_0000_0000_0000_0000_0000_0000_0000_0000_0000_0000_0000_0000_0000

  lemma Uint256Bound()
    ensures Pow256(32) == UINT256_BOUND
  {
    assert Pow256(4) == 0x1_0000_0000;
    Pow256Add(4, 4);
    Pow256Add(8, 8);
    Pow256Add(16, 16);
  }

  lemma {:induction false} Pow256Add(a: nat, b: nat)
    ensures Pow256(a + b) == Pow256(a) * Pow256(b)
  {
    if a > 0 {
      Pow256Add(a - 1, b);
      assert Pow256(a + b) == 256 * (Pow256(a - 1) * Pow256(b));
    }
  }

  /** A `uint256` value: less than 2^256. */
  predicate FitsUint256(n: nat) {
    n < UINT256_BOUND
  }

  /** 2^53: offsets and lengths are converted to JavaScript numbers, which fails from here on. */
  const SAFE_NUMBER_BOUND: nat := 0x20_0000_0000_0000

  /** The static encoding of a `uint256`. */
  function EncodeUint(n: nat): (w: Bytes32)
    requires FitsUint256(n)
    ensures BEToUint(w) == n
  {
    Uint256Bound();
    BEToUintOfUintToBE(n, 32);
    UintToBE(n, 32)
  }

  /** The static encoding of an `address`: twelve zero bytes, then the address. */
  function EncodeAddress(a: Address): (w: Bytes32)
    ensures w[..12] == Zeros(12) && w[12..] == a
  {
    Zeros(12) + a
  }

  /** `n` rounded up to a multiple of 32. */
  function Ceil32(n: nat): (c: nat)
    ensures c % 32 == 0 && n <= c < n + 32
  {
    (n + 31) / 32 * 32
  }

  /** The encoding of a dynamic `bytes` value in the tail: its length, then its bytes zero-padded to a word boundary. */
  function EncodeBytes(b: seq<Byte>): (t: seq<Byte>)
    requires FitsUint256(|b|)
    ensures |t| == 32 + Ceil32(|b|)
  {
    EncodeUint(|b|) + b + Zeros(Ceil32(|b|) - |b|)
  }

  /** The tail of a dynamic value is its length word, its bytes, then zero padding. */
  lemma EncodeBytesLayout(b: seq<Byte>)
    requires FitsUint256(|b|)
    ensures EncodeBytes(b)[..32] == EncodeUint(|b|) && EncodeBytes(b)[32..32 + |b|] == b
    ensures forall i :: 32 + |b| <= i < |EncodeBytes(b)| ==> EncodeBytes(b)[i] == 0
  {
    var t := EncodeBytes(b);
    assert t[32..32 + |b|] == b;
  }

  /** Words laid end to end. */
  function Flatten(ws: seq<Bytes32>): (s: seq<Byte>)
    ensures |s| == 32 * |ws|
  {
    if ws == [] then [] else Flatten(ws[..|ws| - 1]) + ws[|ws| - 1]
  }

  /** The `i`-th word of a flattened sequence of words is the `i`-th word. */
  lemma {:induction false} FlattenWord(ws: seq<Bytes32>, i: nat)
    requires i < |ws|
    ensures Flatten(ws)[32 * i..32 * i + 32] == ws[i]
  {
    var init := ws[..|ws| - 1];
    assert Flatten(ws) == Flatten(init) + ws[|ws| - 1];
    if i < |ws| - 1 {
      FlattenWord(init, i);
      assert Flatten(ws)[32 * i..32 * i + 32] == Flatten(init)[32 * i..32 * i + 32];
    } else {
      assert Flatten(ws)[32 * i..] == ws[i];
    }
  }

  /** The 32 bytes at `pos`. */
  function ReadWord(data: seq<Byte>, pos: nat): (w: Option<Bytes32>)
    ensures w.Some? <==> pos + 32 <= |data|
    ensures w.Some? ==> w.value == data[pos..pos + 32]
  {
    if pos + 32 <= |data| then Some(data[pos..pos + 32]) else None
  }

  /** A `uint256` at `pos`. */
  function ReadUint(data: seq<Byte>, pos: nat): (n: Option<nat>)
    ensures n.Some? <==> pos + 32 <= |data|
    ensures n.Some? ==> FitsUint256(n.value) && EncodeUint(n.value) == data[pos..pos + 32]
  {
    var w :- ReadWord(data, pos);
    var n := BEToUint(w);
    Uint256Bound();
    UintToBEOfBEToUintWord(w);
    Some(n)
  }

  /** An `address` at `pos`; ethers refuses a word whose value does not fit in 20 bytes. */
  function ReadAddress(data: seq<Byte>, pos: nat): (a: Option<Address>)
    ensures a.Some? <==> pos + 32 <= |data| && data[pos..pos + 12] == Zeros(12)
    ensures a.Some? ==> EncodeAddress(a.value) == data[pos..pos + 32]
  {
    if pos + 32 <= |data| && data[pos..pos + 12] == Zeros(12) then
      var a: Address := data[pos + 12..pos + 32];
      assert EncodeAddress(a) == data[pos..pos + 32];
      Some(a)
    else None
  }

  /** A static word is read the same whatever follows it. */
  lemma StaticReadsIgnoreTrailing(data: seq<Byte>, extra: seq<Byte>, pos: nat)
    requires pos + 32 <= |data|
    ensures ReadWord(data + extra, pos) == ReadWord(data, pos)
    ensures ReadUint(data + extra, pos) == ReadUint(data, pos)
    ensures ReadAddress(data + extra, pos) == ReadAddress(data, pos)
  {
    var q := data + extra;
    assert q[pos..pos + 32] == data[pos..pos + 32];
    assert q[pos..pos + 12] == data[pos..pos + 12];
    assert q[pos + 12..pos + 32] == data[pos + 12..pos + 32];
  }

  /**
   * A dynamic `bytes`/`string` value whose offset word is at `pos`. The
   * offset is relative to the start of `data`; the tail must hold the length
   * word and the padded bytes (ethers' reader is not loose).
   */
  function ReadBytes(data: seq<Byte>, pos: nat): (b: Option<seq<Byte>>)
    ensures b.Some? ==> FitsUint256(|b.value|)
  {
    var offset :- ReadUint(data, pos);
    if offset >= SAFE_NUMBER_BOUND then None
    else
      var length :- ReadUint(data, offset);
      if length >= SAFE_NUMBER_BOUND || offset + 32 + Ceil32(length) > |data| then None
      else Some(data[offset + 32..offset + 32 + length])
  }

  /** The word that `EncodeUint` produces is determined by the number it denotes. */
  lemma UintToBEOfBEToUintWord(w: Bytes32)
    ensures FitsUint256(BEToUint(w)) && EncodeUint(BEToUint(w)) == w
  {
    Uint256Bound();
    UintToBEOfBEToUint(w);
  }

  lemma {:induction false} UintToBEOfBEToUint(s: seq<Byte>)
    ensures UintToBE(BEToUint(s), |s|) == s
  {
    if s != [] {
      var init := s[..|s| - 1];
      UintToBEOfBEToUint(init);
      var n := BEToUint(s);
      assert n / 256 == BEToUint(init) && n % 256 == s[|s| - 1];
      assert s == init + [s[|s| - 1]];
    }
  }

  /** Reading a `uint256` back from its encoding. */
  lemma ReadUintOfEncoded(data: seq<Byte>, pos: nat, n: nat)
    requires FitsUint256(n)
    requires pos + 32 <= |data| && data[pos..pos + 32] == EncodeUint(n)
    ensures ReadUint(data, pos) == Some(n)
  {
  }

  /** Reading an `address` back from its encoding. */
  lemma ReadAddressOfEncoded(data: seq<Byte>, pos: nat, a: Address)
    requires pos + 32 <= |data| && data[pos..pos + 32] == EncodeAddress(a)
    ensures ReadAddress(data, pos) == Some(a)
  {
    SliceOfSlice(data, pos, EncodeAddress(a), 0, 12);
    SliceOfSlice(data, pos, EncodeAddress(a), 12, 32);
  }

  /** The word `w` is at `pos`. */
  predicate WordAt(data: seq<Byte>, pos: nat, w: Bytes32) {
    pos + 32 <= |data| && data[pos..pos + 32] == w
  }

  /** The head word at `pos` holds `offset`, and the tail of `b` lies at `offset`. */
  predicate DynamicAt(data: seq<Byte>, pos: nat, offset: nat, b: seq<Byte>)
    requires FitsUint256(offset) && FitsUint256(|b|)
  {
    && WordAt(data, pos, EncodeUint(offset))
    && offset + 32 + Ceil32(|b|) <= |data|
    && data[offset..offset + 32 + Ceil32(|b|)] == EncodeBytes(b)
  }

  /**
   * Reading a dynamic value back: when the head word at `pos` holds the offset
   * of the value's tail and the tail is there, the decoder returns the value.
   */
  lemma ReadBytesOfEncoded(data: seq<Byte>, pos: nat, offset: nat, b: seq<Byte>)
    requires offset < SAFE_NUMBER_BOUND && |b| < SAFE_NUMBER_BOUND
    requires DynamicAt(data, pos, offset, b)
    ensures ReadBytes(data, pos) == Some(b)
  {
    var t := EncodeBytes(b);
    EncodeBytesLayout(b);
    ReadUintOfEncoded(data, pos, offset);
    SliceOfSlice(data, offset, t, 0, 32);
    ReadUintOfEncoded(data, offset, |b|);
    SliceOfSlice(data, offset, t, 32, 32 + |b|);
  }
}
