/**
 * Byte strings, fixed-width byte strings and unsigned big-endian integers:
 * the vocabulary shared by the user-operation codec and the test helpers.
 */
module Bytes {

  type Byte = x: int | 0 <= x < 256

  /** `n` zero bytes. */
  function Zeros(n: nat): (z: seq<Byte>)
    ensures |z| == n
    ensures forall i :: 0 <= i < n ==> z[i] == 0
  {
    seq(n, _ => 0)
  }

  /** A 32-byte word, the unit of the Solidity ABI encoding and the size of a keccak digest. */
  type Bytes32 = s: seq<Byte> | |s| == 32 witness Zeros(32)

  /** A 20-byte account address. */
  type Address = s: seq<Byte> | |s| == 20 witness Zeros(20)

  /** keccak256, which the model does not interpret: only its output width is known. */
  type Keccak = seq<Byte> -> Bytes32

  /** 256 to the power `k`: the number of values a `k`-byte big-endian integer can take. */
  function Pow256(k: nat): (p: nat)
    ensures p > 0
  {
    if k == 0 then 1 else 256 * Pow256(k - 1)
  }

  /** The `k` low-order bytes of `n`, most significant first. */
  function UintToBE(n: nat, k: nat): (s: seq<Byte>)
    ensures |s| == k
  {
    if k == 0 then [] else UintToBE(n / 256, k - 1) + [n % 256]
  }

  /** The unsigned integer a big-endian byte string denotes. */
  function BEToUint(s: seq<Byte>): (n: nat)
    ensures n < Pow256(|s|)
  {
    if s == [] then 0
    else
      var rest := BEToUint(s[..|s| - 1]);
      assert rest * 256 + s[|s| - 1] < Pow256(|s| - 1) * 256 by {
        assert rest + 1 <= Pow256(|s| - 1);
        assert (rest + 1) * 256 <= Pow256(|s| - 1) * 256;
      }
      rest * 256 + s[|s| - 1]
  }

  /** Reading back a big-endian encoding yields the encoded number whenever it fits. */
  lemma {:induction false} BEToUintOfUintToBE(n: nat, k: nat)
    requires n < Pow256(k)
    ensures BEToUint(UintToBE(n, k)) == n
  {
    if k > 0 {
      assert n / 256 < Pow256(k - 1);
      BEToUintOfUintToBE(n / 256, k - 1);
      var s := UintToBE(n, k);
      assert s[..|s| - 1] == UintToBE(n / 256, k - 1);
    }
  }

  /** A slice of a slice is a slice. */
  lemma SliceOfSlice(data: seq<Byte>, a: nat, t: seq<Byte>, i: nat, j: nat)
    requires a + |t| <= |data| && data[a..a + |t|] == t
    requires i <= j <= |t|
    ensures data[a + i..a + j] == t[i..j]
  {
    var u := data[a + i..a + j];
    assert forall k :: 0 <= k < j - i ==> u[k] == t[i + k];
  }
}
