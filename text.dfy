/**
 * Text forms of byte strings and numbers as ethers produces and reads them:
 * `0x`-prefixed hexadecimal (hexlify / arrayify), decimal (BigNumber
 * toString) and checksummed addresses (EIP-55, as ethers' getAddress
 * returns them).
 */
module Text {
  import opened Wrappers
  import opened Bytes

  predicate IsLowerHexDigit(c: char) {
    '0' <= c <= '9' || 'a' <= c <= 'f'
  }

  /** The lower-case hexadecimal digit of `d`. */
  function HexChar(d: nat): (c: char)
    requires d < 16
    ensures IsLowerHexDigit(c)
  {
    if d < 10 then ('0' as int + d) as char else ('a' as int + d - 10) as char
  }

  /** The value of a hexadecimal digit of either case. */
  function HexDigitValue(c: char): (d: Option<nat>)
    ensures d.Some? <==> ('0' <= c <= '9' || 'a' <= c <= 'f' || 'A' <= c <= 'F')
    ensures d.Some? ==> d.value < 16
  {
    if '0' <= c <= '9' then Some(c as int - '0' as int)
    else if 'a' <= c <= 'f' then Some(c as int - 'a' as int + 10)
    else if 'A' <= c <= 'F' then Some(c as int - 'A' as int + 10)
    else None
  }

  /** Two lower-case digits per byte, without a prefix. */
  function HexOfBytes(b: seq<Byte>): (s: string)
    ensures |s| == 2 * |b|
    ensures forall i :: 0 <= i < |s| ==> IsLowerHexDigit(s[i])
  {
    if b == [] then [] else [HexChar(b[0] / 16), HexChar(b[0] % 16)] + HexOfBytes(b[1..])
  }

  /** hexlify: the `0x`-prefixed lower-case hexadecimal form. */
  function BytesToHex(b: seq<Byte>): (s: string)
    ensures |s| == 2 + 2 * |b| && s[..2] == "0x"
  {
    "0x" + HexOfBytes(b)
  }

  /** Hexadecimal digits, two per byte, of either case. */
  function ParseHexDigits(s: string): (b: Option<seq<Byte>>)
    ensures b.Some? ==> 2 * |b.value| == |s|
  {
    if s == [] then Some([])
    else if |s| < 2 then None
    else
      var hi :- HexDigitValue(s[0]);
      var lo :- HexDigitValue(s[1]);
      var rest :- ParseHexDigits(s[2..]);
      Some([hi * 16 + lo] + rest)
  }

  /**
   * arrayify of a string: it must match /^0x[0-9A-Fa-f]*$/ and have an even
   * number of digits, otherwise ethers throws.
   */
  function ParseHex(s: string): (b: Option<seq<Byte>>)
    ensures b.Some? ==> |s| >= 2 && s[..2] == "0x" && |s| == 2 + 2 * |b.value|
  {
    if |s| >= 2 && s[..2] == "0x" then ParseHexDigits(s[2..]) else None
  }

  /** Hexadecimal digits read back as the bytes they were written from. */
  lemma {:induction false} ParseHexDigitsOfHex(b: seq<Byte>)
    ensures ParseHexDigits(HexOfBytes(b)) == Some(b)
  {
    if b != [] {
      var s := HexOfBytes(b);
      assert s[2..] == HexOfBytes(b[1..]);
      ParseHexDigitsOfHex(b[1..]);
      assert HexDigitValue(s[0]) == Some(b[0] / 16);
      assert HexDigitValue(s[1]) == Some(b[0] % 16);
      assert [b[0]] + b[1..] == b;
    }
  }

  /** arrayify(hexlify(b)) == b. */
  lemma ParseHexOfBytesToHex(b: seq<Byte>)
    ensures ParseHex(BytesToHex(b)) == Some(b)
  {
    assert BytesToHex(b)[2..] == HexOfBytes(b);
    ParseHexDigitsOfHex(b);
  }

  /** Different byte strings have different hexadecimal forms. */
  lemma HexOfBytesInjective(a: seq<Byte>, b: seq<Byte>)
    requires HexOfBytes(a) == HexOfBytes(b)
    ensures a == b
  {
    ParseHexDigitsOfHex(a);
    ParseHexDigitsOfHex(b);
  }

  function DigitChar(d: nat): (c: char)
    requires d < 10
    ensures '0' <= c <= '9'
  {
    ('0' as int + d) as char
  }

  /** BigNumber toString: the decimal digits of `n`, without leading zeros. */
  function NatToDecimal(n: nat): (s: string)
    ensures |s| > 0
    ensures forall i :: 0 <= i < |s| ==> '0' <= s[i] <= '9'
  {
    if n < 10 then [DigitChar(n)] else NatToDecimal(n / 10) + [DigitChar(n % 10)]
  }

  /** The number a string of decimal digits denotes. */
  function DecimalValue(s: string): nat
    requires forall i :: 0 <= i < |s| ==> '0' <= s[i] <= '9'
  {
    if s == [] then 0 else DecimalValue(s[..|s| - 1]) * 10 + (s[|s| - 1] as int - '0' as int)
  }

  /** The decimal form denotes the number it was written from, so different numbers print differently. */
  lemma {:induction false} DecimalValueOfNatToDecimal(n: nat)
    ensures DecimalValue(NatToDecimal(n)) == n
  {
    if n >= 10 {
      var s := NatToDecimal(n);
      assert s[..|s| - 1] == NatToDecimal(n / 10);
      DecimalValueOfNatToDecimal(n / 10);
    }
  }

  /** One character per byte (the model's stand-in for UTF-8 decoding). */
  function BytesToText(b: seq<Byte>): (s: string)
    ensures |s| == |b| && forall i :: 0 <= i < |b| ==> s[i] as int == b[i]
  {
    seq(|b|, i requires 0 <= i < |b| => b[i] as char)
  }

  /** The byte of each character, for text whose characters are all below 256. */
  function AsciiBytes(s: string): (b: seq<Byte>)
    requires forall i :: 0 <= i < |s| ==> s[i] as int < 256
    ensures |b| == |s| && forall i :: 0 <= i < |s| ==> b[i] == s[i] as int
  {
    seq(|s|, i requires 0 <= i < |s| => s[i] as int)
  }

  function ToUpperChar(c: char): char {
    if 'a' <= c <= 'z' then (c as int - 32) as char else c
  }

  function ToLowerChar(c: char): char {
    if 'A' <= c <= 'Z' then (c as int + 32) as char else c
  }

  function ToLower(s: string): (t: string)
    ensures |t| == |s| && forall i :: 0 <= i < |s| ==> t[i] == ToLowerChar(s[i])
  {
    seq(|s|, i requires 0 <= i < |s| => ToLowerChar(s[i]))
  }

  /** The `i`-th hexadecimal digit (nibble) of a digest, high nibble first. */
  function Nibble(h: Bytes32, i: nat): (d: nat)
    requires i < 64
    ensures d < 16
  {
    if i % 2 == 0 then h[i / 2] / 16 else h[i / 2] % 16
  }

  /**
   * EIP-55 mixed-case checksum: the lower-case hexadecimal address, with each
   * letter upper-cased where the matching nibble of the keccak of that
   * lower-case text (as ASCII) is 8 or more.
   */
  function ChecksumAddress(a: Address, keccak: Keccak): (s: string)
    ensures |s| == 42 && s[..2] == "0x"
  {
    var lower := HexOfBytes(a);
    var hashed := keccak(AsciiBytes(lower));
    "0x" + seq(40, i requires 0 <= i < 40 => if Nibble(hashed, i) >= 8 then ToUpperChar(lower[i]) else lower[i])
  }

  /** ethers' AddressZero constant, "0x" and forty zeros: the hexadecimal text of the zero address. */
  const ADDRESS_ZERO_TEXT: string := BytesToHex(Zeros(20))

  /** Lower-casing a checksummed address gives plain hexlify output. */
  lemma ToLowerOfChecksum(a: Address, keccak: Keccak)
    ensures ToLower(ChecksumAddress(a, keccak)) == BytesToHex(a)
  {
    var lower := HexOfBytes(a);
    var s := ChecksumAddress(a, keccak);
    forall i | 0 <= i < 42
      ensures ToLower(s)[i] == BytesToHex(a)[i]
    {
      if i >= 2 {
        assert IsLowerHexDigit(lower[i - 2]);
      }
    }
  }

  lemma {:induction false} HexOfZeros(n: nat)
    ensures HexOfBytes(Zeros(n)) == seq(2 * n, _ => '0')
  {
    if n > 0 {
      assert Zeros(n)[1..] == Zeros(n - 1);
      HexOfZeros(n - 1);
    }
  }

  /** The zero address prints as AddressZero: its digits are no letters, so nothing is upper-cased. */
  lemma ChecksumOfZeroAddress(keccak: Keccak)
    ensures ChecksumAddress(Zeros(20), keccak) == ADDRESS_ZERO_TEXT
  {
    var s := ChecksumAddress(Zeros(20), keccak);
    HexOfZeros(20);
    forall i | 2 <= i < 42
      ensures s[i] == BytesToHex(Zeros(20))[i]
    {
    }
  }

  /** Only the zero address prints as AddressZero. */
  lemma ChecksumZeroTextIsZero(a: Address, keccak: Keccak)
    requires ChecksumAddress(a, keccak) == ADDRESS_ZERO_TEXT
    ensures a == Zeros(20)
  {
    ToLowerOfChecksum(a, keccak);
    ToLowerOfChecksum(Zeros(20), keccak);
    ChecksumOfZeroAddress(keccak);
    assert BytesToHex(a) == BytesToHex(Zeros(20));
    assert HexOfBytes(a) == BytesToHex(a)[2..];
    assert HexOfBytes(Zeros(20)) == BytesToHex(Zeros(20))[2..];
    HexOfBytesInjective(a, Zeros(20));
  }

  /** The checksummed form of an address is ethers' AddressZero text exactly when the address is zero. */
  lemma ChecksumIsZeroText(a: Address, keccak: Keccak)
    ensures ChecksumAddress(a, keccak) == ADDRESS_ZERO_TEXT <==> a == Zeros(20)
  {
    if a == Zeros(20) {
      ChecksumOfZeroAddress(keccak);
    }
    if ChecksumAddress(a, keccak) == ADDRESS_ZERO_TEXT {
      ChecksumZeroTextIsZero(a, keccak);
    }
  }
}
