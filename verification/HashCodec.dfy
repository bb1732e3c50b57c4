// Hex encoding of SHA-256 digests and of addresses: backend/utils/hash_service.py.
module HashCodec {
  import opened Basics

  type Byte = x: int | 0 <= x < 256

  type Bytes32 = b: seq<Byte> | |b| == 32 witness seq(32, i => 0)

  predicate IsLowerHex(c: char) {
    '0' <= c <= '9' || 'a' <= c <= 'f'
  }

  predicate IsHex(c: char) {
    IsLowerHex(c) || 'A' <= c <= 'F'
  }

  /** The pattern ^[0-9a-f]{64}$ of the certificates and verification log tables. */
  predicate IsHash(s: string) {
    |s| == 64 && forall i :: 0 <= i < |s| ==> IsLowerHex(s[i])
  }

  type Hash = s: string | IsHash(s) witness seq(64, i => '0')

  /** What Web3.to_hex writes: 0x and any number of hexadecimal digits. */
  type HexText = s: string | |s| >= 2 && IsPrefixedHex(s, |s| - 2) witness "0x"

  predicate IsPrefixedHex(s: string, digits: nat) {
    |s| == 2 + digits && s[0] == '0' && s[1] == 'x' && forall i :: 2 <= i < |s| ==> IsHex(s[i])
  }

  /** ^0x[0-9a-fA-F]{64}$ */
  predicate IsTxHash(s: string) { IsPrefixedHex(s, 64) }

  /** ^0x[0-9a-fA-F]{40}$ */
  predicate IsWallet(s: string) { IsPrefixedHex(s, 40) }

  /** An address on the chain, written canonically in lower case. */
  predicate IsAddress(s: string) {
    IsWallet(s) && Lower(s) == s
  }

  type Address = s: string | IsAddress(s) witness "0x" + seq(40, i => '0')

  function ZeroAddress(): Address {
    "0x" + seq(40, i => '0')
  }

  function ZeroHash(): Bytes32 {
    seq(32, i => 0)
  }

  lemma LowerWalletIsAddress(w: string)
    requires IsWallet(w)
    ensures IsAddress(Lower(w))
  {
    var l := Lower(w);
    forall i | 0 <= i < |l|
      ensures Lower(l)[i] == l[i] && (2 <= i ==> IsHex(l[i]))
    {
      assert l[i] == LowerChar(w[i]);
      assert 2 <= i ==> IsHex(w[i]);
    }
    assert Lower(l) == l;
  }

  function HexDigit(n: nat): (c: char)
    requires n < 16
  {
    if n < 10 then (n + 48) as char else (n + 87) as char
  }

  function DigitValue(c: char): (n: nat)
    requires IsHex(c)
    ensures n < 16
  {
    if c <= '9' then c as int - 48 else if c <= 'F' then c as int - 55 else c as int - 87
  }

  predicate IsSpace(c: char) {
    c == ' ' || '\t' <= c <= '\r'
  }

  /** bytes.hex() */
  function BytesToHex(b: seq<Byte>): (s: string)
    ensures |s| == 2 * |b|
    ensures forall i :: 0 <= i < |s| ==> IsLowerHex(s[i])
  {
    if b == [] then "" else [HexDigit(b[0] / 16), HexDigit(b[0] % 16)] + BytesToHex(b[1..])
  }

  /** bytes.fromhex(): either case, white space allowed between bytes, otherwise an error. */
  function HexToBytes(s: string): (b: Option<seq<Byte>>) {
    if s == "" then Some([])
    else if IsSpace(s[0]) then HexToBytes(s[1..])
    else if |s| == 1 || !IsHex(s[0]) || !IsHex(s[1]) then None
    else match HexToBytes(s[2..])
         case None => None
         case Some(rest) => Some([DigitValue(s[0]) * 16 + DigitValue(s[1])] + rest)
  }

  /** `s` without the white space that bytes.fromhex skips. */
  function Squeeze(s: string): string {
    if s == "" then "" else if IsSpace(s[0]) then Squeeze(s[1..]) else [s[0]] + Squeeze(s[1..])
  }

  lemma {:induction false} DecodeEncode(b: seq<Byte>)
    ensures HexToBytes(BytesToHex(b)) == Some(b)
  {
    if b == [] {
    } else {
      DecodeEncode(b[1..]);
      var s := BytesToHex(b);
      assert s[2..] == BytesToHex(b[1..]);
      assert [b[0]] + b[1..] == b;
    }
  }

  lemma DigitRoundTrip(c: char, d: char)
    requires IsHex(c) && IsHex(d)
    ensures HexDigit((DigitValue(c) * 16 + DigitValue(d)) / 16) == LowerChar(c)
    ensures HexDigit((DigitValue(c) * 16 + DigitValue(d)) % 16) == LowerChar(d)
  {
    assert HexDigit(DigitValue(c)) == LowerChar(c);
    assert HexDigit(DigitValue(d)) == LowerChar(d);
  }

  lemma LowerAppend(s: string, t: string)
    ensures Lower(s + t) == Lower(s) + Lower(t)
  {
    assert |Lower(s + t)| == |Lower(s) + Lower(t)|;
  }

  lemma SqueezePair(s: string)
    requires |s| >= 2 && !IsSpace(s[0]) && !IsSpace(s[1])
    ensures Squeeze(s) == [s[0], s[1]] + Squeeze(s[2..])
  {
    assert s[1..][1..] == s[2..];
    assert Squeeze(s[1..]) == [s[1]] + Squeeze(s[2..]);
  }

  /** Decoding then encoding normalises the text: case is folded, white space dropped. */
  lemma {:induction false} EncodeDecode(s: string)
    requires HexToBytes(s).Some?
    ensures BytesToHex(HexToBytes(s).value) == Lower(Squeeze(s))
  {
    if s == "" {
    } else if IsSpace(s[0]) {
      EncodeDecode(s[1..]);
    } else {
      EncodeDecode(s[2..]);
      SqueezePair(s);
      LowerAppend([s[0], s[1]], Squeeze(s[2..]));
      DigitRoundTrip(s[0], s[1]);
      var first := DigitValue(s[0]) * 16 + DigitValue(s[1]);
      var rest := HexToBytes(s[2..]).value;
      assert HexToBytes(s).value == [first] + rest;
      assert ([first] + rest)[1..] == rest;
      assert Lower([s[0], s[1]]) == [LowerChar(s[0]), LowerChar(s[1])];
    }
  }

  lemma {:induction false} HexDecodes(s: string)
    requires |s| % 2 == 0
    requires forall i :: 0 <= i < |s| ==> IsHex(s[i])
    ensures HexToBytes(s).Some? && |HexToBytes(s).value| * 2 == |s|
    ensures Squeeze(s) == s
  {
    if s == "" {
    } else {
      HexDecodes(s[2..]);
      SqueezePair(s);
    }
  }

  /** hex_to_bytes32 on a digest. */
  function HashToBytes32(h: Hash): (b: Bytes32)
    ensures BytesToHex(b) == h
  {
    HexDecodes(h);
    EncodeDecode(h);
    assert Lower(h) == h;
    HexToBytes(h).value
  }

  /** bytes32_to_hex */
  function Bytes32ToHash(b: Bytes32): Hash {
    BytesToHex(b)
  }

  /** The two conversions are mutually inverse, so comparing digests as text or as bytes is the same. */
  lemma HashBytesBijection(h: Hash, g: Hash, b: Bytes32)
    ensures Bytes32ToHash(HashToBytes32(h)) == h
    ensures HashToBytes32(Bytes32ToHash(b)) == b
    ensures h == g <==> HashToBytes32(h) == HashToBytes32(g)
    ensures HashToBytes32(h) == b <==> h == Bytes32ToHash(b)
  {
    DecodeEncode(b);
    DecodeEncode(HashToBytes32(Bytes32ToHash(b)));
    DecodeEncode(HashToBytes32(h));
  }
}
