/** Lower-case hexadecimal digests (src/hex.rs) and the shape checks of src/store.rs. */
module Hex {
  import opened Basics

  /** A raw 256-bit digest. */
  type RawDigest = d: Bytes | |d| == 32 witness seq(32, _ => 0)

  /** SHA-256 is a parameter of every component; nothing is assumed about collisions. */
  type Sha256 = Bytes -> RawDigest

  predicate IsLowerHex(c: char) {
    '0' <= c <= '9' || 'a' <= c <= 'f'
  }

  /** The n-th of "0123456789abcdef". */
  function Digit(n: nat): (c: char)
    requires n < 16
    ensures IsLowerHex(c)
  {
    if n < 10 then ('0' as int + n) as char else ('a' as int + n - 10) as char
  }

  lemma DigitTable(n: nat)
    requires n < 16
    ensures Digit(n) == "0123456789abcdef"[n]
  {
    assert "0123456789abcdef"[n] as int == if n < 10 then '0' as int + n else 'a' as int + n - 10;
  }

  function EncodeLower(bytes: Bytes): string {
    if bytes == [] then "" else EncodeLower(bytes[..|bytes| - 1]) + EncodeByte(bytes[|bytes| - 1])
  }

  function EncodeByte(b: byte): string {
    [Digit(b / 16), Digit(b % 16)]
  }

  method EncodeLowerLoop(bytes: Bytes) returns (encoded: string)
    ensures encoded == EncodeLower(bytes)
  {
    encoded := "";
    for i := 0 to |bytes|
      invariant encoded == EncodeLower(bytes[..i])
    {
      assert bytes[..i + 1][..i] == bytes[..i];
      encoded := encoded + [Digit(bytes[i] / 16)];
      encoded := encoded + [Digit(bytes[i] % 16)];
    }
    assert bytes[..|bytes|] == bytes;
  }

  /** The value of one lower-case hexadecimal digit. */
  function DigitValue(c: char): (n: nat)
    requires IsLowerHex(c)
    ensures n < 16
  {
    if c <= '9' then c as int - '0' as int else c as int - 'a' as int + 10
  }

  function ByteValue(high: char, low: char): byte
    requires IsLowerHex(high) && IsLowerHex(low)
  {
    16 * DigitValue(high) + DigitValue(low)
  }

  predicate AllLowerHex(text: string) {
    forall i :: 0 <= i < |text| ==> IsLowerHex(text[i])
  }

  function DecodeLower(text: string): (bytes: Bytes)
    requires |text| % 2 == 0 && AllLowerHex(text)
  {
    if text == "" then []
    else DecodeLower(text[..|text| - 2]) + [ByteValue(text[|text| - 2], text[|text| - 1])]
  }

  lemma DigitRoundTrip(n: nat)
    requires n < 16
    ensures DigitValue(Digit(n)) == n
  {
  }

  lemma ByteRoundTrip(b: byte)
    ensures |EncodeByte(b)| == 2 && AllLowerHex(EncodeByte(b)) && ByteValue(EncodeByte(b)[0], EncodeByte(b)[1]) == b
  {
    DigitRoundTrip(b / 16);
    DigitRoundTrip(b % 16);
  }

  lemma AppendDigits(text: string, digits: string)
    requires |text| % 2 == 0 && AllLowerHex(text) && |digits| == 2 && AllLowerHex(digits)
    ensures AllLowerHex(text + digits)
    ensures DecodeLower(text + digits) == DecodeLower(text) + [ByteValue(digits[0], digits[1])]
  {
    assert (text + digits)[..|text|] == text;
  }

  /** Two digits a byte, lower-case digits only, and nothing is lost. */
  lemma {:induction false} EncodeRoundTrip(bytes: Bytes)
    ensures |EncodeLower(bytes)| == 2 * |bytes| && AllLowerHex(EncodeLower(bytes))
    ensures DecodeLower(EncodeLower(bytes)) == bytes
  {
    if bytes != [] {
      var front, b := bytes[..|bytes| - 1], bytes[|bytes| - 1];
      EncodeRoundTrip(front);
      ByteRoundTrip(b);
      AppendDigits(EncodeLower(front), EncodeByte(b));
      assert front + [b] == bytes;
    }
  }

  lemma EncodeInjective(a: Bytes, b: Bytes)
    requires EncodeLower(a) == EncodeLower(b)
    ensures a == b
  {
    EncodeRoundTrip(a);
    EncodeRoundTrip(b);
  }

  function Sha256Hex(sha: Sha256, data: Bytes): string {
    EncodeLower(sha(data))
  }

  predicate ValidSha256(value: string) {
    |value| == 64 && forall i :: 0 <= i < 64 ==> IsLowerHex(value[i])
  }

  predicate ValidReceiptId(value: string) {
    |value| == 37 && value[..5] == "rcpt_" && forall i :: 5 <= i < 37 ==> IsLowerHex(value[i])
  }

  function ReceiptIdOf(digest: string): (id: string)
    requires |digest| >= 32
    ensures |id| == 37 && id[..5] == "rcpt_" && id[5..] == digest[..32]
  {
    "rcpt_" + digest[..32]
  }

  /** Every digest the program derives passes its own validators. */
  lemma DerivedShapes(sha: Sha256, data: Bytes)
    ensures ValidSha256(Sha256Hex(sha, data))
    ensures ValidReceiptId(ReceiptIdOf(Sha256Hex(sha, data)))
  {
    EncodeRoundTrip(sha(data));
    var id := ReceiptIdOf(Sha256Hex(sha, data));
    assert id[..5] == "rcpt_";
  }
}
