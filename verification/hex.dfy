/** Content digests. The SHA-1 compression function is abstract: a `Hasher`
    is any function from content to a 20-byte value. What is modelled is the
    step that turns those 20 bytes into the object name, two lower-case hex
    digits per byte, zero-padded (`setw(2) << setfill('0') << hex`).
 */
module Hex {
  import Text

  type byte = x: int | 0 <= x < 256

  /** SHA_DIGEST_LENGTH bytes. */
  type Raw20 = s: seq<byte> | |s| == 20 witness seq(20, _ => 0)

  /** SHA1_Init/SHA1_Update/SHA1_Final, left abstract. */
  type Hasher = string -> Raw20

  /** The digit `std::hex` prints for a nibble: 0-9, then lower-case a-f. */
  function HexDigit(k: nat): (c: char)
    requires k < 16
  {
    if k < 10 then ('0' as int + k) as char else ('a' as int + (k - 10)) as char
  }

  predicate IsHexDigit(c: char) {
    '0' <= c <= '9' || 'a' <= c <= 'f'
  }

  /** A well-formed object name: 40 lower-case hex digits. */
  predicate IsDigest(d: string) {
    |d| == 40 && forall i :: 0 <= i < |d| ==> IsHexDigit(d[i])
  }

  /** The value of a lower-case hex digit. */
  function DigitValue(c: char): (v: nat)
    requires IsHexDigit(c)
    ensures v < 16 && HexDigit(v) == c
  {
    if '0' <= c <= '9' then c as int - '0' as int else 10 + (c as int - 'a' as int)
  }

  /** One byte as two digits, high nibble first, zero-padded. */
  function HexByte(b: byte): string {
    [HexDigit(b / 16), HexDigit(b % 16)]
  }

  function HexEncode(bs: seq<byte>): (s: string)
    ensures |s| == 2 * |bs|
    ensures forall i :: 0 <= i < |s| ==> IsHexDigit(s[i])
  {
    if bs == [] then "" else HexByte(bs[0]) + HexEncode(bs[1..])
  }

  /** Byte `i` becomes characters `2i` (high nibble) and `2i+1` (low nibble). */
  lemma {:induction false} HexEncodeAt(bs: seq<byte>, i: nat)
    requires i < |bs|
    ensures HexEncode(bs)[2 * i] == HexDigit(bs[i] / 16)
    ensures HexEncode(bs)[2 * i + 1] == HexDigit(bs[i] % 16)
  {
    if i > 0 {
      HexEncodeAt(bs[1..], i - 1);
      var s := HexEncode(bs);
      assert s == HexByte(bs[0]) + HexEncode(bs[1..]);
      assert s[2 * i] == HexEncode(bs[1..])[2 * (i - 1)];
      assert s[2 * i + 1] == HexEncode(bs[1..])[2 * (i - 1) + 1];
    }
  }

  /** Reads pairs of hex digits back into bytes. */
  function HexDecode(s: string): (bs: seq<byte>)
    requires |s| % 2 == 0
    requires forall i :: 0 <= i < |s| ==> IsHexDigit(s[i])
    ensures |bs| == |s| / 2
  {
    if s == [] then []
    else [16 * DigitValue(s[0]) + DigitValue(s[1])] + HexDecode(s[2..])
  }

  /** The hex text determines the bytes: no two digests share a name. */
  lemma {:induction false} HexRoundTrip(bs: seq<byte>)
    ensures HexDecode(HexEncode(bs)) == bs
  {
    if bs != [] {
      var s := HexEncode(bs);
      assert s[2..] == HexEncode(bs[1..]);
      HexRoundTrip(bs[1..]);
      var b := bs[0];
      assert DigitValue(HexDigit(b / 16)) == b / 16;
      assert DigitValue(HexDigit(b % 16)) == b % 16;
      assert 16 * (b / 16) + b % 16 == b;
    }
  }

  /** `SHA1(data)`: the hex rendering of the raw digest. */
  function Digest(sha: Hasher, data: string): (d: string)
    ensures IsDigest(d)
  {
    HexEncode(sha(data))
  }

  /** Two contents get the same object name exactly when their raw digests agree. */
  lemma DigestInjective(sha: Hasher, a: string, b: string)
    ensures Digest(sha, a) == Digest(sha, b) <==> sha(a) == sha(b)
  {
    HexRoundTrip(sha(a));
    HexRoundTrip(sha(b));
  }

  /** A digest is a single word with no newline and no "ref:" marker, so it
      survives every text format the repository writes it into. */
  lemma DigestIsWord(d: string)
    requires IsDigest(d)
    ensures Text.IsToken(d) && Text.OneLine(d)
    ensures !Text.Contains(d, "ref:")
  {
    if Text.Contains(d, "ref:") {
      Text.ContainsFirstChar(d, "ref:");
    }
  }
}
