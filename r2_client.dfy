/** The r2m2p2 client's `hex_dump`: every byte as two lower-case hex digits,
    with nothing between them. */
module R2Client {
  import opened Bytes

  const HEX_DIGITS: string := "0123456789abcdef"

  /** The digit `{:x}` prints for a value below 16. */
  function HexDigit(n: nat): (c: char)
    requires n < 16
    ensures c in HEX_DIGITS
  {
    HEX_DIGITS[n]
  }

  /** `{b:02x}`: the high and the low digit of a byte. */
  function HexByte(b: byte): (r: string)
    ensures |r| == 2
  {
    [HexDigit(b as nat / 16), HexDigit(b as nat % 16)]
  }

  /** `hex_dump`: `{b:02x}` for every byte, joined with no separator. */
  function HexDump(buf: seq<byte>): (r: string)
    ensures |r| == 2 * |buf|
  {
    if buf == [] then [] else HexByte(buf[0]) + HexDump(buf[1..])
  }

  /** Byte `i` of the buffer is digits `2i` and `2i + 1` of the dump. */
  lemma {:induction false} HexDumpAt(buf: seq<byte>, i: nat)
    requires i < |buf|
    ensures HexDump(buf)[2 * i..2 * i + 2] == HexByte(buf[i])
  {
    if i > 0 {
      HexDumpAt(buf[1..], i - 1);
      assert HexDump(buf)[2..] == HexDump(buf[1..]);
      assert HexDump(buf)[2 * i..2 * i + 2] == HexDump(buf[1..])[2 * (i - 1)..2 * (i - 1) + 2];
    }
  }

  /** The output is made of lower-case hex digits only. */
  lemma HexDumpDigits(buf: seq<byte>)
    ensures forall k | 0 <= k < |HexDump(buf)| :: HexDump(buf)[k] in HEX_DIGITS
  {
    var r := HexDump(buf);
    forall k | 0 <= k < |r|
      ensures r[k] in HEX_DIGITS
    {
      var i := k / 2;
      HexDumpAt(buf, i);
      assert r[k] == r[2 * i..2 * i + 2][k - 2 * i];
    }
  }

  /** The value of a lower-case hex digit. */
  function DigitOf(c: char): (n: nat)
    ensures n < 16
    ensures c in HEX_DIGITS ==> HexDigit(n) == c
  {
    if '0' <= c <= '9' then c as nat - '0' as nat
    else if 'a' <= c <= 'f' then c as nat - 'a' as nat + 10
    else 0
  }

  /** Reading a dump back, two digits per byte (a last odd digit is
      ignored). */
  function UnHex(s: string): seq<byte> {
    if |s| < 2 then [] else [PairValue(s[0], s[1])] + UnHex(s[2..])
  }

  /** The byte two hex digits stand for, the high one first. */
  function PairValue(high: char, low: char): byte {
    (DigitOf(high) * 16 + DigitOf(low)) as byte
  }

  lemma DigitOfHexDigit(n: nat)
    requires n < 16
    ensures DigitOf(HexDigit(n)) == n
  {
  }

  /** Decoding the dump in pairs gives back the bytes. */
  lemma {:induction false} UnHexHexDump(buf: seq<byte>)
    ensures UnHex(HexDump(buf)) == buf
  {
    if buf != [] {
      var head, rest := HexByte(buf[0]), HexDump(buf[1..]);
      calc {
        UnHex(HexDump(buf));
        UnHex(head + rest);
        { UnHexCons(head, rest); FirstByte(buf[0]); }
        [buf[0]] + UnHex(rest);
        { UnHexHexDump(buf[1..]); }
        [buf[0]] + buf[1..];
        buf;
      }
    }
  }

  /** Two digits in front of a string decode to one byte in front of its
      decoding. */
  lemma UnHexCons(head: string, rest: string)
    requires |head| == 2
    ensures UnHex(head + rest) == [PairValue(head[0], head[1])] + UnHex(rest)
  {
    var s := head + rest;
    assert s[0] == head[0] && s[1] == head[1] && s[2..] == rest;
  }

  /** The two digits of a byte read back as the byte. */
  lemma FirstByte(b: byte)
    ensures PairValue(HexByte(b)[0], HexByte(b)[1]) == b
  {
    DigitOfHexDigit(b as nat / 16);
    DigitOfHexDigit(b as nat % 16);
  }

  /** An empty buffer dumps to the empty string, and a dump is empty only
      for an empty buffer. */
  lemma HexDumpEmpty(buf: seq<byte>)
    ensures HexDump(buf) == [] <==> buf == []
  {
  }
}
