/** Bytes and their big-endian reading, as `u128::from_be_bytes` does it. */
module Bytes {

  newtype byte = b: int | 0 <= b < 256

  function Pow256(n: nat): (r: nat)
    ensures r > 0
  {
    if n == 0 then 1 else 256 * Pow256(n - 1)
  }

  /** The unsigned integer whose big-endian representation is `bs`. */
  function BigEndian(bs: seq<byte>): (r: nat)
    ensures r < Pow256(|bs|)
  {
    if bs == [] then 0
    else BigEndian(bs[..|bs| - 1]) * 256 + bs[|bs| - 1] as nat
  }

  /** The `len` bytes of `n` in big-endian order (the inverse of BigEndian). */
  function ToBigEndian(n: nat, len: nat): (bs: seq<byte>)
    ensures |bs| == len
  {
    if len == 0 then [] else ToBigEndian(n / 256, len - 1) + [(n % 256) as byte]
  }

  lemma {:induction false} ToBigEndianOfBigEndian(bs: seq<byte>)
    ensures ToBigEndian(BigEndian(bs), |bs|) == bs
  {
    if bs != [] {
      var init := bs[..|bs| - 1];
      var n := BigEndian(bs);
      assert n / 256 == BigEndian(init);
      assert n % 256 == bs[|bs| - 1] as nat;
      ToBigEndianOfBigEndian(init);
      assert bs == init + [bs[|bs| - 1]];
    }
  }

  lemma {:induction false} BigEndianOfToBigEndian(n: nat, len: nat)
    requires n < Pow256(len)
    ensures BigEndian(ToBigEndian(n, len)) == n
  {
    if len > 0 {
      var q, r := n / 256, n % 256;
      var bs := ToBigEndian(n, len);
      assert bs == ToBigEndian(q, len - 1) + [r as byte];
      assert bs[..len - 1] == ToBigEndian(q, len - 1);
      assert bs[len - 1] as nat == r;
      BigEndianOfToBigEndian(q, len - 1);
      assert BigEndian(bs) == q * 256 + r;
    }
  }
}
