/** Fresh source connection ids and stateless reset tokens, drawn from a
    random byte source. */
module ConnIds {
  import opened Bytes

  /** `quiche::MAX_CONN_ID_LEN`. */
  const MAX_CONN_ID_LEN: nat := 20

  /** Length of a stateless reset token. */
  const RESET_TOKEN_LEN: nat := 16

  /** `generate_cid_and_reset_token`: the first `MAX_CONN_ID_LEN` random
      bytes become the connection id, the next 16 the reset token, read as
      a big-endian `u128`. `random` is what the generator fills in, in order. */
  function GenerateCidAndResetToken(random: seq<byte>): (r: (seq<byte>, nat))
    requires |random| >= MAX_CONN_ID_LEN + RESET_TOKEN_LEN
    ensures |r.0| == MAX_CONN_ID_LEN && r.0 == random[..MAX_CONN_ID_LEN]
  {
    (random[..MAX_CONN_ID_LEN], BigEndian(random[MAX_CONN_ID_LEN..MAX_CONN_ID_LEN + RESET_TOKEN_LEN]))
  }

  /** The reset token is a `u128` whose 16 big-endian bytes are the random
      bytes after the connection id. */
  lemma ResetTokenOfRandom(random: seq<byte>)
    requires |random| >= MAX_CONN_ID_LEN + RESET_TOKEN_LEN
    ensures var token := random[MAX_CONN_ID_LEN..MAX_CONN_ID_LEN + RESET_TOKEN_LEN];
            var r := GenerateCidAndResetToken(random);
            r.1 < Pow256(|token|) && ToBigEndian(r.1, |token|) == token
  {
    ToBigEndianOfBigEndian(random[MAX_CONN_ID_LEN..MAX_CONN_ID_LEN + RESET_TOKEN_LEN]);
  }
}
