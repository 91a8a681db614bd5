/** The stateless-retry address-validation token (section 8.1.2 of RFC 9000)
    as both r2m2p2 servers build and check it: the bytes "quiche", then the
    client's IP address octets, then the original destination connection
    id. The token carries no cryptographic protection. */
module RetryToken {
  import opened Wrappers
  import opened Bytes
  import opened Net

  /** The ASCII bytes of "quiche". */
  const PREFIX: seq<byte> := [0x71, 0x75, 0x69, 0x63, 0x68, 0x65]

  /** `mint_token` / `create_new_token`. */
  function Mint(dcid: seq<byte>, src: SocketAddr): (token: seq<byte>)
    ensures |token| == |PREFIX| + |src.ip.Octets()| + |dcid|
    ensures token[..|PREFIX|] == PREFIX
    ensures token[|PREFIX|..|PREFIX| + |src.ip.Octets()|] == src.ip.Octets()
    ensures token[|PREFIX| + |src.ip.Octets()|..] == dcid
  {
    PREFIX + src.ip.Octets() + dcid
  }

  /** `validate_token`: the connection id after the prefix and the source
      address, or `None` when the token is too short, lacks the prefix or
      names another address. */
  function Validate(src: SocketAddr, token: seq<byte>): (r: Option<seq<byte>>)
    ensures r.Some? <==>
      && |token| >= |PREFIX| + |src.ip.Octets()|
      && token[..|PREFIX|] == PREFIX
      && token[|PREFIX|..|PREFIX| + |src.ip.Octets()|] == src.ip.Octets()
    ensures r.Some? ==> token == PREFIX + src.ip.Octets() + r.value
  {
    if |token| < 6 then None
    else if token[..6] != PREFIX then None
    else
      var rest := token[6..];
      var addr := src.ip.Octets();
      if |rest| < |addr| || rest[..|addr|] != addr then None
      else Some(rest[|addr|..])
  }

  /** A minted token validates, for the same source address, to the id it
      was minted with. */
  lemma ValidateMint(dcid: seq<byte>, src: SocketAddr)
    ensures Validate(src, Mint(dcid, src)) == Some(dcid)
  {
    var token := Mint(dcid, src);
    assert token[6..][|src.ip.Octets()|..] == dcid;
  }

  /** Conversely, a token that validates is the one minted for that address
      and the id it yields. */
  lemma MintOfValidate(src: SocketAddr, token: seq<byte>)
    requires Validate(src, token).Some?
    ensures Mint(Validate(src, token).value, src) == token
  {
  }

  /** A token minted for one address does not validate for another address
      of the same family. */
  lemma ValidateOtherAddress(dcid: seq<byte>, a: SocketAddr, b: SocketAddr)
    requires a.ip.WellFormed() && b.ip.WellFormed()
    requires a.ip.V4? == b.ip.V4?
    requires a.ip.Octets() != b.ip.Octets()
    ensures Validate(b, Mint(dcid, a)) == None
  {
    var token := Mint(dcid, a);
    assert token[6..][..|b.ip.Octets()|] == a.ip.Octets();
  }
}
