/** IP and socket addresses as the modelled code inspects them. */
module Net {
  import opened Bytes

  datatype IpAddr = V4(v4: seq<byte>) | V6(v6: seq<byte>)
  {
    /** `octets()`: the address bytes, 4 for IPv4 and 16 for IPv6. */
    function Octets(): seq<byte> {
      if V4? then v4 else v6
    }

    predicate WellFormed() {
      if V4? then |v4| == 4 else |v6| == 16
    }
  }

  datatype SocketAddr = SocketAddr(ip: IpAddr, port: nat)
}
