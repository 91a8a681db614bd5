/** The r2m2p2 demultiplexer: one UDP socket shared by QUIC and ICE/STUN,
    each datagram handed to the QUIC callback when the second-highest bit
    of its first byte (the QUIC fixed bit, section 17 of RFC 9000) is set
    and to the ICE callback otherwise. STUN messages start with two zero
    bits (section 5 of RFC 8489), so they always go to ICE. */
module R2Multiplexer {
  import opened Arith
  import opened Wrappers
  import opened Bytes

  /** `is_packet_quic`: bit 0x40 of the first byte. The source indexes the
      first byte, so the packet must not be empty. */
  function IsPacketQuic(b: seq<byte>): (r: bool)
    requires |b| > 0
    ensures r <==> (b[0] as int / 64) % 2 == 1
  {
    (b[0] as bv8) & 0x40 != 0
  }

  /** Every first byte below 64, which covers every STUN message, is not
      QUIC; and both QUIC header forms (first bits 11 and 01) are. */
  lemma StunIsNotQuic(b: seq<byte>)
    requires |b| > 0
    ensures b[0] < 64 ==> !IsPacketQuic(b)
    ensures 64 <= b[0] < 128 || 192 <= b[0] ==> IsPacketQuic(b)
  {
  }

  /** A registered callback function, by identity. */
  datatype Callback = Callback(id: nat)

  datatype Stack = Quic | Ice

  /** A call of a callback: which stack's callback was called, which
      function it was, and the receive buffer it was handed. */
  datatype Call = Call(stack: Stack, callback: Callback, buf: seq<byte>)

  /** What polling the socket yields: a datagram, or an error. */
  datatype Poll = Received(datagram: seq<byte>) | PollFailed

  /** The size of the receive buffer. */
  const RECV_BUF_LEN: nat := 65535

  /** The receive buffer as allocated: all zeros. */
  function Zeros(): (r: seq<byte>)
    ensures |r| == RECV_BUF_LEN && forall i | 0 <= i < |r| :: r[i] == 0
  {
    seq(RECV_BUF_LEN, _ => 0)
  }

  /** The receive buffer after `recv_from` stores a datagram at its start
      (truncated to the buffer); the rest keeps what was there. */
  function Receive(buf: seq<byte>, datagram: seq<byte>): (r: seq<byte>)
    ensures |r| == |buf|
    ensures r[..Min(|datagram|, |buf|)] == datagram[..Min(|datagram|, |buf|)]
    ensures r[Min(|datagram|, |buf|)..] == buf[Min(|datagram|, |buf|)..]
  {
    var n := Min(|datagram|, |buf|);
    datagram[..n] + buf[n..]
  }

  /** The call, if any, that one received buffer makes. */
  function CallFor(ice: Option<Callback>, quic: Option<Callback>, b: seq<byte>): seq<Call>
    requires |b| > 0
  {
    var stack := if IsPacketQuic(b[..1]) then Quic else Ice;
    var callback := if stack == Quic then quic else ice;
    if callback.Some? then [Call(stack, callback.value, b)] else []
  }

  /** The calls the multiplex loop makes for `polls[k..]`, starting from
      the receive buffer `buf`: it stops at the first poll error, and a
      datagram whose stack has no callback is dropped. */
  function Dispatched(ice: Option<Callback>, quic: Option<Callback>, buf: seq<byte>, polls: seq<Poll>, k: nat): (calls: seq<Call>)
    requires |buf| > 0 && k <= |polls|
    decreases |polls| - k
  {
    if k == |polls| || polls[k].PollFailed? then []
    else
      var b := Receive(buf, polls[k].datagram);
      CallFor(ice, quic, b) + Dispatched(ice, quic, b, polls, k + 1)
  }

  /** QUIC packets reach only the QUIC callback and everything else only
      the ICE callback; there is at most one call per poll. */
  lemma {:induction false} DispatchedToOwnStack(ice: Option<Callback>, quic: Option<Callback>, buf: seq<byte>, polls: seq<Poll>, k: nat)
    requires |buf| > 0 && k <= |polls|
    ensures |Dispatched(ice, quic, buf, polls, k)| <= |polls| - k
    ensures forall j | 0 <= j < |Dispatched(ice, quic, buf, polls, k)| ::
      var c := Dispatched(ice, quic, buf, polls, k)[j];
      && |c.buf| == |buf|
      && (c.stack == Quic <==> IsPacketQuic(c.buf[..1]))
      && (c.stack == Quic ==> quic == Some(c.callback))
      && (c.stack == Ice ==> ice == Some(c.callback))
    decreases |polls| - k
  {
    if k < |polls| && polls[k].Received? {
      var b := Receive(buf, polls[k].datagram);
      var call := CallFor(ice, quic, b);
      var rest := Dispatched(ice, quic, b, polls, k + 1);
      DispatchedToOwnStack(ice, quic, b, polls, k + 1);
      assert Dispatched(ice, quic, buf, polls, k) == call + rest;
      assert forall j | |call| <= j < |call + rest| :: (call + rest)[j] == rest[j - |call|];
    }
  }

  /** The loop ends at the first poll error: what follows it is never
      dispatched. */
  lemma {:induction false} DispatchedStopsAtError(ice: Option<Callback>, quic: Option<Callback>, buf: seq<byte>, polls: seq<Poll>, k: nat, i: nat)
    requires |buf| > 0
    requires k <= i < |polls| && polls[i].PollFailed?
    ensures Dispatched(ice, quic, buf, polls, k) == Dispatched(ice, quic, buf, polls[..i], k)
    decreases i - k
  {
    if k < i && polls[k].Received? {
      DispatchedStopsAtError(ice, quic, Receive(buf, polls[k].datagram), polls, k + 1, i);
    }
  }

  /** One turn of the multiplex loop, after the calls `calls`. */
  lemma DispatchedStep(ice: Option<Callback>, quic: Option<Callback>, calls: seq<Call>, before: seq<byte>, polls: seq<Poll>, k: nat)
    requires |before| > 0 && k < |polls| && polls[k].Received?
    ensures var after := Receive(before, polls[k].datagram);
      (calls + CallFor(ice, quic, after)) + Dispatched(ice, quic, after, polls, k + 1)
        == calls + Dispatched(ice, quic, before, polls, k)
  {
    var after := Receive(before, polls[k].datagram);
    var call := CallFor(ice, quic, after);
    var rest := Dispatched(ice, quic, after, polls, k + 1);
    assert Dispatched(ice, quic, before, polls, k) == call + rest by {
      assert k != |polls| && !polls[k].PollFailed?;
    }
    assert (calls + call) + rest == calls + (call + rest);
  }

  class Multiplexer {
    var iceCallback: Option<Callback>
    var quicCallback: Option<Callback>

    constructor ()
      ensures iceCallback == None && quicCallback == None
    {
      iceCallback := None;
      quicCallback := None;
    }

    method RegisterIceCallback(callback: Callback)
      modifies this`iceCallback
      ensures iceCallback == Some(callback)
    {
      iceCallback := Some(callback);
    }

    method RegisterQuicCallback(callback: Callback)
      modifies this`quicCallback
      ensures quicCallback == Some(callback)
    {
      quicCallback := Some(callback);
    }

    /** `start_multiplex`: receive each datagram into one buffer and hand
        the buffer to the callback of the datagram's stack, until polling
        fails (or, here, until `polls` runs out). */
    method StartMultiplex(polls: seq<Poll>) returns (calls: seq<Call>)
      ensures calls == Dispatched(iceCallback, quicCallback, Zeros(), polls, 0)
    {
      var buf := new byte[RECV_BUF_LEN](_ => 0);
      assert buf[..] == Zeros();
      calls := [];
      var k := 0;
      while k < |polls| && polls[k].Received?
        invariant k <= |polls| && buf.Length == RECV_BUF_LEN
        invariant calls + Dispatched(iceCallback, quicCallback, buf[..], polls, k)
               == Dispatched(iceCallback, quicCallback, Zeros(), polls, 0)
      {
        ghost var before := buf[..];
        RecvFrom(buf, polls[k].datagram);
        var received := buf[..];
        var call: seq<Call> := [];
        if IsPacketQuic(received[..1]) {
          if quicCallback.Some? {
            call := [Call(Quic, quicCallback.value, received)];
          }
        } else if iceCallback.Some? {
          call := [Call(Ice, iceCallback.value, received)];
        }
        DispatchedStep(iceCallback, quicCallback, calls, before, polls, k);
        calls := calls + call;
        k := k + 1;
      }
    }
  }

  /** `recv_from` into `buf`. */
  method RecvFrom(buf: array<byte>, datagram: seq<byte>)
    modifies buf
    ensures buf[..] == Receive(old(buf[..]), datagram)
  {
    var n := Min(|datagram|, buf.Length);
    for i := 0 to n
      invariant buf[..i] == datagram[..i]
      invariant buf[i..] == old(buf[..])[i..]
    {
      buf[i] := datagram[i];
    }
  }
}
