/** r2m2p2's socket helpers: the default bind address and `send_to`, which
    cuts a buffer of coalesced packets into datagrams of at most one
    segment each. The UDP socket is a stand-in that records what it is
    handed and answers from a script. */
module R2Common {
  import opened Arith
  import Wrappers
  import opened Bytes

  /** `bind_socket`'s address when the caller gives none: any interface,
      any port. */
  const DEFAULT_BIND: string := "0.0.0.0:0"

  function BindAddress(address: Wrappers.Option<string>): (r: string)
    ensures address.Some? ==> r == address.value
    ensures address.None? ==> r == DEFAULT_BIND
  {
    address.GetOr(DEFAULT_BIND)
  }

  datatype IoError = WouldBlock | OtherIo

  /** `std::io::Result<usize>`. */
  datatype IoResult = Ok(value: nat) | Err(error: IoError)

  /** The `k`-th answer of a socket script; a socket whose script has run
      out accepts the whole datagram. */
  function Reply(replies: seq<IoResult>, k: nat, len: nat): IoResult {
    if k < |replies| then replies[k] else Ok(len)
  }

  function Rest<T>(s: seq<T>): (r: seq<T>)
    ensures |s| > 0 ==> r == s[1..]
    ensures |s| == 0 ==> r == []
  {
    if s == [] then [] else s[1..]
  }

  class UdpSocket {
    /** Every datagram handed to `send_to`, in order. */
    var datagrams: seq<seq<byte>>
    /** What the next `send_to` calls answer. */
    var replies: seq<IoResult>

    constructor (replies: seq<IoResult>)
      ensures datagrams == [] && this.replies == replies
    {
      datagrams := [];
      this.replies := replies;
    }

    method SendTo(data: seq<byte>) returns (r: IoResult)
      modifies this
      ensures datagrams == old(datagrams) + [data]
      ensures r == Reply(old(replies), 0, |data|) && replies == Rest(old(replies))
    {
      datagrams := datagrams + [data];
      r := Reply(replies, 0, |data|);
      replies := Rest(replies);
    }
  }

  /** The datagrams `send_to` cuts `buf[off..]` into: consecutive pieces
      of `min(left, segmentSize)` bytes. */
  function Segments(buf: seq<byte>, off: nat, segmentSize: nat): (segs: seq<seq<byte>>)
    requires off <= |buf|
    requires off < |buf| ==> segmentSize > 0
    decreases |buf| - off
  {
    if off == |buf| then []
    else
      var n := Min(|buf| - off, segmentSize);
      [buf[off..off + n]] + Segments(buf, off + n, segmentSize)
  }

  /** Every datagram is non-empty and at most one segment long, and all
      but the last are exactly one segment long. */
  lemma {:induction false} SegmentsShape(buf: seq<byte>, off: nat, segmentSize: nat)
    requires off <= |buf|
    requires off < |buf| ==> segmentSize > 0
    ensures forall k | 0 <= k < |Segments(buf, off, segmentSize)| ::
      0 < |Segments(buf, off, segmentSize)[k]| <= segmentSize
    ensures forall k | 0 <= k < |Segments(buf, off, segmentSize)| - 1 ::
      |Segments(buf, off, segmentSize)[k]| == segmentSize
    decreases |buf| - off
  {
    if off < |buf| {
      var n := Min(|buf| - off, segmentSize);
      SegmentsShape(buf, off + n, segmentSize);
      var tail := Segments(buf, off + n, segmentSize);
      var segs := Segments(buf, off, segmentSize);
      assert segs == [buf[off..off + n]] + tail;
      assert forall k | 1 <= k < |segs| :: segs[k] == tail[k - 1];
      if n < segmentSize {
        assert off + n == |buf|;
        assert tail == [];
      }
    }
  }

  function Concat(segs: seq<seq<byte>>): seq<byte> {
    if segs == [] then [] else segs[0] + Concat(segs[1..])
  }

  /** The datagrams cover the buffer exactly and in order. */
  lemma {:induction false} ConcatSegments(buf: seq<byte>, off: nat, segmentSize: nat)
    requires off <= |buf|
    requires off < |buf| ==> segmentSize > 0
    ensures Concat(Segments(buf, off, segmentSize)) == buf[off..]
    decreases |buf| - off
  {
    if off < |buf| {
      var n := Min(|buf| - off, segmentSize);
      var segs := Segments(buf, off, segmentSize);
      assert segs[1..] == Segments(buf, off + n, segmentSize);
      ConcatSegments(buf, off + n, segmentSize);
      assert buf[off..off + n] + buf[off + n..] == buf[off..];
    }
  }

  /** How a run of `send_to` over `buf[off..]` ends: the datagrams handed
      to the socket, and the sum of what it reported or its first error. */
  datatype SendOutcome = SendOutcome(sent: seq<seq<byte>>, result: IoResult)

  function Outcome(buf: seq<byte>, off: nat, segmentSize: nat, replies: seq<IoResult>): (o: SendOutcome)
    requires off <= |buf|
    requires off < |buf| ==> segmentSize > 0
    decreases |buf| - off
  {
    if off == |buf| then SendOutcome([], Ok(0))
    else
      var n := Min(|buf| - off, segmentSize);
      var first := Reply(replies, 0, n);
      if first.Err? then SendOutcome([buf[off..off + n]], first)
      else Shifted([buf[off..off + n]], first.value, Outcome(buf, off + n, segmentSize, Rest(replies)))
  }

  /** An outcome of the remaining calls, seen after the datagrams `sent`
      that reported `written` bytes in total. */
  function Shifted(sent: seq<seq<byte>>, written: nat, o: SendOutcome): SendOutcome {
    SendOutcome(sent + o.sent, if o.result.Ok? then Ok(written + o.result.value) else o.result)
  }

  /** A run hands the socket the segments in order: all of them when it
      succeeds, a non-empty prefix when it fails. */
  lemma {:induction false} OutcomeSentPrefix(buf: seq<byte>, off: nat, segmentSize: nat, replies: seq<IoResult>)
    requires off <= |buf|
    requires off < |buf| ==> segmentSize > 0
    ensures |Outcome(buf, off, segmentSize, replies).sent| <= |Segments(buf, off, segmentSize)|
    ensures Outcome(buf, off, segmentSize, replies).sent ==
      Segments(buf, off, segmentSize)[..|Outcome(buf, off, segmentSize, replies).sent|]
    ensures Outcome(buf, off, segmentSize, replies).result.Ok? ==>
      Outcome(buf, off, segmentSize, replies).sent == Segments(buf, off, segmentSize)
    ensures Outcome(buf, off, segmentSize, replies).result.Err? ==>
      |Outcome(buf, off, segmentSize, replies).sent| > 0
    decreases |buf| - off
  {
    if off < |buf| {
      var n := Min(|buf| - off, segmentSize);
      var tail := Segments(buf, off + n, segmentSize);
      assert Segments(buf, off, segmentSize) == [buf[off..off + n]] + tail;
      if Reply(replies, 0, n).Ok? {
        var o' := Outcome(buf, off + n, segmentSize, Rest(replies));
        OutcomeSentPrefix(buf, off + n, segmentSize, Rest(replies));
        assert ([buf[off..off + n]] + tail)[..|o'.sent| + 1] == [buf[off..off + n]] + tail[..|o'.sent|];
      }
    }
  }

  /** The `k`-th call of a run: its datagram is the `k`-th segment. */
  function CallReply(buf: seq<byte>, off: nat, segmentSize: nat, replies: seq<IoResult>, k: nat): IoResult
    requires off <= |buf|
    requires off < |buf| ==> segmentSize > 0
    requires k < |Segments(buf, off, segmentSize)|
  {
    Reply(replies, k, |Segments(buf, off, segmentSize)[k]|)
  }

  /** A run stops at the first error and returns it: every call before the
      last one succeeded, and so did the last one unless the run failed. */
  lemma {:induction false} OutcomeFirstError(buf: seq<byte>, off: nat, segmentSize: nat, replies: seq<IoResult>, k: nat)
    requires off <= |buf|
    requires off < |buf| ==> segmentSize > 0
    requires k < |Outcome(buf, off, segmentSize, replies).sent|
    ensures k < |Segments(buf, off, segmentSize)|
    ensures k < |Outcome(buf, off, segmentSize, replies).sent| - 1 ==> CallReply(buf, off, segmentSize, replies, k).Ok?
    ensures k == |Outcome(buf, off, segmentSize, replies).sent| - 1 ==>
      match Outcome(buf, off, segmentSize, replies).result
      case Ok(_) => CallReply(buf, off, segmentSize, replies, k).Ok?
      case Err(e) => CallReply(buf, off, segmentSize, replies, k) == Err(e)
    decreases |buf| - off
  {
    OutcomeSentPrefix(buf, off, segmentSize, replies);
    var n := Min(|buf| - off, segmentSize);
    var tail := Segments(buf, off + n, segmentSize);
    assert Segments(buf, off, segmentSize) == [buf[off..off + n]] + tail;
    if k > 0 {
      OutcomeFirstError(buf, off + n, segmentSize, Rest(replies), k - 1);
      assert Segments(buf, off, segmentSize)[k] == tail[k - 1];
    }
  }

  /** `send_to`: hand `buf` to the socket segment by segment, adding up
      what it reports and returning its first error. */
  method SendTo(socket: UdpSocket, buf: seq<byte>, segmentSize: nat) returns (r: IoResult)
    requires |buf| > 0 ==> segmentSize > 0
    modifies socket
    ensures var o := Outcome(buf, 0, segmentSize, old(socket.replies));
      r == o.result && socket.datagrams == old(socket.datagrams) + o.sent
  {
    ghost var replies0 := socket.replies;
    var off: nat := 0;
    var left: nat := |buf|;
    var written: nat := 0;
    assert Shifted([], 0, Outcome(buf, 0, segmentSize, replies0)) == Outcome(buf, 0, segmentSize, replies0);
    while left > 0
      invariant off + left == |buf|
      invariant |old(socket.datagrams)| <= |socket.datagrams|
      invariant socket.datagrams[..|old(socket.datagrams)|] == old(socket.datagrams)
      invariant Outcome(buf, 0, segmentSize, replies0) ==
        Shifted(socket.datagrams[|old(socket.datagrams)|..], written, Outcome(buf, off, segmentSize, socket.replies))
      decreases left
    {
      var pktLen := Min(left, segmentSize);
      ghost var replies := socket.replies;
      ghost var sent := socket.datagrams[|old(socket.datagrams)|..];
      var res := socket.SendTo(buf[off..off + pktLen]);
      assert socket.datagrams[|old(socket.datagrams)|..] == sent + [buf[off..off + pktLen]];
      match res {
        case Ok(v) =>
          ShiftedTwice(sent, buf[off..off + pktLen], written, v, Outcome(buf, off + pktLen, segmentSize, Rest(replies)));
          written := written + v;
        case Err(e) =>
          return Err(e);
      }
      off := off + pktLen;
      left := left - pktLen;
    }
    r := Ok(written);
  }

  lemma ShiftedTwice(sent: seq<seq<byte>>, d: seq<byte>, written: nat, v: nat, o: SendOutcome)
    ensures Shifted(sent, written, Shifted([d], v, o)) == Shifted(sent + [d], written + v, o)
  {
    assert sent + ([d] + o.sent) == sent + [d] + o.sent;
  }
}
