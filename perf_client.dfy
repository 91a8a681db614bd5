/** The quicheperf client's socket bookkeeping: one pending datagram per
    socket, the send loop that never schedules over a pending datagram,
    path probing and the close verdict. */
module PerfClient {
  import opened Wrappers
  import opened Bytes
  import opened Net
  import opened Quiche
  import opened PerfProtocol

  /** `MAX_DATAGRAM_SIZE`: the size of each socket's send buffer. */
  const MAX_DATAGRAM_SIZE: nat := 1350

  /** The close code used when the connection fails to produce a packet. */
  const CLOSE_SEND_FAILED: nat := 0x1

  datatype ClientError = HandshakeFail | IOFail(osError: string) | Other(message: string)

  /** What the operating system answers to one `send_to`. */
  datatype SendOutcome = Sent(n: nat) | WouldBlock | Failed(osError: string)

  /** One UDP socket and the datagram waiting to be written to it. */
  class SocketState {
    const buf: array<byte>
    var until: nat
    var to: Option<SocketAddr>
    var wouldBlockCntr: nat
    /** What the socket accepted so far: each datagram's length and
        destination. */
    var datagrams: seq<(nat, SocketAddr)>

    ghost predicate Valid()
      reads this
    {
      buf.Length == MAX_DATAGRAM_SIZE && until <= buf.Length
    }

    constructor ()
      ensures Valid() && fresh(buf)
      ensures until == 0 && to == None && wouldBlockCntr == 0 && datagrams == []
    {
      buf := new byte[MAX_DATAGRAM_SIZE](_ => 0);
      until := 0;
      to := None;
      wouldBlockCntr := 0;
      datagrams := [];
    }

    /** This socket as a value. */
    function View(): SocketView
      reads this, buf
    {
      SocketView(to, until, wouldBlockCntr, datagrams, buf[..])
    }

    /** `send_pending`: a datagram is waiting exactly when a destination is
        stored. */
    predicate SendPending()
      reads this
    {
      to.Some?
    }

    /** `schedule_send`: remember the first `until` bytes of the buffer (after
        copying `data` into it, if given) for `to`. Scheduling over a
        pending datagram is a panic in the source, so it is excluded here. */
    method ScheduleSend(data: Option<seq<byte>>, until: nat, to: SocketAddr)
      requires Valid() && !SendPending()
      requires until <= MAX_DATAGRAM_SIZE
      requires data.Some? ==> |data.value| == MAX_DATAGRAM_SIZE
      modifies this`until, this`to, buf
      ensures Valid() && SendPending()
      ensures this.until == until && this.to == Some(to)
      ensures data.Some? ==> buf[..] == data.value
      ensures data.None? ==> buf[..] == old(buf[..])
    {
      if data.Some? {
        for i := 0 to buf.Length
          invariant buf[..i] == data.value[..i]
        {
          buf[i] := data.value[i];
        }
      }
      this.until := until;
      this.to := Some(to);
    }

    /** `try_send`: hand the pending datagram to the socket. A datagram the
        socket accepts is no longer pending; one that would block stays
        pending and is counted; any other error is reported. */
    method TrySend(outcome: SendOutcome) returns (r: Result<nat, ClientError>)
      modifies this`to, this`wouldBlockCntr, this`datagrams
      ensures !old(SendPending()) ==> r == Ok(0) && unchanged(this)
      ensures old(SendPending()) && outcome.Sent? ==>
        && r == Ok(outcome.n) && to == None && wouldBlockCntr == old(wouldBlockCntr)
        && datagrams == old(datagrams) + [(until, old(to).value)]
      ensures old(SendPending()) && outcome.WouldBlock? ==>
        r == Ok(0) && to == old(to) && wouldBlockCntr == old(wouldBlockCntr) + 1 && datagrams == old(datagrams)
      ensures old(SendPending()) && outcome.Failed? ==>
        && r == Err(IOFail(outcome.osError))
        && to == old(to) && wouldBlockCntr == old(wouldBlockCntr) && datagrams == old(datagrams)
    {
      if to.None? {
        return Ok(0);
      }
      match outcome {
        case Sent(n) =>
          datagrams := datagrams + [(until, to.value)];
          to := None;
          r := Ok(n);
        case WouldBlock =>
          wouldBlockCntr := wouldBlockCntr + 1;
          r := Ok(0);
        case Failed(e) =>
          r := Err(IOFail(e));
      }
    }
  }

  /** The path the scheduler picks next (its sending instructions are not
      part of this model). */
  datatype Decision = Decision(local: SocketAddr, peer: SocketAddr)

  /** What `send_on_path_with_instructions` answers: the packet it wrote
      into the socket's buffer and its destination, `Done`, or another
      error. */
  datatype ConnAnswer = Written(packet: seq<byte>, to: SocketAddr) | ConnDone | ConnError

  /** One socket's state as a value: the pending destination, the pending
      length, the would-block count, what was sent and the buffer. */
  datatype SocketView = SocketView(
    to: Option<SocketAddr>,
    until: nat,
    wouldBlockCntr: nat,
    datagrams: seq<(nat, SocketAddr)>,
    buf: seq<byte>)

  /** Where the send loop ends: the sockets, whether the connection failed
      to write (and is to be closed), and what `send` returns. */
  datatype SendEnd = SendEnd(views: seq<SocketView>, connFailed: bool, r: Result<(), ClientError>)

  /** A buffer after `packet` was written at its start. The connection
      never writes past the end of the buffer it is given; a longer packet
      is taken to replace the buffer. */
  function Overwritten(buf: seq<byte>, packet: seq<byte>): (b: seq<byte>)
    ensures |packet| <= |buf| ==> |b| == |buf| && b[..|packet|] == packet && b[|packet|..] == buf[|packet|..]
  {
    if |packet| <= |buf| then packet + buf[|packet|..] else packet
  }

  /** A socket after a packet written for `to` was scheduled on it and
      tried once: a datagram the socket takes is recorded and no longer
      pending, one that would block stays pending and is counted, and after
      any other error it stays pending. */
  function Tried(v: SocketView, packet: seq<byte>, to: SocketAddr, outcome: SendOutcome): (w: SocketView)
    ensures w.until == |packet| && w.buf == Overwritten(v.buf, packet)
    ensures w.to == (if outcome.Sent? then None else Some(to))
    ensures w.datagrams == v.datagrams + (if outcome.Sent? then [(|packet|, to)] else [])
    ensures w.wouldBlockCntr == v.wouldBlockCntr + (if outcome.WouldBlock? then 1 else 0)
  {
    var scheduled := v.(to := Some(to), until := |packet|, buf := Overwritten(v.buf, packet));
    match outcome
    case Sent(_) => scheduled.(to := None, datagrams := v.datagrams + [(|packet|, to)])
    case WouldBlock => scheduled.(wouldBlockCntr := v.wouldBlockCntr + 1)
    case Failed(_) => scheduled
  }

  /** What the send loop needs of its inputs: every picked local address
      has one of the `n` sockets, and there is an answer and an outcome for
      every decision. */
  ghost predicate SendInputs(n: nat, tokens: map<SocketAddr, nat>, decisions: seq<Decision>,
                             answers: seq<ConnAnswer>, outcomes: seq<SendOutcome>)
  {
    && (forall i | 0 <= i < |decisions| :: decisions[i].local in tokens && tokens[decisions[i].local] < n)
    && |answers| >= |decisions| && |outcomes| >= |decisions|
  }

  /** The send loop of `send` over values, from decision `k` on: a socket
      with a datagram pending ends the loop, and so do `Done` and a failing
      connection. A written packet is scheduled on the decision's socket
      for its destination and tried at once (`Tried`); a socket error other
      than would-block ends the loop with that error. */
  function SendRun(views: seq<SocketView>, tokens: map<SocketAddr, nat>, decisions: seq<Decision>,
                   answers: seq<ConnAnswer>, outcomes: seq<SendOutcome>, k: nat): (e: SendEnd)
    requires SendInputs(|views|, tokens, decisions, answers, outcomes)
    ensures |e.views| == |views|
    decreases |decisions| - k
  {
    if k >= |decisions| then SendEnd(views, false, Ok(()))
    else
      var t := tokens[decisions[k].local];
      if views[t].to.Some? then SendEnd(views, false, Ok(()))
      else
        match answers[k]
        case ConnDone => SendEnd(views, false, Ok(()))
        case ConnError => SendEnd(views, true, Ok(()))
        case Written(packet, to) =>
          var next := views[t := Tried(views[t], packet, to, outcomes[k])];
          if outcomes[k].Failed? then SendEnd(next, false, Err(IOFail(outcomes[k].osError)))
          else SendRun(next, tokens, decisions, answers, outcomes, k + 1)
  }

  /** The send loop never touches a socket with a datagram pending, never
      forgets a sent datagram and never lowers a would-block count. */
  lemma {:induction false} SendRunMonotone(views: seq<SocketView>, tokens: map<SocketAddr, nat>,
                                           decisions: seq<Decision>, answers: seq<ConnAnswer>,
                                           outcomes: seq<SendOutcome>, k: nat)
    requires SendInputs(|views|, tokens, decisions, answers, outcomes)
    ensures var e := SendRun(views, tokens, decisions, answers, outcomes, k);
      forall i | 0 <= i < |views| ::
        && (views[i].to.Some? ==> e.views[i] == views[i])
        && views[i].datagrams <= e.views[i].datagrams
        && views[i].wouldBlockCntr <= e.views[i].wouldBlockCntr
    decreases |decisions| - k
  {
    if k < |decisions| {
      var t := tokens[decisions[k].local];
      if views[t].to.None? && answers[k].Written? && !outcomes[k].Failed? {
        var next := views[t := Tried(views[t], answers[k].packet, answers[k].to, outcomes[k])];
        SendRunMonotone(next, tokens, decisions, answers, outcomes, k + 1);
      }
    }
  }

  /** The connection's write of `packet` into the socket's buffer. */
  method WritePacket(buf: array<byte>, packet: seq<byte>)
    requires |packet| <= buf.Length
    modifies buf
    ensures buf[..] == Overwritten(old(buf[..]), packet)
  {
    for i := 0 to |packet|
      invariant buf[..i] == packet[..i] && buf[i..] == old(buf[i..])
    {
      buf[i] := packet[i];
    }
  }

  class Client {
    const localAddrs: seq<SocketAddr>
    const peerAddrs: seq<SocketAddr>
    const sockets: seq<SocketState>
    /** Which socket serves each local address. */
    const srcAddrTokens: map<SocketAddr, nat>
    const conn: Connection<Chunk>
    var probedPaths: nat

    ghost predicate Valid()
      reads this, set i | 0 <= i < |sockets| :: sockets[i]
    {
      && 1 <= probedPaths <= |localAddrs|
      && (forall a | a in srcAddrTokens :: srcAddrTokens[a] < |sockets|)
      && (forall i | 0 <= i < |sockets| :: sockets[i].Valid())
      && (forall i, j | 0 <= i < j < |sockets| :: sockets[i] != sockets[j] && sockets[i].buf != sockets[j].buf)
    }

    /** The sockets as values. */
    function Views(): (vs: seq<SocketView>)
      reads this, set i | 0 <= i < |sockets| :: sockets[i], set i | 0 <= i < |sockets| :: sockets[i].buf
      ensures |vs| == |sockets|
    {
      seq(|sockets|, i requires 0 <= i < |sockets|
                       reads set j | 0 <= j < |sockets| :: sockets[j], set j | 0 <= j < |sockets| :: sockets[j].buf
                     => sockets[i].View())
    }

    /** `new` for sockets already bound to `localAddrs`: one socket per
        local address, the first path counted as probed. */
    constructor (localAddrs: seq<SocketAddr>, peerAddrs: seq<SocketAddr>, conn: Connection<Chunk>)
      requires |localAddrs| >= 1 && |peerAddrs| >= 1
      ensures Valid()
      ensures this.localAddrs == localAddrs && this.peerAddrs == peerAddrs && this.conn == conn
      ensures probedPaths == 1 && |sockets| == |localAddrs|
      ensures forall i | 0 <= i < |sockets| :: fresh(sockets[i]) && !sockets[i].SendPending()
      ensures srcAddrTokens.Keys == set a | a in localAddrs
    {
      var socks: seq<SocketState> := [];
      var tokens: map<SocketAddr, nat> := map[];
      for i := 0 to |localAddrs|
        invariant |socks| == i
        invariant forall j | 0 <= j < i ::
          fresh(socks[j]) && fresh(socks[j].buf) && socks[j].Valid() && !socks[j].SendPending()
        invariant forall j, l | 0 <= j < l < i :: socks[j] != socks[l] && socks[j].buf != socks[l].buf
        invariant forall a | a in tokens :: tokens[a] < i
        invariant tokens.Keys == set j | 0 <= j < i :: localAddrs[j]
      {
        var s := new SocketState();
        tokens := tokens[localAddrs[i] := |socks|];
        socks := socks + [s];
      }
      assert (set j | 0 <= j < |localAddrs| :: localAddrs[j]) == set a | a in localAddrs;
      this.localAddrs := localAddrs;
      this.peerAddrs := peerAddrs;
      this.conn := conn;
      sockets := socks;
      srcAddrTokens := tokens;
      probedPaths := 1;
    }

    /** `probe_paths_if_necessary`: probe the next configured path when the
        peer has left a connection id for it; count it once the probe
        starts. `probeOk` is whether `probe_path` succeeds. */
    method ProbePathsIfNecessary(availableDcids: nat, probeOk: bool) returns (r: Result<(), ClientError>)
      requires Valid()
      requires probedPaths < |localAddrs| ==> probedPaths < |peerAddrs|
      modifies this`probedPaths
      ensures Valid() && r == Ok(())
      ensures probedPaths == old(probedPaths) +
        (if old(probedPaths) < |localAddrs| && availableDcids > 0 && probeOk then 1 else 0)
    {
      if probedPaths < |localAddrs| {
        if availableDcids > 0 && probeOk {
          probedPaths := probedPaths + 1;
        }
      }
      r := Ok(());
    }

    /** `send`: for each path the scheduler picks (`decisions`, in order),
        stop at a socket that still has a datagram pending; otherwise let
        the connection write a packet into that socket's buffer (`answers`)
        and try to send it at once (`outcomes`). A failing connection is
        closed with code 0x1. The sockets end as `SendRun` says. */
    method Send(decisions: seq<Decision>, answers: seq<ConnAnswer>, outcomes: seq<SendOutcome>)
      returns (r: Result<(), ClientError>)
      requires Valid()
      requires forall i | 0 <= i < |decisions| :: decisions[i].local in srcAddrTokens
      requires |answers| >= |decisions| && |outcomes| >= |decisions|
      requires forall i | 0 <= i < |answers| :: answers[i].Written? ==> |answers[i].packet| <= MAX_DATAGRAM_SIZE
      modifies set i | 0 <= i < |sockets| :: sockets[i]
      modifies set i | 0 <= i < |sockets| :: sockets[i].buf
      modifies conn`closeCode
      ensures Valid()
      ensures var e := SendRun(old(Views()), srcAddrTokens, decisions, answers, outcomes, 0);
        && Views() == e.views
        && r == e.r
        && conn.closeCode == (if e.connFailed && !old(conn.Closing()) then Some(CLOSE_SEND_FAILED)
                              else old(conn.closeCode))
    {
      ghost var views0 := Views();
      var k := 0;
      while k < |decisions|
        invariant 0 <= k <= |decisions|
        invariant Valid()
        invariant SendRun(views0, srcAddrTokens, decisions, answers, outcomes, 0)
               == SendRun(Views(), srcAddrTokens, decisions, answers, outcomes, k)
        invariant conn.closeCode == old(conn.closeCode)
      {
        var t := srcAddrTokens[decisions[k].local];
        if sockets[t].SendPending() {
          break;
        }
        if answers[k].ConnDone? {
          break;
        } else if answers[k].ConnError? {
          var _ := conn.Close(CLOSE_SEND_FAILED);
          return Ok(());
        }
        var sent := WriteAndTry(t, answers[k].packet, answers[k].to, outcomes[k]);
        if sent.Err? {
          return Err(sent.error);
        }
        k := k + 1;
      }
      r := Ok(());
    }

    /** One round of `send` on socket `t`: the connection writes `packet`
        into the socket's buffer, and the datagram is scheduled for `to`
        and tried at once. */
    method WriteAndTry(t: nat, packet: seq<byte>, to: SocketAddr, outcome: SendOutcome)
      returns (sent: Result<nat, ClientError>)
      requires Valid() && t < |sockets| && !sockets[t].SendPending() && |packet| <= MAX_DATAGRAM_SIZE
      modifies sockets[t], sockets[t].buf
      ensures Valid()
      ensures Views() == old(Views())[t := Tried(old(sockets[t].View()), packet, to, outcome)]
      ensures sent.Err? <==> outcome.Failed?
      ensures outcome.Failed? ==> sent == Err(IOFail(outcome.osError))
    {
      var socket := sockets[t];
      ghost var before := Views();
      WritePacket(socket.buf, packet);
      socket.ScheduleSend(None, |packet|, to);
      sent := socket.TrySend(outcome);
      assert forall i | 0 <= i < |sockets| && i != t :: sockets[i].View() == before[i];
    }

    /** `on_close`: a connection that never completed its handshake is a
        failure; otherwise it reports the local addresses whose socket was
        ever found full. */
    function OnClose(): (r: Result<set<SocketAddr>, ClientError>)
      reads this, conn, set i | 0 <= i < |sockets| :: sockets[i]
      requires forall a | a in srcAddrTokens :: srcAddrTokens[a] < |sockets|
      ensures r == Err(HandshakeFail) <==> !conn.established
      ensures r.Ok? <==> conn.established
      ensures r.Ok? ==> forall a :: a in r.value <==>
        a in srcAddrTokens && sockets[srcAddrTokens[a]].wouldBlockCntr > 0
    {
      if !conn.established then Err(HandshakeFail)
      else Ok(set a | a in srcAddrTokens && sockets[srcAddrTokens[a]].wouldBlockCntr > 0)
    }
  }
}
