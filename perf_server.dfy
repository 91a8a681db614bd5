/** The quicheperf server's bookkeeping: one buffered GSO burst per socket,
    the table of clients and the connection-id map that routes packets to
    them, and the burst arithmetic of `send`. */
module PerfServer {
  import opened Arith
  import opened Wrappers
  import opened Bytes
  import opened Net
  import opened ConnIds

  /** `MAX_BUF_SIZE`: the size of each socket's burst buffer, and the
      initial send burst of each client. */
  const MAX_BUF_SIZE: nat := 65507

  /** `MAX_DATAGRAM_SIZE`: a client's datagram size until its connection
      reports one. */
  const MAX_DATAGRAM_SIZE: nat := 1350

  /** The close code used when the connection fails to produce a packet. */
  const CLOSE_SEND_FAILED: nat := 0x1

  type Cid = seq<byte>

  datatype ServerError = FatalSocket(detail: string)

  /** Why `get_client_id` found no client. */
  datatype PacketRecvAction = NotInitial | VersionNegotiation

  /** The source and destination of a packet (`quiche::SendInfo`). */
  datatype SendInfo = SendInfo(from: SocketAddr, to: SocketAddr)

  /** What the operating system answers to one GSO `send_to`. */
  datatype SendOutcome = Sent(n: nat) | WouldBlock | Failed(osError: string)

  /** A burst handed to the socket: its length, addresses and segment size. */
  datatype Burst = Burst(len: nat, info: SendInfo, segmentSize: nat)

  /** One UDP socket and the burst being assembled for it. */
  class SocketState {
    const buf: array<byte>
    var until: nat
    var sendInfo: Option<SendInfo>
    var maxDatagramSize: nat
    /** What the socket accepted so far. */
    var bursts: seq<Burst>

    ghost predicate Valid()
      reads this
    {
      buf.Length == MAX_BUF_SIZE && until <= buf.Length
    }

    constructor ()
      ensures Valid() && fresh(buf)
      ensures until == 0 && sendInfo == None && maxDatagramSize == 0 && bursts == []
    {
      buf := new byte[MAX_BUF_SIZE](_ => 0);
      until := 0;
      sendInfo := None;
      maxDatagramSize := 0;
      bursts := [];
    }

    /** `reset`: an empty burst with no destination. */
    method Reset()
      modifies this`until, this`sendInfo, this`maxDatagramSize
      ensures until == 0 && sendInfo == None && maxDatagramSize == 0
    {
      until := 0;
      sendInfo := None;
      maxDatagramSize := 0;
    }

    predicate SendPending()
      reads this
    {
      sendInfo.Some?
    }

    /** `writable_for_dest`: packets for `peer` may join the burst when none
        is pending or the pending one goes to `peer` too. */
    predicate WritableForDest(peer: SocketAddr)
      reads this
    {
      WritableFor(sendInfo, peer)
    }

    /** This socket's burst as a value. */
    function View(): BurstView
      reads this
    {
      BurstView(until, sendInfo, maxDatagramSize)
    }

    /** `try_send`: hand the pending burst to the socket; an accepted burst
        resets the state, one that would block is kept for later. */
    method TrySend(outcome: SendOutcome) returns (r: Result<nat, ServerError>)
      requires Valid()
      modifies this`until, this`sendInfo, this`maxDatagramSize, this`bursts
      ensures Valid()
      ensures !old(SendPending()) ==> r == Ok(0) && unchanged(this)
      ensures old(SendPending()) && outcome.Sent? ==>
        && r == Ok(outcome.n)
        && until == 0 && sendInfo == None && maxDatagramSize == 0
        && bursts == old(bursts) + [Burst(old(until), old(sendInfo).value, old(maxDatagramSize))]
      ensures old(SendPending()) && outcome.WouldBlock? ==> r == Ok(0) && unchanged(this)
      ensures old(SendPending()) && outcome.Failed? ==>
        r == Err(FatalSocket("send_to() failed: " + outcome.osError)) && unchanged(this)
    {
      if sendInfo.None? {
        return Ok(0);
      }
      match outcome {
        case Sent(n) =>
          bursts := bursts + [Burst(until, sendInfo.value, maxDatagramSize)];
          Reset();
          r := Ok(n);
        case WouldBlock =>
          r := Ok(0);
        case Failed(e) =>
          r := Err(FatalSocket("send_to() failed: " + e));
      }
    }

    /** Add a packet of `written` bytes to the burst; the burst keeps the
        addresses of its first packet. */
    method Append(written: nat, info: SendInfo, segmentSize: nat)
      requires Valid() && until + written <= buf.Length
      modifies this`until, this`sendInfo, this`maxDatagramSize
      ensures Valid()
      ensures until == old(until) + written && maxDatagramSize == segmentSize
      ensures sendInfo == if old(sendInfo).Some? then old(sendInfo) else Some(info)
      ensures View() == Appended(old(View()), written, info, segmentSize)
    {
      until := until + written;
      if sendInfo.None? {
        sendInfo := Some(info);
      }
      maxDatagramSize := segmentSize;
    }
  }

  /** A socket's burst as a value: its length, the addresses of its first
      packet and its segment size. */
  datatype BurstView = BurstView(until: nat, sendInfo: Option<SendInfo>, maxDatagramSize: nat)

  /** Packets for `peer` may join a burst when none is pending or the
      pending one goes to `peer` too. */
  predicate WritableFor(sendInfo: Option<SendInfo>, peer: SocketAddr)
  {
    match sendInfo
    case Some(si) => si.to == peer
    case None => true
  }

  /** A burst after a packet of `written` bytes for `info` joined it. */
  function Appended(v: BurstView, written: nat, info: SendInfo, segmentSize: nat): (w: BurstView)
    ensures w.until == v.until + written && w.maxDatagramSize == segmentSize
    ensures w.sendInfo == if v.sendInfo.Some? then v.sendInfo else Some(info)
  {
    BurstView(v.until + written, if v.sendInfo.Some? then v.sendInfo else Some(info), segmentSize)
  }

  /** The burst limit of `send`: the send quantum, capped by the client's
      burst size, rounded down to whole datagrams. */
  function BurstLimit(sendQuantum: nat, maxSendBurst: nat, mds: nat): (limit: nat)
    requires mds > 0
    ensures limit % mds == 0
    ensures limit <= sendQuantum && limit <= maxSendBurst
    ensures limit + mds > Min(sendQuantum, maxSendBurst)
  {
    var m := Min(sendQuantum, maxSendBurst);
    MultipleOf(m / mds, mds);
    m / mds * mds
  }

  lemma MultipleOf(k: nat, m: nat)
    requires m > 0
    ensures k * m % m == 0
  {
    DivModUnique(k * m, m, k, 0);
  }

  /** Euclidean division has one quotient and one remainder. */
  lemma DivModUnique(x: int, d: int, q: int, r: int)
    requires d > 0 && 0 <= r < d && x == q * d + r
    ensures x / d == q && x % d == r
  {
    var q', r' := x / d, x % d;
    assert (q - q') * d == r' - r;
    if q > q' {
      MulAtLeast(q - q', d);
      assert false;
    } else if q < q' {
      MulAtLeast(q' - q, d);
      assert false;
    }
  }

  lemma MulAtLeast(k: int, d: int)
    requires k >= 1 && d > 0
    ensures k * d >= d
  {
  }

  /** A server-side connection as the bookkeeping sees it. */
  datatype ClientInfo = ClientInfo(
    clientId: nat,
    closed: bool,
    established: bool,
    closeCode: Option<nat>,
    maxDatagramSize: nat,
    maxSendBurst: nat)

  /** The path the scheduler picks next. */
  datatype Decision = Decision(local: SocketAddr, peer: SocketAddr)

  /** What `send_on_path_with_instructions` answers: a packet of `len`
      bytes (never more than the slice it was given), `Done`, or another
      error. */
  datatype ConnAnswer = Written(len: nat, info: SendInfo) | ConnDone | ConnError

  /** Where the fill loop of `send` ends: the bursts, whether the
      connection failed (and is to be closed), and whether another round
      is wanted. */
  datatype FillEnd = FillEnd(views: seq<BurstView>, connFailed: bool, continueWrite: bool)

  /** What the fill loop needs of its inputs: every picked local address
      has one of the `n` sockets, and there is an answer for every
      decision. */
  ghost predicate FillInputs(n: nat, tokens: map<SocketAddr, nat>, decisions: seq<Decision>, answers: seq<ConnAnswer>)
  {
    && (forall k | 0 <= k < |decisions| :: decisions[k].local in tokens && tokens[decisions[k].local] < n)
    && |answers| >= |decisions|
  }

  /** The fill loop of `send` over values, from decision `k` on, for a
      client with burst limit `limit`, datagram size `mds` and handshake
      state `established`. A socket busy towards another peer ends the
      round; a socket whose burst is full ends it and asks for another;
      `Done` ends it, and a failing connection ends it and is closed. A
      written packet joins the socket's burst, cut to what is left of the
      burst; during the handshake, or when the packet is shorter than a
      full datagram, the round ends and asks for another. */
  function FillRun(views: seq<BurstView>, tokens: map<SocketAddr, nat>, decisions: seq<Decision>,
                   answers: seq<ConnAnswer>, limit: nat, mds: nat, established: bool, k: nat): (e: FillEnd)
    requires FillInputs(|views|, tokens, decisions, answers)
    ensures |e.views| == |views|
    decreases |decisions| - k
  {
    if k >= |decisions| then FillEnd(views, false, false)
    else
      var t := tokens[decisions[k].local];
      var v := views[t];
      if !WritableFor(v.sendInfo, decisions[k].peer) then FillEnd(views, false, false)
      else if v.until >= limit then FillEnd(views, false, true)
      else
        match answers[k]
        case ConnDone => FillEnd(views, false, false)
        case ConnError => FillEnd(views, true, false)
        case Written(len, info) =>
          var written := Min(len, limit - v.until);
          var next := views[t := Appended(v, written, info, mds)];
          if !established || written < mds then FillEnd(next, false, true)
          else FillRun(next, tokens, decisions, answers, limit, mds, established, k + 1)
  }

  /** The fill loop never grows a burst past the limit, keeps the addresses
      of a burst's first packet, gives every burst it touches the client's
      segment size, and does not ask for another round after a connection
      failure. */
  lemma {:induction false} FillRunBounds(views: seq<BurstView>, tokens: map<SocketAddr, nat>, decisions: seq<Decision>,
                                         answers: seq<ConnAnswer>, limit: nat, mds: nat, established: bool, k: nat)
    requires FillInputs(|views|, tokens, decisions, answers)
    ensures var e := FillRun(views, tokens, decisions, answers, limit, mds, established, k);
      && (e.connFailed ==> !e.continueWrite)
      && forall i | 0 <= i < |views| ::
        && (e.views[i].until != views[i].until ==> views[i].until < e.views[i].until <= limit)
        && (views[i].sendInfo.Some? ==> e.views[i].sendInfo == views[i].sendInfo)
        && (e.views[i] != views[i] ==> e.views[i].maxDatagramSize == mds)
    decreases |decisions| - k
  {
    if k < |decisions| {
      var t := tokens[decisions[k].local];
      var v := views[t];
      if WritableFor(v.sendInfo, decisions[k].peer) && v.until < limit && answers[k].Written? {
        var written := Min(answers[k].len, limit - v.until);
        var next := views[t := Appended(v, written, answers[k].info, mds)];
        if established && written >= mds {
          FillRunBounds(next, tokens, decisions, answers, limit, mds, established, k + 1);
        }
      }
    }
  }

  /** A burst after `try_send` with `outcome`: a pending burst that was
      sent leaves an empty socket; otherwise the burst stays as it was. */
  function Flushed(v: BurstView, outcome: SendOutcome): (w: BurstView)
    ensures v.sendInfo.Some? && outcome.Sent? ==> w == BurstView(0, None, 0)
    ensures v.sendInfo.None? || !outcome.Sent? ==> w == v
  {
    if v.sendInfo.Some? && outcome.Sent? then BurstView(0, None, 0) else v
  }

  /** What a socket has accepted after `try_send` with `outcome`: the
      pending burst, when it was sent. */
  function FlushedBursts(v: BurstView, bursts: seq<Burst>, outcome: SendOutcome): (bs: seq<Burst>)
    ensures v.sendInfo.Some? && outcome.Sent? ==> bs == bursts + [Burst(v.until, v.sendInfo.value, v.maxDatagramSize)]
    ensures v.sendInfo.None? || !outcome.Sent? ==> bs == bursts
  {
    if v.sendInfo.Some? && outcome.Sent? then bursts + [Burst(v.until, v.sendInfo.value, v.maxDatagramSize)] else bursts
  }

  /** The first socket from `k` on whose pending burst fails to send, or
      the number of sockets when there is none. */
  function FirstFailure(views: seq<BurstView>, outcomes: seq<SendOutcome>, k: nat): (f: nat)
    requires k <= |views| <= |outcomes|
    ensures k <= f <= |views|
    ensures forall i | k <= i < f :: !(views[i].sendInfo.Some? && outcomes[i].Failed?)
    ensures f < |views| ==> views[f].sendInfo.Some? && outcomes[f].Failed?
    decreases |views| - k
  {
    if k == |views| || (views[k].sendInfo.Some? && outcomes[k].Failed?) then k
    else FirstFailure(views, outcomes, k + 1)
  }

  /** `{:?}` of a `ServerError`. */
  function ErrorDebug(e: ServerError): string {
    "FatalSocket(\"" + e.detail + "\")"
  }

  /** The sockets' bursts, what they accepted, and the result after the
      flush loop of `send`. */
  datatype FlushEnd = FlushEnd(views: seq<BurstView>, bursts: seq<seq<Burst>>, r: Result<(), ServerError>)

  /** The flush loop of `send` over values: every socket before the first
      failing one is flushed, that socket and the later ones are left
      alone, and the failure is reported wrapped in "socket.try_send
      failed". */
  function FlushRun(views: seq<BurstView>, bursts: seq<seq<Burst>>, outcomes: seq<SendOutcome>): (e: FlushEnd)
    requires |bursts| == |views| <= |outcomes|
    ensures |e.views| == |e.bursts| == |views|
  {
    var f := FirstFailure(views, outcomes, 0);
    FlushEnd(
      FlushedViews(views, outcomes, f),
      FlushedBurstLists(views, bursts, outcomes, f),
      if f < |views| then Err(FatalSocket("socket.try_send failed: " + ErrorDebug(FatalSocket("send_to() failed: " + outcomes[f].osError))))
      else Ok(()))
  }

  /** The bursts once the sockets before `n` are flushed. */
  function FlushedViews(views: seq<BurstView>, outcomes: seq<SendOutcome>, n: nat): (ws: seq<BurstView>)
    requires |views| <= |outcomes|
    ensures |ws| == |views|
  {
    seq(|views|, i requires 0 <= i < |views| => if i < n then Flushed(views[i], outcomes[i]) else views[i])
  }

  /** What the sockets have accepted once the sockets before `n` are
      flushed. */
  function FlushedBurstLists(views: seq<BurstView>, bursts: seq<seq<Burst>>, outcomes: seq<SendOutcome>, n: nat): (bss: seq<seq<Burst>>)
    requires |bursts| == |views| <= |outcomes|
    ensures |bss| == |views|
  {
    seq(|views|, i requires 0 <= i < |views| => if i < n then FlushedBursts(views[i], bursts[i], outcomes[i]) else bursts[i])
  }

  /** Flushing socket `n` next extends the flushed prefix by one. */
  lemma FlushedStep(views: seq<BurstView>, bursts: seq<seq<Burst>>, outcomes: seq<SendOutcome>, n: nat)
    requires |bursts| == |views| <= |outcomes| && n < |views|
    ensures FlushedViews(views, outcomes, n)[n := Flushed(views[n], outcomes[n])] == FlushedViews(views, outcomes, n + 1)
    ensures FlushedBurstLists(views, bursts, outcomes, n)[n := FlushedBursts(views[n], bursts[n], outcomes[n])]
         == FlushedBurstLists(views, bursts, outcomes, n + 1)
  {
  }

  /** The flush loop fails exactly when a pending burst fails to send;
      when it succeeds, every sent burst is recorded and its socket is
      empty, and every other socket is left as it was. */
  lemma FlushRunOutcomes(views: seq<BurstView>, bursts: seq<seq<Burst>>, outcomes: seq<SendOutcome>)
    requires |bursts| == |views| <= |outcomes|
    ensures var e := FlushRun(views, bursts, outcomes);
      && (e.r.Ok? <==> forall i | 0 <= i < |views| :: !(views[i].sendInfo.Some? && outcomes[i].Failed?))
      && (forall i | 0 <= i < |views| && e.r.Ok? && views[i].sendInfo.Some? && outcomes[i].Sent? ::
            e.views[i] == BurstView(0, None, 0)
            && e.bursts[i] == bursts[i] + [Burst(views[i].until, views[i].sendInfo.value, views[i].maxDatagramSize)])
      && (forall i | 0 <= i < |views| && !(views[i].sendInfo.Some? && outcomes[i].Sent?) ::
            e.views[i] == views[i] && e.bursts[i] == bursts[i])
  {
  }

  /** A packet header as `get_client_id` reads it. */
  datatype Header = Header(dcid: Cid, initial: bool, version: nat)

  class Server {
    const sockets: seq<SocketState>
    const srcAddrTokens: map<SocketAddr, nat>
    var nextClientId: nat
    var clients: map<nat, ClientInfo>
    var clientsIds: map<Cid, nat>

    /** Client ids are below `next_client_id` and name their client, and
        every routed connection id leads to a client. */
    ghost predicate Valid()
      reads this, set i | 0 <= i < |sockets| :: sockets[i]
    {
      && (forall id | id in clients :: id < nextClientId && clients[id].clientId == id)
      && (forall id | id in clients :: clients[id].maxSendBurst <= MAX_BUF_SIZE)
      && (forall c | c in clientsIds :: clientsIds[c] in clients)
      && (forall a | a in srcAddrTokens :: srcAddrTokens[a] < |sockets|)
      && (forall i | 0 <= i < |sockets| :: sockets[i].Valid())
      && (forall i, j | 0 <= i < j < |sockets| :: sockets[i] != sockets[j])
    }

    /** What each socket has accepted so far. */
    function Bursts(): (bs: seq<seq<Burst>>)
      reads this, set i | 0 <= i < |sockets| :: sockets[i]
      ensures |bs| == |sockets|
    {
      seq(|sockets|, i requires 0 <= i < |sockets| reads set j | 0 <= j < |sockets| :: sockets[j] => sockets[i].bursts)
    }

    /** The sockets' bursts as values. */
    function Views(): (vs: seq<BurstView>)
      reads this, set i | 0 <= i < |sockets| :: sockets[i]
      ensures |vs| == |sockets|
    {
      seq(|sockets|, i requires 0 <= i < |sockets| reads set j | 0 <= j < |sockets| :: sockets[j] => sockets[i].View())
    }

    constructor (localAddrs: seq<SocketAddr>)
      ensures Valid()
      ensures nextClientId == 0 && clients == map[] && clientsIds == map[]
      ensures |sockets| == |localAddrs| && srcAddrTokens.Keys == set a | a in localAddrs
      ensures forall i | 0 <= i < |sockets| :: fresh(sockets[i]) && !sockets[i].SendPending()
    {
      var socks: seq<SocketState> := [];
      var tokens: map<SocketAddr, nat> := map[];
      for i := 0 to |localAddrs|
        invariant |socks| == i
        invariant forall j | 0 <= j < i :: fresh(socks[j]) && socks[j].Valid() && !socks[j].SendPending()
        invariant forall j, k | 0 <= j < k < i :: socks[j] != socks[k]
        invariant forall a | a in tokens :: tokens[a] < i
        invariant tokens.Keys == set j | 0 <= j < i :: localAddrs[j]
      {
        var s := new SocketState();
        tokens := tokens[localAddrs[i] := |socks|];
        socks := socks + [s];
      }
      assert (set j | 0 <= j < |localAddrs| :: localAddrs[j]) == set a | a in localAddrs;
      sockets := socks;
      srcAddrTokens := tokens;
      nextClientId := 0;
      clients := map[];
      clientsIds := map[];
    }

    /** `get_client_id`: route a packet by its destination connection id,
        then by the id derived from it (`connId`); an unknown Initial packet
        of a supported version creates the next client. */
    method GetClientId(hdr: Header, connId: Cid, versionSupported: bool) returns (r: Result<nat, PacketRecvAction>)
      requires Valid()
      requires |connId| == MAX_CONN_ID_LEN
      modifies this`nextClientId, this`clients, this`clientsIds
      ensures Valid()
      ensures r.Ok? ==> r.value in clients
      ensures old(hdr.dcid in clientsIds) ==>
        r == Ok(old(clientsIds[hdr.dcid])) && unchanged(this)
      ensures old(hdr.dcid !in clientsIds && connId in clientsIds) ==>
        r == Ok(old(clientsIds[connId])) && unchanged(this)
      ensures old(hdr.dcid !in clientsIds && connId !in clientsIds) && !hdr.initial ==>
        r == Err(NotInitial) && unchanged(this)
      ensures old(hdr.dcid !in clientsIds && connId !in clientsIds) && hdr.initial && !versionSupported ==>
        r == Err(VersionNegotiation) && unchanged(this)
      ensures old(hdr.dcid !in clientsIds && connId !in clientsIds) && hdr.initial && versionSupported ==>
        && r == Ok(old(nextClientId))
        && old(nextClientId) !in old(clients)
        && clients == old(clients)[old(nextClientId) := NewClient(old(nextClientId))]
        && clientsIds == old(clientsIds)[connId := old(nextClientId)]
        && nextClientId == old(nextClientId) + 1
    {
      var unknown := hdr.dcid !in clientsIds && connId !in clientsIds;
      if unknown {
        if !hdr.initial {
          return Err(NotInitial);
        }
        if !versionSupported {
          return Err(VersionNegotiation);
        }
        var clientId := nextClientId;
        clients := clients[clientId := NewClient(clientId)];
        clientsIds := clientsIds[connId := clientId];
        nextClientId := nextClientId + 1;
        r := Ok(clientId);
      } else {
        var cid := if hdr.dcid in clientsIds then clientsIds[hdr.dcid] else clientsIds[connId];
        r := Ok(cid);
      }
    }

    /** The first connection-id update `on_readable` makes after a packet:
        forget the ids the connection retired. */
    method Retire(retired: seq<Cid>)
      requires Valid()
      modifies this`clientsIds
      ensures Valid()
      ensures clientsIds == old(clientsIds) - set c | c in retired
    {
      for j := 0 to |retired|
        invariant clientsIds == old(clientsIds) - (set k | 0 <= k < j :: retired[k])
        invariant Valid()
      {
        clientsIds := clientsIds - {retired[j]};
      }
      assert (set k | 0 <= k < |retired| :: retired[k]) == set c | c in retired;
    }

    /** The second: issue fresh ids for `clientId` (drawn from `randoms`)
        while its connection has room (`cidsLeft`) and accepts them
        (`accepts`); each issued id routes to the client. */
    method Issue(clientId: nat, cidsLeft: nat, randoms: seq<seq<byte>>, accepts: seq<bool>)
      returns (ghost issued: seq<Cid>)
      requires Valid() && clientId in clients
      requires |randoms| >= cidsLeft && |accepts| >= cidsLeft
      requires forall j | 0 <= j < |randoms| :: |randoms[j]| >= MAX_CONN_ID_LEN + RESET_TOKEN_LEN
      modifies this`clientsIds
      ensures Valid()
      ensures issued == IssuedCids(randoms, accepts, cidsLeft)
      ensures clientsIds == AddRoutes(old(clientsIds), issued, clientId)
    {
      issued := [];
      var j := 0;
      while j < cidsLeft
        invariant j <= cidsLeft
        invariant forall k | 0 <= k < j :: accepts[k]
        invariant |issued| == j && forall k | 0 <= k < j :: issued[k] == randoms[k][..MAX_CONN_ID_LEN]
        invariant clientsIds == AddRoutes(old(clientsIds), issued, clientId)
        invariant Valid()
      {
        var (scid, _) := GenerateCidAndResetToken(randoms[j]);
        if !accepts[j] {
          break;
        }
        assert (issued + [scid])[..|issued|] == issued;
        AddRoute(scid, clientId);
        issued := issued + [scid];
        j := j + 1;
      }
      assert j == IssueRounds(accepts, cidsLeft, 0);
    }

    /** One issued id now routes to `clientId`. */
    method AddRoute(scid: Cid, clientId: nat)
      requires Valid() && clientId in clients
      modifies this`clientsIds
      ensures Valid() && clientsIds == old(clientsIds)[scid := clientId]
    {
      clientsIds := clientsIds[scid := clientId];
    }

    /** `garbage_collect`: drop every closed client and every connection id
        that leads to one. */
    method GarbageCollect()
      requires Valid()
      modifies this`clients, this`clientsIds
      ensures Valid()
      ensures forall id :: id in clients <==> id in old(clients) && !old(clients)[id].closed
      ensures forall id | id in clients :: clients[id] == old(clients)[id]
      ensures forall c :: c in clientsIds <==> c in old(clientsIds) && !old(clients)[old(clientsIds)[c]].closed
      ensures forall c | c in clientsIds :: clientsIds[c] == old(clientsIds)[c]
    {
      var closedIds := set id | id in clients && clients[id].closed;
      clientsIds := map c | c in clientsIds && clientsIds[c] !in closedIds :: clientsIds[c];
      clients := map id | id in clients && id !in closedIds :: clients[id];
    }

    /** One round of `send` for one client: add packets to the bursts of
        the sockets the scheduler picks (`decisions`), as the connection
        writes them (`answers`), until a socket is busy towards another
        peer, a burst is full, the connection has nothing more, or a short
        packet ends the burst. Returns whether another round is wanted.
        The bursts end as `FillRun` says. */
    method FillBursts(clientId: nat, sendQuantum: nat, decisions: seq<Decision>, answers: seq<ConnAnswer>)
      returns (continueWrite: bool)
      requires Valid() && clientId in clients && clients[clientId].maxDatagramSize > 0
      requires forall k | 0 <= k < |decisions| :: decisions[k].local in srcAddrTokens
      requires |answers| >= |decisions|
      modifies set i | 0 <= i < |sockets| :: sockets[i], this`clients
      ensures Valid() && clients.Keys == old(clients.Keys)
      ensures var c := old(clients[clientId]);
        var limit := BurstLimit(sendQuantum, c.maxSendBurst, c.maxDatagramSize);
        var e := FillRun(old(Views()), srcAddrTokens, decisions, answers, limit, c.maxDatagramSize, c.established, 0);
        && Views() == e.views
        && continueWrite == e.continueWrite
        && clients[clientId] == (if e.connFailed && c.closeCode.None? then c.(closeCode := Some(CLOSE_SEND_FAILED)) else c)
      ensures var c := old(clients[clientId]);
        var limit := BurstLimit(sendQuantum, c.maxSendBurst, c.maxDatagramSize);
        forall i | 0 <= i < |sockets| ::
          && (sockets[i].until != old(sockets[i].until) ==> old(sockets[i].until) < sockets[i].until <= limit)
          && (old(sockets[i].sendInfo).Some? ==> sockets[i].sendInfo == old(sockets[i].sendInfo))
          && sockets[i].bursts == old(sockets[i].bursts)
      ensures forall id | id in clients && id != clientId :: clients[id] == old(clients[id])
    {
      var c := clients[clientId];
      var limit := BurstLimit(sendQuantum, c.maxSendBurst, c.maxDatagramSize);
      ghost var views0 := Views();
      var connFailed;
      continueWrite, connFailed := FillSockets(decisions, answers, limit, c.maxDatagramSize, c.established);
      if connFailed && c.closeCode.None? {
        clients := clients[clientId := c.(closeCode := Some(CLOSE_SEND_FAILED))];
      }
      FillRunBounds(views0, srcAddrTokens, decisions, answers, limit, c.maxDatagramSize, c.established, 0);
      assert forall i | 0 <= i < |sockets| :: old(sockets[i].View()) == views0[i] && sockets[i].View() == Views()[i];
    }

    /** The loop of `FillBursts` over the sockets: one packet per decision,
        while the socket can take it. */
    method FillSockets(decisions: seq<Decision>, answers: seq<ConnAnswer>, limit: nat, segmentSize: nat, established: bool)
      returns (continueWrite: bool, connFailed: bool)
      requires Valid() && segmentSize > 0 && limit <= MAX_BUF_SIZE
      requires forall k | 0 <= k < |decisions| :: decisions[k].local in srcAddrTokens
      requires |answers| >= |decisions|
      modifies set i | 0 <= i < |sockets| :: sockets[i]
      ensures Valid()
      ensures var e := FillRun(old(Views()), srcAddrTokens, decisions, answers, limit, segmentSize, established, 0);
        Views() == e.views && continueWrite == e.continueWrite && connFailed == e.connFailed
      ensures forall i | 0 <= i < |sockets| :: sockets[i].bursts == old(sockets[i].bursts)
    {
      ghost var views0 := Views();
      continueWrite, connFailed := false, false;
      var k := 0;
      while k < |decisions|
        invariant 0 <= k <= |decisions|
        invariant Valid() && !continueWrite && !connFailed
        invariant forall i | 0 <= i < |sockets| :: sockets[i].bursts == old(sockets[i].bursts)
        invariant FillRun(views0, srcAddrTokens, decisions, answers, limit, segmentSize, established, 0)
               == FillRun(Views(), srcAddrTokens, decisions, answers, limit, segmentSize, established, k)
      {
        var d := decisions[k];
        var t := srcAddrTokens[d.local];
        var socket := sockets[t];
        if !socket.WritableForDest(d.peer) {
          break;
        }
        if socket.until >= limit {
          continueWrite := true;
          break;
        }
        match answers[k] {
          case ConnDone =>
            break;
          case ConnError =>
            connFailed := true;
            break;
          case Written(len, info) =>
            var written := Min(len, limit - socket.until);
            AppendTo(t, written, info, segmentSize);
            if !established || written < segmentSize {
              continueWrite := true;
              break;
            }
        }
        k := k + 1;
      }
    }

    /** Add a packet of `written` bytes for `info` to the burst of socket
        `t`. */
    method AppendTo(t: nat, written: nat, info: SendInfo, segmentSize: nat)
      requires Valid() && t < |sockets| && sockets[t].until + written <= MAX_BUF_SIZE
      modifies sockets[t]
      ensures Valid()
      ensures Views() == old(Views())[t := Appended(old(sockets[t].View()), written, info, segmentSize)]
      ensures sockets[t].bursts == old(sockets[t].bursts)
    {
      ghost var before := Views();
      sockets[t].Append(written, info, segmentSize);
      assert forall i | 0 <= i < |sockets| && i != t :: sockets[i].View() == before[i];
    }

    /** The end of a round: try to send every socket's burst (`outcomes`,
        one per socket), stopping at the first socket error. */
    method FlushAll(outcomes: seq<SendOutcome>) returns (r: Result<(), ServerError>)
      requires Valid() && |outcomes| >= |sockets|
      modifies set i | 0 <= i < |sockets| :: sockets[i]
      ensures Valid()
      ensures var e := FlushRun(old(Views()), old(Bursts()), outcomes);
        Views() == e.views && Bursts() == e.bursts && r == e.r
      ensures r.Ok? ==> forall i | 0 <= i < |sockets| ::
        (old(sockets[i].SendPending()) && outcomes[i].Sent?) || outcomes[i].WouldBlock? || !old(sockets[i].SendPending())
      ensures r.Ok? ==> forall i | 0 <= i < |sockets| && old(sockets[i].SendPending()) && outcomes[i].Sent? ::
        sockets[i].until == 0 && !sockets[i].SendPending()
      ensures r.Err? ==> exists i | 0 <= i < |sockets| :: old(sockets[i].SendPending()) && outcomes[i].Failed?
    {
      ghost var views0, bursts0 := Views(), Bursts();
      r := FlushSockets(outcomes);
      FlushRunOutcomes(views0, bursts0, outcomes);
      assert forall j | 0 <= j < |sockets| ::
        old(sockets[j].SendPending()) == views0[j].sendInfo.Some? && sockets[j].View() == Views()[j];
    }

    /** The loop of `FlushAll`: `try_send` on every socket in turn, up to
        the first failure. */
    method FlushSockets(outcomes: seq<SendOutcome>) returns (r: Result<(), ServerError>)
      requires Valid() && |outcomes| >= |sockets|
      modifies set i | 0 <= i < |sockets| :: sockets[i]
      ensures Valid()
      ensures var e := FlushRun(old(Views()), old(Bursts()), outcomes);
        Views() == e.views && Bursts() == e.bursts && r == e.r
    {
      ghost var views0, bursts0 := Views(), Bursts();
      ghost var f := FirstFailure(views0, outcomes, 0);
      for i := 0 to |sockets|
        invariant Valid() && i <= f
        invariant Views() == FlushedViews(views0, outcomes, i)
        invariant Bursts() == FlushedBurstLists(views0, bursts0, outcomes, i)
      {
        FlushedStep(views0, bursts0, outcomes, i);
        var sent := FlushOne(i, outcomes[i]);
        if sent.Err? {
          assert i == f;
          return Err(FatalSocket("socket.try_send failed: " + ErrorDebug(sent.error)));
        }
      }
      r := Ok(());
    }

    /** `try_send` on socket `t`. */
    method FlushOne(t: nat, outcome: SendOutcome) returns (sent: Result<nat, ServerError>)
      requires Valid() && t < |sockets|
      modifies sockets[t]
      ensures Valid()
      ensures Views() == old(Views())[t := Flushed(old(Views())[t], outcome)]
      ensures Bursts() == old(Bursts())[t := FlushedBursts(old(Views())[t], old(Bursts())[t], outcome)]
      ensures sent.Err? <==> old(Views())[t].sendInfo.Some? && outcome.Failed?
      ensures sent.Err? ==> sent == Err(FatalSocket("send_to() failed: " + outcome.osError))
    {
      ghost var views, bursts := Views(), Bursts();
      sent := sockets[t].TrySend(outcome);
      assert forall i | 0 <= i < |sockets| && i != t :: sockets[i].View() == views[i] && sockets[i].bursts == bursts[i];
    }
  }

  /** `routes` with every id of `cids` routed to `clientId`. */
  function AddRoutes(routes: map<Cid, nat>, cids: seq<Cid>, clientId: nat): (m: map<Cid, nat>)
    ensures m.Keys == routes.Keys + set c | c in cids
    ensures forall c | c in cids :: m[c] == clientId
    ensures forall c | c in routes && c !in cids :: m[c] == routes[c]
  {
    if cids == [] then routes
    else AddRoutes(routes, cids[..|cids| - 1], clientId)[cids[|cids| - 1] := clientId]
  }

  /** The fresh client `get_client_id` creates. */
  function NewClient(clientId: nat): ClientInfo {
    ClientInfo(clientId, false, false, None, MAX_DATAGRAM_SIZE, MAX_BUF_SIZE)
  }

  /** The round at which the issue loop stops, from round `k` on: when the
      connection has no room left (`cidsLeft` rounds run) or refuses the
      new id. */
  function IssueRounds(accepts: seq<bool>, cidsLeft: nat, k: nat): (n: nat)
    requires k <= cidsLeft <= |accepts|
    ensures k <= n <= cidsLeft
    ensures forall i | k <= i < n :: accepts[i]
    ensures n < cidsLeft ==> !accepts[n]
    decreases cidsLeft - k
  {
    if k == cidsLeft || !accepts[k] then k else IssueRounds(accepts, cidsLeft, k + 1)
  }

  /** The connection ids the issue loop adds: the first `MAX_CONN_ID_LEN`
      random bytes of each round it runs. */
  function IssuedCids(randoms: seq<seq<byte>>, accepts: seq<bool>, cidsLeft: nat): (issued: seq<Cid>)
    requires |randoms| >= cidsLeft && |accepts| >= cidsLeft
    requires forall j | 0 <= j < |randoms| :: |randoms[j]| >= MAX_CONN_ID_LEN + RESET_TOKEN_LEN
    ensures |issued| <= cidsLeft
    ensures forall j | 0 <= j < |issued| :: accepts[j] && |issued[j]| == MAX_CONN_ID_LEN
    ensures |issued| < cidsLeft ==> !accepts[|issued|]
  {
    var n := IssueRounds(accepts, cidsLeft, 0);
    seq(n, j requires 0 <= j < n => randoms[j][..MAX_CONN_ID_LEN])
  }
}
