/** The bookkeeping of the r2m2p2 QUIC server's event loop: routing each
    packet to a client by connection id or accepting a new client after a
    stateless retry, keeping the id table in step with the ids each
    connection uses, selecting the application protocol, shaping each
    client's send burst, and collecting closed clients. The connection's
    own answers (its handshake state, the ids it retires, what it writes)
    are parameters. */
module R2QuicServer {
  import opened Arith
  import opened Wrappers
  import opened Bytes
  import opened Net
  import opened ConnIds
  import RetryToken
  import PerfServer

  /** `MAX_BUF_SIZE`: the size of the send buffer and every new client's
      initial send burst. */
  const MAX_BUF_SIZE: nat := 65507

  /** `MAX_DATAGRAM_SIZE`: a new client's datagram size. */
  const MAX_DATAGRAM_SIZE: nat := 1350

  /** The close code for a protocol mismatch and for a failed send. */
  const CLOSE_CODE: nat := 0x1

  /** `STUN_TEST_ALPN`. */
  const STUN_TEST_ALPN: seq<string> := ["quichestun", "quichestun-00"]

  type Cid = seq<byte>

  /** A packet header: destination connection id, whether it is an Initial
      packet, its version and its token. */
  datatype Header = Header(dcid: Cid, initial: bool, version: nat, token: seq<byte>)

  /** A client as the server keeps it, with the source connection ids its
      connection currently uses (`source_ids`). `closeCode` records the
      server's own close request, made at most once; `closed` is the
      connection's state as quiche reports it. */
  datatype Client = Client(
    clientId: nat,
    closed: bool,
    closeCode: Option<nat>,
    appProtoSelected: bool,
    maxDatagramSize: nat,
    maxSendBurst: nat,
    sourceIds: set<Cid>)

  function NewClient(clientId: nat, scid: Cid): (c: Client)
    ensures c.clientId == clientId && c.sourceIds == {scid} && !c.closed && c.closeCode.None?
  {
    Client(clientId, false, None, false, MAX_DATAGRAM_SIZE, MAX_BUF_SIZE, {scid})
  }

  datatype DropReason = NotInitial | InvalidToken | InvalidDcid

  /** What the server does with a packet: hand it to a known client, accept
      a new client (with the original destination id the token carried),
      answer with a Retry carrying a token and the id the client should use
      next, answer with a version negotiation, or drop it. */
  datatype Route =
    | Known(clientId: nat)
    | Accept(odcid: Cid)
    | Retry(token: seq<byte>, scid: Cid)
    | Negotiate
    | Drop(reason: DropReason)

  /** The decision of the read loop for a packet from `from`, whose
      destination id derives the id `connId`. */
  function RouteOf(ids: map<Cid, nat>, hdr: Header, from: SocketAddr, connId: Cid, versionSupported: bool): (r: Route)
    ensures r.Known? <==> hdr.dcid in ids || connId in ids
    ensures r.Accept? ==> |hdr.dcid| == MAX_CONN_ID_LEN && hdr.token == RetryToken.Mint(r.odcid, from)
  {
    if hdr.dcid in ids then Known(ids[hdr.dcid])
    else if connId in ids then Known(ids[connId])
    else if !hdr.initial then Drop(NotInitial)
    else if !versionSupported then Negotiate
    else if hdr.token == [] then Retry(RetryToken.Mint(hdr.dcid, from), connId)
    else
      var odcid := RetryToken.Validate(from, hdr.token);
      if odcid.None? then Drop(InvalidToken)
      else if |hdr.dcid| != MAX_CONN_ID_LEN then Drop(InvalidDcid)
      else
        RetryToken.MintOfValidate(from, hdr.token);
        Accept(odcid.value)
  }

  /** A stateless retry completes: a client that answers a Retry from the
      same address, with the token it carried and the id it named, is
      accepted, and the server learns the id the client first used. */
  lemma RetryThenAccept(ids: map<Cid, nat>, first: Header, from: SocketAddr, connId: Cid, token: seq<byte>, scid: Cid, second: Header, connId': Cid)
    requires |connId| == MAX_CONN_ID_LEN
    requires RouteOf(ids, first, from, connId, true) == Retry(token, scid)
    requires second == Header(scid, true, first.version, token)
    requires scid !in ids && connId' !in ids
    ensures RouteOf(ids, second, from, connId', true) == Accept(first.dcid)
  {
    RetryToken.ValidateMint(first.dcid, from);
  }

  /** A packet without a token never creates a client, and a token minted
      for another address of the same family is refused. */
  lemma NoClientWithoutValidToken(ids: map<Cid, nat>, hdr: Header, from: SocketAddr, other: SocketAddr, connId: Cid, odcid: Cid)
    requires from.ip.WellFormed() && other.ip.WellFormed() && from.ip.V4? == other.ip.V4?
    requires from.ip.Octets() != other.ip.Octets()
    requires hdr.token == [] || hdr.token == RetryToken.Mint(odcid, other)
    ensures !RouteOf(ids, hdr, from, connId, true).Accept?
  {
    if hdr.token != [] {
      RetryToken.ValidateOtherAddress(odcid, other, from);
    }
  }

  /** `loss_rate` rising by more than 0.1%: cut the burst by a quarter, but
      not below ten datagrams. */
  function ReducedBurst(burst: nat, mds: nat): (r: nat)
    ensures r >= 10 * mds
    ensures r >= burst / 4 * 3
    ensures burst >= 10 * mds ==> r <= burst
  {
    var cut := burst / 4 * 3;
    if cut >= mds * 10 then cut else mds * 10
  }

  /** Once at the floor of ten datagrams, the burst stays there however
      often it is cut. */
  lemma {:induction false} ReducedBurstFloor(burst: nat, mds: nat, n: nat)
    requires burst == 10 * mds
    ensures Iterate(burst, mds, n) == 10 * mds
  {
    if n > 0 {
      ReducedBurstFloor(burst, mds, n - 1);
    }
  }

  /** The burst after `n` cuts. */
  function Iterate(burst: nat, mds: nat, n: nat): nat {
    if n == 0 then burst else ReducedBurst(Iterate(burst, mds, n - 1), mds)
  }

  /** After at least one cut the burst is at or above the floor, and each
      cut above the floor takes off at least one byte. */
  lemma {:induction false} IterateShape(burst: nat, mds: nat, n: nat)
    requires n >= 1
    ensures Iterate(burst, mds, n) >= 10 * mds
    ensures Iterate(burst, mds, n) == 10 * mds || Iterate(burst, mds, n) + n <= burst
  {
    var x := Iterate(burst, mds, n - 1);
    if n > 1 {
      IterateShape(burst, mds, n - 1);
    }
    var cut := x / 4 * 3;
    if cut > 10 * mds {
      assert x / 4 >= 1;
      assert cut + x / 4 == x / 4 * 4 <= x;
    }
  }

  /** Repeated cuts bring any burst down to the floor of ten datagrams:
      after more cuts than the burst has bytes, it is at the floor. */
  lemma ReachesFloor(burst: nat, mds: nat, n: nat)
    requires n > burst
    ensures Iterate(burst, mds, n) == 10 * mds
  {
    IterateShape(burst, mds, n);
  }

  /** How the write loop of one client ends: the bytes written, the path of
      the first packet, whether another round is wanted at once, and
      whether the connection failed. */
  datatype BurstEnd = BurstEnd(total: nat, dst: Option<PerfServer.SendInfo>, continueWrite: bool, failed: bool)

  /** The write loop from answer `k` on, `total` bytes and the first path
      `dst` so far. The connection writes at most what is left of the
      burst; an answer script that has run out answers `Done`. */
  function BurstRun(answers: seq<PerfServer.ConnAnswer>, k: nat, limit: nat, mds: nat, total: nat, dst: Option<PerfServer.SendInfo>): (e: BurstEnd)
    requires total <= limit
    decreases |answers| - k
  {
    if total >= limit then BurstEnd(total, dst, false, false)
    else if k >= |answers| || answers[k].ConnDone? then BurstEnd(total, dst, dst.Some?, false)
    else if answers[k].ConnError? then BurstEnd(total, dst, false, true)
    else
      var write := Min(answers[k].len, limit - total);
      var dst' := if dst.Some? then dst else Some(answers[k].info);
      if write < mds then BurstEnd(total + write, dst', true, false)
      else BurstRun(answers, k + 1, limit, mds, total + write, dst')
  }

  /** The loop never writes past the burst limit, keeps the path of its
      first packet, has a path once it has written anything, and asks to
      continue neither after a failure nor after filling the burst. */
  lemma {:induction false} BurstRunBounds(answers: seq<PerfServer.ConnAnswer>, k: nat, limit: nat, mds: nat, total: nat, dst: Option<PerfServer.SendInfo>)
    requires total <= limit
    requires total > 0 ==> dst.Some?
    ensures var e := BurstRun(answers, k, limit, mds, total, dst);
      && total <= e.total <= limit
      && (dst.Some? ==> e.dst == dst)
      && (e.total > 0 ==> e.dst.Some?)
      && (e.failed ==> !e.continueWrite)
      && (e.total == limit ==> !e.continueWrite || e.dst.Some?)
    decreases |answers| - k
  {
    if total < limit && k < |answers| && answers[k].Written? {
      var write := Min(answers[k].len, limit - total);
      var dst' := if dst.Some? then dst else Some(answers[k].info);
      if write >= mds {
        BurstRunBounds(answers, k + 1, limit, mds, total + write, dst');
      }
    }
  }

  /** The write loop of one client: ask the connection for packets
      (`answers`) and add them to the burst until it is full, the
      connection has nothing more or fails, or a packet is shorter than a
      full datagram. */
  method WriteBurst(answers: seq<PerfServer.ConnAnswer>, limit: nat, mds: nat) returns (e: BurstEnd)
    ensures e == BurstRun(answers, 0, limit, mds, 0, None)
  {
    var total: nat := 0;
    var dst: Option<PerfServer.SendInfo> := None;
    var k: nat := 0;
    while total < limit
      invariant total <= limit && k <= |answers| + 1
      invariant BurstRun(answers, k, limit, mds, total, dst) == BurstRun(answers, 0, limit, mds, 0, None)
      decreases |answers| + 1 - k
    {
      var answer := if k < |answers| then answers[k] else PerfServer.ConnDone;
      match answer {
        case ConnDone =>
          return BurstEnd(total, dst, dst.Some?, false);
        case ConnError =>
          return BurstEnd(total, dst, false, true);
        case Written(len, info) =>
          var write := Min(len, limit - total);
          total := total + write;
          if dst.None? {
            dst := Some(info);
          }
          if write < mds {
            return BurstEnd(total, dst, true, false);
          }
      }
      k := k + 1;
    }
    e := BurstEnd(total, dst, false, false);
  }

  /** What follows the write loop: stop serving clients for this round,
      or send the burst and go on unless another round is wanted now. */
  datatype Next = StopRound | Flush(total: nat, info: PerfServer.SendInfo, thenStop: bool)

  function AfterBurst(e: BurstEnd, limit: nat): (n: Next)
    ensures n.Flush? <==> e.total > 0 && e.dst.Some?
    ensures n.Flush? ==> n.total == e.total && n.info == e.dst.value
    ensures n.Flush? ==> (n.thenStop <==> e.continueWrite || e.total >= limit)
  {
    if e.total == 0 || e.dst.None? then StopRound
    else Flush(e.total, e.dst.value, e.continueWrite || e.total >= limit)
  }

  class QuicServer {
    var nextClientId: nat
    var clients: map<nat, Client>
    var clientsIds: map<Cid, nat>

    /** Client ids are below `next_client_id` and name their client; every
        routed id leads to a client whose connection uses it. */
    ghost predicate Valid()
      reads this
    {
      && (forall id | id in clients :: id < nextClientId && clients[id].clientId == id)
      && (forall id | id in clients :: clients[id].maxDatagramSize > 0)
      && (forall c | c in clientsIds :: clientsIds[c] in clients && c in clients[clientsIds[c]].sourceIds)
    }

    constructor ()
      ensures Valid() && nextClientId == 0 && clients == map[] && clientsIds == map[]
    {
      nextClientId := 0;
      clients := map[];
      clientsIds := map[];
    }

    /** The read loop for one packet: route it, or accept a new client
        whose connection uses the packet's destination id, which then
        routes to it. */
    method OnPacket(hdr: Header, from: SocketAddr, connId: Cid, versionSupported: bool) returns (r: Route)
      requires Valid() && |connId| == MAX_CONN_ID_LEN
      modifies this
      ensures Valid()
      ensures r == RouteOf(old(clientsIds), hdr, from, connId, versionSupported)
      ensures r.Known? ==> r.clientId in clients
      ensures !r.Accept? ==> unchanged(this)
      ensures r.Accept? ==>
        && old(nextClientId) !in old(clients)
        && clients == old(clients)[old(nextClientId) := NewClient(old(nextClientId), hdr.dcid)]
        && clientsIds == old(clientsIds)[hdr.dcid := old(nextClientId)]
        && nextClientId == old(nextClientId) + 1
    {
      r := RouteOf(clientsIds, hdr, from, connId, versionSupported);
      if r.Accept? {
        var clientId := nextClientId;
        clients := clients[clientId := NewClient(clientId, hdr.dcid)];
        clientsIds := clientsIds[hdr.dcid := clientId];
        nextClientId := nextClientId + 1;
      }
    }

    /** After a packet, once the handshake is done (`handshakeDone`): keep
        the protocol if it is one of `STUN_TEST_ALPN`, otherwise close with
        `CLOSE_CODE`, and take the datagram size the connection reports. */
    method SelectAppProto(clientId: nat, handshakeDone: bool, appProto: string, maxSendUdpPayload: nat)
      requires Valid() && clientId in clients && maxSendUdpPayload > 0
      modifies this`clients
      ensures Valid() && clients.Keys == old(clients.Keys)
      ensures forall id | id in clients && id != clientId :: clients[id] == old(clients[id])
      ensures var c := old(clients[clientId]);
        if c.appProtoSelected || !handshakeDone then clients[clientId] == c
        else clients[clientId] == c.(
          appProtoSelected := true,
          maxDatagramSize := maxSendUdpPayload,
          closeCode := if appProto !in STUN_TEST_ALPN && c.closeCode.None? then Some(CLOSE_CODE) else c.closeCode)
    {
      var c := clients[clientId];
      if !c.appProtoSelected && handshakeDone {
        if appProto !in STUN_TEST_ALPN && c.closeCode.None? {
          c := c.(closeCode := Some(CLOSE_CODE));
        }
        c := c.(appProtoSelected := true, maxDatagramSize := maxSendUdpPayload);
        clients := clients[clientId := c];
      }
    }

    /** The ids the connection retired no longer route anywhere, and the
        connection no longer uses them. */
    method Retire(clientId: nat, retired: seq<Cid>)
      requires Valid() && clientId in clients
      modifies this`clients, this`clientsIds
      ensures Valid() && clients.Keys == old(clients.Keys)
      ensures clientsIds == old(clientsIds) - SetOf(retired)
      ensures clients == old(clients)[clientId := old(clients[clientId]).(sourceIds := old(clients[clientId].sourceIds) - SetOf(retired))]
    {
      RetireLoop(clientId, retired);
    }

    /** The loop of `Retire`, on the two tables. */
    method RetireLoop(clientId: nat, retired: seq<Cid>)
      requires clientId in clients
      modifies this`clients, this`clientsIds
      ensures clientsIds == old(clientsIds) - SetOf(retired)
      ensures clients == old(clients)[clientId := old(clients[clientId]).(sourceIds := old(clients[clientId].sourceIds) - SetOf(retired))]
    {
      ghost var c := clients[clientId];
      assert c.(sourceIds := c.sourceIds - SetOf(retired[..0])) == c;
      assert clients[clientId := c] == clients;
      for j := 0 to |retired|
        invariant clientId in clients
        invariant clientsIds == old(clientsIds) - SetOf(retired[..j])
        invariant clients == old(clients)[clientId := c.(sourceIds := c.sourceIds - SetOf(retired[..j]))]
      {
        assert retired[..j + 1][..j] == retired[..j];
        assert SetOf(retired[..j + 1]) == SetOf(retired[..j]) + {retired[j]};
        var client := clients[clientId];
        clients := clients[clientId := client.(sourceIds := client.sourceIds - {retired[j]})];
        clientsIds := clientsIds - {retired[j]};
        assert (c.sourceIds - SetOf(retired[..j])) - {retired[j]} == c.sourceIds - SetOf(retired[..j + 1]);
      }
      assert retired[..|retired|] == retired;
    }

    /** Issue fresh ids (drawn from `randoms`) while the connection has
        room (`cidsLeft`) and accepts them (`accepts`); each becomes one of
        the connection's ids and routes to the client. */
    method Issue(clientId: nat, cidsLeft: nat, randoms: seq<seq<byte>>, accepts: seq<bool>)
      returns (ghost issued: seq<Cid>)
      requires Valid() && clientId in clients
      requires |randoms| >= cidsLeft && |accepts| >= cidsLeft
      requires forall j | 0 <= j < |randoms| :: |randoms[j]| >= MAX_CONN_ID_LEN + RESET_TOKEN_LEN
      modifies this`clients, this`clientsIds
      ensures Valid() && clients.Keys == old(clients.Keys)
      ensures issued == PerfServer.IssuedCids(randoms, accepts, cidsLeft)
      ensures clientsIds == PerfServer.AddRoutes(old(clientsIds), issued, clientId)
      ensures clients == old(clients)[clientId := old(clients[clientId]).(sourceIds := old(clients[clientId].sourceIds) + SetOf(issued))]
    {
      issued := IssueLoop(clientId, cidsLeft, randoms, accepts);
      SetOfMembers(issued);
      forall cid | cid in clientsIds
        ensures clientsIds[cid] in clients && cid in clients[clientsIds[cid]].sourceIds
      {
        if cid !in issued {
          assert clientsIds[cid] == old(clientsIds)[cid];
        }
      }
    }

    /** The loop of `Issue`, on the two tables. */
    method IssueLoop(clientId: nat, cidsLeft: nat, randoms: seq<seq<byte>>, accepts: seq<bool>)
      returns (ghost issued: seq<Cid>)
      requires clientId in clients
      requires |randoms| >= cidsLeft && |accepts| >= cidsLeft
      requires forall j | 0 <= j < |randoms| :: |randoms[j]| >= MAX_CONN_ID_LEN + RESET_TOKEN_LEN
      modifies this`clients, this`clientsIds
      ensures issued == PerfServer.IssuedCids(randoms, accepts, cidsLeft)
      ensures clientsIds == PerfServer.AddRoutes(old(clientsIds), issued, clientId)
      ensures clients == old(clients)[clientId := old(clients[clientId]).(sourceIds := old(clients[clientId].sourceIds) + SetOf(issued))]
    {
      issued := [];
      var client := clients[clientId];
      var sourceIds := client.sourceIds;
      assert sourceIds == client.sourceIds + SetOf(issued);
      var j := 0;
      while j < cidsLeft
        invariant j <= cidsLeft && clients == old(clients)
        invariant |issued| == j && forall k | 0 <= k < j :: accepts[k] && issued[k] == randoms[k][..MAX_CONN_ID_LEN]
        invariant clientsIds == PerfServer.AddRoutes(old(clientsIds), issued, clientId)
        invariant sourceIds == client.sourceIds + SetOf(issued)
      {
        var (scid, _) := GenerateCidAndResetToken(randoms[j]);
        if !accepts[j] {
          break;
        }
        sourceIds := sourceIds + {scid};
        clientsIds := clientsIds[scid := clientId];
        assert (issued + [scid])[..|issued|] == issued;
        issued := issued + [scid];
        j := j + 1;
      }
      clients := clients[clientId := client.(sourceIds := sourceIds)];
      assert j == PerfServer.IssueRounds(accepts, cidsLeft, 0);
    }

    /** One client's turn in the write loop: cut its burst when its loss
        rate rose (`lossIncreased`), write packets up to the burst limit as
        the connection produces them (`answers`), close the connection with
        `CLOSE_CODE` when a write fails, and say what follows. */
    method ServeClient(clientId: nat, sendQuantum: nat, lossIncreased: bool, answers: seq<PerfServer.ConnAnswer>)
      returns (e: BurstEnd, next: Next)
      requires Valid() && clientId in clients
      modifies this`clients
      ensures Valid() && clients.Keys == old(clients.Keys)
      ensures forall id | id in clients && id != clientId :: clients[id] == old(clients[id])
      ensures var c := old(clients[clientId]);
        var burst := if lossIncreased then ReducedBurst(c.maxSendBurst, c.maxDatagramSize) else c.maxSendBurst;
        var limit := PerfServer.BurstLimit(sendQuantum, burst, c.maxDatagramSize);
        && e == BurstRun(answers, 0, limit, c.maxDatagramSize, 0, None)
        && next == AfterBurst(e, limit)
        && clients[clientId] == c.(
             maxSendBurst := burst,
             closeCode := if e.failed && c.closeCode.None? then Some(CLOSE_CODE) else c.closeCode)
    {
      var c := clients[clientId];
      if lossIncreased {
        c := c.(maxSendBurst := ReducedBurst(c.maxSendBurst, c.maxDatagramSize));
      }
      var limit := PerfServer.BurstLimit(sendQuantum, c.maxSendBurst, c.maxDatagramSize);
      e := WriteBurst(answers, limit, c.maxDatagramSize);
      if e.failed && c.closeCode.None? {
        c := c.(closeCode := Some(CLOSE_CODE));
      }
      next := AfterBurst(e, limit);
      clients := clients[clientId := c];
    }

    /** Drop every closed client, and every id its connection used. */
    method GarbageCollect()
      requires Valid()
      modifies this`clients, this`clientsIds
      ensures Valid()
      ensures forall id :: id in clients <==> id in old(clients) && !old(clients)[id].closed
      ensures forall id | id in clients :: clients[id] == old(clients)[id]
      ensures forall c :: c in clientsIds <==> c in old(clientsIds) && c !in ClosedIds(old(clients))
      ensures forall c | c in clientsIds :: clientsIds[c] == old(clientsIds)[c]
    {
      var dead := ClosedIds(clients);
      clientsIds := map c | c in clientsIds && c !in dead :: clientsIds[c];
      clients := map id | id in clients && !clients[id].closed :: clients[id];
    }
  }

  /** The ids in a sequence. */
  function SetOf(cids: seq<Cid>): set<Cid> {
    if cids == [] then {} else SetOf(cids[..|cids| - 1]) + {cids[|cids| - 1]}
  }

  lemma {:induction false} SetOfMembers(cids: seq<Cid>)
    ensures forall c :: c in SetOf(cids) <==> c in cids
  {
    if cids != [] {
      SetOfMembers(cids[..|cids| - 1]);
      assert cids == cids[..|cids| - 1] + [cids[|cids| - 1]];
    }
  }

  /** The ids used by closed clients. */
  function ClosedIds(clients: map<nat, Client>): set<Cid> {
    set id, c | id in clients && clients[id].closed && c in clients[id].sourceIds :: c
  }
}
