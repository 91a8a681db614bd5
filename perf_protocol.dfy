/** The quicheperf application protocol on stream 0: the client sends its
    test configuration, the server checks the password and acknowledges,
    then one side sends zero-filled data for the test duration, paced at a
    bitrate quantum every 10 ms when a bitrate target is set. */
module PerfProtocol {
  import opened Arith
  import opened Wrappers
  import opened Time
  import opened Quiche

  /** Length of the zero-filled `SEND_DATA` buffer, the largest chunk handed
      to one `stream_send`. */
  const SEND_DATA_LEN: nat := 65507

  /** `BITRATE_TIMER`: one pacing round, 10 ms. */
  const BITRATE_TIMER: nat := 10 * NANOS_PER_MILLI

  /** Pacing rounds per second (1000 ms / 10 ms). */
  const ROUNDS_PER_SEC: nat := 1000 / 10

  /** Rounds are counted in microseconds, as `as_micros` does. */
  const BITRATE_TIMER_MICROS: nat := 10_000

  /** At most three rounds' worth of data is sent at once. */
  const MAX_ROUNDS: nat := 3

  /** Length of the serialised acknowledgement `{"error":null}`. */
  const ACK_LEN: nat := 14

  /** Error codes the server closes with. */
  const CLOSE_NO_ERROR: nat := 0x00
  const CLOSE_BAD_CONFIG: nat := 0x1
  const CLOSE_AUTH_FAILED: nat := 0x10

  datatype TestConfig = TestConfig(
    localAddrs: seq<string>,
    peerAddrs: seq<string>,
    password: Option<string>,
    clientSending: bool,
    duration: nat,
    /** Bytes per second, when the sender is paced. */
    bitrateTarget: Option<nat>)

  /** A piece read from stream 0, given by what serde makes of it: the test
      configuration it decodes to, and the acknowledgement (with its
      optional error text) it decodes to. */
  datatype Chunk = Chunk(asConfig: Option<TestConfig>, asAck: Option<Option<string>>)

  /** `pw_eq`: a server without a password accepts anything; a server with
      one accepts exactly that password. */
  function PwEq(expected: Option<string>, received: Option<string>): (ok: bool)
    ensures ok <==> expected.None? || received == expected
  {
    match (expected, received)
    case (None, _) => true
    case (Some(v1), Some(v2)) => v1 == v2
    case _ => false
  }

  /** The direction test of `work`: `(cs && sent) || (!cs && !sent)`. */
  function DirectionSends(clientSending: bool, configSent: bool): (sends: bool)
    ensures sends <==> clientSending == configSent
  {
    (clientSending && configSent) || (!clientSending && !configSent)
  }

  /** The client (which has sent its configuration) and the server (which
      never sends one) take opposite roles, and the client is the sender
      exactly when the configuration says so. */
  lemma ExactlyOneSender(clientSending: bool)
    ensures DirectionSends(clientSending, true) == clientSending
    ensures DirectionSends(clientSending, false) == !clientSending
  {
  }

  /** What `bitrate_target_quantum` computes from the target, with the time
      since the last send when there was one. The `f64` factor
      `clamp(elapsed_us / 10_000, 0, 3)` is taken exactly. */
  function Quantum(bitrateTarget: nat, sinceLastSend: Option<nat>): (q: nat)
    ensures sinceLastSend.None? ==> q == bitrateTarget / ROUNDS_PER_SEC
    ensures sinceLastSend.Some? && sinceLastSend.value / 1000 < BITRATE_TIMER_MICROS ==> q == 0
    ensures sinceLastSend.Some? && sinceLastSend.value / 1000 >= BITRATE_TIMER_MICROS ==>
      bitrateTarget / ROUNDS_PER_SEC <= q <= MAX_ROUNDS * (bitrateTarget / ROUNDS_PER_SEC)
  {
    var perRound := bitrateTarget / ROUNDS_PER_SEC;
    match sinceLastSend
    case None => perRound
    case Some(e) =>
      var micros := e / 1000;
      if micros < BITRATE_TIMER_MICROS then 0
      else
        var clamped := if micros < MAX_ROUNDS * BITRATE_TIMER_MICROS then micros else MAX_ROUNDS * BITRATE_TIMER_MICROS;
        QuantumBounds(perRound, clamped);
        perRound * clamped / BITRATE_TIMER_MICROS
  }

  lemma QuantumBounds(perRound: nat, clamped: nat)
    requires BITRATE_TIMER_MICROS <= clamped <= MAX_ROUNDS * BITRATE_TIMER_MICROS
    ensures perRound <= perRound * clamped / BITRATE_TIMER_MICROS <= MAX_ROUNDS * perRound
  {
    assert perRound * BITRATE_TIMER_MICROS <= perRound * clamped <= perRound * (MAX_ROUNDS * BITRATE_TIMER_MICROS);
    assert perRound * BITRATE_TIMER_MICROS / BITRATE_TIMER_MICROS == perRound;
    assert perRound * (MAX_ROUNDS * BITRATE_TIMER_MICROS) / BITRATE_TIMER_MICROS == MAX_ROUNDS * perRound;
    DivMonotone(perRound * BITRATE_TIMER_MICROS, perRound * clamped, BITRATE_TIMER_MICROS);
    DivMonotone(perRound * clamped, perRound * (MAX_ROUNDS * BITRATE_TIMER_MICROS), BITRATE_TIMER_MICROS);
  }

  lemma DivMonotone(a: nat, b: nat, d: nat)
    requires a <= b && d > 0
    ensures a / d <= b / d
  {
    var qa, qb := a / d, b / d;
    if qa > qb {
      assert qa * d >= (qb + 1) * d by {
        MulMonotone(qb + 1, qa, d);
      }
      assert false;
    }
  }

  lemma MulMonotone(x: nat, y: nat, d: nat)
    requires x <= y
    ensures x * d <= y * d
  {
  }

  class Protocol {
    var configSent: bool
    var configAcked: bool
    var tc: Option<TestConfig>
    const password: Option<string>
    /** When the configuration was (last) sent. */
    var start: Option<nat>
    /** Set once the test duration has expired. */
    var finished: bool
    /** When data was last accepted by the connection. */
    var lastSend: Option<nat>

    /** Sending or acknowledging a configuration presupposes one. */
    ghost predicate Valid()
      reads this
    {
      (configSent || configAcked) ==> tc.Some?
    }

    /** `new_with_tc`, used by the client. */
    constructor WithConfig(config: TestConfig)
      ensures Valid()
      ensures tc == Some(config) && password == config.password
      ensures !configSent && !configAcked && !finished && start == None && lastSend == None
    {
      configSent := false;
      configAcked := false;
      tc := Some(config);
      password := config.password;
      start := None;
      finished := false;
      lastSend := None;
    }

    /** `new_with_password`, used by the server. */
    constructor WithPassword(password: Option<string>)
      ensures Valid()
      ensures tc == None && this.password == password
      ensures !configSent && !configAcked && !finished && start == None && lastSend == None
    {
      configSent := false;
      configAcked := false;
      tc := None;
      this.password := password;
      start := None;
      finished := false;
      lastSend := None;
    }

    /** The states in which `timeout` has nothing to wait for. */
    predicate Unpaced()
      reads this
    {
      finished || tc.None? || tc.value.bitrateTarget.None? || !configSent || !configAcked
    }

    /** `timeout`: how long until the next pacing round, read at `now`. */
    function Timeout(now: nat): (d: nat)
      reads this
      ensures d == DURATION_MAX <==> Unpaced()
      ensures !Unpaced() ==> d <= BITRATE_TIMER
      ensures !Unpaced() && lastSend.None? ==> d == 0
      ensures !Unpaced() && lastSend.Some? ==>
        (d == 0 <==> Elapsed(lastSend.value, now) >= BITRATE_TIMER)
    {
      if Unpaced() then DURATION_MAX
      else if lastSend.Some? then SaturatingSub(BITRATE_TIMER, Elapsed(lastSend.value, now))
      else 0
    }

    /** Whether `work` sends rather than receives. */
    predicate SendsData()
      reads this`tc, this`configSent
      requires tc.Some?
    {
      DirectionSends(tc.value.clientSending, configSent)
    }

    /** `bitrate_target_quantum`: how many bytes to send now, or `None` when
        the sender is not paced. */
    function BitrateTargetQuantum(now: nat): (q: Option<nat>)
      reads this`tc, this`lastSend
      ensures q.None? <==> tc.None? || tc.value.bitrateTarget.None?
      ensures q.Some? && lastSend.None? ==> q.value == tc.value.bitrateTarget.value / ROUNDS_PER_SEC
      ensures q.Some? && lastSend.Some? ==> q.value <= MAX_ROUNDS * (tc.value.bitrateTarget.value / ROUNDS_PER_SEC)
    {
      if tc.None? || tc.value.bitrateTarget.None? then None
      else
        var since := if lastSend.Some? then Some(Elapsed(lastSend.value, now)) else None;
        Some(Quantum(tc.value.bitrateTarget.value, since))
    }

    /** The byte budget of one `send_data` call. */
    function SendBudget(now: nat): (b: nat)
      reads this`tc, this`lastSend
      ensures BitrateTargetQuantum(now).None? ==> b == SEND_DATA_LEN * 1000
    {
      BitrateTargetQuantum(now).GetOr(SEND_DATA_LEN * 1000)
    }

    /** Whether the test is over at `now`: already finished, or the test
        duration has passed since the configuration was sent. */
    predicate Over(now: nat)
      reads this
    {
      finished || (tc.Some? && start.Some? && Elapsed(start.value, now) >= tc.value.duration)
    }

    /** `close_after_duration`: true once the test duration has passed since
        `start`, closing the connection with code 0 the first time. */
    method CloseAfterDuration(conn: Connection<Chunk>, now: nat) returns (over: bool)
      modifies this`finished, conn`closeCode
      ensures over == old(Over(now))
      ensures old(finished) ==> over && finished && conn.closeCode == old(conn.closeCode)
      ensures !old(finished) && (tc.None? || start.None?) ==>
        !over && !finished && conn.closeCode == old(conn.closeCode)
      ensures !old(finished) && tc.Some? && start.Some? ==>
        && (over <==> Elapsed(start.value, now) >= tc.value.duration)
        && finished == over
        && (over && !old(conn.Closing()) ==> conn.closeCode == Some(CLOSE_NO_ERROR))
        && (!over || old(conn.Closing()) ==> conn.closeCode == old(conn.closeCode))
    {
      if finished {
        return true;
      }
      if tc.None? || start.None? {
        return false;
      }
      var remaining := SaturatingSub(tc.value.duration, Elapsed(start.value, now));
      if remaining > 0 {
        return false;
      }
      finished := true;
      var _ := conn.Close(CLOSE_NO_ERROR);
      over := true;
    }

    /** What `send_config` leaves behind: the serialised configuration
        (`msgLen` bytes) is offered once and stream 0 takes as much of it as
        it has room for; it counts as sent only when all of it fits, and the
        test clock starts. A failed send changes neither. */
    twostate predicate ConfigOffered(conn: Connection<Chunk>, msgLen: nat, now: nat)
      reads this`configSent, this`start, conn`broken, conn`offers, conn`sent, conn`capacity
    {
      && conn.offers == old(conn.offers) + [msgLen]
      && (conn.broken ==>
            && configSent == old(configSent) && start == old(start)
            && conn.sent == old(conn.sent) && conn.capacity == old(conn.capacity))
      && (!conn.broken ==>
            && configSent == (old(configSent) || msgLen <= old(conn.capacity))
            && start == Some(now)
            && conn.sent == old(conn.sent) + Min(msgLen, old(conn.capacity))
            && conn.capacity == old(conn.capacity) - Min(msgLen, old(conn.capacity)))
    }

    /** `send_config`: offer the serialised configuration (`msgLen` bytes);
        it counts as sent only when all of it was accepted. */
    method SendConfig(conn: Connection<Chunk>, msgLen: nat, now: nat) returns (r: Result<(), QuicheError>)
      requires Valid() && tc.Some?
      modifies this`configSent, this`start, conn`capacity, conn`sent, conn`offers
      ensures Valid()
      ensures r == (if conn.broken then Err(Fatal) else Ok(()))
      ensures ConfigOffered(conn, msgLen, now)
    {
      var sent := conn.StreamSend(msgLen);
      var written: nat;
      match sent {
        case Ok(v) => written := v;
        case Err(Done) => written := 0;
        case Err(Fatal) => return Err(Fatal);
      }
      if written >= msgLen {
        configSent := true;
      }
      start := Some(now);
      r := Ok(());
    }

    /** `recv_config_ack`: read acknowledgements until stream 0 is empty,
        stopping at the first piece that is not a clean acknowledgement. */
    method RecvConfigAck(conn: Connection<Chunk>) returns (r: Result<(), QuicheError>)
      requires Valid() && tc.Some?
      modifies this`configAcked, conn`inbox
      ensures Valid()
      ensures var scan := AckScan(old(conn.inbox));
        && conn.inbox == old(conn.inbox)[scan.consumed..]
        && configAcked == (old(configAcked) || scan.acked)
        && (r.Err? <==> scan.rejected)
        && (r.Err? ==> r.error == Done)
    {
      ghost var inbox0 := conn.inbox;
      ghost var n := 0;
      while true
        invariant 0 <= n <= |inbox0|
        invariant conn.inbox == inbox0[n..]
        invariant AckScan(inbox0) == Shifted(n, AckScan(inbox0[n..]))
        invariant configAcked == (old(configAcked) || n > 0)
        decreases |conn.inbox|
      {
        var c := conn.StreamRecv();
        if c.None? {
          break;
        }
        assert inbox0[n..][1..] == inbox0[n + 1..];
        if !CleanAck(c.value) {
          return Err(Done);
        }
        n := n + 1;
        configAcked := true;
      }
      r := Ok(());
    }

    /** What `recv_config` leaves behind. With nothing waiting, nothing
        changes. Otherwise one piece is consumed: one that is not a
        configuration closes with `CLOSE_BAD_CONFIG`, a wrong password
        closes with `CLOSE_AUTH_FAILED` (a connection already closing keeps
        its code), and the right password acknowledges the configuration
        and adopts it, unless the acknowledgement fails to send. */
    twostate predicate ConfigReceived(conn: Connection<Chunk>)
      reads this, conn
    {
      if old(conn.inbox) == [] then
        && conn.inbox == [] && configAcked == old(configAcked) && tc == old(tc)
        && conn.closeCode == old(conn.closeCode) && conn.sent == old(conn.sent)
      else
        var cfg := old(conn.inbox)[0].asConfig;
        var accepted := cfg.Some? && PwEq(password, cfg.value.password);
        && conn.inbox == old(conn.inbox)[1..]
        && (cfg.None? ==>
              conn.closeCode == (if old(conn.Closing()) then old(conn.closeCode) else Some(CLOSE_BAD_CONFIG)))
        && (cfg.Some? && !accepted ==>
              conn.closeCode == (if old(conn.Closing()) then old(conn.closeCode) else Some(CLOSE_AUTH_FAILED)))
        && (accepted ==> conn.closeCode == old(conn.closeCode))
        && (!accepted || conn.broken ==>
              configAcked == old(configAcked) && tc == old(tc) && conn.sent == old(conn.sent))
        && (accepted && !conn.broken ==>
              && configAcked && tc == cfg
              && conn.sent == old(conn.sent) + Min(ACK_LEN, old(conn.capacity)))
    }

    /** `recv_config`: the server reads one piece from stream 0 and, when it
        is a configuration with the right password, acknowledges it. */
    method RecvConfig(conn: Connection<Chunk>) returns (r: Result<(), QuicheError>)
      requires Valid()
      modifies this`configAcked, this`tc, conn`inbox, conn`closeCode, conn`capacity, conn`sent, conn`offers
      ensures Valid()
      ensures ConfigReceived(conn)
      ensures old(conn.inbox) == [] ==> r == Ok(())
      ensures old(conn.inbox) != [] && old(conn.inbox)[0].asConfig.None? ==> r == Err(Done)
      ensures old(conn.inbox) != [] && old(conn.inbox)[0].asConfig.Some? ==>
        r == (if PwEq(password, old(conn.inbox)[0].asConfig.value.password) && conn.broken
              then Err(Fatal) else Ok(()))
    {
      var c := conn.StreamRecv();
      if c.None? {
        return Ok(());
      }
      var cfg := c.value.asConfig;
      if cfg.None? {
        var _ := conn.Close(CLOSE_BAD_CONFIG);
        return Err(Done);
      }
      if !PwEq(password, cfg.value.password) {
        var _ := conn.Close(CLOSE_AUTH_FAILED);
        return Ok(());
      }
      var sent := conn.StreamSend(ACK_LEN);
      if sent == Err(Fatal) {
        return Err(Fatal);
      }
      configAcked := true;
      tc := cfg;
      r := Ok(());
    }

    /** What `send_data` leaves behind, read at `now`: stream 0 holds as
        much of the round's budget as it had room for, offered in chunks of
        at most `SEND_DATA_LEN` bytes that add up to no more than the
        budget, and `lastSend` moves to `now` once any of it was accepted.
        A connection that fails keeps `sent` and `lastSend`. */
    twostate predicate DataSent(conn: Connection<Chunk>, now: nat)
      reads this`lastSend, conn`broken, conn`sent, conn`capacity, conn`offers
    {
      var budget := old(SendBudget(now));
      && (conn.broken && budget > 0 ==> lastSend == old(lastSend) && conn.sent == old(conn.sent))
      && (!conn.broken || budget == 0 ==>
            && conn.sent == old(conn.sent) + Min(budget, old(conn.capacity))
            && conn.capacity == old(conn.capacity) - Min(budget, old(conn.capacity))
            && lastSend == (if budget > 0 && old(conn.capacity) > 0 then Some(now) else old(lastSend)))
      && |old(conn.offers)| <= |conn.offers| && conn.offers[..|old(conn.offers)|] == old(conn.offers)
      && (forall i | |old(conn.offers)| <= i < |conn.offers| :: 0 < conn.offers[i] <= SEND_DATA_LEN)
      && Sum(conn.offers[|old(conn.offers)|..]) <= budget
    }

    /** `send_data`: offer zero-filled chunks of at most `SEND_DATA_LEN`
        bytes until the round's budget is spent or the stream is full. The
        connection ends up holding as much of the budget as it had room for. */
    method SendData(conn: Connection<Chunk>, now: nat) returns (r: Result<(), QuicheError>)
      modifies this`lastSend, conn`capacity, conn`sent, conn`offers
      ensures r == (if conn.broken && old(SendBudget(now)) > 0 then Err(Fatal) else Ok(()))
      ensures DataSent(conn, now)
    {
      var bytesToSend := SendBudget(now);
      var accepted;
      r, accepted := OfferChunks(conn, bytesToSend);
      if accepted {
        lastSend := Some(now);
      }
    }

    /** `recv_data`: read and drop everything waiting on stream 0. */
    method RecvData(conn: Connection<Chunk>) returns (r: Result<(), QuicheError>)
      modifies conn`inbox
      ensures r == Ok(()) && conn.inbox == []
    {
      while true
        decreases |conn.inbox|
      {
        var c := conn.StreamRecv();
        if c.None? {
          break;
        }
      }
      r := Ok(());
    }

    /** What `work` leaves behind once the configuration is acknowledged:
        the sending side has sent one round (`DataSent`), the other side
        has drained stream 0 and sent nothing. */
    twostate predicate Worked(conn: Connection<Chunk>, now: nat)
      requires tc.Some?
      reads this`tc, this`configSent, this`lastSend,
            conn`broken, conn`inbox, conn`sent, conn`capacity, conn`offers
    {
      if SendsData() then DataSent(conn, now)
      else
        && conn.inbox == [] && conn.sent == old(conn.sent) && conn.capacity == old(conn.capacity)
        && conn.offers == old(conn.offers) && lastSend == old(lastSend)
    }

    /** `work`: once the configuration is acknowledged, the sending side
        sends and the other side drains stream 0. */
    method Work(conn: Connection<Chunk>, now: nat) returns (r: Result<(), QuicheError>)
      requires Valid()
      modifies this`lastSend, conn`capacity, conn`sent, conn`offers, conn`inbox
      ensures Valid()
      ensures !configAcked ==> r == Err(Done) && unchanged(this, conn)
      ensures configAcked ==> Worked(conn, now)
      ensures configAcked && SendsData() ==>
        && r == (if conn.broken && old(SendBudget(now)) > 0 then Err(Fatal) else Ok(()))
        && conn.inbox == old(conn.inbox)
      ensures configAcked && !SendsData() ==> r == Ok(())
    {
      if !configAcked {
        return Err(Done);
      }
      if SendsData() {
        r := SendData(conn, now);
      } else {
        r := RecvData(conn);
      }
    }

    /** `server_dispatch`: read the configuration until it is acknowledged,
        then work. */
    method ServerDispatch(conn: Connection<Chunk>, now: nat)
      requires Valid()
      modifies this`configAcked, this`tc, this`lastSend,
               conn`inbox, conn`closeCode, conn`capacity, conn`sent, conn`offers
      ensures Valid()
      ensures !old(configAcked) ==> ConfigReceived(conn) && lastSend == old(lastSend)
      ensures old(configAcked) ==>
        && configAcked && tc == old(tc) && conn.closeCode == old(conn.closeCode)
        && Worked(conn, now)
        && (SendsData() ==> conn.inbox == old(conn.inbox))
    {
      if !configAcked {
        var _ := RecvConfig(conn);
      } else {
        var _ := Work(conn, now);
      }
    }

    /** What one running step of the client leaves behind. Before it is
        sent, the configuration is offered and nothing else happens. Once it
        is sent, stream 0 is scanned for the acknowledgement, and a test
        acknowledged by that scan works in the same step. An acknowledged
        test only works. */
    twostate predicate ClientStepped(conn: Connection<Chunk>, msgLen: nat, now: nat)
      requires tc.Some?
      reads this`configSent, this`configAcked, this`start, this`tc, this`lastSend,
            conn`broken, conn`inbox, conn`sent, conn`capacity, conn`offers
    {
      && (!old(configSent) && !old(configAcked) ==>
            && ConfigOffered(conn, msgLen, now)
            && !configAcked && lastSend == old(lastSend) && conn.inbox == old(conn.inbox))
      && (old(configSent) && !old(configAcked) ==>
            var scan := AckScan(old(conn.inbox));
            && configSent && start == old(start) && configAcked == scan.acked
            && (!configAcked ==>
                  && conn.inbox == old(conn.inbox)[scan.consumed..] && lastSend == old(lastSend)
                  && conn.sent == old(conn.sent) && conn.capacity == old(conn.capacity)
                  && conn.offers == old(conn.offers))
            && (configAcked ==> Worked(conn, now))
            && (configAcked && SendsData() ==> conn.inbox == old(conn.inbox)[scan.consumed..]))
      && (old(configSent) && old(configAcked) ==>
            && configSent && configAcked && start == old(start)
            && Worked(conn, now)
            && (SendsData() ==> conn.inbox == old(conn.inbox)))
    }

    /** The body of `client_dispatch` once the connection is open and the
        test is on: send the configuration, or else scan for its
        acknowledgement; then work if it is acknowledged. */
    method ClientStep(conn: Connection<Chunk>, msgLen: nat, now: nat)
      requires Valid() && tc.Some?
      modifies this`configSent, this`configAcked, this`start, this`lastSend,
               conn`inbox, conn`capacity, conn`sent, conn`offers
      ensures Valid()
      ensures old(configAcked ==> configSent) ==> (configAcked ==> configSent)
      ensures !configAcked ==> lastSend == old(lastSend)
      ensures ClientStepped(conn, msgLen, now)
    {
      if !configSent {
        var _ := SendConfig(conn, msgLen, now);
      } else if !configAcked {
        var _ := RecvConfigAck(conn);
      }
      if configAcked {
        var _ := Work(conn, now);
      }
    }

    /** `client_dispatch`: unless the connection is closing or the test is
        over, send the configuration, then wait for its acknowledgement,
        then work. */
    method ClientDispatch(conn: Connection<Chunk>, msgLen: nat, now: nat)
      requires Valid() && tc.Some?
      modifies this`configSent, this`configAcked, this`start, this`finished, this`lastSend,
               conn`inbox, conn`closeCode, conn`capacity, conn`sent, conn`offers
      ensures Valid() && tc == old(tc)
      ensures old(configAcked ==> configSent) ==> (configAcked ==> configSent)
      ensures !configAcked ==> lastSend == old(lastSend)
      // A closing connection is left alone.
      ensures old(conn.closed || conn.draining) ==> unchanged(this, conn)
      // Once the test is over, only the close code can change.
      ensures !old(conn.closed || conn.draining) && old(Over(now)) ==>
        && finished
        && conn.closeCode == (if old(finished) || old(conn.Closing()) then old(conn.closeCode)
                              else Some(CLOSE_NO_ERROR))
        && configSent == old(configSent) && configAcked == old(configAcked)
        && start == old(start) && lastSend == old(lastSend)
        && conn.inbox == old(conn.inbox) && conn.sent == old(conn.sent)
        && conn.capacity == old(conn.capacity) && conn.offers == old(conn.offers)
      // Otherwise the test takes one step and the close code stays.
      ensures !old(conn.closed || conn.draining || Over(now)) ==>
        && !finished && conn.closeCode == old(conn.closeCode)
        && ClientStepped(conn, msgLen, now)
    {
      if conn.closed || conn.draining {
        return;
      }
      var over := CloseAfterDuration(conn, now);
      if over {
        return;
      }
      ClientStep(conn, msgLen, now);
    }
  }

  /** The loop of `send_data`: offer chunks of at most `SEND_DATA_LEN`
      bytes of `budget` to stream 0 until it is spent, the stream is full
      or the connection fails; `accepted` says whether the stream took any. */
  method OfferChunks(conn: Connection<Chunk>, budget: nat) returns (r: Result<(), QuicheError>, accepted: bool)
    modifies conn`capacity, conn`sent, conn`offers
    ensures conn.broken && budget > 0 ==> r == Err(Fatal) && !accepted && conn.sent == old(conn.sent)
    ensures !conn.broken || budget == 0 ==>
      && r == Ok(())
      && conn.sent == old(conn.sent) + Min(budget, old(conn.capacity))
      && conn.capacity == old(conn.capacity) - Min(budget, old(conn.capacity))
      && (accepted <==> budget > 0 && old(conn.capacity) > 0)
    ensures |old(conn.offers)| <= |conn.offers| && conn.offers[..|old(conn.offers)|] == old(conn.offers)
    ensures forall i | |old(conn.offers)| <= i < |conn.offers| :: 0 < conn.offers[i] <= SEND_DATA_LEN
    ensures Sum(conn.offers[|old(conn.offers)|..]) <= budget
  {
    var bytesToSend := budget;
    ghost var cap0 := conn.capacity;
    ghost var sent0 := conn.sent;
    ghost var offered := 0;
    ghost var offers0 := conn.offers;
    ghost var chunks: seq<nat> := [];
    accepted := false;
    while bytesToSend > 0
      invariant conn.offers == offers0 + chunks
      invariant forall i | 0 <= i < |chunks| :: 0 < chunks[i] <= SEND_DATA_LEN
      invariant Sum(chunks) + bytesToSend == budget
      invariant offered + bytesToSend == budget
      invariant conn.sent == sent0 + Min(offered, cap0)
      invariant conn.capacity == cap0 - Min(offered, cap0)
      invariant accepted <==> offered > 0
      invariant offered > 0 ==> !conn.broken && cap0 > 0
    {
      var offset := Min(bytesToSend, SEND_DATA_LEN);
      bytesToSend := bytesToSend - offset;
      var written := conn.StreamSend(offset);
      SumSnoc(chunks, offset);
      chunks := chunks + [offset];
      if written == Err(Fatal) {
        return Err(Fatal), false;
      } else if written == Err(Done) {
        break;
      }
      MinAfter(offered, offset, cap0);
      offered := offered + offset;
      accepted := true;
    }
    assert conn.offers[|offers0|..] == chunks;
    r := Ok(());
  }

  /** Offering `more` after `done` bytes, with room for `cap` in all: once
      some room is left, the stream takes what fits of `more`. */
  lemma MinAfter(done: nat, more: nat, cap: nat)
    requires Min(done, cap) < cap
    ensures Min(done + more, cap) == Min(done, cap) + Min(more, cap - Min(done, cap))
  {
  }

  function Sum(xs: seq<nat>): nat {
    if xs == [] then 0 else Sum(xs[..|xs| - 1]) + xs[|xs| - 1]
  }

  lemma SumSnoc(xs: seq<nat>, x: nat)
    ensures Sum(xs + [x]) == Sum(xs) + x
  {
    assert (xs + [x])[..|xs|] == xs;
  }

  /** A piece that decodes to an acknowledgement carrying no error. */
  predicate CleanAck(c: Chunk) {
    c.asAck == Some(None)
  }

  /** What `recv_config_ack` does with the pieces waiting on stream 0:
      how many it reads, whether it saw an acknowledgement, and whether it
      stopped at a piece that is not a clean acknowledgement. */
  datatype AckOutcome = AckOutcome(consumed: nat, acked: bool, rejected: bool)

  function AckScan(inbox: seq<Chunk>): (s: AckOutcome)
    ensures s.consumed <= |inbox|
    ensures s.acked <==> |inbox| > 0 && CleanAck(inbox[0])
    ensures s.rejected <==> exists i | 0 <= i < |inbox| :: !CleanAck(inbox[i])
    ensures s.rejected ==> 0 < s.consumed && !CleanAck(inbox[s.consumed - 1])
    ensures !s.rejected ==> s.consumed == |inbox|
    ensures forall i | 0 <= i < s.consumed - 1 :: CleanAck(inbox[i])
  {
    if inbox == [] then AckOutcome(0, false, false)
    else if !CleanAck(inbox[0]) then AckOutcome(1, false, true)
    else
      var rest := AckScan(inbox[1..]);
      assert forall i | 1 <= i < |inbox| :: inbox[i] == inbox[1..][i - 1];
      AckOutcome(rest.consumed + 1, true, rest.rejected)
  }

  /** The outcome of a scan that first read `n` clean acknowledgements. */
  function Shifted(n: nat, s: AckOutcome): AckOutcome {
    AckOutcome(s.consumed + n, n > 0 || s.acked, s.rejected)
  }
}
