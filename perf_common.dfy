/** quicheperf's shared helpers: the timed path-status schedule and the
    socket buffer size rule. */
module PerfCommon {
  import opened Wrappers
  import opened Text
  import opened Net
  import opened PerfCli

  /** What the socket buffer sizes are set to. */
  const DESIRED_RCV_BUF_SIZE: nat := 10_000_000
  const DESIRED_SND_BUF_SIZE: nat := 10_000_000

  datatype UdpBufType = Rcv | Snd

  function BufTypeName(t: UdpBufType): string {
    match t
    case Rcv => "Rcv"
    case Snd => "Snd"
  }

  function DesiredSize(t: UdpBufType): nat {
    match t
    case Rcv => DESIRED_RCV_BUF_SIZE
    case Snd => DESIRED_SND_BUF_SIZE
  }

  /** `get_buffer_size`: Linux reports twice the size that was asked for, so
      the kernel's value is halved. */
  function ReportedBufferSize(kernel: nat): (size: nat)
    ensures 2 * size <= kernel < 2 * size + 2
  {
    kernel / 2
  }

  function ReadError(t: UdpBufType, errno: string): string {
    "Could not read " + BufTypeName(t) + " buffer size: " + errno
  }

  /** `set_socket_buf_size`, given what the two reads of the buffer size
      (before and after setting it) returned. The result of setting it is
      ignored, as in the source. */
  function SetSocketBufSize(t: UdpBufType, prev: Result<nat, string>, now: Result<nat, string>): (r: Result<nat, string>)
    ensures r.Ok? <==> prev.Ok? && now.Ok? && now.value == DesiredSize(t)
    ensures r.Ok? ==> r.value == 10_000_000
    ensures prev.Err? ==> r == Err(ReadError(t, prev.error))
    ensures prev.Ok? && now.Err? ==> r == Err(ReadError(t, now.error))
    ensures prev.Ok? && now.Ok? && now.value != DesiredSize(t) ==>
      r == Err("Could not set the " + BufTypeName(t) + " buf size to " + Decimal(DesiredSize(t))
               + ". It changed from " + Decimal(prev.value) + " to " + Decimal(now.value))
  {
    match (prev, now)
    case (Err(e), _) => Err(ReadError(t, e))
    case (Ok(_), Err(e)) => Err(ReadError(t, e))
    case (Ok(p), Ok(n)) =>
      if n != DesiredSize(t) then
        Err("Could not set the " + BufTypeName(t) + " buf size to " + Decimal(DesiredSize(t))
            + ". It changed from " + Decimal(p) + " to " + Decimal(n))
      else Ok(n)
  }

  /** The first path id in `updates` that names no local address. */
  function FirstUnknownPath(updates: seq<PathStatusUpdate>, localCount: nat): (pid: Option<nat>)
    ensures pid.None? <==> forall i | 0 <= i < |updates| :: updates[i].pid < localCount
    ensures pid.Some? ==> exists i | 0 <= i < |updates| ::
      updates[i].pid == pid.value && pid.value >= localCount
      && forall j | 0 <= j < i :: updates[j].pid < localCount
  {
    if updates == [] then None
    else if updates[0].pid >= localCount then Some(updates[0].pid)
    else
      var rest := FirstUnknownPath(updates[1..], localCount);
      assert forall i | 1 <= i < |updates| :: updates[i] == updates[1..][i - 1];
      if rest.Some? then
        ghost var k :| 0 <= k < |updates[1..]| && updates[1..][k].pid == rest.value && rest.value >= localCount
          && forall j | 0 <= j < k :: updates[1..][j].pid < localCount;
        assert updates[k + 1].pid == rest.value;
        rest
      else rest
  }

  function UnknownPathError(pid: nat): string {
    "Path with " + Decimal(pid) + " does not exist"
  }

  /** The path-status updates scheduled for a client, sent once their time
      (counted from `start`) has come. */
  class PathStatusUpdater {
    const start: nat
    const localAddrs: seq<SocketAddr>
    const peerAddrs: seq<SocketAddr>
    var updates: seq<PathStatusUpdate>

    constructor (start: nat, localAddrs: seq<SocketAddr>, peerAddrs: seq<SocketAddr>, updates: seq<PathStatusUpdate>)
      ensures this.start == start && this.localAddrs == localAddrs
      ensures this.peerAddrs == peerAddrs && this.updates == updates
    {
      this.start := start;
      this.localAddrs := localAddrs;
      this.peerAddrs := peerAddrs;
      this.updates := updates;
    }

    /** `new`: refuse a schedule that names a path with no local address;
        otherwise keep every update as given. */
    static method New(start: nat, localAddrs: seq<SocketAddr>, peerAddrs: seq<SocketAddr>,
                      updates: seq<PathStatusUpdate>)
      returns (r: Result<PathStatusUpdater, string>)
      ensures r.Err? <==> FirstUnknownPath(updates, |localAddrs|).Some?
      ensures r.Err? ==> r.error == UnknownPathError(FirstUnknownPath(updates, |localAddrs|).value)
      ensures r.Ok? ==>
        && fresh(r.value) && r.value.updates == updates && r.value.start == start
        && r.value.localAddrs == localAddrs && r.value.peerAddrs == peerAddrs
    {
      for i := 0 to |updates|
        invariant FirstUnknownPath(updates, |localAddrs|) == FirstUnknownPath(updates[i..], |localAddrs|)
      {
        assert updates[i..][1..] == updates[i + 1..];
        if updates[i].pid >= |localAddrs| {
          return Err(UnknownPathError(updates[i].pid));
        }
      }
      var psu := new PathStatusUpdater(start, localAddrs, peerAddrs, updates);
      r := Ok(psu);
    }

    /** `check`: advertise every update whose time has come, and keep only
        those that are not yet due or whose advertisement failed.
        `advertised` says whether `set_path_status` succeeds for a path's
        local and peer address and a status. */
    method Check(now: nat, advertised: (SocketAddr, SocketAddr, PathStatus) -> bool)
      requires Indexable(updates, Time.Elapsed(start, now), |localAddrs|, |peerAddrs|)
      modifies this`updates
      ensures updates == Retained(old(updates), Time.Elapsed(start, now), localAddrs, peerAddrs, advertised)
    {
      var elapsed := Time.Elapsed(start, now);
      var kept := [];
      for i := 0 to |updates|
        invariant kept == Retained(updates[..i], elapsed, localAddrs, peerAddrs, advertised)
      {
        assert updates[..i + 1][..i] == updates[..i];
        var u := updates[i];
        if elapsed >= u.after {
          if !advertised(localAddrs[u.pid], peerAddrs[u.pid], u.status) {
            kept := kept + [u];
          }
        } else {
          kept := kept + [u];
        }
      }
      assert updates[..|updates|] == updates;
      updates := kept;
    }
  }

  predicate Due(u: PathStatusUpdate, elapsed: nat) {
    elapsed >= u.after
  }

  /** Every update that is due names a path with both a local and a peer
      address. `new` only checks the local side. */
  predicate Indexable(us: seq<PathStatusUpdate>, elapsed: nat, localCount: nat, peerCount: nat) {
    forall i | 0 <= i < |us| :: Due(us[i], elapsed) ==> us[i].pid < localCount && us[i].pid < peerCount
  }

  /** Whether `check` keeps an update. */
  predicate Keep(u: PathStatusUpdate, elapsed: nat, local: seq<SocketAddr>, peer: seq<SocketAddr>,
                 advertised: (SocketAddr, SocketAddr, PathStatus) -> bool)
    requires Due(u, elapsed) ==> u.pid < |local| && u.pid < |peer|
  {
    !Due(u, elapsed) || !advertised(local[u.pid], peer[u.pid], u.status)
  }

  /** `retain(Keep)`. */
  function Retained(us: seq<PathStatusUpdate>, elapsed: nat, local: seq<SocketAddr>, peer: seq<SocketAddr>,
                    advertised: (SocketAddr, SocketAddr, PathStatus) -> bool): (kept: seq<PathStatusUpdate>)
    requires Indexable(us, elapsed, |local|, |peer|)
    ensures |kept| <= |us|
    ensures Indexable(kept, elapsed, |local|, |peer|)
    ensures forall i | 0 <= i < |kept| :: Keep(kept[i], elapsed, local, peer, advertised)
  {
    if us == [] then []
    else
      var init := us[..|us| - 1];
      var last := us[|us| - 1];
      assert forall i | 0 <= i < |init| :: init[i] == us[i];
      Retained(init, elapsed, local, peer, advertised)
        + (if Keep(last, elapsed, local, peer, advertised) then [last] else [])
  }

  /** The updates `check` sends and drops for good: due, and advertised. */
  function Removed(us: seq<PathStatusUpdate>, elapsed: nat, local: seq<SocketAddr>, peer: seq<SocketAddr>,
                   advertised: (SocketAddr, SocketAddr, PathStatus) -> bool): (gone: seq<PathStatusUpdate>)
    requires Indexable(us, elapsed, |local|, |peer|)
    ensures forall i | 0 <= i < |gone| ::
      && Due(gone[i], elapsed) && gone[i].pid < |local| && gone[i].pid < |peer|
      && advertised(local[gone[i].pid], peer[gone[i].pid], gone[i].status)
  {
    if us == [] then []
    else
      var init := us[..|us| - 1];
      var last := us[|us| - 1];
      assert forall i | 0 <= i < |init| :: init[i] == us[i];
      Removed(init, elapsed, local, peer, advertised)
        + (if Keep(last, elapsed, local, peer, advertised) then [] else [last])
  }

  /** `check` neither loses nor invents updates: what it keeps and what it
      removes together are exactly the updates it started with. */
  lemma {:induction false} RetainedPartition(us: seq<PathStatusUpdate>, elapsed: nat, local: seq<SocketAddr>,
                                             peer: seq<SocketAddr>, advertised: (SocketAddr, SocketAddr, PathStatus) -> bool)
    requires Indexable(us, elapsed, |local|, |peer|)
    ensures multiset(Retained(us, elapsed, local, peer, advertised)) + multiset(Removed(us, elapsed, local, peer, advertised))
            == multiset(us)
  {
    if us != [] {
      var init := us[..|us| - 1];
      assert forall i | 0 <= i < |init| :: init[i] == us[i];
      RetainedPartition(init, elapsed, local, peer, advertised);
      assert us == init + [us[|us| - 1]];
    }
  }

  /** `check` keeps the relative order of the updates: filtering a
      schedule is filtering its two halves and joining them. */
  lemma {:induction false} RetainedAppend(us: seq<PathStatusUpdate>, vs: seq<PathStatusUpdate>, elapsed: nat,
                                          local: seq<SocketAddr>, peer: seq<SocketAddr>,
                                          advertised: (SocketAddr, SocketAddr, PathStatus) -> bool)
    requires Indexable(us, elapsed, |local|, |peer|) && Indexable(vs, elapsed, |local|, |peer|)
    ensures Indexable(us + vs, elapsed, |local|, |peer|)
    ensures Retained(us + vs, elapsed, local, peer, advertised)
            == Retained(us, elapsed, local, peer, advertised) + Retained(vs, elapsed, local, peer, advertised)
  {
    assert forall i | 0 <= i < |us + vs| :: (us + vs)[i] == if i < |us| then us[i] else vs[i - |us|];
    if vs != [] {
      var init := vs[..|vs| - 1];
      assert forall i | 0 <= i < |init| :: init[i] == vs[i];
      RetainedAppend(us, init, elapsed, local, peer, advertised);
      assert (us + vs)[..|us + vs| - 1] == us + init;
    } else {
      assert us + vs == us;
    }
  }

  /** An update that is not yet due is always kept. */
  lemma {:induction false} NotDueKept(us: seq<PathStatusUpdate>, elapsed: nat, local: seq<SocketAddr>, peer: seq<SocketAddr>,
                   advertised: (SocketAddr, SocketAddr, PathStatus) -> bool)
    requires Indexable(us, elapsed, |local|, |peer|)
    requires forall i | 0 <= i < |us| :: !Due(us[i], elapsed)
    ensures Retained(us, elapsed, local, peer, advertised) == us
  {
    if us != [] {
      var init := us[..|us| - 1];
      assert forall i | 0 <= i < |init| :: init[i] == us[i];
      NotDueKept(init, elapsed, local, peer, advertised);
      assert us == init + [us[|us| - 1]];
    }
  }

  /** `new` looks only at the local addresses: a schedule for path 1 is
      accepted with two local and one peer address, and `check` would then
      index the peer addresses out of bounds once the update is due. */
  lemma NewDoesNotCheckPeers(a: SocketAddr, b: SocketAddr)
    ensures var us := [PathStatusUpdate(0, 1, PathStatus(0))];
      && FirstUnknownPath(us, |[a, b]|).None?
      && !Indexable(us, 0, |[a, b]|, |[a]|)
  {
  }
}
