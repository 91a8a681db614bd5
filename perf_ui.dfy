/** quicheperf's per-second console report: unit scaling, the report timer
    and the per-path snapshot table each report is computed against. */
module PerfUi {
  import opened Wrappers
  import opened Text
  import opened Time
  import opened Net

  /** `UPDATE_FREQ`: one report per second. */
  const UPDATE_FREQ: nat := NANOS_PER_SEC

  /** `u64` counters wrap around in a release build. */
  const U64_MOD: nat := U64_MAX + 1

  /** The display cap for a path's available congestion window. */
  const CWND_DISPLAY_MAX: nat := 999

  /** The scale of each unit `fmt_unit` can return. */
  function UnitScale(unit: string): nat {
    if unit == "M" then 1_000_000 else if unit == "K" then 1_000 else 1
  }

  /** `fmt_unit`: `v` in millions, thousands or units, rounded down. */
  function FmtUnit(v: nat): (r: (nat, string))
    ensures r.1 == "M" <==> v >= 1_000_000
    ensures r.1 == "K" <==> 1_000 <= v < 1_000_000
    ensures r.1 == " " <==> v < 1_000
    ensures r.0 * UnitScale(r.1) <= v < (r.0 + 1) * UnitScale(r.1)
    ensures r.1 == "K" ==> 1 <= r.0 <= 999
    ensures r.1 == " " ==> r.0 == v
  {
    if v >= 1_000_000 then (v / 1_000_000, "M")
    else if v >= 1_000 then (v / 1_000, "K")
    else (v, " ")
  }

  /** The congestion-window figure shown for a path: scaled, then capped,
      because PTO probes make `cwnd_available` the largest value. */
  function CwndDisplay(cwndAvailable: nat): (r: (nat, string))
    ensures r.0 <= CWND_DISPLAY_MAX
    ensures r.1 == FmtUnit(cwndAvailable).1
    ensures r.0 <= FmtUnit(cwndAvailable).0
    ensures FmtUnit(cwndAvailable).0 <= CWND_DISPLAY_MAX ==> r.0 == FmtUnit(cwndAvailable).0
  {
    var (value, unit) := FmtUnit(cwndAvailable);
    (if value < CWND_DISPLAY_MAX then value else CWND_DISPLAY_MAX, unit)
  }

  /** `a - b` on `u64` counters as a release build computes it. */
  function WrappingSub(a: nat, b: nat): (r: nat)
    ensures r < U64_MOD
    ensures b <= a < U64_MOD ==> r == a - b
    ensures a < b < U64_MOD ==> r == U64_MOD + a - b
  {
    (a - b) % U64_MOD
  }

  /** The labels of `new_test`'s heading: test type, arrow and direction. */
  datatype TestLabels = TestLabels(testType: string, arrow: string, direction: string)

  function NewTestLabels(localAddrCount: nat, clientSending: bool): (l: TestLabels)
    ensures l.testType == "MP" <==> localAddrCount > 1
    ensures l.testType == "SP" <==> localAddrCount <= 1
    ensures l.arrow == "->" <==> clientSending
    ensures l.arrow == "<-" <==> !clientSending
    ensures l.direction == (if clientSending then "uplink" else "downlink")
  {
    TestLabels(if localAddrCount > 1 then "MP" else "SP",
               if clientSending then "->" else "<-",
               if clientSending then "uplink" else "downlink")
  }

  /** The counters of one path, as quiche reports them and as the table
      remembers them from the previous report. */
  datatype PathStats = PathStats(sent: nat, recv: nat, sentBytes: nat, recvBytes: nat, lost: nat, lostSpurious: nat)

  const ZERO_STATS := PathStats(0, 0, 0, 0, 0, 0)

  datatype FourTuple = FourTuple(local: SocketAddr, peer: SocketAddr)

  /** One entry of `path_stats()`. */
  datatype PathReport = PathReport(local: SocketAddr, peer: SocketAddr, stats: PathStats, cwndAvailable: nat)

  /** The connection-wide counters of `stats()`. */
  datatype ConnStats = ConnStats(sent: nat, recv: nat, sentBytes: nat, recvBytes: nat, lost: nat)

  /** The integer figures printed for one path (the throughput, an `f32`,
      is not part of this model). */
  datatype PathCell = PathCell(cwnd: (nat, string), lost: nat, scheduled: nat, packets: nat, lostSpurious: nat)

  function Key(p: PathReport): FourTuple {
    FourTuple(p.local, p.peer)
  }

  /** The snapshot a path is compared against: the remembered one, or all
      zeros for a path seen for the first time. */
  function Previous(paths: map<FourTuple, PathStats>, key: FourTuple): (prev: PathStats)
    ensures key !in paths ==> prev == ZERO_STATS
    ensures key in paths ==> prev == paths[key]
  {
    if key in paths then paths[key] else ZERO_STATS
  }

  /** The figures printed for path `i`. */
  function CellOf(paths: map<FourTuple, PathStats>, p: PathReport, i: nat, scheduled: seq<nat>, clientSending: bool): (c: PathCell)
    ensures i >= |scheduled| ==> c.scheduled == 0
    ensures i < |scheduled| ==> c.scheduled == scheduled[i]
    ensures c.cwnd.0 <= CWND_DISPLAY_MAX
    ensures Key(p) !in paths && p.stats.lost < U64_MOD && p.stats.lostSpurious < U64_MOD ==>
      c.lost == p.stats.lost && c.lostSpurious == p.stats.lostSpurious
    ensures Key(p) !in paths && p.stats.sent < U64_MOD && p.stats.recv < U64_MOD ==>
      c.packets == if clientSending then p.stats.sent else p.stats.recv
    ensures Key(p) in paths && paths[Key(p)].lost <= p.stats.lost < U64_MOD ==>
      c.lost == p.stats.lost - paths[Key(p)].lost
    ensures Key(p) in paths && p.stats.lost < paths[Key(p)].lost < U64_MOD ==>
      c.lost == U64_MOD + p.stats.lost - paths[Key(p)].lost
    ensures Key(p) in paths && paths[Key(p)].lostSpurious <= p.stats.lostSpurious < U64_MOD ==>
      c.lostSpurious == p.stats.lostSpurious - paths[Key(p)].lostSpurious
    ensures Key(p) in paths && clientSending && paths[Key(p)].sent <= p.stats.sent < U64_MOD ==>
      c.packets == p.stats.sent - paths[Key(p)].sent
    ensures Key(p) in paths && !clientSending && paths[Key(p)].recv <= p.stats.recv < U64_MOD ==>
      c.packets == p.stats.recv - paths[Key(p)].recv
  {
    var prev := Previous(paths, Key(p));
    PathCell(
      CwndDisplay(p.cwndAvailable),
      WrappingSub(p.stats.lost, prev.lost),
      if i < |scheduled| then scheduled[i] else 0,
      if clientSending then WrappingSub(p.stats.sent, prev.sent) else WrappingSub(p.stats.recv, prev.recv),
      WrappingSub(p.stats.lostSpurious, prev.lostSpurious))
  }

  /** The snapshot table after the paths `ps` were reported, in order. */
  function Snapshots(paths: map<FourTuple, PathStats>, ps: seq<PathReport>): map<FourTuple, PathStats>
  {
    if ps == [] then paths
    else Snapshots(paths, ps[..|ps| - 1])[Key(ps[|ps| - 1]):= ps[|ps| - 1].stats]
  }

  /** The figures printed for the paths `ps`, each against the table as the
      earlier paths left it. */
  function Cells(paths: map<FourTuple, PathStats>, ps: seq<PathReport>, scheduled: seq<nat>, clientSending: bool): (cs: seq<PathCell>)
    ensures |cs| == |ps|
  {
    if ps == [] then []
    else
      var init := ps[..|ps| - 1];
      Cells(paths, init, scheduled, clientSending)
        + [CellOf(Snapshots(paths, init), ps[|ps| - 1], |ps| - 1, scheduled, clientSending)]
  }

  /** Path `i` is printed against the table as paths `0..i` left it. */
  lemma {:induction false} CellsAt(paths: map<FourTuple, PathStats>, ps: seq<PathReport>, scheduled: seq<nat>, clientSending: bool, i: nat)
    requires i < |ps|
    ensures Cells(paths, ps, scheduled, clientSending)[i] == CellOf(Snapshots(paths, ps[..i]), ps[i], i, scheduled, clientSending)
  {
    var init := ps[..|ps| - 1];
    if i < |ps| - 1 {
      CellsAt(paths, init, scheduled, clientSending, i);
      assert init[..i] == ps[..i];
    }
  }

  /** After a report the table holds exactly the paths it held before and
      the paths just reported. */
  lemma {:induction false} SnapshotsKeys(paths: map<FourTuple, PathStats>, ps: seq<PathReport>, k: FourTuple)
    ensures k in Snapshots(paths, ps) <==> k in paths || exists i | 0 <= i < |ps| :: Key(ps[i]) == k
  {
    if ps != [] {
      var init := ps[..|ps| - 1];
      SnapshotsKeys(paths, init, k);
      if exists i | 0 <= i < |init| :: Key(init[i]) == k {
        var i :| 0 <= i < |init| && Key(init[i]) == k;
        assert Key(ps[i]) == k;
      }
      if exists i | 0 <= i < |ps| :: Key(ps[i]) == k {
        var i :| 0 <= i < |ps| && Key(ps[i]) == k;
        if i < |init| {
          assert Key(init[i]) == k;
        }
      }
    }
  }

  /** After a report, a path's snapshot is its current counters (those of
      its last report, should a four-tuple appear twice). */
  lemma {:induction false} SnapshotIsCurrent(paths: map<FourTuple, PathStats>, ps: seq<PathReport>, i: nat)
    requires i < |ps|
    requires forall j | i < j < |ps| :: Key(ps[j]) != Key(ps[i])
    ensures Key(ps[i]) in Snapshots(paths, ps) && Snapshots(paths, ps)[Key(ps[i])] == ps[i].stats
  {
    if i < |ps| - 1 {
      var init := ps[..|ps| - 1];
      assert init[i] == ps[i];
      forall j | i < j < |init| ensures Key(init[j]) != Key(init[i]) {
        assert init[j] == ps[j];
      }
      SnapshotIsCurrent(paths, init, i);
    }
  }

  /** The snapshot of a path that was not reported is untouched. */
  lemma {:induction false} SnapshotUntouched(paths: map<FourTuple, PathStats>, ps: seq<PathReport>, k: FourTuple)
    requires k in paths
    requires forall i | 0 <= i < |ps| :: Key(ps[i]) != k
    ensures k in Snapshots(paths, ps) && Snapshots(paths, ps)[k] == paths[k]
  {
    if ps != [] {
      var init := ps[..|ps| - 1];
      forall i | 0 <= i < |init| ensures Key(init[i]) != k {
        assert init[i] == ps[i];
      }
      SnapshotUntouched(paths, init, k);
    }
  }

  /** The report's console state. */
  class UI {
    const clientSending: bool
    const start: nat
    var lastUpdate: Option<nat>
    var drainingLinePrinted: bool
    var sent: nat
    var recv: nat
    var sentBytes: nat
    var recvBytes: nat
    var lost: nat
    var paths: map<FourTuple, PathStats>

    constructor (clientSending: bool, start: nat)
      ensures this.clientSending == clientSending && this.start == start
      ensures lastUpdate == None && !drainingLinePrinted && paths == map[]
      ensures sent == 0 && recv == 0 && sentBytes == 0 && recvBytes == 0 && lost == 0
    {
      this.clientSending := clientSending;
      this.start := start;
      lastUpdate := None;
      drainingLinePrinted := false;
      sent := 0;
      recv := 0;
      sentBytes := 0;
      recvBytes := 0;
      lost := 0;
      paths := map[];
    }

    /** `timeout`: time until the next report is due; the countdown only
        starts with the first report. */
    function Timeout(now: nat): (d: nat)
      reads this
      ensures lastUpdate.None? <==> d == DURATION_MAX
      ensures lastUpdate.Some? ==> d <= UPDATE_FREQ
      ensures lastUpdate.Some? ==> (d == 0 <==> Elapsed(lastUpdate.value, now) >= UPDATE_FREQ)
    {
      match lastUpdate
      case Some(t) => SaturatingSub(UPDATE_FREQ, Elapsed(t, now))
      case None => DURATION_MAX
    }

    /** Whether `update` prints at `now`: always before the first report,
        then once more than a second has passed. */
    predicate UpdateDue(now: nat)
      reads this
    {
      lastUpdate.None? || Elapsed(lastUpdate.value, now) > UPDATE_FREQ
    }

    /** `update` and `print_per_second_update`: when a report is due and the
        connection is not closed, compute the report's figures against the
        snapshot table, then remember the current counters. `scheduled` is
        what the scheduler's `pop_scheduling_decisions` returns and
        `stream0Capacity` the send capacity of stream 0, if it exists. */
    method Update(closed: bool, draining: bool, stats: ConnStats, pathReports: seq<PathReport>,
                  scheduled: seq<nat>, stream0Capacity: Option<nat>, now: nat)
      returns (report: Option<Report>)
      modifies this
      ensures !old(UpdateDue(now)) || closed ==>
        report == None && unchanged(this)
      ensures old(UpdateDue(now)) && !closed ==>
        && report.Some?
        && report.value.header == (old(lastUpdate).None? || |old(paths)| < |pathReports|)
        && report.value.cells == Cells(old(paths), pathReports, scheduled, clientSending)
        && report.value.flowControl == FmtUnit(stream0Capacity.GetOr(0))
        && report.value.drainingLine == (draining && !old(drainingLinePrinted))
        && paths == Snapshots(old(paths), pathReports)
        && sent == stats.sent && recv == stats.recv && sentBytes == stats.sentBytes
        && recvBytes == stats.recvBytes && lost == stats.lost
        && drainingLinePrinted == (old(drainingLinePrinted) || draining)
        && lastUpdate == Some(now)
    {
      if !UpdateDue(now) || closed {
        return None;
      }
      var header := lastUpdate.None? || |paths| < |pathReports|;
      var cells;
      cells, paths := Tabulate(paths, pathReports, scheduled, clientSending);
      sentBytes := stats.sentBytes;
      recvBytes := stats.recvBytes;
      lost := stats.lost;
      sent := stats.sent;
      recv := stats.recv;
      var drainingLine := draining && !drainingLinePrinted;
      if drainingLine {
        drainingLinePrinted := true;
      }
      lastUpdate := Some(now);
      report := Some(Report(header, cells, FmtUnit(stream0Capacity.GetOr(0)), drainingLine));
    }
  }

  /** The per-path loop of `update`: the cell of each reported path against
      the snapshots, each snapshot replaced by the path's report. */
  method Tabulate(paths0: map<FourTuple, PathStats>, pathReports: seq<PathReport>, scheduled: seq<nat>, clientSending: bool)
    returns (cells: seq<PathCell>, paths: map<FourTuple, PathStats>)
    ensures cells == Cells(paths0, pathReports, scheduled, clientSending)
    ensures paths == Snapshots(paths0, pathReports)
  {
    paths := paths0;
    cells := [];
    for i := 0 to |pathReports|
      invariant paths == Snapshots(paths0, pathReports[..i])
      invariant cells == Cells(paths0, pathReports[..i], scheduled, clientSending)
    {
      assert pathReports[..i + 1][..i] == pathReports[..i];
      var p := pathReports[i];
      cells := cells + [CellOf(paths, p, i, scheduled, clientSending)];
      paths := paths[Key(p) := p.stats];
    }
    assert pathReports[..|pathReports|] == pathReports;
  }

  /** What one per-second report prints: whether the column heading is
      repeated, the per-path figures, the flow-control figure and whether
      the "Connection is draining" line follows. */
  datatype Report = Report(header: bool, cells: seq<PathCell>, flowControl: (nat, string), drainingLine: bool)
}
