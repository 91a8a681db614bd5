/** The value parsers of quicheperf's command line: `--mp`/`--hystart`
    booleans, `--bitrate` and the `--status secs,pid,status` schedule entries. */
module PerfCli {
  import opened Wrappers
  import opened Text
  import opened Time

  /** A multipath path status as quiche's `PathStatus::from(u64)` makes it;
      that conversion is not part of this model, so the status keeps its code. */
  datatype PathStatus = PathStatus(code: nat)

  /** One timed path-status change: after `after` nanoseconds of the test,
      advertise `status` on path `pid`. */
  datatype PathStatusUpdate = PathStatusUpdate(after: nat, pid: nat, status: PathStatus)

  const WRONG_PART_COUNT := "Failed to split status into three parts"
  const BAD_SECONDS := "Failed to parse seconds"
  const BAD_PATH_ID := "Failed to path path id"
  const BAD_STATUS := "Failed to parse status integer: "
  const EXPECTED_BOOL := "expected `true` or `false`"

  /** `parse_bool`: only the exact words "true" and "false" are accepted. */
  function ParseBool(s: string): (r: Result<bool, string>)
    ensures r.Ok? <==> s == "true" || s == "false"
    ensures r.Ok? ==> (r.value <==> s == "true")
    ensures r.Err? ==> r.error == EXPECTED_BOOL
  {
    if s == "true" then Ok(true)
    else if s == "false" then Ok(false)
    else Err(EXPECTED_BOOL)
  }

  /** `parse_bitrate`: `size` is what the external `parse_size(s)` returned
      (a number of bits per second); the result is bytes per second. */
  function ParseBitrate(s: string, size: Result<nat, string>): (r: Result<nat, string>)
    ensures r.Ok? <==> size.Ok?
    ensures r.Ok? ==> r.value * 8 <= size.value < r.value * 8 + 8
    ensures r.Err? ==> r.error == "failed parsing " + s
  {
    match size
    case Ok(v) => Ok(v / 8)
    case Err(_) => Err("failed parsing " + s)
  }

  /** `parse_path_status`: split on ',' into exactly three pieces, then parse
      seconds, path id and status code, each as an unsigned 64-bit integer. */
  function ParsePathStatus(s: string): (r: Result<PathStatusUpdate, string>)
    ensures var parts := Split(s, ',');
      r.Ok? <==> |parts| == 3 && ParseU64(parts[0]).Ok? && ParseU64(parts[1]).Ok? && ParseU64(parts[2]).Ok?
    ensures var parts := Split(s, ',');
      r.Ok? ==> r.value == PathStatusUpdate(ParseU64(parts[0]).value * NANOS_PER_SEC,
                                           ParseU64(parts[1]).value,
                                           PathStatus(ParseU64(parts[2]).value))
  {
    var parts := Split(s, ',');
    if |parts| != 3 then Err(WRONG_PART_COUNT)
    else
      match ParseU64(parts[0])
      case Err(_) => Err(BAD_SECONDS)
      case Ok(secs) =>
        match ParseU64(parts[1])
        case Err(_) => Err(BAD_PATH_ID)
        case Ok(pid) =>
          match ParseU64(parts[2])
          case Err(e) => Err(BAD_STATUS + IntErrorText(e))
          case Ok(status) => Ok(PathStatusUpdate(secs * NANOS_PER_SEC, pid, PathStatus(status)))
  }

  /** The errors come in the order of the checks: piece count, seconds,
      path id, status; each names the first piece that failed. */
  lemma ParsePathStatusErrorOrder(s: string)
    ensures var parts := Split(s, ',');
      && (|parts| != 3 ==> ParsePathStatus(s) == Err(WRONG_PART_COUNT))
      && (|parts| == 3 && ParseU64(parts[0]).Err? ==> ParsePathStatus(s) == Err(BAD_SECONDS))
      && (|parts| == 3 && ParseU64(parts[0]).Ok? && ParseU64(parts[1]).Err? ==>
            ParsePathStatus(s) == Err(BAD_PATH_ID))
      && (|parts| == 3 && ParseU64(parts[0]).Ok? && ParseU64(parts[1]).Ok? && ParseU64(parts[2]).Err? ==>
            ParsePathStatus(s) == Err(BAD_STATUS + IntErrorText(ParseU64(parts[2]).error)))
  {
  }

  /** Round trip: the text "s,p,t" written from three `u64` values parses
      back to those values. */
  lemma ParsePathStatusRoundTrip(secs: nat, pid: nat, status: nat)
    requires secs <= U64_MAX && pid <= U64_MAX && status <= U64_MAX
    ensures ParsePathStatus(Decimal(secs) + "," + Decimal(pid) + "," + Decimal(status))
         == Ok(PathStatusUpdate(secs * NANOS_PER_SEC, pid, PathStatus(status)))
  {
    var a, b, c := Decimal(secs), Decimal(pid), Decimal(status);
    NoCommaInDecimal(secs);
    NoCommaInDecimal(pid);
    NoCommaInDecimal(status);
    assert a + "," + b + "," + c == a + [','] + (b + [','] + c);
    SplitPiece(a, ',', b + [','] + c);
    SplitPiece(b, ',', c);
    SplitNoSep(c, ',');
    ParseDecimal(secs);
    ParseDecimal(pid);
    ParseDecimal(status);
  }

  lemma NoCommaInDecimal(n: nat)
    ensures ',' !in Decimal(n)
  {
  }
}
