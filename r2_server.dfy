/** The HTTP/0.9 part of the r2m2p2 QUIC server: turning a `GET` request
    into a file path under the served root, sending the response, and
    keeping the unsent rest of a response until its stream is writable
    again. The connection is the stand-in `Quiche.Connection`; the file
    system is the parameter `files`. */
module R2Server {
  import opened Wrappers
  import opened Bytes
  import opened Text
  import opened Quiche

  /** A response not yet fully accepted by its stream. */
  datatype PartialResponse = PartialResponse(body: seq<byte>, written: nat)

  /** A `PathBuf`: the root the request was resolved against, then the
      components pushed onto it. */
  datatype PathBuf = PathBuf(root: string, parts: seq<string>)

  /** The body sent when the file cannot be read: "Not Found!\r\n". */
  const NOT_FOUND: seq<byte> := [0x4e, 0x6f, 0x74, 0x20, 0x46, 0x6f, 0x75, 0x6e, 0x64, 0x21, 0x0d, 0x0a]

  /** `handle_stream` acts only on a buffer longer than four bytes that
      starts with "GET ". */
  predicate IsGet(buf: string) {
    |buf| > 4 && buf[..4] == "GET "
  }

  /** The index of the first line feed, or the length when there is none. */
  function LineEnd(s: string): (i: nat)
    ensures i <= |s| && '\n' !in s[..i]
    ensures i < |s| ==> s[i] == '\n'
  {
    if s == [] || s[0] == '\n' then 0
    else
      var i := 1 + LineEnd(s[1..]);
      assert s[..i] == [s[0]] + s[1..][..i - 1];
      i
  }

  /** `lines().next()`: the text before the first line feed, without the
      carriage return of a "\r\n" ending. */
  function FirstLine(s: string): (line: string)
    ensures '\n' !in line
    ensures |line| <= |s| && line == s[..|line|]
    ensures |line| < |s| ==> s[|line|] == '\n' || (|line| + 1 < |s| && s[|line|..|line| + 2] == "\r\n")
    ensures '\n' !in s ==> line == s
    ensures LineEnd(s) < |s| && LineEnd(s) > 0 && s[LineEnd(s) - 1] == '\r' ==> |line| == LineEnd(s) - 1
    ensures LineEnd(s) < |s| && (LineEnd(s) == 0 || s[LineEnd(s) - 1] != '\r') ==> |line| == LineEnd(s)
  {
    var i := LineEnd(s);
    if 0 < i < |s| && s[i - 1] == '\r' then s[..i - 1] else s[..i]
  }

  /** A `Component::Normal`: not the root, not `.`, not `..`. */
  predicate IsNormal(c: string) {
    c != "" && c != "." && c != ".."
  }

  /** The `Normal` components among `cs`, in order. */
  function NormalParts(cs: seq<string>): (r: seq<string>)
    ensures |r| <= |cs|
    ensures forall k | 0 <= k < |r| :: IsNormal(r[k]) && r[k] in cs
    ensures forall k | 0 <= k < |cs| :: IsNormal(cs[k]) ==> cs[k] in r
  {
    if cs == [] then []
    else
      var init := cs[..|cs| - 1];
      var last := cs[|cs| - 1];
      assert forall k | 0 <= k < |cs| - 1 :: cs[k] == init[k];
      NormalParts(init) + (if IsNormal(last) then [last] else [])
  }

  /** The path `handle_stream` reads for a request: the root, then the
      normal components of the first line after "GET ". */
  function RequestPath(root: string, buf: string): PathBuf
    requires IsGet(buf)
  {
    PathBuf(root, NormalParts(Split(FirstLine(buf[4..]), '/')))
  }

  /** What is sent for a path: the file's bytes, or `NOT_FOUND`. */
  function Body(file: Option<seq<byte>>): (body: seq<byte>)
    ensures file.None? ==> body == NOT_FOUND && |body| == 12
    ensures file.Some? ==> body == file.value
  {
    file.GetOr(NOT_FOUND)
  }

  /** However the request is written, the served path stays under the
      root: every pushed component is a plain name, with no separator,
      and is neither `.` nor `..`. */
  lemma RequestPathStaysUnderRoot(root: string, buf: string)
    requires IsGet(buf)
    ensures var path := RequestPath(root, buf);
      && path.root == root
      && forall k | 0 <= k < |path.parts| ::
           path.parts[k] != ".." && path.parts[k] != "." && path.parts[k] != "" && '/' !in path.parts[k]
  {
    var cs := Split(FirstLine(buf[4..]), '/');
    SplitPiecesNoSep(FirstLine(buf[4..]), '/');
    var parts := NormalParts(cs);
    forall k | 0 <= k < |parts|
      ensures '/' !in parts[k]
    {
      var j :| 0 <= j < |cs| && cs[j] == parts[k];
    }
  }

  /** The push loop of `handle_stream`: every normal component of `uri`,
      in order, onto `root`. */
  method BuildPath(root: string, uri: string) returns (path: PathBuf)
    ensures path == PathBuf(root, NormalParts(Split(uri, '/')))
  {
    var cs := Split(uri, '/');
    var parts: seq<string> := [];
    for i := 0 to |cs|
      invariant parts == NormalParts(cs[..i])
    {
      assert cs[..i + 1][..i] == cs[..i];
      if IsNormal(cs[i]) {
        parts := parts + [cs[i]];
      }
    }
    assert cs[..|cs|] == cs;
    path := PathBuf(root, parts);
  }

  class Client {
    const conn: Connection<seq<byte>>
    /** `partial_responses`, by stream id. */
    var partialResponses: map<nat, PartialResponse>

    /** A kept response always has bytes left to send. */
    ghost predicate Valid()
      reads this
    {
      forall s | s in partialResponses :: partialResponses[s].written < |partialResponses[s].body|
    }

    constructor (conn: Connection<seq<byte>>)
      ensures Valid() && this.conn == conn && partialResponses == map[]
    {
      this.conn := conn;
      partialResponses := map[];
    }

    /** `handle_stream`: answer a GET request with the file it names (or
        `NOT_FOUND`) and keep what the stream did not accept. A send error
        other than `Done` drops the response. */
    method HandleStream(streamId: nat, buf: string, root: string, files: PathBuf -> Option<seq<byte>>)
      requires Valid()
      modifies this`partialResponses, conn`capacity, conn`sent, conn`offers
      ensures Valid()
      ensures !IsGet(buf) ==>
        && partialResponses == old(partialResponses)
        && conn.offers == old(conn.offers) && conn.sent == old(conn.sent) && conn.capacity == old(conn.capacity)
      ensures IsGet(buf) ==>
        var body := Body(files(RequestPath(root, buf)));
        && conn.offers == old(conn.offers) + [|body|]
        && (conn.broken ==> partialResponses == old(partialResponses))
        && (!conn.broken ==>
              var written := conn.sent - old(conn.sent);
              && 0 <= written <= |body|
              && partialResponses ==
                   if written < |body| then old(partialResponses)[streamId := PartialResponse(body, written)]
                   else old(partialResponses))
    {
      if IsGet(buf) {
        var uri := FirstLine(buf[4..]);
        var path := BuildPath(root, uri);
        var body := Body(files(path));
        var r := conn.StreamSend(|body|);
        var written: nat;
        match r {
          case Ok(v) => written := v;
          case Err(Done) => written := 0;
          case Err(Fatal) => return;
        }
        if written < |body| {
          partialResponses := partialResponses[streamId := PartialResponse(body, written)];
        }
      }
    }

    /** `handle_writable`: offer the unsent rest of the stream's response;
        forget the response once all of it is accepted, or on a send error
        other than `Done`. A stream without a partial response is left
        alone. */
    method HandleWritable(streamId: nat)
      requires Valid()
      modifies this`partialResponses, conn`capacity, conn`sent, conn`offers
      ensures Valid()
      ensures streamId !in old(partialResponses) ==>
        && partialResponses == old(partialResponses)
        && conn.offers == old(conn.offers) && conn.sent == old(conn.sent) && conn.capacity == old(conn.capacity)
      ensures streamId in old(partialResponses) ==>
        var resp := old(partialResponses)[streamId];
        && conn.offers == old(conn.offers) + [|resp.body| - resp.written]
        && (conn.broken ==> partialResponses == old(partialResponses) - {streamId})
        && (!conn.broken ==>
              var written := resp.written + (conn.sent - old(conn.sent));
              && resp.written <= written <= |resp.body|
              && partialResponses ==
                   if written == |resp.body| then old(partialResponses) - {streamId}
                   else old(partialResponses)[streamId := PartialResponse(resp.body, written)])
    {
      if streamId !in partialResponses {
        return;
      }
      var resp := partialResponses[streamId];
      var r := conn.StreamSend(|resp.body| - resp.written);
      var written: nat;
      match r {
        case Ok(v) => written := v;
        case Err(Done) => written := 0;
        case Err(Fatal) =>
          partialResponses := partialResponses - {streamId};
          return;
      }
      resp := resp.(written := resp.written + written);
      if resp.written == |resp.body| {
        partialResponses := partialResponses - {streamId};
      } else {
        partialResponses := partialResponses[streamId := resp];
      }
    }
  }
}
