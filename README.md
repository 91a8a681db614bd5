# Multipath QUIC measurement tools: a verified model of their core

This project models the core of three pieces of a multipath QUIC test bed and proves
properties about it:

- **quicheperf**, a throughput tool for multipath QUIC:
  - the test protocol between client and server: configuration, acknowledgement, paced
    data;
  - command-line parsing;
  - the socket buffer and path-status helpers;
  - the per-second report;
  - the client's and the server's send and receive bookkeeping.
- **r2m2p2**, a QUIC server with ICE traversal:
  - the stateless retry tokens;
  - the HTTP/0.9 file server;
  - the QUIC server's event loop: routing, connection-id table, burst shaping, garbage
    collection;
  - the UDP send helper;
  - the ICE/QUIC demultiplexer;
  - the client's hex dump.
- **mininet/logfile.py**, which filters large log files for lines that do or do not
  contain given strings.

One Dafny module stands for each core source file:

| module | source file |
|---|---|
| `PerfProtocol` | quicheperf `protocol.rs` |
| `PerfCli` | quicheperf `cli.rs` |
| `PerfCommon` | quicheperf `common.rs` |
| `PerfUi` | quicheperf `ui.rs` |
| `PerfClient` | quicheperf `client.rs` |
| `PerfServer` | quicheperf `server.rs` |
| `R2Server` | r2m2p2 `server.rs` |
| `R2QuicServer` | r2m2p2 `quic_server.rs` |
| `R2Common` | r2m2p2 `common.rs` |
| `R2Multiplexer` | r2m2p2 `multiplexer.rs` |
| `R2Client` | r2m2p2 `client.rs` |
| `Logfile` | `mininet/logfile.py` |

Shared modules hold what several of these files use:

- `RetryToken`: the retry-token format, written identically in both r2m2p2 servers.
- `ConnIds`: connection-id generation.
- `Bytes`: big-endian numbers.
- `Text`: decimal parsing, splitting, substring search and ASCII lower-casing.
- `Time`: durations and instants as nanoseconds.
- `Net`: socket addresses.
- `Wrappers`: `Option` and `Result`.
- `Arith`: `min` on sizes.
- `Quiche`: a small deterministic stand-in for the quiche connection. It keeps the stream
  send capacity, the bytes accepted, the messages waiting to be read and the close code.

The models take the sources' own forms:

- Objects whose methods update fields are classes with `modifies` clauses: the protocol
  state, the UI, the client and server socket states, the servers, the path-status
  updater and the multiplexer.
- The loops of the source are methods with loop invariants, each proved against a
  function that states the whole loop's outcome. Examples are the config-ack scan, the
  data send loop, the id retire and issue loops, the burst write loops, the segmenting
  `send_to`, the multiplexer's receive loop and the log filter loops.
- Pure parsing and formatting code is written as functions with lemmas.

Inputs that come from the world are parameters:

| input | source of the value |
|---|---|
| clock readings | `now` |
| random bytes | `randoms` |
| the connection's answers to `send`, `new_source_cid` and `set_path_status` | answer sequences or a predicate |
| socket write outcomes | outcome sequences |
| a file system read | `files` |
| the lines of a log file | `lines` |

## Model

| member | source | states |
|---|---|---|
| PerfProtocol.PwEq | quicheperf/src/protocol.rs:314-323 | the password check passes exactly when no password is configured or the received one equals it |
| PerfProtocol.ExactlyOneSender | quicheperf/src/protocol.rs:128-130 | for either configured direction exactly one of the client and the server sends data |
| PerfProtocol.Quantum | quicheperf/src/protocol.rs:232-251 | the per-round byte quantum: one round's share of the bitrate at the first send, nothing before the bitrate timer has run out, and between one and MAX_ROUNDS rounds' share after it |
| PerfProtocol.QuantumBounds | quicheperf/src/protocol.rs:239-246 | scaling the per-round share by the clamped elapsed time stays between one and MAX_ROUNDS shares |
| PerfProtocol.Protocol.WithConfig | quicheperf/src/protocol.rs:50-62 | a client-side protocol holds the test config and its password and has sent, acknowledged and started nothing |
| PerfProtocol.Protocol.WithPassword | quicheperf/src/protocol.rs:65-76 | a server-side protocol holds only the expected password and has no config yet |
| PerfProtocol.Protocol.Timeout | quicheperf/src/protocol.rs:78-93 | an unpaced test never times out; a paced one wakes at once before the first send and otherwise when the bitrate timer has run out since the last send |
| PerfProtocol.Protocol.BitrateTargetQuantum | quicheperf/src/protocol.rs:232-251 | there is a quantum exactly when a bitrate target is configured, and it is bounded by MAX_ROUNDS rounds' share |
| PerfProtocol.Protocol.SendBudget | quicheperf/src/protocol.rs:254-255 | without a bitrate target the budget is 1000 chunks of SEND_DATA |
| PerfProtocol.Protocol.CloseAfterDuration | quicheperf/src/protocol.rs:139-164 | answers exactly whether the test is over (finished, or the configured duration has elapsed since the start); the connection is then closed with NO_ERROR unless it is already closing, and a finished test stays finished |
| PerfProtocol.Protocol.SendConfig | quicheperf/src/protocol.rs:167-199 | offers the config message once; a broken stream fails fatally and changes nothing else; otherwise the stream takes what fits, the config counts as sent only if the whole message fit, and the test start is set (ConfigOffered) |
| PerfProtocol.AckScan | quicheperf/src/protocol.rs:202-229 | the scan of incoming messages: acknowledged iff the first is a clean ack; rejected iff some message is not, stopping right after the first such message, and all messages before it are clean |
| PerfProtocol.Protocol.RecvConfigAck | quicheperf/src/protocol.rs:202-229 | consumes exactly the scanned messages, records the ack, and fails with Done exactly when a message is not a clean ack |
| PerfProtocol.Protocol.RecvConfig | quicheperf/src/protocol.rs:297-358 | no message: nothing changes and Ok; a non-config message is consumed, closes with BAD_CONFIG and answers Done; a wrong password closes with AUTH_FAILED and answers Ok; otherwise the config is taken, an ack is offered and the config is acknowledged, and a broken stream answers Fatal (ConfigReceived) |
| PerfProtocol.OfferChunks | quicheperf/src/protocol.rs:257-276 | the chunk loop offers chunks of at most SEND_DATA bytes, no more than the budget in total, and the stream accepts the smaller of the budget and its capacity; a broken stream fails fatally |
| PerfProtocol.Protocol.SendData | quicheperf/src/protocol.rs:253-277 | the stream takes min(budget, capacity) bytes in chunks of at most SEND_DATA bytes offering no more than the budget; the send time is recorded only if some byte was accepted; a broken stream with a budget fails fatally (DataSent) |
| PerfProtocol.MinAfter | quicheperf/src/protocol.rs:257-274 | capping a running total at the capacity step by step gives the same as capping the whole total |
| PerfProtocol.Protocol.RecvData | quicheperf/src/protocol.rs:279-295 | all waiting data is read and discarded |
| PerfProtocol.Protocol.Work | quicheperf/src/protocol.rs:124-136 | before the ack: Done and nothing changes; afterwards the side whose turn it is sends exactly as SendData does and the other drains its whole inbox and sends nothing (Worked) |
| PerfProtocol.Protocol.ServerDispatch | quicheperf/src/protocol.rs:111-121 | before the ack the server receives the config exactly as RecvConfig does and sends no data; once acknowledged the config and close code stay fixed and it works exactly as Work does |
| PerfProtocol.Protocol.ClientDispatch | quicheperf/src/protocol.rs:97-108 | a closed or draining connection is left alone; a test that is over is closed with NO_ERROR (unless already closing) and nothing else happens; otherwise one ClientStep; acknowledged implies sent is preserved and no data leaves before the ack |
| PerfProtocol.Protocol.ClientStep | quicheperf/src/protocol.rs:99-107 | sends the config if not sent, else scans for the ack if not acknowledged, then works once acknowledged (ClientStepped); no data leaves before the ack |
| PerfCli.ParseBool | quicheperf/src/cli.rs:20-26 | accepts exactly "true" and "false" and reports the fixed error otherwise |
| PerfCli.ParseBitrate | quicheperf/src/cli.rs:28-33 | a parsed size in bits becomes bytes (size/8); a failed parse yields "failed parsing" plus the input |
| PerfCli.ParsePathStatus | quicheperf/src/cli.rs:42-61 | succeeds iff there are three comma-separated parts that all parse as u64, giving (seconds as a duration, path id, status) |
| PerfCli.ParsePathStatusErrorOrder | quicheperf/src/cli.rs:43-58 | the part count is checked first, then seconds, path id and status, each with its own message |
| PerfCli.ParsePathStatusRoundTrip | quicheperf/src/cli.rs:42-61 | printing seconds, path id and status with commas and parsing the result gives them back |
| PerfCommon.ReportedBufferSize | quicheperf/src/common.rs:64-79 | the reported size is the kernel's value halved |
| PerfCommon.SetSocketBufSize | quicheperf/src/common.rs:99-121 | succeeds with 10000000 exactly when both reads succeed and the second one shows the desired size; each failure gives its own message |
| PerfCommon.FirstUnknownPath | quicheperf/src/common.rs:322-326 | none iff every update names a path below the number of local addresses; otherwise the id of the first one that does not |
| PerfCommon.PathStatusUpdater.New | quicheperf/src/common.rs:315-334 | refuses a schedule exactly when an update names a path with no local address, naming the first such path; otherwise keeps the schedule unchanged |
| PerfCommon.PathStatusUpdater.constructor | quicheperf/src/common.rs:327-332 | stores start, addresses and schedule as given |
| PerfCommon.PathStatusUpdater.Check | quicheperf/src/common.rs:336-351 | the schedule becomes its retained part at the elapsed time |
| PerfCommon.Retained | quicheperf/src/common.rs:340-350 | every kept update is not yet due or failed to be advertised |
| PerfCommon.Removed | quicheperf/src/common.rs:340-350 | every dropped update was due and was advertised on its own path's addresses |
| PerfCommon.RetainedPartition | quicheperf/src/common.rs:340-350 | kept and dropped updates together are a permutation of the schedule |
| PerfCommon.RetainedAppend | quicheperf/src/common.rs:340-350 | retaining distributes over concatenation, so order is preserved |
| PerfCommon.NotDueKept | quicheperf/src/common.rs:342-349 | a schedule with nothing due is kept whole |
| PerfCommon.NewDoesNotCheckPeers | quicheperf/src/common.rs:322-326 | the schedule check looks only at local addresses: an accepted schedule can name a path that has no peer address |
| PerfUi.FmtUnit | quicheperf/src/ui.rs:334-342 | picks M, K or no unit by magnitude and the value is the input truncated to that unit |
| PerfUi.CwndDisplay | quicheperf/src/ui.rs:217-219 | the shown cwnd keeps its unit and is clamped to 999 |
| PerfUi.WrappingSub | quicheperf/src/ui.rs:221-230 | u64 subtraction: exact when no wrap occurs, and 2^64 plus the difference when it does |
| PerfUi.NewTestLabels | quicheperf/src/ui.rs:78-107 | MP iff more than one local address; the arrow and the direction follow who sends |
| PerfUi.Previous | quicheperf/src/ui.rs:203-209 | a path's previous counters are its snapshot, or zero for a new path |
| PerfUi.CellOf | quicheperf/src/ui.rs:198-237 | a path's cell: its scheduled count or 0 past the list, a clamped cwnd, and lost, packets and spurious losses as the counters' growth since the path's snapshot (from zero for a new path), wrapping around 2^64 when a counter went down |
| PerfUi.Cells | quicheperf/src/ui.rs:198-245 | one cell per path |
| PerfUi.CellsAt | quicheperf/src/ui.rs:198-245 | path i is printed against the snapshots as paths 0..i-1 left them |
| PerfUi.SnapshotsKeys | quicheperf/src/ui.rs:203-244 | after an update the snapshots hold exactly the old paths and the reported ones |
| PerfUi.SnapshotIsCurrent | quicheperf/src/ui.rs:239-244 | a reported path's snapshot is its last report |
| PerfUi.SnapshotUntouched | quicheperf/src/ui.rs:198-245 | an unreported path keeps its snapshot |
| PerfUi.Tabulate | quicheperf/src/ui.rs:198-245 | the path loop yields exactly Cells' figures and Snapshots' table for the reported paths |
| PerfUi.UI.constructor | quicheperf/src/ui.rs:61-76 | a UI with no update yet, no paths and zero counters |
| PerfUi.UI.Timeout | quicheperf/src/ui.rs:110-117 | never before the first update; afterwards at most a second, and zero once a second has passed |
| PerfUi.UI.Update | quicheperf/src/ui.rs:120-140 | nothing when not due or closed; otherwise a report whose header, cells and flow-control value follow from the old state; the snapshots and counters are updated, the draining line is printed once, and the update time is set |
| PerfClient.SocketState.constructor | quicheperf/src/client.rs:38-46 | an empty buffer with nothing pending |
| PerfClient.SocketState.ScheduleSend | quicheperf/src/client.rs:56-69 | a datagram becomes pending to its destination, copying the data when given |
| PerfClient.SocketState.TrySend | quicheperf/src/client.rs:73-108 | nothing pending: Ok(0); sent: the datagram leaves and nothing is pending; would block: counted and kept; error: reported and kept |
| PerfClient.Client.constructor | quicheperf/src/client.rs:128-252 | one idle socket per local address, a token for each, and one probed path |
| PerfClient.Client.ProbePathsIfNecessary | quicheperf/src/client.rs:450-483 | probes one more path exactly when paths remain, a destination id is available and the probe succeeds |
| PerfClient.Client.Send | quicheperf/src/client.rs:490-528 | the sockets end exactly as SendRun says for the scheduler decisions, connection answers and socket outcomes: each written packet fills its socket's buffer and is tried at once, and the loop stops at a pending socket, at Done, at a connection error (closing it with SEND_FAILED unless closing) or at a socket error, which is returned |
| PerfClient.SendRunMonotone | quicheperf/src/client.rs:490-528 | a send round leaves pending sockets alone, only adds sent datagrams and never lowers a would-block count |
| PerfClient.Overwritten | quicheperf/src/client.rs:504-509 | a packet written into a socket buffer replaces its first bytes and keeps the rest |
| PerfClient.Tried | quicheperf/src/client.rs:523-524 | scheduling then trying a packet: a sent datagram is recorded and nothing stays pending; a blocked one is counted and kept; the buffer holds the packet |
| PerfClient.WritePacket | quicheperf/src/client.rs:504-509 | writes the packet into the buffer in place, as Overwritten says |
| PerfClient.Client.WriteAndTry | quicheperf/src/client.rs:504-524 | one socket changes as Tried says and the others not at all; an error exactly for a failed send |
| PerfClient.Client.OnClose | quicheperf/src/client.rs:530-567 | HandshakeFail iff the connection was never established; otherwise a warning for exactly the local addresses whose socket would have blocked |
| PerfServer.SocketState.constructor | quicheperf/src/server.rs:52-63 | an empty buffer with nothing pending |
| PerfServer.SocketState.Reset | quicheperf/src/server.rs:65-69 | nothing pending and no datagram size |
| PerfServer.SocketState.TrySend | quicheperf/src/server.rs:85-124 | a sent burst is recorded with its length, path and segment size and the socket is reset; would-block and errors leave it as it was |
| PerfServer.SocketState.Append | quicheperf/src/server.rs:893-895 | a write extends the queued burst, keeps the first packet's path and sets the segment size |
| PerfServer.BurstLimit | quicheperf/src/server.rs:838-840 | the largest multiple of the datagram size not above the send quantum or the client's burst |
| PerfServer.Server.constructor | quicheperf/src/server.rs:338-453 | one idle socket and one token per local address, and no clients |
| PerfServer.Server.GetClientId | quicheperf/src/server.rs:742-810 | a known destination or derived id routes to its client; otherwise non-Initial and unsupported-version packets are refused, and an Initial creates the next client, routed by the derived id |
| PerfServer.Server.Retire | quicheperf/src/server.rs:626-630 | retired ids leave the routing table and the table stays valid |
| PerfServer.IssueRounds | quicheperf/src/server.rs:632-644 | the issue loop stops at the first refused id or when no ids are left |
| PerfServer.IssuedCids | quicheperf/src/server.rs:632-644 | ids are issued while accepted, each of the full id length, and an unfilled round was refused |
| PerfServer.AddRoutes | quicheperf/src/server.rs:641-643 | the new ids route to the client and every other route is kept |
| PerfServer.Server.AddRoute | quicheperf/src/server.rs:641-643 | one route is added and the table stays valid |
| PerfServer.Server.Issue | quicheperf/src/server.rs:632-644 | the issued ids are those accepted before the first refusal, and they are routed to the client |
| PerfServer.Server.FillBursts | quicheperf/src/server.rs:837-916 | the bursts end exactly as FillRun says for the burst limit, decisions and answers; continue_write is FillRun's; a connection failure closes the client with SEND_FAILED unless it already has a close code; other clients and sent bursts are untouched |
| PerfServer.Appended | quicheperf/src/server.rs:893-895 | a packet extends the burst by its length, keeps the first packet's addresses and sets the segment size |
| PerfServer.FillRunBounds | quicheperf/src/server.rs:837-916 | a fill round never both fails and continues; a burst only grows, up to the burst limit, keeps its first addresses and takes the client's datagram size |
| PerfServer.Server.FillSockets | quicheperf/src/server.rs:841-916 | the packet loop over the scheduler decisions leaves the sockets as FillRun says and reports its continue and failure flags |
| PerfServer.Server.AppendTo | quicheperf/src/server.rs:893-895 | one socket's burst changes as Appended says and the others not at all |
| PerfServer.Server.FlushAll | quicheperf/src/server.rs:922-932 | the sockets, what they accepted and the result are FlushRun's: every socket before the first failing one is flushed, the rest are untouched, and the failure is reported as "socket.try_send failed: " and the socket error's debug form; on success every pending socket sent or would block and sent ones are empty, and an error comes from a pending socket's failure |
| PerfServer.Server.FlushSockets | quicheperf/src/server.rs:922-932 | the try_send loop leaves the sockets and the result exactly as FlushRun says |
| PerfServer.Server.FlushOne | quicheperf/src/server.rs:924-925 | one socket changes as Flushed and FlushedBursts say and the others do not; an error, with the source's "send_to() failed" text, exactly when a pending burst fails |
| PerfServer.FirstFailure | quicheperf/src/server.rs:922-932 | the first socket whose pending burst fails to send: no earlier socket fails, and the one found does |
| PerfServer.Flushed | quicheperf/src/server.rs:85-123 | a pending burst that was sent leaves an empty socket; otherwise the burst stays |
| PerfServer.FlushedBursts | quicheperf/src/server.rs:85-123 | a pending burst that was sent is recorded with its length, addresses and segment size; otherwise nothing is added |
| PerfServer.FlushRunOutcomes | quicheperf/src/server.rs:922-932 | the flush fails exactly when a pending burst fails; on success sent bursts are recorded and their sockets emptied, and every other socket is left as it was |
| PerfServer.Server.GarbageCollect | quicheperf/src/server.rs:1062-1085 | exactly the closed clients are removed, and exactly the routes to them |
| ConnIds.GenerateCidAndResetToken | quicheperf/src/common.rs:272-282 | the id is the first 20 random bytes |
| ConnIds.ResetTokenOfRandom | quicheperf/src/common.rs:279-281 | the reset token is the next 16 random bytes read big-endian, and it encodes back to them |
| Bytes.ToBigEndianOfBigEndian | quicheperf/src/common.rs:281 | encoding a big-endian value gives back its bytes |
| Bytes.BigEndianOfToBigEndian | quicheperf/src/common.rs:281 | decoding an encoded value gives back the value |
| RetryToken.Mint | r2m2p2/src/server.rs:621-635 | the token is "quiche", the client's address octets, then the original destination id |
| RetryToken.Validate | r2m2p2/src/server.rs:644-667 | succeeds iff the token starts with "quiche" and the sender's address octets, returning the rest |
| RetryToken.ValidateMint | r2m2p2/src/quic_server.rs:13-47 | a token minted for an address validates from it, returning the original id |
| RetryToken.MintOfValidate | r2m2p2/src/quic_server.rs:13-47 | a token that validates is the one minted for the id it returns |
| RetryToken.ValidateOtherAddress | r2m2p2/src/quic_server.rs:28-47 | a token minted for another address of the same family is refused |
| R2Server.LineEnd | r2m2p2/src/server.rs:675 | the first line feed, or the end |
| R2Server.FirstLine | r2m2p2/src/server.rs:675 | the first line is a line-feed-free prefix ended by "\n" or "\r\n", the whole text when there is no line feed, and a carriage return right before the first line feed is dropped |
| R2Server.NormalParts | r2m2p2/src/server.rs:679-683 | keeps exactly the normal components, in order |
| R2Server.RequestPathStaysUnderRoot | r2m2p2/src/server.rs:672-683 | the served path is the root followed by plain names, never "." or "..", with no separator |
| R2Server.BuildPath | r2m2p2/src/server.rs:677-683 | the push loop builds the root plus the normal components |
| R2Server.Body | r2m2p2/src/server.rs:692-693 | a readable file is sent as it is; an unreadable one yields the 12 bytes "Not Found!\r\n" |
| R2Server.Client.constructor | r2m2p2/src/server.rs:670-719 | no partial responses |
| R2Server.Client.HandleStream | r2m2p2/src/server.rs:670-719 | only a GET is answered; the body is offered once; an unsent rest is kept under the stream id; a failed send keeps nothing |
| R2Server.Client.HandleWritable | r2m2p2/src/server.rs:722-752 | an unknown stream is ignored; otherwise the rest of the body is offered, and a response is dropped once complete or on error |
| R2QuicServer.NewClient | r2m2p2/src/quic_server.rs:354-365 | a new client is open, without a close code, and uses exactly its source id |
| R2QuicServer.RouteOf | r2m2p2/src/quic_server.rs:227-368 | a packet goes to a known client iff its destination or derived id is routed; a new client is accepted only with a full-length id and a token minted for the sender |
| R2QuicServer.RetryThenAccept | r2m2p2/src/quic_server.rs:262-320 | answering a Retry from the same address with its token and id gets the client accepted with the original id |
| R2QuicServer.NoClientWithoutValidToken | r2m2p2/src/quic_server.rs:262-305 | no token, or one minted for another address, never creates a client |
| R2QuicServer.QuicServer.constructor | r2m2p2/src/quic_server.rs:158-160 | no clients, no routes and client ids start at 0 |
| R2QuicServer.QuicServer.OnPacket | r2m2p2/src/quic_server.rs:227-370 | the route is RouteOf; only an accept changes state, adding the next client, routed by the packet's destination id |
| R2QuicServer.QuicServer.SelectAppProto | r2m2p2/src/quic_server.rs:399-418 | once established, selects once: records the datagram size and closes with 0x1 unless the protocol is a quichestun one |
| R2QuicServer.QuicServer.Retire | r2m2p2/src/quic_server.rs:425-428 | retired ids leave the table and the client's id set, and every route still leads to a client that uses it |
| R2QuicServer.QuicServer.RetireLoop | r2m2p2/src/quic_server.rs:425-428 | the retire loop removes exactly the retired ids |
| R2QuicServer.QuicServer.Issue | r2m2p2/src/quic_server.rs:431-442 | the accepted ids are routed to the client and added to its id set, keeping every route valid |
| R2QuicServer.QuicServer.IssueLoop | r2m2p2/src/quic_server.rs:431-442 | the issue loop routes exactly the ids accepted before the first refusal |
| R2QuicServer.SetOfMembers | r2m2p2/src/quic_server.rs:425-442 | the id set of a list holds exactly its elements |
| R2QuicServer.ReducedBurst | r2m2p2/src/quic_server.rs:448-458 | the reduced burst is at least ten datagrams and a quarter cut, and never grows a burst already at the floor |
| R2QuicServer.ReducedBurstFloor | r2m2p2/src/quic_server.rs:454-457 | once at ten datagrams, repeated cuts keep it there |
| R2QuicServer.IterateShape | r2m2p2/src/quic_server.rs:454-457 | after any cut the burst is at or above ten datagrams, and is either at that floor or smaller than the start by at least the number of cuts |
| R2QuicServer.ReachesFloor | r2m2p2/src/quic_server.rs:454-457 | any burst is cut down to exactly ten datagrams after more cuts than it has bytes, and stays there |
| R2QuicServer.BurstRunBounds | r2m2p2/src/quic_server.rs:465-504 | the write loop never exceeds the limit, keeps the first path, has a path once it wrote, and does not continue after a failure |
| R2QuicServer.WriteBurst | r2m2p2/src/quic_server.rs:461-504 | the write loop ends as the burst run from an empty buffer says |
| R2QuicServer.AfterBurst | r2m2p2/src/quic_server.rs:507-538 | the round stops when nothing was written; otherwise the burst is sent and the round stops iff more is pending or the burst is full |
| R2QuicServer.QuicServer.ServeClient | r2m2p2/src/quic_server.rs:445-538 | the burst is cut on rising loss, filled by the write loop up to the limit, and a failed send closes the client with 0x1; other clients are untouched |
| R2QuicServer.QuicServer.GarbageCollect | r2m2p2/src/quic_server.rs:543-561 | exactly the closed clients are removed, and exactly the ids they used leave the table |
| R2Common.BindAddress | r2m2p2/src/common.rs:74-93 | binds to the given address or the default one |
| R2Common.UdpSocket.SendTo | r2m2p2/src/common.rs:165 | one datagram goes out per call and its reply is consumed |
| R2Common.SegmentsShape | r2m2p2/src/common.rs:162-174 | every segment is non-empty and at most the segment size, and all but the last are full |
| R2Common.ConcatSegments | r2m2p2/src/common.rs:162-174 | the segments put together are the buffer |
| R2Common.OutcomeSentPrefix | r2m2p2/src/common.rs:157-177 | the datagrams sent are a prefix of the segments, all of them on success |
| R2Common.OutcomeFirstError | r2m2p2/src/common.rs:165-169 | the send stops at the first error and returns it |
| R2Common.SendTo | r2m2p2/src/common.rs:157-177 | the loop's result and sent datagrams are the segmenting outcome |
| R2Common.ShiftedTwice | r2m2p2/src/common.rs:166-173 | one more successful segment extends the sent list and the byte count |
| R2Multiplexer.IsPacketQuic | r2m2p2/src/multiplexer.rs:57-60 | a packet is QUIC iff bit 6 of its first byte is set |
| R2Multiplexer.StunIsNotQuic | r2m2p2/src/multiplexer.rs:57-60 | a first byte below 64 (STUN) is not QUIC; 64-127 and 192-255 are |
| R2Multiplexer.Zeros | r2m2p2/src/multiplexer.rs:87 | the receive buffer starts zeroed |
| R2Multiplexer.Receive | r2m2p2/src/multiplexer.rs:91 | a datagram overwrites the buffer's start and the rest keeps its old bytes |
| R2Multiplexer.RecvFrom | r2m2p2/src/multiplexer.rs:50-52 | the array receive matches Receive |
| R2Multiplexer.DispatchedToOwnStack | r2m2p2/src/multiplexer.rs:86-112 | every dispatch goes to the stack its first byte names, through that stack's registered callback, with the full buffer |
| R2Multiplexer.DispatchedStopsAtError | r2m2p2/src/multiplexer.rs:86-112 | a receive error ends the loop |
| R2Multiplexer.DispatchedStep | r2m2p2/src/multiplexer.rs:86-112 | one received datagram adds its call and continues with the updated buffer |
| R2Multiplexer.Multiplexer.constructor | r2m2p2/src/multiplexer.rs:70-76 | no callbacks registered |
| R2Multiplexer.Multiplexer.RegisterIceCallback | r2m2p2/src/multiplexer.rs:78-80 | the ICE callback is set |
| R2Multiplexer.Multiplexer.RegisterQuicCallback | r2m2p2/src/multiplexer.rs:82-84 | the QUIC callback is set |
| R2Multiplexer.Multiplexer.StartMultiplex | r2m2p2/src/multiplexer.rs:86-112 | the calls made are Dispatched from a zeroed buffer |
| R2Client.HexDump | r2m2p2/src/client.rs:104-108 | two characters per byte |
| R2Client.HexDumpDigits | r2m2p2/src/client.rs:104-108 | only lower-case hex digits |
| R2Client.HexDumpAt | r2m2p2/src/client.rs:104-108 | byte i is at positions 2i and 2i+1 |
| R2Client.UnHexHexDump | r2m2p2/src/client.rs:104-108 | the dump decodes back to the buffer |
| R2Client.HexDumpEmpty | r2m2p2/src/client.rs:104-108 | the dump is empty iff the buffer is |
| Logfile.SelectsIff | mininet/logfile.py:21-28 | a line is kept by the positive filter iff some filter occurs in its lower-cased text, and by the negative one iff some filter does not |
| Logfile.AnyInExists | mininet/logfile.py:24-28 | the positive inner loop writes iff some filter occurs |
| Logfile.AnyNotInExists | mininet/logfile.py:48-52 | the negative inner loop writes iff some filter does not occur |
| Logfile.Keep | mininet/logfile.py:21-28 | no more lines than the input |
| Logfile.KeepMember | mininet/logfile.py:21-28 | a line is written iff it is in the input and selected |
| Logfile.KeepAppend | mininet/logfile.py:21-28 | filtering two pieces of a file is filtering each in turn |
| Logfile.KeepNoFilters | mininet/logfile.py:24-28 | with no filters nothing is written, by either filter |
| Logfile.SingleFilter | mininet/logfile.py:21-28 | with one filter, positive keeps lines containing it and negative the others |
| Logfile.UpperFiltersKeepNothing | mininet/logfile.py:23-25 | filters with an upper-case letter never match the lower-cased line |
| Logfile.BaseName | mininet/logfile.py:15 | the text after the last slash |
| Logfile.DirName | mininet/logfile.py:16 | a prefix of the path, up to the last slash |
| Logfile.Join | mininet/logfile.py:17 | joins with one slash unless the directory is empty or ends in one |
| Logfile.DefaultOutfileParts | mininet/logfile.py:14-17 | the default output file sits in the input's directory and is named by the prefix plus its name |
| Logfile.FilterLogfilePositive | mininet/logfile.py:8-30 | writes to the given path or the pos_filtered_ default, and writes exactly the kept lines, in order |
| Logfile.PositiveLine | mininet/logfile.py:23-28 | the positive inner loop writes a line once iff a filter matches |
| Logfile.FilterLogfileNegative | mininet/logfile.py:32-54 | writes to the given path or the neg_filtered_ default, and writes exactly the lines that miss a filter |
| Logfile.NegativeLine | mininet/logfile.py:47-52 | the negative inner loop writes a line once iff a filter misses |
| Time.SaturatingSub | quicheperf/src/ui.rs:110-117 | a checked subtraction clamped at zero |
| Text.ParseU64 | quicheperf/src/cli.rs:47-58 | the empty string is the Empty error and any parsed value fits u64 |
| Text.ParseDecimal | quicheperf/src/cli.rs:47-58 | a printed u64 parses back to itself |
| Text.Lower | mininet/logfile.py:23 | lower-cases each character |

## Left out

- The quiche connection itself is not modelled. The `Quiche.Connection` stand-in keeps stream
  capacity, accepted bytes, queued messages and the close code. Everything else a connection
  answers is a parameter: handshake state, sends, retired and issued ids, path statistics and
  the scheduler's decisions.
- Serialisation is not modelled: serde/JSON of the protocol messages is replaced by message
  values. The same goes for `parse_size` units and the numeric meaning of `PathStatus::from`.
- Socket I/O, clocks and randomness are parameters, as are the file system (`files`), the log
  file's lines and the output file. `main.rs`, `ice.rs`, `quic_client.rs`, `quic_multiplex.rs`,
  `quic_stun.rs`, the SDP server and the ICE agent are not part of this model.
- Floating point is not modelled:
  - r2m2p2's loss rate is a boolean "loss increased by more than 0.1%" input.
  - quicheperf's throughput figures and f32 formatting are left out of the UI report.
  - PerfProtocol.Quantum: takes the elapsed rounds `elapsed_us / 10_000` as an exact rational
    where the source computes it and the product with the per-round share in `f64`. The
    result can differ from the source's by rounding.
- Panics and `unwrap` failures are not modelled. Most methods require what the source would
  otherwise panic on, or take the error branch as a parameter. The exceptions are listed below.
- PerfProtocol.Protocol.RecvConfig: for a malformed config on a connection that is already
  closing, the source's `close(...).unwrap()` (quicheperf/src/protocol.rs:306-307) panics. The
  model keeps the old close code and answers Done.
- PerfProtocol.Protocol.ClientDispatch: assumes nothing about a protocol that is acknowledged
  but has not sent its config. No client reaches that state: the model proves that
  "acknowledged implies sent" is preserved.
- PerfCommon.PathStatusUpdater.Check: requires every due update to name a path with a local
  and a peer address, where the source would panic on a bad index.
  PerfCommon.NewDoesNotCheckPeers shows that `new` does not guarantee this.
- HashMap iteration order is not modelled. Clients and sockets are served in a fixed order
  given by the caller.
- R2QuicServer.QuicServer.ServeClient: models one client's round. A round's `break` when
  nothing was written, which also stops the later clients of that round, is stated in
  AfterBurst's `StopRound` rather than in a loop over all clients. The `WouldBlock` break
  and the panic of `send_to_mio` are left out.
- R2QuicServer.WriteBurst: when the answer script runs out, the connection is treated as
  answering `Done`.
- R2Multiplexer.Receive: models the received datagram as overwriting the first bytes of the
  buffer, so a stale tail stays in place. Like the source, it passes the whole buffer to the
  callback, not just the received length. The callbacks get the buffer as `&mut`
  (r2m2p2/src/multiplexer.rs:64-65) and may change it. The model assumes they leave it as it
  was. The panic of `callback(...).unwrap()` on a callback error is left out.
- PerfClient.Overwritten: a packet longer than the buffer is taken to replace it. quiche never
  writes past the slice it is given, and `Send` requires packets of at most MAX_DATAGRAM_SIZE.
- PerfClient.SocketState.TrySend: the IOFail message is the socket error alone. The
  source's text also names the local and peer addresses ("try_send: {local} -> {peer}: send()
  failed: ..."), and formatting addresses as text is not part of this model.
- PerfServer.Server.FlushAll: renders the socket error's `{:?}` form as `FatalSocket("...")`
  without Rust's escaping of quotes and backslashes inside the text.
- PerfServer.Server.FillBursts: models the burst by its length, first addresses and segment
  size. The packet bytes `send_on_path_with_instructions` writes into
  `socket.buf[until..max_send_burst]` (quicheperf/src/server.rs:866-867) are not modelled.
- R2Client.UnHexHexDump: the decoder is a reference inverse only. A trailing odd hex digit
  is ignored; the source has no decoder.
- Text.Lower: lower-cases ASCII only. Python's `str.lower` folds all of Unicode.
- R2Common.SendTo: requires a positive segment size for a non-empty buffer. The source would
  loop forever with a zero segment size.
- PerfUi.WrappingSub: models u64 wrap-around in release builds. Debug builds panic on
  overflow, which is not modelled.
- Logging, `trace!`/`info!` output, qlog and key logging are left out.
