/** A deterministic stand-in for the parts of `quiche::Connection` that the
    modelled code calls. It is not a model of quiche: it records the calls'
    effects the callers rely on (a close code, a stream-0 send capacity,
    the messages waiting on stream 0) so that the callers can be verified. */
module Quiche {
  import opened Wrappers

  /** quiche's errors as the callers distinguish them: `Done` and any other. */
  datatype QuicheError = Done | Fatal

  class Connection<Msg> {
    var closed: bool
    var draining: bool
    var established: bool
    /** The error code of the first local `close`, if any. */
    var closeCode: Option<nat>
    /** How many more bytes stream 0 accepts now. */
    var capacity: nat
    /** Whether `stream_send` fails with an error other than `Done`. */
    var broken: bool
    /** What `stream_recv` on stream 0 will hand out, in order. */
    var inbox: seq<Msg>
    /** Bytes accepted on stream 0 so far. */
    var sent: nat
    /** The length of every buffer offered to `stream_send`, in order. */
    var offers: seq<nat>

    constructor (established: bool, capacity: nat, broken: bool, inbox: seq<Msg>)
      ensures this.established == established && this.capacity == capacity
      ensures this.broken == broken && this.inbox == inbox
      ensures !closed && !draining && closeCode == None && sent == 0 && offers == []
    {
      this.closed := false;
      this.draining := false;
      this.established := established;
      this.closeCode := None;
      this.capacity := capacity;
      this.broken := broken;
      this.inbox := inbox;
      this.sent := 0;
      this.offers := [];
    }

    predicate Closing()
      reads this
    {
      closed || draining || closeCode.Some?
    }

    /** `close(app, code, reason)`: `Done` when the connection is already
        closed, draining or closing. */
    method Close(code: nat) returns (r: Result<(), QuicheError>)
      modifies this`closeCode
      ensures old(Closing()) ==> r == Err(Done) && closeCode == old(closeCode)
      ensures !old(Closing()) ==> r == Ok(()) && closeCode == Some(code)
    {
      if Closing() {
        r := Err(Done);
      } else {
        closeCode := Some(code);
        r := Ok(());
      }
    }

    /** `stream_send(id, buf, fin)` with `|buf| == len`: how much the stream
        accepts (the stream id and the `fin` flag are not part of this model). */
    method StreamSend(len: nat) returns (r: Result<nat, QuicheError>)
      modifies this`capacity, this`sent, this`offers
      ensures offers == old(offers) + [len]
      ensures broken ==> r == Err(Fatal) && capacity == old(capacity) && sent == old(sent)
      ensures !broken && len > 0 && old(capacity) == 0 ==> r == Err(Done) && capacity == old(capacity) && sent == old(sent)
      ensures !broken && (len == 0 || old(capacity) > 0) ==>
        && r.Ok?
        && r.value == (if len <= old(capacity) then len else old(capacity))
        && capacity == old(capacity) - r.value
        && sent == old(sent) + r.value
    {
      offers := offers + [len];
      if broken {
        r := Err(Fatal);
      } else if len > 0 && capacity == 0 {
        r := Err(Done);
      } else {
        var n := if len <= capacity then len else capacity;
        capacity := capacity - n;
        sent := sent + n;
        r := Ok(n);
      }
    }

    /** `stream_recv(0, buf)`: the next waiting message, or `None` for `Done`. */
    method StreamRecv() returns (r: Option<Msg>)
      modifies this`inbox
      ensures old(inbox) == [] ==> r == None && inbox == []
      ensures old(inbox) != [] ==> r == Some(old(inbox)[0]) && inbox == old(inbox)[1..]
    {
      if inbox == [] {
        r := None;
      } else {
        r := Some(inbox[0]);
        inbox := inbox[1..];
      }
    }
  }
}
