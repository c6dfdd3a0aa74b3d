/**
 * The byte stream a connection talks over, with the socket taken out: what
 * the client writes is appended to a log, what the server sends waits in a
 * queue of deliveries, and whether each write, flush, close or TLS
 * handshake succeeds is read off a script of outcomes given up front.
 */
module Streams {
  import opened Wrappers
  import opened Protocol
  import Utf8

  type byte = Utf8.byte

  /** What the server side hands over: some bytes, or a failed read. No bytes is the end of the stream. */
  datatype Delivery = Data(bytes: seq<byte>) | ReadFailure(error: IoError)

  /** The size of the buffer each read fills at most. */
  const ReadSize: nat := 1024

  /** The outcome of the `n`th step of a script; past its end every step succeeds. */
  function OutcomeAt(faults: seq<Option<IoError>>, n: nat): Option<IoError> {
    if n < |faults| then faults[n] else None
  }

  /** The script once its first `n` steps have been used. */
  function Skip(faults: seq<Option<IoError>>, n: nat): (rest: seq<Option<IoError>>)
    ensures forall m: nat :: OutcomeAt(rest, m) == OutcomeAt(faults, n + m)
  {
    if n < |faults| then faults[n..] else []
  }

  /** A step of the script is the same step of what is left once earlier steps are used. */
  lemma {:induction false} SkipOutcome(faults: seq<Option<IoError>>, n: nat)
    ensures forall i: nat :: n <= i ==> OutcomeAt(faults, i) == OutcomeAt(Skip(faults, n), i - n)
  {
  }

  lemma {:induction false} SkipSkip(faults: seq<Option<IoError>>, n: nat, m: nat)
    ensures Skip(Skip(faults, n), m) == Skip(faults, n + m)
  {
  }

  function AsResult(outcome: Option<IoError>): (r: Result<(), IoError>)
    ensures r.Ok? <==> outcome.None?
    ensures r.Err? ==> r.error == outcome.value
  {
    if outcome.Some? then Err(outcome.value) else Ok(())
  }

  /** One read into a buffer of `ReadSize` bytes: what it returns and what is left waiting. */
  function Take(incoming: seq<Delivery>): (r: (Result<seq<byte>, IoError>, seq<Delivery>))
    ensures r.0.Ok? ==> |r.0.value| <= ReadSize
    ensures r.0.Ok? && r.0.value != [] ==> Weight(r.1) < Weight(incoming)
  {
    if incoming == [] then (Ok([]), [])
    else match incoming[0]
      case ReadFailure(e) => (Err(e), incoming[1..])
      case Data(b) =>
        if |b| <= ReadSize then (Ok(b), incoming[1..])
        else (Ok(b[..ReadSize]), [Data(b[ReadSize..])] + incoming[1..])
  }

  /** A measure of what is still to be read: every byte and every delivery counts one. */
  function Weight(incoming: seq<Delivery>): nat {
    if incoming == [] then 0
    else
      (if incoming[0].Data? then |incoming[0].bytes| + 1 else 1) + Weight(incoming[1..])
  }

  /** Everything a stream holds, as one value. */
  datatype StreamState = StreamState(
    written: seq<byte>, flushed: nat, closed: bool, encrypted: bool,
    faults: seq<Option<IoError>>, incoming: seq<Delivery>)

  /** `close` on a state: shut, one step of the script used. */
  function CloseStep(st: StreamState): (r: (Result<(), IoError>, StreamState))
    ensures r.1.closed && r.1.faults == Skip(st.faults, 1)
    ensures r.1.written == st.written && r.1.incoming == st.incoming && r.1.encrypted == st.encrypted
  {
    (AsResult(OutcomeAt(st.faults, 0)), st.(closed := true, faults := Skip(st.faults, 1)))
  }

  /** The TLS handshake on a state: encrypted when it succeeds, one step of the script used. */
  function HandshakeStep(st: StreamState): (r: (Result<(), IoError>, StreamState))
    ensures r.1.encrypted <==> st.encrypted || r.0.Ok?
    ensures r.1.faults == Skip(st.faults, 1) && r.1.closed == st.closed
    ensures r.1.written == st.written && r.1.incoming == st.incoming
  {
    var r := AsResult(OutcomeAt(st.faults, 0));
    (r, st.(encrypted := st.encrypted || r.Ok?, faults := Skip(st.faults, 1)))
  }

  class Stream {
    /** Every byte a write has accepted, in order. */
    var written: seq<byte>
    /** How much of `written` the last successful flush pushed out. */
    var flushed: nat
    var closed: bool
    /** Whether a TLS handshake has upgraded the stream. */
    var encrypted: bool
    /** The outcomes of the writes, flushes, closes and handshakes still to come. */
    var faults: seq<Option<IoError>>
    /** What the server has still to deliver. */
    var incoming: seq<Delivery>

    constructor (faults: seq<Option<IoError>>, incoming: seq<Delivery>)
      ensures written == [] && flushed == 0 && !closed && !encrypted
      ensures this.faults == faults && this.incoming == incoming
    {
      written := [];
      flushed := 0;
      closed := false;
      encrypted := false;
      this.faults := faults;
      this.incoming := incoming;
    }

    /** The stream's fields as one value. */
    function State(): StreamState
      reads this
    {
      StreamState(written, flushed, closed, encrypted, faults, incoming)
    }

    /** The outcome the next write, flush, close or handshake will have. */
    function Next(): Option<IoError>
      reads this
    {
      OutcomeAt(faults, 0)
    }

    /** `write_all`: the bytes are appended to the log unless the write fails. */
    method WriteAll(bytes: seq<byte>) returns (r: Result<(), IoError>)
      modifies this
      ensures r == AsResult(old(Next()))
      ensures written == if r.Ok? then old(written) + bytes else old(written)
      ensures faults == Skip(old(faults), 1)
      ensures flushed == old(flushed) && closed == old(closed) && encrypted == old(encrypted)
      ensures incoming == old(incoming)
    {
      r := AsResult(Next());
      if r.Ok? {
        written := written + bytes;
      }
      faults := Skip(faults, 1);
    }

    /** `flush`: everything written so far goes out unless the flush fails. */
    method Flush() returns (r: Result<(), IoError>)
      modifies this
      ensures r == AsResult(old(Next()))
      ensures flushed == if r.Ok? then |written| else old(flushed)
      ensures faults == Skip(old(faults), 1)
      ensures written == old(written) && closed == old(closed) && encrypted == old(encrypted)
      ensures incoming == old(incoming)
    {
      r := AsResult(Next());
      if r.Ok? {
        flushed := |written|;
      }
      faults := Skip(faults, 1);
    }

    /** `close`: the stream is shut whether or not the close reports an error. */
    method Close() returns (r: Result<(), IoError>)
      modifies this
      ensures r == AsResult(old(Next()))
      ensures closed
      ensures faults == Skip(old(faults), 1)
      ensures written == old(written) && flushed == old(flushed) && encrypted == old(encrypted)
      ensures incoming == old(incoming)
      ensures (r, State()) == CloseStep(old(State()))
    {
      r := AsResult(Next());
      closed := true;
      faults := Skip(faults, 1);
    }

    /** The TLS handshake, kept opaque: it either upgrades the stream or fails with an I/O error. */
    method Handshake() returns (r: Result<(), IoError>)
      modifies this
      ensures r == AsResult(old(Next()))
      ensures encrypted == (old(encrypted) || r.Ok?)
      ensures faults == Skip(old(faults), 1)
      ensures written == old(written) && flushed == old(flushed) && closed == old(closed)
      ensures incoming == old(incoming)
      ensures (r, State()) == HandshakeStep(old(State()))
    {
      r := AsResult(Next());
      if r.Ok? {
        encrypted := true;
      }
      faults := Skip(faults, 1);
    }

    /** `poll_read` into a buffer of `ReadSize` bytes. */
    method Read() returns (r: Result<seq<byte>, IoError>)
      modifies this
      ensures (r, incoming) == Take(old(incoming))
      ensures written == old(written) && flushed == old(flushed) && closed == old(closed)
      ensures encrypted == old(encrypted) && faults == old(faults)
    {
      var t := Take(incoming);
      r := t.0;
      incoming := t.1;
    }
  }
}
