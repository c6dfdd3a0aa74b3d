/**
 * The send/receive primitive every operation goes through: a command is
 * written and flushed, and the stream is closed when either fails; a reply
 * is read chunk by chunk into a growing buffer that is re-parsed from its
 * start after every chunk, until the parser has read all of it.
 */
module Transport {
  import opened Wrappers
  import opened Protocol
  import opened Parser
  import opened Streams
  import InternalCommand
  import Writers
  import Utf8

  /** What a command sends: a request through the `SieveWriter` helpers, or an internal command's text. */
  datatype Outgoing = Writer(req: Writers.Request) | Internal(cmd: InternalCommand.Command)

  /** The text a command puts on the wire. */
  function Wire(out: Outgoing): string {
    match out
    case Writer(req) => Writers.CommandText(req)
    case Internal(cmd) => InternalCommand.Render(cmd)
  }

  /** The `write_all` calls a command makes; an internal command is written in one. */
  function Payload(out: Outgoing): seq<seq<byte>> {
    match out
    case Writer(req) => Writers.Writes(req)
    case Internal(cmd) => [Utf8.Encode(InternalCommand.Render(cmd))]
  }

  /** A request whose literals are too long for their heads panics in its writer. */
  predicate Sendable(out: Outgoing) {
    out.Writer? ==> Writers.Fits(out.req)
  }

  /** The writes of a command spell its text. */
  lemma {:induction false} PayloadText(out: Outgoing)
    ensures Writers.Flatten(Payload(out)) == Utf8.Encode(Wire(out))
  {
    match out
    case Writer(req) => Writers.WritesText(req);
    case Internal(cmd) => Writers.FlattenOne(Utf8.Encode(InternalCommand.Render(cmd)));
  }

  /** When the stream is closed after an error, an error of the close itself is reported instead. */
  function AfterClose(e: SieveError, close: Option<IoError>): (r: SieveError)
    ensures close.Some? ==> r == Io(close.value)
    ensures close.None? ==> r == e
  {
    if close.Some? then Io(close.value) else e
  }

  /** What `send_command` leaves: its result, the script left, the log, whether it flushed and whether it closed. */
  datatype Sent = Sent(result: Result<(), SieveError>, faults: seq<Option<IoError>>, log: seq<byte>, flushed: bool, closed: bool)

  /** `send_command` as a function of the outcome script and the log, for the writes `p`. */
  function SendWrites(faults: seq<Option<IoError>>, log: seq<byte>, p: seq<seq<byte>>): Sent {
    var w := Writers.After(faults, log, p);
    if w.result.Ok? && OutcomeAt(w.faults, 0).None? then
      Sent(Ok(()), Skip(w.faults, 1), w.log, true, false)
    else
      var e := if w.result.Err? then w.result.error else OutcomeAt(w.faults, 0).value;
      var rest := if w.result.Err? then w.faults else Skip(w.faults, 1);
      Sent(Err(AfterClose(Io(e), OutcomeAt(rest, 0))), Skip(rest, 1), w.log, false, true)
  }

  /** `send_command` for a command. */
  function Send(faults: seq<Option<IoError>>, log: seq<byte>, out: Outgoing): Sent {
    SendWrites(faults, log, Payload(out))
  }

  /** `send_command` on a stream state. */
  function SendStep(st: StreamState, out: Outgoing): (r: (Result<(), SieveError>, StreamState))
    ensures r.1.incoming == st.incoming && r.1.encrypted == st.encrypted
    ensures r.0.Ok? ==> r.1.closed == st.closed
    ensures st.written <= r.1.written <= st.written + Utf8.Encode(Wire(out))
    ensures r.0.Ok? ==> r.1.written == st.written + Utf8.Encode(Wire(out)) && r.1.flushed == |r.1.written|
  {
    SendOutcome(st.faults, st.written, out);
    SendLogPrefix(st.faults, st.written, out);
    var s := Send(st.faults, st.written, out);
    (s.result, st.(written := s.log, flushed := if s.flushed then |s.log| else st.flushed,
                   closed := st.closed || s.closed, faults := s.faults))
  }

  /** `send_command`: the command's writes, then a flush; if either fails the stream is closed. */
  method SendCommand(stream: Stream, out: Outgoing) returns (r: Result<(), SieveError>)
    requires Sendable(out)
    modifies stream
    ensures var s := Send(old(stream.faults), old(stream.written), out);
      r == s.result && stream.faults == s.faults && stream.written == s.log
      && stream.flushed == (if s.flushed then |stream.written| else old(stream.flushed))
      && stream.closed == (old(stream.closed) || s.closed)
    ensures stream.incoming == old(stream.incoming) && stream.encrypted == old(stream.encrypted)
    ensures (r, stream.State()) == SendStep(old(stream.State()), out)
  {
    var w: Result<(), IoError>;
    match out {
      case Writer(req) =>
        w := Writers.WriteRequest(stream, req);
      case Internal(cmd) =>
        w := Writers.Put(stream, Utf8.Encode(InternalCommand.Render(cmd)));
    }
    var res := w;
    if w.Ok? {
      res := stream.Flush();
    }
    if res.Err? {
      var c := stream.Close();
      if c.Err? {
        return Err(Io(c.error));
      }
      return Err(Io(res.error));
    }
    r := Ok(());
  }

  /** One more step of the script has its first fault where the shorter one has it, or at the new step. */
  lemma {:induction false} FirstFaultExtend(faults: seq<Option<IoError>>, n: nat)
    ensures Writers.FirstFault(faults, n + 1) ==
      if Writers.FirstFault(faults, n) < n then Writers.FirstFault(faults, n)
      else if OutcomeAt(faults, n).Some? then n else n + 1
    decreases n
  {
    if n > 0 && OutcomeAt(faults, 0).None? {
      FirstFaultExtend(Skip(faults, 1), n - 1);
    }
  }

  /**
   * The outcome of `send_command`, counted over the steps of the script:
   * the writes and the flush succeed exactly when none of their steps fails,
   * and then the log gains exactly the command's text and the stream stays
   * open; otherwise the first failing step gives the error, unless the close
   * that follows fails too, the stream is closed, and the log gains only the
   * bytes of the writes before the failure.
   */
  lemma {:induction false} SendOutcome(faults: seq<Option<IoError>>, log: seq<byte>, out: Outgoing)
    ensures var n := |Payload(out)|;
      var k := Writers.FirstFault(faults, n + 1);
      k == n + 1 ==> Send(faults, log, out) == Sent(Ok(()), Skip(faults, n + 1), log + Utf8.Encode(Wire(out)), true, false)
    ensures var n := |Payload(out)|;
      var k := Writers.FirstFault(faults, n + 1);
      k <= n ==> (Send(faults, log, out) ==
        Sent(Err(AfterClose(Io(OutcomeAt(faults, k).value), OutcomeAt(faults, k + 1))), Skip(faults, k + 2),
          log + Writers.Flatten(Payload(out)[..k]), false, true))
  {
    WritesOutcome(faults, log, Payload(out));
    PayloadText(out);
  }

  /** The same outcome for any writes `p`. */
  lemma {:induction false} WritesOutcome(faults: seq<Option<IoError>>, log: seq<byte>, p: seq<seq<byte>>)
    ensures var n := |p|;
      var k := Writers.FirstFault(faults, n + 1);
      k == n + 1 ==> SendWrites(faults, log, p) == Sent(Ok(()), Skip(faults, n + 1), log + Writers.Flatten(p), true, false)
    ensures var n := |p|;
      var k := Writers.FirstFault(faults, n + 1);
      k <= n ==> (SendWrites(faults, log, p) ==
        Sent(Err(AfterClose(Io(OutcomeAt(faults, k).value), OutcomeAt(faults, k + 1))), Skip(faults, k + 2),
          log + Writers.Flatten(p[..k]), false, true))
  {
    var n := |p|;
    Writers.AfterFirstFault(faults, log, p);
    FirstFaultExtend(faults, n);
    var j := Writers.FirstFault(faults, n);
    var k := Writers.FirstFault(faults, n + 1);
    assert p[..n] == p;
    if j < n {
      SendWriteFails(faults, log, p, j);
    } else if k == n {
      SendFlushFails(faults, log, p);
    } else {
      SendClean(faults, log, p);
    }
  }

  /** Whatever happens, the log gains a prefix of the command's bytes and nothing else. */
  lemma {:induction false} SendLogPrefix(faults: seq<Option<IoError>>, log: seq<byte>, out: Outgoing)
    ensures log <= Send(faults, log, out).log <= log + Utf8.Encode(Wire(out))
  {
    var p := Payload(out);
    var n := |p|;
    var k := Writers.FirstFault(faults, n + 1);
    SendOutcome(faults, log, out);
    PayloadText(out);
    if k <= n {
      Writers.FlattenPrefix(p, k);
      PrefixAppend(log, Writers.Flatten(p[..k]), Writers.Flatten(p));
    }
  }

  lemma {:induction false} PrefixAppend(log: seq<byte>, a: seq<byte>, b: seq<byte>)
    requires a <= b
    ensures log <= log + a <= log + b
  {
    assert b == a + b[|a|..];
    assert log + b == (log + a) + b[|a|..];
  }

  lemma {:induction false} SendClean(faults: seq<Option<IoError>>, log: seq<byte>, p: seq<seq<byte>>)
    requires var n := |p|;
      Writers.After(faults, log, p) == Writers.Written(Ok(()), Skip(faults, n), log + Writers.Flatten(p))
      && OutcomeAt(faults, n).None?
    ensures SendWrites(faults, log, p) == Sent(Ok(()), Skip(faults, |p| + 1), log + Writers.Flatten(p), true, false)
  {
    var n := |p|;
    assert OutcomeAt(Skip(faults, n), 0) == OutcomeAt(faults, n);
    SkipSkip(faults, n, 1);
  }

  lemma {:induction false} SendFlushFails(faults: seq<Option<IoError>>, log: seq<byte>, p: seq<seq<byte>>)
    requires var n := |p|;
      Writers.After(faults, log, p) == Writers.Written(Ok(()), Skip(faults, n), log + Writers.Flatten(p))
      && OutcomeAt(faults, n).Some?
    ensures var n := |p|;
      SendWrites(faults, log, p) ==
        Sent(Err(AfterClose(Io(OutcomeAt(faults, n).value), OutcomeAt(faults, n + 1))), Skip(faults, n + 2),
          log + Writers.Flatten(p), false, true)
  {
    var n := |p|;
    assert OutcomeAt(Skip(faults, n), 0) == OutcomeAt(faults, n);
    SkipSkip(faults, n, 1);
    SkipSkip(faults, n + 1, 1);
    assert OutcomeAt(Skip(faults, n + 1), 0) == OutcomeAt(faults, n + 1);
  }

  lemma {:induction false} SendWriteFails(faults: seq<Option<IoError>>, log: seq<byte>, p: seq<seq<byte>>, k: nat)
    requires k < |p| && OutcomeAt(faults, k).Some?
    requires Writers.After(faults, log, p) ==
      Writers.Written(Err(OutcomeAt(faults, k).value), Skip(faults, k + 1), log + Writers.Flatten(p[..k]))
    ensures SendWrites(faults, log, p) ==
      Sent(Err(AfterClose(Io(OutcomeAt(faults, k).value), OutcomeAt(faults, k + 1))), Skip(faults, k + 2),
        log + Writers.Flatten(p[..k]), false, true)
  {
    SkipSkip(faults, k + 1, 1);
    assert OutcomeAt(Skip(faults, k + 1), 0) == OutcomeAt(faults, k + 1);
  }

  /** `terminated(parser, eof)` on the whole buffer: a value that leaves text unread is an error. */
  function Whole<T>(r: Parsed<T>, buf: string): (w: Parsed<T>)
    ensures w.Success? <==> r.Success? && r.next == |buf|
    ensures w.Incomplete? <==> r.Incomplete?
    ensures w.Success? ==> w.value == r.value
  {
    if r.Success? && r.next != |buf| then Failure(false) else r
  }

  /** How a read loop ends: its result, what is left to deliver, and the text it had buffered. */
  datatype Reception<T> = Reception(result: Result<T, SieveError>, incoming: seq<Delivery>, buffer: string)

  /**
   * `next_response_inner` as a function of the deliveries: the buffer only
   * grows, a value is only returned when the parser has read the whole
   * buffer, and a syntax error only when it could not.
   */
  function Receive<T>(parse: string -> Parsed<T>, incoming: seq<Delivery>, buf: string): (r: Reception<T>)
    ensures buf <= r.buffer
    ensures r.result.Ok? ==> parse(r.buffer) == Success(r.result.value, |r.buffer|)
    ensures r.result == Err(Syntax) ==>
      parse(r.buffer).Failure? || (parse(r.buffer).Success? && parse(r.buffer).next != |r.buffer|)
    decreases Weight(incoming)
  {
    var (chunk, rest) := Take(incoming);
    if chunk.Err? then Reception(Err(Io(chunk.error)), rest, buf)
    else if chunk.value == [] then Reception(Err(Io(UnexpectedEof)), rest, buf)
    else match Utf8.Decode(chunk.value)
      case None => Reception(Err(Io(InvalidData)), rest, buf)
      case Some(text) =>
        var b := buf + text;
        match Whole(parse(b), b)
        case Incomplete =>
          var r := Receive(parse, rest, b);
          assert buf <= b <= r.buffer;
          r
        case Success(v, _) => Reception(Ok(v), rest, b)
        case Failure(_) => Reception(Err(Syntax), rest, b)
  }

  /** `next_response_inner`: read, decode the chunk, append it, parse the whole buffer again. */
  method NextResponseInner<T>(stream: Stream, parse: string -> Parsed<T>) returns (r: Result<T, SieveError>)
    modifies stream
    ensures var rec := Receive(parse, old(stream.incoming), "");
      r == rec.result && stream.incoming == rec.incoming
    ensures stream.written == old(stream.written) && stream.flushed == old(stream.flushed)
    ensures stream.closed == old(stream.closed) && stream.encrypted == old(stream.encrypted)
    ensures stream.faults == old(stream.faults)
  {
    var buf := "";
    while true
      invariant Receive(parse, stream.incoming, buf) == Receive(parse, old(stream.incoming), "")
      invariant stream.written == old(stream.written) && stream.flushed == old(stream.flushed)
      invariant stream.closed == old(stream.closed) && stream.encrypted == old(stream.encrypted)
      invariant stream.faults == old(stream.faults)
      decreases Weight(stream.incoming)
    {
      var chunk := stream.Read();
      if chunk.Err? {
        return Err(Io(chunk.error));
      }
      if |chunk.value| == 0 {
        return Err(Io(UnexpectedEof));
      }
      var text := Utf8.Decode(chunk.value);
      if text.None? {
        return Err(Io(InvalidData));
      }
      buf := buf + text.value;
      match Whole(parse(buf), buf)
      case Incomplete =>
      case Success(v, _) =>
        return Ok(v);
      case Failure(_) =>
        return Err(Syntax);
    }
  }

  /** `next_response` on a stream state. */
  function ReadStep<T>(st: StreamState, parse: string -> Parsed<T>): (r: (Result<T, SieveError>, StreamState))
    ensures r.1.written == st.written && r.1.flushed == st.flushed && r.1.encrypted == st.encrypted
    ensures r.0.Ok? ==> r.1.closed == st.closed && r.1.faults == st.faults
    ensures r.0.Err? ==> r.1.closed
  {
    var rec := Receive(parse, st.incoming, "");
    if rec.result.Ok? then (rec.result, st.(incoming := rec.incoming))
    else
      (Err(AfterClose(rec.result.error, OutcomeAt(st.faults, 0))),
       st.(incoming := rec.incoming, closed := true, faults := Skip(st.faults, 1)))
  }

  /** `next_response`: a read that fails closes the stream, and an error of the close wins. */
  method NextResponse<T>(stream: Stream, parse: string -> Parsed<T>) returns (r: Result<T, SieveError>)
    modifies stream
    ensures var rec := Receive(parse, old(stream.incoming), "");
      stream.incoming == rec.incoming
      && (rec.result.Ok? ==>
            r == rec.result && stream.closed == old(stream.closed) && stream.faults == old(stream.faults))
      && (rec.result.Err? ==>
            r == Err(AfterClose(rec.result.error, old(stream.Next())))
            && stream.closed && stream.faults == Skip(old(stream.faults), 1))
    ensures stream.written == old(stream.written) && stream.flushed == old(stream.flushed)
    ensures stream.encrypted == old(stream.encrypted)
    ensures (r, stream.State()) == ReadStep(old(stream.State()), parse)
  {
    r := NextResponseInner(stream, parse);
    if r.Err? {
      var c := stream.Close();
      if c.Err? {
        r := Err(Io(c.error));
      }
    }
  }

  /** `handle_bye` as a function: BYE ends the session, an error of the close winning; OK and NO pass. */
  function ByeOutcome(response: Response, close: Option<IoError>): (r: Result<Response, SieveError>)
    ensures r.Ok? <==> response.tag != BYE
    ensures r.Ok? ==> r.value == response
    ensures r.Err? ==> r.error == AfterClose(Bye(response.info), close)
  {
    if response.tag == BYE then Err(AfterClose(Bye(response.info), close)) else Ok(response)
  }

  /** `handle_bye` on a stream state. */
  function ByeStep(st: StreamState, response: Response): (r: (Result<Response, SieveError>, StreamState))
    ensures r.0 == ByeOutcome(response, OutcomeAt(st.faults, 0))
    ensures r.0.Ok? ==> r.1 == st
    ensures r.0.Err? ==> r.1 == st.(closed := true, faults := Skip(st.faults, 1))
  {
    if response.tag == BYE then (ByeOutcome(response, OutcomeAt(st.faults, 0)), st.(closed := true, faults := Skip(st.faults, 1)))
    else (Ok(response), st)
  }

  /** `handle_bye`: a BYE closes the stream; OK and NO are handed on with their information unchanged. */
  method HandleBye(stream: Stream, response: Response) returns (r: Result<Response, SieveError>)
    modifies stream
    ensures r == ByeOutcome(response, old(stream.Next()))
    ensures response.tag == BYE ==> stream.closed && stream.faults == Skip(old(stream.faults), 1)
    ensures response.tag != BYE ==> stream.closed == old(stream.closed) && stream.faults == old(stream.faults)
    ensures stream.written == old(stream.written) && stream.flushed == old(stream.flushed)
    ensures stream.encrypted == old(stream.encrypted) && stream.incoming == old(stream.incoming)
    ensures (r, stream.State()) == ByeStep(old(stream.State()), response)
  {
    if response.tag == BYE {
      var c := stream.Close();
      if c.Err? {
        return Err(Io(c.error));
      }
      return Err(Bye(response.info));
    }
    r := Ok(response);
  }

  /** A reply that arrives in one read is returned as parsed, with nothing buffered beyond it. */
  lemma {:induction false} ReceiveOne<T>(parse: string -> Parsed<T>, bytes: seq<byte>, rest: seq<Delivery>, text: string, v: T)
    requires 0 < |bytes| <= ReadSize && Utf8.Decode(bytes) == Some(text)
    requires parse(text) == Success(v, |text|)
    ensures Receive(parse, [Data(bytes)] + rest, "") == Reception(Ok(v), rest, text)
  {
    var incoming := [Data(bytes)] + rest;
    assert incoming[0] == Data(bytes) && incoming[1..] == rest;
    assert "" + text == text;
  }

  /** A reply whose first read is not yet a whole reply is parsed again with the second read appended. */
  lemma {:induction false} ReceiveTwo<T>(parse: string -> Parsed<T>, first: seq<byte>, second: seq<byte>, rest: seq<Delivery>, a: string, b: string, v: T)
    requires 0 < |first| <= ReadSize && Utf8.Decode(first) == Some(a) && parse(a).Incomplete?
    requires 0 < |second| <= ReadSize && Utf8.Decode(second) == Some(b)
    requires parse(a + b) == Success(v, |a + b|)
    ensures Receive(parse, [Data(first), Data(second)] + rest, "") == Reception(Ok(v), rest, a + b)
  {
    var incoming := [Data(first), Data(second)] + rest;
    assert incoming[0] == Data(first) && incoming[1..] == [Data(second)] + rest;
    assert "" + a == a;
    ReceiveFrom(parse, second, rest, a, b, v);
  }

  lemma {:induction false} ReceiveFrom<T>(parse: string -> Parsed<T>, bytes: seq<byte>, rest: seq<Delivery>, buf: string, text: string, v: T)
    requires 0 < |bytes| <= ReadSize && Utf8.Decode(bytes) == Some(text)
    requires parse(buf + text) == Success(v, |buf + text|)
    ensures Receive(parse, [Data(bytes)] + rest, buf) == Reception(Ok(v), rest, buf + text)
  {
    var incoming := [Data(bytes)] + rest;
    assert incoming[0] == Data(bytes) && incoming[1..] == rest;
  }

  /** On a stream whose writes and flush all succeed, a command adds its text to the log and nothing fails. */
  lemma {:induction false} CleanSend(st: StreamState, out: Outgoing)
    requires st.faults == []
    ensures var w := st.written + Utf8.Encode(Wire(out));
      SendStep(st, out) == (Ok(()), st.(written := w, flushed := |w|, faults := []))
  {
    SendOutcome(st.faults, st.written, out);
  }

  /** A whole reply in the one read left is returned, and nothing is left to read. */
  lemma {:induction false} ReadOne<T>(st: StreamState, parse: string -> Parsed<T>, bytes: seq<byte>, text: string, v: T)
    requires st.incoming == [Data(bytes)]
    requires 0 < |bytes| <= ReadSize && Utf8.Decode(bytes) == Some(text)
    requires parse(text) == Success(v, |text|)
    ensures ReadStep(st, parse) == (Ok(v), st.(incoming := []))
  {
    assert [Data(bytes)] + [] == [Data(bytes)];
    ReceiveOne(parse, bytes, [], text, v);
  }

  /** The one read left holding text the parser rejects is a syntax error, and the stream is closed. */
  lemma {:induction false} ReadSyntax<T>(st: StreamState, parse: string -> Parsed<T>, bytes: seq<byte>, text: string)
    requires st.faults == [] && st.incoming == [Data(bytes)]
    requires 0 < |bytes| <= ReadSize && Utf8.Decode(bytes) == Some(text)
    requires parse(text).Failure?
    ensures ReadStep(st, parse) == (Err(Syntax), st.(incoming := [], closed := true, faults := []))
  {
    var incoming := [Data(bytes)];
    assert incoming[0] == Data(bytes) && incoming[1..] == [];
    assert "" + text == text;
  }

  /** The server closing the stream before a whole reply arrived is `UnexpectedEof`. */
  lemma {:induction false} ReceiveEnd<T>(parse: string -> Parsed<T>, buf: string)
    ensures Receive(parse, [], buf) == Reception(Err(Io(UnexpectedEof)), [], buf)
  {
  }

  /**
   * Each read is decoded on its own, so a character whose bytes straddle two
   * reads is rejected as `InvalidData`, even though the two reads together
   * are valid UTF-8: here `é` (0xC3 0xA9) arrives one byte at a time.
   */
  lemma {:induction false} SplitCharacterRejected<T>(parse: string -> Parsed<T>, rest: seq<Delivery>)
    ensures Utf8.Decode([0xC3, 0xA9]) == Some("é")
    ensures Receive(parse, [Data([0xC3]), Data([0xA9])] + rest, "").result == Err(Io(InvalidData))
  {
    Utf8.DecodeEncode("é");
    assert Utf8.Encode("é") == [0xC3, 0xA9];
    var incoming := [Data([0xC3]), Data([0xA9])] + rest;
    assert incoming[0] == Data([0xC3]);
  }
}
