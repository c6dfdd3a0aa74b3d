/**
 * A connection to a ManageSieve server and the operations on it. The phase
 * a connection is in (plain or TLS, unauthenticated or authenticated)
 * decides which operations it offers; every operation consumes the
 * connection and either hands it back, in the same or a new phase, or does
 * not, which ends the session. Each operation is a send, a read and a
 * classification of the reply; each is specified as a function of the
 * stream's state and proved to be what the method does.
 */
module Connections {
  import opened Wrappers
  import opened Protocol
  import opened Streams
  import opened Transport
  import Parser
  import ParserReplies
  import CapabilitiesCheck
  import InternalCommand
  import Writers
  import SieveName
  import Utf8
  import Text

  /** `TlsMode`: the stream is the one the caller gave, or its TLS upgrade. */
  datatype TlsMode = NoTls | Tls

  /** `AuthMode`. */
  datatype AuthMode = Unauthenticated | Authenticated

  /**
   * The errors of an operation: those every operation shares, the
   * operation's own, or a panic that stops the caller (only `authenticate`
   * can, when the capabilities it reads again are invalid).
   */
  datatype Failure<E> = Common(error: SieveError) | Other(reason: E) | Panicked

  datatype ConnectError = ConnectNo(info: ResponseInfo) | InvalidCapabilities(error: CapabilitiesError)

  datatype StartTlsError =
    | StartTlsUnsupported
    | StartTlsNo(info: ResponseInfo)
    | StartTlsInvalid(error: CapabilitiesError)

  /** `AuthenticationErrorCode`: the response code of a refused login, with the three RFC 5804 names singled out. */
  datatype AuthenticationErrorCode = NoCode | AuthTooWeak | EncryptNeeded | TransitionNeeded | OtherCode(code: ResponseCode)

  datatype AuthenticateError =
    | AuthUnsupported
    | AuthenticationFailed(code: AuthenticationErrorCode, reason: Option<string>)
    | AuthNo(info: ResponseInfo)
    | AuthInvalid(error: CapabilitiesError)

  /** `HaveSpace`: the server accepts a script of that size, or names the limit it would exceed. */
  datatype HaveSpace = Yes | No(quota: Quota, human: Option<string>)

  datatype HaveSpaceError = IllegalName | HaveSpaceNo(info: ResponseInfo)

  /** Why PUTSCRIPT was not sent: the script's name is not a legal name. */
  datatype PutScriptError = BadScriptName

  /** `PutScript`. */
  datatype PutScript =
    | PutOk(warnings: Option<string>)
    | InvalidScript(error: Option<string>)
    | PutQuota(variant: Quota, message: Option<string>)
    | PutNo(code: Option<ResponseCode>, human: Option<string>)

  /** `GetScript`. */
  datatype GetScript = GetOk(script: string) | NonExistent | GetNo(code: Option<ResponseCode>, human: Option<string>)

  datatype ListScriptsError = ListNo(info: ResponseInfo)

  /** `CheckScript`. */
  datatype CheckScript = CheckOk(warnings: Option<string>) | CheckInvalid(error: Option<string>)

  /** What an operation ends with: its result, the stream, and whether the connection is handed back. */
  datatype Done<R> = Done(result: R, state: StreamState, back: bool)

  /** The only SASL mechanism the client uses. */
  const Plain: string := "PLAIN"

  // ----- The classifications of a reply that `handle_bye` let through -----

  /** Whether a response code is one of the three a refused login singles out. */
  predicate Named(code: ResponseCode) {
    code == ResponseCode.AuthTooWeak || code == ResponseCode.EncryptNeeded || code == ResponseCode.TransitionNeeded
  }

  /** The response code an `AuthenticationErrorCode` stands for. */
  function CodeOf(a: AuthenticationErrorCode): Option<ResponseCode> {
    match a
    case NoCode => None
    case AuthTooWeak => Some(ResponseCode.AuthTooWeak)
    case EncryptNeeded => Some(ResponseCode.EncryptNeeded)
    case TransitionNeeded => Some(ResponseCode.TransitionNeeded)
    case OtherCode(c) => Some(c)
  }

  /** The code of a refused login: nothing is lost, and `OtherCode` never holds one of the named three. */
  function AuthCode(code: Option<ResponseCode>): (a: AuthenticationErrorCode)
    ensures CodeOf(a) == code
    ensures a.OtherCode? <==> code.Some? && !Named(code.value)
  {
    if code.None? then NoCode
    else if code.value == ResponseCode.AuthTooWeak then AuthenticationErrorCode.AuthTooWeak
    else if code.value == ResponseCode.EncryptNeeded then AuthenticationErrorCode.EncryptNeeded
    else if code.value == ResponseCode.TransitionNeeded then AuthenticationErrorCode.TransitionNeeded
    else OtherCode(code.value)
  }

  /** The reply to HAVESPACE: OK is room, NO with a QUOTA code names the limit, any other NO is an error. */
  function ClassifyHaveSpace(response: Response): (r: Result<HaveSpace, HaveSpaceError>)
    requires response.tag != BYE
    ensures r == Ok(Yes) <==> response.tag == OK
    ensures r.Ok? && r.value.No? <==> response.tag.NO? && response.info.code.Some? && response.info.code.value.Quota?
    ensures r.Ok? && r.value.No? ==> r.value == No(response.info.code.value.quota, response.info.human)
    ensures r.Err? ==> r.error == HaveSpaceNo(response.info)
  {
    var code := response.info.code;
    if response.tag == OK then Ok(Yes)
    else if code.Some? && code.value.Quota? then Ok(No(code.value.quota, response.info.human))
    else Err(HaveSpaceNo(response.info))
  }

  /** The warnings of an OK: its text, but only when its code is WARNINGS. */
  function Warnings(info: ResponseInfo): (w: Option<string>)
    ensures w.Some? <==> info.code == Some(ResponseCode.Warnings) && info.human.Some?
    ensures w.Some? ==> w == info.human
  {
    if info.code == Some(ResponseCode.Warnings) then info.human else None
  }

  /** The reply to the PUTSCRIPT operation. */
  function ClassifyPutScript(response: Response): (r: PutScript)
    requires response.tag != BYE
    ensures r.PutOk? <==> response.tag == OK
    ensures r.PutOk? ==> r.warnings == Warnings(response.info)
    ensures r.InvalidScript? <==> response.tag.NO? && response.info.code.None?
    ensures r.PutQuota? <==> response.tag.NO? && response.info.code.Some? && response.info.code.value.Quota?
    ensures r.PutNo? ==> r.code == response.info.code && r.code.Some? && !r.code.value.Quota?
    ensures !r.PutOk? ==> Human(r) == response.info.human
  {
    var code := response.info.code;
    if response.tag == OK then PutOk(Warnings(response.info))
    else if code.None? then InvalidScript(response.info.human)
    else if code.value.Quota? then PutQuota(code.value.quota, response.info.human)
    else PutNo(code, response.info.human)
  }

  /** The human-readable text a refusal carries. */
  function Human(p: PutScript): Option<string>
    requires !p.PutOk?
  {
    match p
    case InvalidScript(e) => e
    case PutQuota(_, m) => m
    case PutNo(_, h) => h
  }

  /** The final line of a GETSCRIPT reply that carried no script: NONEXISTENT, or anything else, whatever the tag. */
  function ClassifyGetScript(response: Response): (r: GetScript)
    requires response.tag != BYE
    ensures !r.GetOk?
    ensures r.NonExistent? <==> response.info.code == Some(Nonexistent)
    ensures r.GetNo? ==> r.code == response.info.code && r.human == response.info.human
  {
    if response.info.code == Some(Nonexistent) then NonExistent
    else GetNo(response.info.code, response.info.human)
  }

  /** The reply to CHECKSCRIPT: OK with its warnings, or NO with its text as the error; a NO's code is dropped. */
  function ClassifyCheckScript(response: Response): (r: CheckScript)
    requires response.tag != BYE
    ensures r.CheckOk? <==> response.tag == OK
    ensures r.CheckOk? ==> r.warnings == Warnings(response.info)
    ensures r.CheckInvalid? ==> r.error == response.info.human
  {
    if response.tag == OK then CheckOk(Warnings(response.info)) else CheckInvalid(response.info.human)
  }

  // ----- The exchanges every operation is made of -----

  /** A command sent and its reply read. */
  function ExchangeStep<T>(st: StreamState, out: Outgoing, parse: string -> Parser.Parsed<T>): (r: (Result<T, SieveError>, StreamState))
    ensures r.1.encrypted == st.encrypted && st.written <= r.1.written <= st.written + Utf8.Encode(Wire(out))
    ensures r.0.Ok? ==> r.1.closed == st.closed && r.1.written == st.written + Utf8.Encode(Wire(out))
  {
    var (sent, st1) := SendStep(st, out);
    if sent.Err? then (Err(sent.error), st1) else ReadStep(st1, parse)
  }

  /** A command sent, an OK, NO or BYE reply read, and a BYE turned into an error. */
  function ConverseStep(st: StreamState, out: Outgoing): (r: (Result<Response, SieveError>, StreamState))
    ensures r.1.encrypted == st.encrypted && st.written <= r.1.written <= st.written + Utf8.Encode(Wire(out))
    ensures r.0.Ok? ==> r.0.value.tag != BYE
    ensures r.0.Ok? ==> r.1.closed == st.closed && r.1.written == st.written + Utf8.Encode(Wire(out))
  {
    var (reply, st1) := ExchangeStep(st, out, Parser.OkNoByeReply);
    if reply.Err? then (reply, st1) else ByeStep(st1, reply.value)
  }

  method Exchange<T>(stream: Stream, out: Outgoing, parse: string -> Parser.Parsed<T>) returns (r: Result<T, SieveError>)
    requires Sendable(out)
    modifies stream
    ensures (r, stream.State()) == ExchangeStep(old(stream.State()), out, parse)
  {
    var sent := SendCommand(stream, out);
    if sent.Err? {
      return Err(sent.error);
    }
    r := NextResponse(stream, parse);
  }

  method Converse(stream: Stream, out: Outgoing) returns (r: Result<Response, SieveError>)
    requires Sendable(out)
    modifies stream
    ensures (r, stream.State()) == ConverseStep(old(stream.State()), out)
  {
    var reply := Exchange(stream, out, Parser.OkNoByeReply);
    if reply.Err? {
      return Err(reply.error);
    }
    r := HandleBye(stream, reply.value);
  }

  // ----- The operations, as functions of the stream's state -----

  /** `connect`: nothing is sent; the greeting is read as a capability reply. */
  function ConnectSpec(st: StreamState): (d: Done<Result<Capabilities, Failure<ConnectError>>>)
    ensures d.state.written == st.written && d.state.encrypted == st.encrypted
    ensures d.back <==> d.result.Ok?
    ensures d.back ==> d.state.closed == st.closed
  {
    var (reply, st1) := ReadStep(st, Parser.CapabilityReply);
    if reply.Err? then Done(Err(Common(reply.error)), st1, false)
    else
      var (caps, response) := reply.value;
      var (passed, st2) := ByeStep(st1, response);
      if passed.Err? then Done(Err(Common(passed.error)), st2, false)
      else if response.tag == OK then
        var verified := CapabilitiesCheck.Verify(caps);
        if verified.Ok? then Done(Ok(verified.value), st2, true)
        else Done(Err(Other(InvalidCapabilities(verified.error))), st2, false)
      else Done(Err(Other(ConnectNo(response.info))), st2, false)
  }

  /** After the TLS handshake the capabilities are read again, without asking (section 2.2 of RFC 5804). */
  function UpgradedSpec(st: StreamState): (d: Done<Result<Capabilities, Failure<StartTlsError>>>)
    ensures d.state.written == st.written && d.state.encrypted == st.encrypted
    ensures d.back <==> d.result.Ok?
    ensures d.back ==> d.state.closed == st.closed
  {
    var (reply, st1) := ReadStep(st, Parser.CapabilityReply);
    if reply.Err? then Done(Err(Common(reply.error)), st1, false)
    else
      var (caps, response) := reply.value;
      var (passed, st2) := ByeStep(st1, response);
      if passed.Err? then Done(Err(Common(passed.error)), st2, false)
      else if response.tag == OK then
        var verified := CapabilitiesCheck.Verify(caps);
        if verified.Ok? then Done(Ok(verified.value), st2, true)
        else Done(Err(Other(StartTlsInvalid(verified.error))), st2, false)
      else Done(Err(Other(StartTlsNo(response.info))), st2, false)
  }

  /**
   * `start_tls`: refused before anything is written when the server does not
   * offer STARTTLS; otherwise STARTTLS, an OK, the handshake, and the
   * capabilities read again over TLS.
   */
  function StartTlsSpec(st: StreamState, caps: Capabilities): (d: Done<Result<Capabilities, Failure<StartTlsError>>>)
    ensures !caps.startTls ==> d == Done(Err(Other(StartTlsUnsupported)), st, false)
    ensures d.back <==> d.result.Ok?
    ensures st.written <= d.state.written <= st.written + Utf8.Encode(Wire(Internal(InternalCommand.StartTls)))
    ensures d.back ==>
      d.state.encrypted && d.state.closed == st.closed
      && d.state.written == st.written + Utf8.Encode(Wire(Internal(InternalCommand.StartTls)))
  {
    if !caps.startTls then Done(Err(Other(StartTlsUnsupported)), st, false)
    else
      var (reply, st1) := ExchangeStep(st, Internal(InternalCommand.StartTls), Parser.OkReply);
      if reply.Err? then Done(Err(Common(reply.error)), st1, false)
      else
        var (shaken, st2) := HandshakeStep(st1);
        if shaken.Err? then Done(Err(Common(Io(shaken.error))), st2, false)
        else UpgradedSpec(st2)
  }

  /** The capabilities read again after a login; invalid ones panic. */
  function RefreshSpec(st: StreamState): (d: Done<Result<Capabilities, Failure<AuthenticateError>>>)
    ensures d.back <==> d.result.Ok?
    ensures d.state.encrypted == st.encrypted
    ensures st.written <= d.state.written <= st.written + Utf8.Encode(Wire(Internal(InternalCommand.Capability)))
    ensures d.back ==>
      d.state.closed == st.closed
      && d.state.written == st.written + Utf8.Encode(Wire(Internal(InternalCommand.Capability)))
  {
    var (reply, st1) := ExchangeStep(st, Internal(InternalCommand.Capability), Parser.CapabilityReply);
    if reply.Err? then Done(Err(Common(reply.error)), st1, false)
    else
      var (caps, response) := reply.value;
      var (passed, st2) := ByeStep(st1, response);
      if passed.Err? then Done(Err(Common(passed.error)), st2, false)
      else if response.tag == NO then Done(Err(Other(AuthNo(response.info))), st2, false)
      else
        var verified := CapabilitiesCheck.Verify(caps);
        if verified.Ok? then Done(Ok(verified.value), st2, true) else Done(Err(Panicked), st2, false)
  }

  /** The AUTHENTICATE command the client sends: PLAIN with its initial response. */
  function PlainLogin(initial: string): (out: Outgoing)
    ensures Writers.Small(initial) ==> Sendable(out)
  {
    Utf8.AsciiLength(Plain);
    Writer(Writers.Authenticate(Plain, Some(initial)))
  }

  /** The login itself: AUTHENTICATE, a NO mapped to why the login failed, then the capabilities again. */
  function LoginSpec(st: StreamState, initial: string): (d: Done<Result<Capabilities, Failure<AuthenticateError>>>)
    requires Writers.Small(initial)
    ensures d.back <==> d.result.Ok?
    ensures d.state.encrypted == st.encrypted
    ensures d.back ==>
      d.state.closed == st.closed
      && d.state.written
        == st.written + Utf8.Encode(Wire(PlainLogin(initial))) + Utf8.Encode(Wire(Internal(InternalCommand.Capability)))
  {
    var (reply, st1) := ConverseStep(st, PlainLogin(initial));
    if reply.Err? then Done(Err(Common(reply.error)), st1, false)
    else if reply.value.tag == NO then
      var info := reply.value.info;
      Done(Err(Other(AuthenticationFailed(AuthCode(info.code), info.human))), st1, false)
    else RefreshSpec(st1)
  }

  /**
   * `authenticate`: refused before anything is written when the server does
   * not offer PLAIN; otherwise one AUTHENTICATE PLAIN with the initial
   * response, and after an OK the capabilities are asked for again.
   */
  function AuthenticateSpec(st: StreamState, caps: Capabilities, initial: string): (d: Done<Result<Capabilities, Failure<AuthenticateError>>>)
    requires Writers.Small(initial)
    ensures Plain !in caps.sasl ==> d == Done(Err(Other(AuthUnsupported)), st, false)
    ensures Plain in caps.sasl ==> d == LoginSpec(st, initial)
  {
    if Plain !in caps.sasl then Done(Err(Other(AuthUnsupported)), st, false)
    else LoginSpec(st, initial)
  }

  /** `have_space`: an illegal name is refused, with the connection, before anything is written. */
  function HaveSpaceSpec(st: StreamState, name: string, size: Text.u64): (d: Done<Result<HaveSpace, Failure<HaveSpaceError>>>)
    ensures SieveName.IsBadName(name) ==> d == Done(Err(Other(IllegalName)), st, true)
    ensures d.back <==> d.result.Ok? || d.result.error.Other?
    ensures d.state.encrypted == st.encrypted
    ensures !SieveName.IsBadName(name) && d.back ==>
      d.state.closed == st.closed
      && d.state.written == st.written + Utf8.Encode(Wire(Internal(InternalCommand.HaveSpace(name, size))))
  {
    var command := InternalCommand.HaveSpaceCommand(name, size);
    if command.Err? then Done(Err(Other(IllegalName)), st, true)
    else
      var (reply, st1) := ConverseStep(st, Internal(command.value));
      if reply.Err? then Done(Err(Common(reply.error)), st1, false)
      else
        var outcome := ClassifyHaveSpace(reply.value);
        Done(if outcome.Ok? then Ok(outcome.value) else Err(Other(outcome.error)), st1, true)
  }

  /**
   * `put_scripts`, as written: it sends LISTSCRIPTS and reads the whole reply
   * as a single OK, NO or BYE line, so only an empty listing is classified.
   */
  function PutScriptsSpec(st: StreamState): (d: Done<Result<PutScript, SieveError>>)
    ensures d.back <==> d.result.Ok?
    ensures d.state.encrypted == st.encrypted
    ensures d.back ==>
      d.state.closed == st.closed
      && d.state.written == st.written + Utf8.Encode(Wire(Internal(InternalCommand.ListScripts)))
  {
    var (reply, st1) := ConverseStep(st, Internal(InternalCommand.ListScripts));
    if reply.Err? then Done(Err(reply.error), st1, false)
    else Done(Ok(ClassifyPutScript(reply.value)), st1, true)
  }

  /**
   * As written, `put_scripts` fails on any server that stores a script: the
   * listing's first line starts with the script's quoted name, which no
   * OK, NO or BYE line does, so the reply is a syntax error and the
   * connection is not handed back.
   */
  lemma {:induction false} PutScriptsOnListing(st: StreamState, bytes: seq<byte>, text: string)
    requires st.faults == [] && st.incoming == [Data(bytes)]
    requires 0 < |bytes| <= ReadSize && Utf8.Decode(bytes) == Some(text)
    requires 0 < |text| && text[0] == '"'
    ensures PutScriptsSpec(st).result == Err(Syntax) && !PutScriptsSpec(st).back
  {
    var out := Internal(InternalCommand.ListScripts);
    CleanSend(st, out);
    var st1 := SendStep(st, out).1;
    ParserReplies.ReplyBadStart(text);
    ReadSyntax(st1, Parser.OkNoByeReply, bytes, text);
  }

  /**
   * PUTSCRIPT as the reply classification and the `PutScript` outcomes
   * intend it (section 2.6 of RFC 5804): an illegal name is refused with
   * the connection before anything is written; otherwise PUTSCRIPT with the
   * name and the script is sent and its OK or NO line classified.
   */
  function PutScriptSpec(st: StreamState, name: string, script: string): (d: Done<Result<PutScript, Failure<PutScriptError>>>)
    ensures SieveName.IsBadName(name) ==> d == Done(Err(Other(BadScriptName)), st, true)
    ensures d.back <==> d.result.Ok? || d.result.error.Other?
    ensures d.state.encrypted == st.encrypted
    ensures !SieveName.IsBadName(name) && d.back ==>
      d.state.closed == st.closed
      && d.state.written == st.written + Utf8.Encode(Wire(Internal(InternalCommand.PutScript(name, script))))
  {
    var command := InternalCommand.PutScriptCommand(name, script);
    if command.Err? then Done(Err(Other(BadScriptName)), st, true)
    else
      var (reply, st1) := ConverseStep(st, Internal(command.value));
      if reply.Err? then Done(Err(Common(reply.error)), st1, false)
      else Done(Ok(ClassifyPutScript(reply.value)), st1, true)
  }

  /**
   * With a legal name, a clean stream and a one-line OK or NO reply, PUTSCRIPT
   * writes exactly its command, hands the connection back and classifies the
   * reply.
   */
  lemma {:induction false} PutScriptReplied(st: StreamState, name: string, script: string,
                                            bytes: seq<byte>, w: string, tag: Tag, h: Option<string>)
    requires !SieveName.IsBadName(name) && st.faults == [] && st.incoming == [Data(bytes)]
    requires tag != BYE && Text.SameCaseless(w, ParserReplies.TagName(tag))
    requires 0 < |bytes| <= ReadSize && Utf8.Decode(bytes) == Some(w + ParserReplies.HumanText(h) + Text.CRLF)
    ensures var d := PutScriptSpec(st, name, script);
      d.back && d.result == Ok(ClassifyPutScript(Response(tag, ResponseInfo(None, h))))
      && d.state.written == st.written + Utf8.Encode(Wire(Internal(InternalCommand.PutScript(name, script))))
  {
    var out := Internal(InternalCommand.PutScript(name, script));
    var line := w + ParserReplies.HumanText(h) + Text.CRLF;
    CleanSend(st, out);
    var st1 := SendStep(st, out).1;
    ParserReplies.ReplyRoundTrip(w, tag, h, "");
    assert line + "" == line;
    ReadOne(st1, Parser.OkNoByeReply, bytes, line, Response(tag, ResponseInfo(None, h)));
  }

  /** `get_script`: a script followed by OK is the script, whatever the OK says; a final line alone is classified. */
  function GetScriptSpec(st: StreamState, name: SieveName.SieveNameString): (d: Done<Result<GetScript, SieveError>>)
    requires Writers.Small(name)
    ensures d.back <==> d.result.Ok?
    ensures d.state.encrypted == st.encrypted
    ensures d.back ==>
      d.state.closed == st.closed
      && d.state.written == st.written + Utf8.Encode(Wire(Writer(Writers.GetScript(name))))
  {
    var (reply, st1) := ExchangeStep(st, Writer(Writers.GetScript(name)), Parser.GetScriptReply);
    if reply.Err? then Done(Err(reply.error), st1, false)
    else match reply.value
      case Left((script, _)) => Done(Ok(GetOk(script)), st1, true)
      case Right(response) =>
        var (passed, st2) := ByeStep(st1, response);
        if passed.Err? then Done(Err(passed.error), st2, false)
        else Done(Ok(ClassifyGetScript(response)), st2, true)
  }

  /** `list_scripts`: the scripts with their active flags as parsed, or a NO, which hands the connection back. */
  function ListScriptsSpec(st: StreamState): (d: Done<Result<seq<(SieveName.SieveNameString, bool)>, Failure<ListScriptsError>>>)
    ensures d.back <==> d.result.Ok? || d.result.error.Other?
    ensures d.state.encrypted == st.encrypted
    ensures d.back ==>
      d.state.closed == st.closed
      && d.state.written == st.written + Utf8.Encode(Wire(Internal(InternalCommand.ListScripts)))
  {
    var (reply, st1) := ExchangeStep(st, Internal(InternalCommand.ListScripts), Parser.ListScriptsReply);
    if reply.Err? then Done(Err(Common(reply.error)), st1, false)
    else
      var (scripts, response) := reply.value;
      var (passed, st2) := ByeStep(st1, response);
      if passed.Err? then Done(Err(Common(passed.error)), st2, false)
      else if response.tag == NO then Done(Err(Other(ListNo(response.info))), st2, true)
      else Done(Ok(scripts), st2, true)
  }

  /** `check_script`. */
  function CheckScriptSpec(st: StreamState, script: string): (d: Done<Result<CheckScript, SieveError>>)
    requires Writers.Small(script)
    ensures d.back <==> d.result.Ok?
    ensures d.state.encrypted == st.encrypted
    ensures d.back ==>
      d.state.closed == st.closed
      && d.state.written == st.written + Utf8.Encode(Wire(Writer(Writers.CheckScript(script))))
  {
    var (reply, st1) := ConverseStep(st, Writer(Writers.CheckScript(script)));
    if reply.Err? then Done(Err(reply.error), st1, false)
    else Done(Ok(ClassifyCheckScript(reply.value)), st1, true)
  }

  /** `logout`: the connection is never handed back; after an OK the stream is closed. */
  function LogoutSpec(st: StreamState): (d: Done<Result<(), SieveError>>)
    ensures !d.back
    ensures d.state.encrypted == st.encrypted
    ensures d.result.Ok? ==>
      d.state.closed && d.state.written == st.written + Utf8.Encode(Wire(Writer(Writers.Logout)))
  {
    var (reply, st1) := ConverseStep(st, Writer(Writers.Logout));
    if reply.Err? then Done(Err(reply.error), st1, false)
    else if reply.value.tag == NO then Done(Err(UnexpectedNo(reply.value.info)), st1, false)
    else
      var (closed, st2) := CloseStep(st1);
      Done(if closed.Err? then Err(Io(closed.error)) else Ok(()), st2, false)
  }

  // ----- The connection -----

  /** `Connection::connect`: the greeting decides whether there is a connection at all. */
  method Connect(stream: Stream) returns (r: Result<Connection, Failure<ConnectError>>)
    modifies stream
    ensures var d := ConnectSpec(old(stream.State()));
      stream.State() == d.state
      && (r.Ok? <==> d.result.Ok?)
      && (r.Err? ==> r.error == d.result.error)
      && (r.Ok? ==>
            fresh(r.value) && r.value.stream == stream && r.value.capabilities == d.result.value
            && r.value.tls == NoTls && r.value.auth == Unauthenticated && r.value.live)
    ensures r.Ok? && !old(stream.closed) ==> r.value.Valid()
  {
    var reply := NextResponse(stream, Parser.CapabilityReply);
    if reply.Err? {
      return Err(Common(reply.error));
    }
    var (caps, response) := reply.value;
    var passed := HandleBye(stream, response);
    if passed.Err? {
      return Err(Common(passed.error));
    }
    if response.tag == OK {
      var verified := CapabilitiesCheck.VerifyCapabilities(caps);
      if verified.Err? {
        return Err(Other(InvalidCapabilities(verified.error)));
      }
      var c := new Connection(stream, verified.value);
      return Ok(c);
    }
    return Err(Other(ConnectNo(response.info)));
  }

  /** The capabilities read again over TLS at the end of `start_tls`. */
  method ReadUpgraded(stream: Stream) returns (r: Result<Capabilities, Failure<StartTlsError>>, back: bool)
    modifies stream
    ensures var d := UpgradedSpec(old(stream.State()));
      r == d.result && stream.State() == d.state && back == d.back
  {
    var reply := NextResponse(stream, Parser.CapabilityReply);
    if reply.Err? {
      return Err(Common(reply.error)), false;
    }
    var (caps, response) := reply.value;
    var passed := HandleBye(stream, response);
    if passed.Err? {
      return Err(Common(passed.error)), false;
    }
    if response.tag == OK {
      var verified := CapabilitiesCheck.VerifyCapabilities(caps);
      if verified.Err? {
        return Err(Other(StartTlsInvalid(verified.error))), false;
      }
      return Ok(verified.value), true;
    }
    return Err(Other(StartTlsNo(response.info))), false;
  }

  /** The CAPABILITY exchange at the end of `authenticate`. */
  method Refresh(stream: Stream) returns (r: Result<Capabilities, Failure<AuthenticateError>>, back: bool)
    modifies stream
    ensures var d := RefreshSpec(old(stream.State()));
      r == d.result && stream.State() == d.state && back == d.back
  {
    var reply := Exchange(stream, Internal(InternalCommand.Capability), Parser.CapabilityReply);
    if reply.Err? {
      return Err(Common(reply.error)), false;
    }
    var (caps, response) := reply.value;
    var passed := HandleBye(stream, response);
    if passed.Err? {
      return Err(Common(passed.error)), false;
    }
    if response.tag == NO {
      return Err(Other(AuthNo(response.info))), false;
    }
    var verified := CapabilitiesCheck.VerifyCapabilities(caps);
    if verified.Err? {
      return Err(Panicked), false;
    }
    return Ok(verified.value), true;
  }

  /** The login after the PLAIN check of `authenticate`. */
  method Login(stream: Stream, initial: string) returns (r: Result<Capabilities, Failure<AuthenticateError>>, back: bool)
    requires Writers.Small(initial)
    modifies stream
    ensures var d := LoginSpec(old(stream.State()), initial);
      r == d.result && stream.State() == d.state && back == d.back
  {
    var reply := Converse(stream, PlainLogin(initial));
    if reply.Err? {
      return Err(Common(reply.error)), false;
    }
    if reply.value.tag == NO {
      var info := reply.value.info;
      return Err(Other(AuthenticationFailed(AuthCode(info.code), info.human))), false;
    }
    r, back := Refresh(stream);
  }

  class Connection {
    const stream: Stream
    var tls: TlsMode
    var auth: AuthMode
    /** The snapshot of the server's capabilities the connection carries. */
    var capabilities: Capabilities
    /** Whether the connection still exists: an operation that does not hand it back consumes it. */
    var live: bool

    constructor (stream: Stream, capabilities: Capabilities)
      ensures this.stream == stream && this.capabilities == capabilities
      ensures tls == NoTls && auth == Unauthenticated && live
    {
      this.stream := stream;
      this.capabilities := capabilities;
      tls := NoTls;
      auth := Unauthenticated;
      live := true;
    }

    /** A connection that exists is on a stream it has not closed, upgraded when its phase says TLS. */
    predicate Valid()
      reads this, stream
    {
      live ==> !stream.closed && (tls == Tls ==> stream.encrypted)
    }

    /** `capabilities()`: the stored snapshot, with no I/O. */
    method GetCapabilities() returns (c: Capabilities)
      ensures c == capabilities
    {
      c := capabilities;
    }

    /** `start_tls`: from a plain, unauthenticated connection to a TLS one; `Ok` carries the new snapshot. */
    method StartTls() returns (r: Result<Capabilities, Failure<StartTlsError>>)
      requires live && tls == NoTls && auth == Unauthenticated
      modifies this, stream
      ensures var d := StartTlsSpec(old(stream.State()), old(capabilities));
        r == d.result && stream.State() == d.state && live == d.back
      ensures r.Ok? ==> tls == Tls && capabilities == r.value
      ensures r.Err? ==> tls == old(tls) && capabilities == old(capabilities)
      ensures auth == old(auth)
      ensures old(Valid()) ==> Valid()
    {
      if !capabilities.startTls {
        live := false;
        return Err(Other(StartTlsUnsupported));
      }
      var reply := Exchange(stream, Internal(InternalCommand.StartTls), Parser.OkReply);
      if reply.Err? {
        live := false;
        return Err(Common(reply.error));
      }
      var shaken := stream.Handshake();
      if shaken.Err? {
        live := false;
        return Err(Common(Io(shaken.error)));
      }
      var back;
      r, back := ReadUpgraded(stream);
      live := back;
      if r.Ok? {
        capabilities := r.value;
        tls := Tls;
      }
    }

    /** `authenticate` with PLAIN; `initial` is the mechanism's initial response. `Ok` carries the new snapshot. */
    method Authenticate(initial: string) returns (r: Result<Capabilities, Failure<AuthenticateError>>)
      requires live && auth == Unauthenticated && Writers.Small(initial)
      modifies this, stream
      ensures var d := AuthenticateSpec(old(stream.State()), old(capabilities), initial);
        r == d.result && stream.State() == d.state && live == d.back
      ensures r.Ok? ==> auth == Authenticated && capabilities == r.value
      ensures r.Err? ==> auth == old(auth) && capabilities == old(capabilities)
      ensures tls == old(tls)
      ensures old(Valid()) ==> Valid()
    {
      if Plain !in capabilities.sasl {
        live := false;
        return Err(Other(AuthUnsupported));
      }
      var back;
      r, back := Login(stream, initial);
      live := back;
      if r.Ok? {
        capabilities := r.value;
        auth := Authenticated;
      }
    }

    /** `have_space`. */
    method HaveSpace(name: string, size: Text.u64) returns (r: Result<HaveSpace, Failure<HaveSpaceError>>)
      requires live && auth == Authenticated
      modifies this, stream
      ensures var d := HaveSpaceSpec(old(stream.State()), name, size);
        r == d.result && stream.State() == d.state && live == d.back
      ensures tls == old(tls) && auth == old(auth) && capabilities == old(capabilities)
      ensures old(Valid()) ==> Valid()
    {
      var command := InternalCommand.HaveSpaceCommand(name, size);
      if command.Err? {
        return Err(Other(IllegalName));
      }
      var reply := Converse(stream, Internal(command.value));
      if reply.Err? {
        live := false;
        return Err(Common(reply.error));
      }
      var outcome := ClassifyHaveSpace(reply.value);
      r := if outcome.Ok? then Ok(outcome.value) else Err(Other(outcome.error));
    }

    /** `put_scripts`. */
    method PutScripts() returns (r: Result<PutScript, SieveError>)
      requires live && auth == Authenticated
      modifies this, stream
      ensures var d := PutScriptsSpec(old(stream.State()));
        r == d.result && stream.State() == d.state && live == d.back
      ensures tls == old(tls) && auth == old(auth) && capabilities == old(capabilities)
      ensures old(Valid()) ==> Valid()
    {
      var reply := Converse(stream, Internal(InternalCommand.ListScripts));
      if reply.Err? {
        live := false;
        return Err(reply.error);
      }
      r := Ok(ClassifyPutScript(reply.value));
    }

    /** PUTSCRIPT of a script under a name, as `put_scripts` is meant to send it. */
    method PutScript(name: string, script: string) returns (r: Result<PutScript, Failure<PutScriptError>>)
      requires live && auth == Authenticated
      modifies this, stream
      ensures var d := PutScriptSpec(old(stream.State()), name, script);
        r == d.result && stream.State() == d.state && live == d.back
      ensures tls == old(tls) && auth == old(auth) && capabilities == old(capabilities)
      ensures old(Valid()) ==> Valid()
    {
      var command := InternalCommand.PutScriptCommand(name, script);
      if command.Err? {
        return Err(Other(BadScriptName));
      }
      var reply := Converse(stream, Internal(command.value));
      if reply.Err? {
        live := false;
        return Err(Common(reply.error));
      }
      r := Ok(ClassifyPutScript(reply.value));
    }

    /** `get_script`. */
    method GetScript(name: SieveName.SieveNameString) returns (r: Result<GetScript, SieveError>)
      requires live && auth == Authenticated && Writers.Small(name)
      modifies this, stream
      ensures var d := GetScriptSpec(old(stream.State()), name);
        r == d.result && stream.State() == d.state && live == d.back
      ensures tls == old(tls) && auth == old(auth) && capabilities == old(capabilities)
      ensures old(Valid()) ==> Valid()
    {
      var reply := Exchange(stream, Writer(Writers.GetScript(name)), Parser.GetScriptReply);
      if reply.Err? {
        live := false;
        return Err(reply.error);
      }
      match reply.value {
        case Left((script, _)) =>
          r := Ok(GetOk(script));
        case Right(response) =>
          var passed := HandleBye(stream, response);
          if passed.Err? {
            live := false;
            return Err(passed.error);
          }
          r := Ok(ClassifyGetScript(response));
      }
    }

    /** `list_scripts`. */
    method ListScripts() returns (r: Result<seq<(SieveName.SieveNameString, bool)>, Failure<ListScriptsError>>)
      requires live && auth == Authenticated
      modifies this, stream
      ensures var d := ListScriptsSpec(old(stream.State()));
        r == d.result && stream.State() == d.state && live == d.back
      ensures tls == old(tls) && auth == old(auth) && capabilities == old(capabilities)
      ensures old(Valid()) ==> Valid()
    {
      var reply := Exchange(stream, Internal(InternalCommand.ListScripts), Parser.ListScriptsReply);
      if reply.Err? {
        live := false;
        return Err(Common(reply.error));
      }
      var (scripts, response) := reply.value;
      var passed := HandleBye(stream, response);
      if passed.Err? {
        live := false;
        return Err(Common(passed.error));
      }
      if response.tag == NO {
        return Err(Other(ListNo(response.info)));
      }
      r := Ok(scripts);
    }

    /** `check_script`. */
    method CheckScript(script: string) returns (r: Result<CheckScript, SieveError>)
      requires live && auth == Authenticated && Writers.Small(script)
      modifies this, stream
      ensures var d := CheckScriptSpec(old(stream.State()), script);
        r == d.result && stream.State() == d.state && live == d.back
      ensures tls == old(tls) && auth == old(auth) && capabilities == old(capabilities)
      ensures old(Valid()) ==> Valid()
    {
      var reply := Converse(stream, Writer(Writers.CheckScript(script)));
      if reply.Err? {
        live := false;
        return Err(reply.error);
      }
      r := Ok(ClassifyCheckScript(reply.value));
    }

    /** `logout`, in any phase: the connection is consumed whatever happens. */
    method Logout() returns (r: Result<(), SieveError>)
      requires live
      modifies this, stream
      ensures var d := LogoutSpec(old(stream.State()));
        r == d.result && stream.State() == d.state && !live
      ensures tls == old(tls) && auth == old(auth) && capabilities == old(capabilities)
    {
      var reply := Converse(stream, Writer(Writers.Logout));
      live := false;
      if reply.Err? {
        return Err(reply.error);
      }
      if reply.value.tag == NO {
        return Err(UnexpectedNo(reply.value.info));
      }
      var closed := stream.Close();
      if closed.Err? {
        return Err(Io(closed.error));
      }
      r := Ok(());
    }
  }
}
