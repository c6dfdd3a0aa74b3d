/**
 * The command writers of the current API. Each command is a fixed sequence
 * of `write_all` calls on the stream (a verb, blanks, synchronising
 * literals `{n}` CRLF text, decimal numbers, CRLF), and the first write
 * that fails ends the command with its error.
 */
module Writers {
  import opened Wrappers
  import opened Text
  import Protocol
  import opened Literals
  import opened Streams
  import SieveName
  import Utf8

  /** One call of a `SieveWriter` helper; a verb is named by its position in `Verbs`. */
  datatype Token = Verb(kind: nat) | Space | Crlf | Str(text: string) | Num(n: u32)

  /** One command writer of the current API, with its arguments. */
  datatype Request =
    | Authenticate(mechanism: string, data: Option<string>)
    | SaslString(sasl: string)
    | StartTls
    | Logout
    | Capability
    | HaveSpace(name: SieveName.SieveNameString, size: u32)
    | PutScript(name: SieveName.SieveNameString, script: string)
    | ListScripts
    | SetActive(name: SieveName.SieveNameString)
    | GetScript(name: SieveName.SieveNameString)
    | DeleteScript(name: SieveName.SieveNameString)
    | RenameScript(oldName: SieveName.SieveNameString, newName: SieveName.SieveNameString)
    | CheckScript(script: string)
    | Noop
    | Unauthenticate

  /** The helper calls each command makes, in order. */
  function Tokens(req: Request): seq<Token> {
    match req
    case Authenticate(m, None) => [Verb(Kind(req)), Space, Str(m), Crlf]
    case Authenticate(m, Some(d)) => [Verb(Kind(req)), Space, Str(m), Space, Str(d), Crlf]
    case SaslString(s) => [Str(s), Crlf]
    case StartTls => [Verb(Kind(req)), Crlf]
    case Logout => [Verb(Kind(req)), Crlf]
    case Capability => [Verb(Kind(req)), Crlf]
    case HaveSpace(name, size) => [Verb(Kind(req)), Space, Str(name), Space, Num(size), Crlf]
    case PutScript(name, script) => [Verb(Kind(req)), Space, Str(name), Space, Str(script), Crlf]
    case ListScripts => [Verb(Kind(req)), Crlf]
    case SetActive(name) => [Verb(Kind(req)), Space, Str(name), Crlf]
    case GetScript(name) => [Verb(Kind(req)), Space, Str(name), Crlf]
    case DeleteScript(name) => [Verb(Kind(req)), Space, Str(name), Crlf]
    case RenameScript(a, b) => [Verb(Kind(req)), Space, Str(a), Space, Str(b), Crlf]
    case CheckScript(script) => [Verb(Kind(req)), Space, Str(script), Crlf]
    case Noop => [Verb(Kind(req)), Crlf]
    case Unauthenticate => [Verb(Kind(req)), Crlf]
  }

  /** `string` unwraps the conversion of the byte length to `u32`: a longer text panics. */
  predicate Small(s: string) {
    Utf8.Length(s) <= U32_MAX
  }

  /** Every text a request sends as a literal is small enough for its head. */
  predicate Fits(req: Request) {
    match req
    case Authenticate(m, d) => Small(m) && (d.Some? ==> Small(d.value))
    case SaslString(s) => Small(s)
    case HaveSpace(name, _) => Small(name)
    case PutScript(name, script) => Small(name) && Small(script)
    case SetActive(name) => Small(name)
    case GetScript(name) => Small(name)
    case DeleteScript(name) => Small(name)
    case RenameScript(a, b) => Small(a) && Small(b)
    case CheckScript(script) => Small(script)
    case _ => true
  }

  /** The `write_all` arguments of one helper call. */
  function Pieces(t: Token): seq<seq<byte>> {
    match t
    case Verb(k) => [Utf8.AsciiBytes(VerbAt(k))]
    case Space => [Utf8.Encode(" ")]
    case Crlf => [Utf8.Encode(CRLF)]
    case Str(s) =>
      [Utf8.Encode("{"), Utf8.Encode(Decimal(Utf8.Length(s))), Utf8.Encode("}"), Utf8.Encode(CRLF), Utf8.Encode(s)]
    case Num(n) => [Utf8.Encode(Decimal(n))]
  }

  /** The `write_all` arguments of a sequence of helper calls. */
  function Expand(ts: seq<Token>): seq<seq<byte>> {
    if ts == [] then [] else Pieces(ts[0]) + Expand(ts[1..])
  }

  /** The state a run of writes leaves: its result, the outcomes left in the script, the log. */
  datatype Written = Written(result: Result<(), Protocol.IoError>, faults: seq<Option<Protocol.IoError>>, log: seq<byte>)

  /** Writes `pieces` one after the other, stopping at the first that fails. */
  function After(faults: seq<Option<Protocol.IoError>>, log: seq<byte>, pieces: seq<seq<byte>>): Written
    decreases |pieces|
  {
    if pieces == [] then Written(Ok(()), faults, log)
    else match OutcomeAt(faults, 0)
      case Some(e) => Written(Err(e), Skip(faults, 1), log)
      case None => After(Skip(faults, 1), log + pieces[0], pieces[1..])
  }

  /** All the bytes of a list of writes. */
  function Flatten(pieces: seq<seq<byte>>): seq<byte> {
    if pieces == [] then [] else pieces[0] + Flatten(pieces[1..])
  }

  /** The position of the first failing step among the first `n` of a script, or `n`. */
  function FirstFault(faults: seq<Option<Protocol.IoError>>, n: nat): (k: nat)
    ensures k <= n
    ensures forall i :: 0 <= i < k ==> OutcomeAt(faults, i).None?
    ensures k < n ==> OutcomeAt(faults, k).Some?
    decreases n
  {
    if n == 0 || OutcomeAt(faults, 0).Some? then 0
    else SkipOutcome(faults, 1); 1 + FirstFault(Skip(faults, 1), n - 1)
  }

  /**
   * The writes stop at the first that fails, which gives the command its
   * error: everything before it is in the log and nothing after it is.
   */
  lemma {:induction false} AfterFirstFault(faults: seq<Option<Protocol.IoError>>, log: seq<byte>, pieces: seq<seq<byte>>)
    ensures var k := FirstFault(faults, |pieces|);
      After(faults, log, pieces) ==
        if k == |pieces| then Written(Ok(()), Skip(faults, k), log + Flatten(pieces))
        else Written(Err(OutcomeAt(faults, k).value), Skip(faults, k + 1), log + Flatten(pieces[..k]))
    decreases |pieces|
  {
    if pieces == [] {
      assert Skip(faults, 0) == faults;
    } else if OutcomeAt(faults, 0).Some? {
      assert pieces[..0] == [];
    } else {
      var rest, tail := Skip(faults, 1), pieces[1..];
      AfterFirstFault(rest, log + pieces[0], tail);
      var j := FirstFault(rest, |tail|);
      assert FirstFault(faults, |pieces|) == 1 + j;
      SkipSkip(faults, 1, j);
      SkipSkip(faults, 1, j + 1);
      if j < |tail| {
        FlattenFront(pieces, j + 1);
      } else {
        FlattenFront(pieces, |pieces|);
        assert pieces[..|pieces|] == pieces;
      }
    }
  }

  /** The bytes of the first `n` writes start with the first write's. */
  lemma {:induction false} FlattenFront(pieces: seq<seq<byte>>, n: nat)
    requires 0 < n <= |pieces|
    ensures forall log: seq<byte> :: log + Flatten(pieces[..n]) == log + pieces[0] + Flatten(pieces[1..][..n - 1])
  {
    var p := pieces[..n];
    assert p[0] == pieces[0] && p[1..] == pieces[1..][..n - 1];
  }

  lemma {:induction false} ExpandAppend(a: seq<Token>, b: seq<Token>)
    ensures Expand(a + b) == Expand(a) + Expand(b)
  {
    if a == [] {
      assert a + b == b;
    } else {
      var c := a + b;
      assert c[0] == a[0] && c[1..] == a[1..] + b;
      ExpandAppend(a[1..], b);
      calc {
        Expand(c);
        Pieces(a[0]) + Expand(a[1..] + b);
        Pieces(a[0]) + (Expand(a[1..]) + Expand(b));
        (Pieces(a[0]) + Expand(a[1..])) + Expand(b);
      }
    }
  }

  lemma {:induction false} AfterAppend(faults: seq<Option<Protocol.IoError>>, log: seq<byte>, p: seq<seq<byte>>, q: seq<seq<byte>>)
    ensures var a := After(faults, log, p);
      After(faults, log, p + q) == if a.result.Ok? then After(a.faults, a.log, q) else a
    decreases |p|
  {
    if p == [] {
      assert p + q == q;
    } else if OutcomeAt(faults, 0).None? {
      AfterAppend(Skip(faults, 1), log + p[0], p[1..], q);
      assert (p + q)[1..] == p[1..] + q;
    }
  }

  /** One helper call after the ones before it: nothing more is written once one has failed. */
  function Then(s: Written, t: Token): Written {
    if s.result.Err? then s else After(s.faults, s.log, Pieces(t))
  }

  /** Helper calls one after the other. */
  function Run(s: Written, ts: seq<Token>): Written
    decreases |ts|
  {
    if ts == [] then s else Run(Then(s, ts[0]), ts[1..])
  }

  /** Running helper calls one by one is running all their writes in one go. */
  lemma {:induction false} RunExpand(faults: seq<Option<Protocol.IoError>>, log: seq<byte>, ts: seq<Token>)
    ensures Run(Written(Ok(()), faults, log), ts) == After(faults, log, Expand(ts))
    decreases |ts|
  {
    if ts != [] {
      var a := After(faults, log, Pieces(ts[0]));
      AfterAppend(faults, log, Pieces(ts[0]), Expand(ts[1..]));
      if a.result.Ok? {
        assert a.result.value == ();
        RunExpand(a.faults, a.log, ts[1..]);
      } else {
        RunFailed(a, ts[1..]);
      }
    }
  }

  lemma {:induction false} RunFailed(s: Written, ts: seq<Token>)
    requires s.result.Err?
    ensures Run(s, ts) == s
    decreases |ts|
  {
    if ts != [] {
      RunFailed(s, ts[1..]);
    }
  }

  lemma {:induction false} Run2(s: Written, a: Token, b: Token)
    ensures Run(s, [a, b]) == Then(Then(s, a), b)
  {
    assert [a, b][1..] == [b] && [b][1..] == [];
    assert Run(Then(s, a), [b]) == Run(Then(Then(s, a), b), []);
  }

  lemma {:induction false} Run4(s: Written, a: Token, b: Token, c: Token, d: Token)
    ensures Run(s, [a, b, c, d]) == Then(Then(Then(Then(s, a), b), c), d)
  {
    assert [a, b, c, d][1..] == [b, c, d];
    assert [b, c, d][1..] == [c, d];
    Run2(Then(Then(s, a), b), c, d);
  }

  lemma {:induction false} Run6(s: Written, a: Token, b: Token, c: Token, d: Token, e: Token, f: Token)
    ensures Run(s, [a, b, c, d, e, f]) == Then(Then(Then(Then(Then(Then(s, a), b), c), d), e), f)
  {
    assert [a, b, c, d, e, f][1..] == [b, c, d, e, f];
    assert [b, c, d, e, f][1..] == [c, d, e, f];
    Run4(Then(Then(s, a), b), c, d, e, f);
  }

  /** Nothing a writer does touches the stream beyond its log and its script. */
  twostate predicate Kept(stream: Stream)
    reads stream
  {
    stream.flushed == old(stream.flushed) && stream.closed == old(stream.closed)
    && stream.encrypted == old(stream.encrypted) && stream.incoming == old(stream.incoming)
  }

  /** One `write_all` call. */
  method Put(stream: Stream, bytes: seq<byte>) returns (r: Result<(), Protocol.IoError>)
    modifies stream
    ensures Written(r, stream.faults, stream.written) == After(old(stream.faults), old(stream.written), [bytes])
    ensures Kept(stream)
  {
    r := stream.WriteAll(bytes);
    assert [bytes][1..] == [];
  }

  /** `SieveWriter::literal`, which is only ever given one of the verbs: the text's bytes as they are. */
  method WriteVerb(stream: Stream, kind: nat) returns (r: Result<(), Protocol.IoError>)
    requires kind < |Verbs|
    modifies stream
    ensures Written(r, stream.faults, stream.written) == After(old(stream.faults), old(stream.written), Pieces(Verb(kind)))
    ensures Kept(stream)
  {
    VerbAscii(kind);
    r := Put(stream, Utf8.Encode(Verbs[kind]));
  }

  /** `SieveWriter::space`. */
  method WriteSpace(stream: Stream) returns (r: Result<(), Protocol.IoError>)
    modifies stream
    ensures Written(r, stream.faults, stream.written) == After(old(stream.faults), old(stream.written), Pieces(Space))
    ensures Kept(stream)
  {
    r := Put(stream, Utf8.Encode(" "));
  }

  /** `SieveWriter::crlf`. */
  method WriteCrlf(stream: Stream) returns (r: Result<(), Protocol.IoError>)
    modifies stream
    ensures Written(r, stream.faults, stream.written) == After(old(stream.faults), old(stream.written), Pieces(Crlf))
    ensures Kept(stream)
  {
    r := Put(stream, Utf8.Encode(CRLF));
  }

  /** `SieveWriter::number`: the decimal digits of a `u32`. */
  method WriteNumber(stream: Stream, n: u32) returns (r: Result<(), Protocol.IoError>)
    modifies stream
    ensures Written(r, stream.faults, stream.written) == After(old(stream.faults), old(stream.written), Pieces(Num(n)))
    ensures Kept(stream)
  {
    r := Put(stream, Utf8.Encode(Decimal(n)));
  }

  /** `SieveWriter::string`: `{`, the byte length, `}`, CRLF, then the bytes, stopping at the first failure. */
  method WriteStr(stream: Stream, s: string) returns (r: Result<(), Protocol.IoError>)
    requires Small(s)
    modifies stream
    ensures Written(r, stream.faults, stream.written) == After(old(stream.faults), old(stream.written), Pieces(Str(s)))
    ensures Kept(stream)
  {
    var p := Pieces(Str(s));
    AfterAppend(stream.faults, stream.written, [p[0]], p[1..]);
    r := Put(stream, Utf8.Encode("{"));
    if r.Err? { return; }
    AfterAppend(stream.faults, stream.written, [p[1]], p[2..]);
    r := WriteNumber(stream, Utf8.Length(s));
    if r.Err? { return; }
    AfterAppend(stream.faults, stream.written, [p[2]], p[3..]);
    r := Put(stream, Utf8.Encode("}"));
    if r.Err? { return; }
    AfterAppend(stream.faults, stream.written, [p[3]], p[4..]);
    r := WriteCrlf(stream);
    if r.Err? { return; }
    r := Put(stream, Utf8.Encode(s));
  }

  /** The `write_all` arguments of a whole command. */
  function Writes(req: Request): seq<seq<byte>> {
    Expand(Tokens(req))
  }

  /** `authenticate`: the mechanism, then the initial data only when there is some. */
  method WriteAuthenticate(stream: Stream, mechanism: string, data: Option<string>) returns (r: Result<(), Protocol.IoError>)
    requires Small(mechanism)
    requires data.Some? ==> Small(data.value)
    modifies stream
    ensures Written(r, stream.faults, stream.written) == After(old(stream.faults), old(stream.written), Writes(Authenticate(mechanism, data)))
    ensures Kept(stream)
  {
    var verb := Kind(Authenticate(mechanism, data));
    ghost var s := Written(Ok(()), stream.faults, stream.written);
    RunExpand(s.faults, s.log, Tokens(Authenticate(mechanism, data)));
    if data.Some? {
      Run6(s, Verb(verb), Space, Str(mechanism), Space, Str(data.value), Crlf);
    } else {
      Run4(s, Verb(verb), Space, Str(mechanism), Crlf);
    }
    r := WriteVerb(stream, verb);
    s := Then(s, Verb(verb));
    if r.Err? { return; }
    r := WriteSpace(stream);
    s := Then(s, Space);
    if r.Err? { return; }
    r := WriteStr(stream, mechanism);
    s := Then(s, Str(mechanism));
    if r.Err? { return; }
    if data.Some? {
      r := WriteSpace(stream);
      s := Then(s, Space);
      if r.Err? { return; }
      r := WriteStr(stream, data.value);
      s := Then(s, Str(data.value));
      if r.Err? { return; }
    }
    r := WriteCrlf(stream);
  }

  /** `sasl_string`: one literal and CRLF. */
  method WriteSaslString(stream: Stream, sasl: string) returns (r: Result<(), Protocol.IoError>)
    requires Small(sasl)
    modifies stream
    ensures Written(r, stream.faults, stream.written) == After(old(stream.faults), old(stream.written), Writes(SaslString(sasl)))
    ensures Kept(stream)
  {
    ghost var s := Written(Ok(()), stream.faults, stream.written);
    RunExpand(s.faults, s.log, Tokens(SaslString(sasl)));
    Run2(s, Str(sasl), Crlf);
    r := WriteStr(stream, sasl);
    s := Then(s, Str(sasl));
    if r.Err? { return; }
    r := WriteCrlf(stream);
  }

  /** `start_tls`. */
  method WriteStartTls(stream: Stream) returns (r: Result<(), Protocol.IoError>)
    modifies stream
    ensures Written(r, stream.faults, stream.written) == After(old(stream.faults), old(stream.written), Writes(StartTls))
    ensures Kept(stream)
  {
    var verb := Kind(StartTls);
    ghost var s := Written(Ok(()), stream.faults, stream.written);
    RunExpand(s.faults, s.log, Tokens(StartTls));
    Run2(s, Verb(verb), Crlf);
    r := WriteVerb(stream, verb);
    s := Then(s, Verb(verb));
    if r.Err? { return; }
    r := WriteCrlf(stream);
  }

  /** `logout`. */
  method WriteLogout(stream: Stream) returns (r: Result<(), Protocol.IoError>)
    modifies stream
    ensures Written(r, stream.faults, stream.written) == After(old(stream.faults), old(stream.written), Writes(Logout))
    ensures Kept(stream)
  {
    var verb := Kind(Logout);
    ghost var s := Written(Ok(()), stream.faults, stream.written);
    RunExpand(s.faults, s.log, Tokens(Logout));
    Run2(s, Verb(verb), Crlf);
    r := WriteVerb(stream, verb);
    s := Then(s, Verb(verb));
    if r.Err? { return; }
    r := WriteCrlf(stream);
  }

  /** `capability`. */
  method WriteCapability(stream: Stream) returns (r: Result<(), Protocol.IoError>)
    modifies stream
    ensures Written(r, stream.faults, stream.written) == After(old(stream.faults), old(stream.written), Writes(Capability))
    ensures Kept(stream)
  {
    var verb := Kind(Capability);
    ghost var s := Written(Ok(()), stream.faults, stream.written);
    RunExpand(s.faults, s.log, Tokens(Capability));
    Run2(s, Verb(verb), Crlf);
    r := WriteVerb(stream, verb);
    s := Then(s, Verb(verb));
    if r.Err? { return; }
    r := WriteCrlf(stream);
  }

  /** `have_space`: the name as a literal, then the size in decimal. */
  method WriteHaveSpace(stream: Stream, name: SieveName.SieveNameString, size: u32) returns (r: Result<(), Protocol.IoError>)
    requires Small(name)
    modifies stream
    ensures Written(r, stream.faults, stream.written) == After(old(stream.faults), old(stream.written), Writes(HaveSpace(name, size)))
    ensures Kept(stream)
  {
    var verb := Kind(HaveSpace(name, size));
    ghost var s := Written(Ok(()), stream.faults, stream.written);
    RunExpand(s.faults, s.log, Tokens(HaveSpace(name, size)));
    Run6(s, Verb(verb), Space, Str(name), Space, Num(size), Crlf);
    r := WriteVerb(stream, verb);
    s := Then(s, Verb(verb));
    if r.Err? { return; }
    r := WriteSpace(stream);
    s := Then(s, Space);
    if r.Err? { return; }
    r := WriteStr(stream, name);
    s := Then(s, Str(name));
    if r.Err? { return; }
    r := WriteSpace(stream);
    s := Then(s, Space);
    if r.Err? { return; }
    r := WriteNumber(stream, size);
    s := Then(s, Num(size));
    if r.Err? { return; }
    r := WriteCrlf(stream);
  }

  /** `put_script`: the name and the script, each as a literal. */
  method WritePutScript(stream: Stream, name: SieveName.SieveNameString, script: string) returns (r: Result<(), Protocol.IoError>)
    requires Small(name) && Small(script)
    modifies stream
    ensures Written(r, stream.faults, stream.written) == After(old(stream.faults), old(stream.written), Writes(PutScript(name, script)))
    ensures Kept(stream)
  {
    var verb := Kind(PutScript(name, script));
    ghost var s := Written(Ok(()), stream.faults, stream.written);
    RunExpand(s.faults, s.log, Tokens(PutScript(name, script)));
    Run6(s, Verb(verb), Space, Str(name), Space, Str(script), Crlf);
    r := WriteVerb(stream, verb);
    s := Then(s, Verb(verb));
    if r.Err? { return; }
    r := WriteSpace(stream);
    s := Then(s, Space);
    if r.Err? { return; }
    r := WriteStr(stream, name);
    s := Then(s, Str(name));
    if r.Err? { return; }
    r := WriteSpace(stream);
    s := Then(s, Space);
    if r.Err? { return; }
    r := WriteStr(stream, script);
    s := Then(s, Str(script));
    if r.Err? { return; }
    r := WriteCrlf(stream);
  }

  /** `list_scripts`. */
  method WriteListScripts(stream: Stream) returns (r: Result<(), Protocol.IoError>)
    modifies stream
    ensures Written(r, stream.faults, stream.written) == After(old(stream.faults), old(stream.written), Writes(ListScripts))
    ensures Kept(stream)
  {
    var verb := Kind(ListScripts);
    ghost var s := Written(Ok(()), stream.faults, stream.written);
    RunExpand(s.faults, s.log, Tokens(ListScripts));
    Run2(s, Verb(verb), Crlf);
    r := WriteVerb(stream, verb);
    s := Then(s, Verb(verb));
    if r.Err? { return; }
    r := WriteCrlf(stream);
  }

  /** `set_active`. */
  method WriteSetActive(stream: Stream, name: SieveName.SieveNameString) returns (r: Result<(), Protocol.IoError>)
    requires Small(name)
    modifies stream
    ensures Written(r, stream.faults, stream.written) == After(old(stream.faults), old(stream.written), Writes(SetActive(name)))
    ensures Kept(stream)
  {
    var verb := Kind(SetActive(name));
    ghost var s := Written(Ok(()), stream.faults, stream.written);
    RunExpand(s.faults, s.log, Tokens(SetActive(name)));
    Run4(s, Verb(verb), Space, Str(name), Crlf);
    r := WriteVerb(stream, verb);
    s := Then(s, Verb(verb));
    if r.Err? { return; }
    r := WriteSpace(stream);
    s := Then(s, Space);
    if r.Err? { return; }
    r := WriteStr(stream, name);
    s := Then(s, Str(name));
    if r.Err? { return; }
    r := WriteCrlf(stream);
  }

  /** `get_script`. */
  method WriteGetScript(stream: Stream, name: SieveName.SieveNameString) returns (r: Result<(), Protocol.IoError>)
    requires Small(name)
    modifies stream
    ensures Written(r, stream.faults, stream.written) == After(old(stream.faults), old(stream.written), Writes(GetScript(name)))
    ensures Kept(stream)
  {
    var verb := Kind(GetScript(name));
    ghost var s := Written(Ok(()), stream.faults, stream.written);
    RunExpand(s.faults, s.log, Tokens(GetScript(name)));
    Run4(s, Verb(verb), Space, Str(name), Crlf);
    r := WriteVerb(stream, verb);
    s := Then(s, Verb(verb));
    if r.Err? { return; }
    r := WriteSpace(stream);
    s := Then(s, Space);
    if r.Err? { return; }
    r := WriteStr(stream, name);
    s := Then(s, Str(name));
    if r.Err? { return; }
    r := WriteCrlf(stream);
  }

  /** `delete_script`. */
  method WriteDeleteScript(stream: Stream, name: SieveName.SieveNameString) returns (r: Result<(), Protocol.IoError>)
    requires Small(name)
    modifies stream
    ensures Written(r, stream.faults, stream.written) == After(old(stream.faults), old(stream.written), Writes(DeleteScript(name)))
    ensures Kept(stream)
  {
    var verb := Kind(DeleteScript(name));
    ghost var s := Written(Ok(()), stream.faults, stream.written);
    RunExpand(s.faults, s.log, Tokens(DeleteScript(name)));
    Run4(s, Verb(verb), Space, Str(name), Crlf);
    r := WriteVerb(stream, verb);
    s := Then(s, Verb(verb));
    if r.Err? { return; }
    r := WriteSpace(stream);
    s := Then(s, Space);
    if r.Err? { return; }
    r := WriteStr(stream, name);
    s := Then(s, Str(name));
    if r.Err? { return; }
    r := WriteCrlf(stream);
  }

  /** `rename_script`: the old name, then the new one. */
  method WriteRenameScript(stream: Stream, oldName: SieveName.SieveNameString, newName: SieveName.SieveNameString) returns (r: Result<(), Protocol.IoError>)
    requires Small(oldName) && Small(newName)
    modifies stream
    ensures Written(r, stream.faults, stream.written) == After(old(stream.faults), old(stream.written), Writes(RenameScript(oldName, newName)))
    ensures Kept(stream)
  {
    var verb := Kind(RenameScript(oldName, newName));
    ghost var s := Written(Ok(()), stream.faults, stream.written);
    RunExpand(s.faults, s.log, Tokens(RenameScript(oldName, newName)));
    Run6(s, Verb(verb), Space, Str(oldName), Space, Str(newName), Crlf);
    r := WriteVerb(stream, verb);
    s := Then(s, Verb(verb));
    if r.Err? { return; }
    r := WriteSpace(stream);
    s := Then(s, Space);
    if r.Err? { return; }
    r := WriteStr(stream, oldName);
    s := Then(s, Str(oldName));
    if r.Err? { return; }
    r := WriteSpace(stream);
    s := Then(s, Space);
    if r.Err? { return; }
    r := WriteStr(stream, newName);
    s := Then(s, Str(newName));
    if r.Err? { return; }
    r := WriteCrlf(stream);
  }

  /** `check_script`: the script text as a literal. */
  method WriteCheckScript(stream: Stream, script: string) returns (r: Result<(), Protocol.IoError>)
    requires Small(script)
    modifies stream
    ensures Written(r, stream.faults, stream.written) == After(old(stream.faults), old(stream.written), Writes(CheckScript(script)))
    ensures Kept(stream)
  {
    var verb := Kind(CheckScript(script));
    ghost var s := Written(Ok(()), stream.faults, stream.written);
    RunExpand(s.faults, s.log, Tokens(CheckScript(script)));
    Run4(s, Verb(verb), Space, Str(script), Crlf);
    r := WriteVerb(stream, verb);
    s := Then(s, Verb(verb));
    if r.Err? { return; }
    r := WriteSpace(stream);
    s := Then(s, Space);
    if r.Err? { return; }
    r := WriteStr(stream, script);
    s := Then(s, Str(script));
    if r.Err? { return; }
    r := WriteCrlf(stream);
  }

  /** `noop`. */
  method WriteNoop(stream: Stream) returns (r: Result<(), Protocol.IoError>)
    modifies stream
    ensures Written(r, stream.faults, stream.written) == After(old(stream.faults), old(stream.written), Writes(Noop))
    ensures Kept(stream)
  {
    var verb := Kind(Noop);
    ghost var s := Written(Ok(()), stream.faults, stream.written);
    RunExpand(s.faults, s.log, Tokens(Noop));
    Run2(s, Verb(verb), Crlf);
    r := WriteVerb(stream, verb);
    s := Then(s, Verb(verb));
    if r.Err? { return; }
    r := WriteCrlf(stream);
  }

  /** `unauthenticate`. */
  method WriteUnauthenticate(stream: Stream) returns (r: Result<(), Protocol.IoError>)
    modifies stream
    ensures Written(r, stream.faults, stream.written) == After(old(stream.faults), old(stream.written), Writes(Unauthenticate))
    ensures Kept(stream)
  {
    var verb := Kind(Unauthenticate);
    ghost var s := Written(Ok(()), stream.faults, stream.written);
    RunExpand(s.faults, s.log, Tokens(Unauthenticate));
    Run2(s, Verb(verb), Crlf);
    r := WriteVerb(stream, verb);
    s := Then(s, Verb(verb));
    if r.Err? { return; }
    r := WriteCrlf(stream);
  }

  /** The command writer a request names, called on the stream. */
  method WriteRequest(stream: Stream, req: Request) returns (r: Result<(), Protocol.IoError>)
    requires Fits(req)
    modifies stream
    ensures Written(r, stream.faults, stream.written) == After(old(stream.faults), old(stream.written), Writes(req))
    ensures Kept(stream)
  {
    match req
    case Authenticate(m, d) => r := WriteAuthenticate(stream, m, d);
    case SaslString(x) => r := WriteSaslString(stream, x);
    case StartTls => r := WriteStartTls(stream);
    case Logout => r := WriteLogout(stream);
    case Capability => r := WriteCapability(stream);
    case HaveSpace(name, size) => r := WriteHaveSpace(stream, name, size);
    case PutScript(name, script) => r := WritePutScript(stream, name, script);
    case ListScripts => r := WriteListScripts(stream);
    case SetActive(name) => r := WriteSetActive(stream, name);
    case GetScript(name) => r := WriteGetScript(stream, name);
    case DeleteScript(name) => r := WriteDeleteScript(stream, name);
    case RenameScript(x, y) => r := WriteRenameScript(stream, x, y);
    case CheckScript(script) => r := WriteCheckScript(stream, script);
    case Noop => r := WriteNoop(stream);
    case Unauthenticate => r := WriteUnauthenticate(stream);
  }

  /** The text one helper call writes. */
  function TokenText(t: Token): string {
    match t
    case Verb(k) => VerbAt(k)
    case Space => " "
    case Crlf => CRLF
    case Str(s) => Literal(s, false)
    case Num(n) => Decimal(n)
  }

  function TextOf(ts: seq<Token>): string {
    if ts == [] then "" else TokenText(ts[0]) + TextOf(ts[1..])
  }

  /** The verbs, one per kind of request; a SASL continuation has none. */
  const Verbs: seq<string> := [
    "AUTHENTICATE", "", "STARTTLS", "LOGOUT", "CAPABILITY", "HAVESPACE", "PUTSCRIPT", "LISTSCRIPTS",
    "SETACTIVE", "GETSCRIPT", "DELETESCRIPT", "RENAMESCRIPT", "CHECKSCRIPT", "NOOP", "UNAUTHENTICATE"]

  /** The verb at a position of the table; past its end, none. */
  function VerbAt(k: nat): string {
    if k < |Verbs| then Verbs[k] else ""
  }

  /** Every verb is ASCII, so it is written byte for character. */
  lemma {:induction false} VerbAscii(k: nat)
    ensures Utf8.Encode(VerbAt(k)) == Utf8.AsciiBytes(VerbAt(k))
  {
    if k < |Verbs| {
      assert Utf8.IsAscii(Verbs[k]);
      Utf8.EncodeAscii(Verbs[k]);
    } else {
      assert Utf8.AsciiBytes("") == [];
    }
  }

  function Kind(req: Request): (k: nat)
    ensures k < |Verbs|
  {
    match req
    case Authenticate(_, _) => 0
    case SaslString(_) => 1
    case StartTls => 2
    case Logout => 3
    case Capability => 4
    case HaveSpace(_, _) => 5
    case PutScript(_, _) => 6
    case ListScripts => 7
    case SetActive(_) => 8
    case GetScript(_) => 9
    case DeleteScript(_) => 10
    case RenameScript(_, _) => 11
    case CheckScript(_) => 12
    case Noop => 13
    case Unauthenticate => 14
  }

  /** What follows the verb, each argument a synchronising literal except the HAVESPACE size. */
  function Arguments(req: Request): (a: string)
    ensures 0 < |a| && (a[0] == ' ' || a[0] == '\r' || a[0] == '{')
  {
    match req
    case Authenticate(m, None) => " " + (Literal(m, false) + CRLF)
    case Authenticate(m, Some(d)) => " " + (Literal(m, false) + (" " + (Literal(d, false) + CRLF)))
    case SaslString(s) => Literal(s, false) + CRLF
    case HaveSpace(name, size) => " " + (Literal(name, false) + (" " + (Decimal(size) + CRLF)))
    case PutScript(name, script) => " " + (Literal(name, false) + (" " + (Literal(script, false) + CRLF)))
    case SetActive(name) => " " + (Literal(name, false) + CRLF)
    case GetScript(name) => " " + (Literal(name, false) + CRLF)
    case DeleteScript(name) => " " + (Literal(name, false) + CRLF)
    case RenameScript(a, b) => " " + (Literal(a, false) + (" " + (Literal(b, false) + CRLF)))
    case CheckScript(script) => " " + (Literal(script, false) + CRLF)
    case _ => CRLF
  }

  /** A request as section 2 of RFC 5804 spells it: verb, arguments, CRLF. */
  function CommandText(req: Request): string {
    Verbs[Kind(req)] + Arguments(req)
  }

  /** Verbs are written as ASCII bytes, so the bytes of a run of helper calls encode their text. */
  lemma {:induction false} ExpandText(ts: seq<Token>)
    ensures Flatten(Expand(ts)) == Utf8.Encode(TextOf(ts))
  {
    if ts != [] {
      ExpandText(ts[1..]);
      FlattenAppend(Pieces(ts[0]), Expand(ts[1..]));
      PiecesText(ts[0]);
      Utf8.EncodeAppend(TokenText(ts[0]), TextOf(ts[1..]));
    }
  }

  lemma {:induction false} FlattenAppend(p: seq<seq<byte>>, q: seq<seq<byte>>)
    ensures Flatten(p + q) == Flatten(p) + Flatten(q)
  {
    if p == [] {
      assert p + q == q;
    } else {
      var c := p + q;
      assert c[0] == p[0] && c[1..] == p[1..] + q;
      FlattenAppend(p[1..], q);
      calc {
        Flatten(c);
        p[0] + Flatten(p[1..] + q);
        p[0] + (Flatten(p[1..]) + Flatten(q));
        (p[0] + Flatten(p[1..])) + Flatten(q);
      }
    }
  }

  /** The bytes of the first writes are a prefix of the bytes of all of them. */
  lemma {:induction false} FlattenPrefix(p: seq<seq<byte>>, k: nat)
    requires k <= |p|
    ensures Flatten(p[..k]) <= Flatten(p)
  {
    assert p == p[..k] + p[k..];
    FlattenAppend(p[..k], p[k..]);
  }

  lemma {:induction false} PiecesText(t: Token)
    ensures Flatten(Pieces(t)) == Utf8.Encode(TokenText(t))
  {
    match t
    case Verb(k) =>
      VerbAscii(k);
      FlattenOne(Utf8.AsciiBytes(VerbAt(k)));
    case Str(s) =>
      StrText(s);
    case _ =>
      FlattenOne(Pieces(t)[0]);
  }

  lemma {:induction false} FlattenOne(a: seq<byte>)
    ensures Flatten([a]) == a
  {
    assert [a][1..] == [];
    assert a + [] == a;
  }

  /** A literal's five writes spell the literal. */
  lemma {:induction false} StrText(s: string)
    ensures Flatten(Pieces(Str(s))) == Utf8.Encode(Literal(s, false))
  {
    var d := Decimal(Utf8.Length(s));
    var open, close, crlf, body := Utf8.Encode("{"), Utf8.Encode(d), Utf8.Encode("}"), Utf8.Encode(CRLF);
    Flatten5(Utf8.Encode("{"), Utf8.Encode(d), Utf8.Encode("}"), Utf8.Encode(CRLF), Utf8.Encode(s));
    assert Literal(s, false) == "{" + (d + ("}" + (CRLF + s)));
    Utf8.EncodeAppend(CRLF, s);
    Utf8.EncodeAppend("}", CRLF + s);
    Utf8.EncodeAppend(d, "}" + (CRLF + s));
    Utf8.EncodeAppend("{", d + ("}" + (CRLF + s)));
  }

  lemma {:induction false} FlattenCons(a: seq<byte>, rest: seq<seq<byte>>)
    ensures Flatten([a] + rest) == a + Flatten(rest)
  {
    assert ([a] + rest)[0] == a && ([a] + rest)[1..] == rest;
  }

  lemma {:induction false} Flatten5(a: seq<byte>, b: seq<byte>, c: seq<byte>, d: seq<byte>, e: seq<byte>)
    ensures Flatten([a, b, c, d, e]) == a + (b + (c + (d + e)))
  {
    assert [a, b, c, d, e] == [a] + ([b] + ([c] + ([d] + [e])));
    FlattenOne(e);
    FlattenCons(d, [e]);
    FlattenCons(c, [d] + [e]);
    FlattenCons(b, [c] + ([d] + [e]));
    FlattenCons(a, [b] + ([c] + ([d] + [e])));
  }

  lemma {:induction false} TextCons(t: Token, rest: seq<Token>)
    ensures TextOf([t] + rest) == TokenText(t) + TextOf(rest)
  {
    assert ([t] + rest)[0] == t && ([t] + rest)[1..] == rest;
  }

  lemma {:induction false} TextOne(t: Token)
    ensures TextOf([t]) == TokenText(t)
  {
    TextCons(t, []);
    assert [t] + [] == [t];
    assert TokenText(t) + "" == TokenText(t);
  }

  lemma {:induction false} Text2(a: Token, b: Token)
    ensures TextOf([a, b]) == TokenText(a) + TokenText(b)
  {
    assert [a, b] == [a] + [b];
    TextCons(a, [b]);
    TextOne(b);
  }

  lemma {:induction false} Text4(a: Token, b: Token, c: Token, d: Token)
    ensures TextOf([a, b, c, d]) == TokenText(a) + (TokenText(b) + (TokenText(c) + TokenText(d)))
  {
    assert [a, b, c, d] == [a] + ([b] + [c, d]);
    TextCons(a, [b] + [c, d]);
    TextCons(b, [c, d]);
    Text2(c, d);
  }

  lemma {:induction false} Text6(a: Token, b: Token, c: Token, d: Token, e: Token, f: Token)
    ensures TextOf([a, b, c, d, e, f]) ==
      TokenText(a) + (TokenText(b) + (TokenText(c) + (TokenText(d) + (TokenText(e) + TokenText(f)))))
  {
    assert [a, b, c, d, e, f] == [a] + ([b] + [c, d, e, f]);
    TextCons(a, [b] + [c, d, e, f]);
    TextCons(b, [c, d, e, f]);
    Text4(c, d, e, f);
  }

  // One lemma per request: the bytes of its writes are the encoding of its text.


  lemma {:induction false} AuthenticateText(m: string)
    ensures Flatten(Writes(Authenticate(m, None))) == Utf8.Encode(CommandText(Authenticate(m, None)))
  {
    var ts := Tokens(Authenticate(m, None));
    assert ts == [Verb(0), Space, Str(m), Crlf];
    Text4(Verb(0), Space, Str(m), Crlf);
    assert TextOf(ts) == CommandText(Authenticate(m, None));
    ExpandText(ts);
  }

  lemma {:induction false} AuthenticateDataText(m: string, d: string)
    ensures Flatten(Writes(Authenticate(m, Some(d)))) == Utf8.Encode(CommandText(Authenticate(m, Some(d))))
  {
    var ts := Tokens(Authenticate(m, Some(d)));
    assert ts == [Verb(0), Space, Str(m), Space, Str(d), Crlf];
    Text6(Verb(0), Space, Str(m), Space, Str(d), Crlf);
    assert TextOf(ts) == CommandText(Authenticate(m, Some(d)));
    ExpandText(ts);
  }

  lemma {:induction false} SaslText(x: string)
    ensures Flatten(Writes(SaslString(x))) == Utf8.Encode(CommandText(SaslString(x)))
  {
    var ts := Tokens(SaslString(x));
    assert ts == [Str(x), Crlf];
    Text2(Str(x), Crlf);
    assert TextOf(ts) == CommandText(SaslString(x));
    ExpandText(ts);
  }

  lemma {:induction false} HaveSpaceText(name: SieveName.SieveNameString, size: u32)
    ensures Flatten(Writes(HaveSpace(name, size))) == Utf8.Encode(CommandText(HaveSpace(name, size)))
  {
    var ts := Tokens(HaveSpace(name, size));
    assert ts == [Verb(5), Space, Str(name), Space, Num(size), Crlf];
    Text6(Verb(5), Space, Str(name), Space, Num(size), Crlf);
    assert TextOf(ts) == CommandText(HaveSpace(name, size));
    ExpandText(ts);
  }

  lemma {:induction false} PutScriptText(name: SieveName.SieveNameString, script: string)
    ensures Flatten(Writes(PutScript(name, script))) == Utf8.Encode(CommandText(PutScript(name, script)))
  {
    var ts := Tokens(PutScript(name, script));
    assert ts == [Verb(6), Space, Str(name), Space, Str(script), Crlf];
    Text6(Verb(6), Space, Str(name), Space, Str(script), Crlf);
    assert TextOf(ts) == CommandText(PutScript(name, script));
    ExpandText(ts);
  }

  lemma {:induction false} RenameScriptText(x: SieveName.SieveNameString, y: SieveName.SieveNameString)
    ensures Flatten(Writes(RenameScript(x, y))) == Utf8.Encode(CommandText(RenameScript(x, y)))
  {
    var ts := Tokens(RenameScript(x, y));
    assert ts == [Verb(11), Space, Str(x), Space, Str(y), Crlf];
    Text6(Verb(11), Space, Str(x), Space, Str(y), Crlf);
    assert TextOf(ts) == CommandText(RenameScript(x, y));
    ExpandText(ts);
  }

  lemma {:induction false} SetActiveText(name: SieveName.SieveNameString)
    ensures Flatten(Writes(SetActive(name))) == Utf8.Encode(CommandText(SetActive(name)))
  {
    var ts := Tokens(SetActive(name));
    assert ts == [Verb(8), Space, Str(name), Crlf];
    Text4(Verb(8), Space, Str(name), Crlf);
    assert TextOf(ts) == CommandText(SetActive(name));
    ExpandText(ts);
  }

  lemma {:induction false} GetScriptText(name: SieveName.SieveNameString)
    ensures Flatten(Writes(GetScript(name))) == Utf8.Encode(CommandText(GetScript(name)))
  {
    var ts := Tokens(GetScript(name));
    assert ts == [Verb(9), Space, Str(name), Crlf];
    Text4(Verb(9), Space, Str(name), Crlf);
    assert TextOf(ts) == CommandText(GetScript(name));
    ExpandText(ts);
  }

  lemma {:induction false} DeleteScriptText(name: SieveName.SieveNameString)
    ensures Flatten(Writes(DeleteScript(name))) == Utf8.Encode(CommandText(DeleteScript(name)))
  {
    var ts := Tokens(DeleteScript(name));
    assert ts == [Verb(10), Space, Str(name), Crlf];
    Text4(Verb(10), Space, Str(name), Crlf);
    assert TextOf(ts) == CommandText(DeleteScript(name));
    ExpandText(ts);
  }

  lemma {:induction false} CheckScriptText(script: string)
    ensures Flatten(Writes(CheckScript(script))) == Utf8.Encode(CommandText(CheckScript(script)))
  {
    var ts := Tokens(CheckScript(script));
    assert ts == [Verb(12), Space, Str(script), Crlf];
    Text4(Verb(12), Space, Str(script), Crlf);
    assert TextOf(ts) == CommandText(CheckScript(script));
    ExpandText(ts);
  }

  lemma {:induction false} StartTlsText()
    ensures Flatten(Writes(StartTls)) == Utf8.Encode(CommandText(StartTls))
  {
    var ts := Tokens(StartTls);
    assert ts == [Verb(2), Crlf];
    Text2(Verb(2), Crlf);
    assert TextOf(ts) == CommandText(StartTls);
    ExpandText(ts);
  }

  lemma {:induction false} LogoutText()
    ensures Flatten(Writes(Logout)) == Utf8.Encode(CommandText(Logout))
  {
    var ts := Tokens(Logout);
    assert ts == [Verb(3), Crlf];
    Text2(Verb(3), Crlf);
    assert TextOf(ts) == CommandText(Logout);
    ExpandText(ts);
  }

  lemma {:induction false} CapabilityText()
    ensures Flatten(Writes(Capability)) == Utf8.Encode(CommandText(Capability))
  {
    var ts := Tokens(Capability);
    assert ts == [Verb(4), Crlf];
    Text2(Verb(4), Crlf);
    assert TextOf(ts) == CommandText(Capability);
    ExpandText(ts);
  }

  lemma {:induction false} ListScriptsText()
    ensures Flatten(Writes(ListScripts)) == Utf8.Encode(CommandText(ListScripts))
  {
    var ts := Tokens(ListScripts);
    assert ts == [Verb(7), Crlf];
    Text2(Verb(7), Crlf);
    assert TextOf(ts) == CommandText(ListScripts);
    ExpandText(ts);
  }

  lemma {:induction false} NoopText()
    ensures Flatten(Writes(Noop)) == Utf8.Encode(CommandText(Noop))
  {
    var ts := Tokens(Noop);
    assert ts == [Verb(13), Crlf];
    Text2(Verb(13), Crlf);
    assert TextOf(ts) == CommandText(Noop);
    ExpandText(ts);
  }

  lemma {:induction false} UnauthenticateText()
    ensures Flatten(Writes(Unauthenticate)) == Utf8.Encode(CommandText(Unauthenticate))
  {
    var ts := Tokens(Unauthenticate);
    assert ts == [Verb(14), Crlf];
    Text2(Verb(14), Crlf);
    assert TextOf(ts) == CommandText(Unauthenticate);
    ExpandText(ts);
  }

  /** A command that no write fails leaves exactly the UTF-8 bytes of its text in the log. */
  lemma {:induction false} WritesText(req: Request)
    ensures Flatten(Writes(req)) == Utf8.Encode(CommandText(req))
  {
    match req
    case Authenticate(m, None) => AuthenticateText(m);
    case Authenticate(m, Some(d)) => AuthenticateDataText(m, d);
    case SaslString(x) => SaslText(x);
    case HaveSpace(name, size) => HaveSpaceText(name, size);
    case PutScript(name, script) => PutScriptText(name, script);
    case RenameScript(x, y) => RenameScriptText(x, y);
    case SetActive(name) => SetActiveText(name);
    case GetScript(name) => GetScriptText(name);
    case DeleteScript(name) => DeleteScriptText(name);
    case CheckScript(script) => CheckScriptText(script);
    case StartTls => StartTlsText();
    case Logout => LogoutText();
    case Capability => CapabilityText();
    case ListScripts => ListScriptsText();
    case Noop => NoopText();
    case Unauthenticate => UnauthenticateText();
  }

  /** No two verbs are the same. */
  lemma {:induction false} VerbsDistinct(i: nat, j: nat)
    requires i < j < |Verbs|
    ensures Verbs[i] != Verbs[j]
  {
  }

  /** Verbs are capital letters only. */
  lemma {:induction false} VerbsUpper(i: nat)
    requires i < |Verbs|
    ensures forall k :: 0 <= k < |Verbs[i]| ==> IsUpper(Verbs[i][k])
  {
  }

  /** The verb ends where the capitals end, so two equal texts have the same verb. */
  lemma {:induction false} KindOf(a: Request, b: Request)
    requires CommandText(a) == CommandText(b)
    ensures Kind(a) == Kind(b) && Arguments(a) == Arguments(b)
  {
    var i, j := Kind(a), Kind(b);
    VerbsUpper(i);
    VerbsUpper(j);
    WordSplit(Verbs[i], Arguments(a), Verbs[j], Arguments(b));
    if i < j {
      VerbsDistinct(i, j);
    } else if j < i {
      VerbsDistinct(j, i);
    }
    var v := Verbs[i];
    assert Arguments(a) == (v + Arguments(a))[|v|..];
    assert Arguments(b) == (v + Arguments(b))[|v|..];
  }

  /**
   * A command's text names it: different requests are never written alike,
   * so the server reads back exactly the arguments the client passed.
   */
  lemma {:induction false} CommandTextInjective(a: Request, b: Request)
    requires CommandText(a) == CommandText(b)
    ensures a == b
  {
    KindOf(a, b);
    match a
    case Authenticate(m, d) =>
      AuthenticateArguments(m, d, b.mechanism, b.data);
    case SaslString(x) =>
      LiteralInjective(x, CRLF, b.sasl, CRLF, false);
    case HaveSpace(name, size) =>
      LiteralNumber(name, size, b.name, b.size);
    case PutScript(name, script) =>
      TwoLiterals(name, script, b.name, b.script);
    case RenameScript(x, y) =>
      TwoLiterals(x, y, b.oldName, b.newName);
    case SetActive(name) =>
      OneLiteral(name, b.name);
    case GetScript(name) =>
      OneLiteral(name, b.name);
    case DeleteScript(name) =>
      OneLiteral(name, b.name);
    case CheckScript(script) =>
      OneLiteral(script, b.script);
    case _ =>
  }

  /** One literal argument is read back. */
  lemma {:induction false} OneLiteral(a: string, b: string)
    requires " " + (Literal(a, false) + CRLF) == " " + (Literal(b, false) + CRLF)
    ensures a == b
  {
    var s, t := " " + (Literal(a, false) + CRLF), " " + (Literal(b, false) + CRLF);
    assert s[1..] == Literal(a, false) + CRLF;
    assert t[1..] == Literal(b, false) + CRLF;
    LiteralInjective(a, CRLF, b, CRLF, false);
  }

  /** Two literal arguments are read back. */
  lemma {:induction false} TwoLiterals(a: string, x: string, b: string, y: string)
    requires " " + (Literal(a, false) + (" " + (Literal(x, false) + CRLF))) ==
      " " + (Literal(b, false) + (" " + (Literal(y, false) + CRLF)))
    ensures a == b && x == y
  {
    var u, v := " " + (Literal(x, false) + CRLF), " " + (Literal(y, false) + CRLF);
    var s, t := " " + (Literal(a, false) + u), " " + (Literal(b, false) + v);
    assert s[1..] == Literal(a, false) + u;
    assert t[1..] == Literal(b, false) + v;
    LiteralInjective(a, u, b, v, false);
    OneLiteral(x, y);
  }

  /** The HAVESPACE arguments are read back: the name, then the size in decimal. */
  lemma {:induction false} LiteralNumber(a: string, m: u32, b: string, n: u32)
    requires " " + (Literal(a, false) + (" " + (Decimal(m) + CRLF))) ==
      " " + (Literal(b, false) + (" " + (Decimal(n) + CRLF)))
    ensures a == b && m == n
  {
    var x, y := Decimal(m), Decimal(n);
    var u, v := " " + (x + CRLF), " " + (y + CRLF);
    var s, t := " " + (Literal(a, false) + u), " " + (Literal(b, false) + v);
    assert s[1..] == Literal(a, false) + u;
    assert t[1..] == Literal(b, false) + v;
    LiteralInjective(a, u, b, v, false);
    assert u[1..] == x + CRLF && v[1..] == y + CRLF;
    assert x == (x + CRLF)[..|x + CRLF| - 2] && y == (y + CRLF)[..|y + CRLF| - 2];
    DecimalInjective(m, n);
  }

  /** The AUTHENTICATE arguments are read back, and so is whether initial data was sent. */
  lemma {:induction false} AuthenticateArguments(m: string, d: Option<string>, n: string, e: Option<string>)
    requires Arguments(Authenticate(m, d)) == Arguments(Authenticate(n, e))
    ensures m == n && d == e
  {
    var u := if d.Some? then " " + (Literal(d.value, false) + CRLF) else CRLF;
    var v := if e.Some? then " " + (Literal(e.value, false) + CRLF) else CRLF;
    var s, t := Arguments(Authenticate(m, d)), Arguments(Authenticate(n, e));
    assert s == " " + (Literal(m, false) + u);
    assert t == " " + (Literal(n, false) + v);
    assert s[1..] == Literal(m, false) + u;
    assert t[1..] == Literal(n, false) + v;
    LiteralInjective(m, u, n, v, false);
    assert u[0] == v[0];
    if d.Some? {
      OneLiteral(d.value, e.value);
    }
  }
}
