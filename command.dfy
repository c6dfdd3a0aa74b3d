/**
 * The command values of the internal API and their text: each command is
 * its verb, its arguments and CRLF, with every script name or script sent
 * as a non-synchronising literal `{n+}` CRLF text (section 4 of RFC 5804),
 * where `n` counts the text's UTF-8 bytes.
 */
module InternalCommand {
  import opened Wrappers
  import opened Text
  import opened SieveName
  import opened Literals

  datatype Command =
    | Authenticate
    | StartTls
    | Logout
    | Capability
    | HaveSpace(name: string, size: u64)
    | PutScript(name: string, script: string)
    | ListScripts
    | SetActive(name: string)
    | DeleteScript(name: string)
    | RenameScript(name: string)
    | CheckScript(name: string)
    | Noop
    | UnAuthenticate

  datatype IllegalScriptName = IllegalScriptName

  /** `to_sieve_name`: the name unchanged, unless one of its characters is forbidden. */
  function ToSieveName(s: string): (r: Result<string, IllegalScriptName>)
    ensures r.Ok? <==> forall k :: 0 <= k < |s| ==> !IsBadChar(s[k])
    ensures r.Ok? ==> r.value == s
  {
    if IsBadName(s) then Err(IllegalScriptName) else Ok(s)
  }

  /** `Command::have_space`. */
  function HaveSpaceCommand(name: string, size: u64): (r: Result<Command, IllegalScriptName>)
    ensures r.Ok? <==> !IsBadName(name)
    ensures r.Ok? ==> r.value == HaveSpace(name, size)
  {
    var n :- ToSieveName(name);
    Ok(HaveSpace(n, size))
  }

  /** `Command::put_script`: only the name is checked, never the script. */
  function PutScriptCommand(name: string, script: string): (r: Result<Command, IllegalScriptName>)
    ensures r.Ok? <==> !IsBadName(name)
    ensures r.Ok? ==> r.value == PutScript(name, script)
  {
    var n :- ToSieveName(name);
    Ok(PutScript(n, script))
  }

  /** `Command::set_active`. */
  function SetActiveCommand(name: string): (r: Result<Command, IllegalScriptName>)
    ensures r.Ok? <==> !IsBadName(name)
    ensures r.Ok? ==> r.value == SetActive(name)
  {
    var n :- ToSieveName(name);
    Ok(SetActive(n))
  }

  /** `Command::deletescript`. */
  function DeleteScriptCommand(name: string): (r: Result<Command, IllegalScriptName>)
    ensures r.Ok? <==> !IsBadName(name)
    ensures r.Ok? ==> r.value == DeleteScript(name)
  {
    var n :- ToSieveName(name);
    Ok(DeleteScript(n))
  }

  /** `Command::renamescript`. */
  function RenameScriptCommand(name: string): (r: Result<Command, IllegalScriptName>)
    ensures r.Ok? <==> !IsBadName(name)
    ensures r.Ok? ==> r.value == RenameScript(name)
  {
    var n :- ToSieveName(name);
    Ok(RenameScript(n))
  }

  /** `Command::checkscript`. */
  function CheckScriptCommand(name: string): (r: Result<Command, IllegalScriptName>)
    ensures r.Ok? <==> !IsBadName(name)
    ensures r.Ok? ==> r.value == CheckScript(name)
  {
    var n :- ToSieveName(name);
    Ok(CheckScript(n))
  }

  /** `to_lit_c2s`: the head with the text's byte length and `+`, then the text. */
  function LitC2s(s: string): string {
    Literal(s, true)
  }

  /** The verbs, one per kind of command, in declaration order. */
  const Verbs: seq<string> := [
    "AUTHENTICATE", "STARTTLS", "LOGOUT", "CAPABILITY", "HAVESPACE", "PUTSCRIPT", "LISTSCRIPTS",
    "SETACTIVE", "DELETESCRIPT", "RENAMESCRIPT", "CHECKSCRIPT", "NOOP", "UNAUTHENTICATE"]

  function Kind(c: Command): (k: nat)
    ensures k < |Verbs|
  {
    match c
    case Authenticate => 0
    case StartTls => 1
    case Logout => 2
    case Capability => 3
    case HaveSpace(_, _) => 4
    case PutScript(_, _) => 5
    case ListScripts => 6
    case SetActive(_) => 7
    case DeleteScript(_) => 8
    case RenameScript(_) => 9
    case CheckScript(_) => 10
    case Noop => 11
    case UnAuthenticate => 12
  }

  /** What follows the verb: each argument after a blank, then CRLF. */
  function Arguments(c: Command): (a: string)
    ensures 0 < |a| && (a[0] == ' ' || a[0] == '\r')
  {
    match c
    case HaveSpace(name, size) => " " + (LitC2s(name) + (" " + (Decimal(size) + CRLF)))
    case PutScript(name, script) => " " + (LitC2s(name) + (" " + (LitC2s(script) + CRLF)))
    case SetActive(name) => " " + (LitC2s(name) + CRLF)
    case DeleteScript(name) => " " + (LitC2s(name) + CRLF)
    case RenameScript(name) => " " + (LitC2s(name) + CRLF)
    case CheckScript(name) => " " + (LitC2s(name) + CRLF)
    case _ => CRLF
  }

  /** `Display for Command`. */
  function Render(c: Command): string {
    Verbs[Kind(c)] + Arguments(c)
  }

  /** No two verbs are the same. */
  lemma {:induction false} VerbsDistinct(i: nat, j: nat)
    requires i < j < |Verbs|
    ensures Verbs[i] != Verbs[j]
  {
  }

  /** Verbs are capital letters only. */
  lemma {:induction false} VerbsUpper(i: nat)
    requires i < |Verbs|
    ensures forall k :: 0 <= k < |Verbs[i]| ==> IsUpper(Verbs[i][k])
  {
  }

  /** A literal is read back unambiguously, whatever follows it. */
  lemma {:induction false} LitInjective(a: string, x: string, b: string, y: string)
    requires LitC2s(a) + x == LitC2s(b) + y
    ensures a == b && x == y
  {
    LiteralInjective(a, x, b, y, true);
  }

  /** Two texts with different verbs differ. */
  lemma {:induction false} VerbOf(c: Command, d: Command)
    requires Render(c) == Render(d)
    ensures Kind(c) == Kind(d)
  {
    VerbsUpper(Kind(c));
    VerbsUpper(Kind(d));
    WordSplit(Verbs[Kind(c)], Arguments(c), Verbs[Kind(d)], Arguments(d));
    if Kind(c) < Kind(d) {
      VerbsDistinct(Kind(c), Kind(d));
    } else if Kind(d) < Kind(c) {
      VerbsDistinct(Kind(d), Kind(c));
    }
  }

  /** A command's text names it: different commands never render alike. */
  lemma {:induction false} RenderInjective(c: Command, d: Command)
    requires Render(c) == Render(d)
    ensures c == d
  {
    VerbOf(c, d);
    var v := Verbs[Kind(c)];
    assert Arguments(c) == Arguments(d) by {
      assert Arguments(c) == (v + Arguments(c))[|v|..];
      assert Arguments(d) == (v + Arguments(d))[|v|..];
    }
    match c
    case HaveSpace(name, size) =>
      HaveSpaceArguments(name, size, d.name, d.size, Arguments(c), Arguments(d));
    case PutScript(name, script) =>
      PutScriptArguments(name, script, d.name, d.script, Arguments(c), Arguments(d));
    case SetActive(name) =>
      OneName(name, d.name, Arguments(c), Arguments(d));
    case DeleteScript(name) =>
      OneName(name, d.name, Arguments(c), Arguments(d));
    case RenameScript(name) =>
      OneName(name, d.name, Arguments(c), Arguments(d));
    case CheckScript(name) =>
      OneName(name, d.name, Arguments(c), Arguments(d));
    case _ =>
  }

  /** The arguments of HAVESPACE name the script and the size. */
  lemma {:induction false} HaveSpaceArguments(a: string, m: u64, b: string, n: u64, s: string, t: string)
    requires s == " " + (LitC2s(a) + (" " + (Decimal(m) + CRLF)))
    requires t == " " + (LitC2s(b) + (" " + (Decimal(n) + CRLF)))
    requires s == t
    ensures a == b && m == n
  {
    assert s[1..] == LitC2s(a) + (" " + (Decimal(m) + CRLF));
    assert t[1..] == LitC2s(b) + (" " + (Decimal(n) + CRLF));
    LitInjective(a, " " + (Decimal(m) + CRLF), b, " " + (Decimal(n) + CRLF));
    var x, y := Decimal(m), Decimal(n);
    assert (" " + (x + CRLF))[1..] == x + CRLF;
    assert (" " + (y + CRLF))[1..] == y + CRLF;
    assert x + CRLF == y + CRLF;
    assert x == (x + CRLF)[..|x + CRLF| - 2] && y == (y + CRLF)[..|y + CRLF| - 2];
    DecimalInjective(m, n);
  }

  /** The arguments of PUTSCRIPT name the script and give its text. */
  lemma {:induction false} PutScriptArguments(a: string, x: string, b: string, y: string, s: string, t: string)
    requires s == " " + (LitC2s(a) + (" " + (LitC2s(x) + CRLF)))
    requires t == " " + (LitC2s(b) + (" " + (LitC2s(y) + CRLF)))
    requires s == t
    ensures a == b && x == y
  {
    assert s[1..] == LitC2s(a) + (" " + (LitC2s(x) + CRLF));
    assert t[1..] == LitC2s(b) + (" " + (LitC2s(y) + CRLF));
    LitInjective(a, " " + (LitC2s(x) + CRLF), b, " " + (LitC2s(y) + CRLF));
    assert (" " + (LitC2s(x) + CRLF))[1..] == LitC2s(x) + CRLF;
    assert (" " + (LitC2s(y) + CRLF))[1..] == LitC2s(y) + CRLF;
    LitInjective(x, CRLF, y, CRLF);
  }

  /** One literal argument names the script. */
  lemma {:induction false} OneName(a: string, b: string, s: string, t: string)
    requires s == " " + (LitC2s(a) + CRLF) && t == " " + (LitC2s(b) + CRLF) && s == t
    ensures a == b
  {
    assert s[1..] == LitC2s(a) + CRLF;
    assert t[1..] == LitC2s(b) + CRLF;
    LitInjective(a, CRLF, b, CRLF);
  }
}
