/**
 * What the capability-line parser accepts: which known name a line is read
 * as, the values each name takes, the cut that follows a matched name, and
 * unknown names with an optional value.
 */
module ParserCapabilities {
  import opened Wrappers
  import opened Text
  import opened Protocol
  import opened Parser
  import opened ParserStrings
  import opened ParserReplies

  /** A known name whose own tag fails is an uncut failure. */
  lemma {:induction false} KnownFails(s: string, i: nat, k: CapabilityKey)
    requires i <= |s| && Literal(s, i, KeyName(k), true) == Failure(false)
    ensures KnownCapability(s, i, k) == Failure(false)
  {
  }

  /** Known names whose tags all fail are all skipped. */
  lemma {:induction false} SkipKeys(s: string, i: nat, keys: seq<CapabilityKey>, m: nat)
    requires i <= |s| && m <= |keys|
    requires forall j :: 0 <= j < m ==> Literal(s, i, KeyName(keys[j]), true) == Failure(false)
    ensures CapabilityFrom(s, i, keys) == CapabilityFrom(s, i, keys[m..])
    decreases m
  {
    if m > 0 {
      KnownFails(s, i, keys[0]);
      assert keys[1..][m - 1..] == keys[m..];
      SkipKeys(s, i, keys[1..], m - 1);
    }
  }

  /**
   * The position at which the `j`-th and the `m`-th known names differ:
   * the second character, or the third for the names starting with `S`.
   */
  function Apart(j: nat, m: nat): nat {
    if j in {1, 2, 5} && m in {1, 2, 5} then 2 else 1
  }

  /** The second and third letters of the known names, lower-cased, in table order. */
  const Seconds: string := "issmnslvo"
  const Thirds: string := "maiaotaew"

  lemma {:induction false} KeyLetters(m: nat)
    requires m < |CapabilityKeys|
    ensures 2 < |KeyName(CapabilityKeys[m])|
    ensures Lower(KeyName(CapabilityKeys[m])[1]) == Seconds[m]
    ensures Lower(KeyName(CapabilityKeys[m])[2]) == Thirds[m]
  {
  }

  lemma {:induction false} KeysApart(j: nat, m: nat)
    requires j < m < |CapabilityKeys|
    ensures Apart(j, m) < |KeyName(CapabilityKeys[j])| && Apart(j, m) < |KeyName(CapabilityKeys[m])|
    ensures Lower(KeyName(CapabilityKeys[j])[Apart(j, m)]) != Lower(KeyName(CapabilityKeys[m])[Apart(j, m)])
  {
    KeyLetters(j);
    KeyLetters(m);
  }

  /** A word spelling the `m`-th known name makes every earlier name fail. */
  lemma {:induction false} EarlierKeysFail(s: string, i: nat, w: string, m: nat)
    requires m < |CapabilityKeys| && At(s, i, w) && SameCaseless(w, KeyName(CapabilityKeys[m]))
    ensures forall j :: 0 <= j < m ==> Literal(s, i, KeyName(CapabilityKeys[j]), true) == Failure(false)
  {
    forall j | 0 <= j < m ensures Literal(s, i, KeyName(CapabilityKeys[j]), true) == Failure(false) {
      var p := Apart(j, m);
      KeysApart(j, m);
      assert LowerAll(w)[p] == LowerAll(KeyName(CapabilityKeys[m]))[p];
      assert s[i + p] == w[p];
      Differs(s, i, KeyName(CapabilityKeys[j]), p, true);
    }
  }

  /** A word spelling the `m`-th known name is read by that name's alternative first. */
  lemma {:induction false} KeyPlace(s: string, i: nat, w: string, m: nat)
    requires m < |CapabilityKeys| && At(s, i, w) && SameCaseless(w, KeyName(CapabilityKeys[m]))
    ensures CapabilityBody(s, i)
         == Or(KnownCapability(s, i, CapabilityKeys[m]), CapabilityFrom(s, i, CapabilityKeys[m + 1..]))
  {
    EarlierKeysFail(s, i, w, m);
    SkipKeys(s, i, CapabilityKeys, m);
    assert CapabilityKeys[m..][1..] == CapabilityKeys[m + 1..];
  }

  /** A matched name, one blank and a quoted string read as that string. */
  lemma {:induction false} KeyValueAt(s: string, i: nat, w: string, key: string, x: string)
    requires At(s, i, w) && SameCaseless(w, key) && At(s, i + |key|, " " + Quote(x))
    ensures KeyValue(s, i, key) == Success(x, i + |key| + 1 + |Quote(x)|)
  {
    CaselessAt(s, i, w, key);
    StringAhead(s, i + |key|, x);
  }

  /** A matched name not followed by a blank is a cut failure. */
  lemma {:induction false} KeyValueNoBlank(s: string, i: nat, w: string, key: string)
    requires At(s, i, w) && SameCaseless(w, key) && i + |key| < |s| && !IsBlank(s[i + |key|])
    ensures KeyValue(s, i, key) == Failure(true)
  {
    CaselessAt(s, i, w, key);
    NoBlank(s, i + |key|);
  }

  /**
   * The capability a known name announces with the string value `v`, or
   * `None` when the value is not acceptable for that name. `"STARTTLS"`
   * takes no value and `"VERSION"` takes a version rather than a string.
   */
  function Announced(k: CapabilityKey, v: string): Option<Capability> {
    match k
    case ImplementationKey => Some(Implementation(v))
    case SaslKey => Some(Capability.Sasl(if v == "" then [] else Split(v)))
    case SieveKey => Some(Sieve(if v == "" then [] else Split(v)))
    case MaxRedirectsKey => if ParseU64(v).Some? then Some(MaxRedirects(ParseU64(v).value)) else None
    case NotifyKey => if v == "" then None else Some(Notify(Split(v)))
    case StartTlsKey => None
    case LanguageKey => Some(Language(v))
    case VersionKey => None
    case OwnerKey => Some(Owner(v))
  }

  /** The value of a string-valued name decides the whole alternative. */
  lemma {:induction false} KnownValue(s: string, i: nat, k: CapabilityKey, x: string, e: nat)
    requires i <= |s| && k != StartTlsKey && k != VersionKey
    requires KeyValue(s, i, KeyName(k)) == Success(x, e)
    ensures KnownCapability(s, i, k)
         == if Announced(k, x).Some? then Success(Announced(k, x).value, e) else Failure(true)
  {
  }

  /**
   * A line naming a string-valued capability, one blank and a quoted value:
   * the value is read as `Announced` says, and a value it rejects is a cut
   * failure, so no later alternative is tried.
   */
  lemma {:induction false} KeyedCapability(s: string, i: nat, w: string, m: nat, x: string)
    requires m < |CapabilityKeys| && CapabilityKeys[m] != StartTlsKey && CapabilityKeys[m] != VersionKey
    requires At(s, i, w) && SameCaseless(w, KeyName(CapabilityKeys[m]))
    requires At(s, i + |w|, " " + Quote(x))
    ensures var k := CapabilityKeys[m];
      CapabilityBody(s, i)
      == if Announced(k, x).Some? then Success(Announced(k, x).value, i + |w| + 1 + |Quote(x)|)
         else Failure(true)
  {
    var k := CapabilityKeys[m];
    assert |LowerAll(w)| == |LowerAll(KeyName(k))|;
    KeyPlace(s, i, w, m);
    KeyValueAt(s, i, w, KeyName(k), x);
    KnownValue(s, i, k, x, i + |w| + 1 + |Quote(x)|);
  }

  /** A known name other than `"STARTTLS"` with no blank after it is a cut failure. */
  lemma {:induction false} KeyWithoutValue(s: string, i: nat, w: string, m: nat)
    requires m < |CapabilityKeys| && CapabilityKeys[m] != StartTlsKey
    requires At(s, i, w) && SameCaseless(w, KeyName(CapabilityKeys[m]))
    requires i + |w| < |s| && !IsBlank(s[i + |w|])
    ensures CapabilityBody(s, i) == Failure(true)
  {
    var k := CapabilityKeys[m];
    assert |LowerAll(w)| == |LowerAll(KeyName(k))|;
    KeyPlace(s, i, w, m);
    CaselessAt(s, i, w, KeyName(k));
    KeyValueNoBlank(s, i, w, KeyName(k));
    NoBlank(s, i + |w|);
  }

  /** `"STARTTLS"` in any case is the STARTTLS capability, with nothing after it. */
  lemma {:induction false} StartTlsCapability(s: string, i: nat, w: string)
    requires At(s, i, w) && SameCaseless(w, "\"STARTTLS\"")
    ensures CapabilityBody(s, i) == Success(StartTls, i + 10)
  {
    assert KeyName(CapabilityKeys[5]) == "\"STARTTLS\"";
    KeyPlace(s, i, w, 5);
    CaselessAt(s, i, w, "\"STARTTLS\"");
  }

  /** How a server writes a version: `"major.minor"`. */
  function VersionText(v: Version): string {
    "\"" + Decimal(v.major) + "." + Decimal(v.minor) + "\""
  }

  /** A version from its parts: two numbers between quotes, a dot between them. */
  lemma {:induction false} VersionParts(s: string, i: nat, major: u64, e: nat, minor: u64, f: nat)
    requires i < |s| && s[i] == '"'
    requires Parser.Number(s, i + 1) == Success(major, e) && s[e] == '.'
    requires Parser.Number(s, e + 1) == Success(minor, f) && s[f] == '"'
    ensures VersionValue(s, i) == Success(Version.Version(major, minor), f + 1)
  {
    CharTag(s, i, "\"");
    MinorParts(s, major, e, minor, f);
  }

  lemma {:induction false} MinorParts(s: string, major: u64, e: nat, minor: u64, f: nat)
    requires e < |s| && s[e] == '.'
    requires Parser.Number(s, e + 1) == Success(minor, f) && s[f] == '"'
    ensures VersionMinor(s, major, e) == Success(Version.Version(major, minor), f + 1)
  {
    CharTag(s, e, ".");
    CharTag(s, f, "\"");
  }

  /** The pieces of a quoted `a.b` at `i`. */
  lemma {:induction false} VersionPieces(s: string, i: nat, a: string, b: string)
    requires At(s, i, "\"" + a + "." + b + "\"")
    ensures i + 2 + |a| + |b| < |s|
    ensures s[i] == '"' && At(s, i + 1, a) && s[i + 1 + |a|] == '.'
    ensures At(s, i + 2 + |a|, b) && s[i + 2 + |a| + |b|] == '"'
  {
    AtAppend(s, i, "\"" + a + "." + b, "\"");
    AtAppend(s, i, "\"" + a + ".", b);
    AtAppend(s, i, "\"" + a, ".");
    AtAppend(s, i, "\"", a);
    assert s[i + 0] == "\""[0];
    assert s[i + 1 + |a| + 0] == "."[0];
    assert s[i + 2 + |a| + |b| + 0] == "\""[0];
  }

  /** A written version reads back as that version. */
  lemma {:induction false} VersionAt(s: string, i: nat, v: Version)
    requires At(s, i, VersionText(v))
    ensures VersionValue(s, i) == Success(v, i + |VersionText(v)|)
  {
    var a := Decimal(v.major);
    var b := Decimal(v.minor);
    VersionPieces(s, i, a, b);
    NumberAt(s, i + 1, v.major);
    NumberAt(s, i + 2 + |a|, v.minor);
    VersionParts(s, i, v.major, i + 1 + |a|, v.minor, i + 2 + |a| + |b|);
  }

  /** After `"VERSION"` and a blank, the version decides the alternative, with a cut. */
  lemma {:induction false} VersionKeyParts(s: string, i: nat, w: string)
    requires At(s, i, w) && SameCaseless(w, "\"VERSION\"")
    requires i + 10 < |s| && s[i + 9] == ' ' && !IsBlank(s[i + 10])
    ensures CapabilityBody(s, i)
         == Cut(Map(VersionValue(s, i + 10), (v: Version) => Capability.Version(v)))
  {
    assert KeyName(CapabilityKeys[7]) == "\"VERSION\"";
    KeyPlace(s, i, w, 7);
    CaselessAt(s, i, w, "\"VERSION\"");
    OneBlank(s, i + 9);
  }

  /** `"VERSION"`, one blank and a written version is the VERSION capability. */
  lemma {:induction false} VersionCapabilityAt(s: string, i: nat, w: string, v: Version)
    requires At(s, i, w) && SameCaseless(w, "\"VERSION\"")
    requires At(s, i + 9, " " + VersionText(v))
    ensures CapabilityBody(s, i) == Success(Capability.Version(v), i + 10 + |VersionText(v)|)
  {
    AtAppend(s, i + 9, " ", VersionText(v));
    assert s[i + 9 + 0] == " "[0];
    assert s[i + 10 + 0] == VersionText(v)[0];
    VersionKeyParts(s, i, w);
    VersionAt(s, i + 10, v);
  }

  /** `"VERSION"` and a blank followed by anything but a quote is a cut failure. */
  lemma {:induction false} VersionUnquoted(s: string, i: nat, w: string)
    requires At(s, i, w) && SameCaseless(w, "\"VERSION\"")
    requires i + 10 < |s| && s[i + 9] == ' ' && s[i + 10] != '"' && !IsBlank(s[i + 10])
    ensures CapabilityBody(s, i) == Failure(true)
  {
    VersionKeyParts(s, i, w);
    Differs(s, i + 10, "\"", 0, false);
  }

  /** A line that cannot start any known name: a literal, or a quote and another letter. */
  predicate NoKnownStart(s: string, i: nat) {
    i < |s| && (s[i] != '"' || (i + 1 < |s| && Lower(s[i + 1]) !in Seconds))
  }

  /** On such a line every known name fails and the unknown alternative decides. */
  lemma {:induction false} UnknownPlace(s: string, i: nat)
    requires NoKnownStart(s, i)
    ensures CapabilityBody(s, i) == UnknownCapability(s, i)
  {
    forall j | 0 <= j < |CapabilityKeys|
      ensures Literal(s, i, KeyName(CapabilityKeys[j]), true) == Failure(false)
    {
      var t := KeyName(CapabilityKeys[j]);
      KeyLetters(j);
      if s[i] != '"' {
        assert !SameChar(s[i + 0], t[0], true);
        Differs(s, i, t, 0, true);
      } else {
        assert Seconds[j] in Seconds;
        Differs(s, i, t, 1, true);
      }
    }
    SkipKeys(s, i, CapabilityKeys, |CapabilityKeys|);
    assert CapabilityKeys[|CapabilityKeys|..] == [];
  }

  /** An unknown capability from its name and its optional value. */
  lemma {:induction false} UnknownParts(s: string, i: nat, x: string, e: nat, v: Option<string>, f: nat)
    requires i <= e <= |s| && SieveString(s, i) == Success(x, e)
    requires Opt(SpacedString(s, e), e) == Success(v, f)
    ensures UnknownCapability(s, i) == Success(Unknown(x, v), f)
  {
  }

  /** A quoted name, one blank and a quoted value read as an unknown capability. */
  lemma {:induction false} UnknownValueRead(s: string, i: nat, x: string, y: string)
    requires At(s, i, Quote(x)) && At(s, i + |Quote(x)|, " " + Quote(y))
    ensures UnknownCapability(s, i) == Success(Unknown(x, Some(y)), i + |Quote(x)| + 1 + |Quote(y)|)
  {
    var e := i + |Quote(x)|;
    QuotedAt(s, i, x);
    StringAhead(s, e, y);
    UnknownParts(s, i, x, e, Some(y), e + 1 + |Quote(y)|);
  }

  /** An unknown name, one blank and a quoted value is kept with that value. */
  lemma {:induction false} UnknownWithValue(s: string, i: nat, x: string, y: string)
    requires NoKnownStart(s, i) && At(s, i, Quote(x)) && At(s, i + |Quote(x)|, " " + Quote(y))
    ensures CapabilityBody(s, i) == Success(Unknown(x, Some(y)), i + |Quote(x)| + 1 + |Quote(y)|)
  {
    UnknownValueRead(s, i, x, y);
    UnknownPlace(s, i);
  }

  /** A quoted name with no blank after it reads as an unknown capability without a value. */
  lemma {:induction false} UnknownAloneRead(s: string, i: nat, x: string)
    requires At(s, i, Quote(x)) && i + |Quote(x)| < |s| && !IsBlank(s[i + |Quote(x)|])
    ensures UnknownCapability(s, i) == Success(Unknown(x, None), i + |Quote(x)|)
  {
    var e := i + |Quote(x)|;
    QuotedAt(s, i, x);
    NoBlank(s, e);
    UnknownParts(s, i, x, e, None, e);
  }

  /** An unknown name with no blank after it is kept without a value. */
  lemma {:induction false} UnknownAlone(s: string, i: nat, x: string)
    requires NoKnownStart(s, i) && At(s, i, Quote(x))
    requires i + |Quote(x)| < |s| && !IsBlank(s[i + |Quote(x)|])
    ensures CapabilityBody(s, i) == Success(Unknown(x, None), i + |Quote(x)|)
  {
    UnknownAloneRead(s, i, x);
    UnknownPlace(s, i);
  }

  /** A capability and its CRLF make one line. */
  lemma {:induction false} CapabilityLine(s: string, i: nat, c: Capability, e: nat)
    requires i <= |s| && CapabilityBody(s, i) == Success(c, e) && At(s, e, CRLF)
    ensures SingleCapability(s, i) == Success(c, e + 2)
  {
    TagAt(s, e, CRLF, false);
  }

  /** Lines are collected in the order they come. */
  lemma {:induction false} LinesCons(s: string, i: nat, c: Capability, e: nat, cs: seq<Capability>, f: nat)
    requires i <= |s| && SingleCapability(s, i) == Success(c, e)
    requires CapabilityLines(s, e) == Success(cs, f)
    ensures CapabilityLines(s, i) == Success([c] + cs, f)
  {
  }

  /** A line starting with neither a quote nor a literal ends the capability lines. */
  lemma {:induction false} LinesEnd(s: string, i: nat)
    requires i < |s| && s[i] != '"' && s[i] != '{'
    ensures CapabilityLines(s, i) == Success([], i)
  {
    UnknownPlace(s, i);
    NotString(s, i);
  }

  /** A cut failure in any line is an error for the whole capability response. */
  lemma {:induction false} CutLineFails(s: string, i: nat)
    requires i <= |s| && CapabilityBody(s, i) == Failure(true)
    ensures ResponseCapability(s, i) == Failure(true)
  {
  }

  /** `"SASL" ""` announces no mechanisms. */
  lemma {:induction false} SaslEmpty(s: string, i: nat, w: string)
    requires At(s, i, w) && SameCaseless(w, "\"SASL\"") && At(s, i + 6, " \"\"")
    ensures CapabilityBody(s, i) == Success(Capability.Sasl([]), i + 9)
  {
    assert KeyName(CapabilityKeys[1]) == "\"SASL\"";
    assert |LowerAll(w)| == |LowerAll("\"SASL\"")|;
    assert " " + Quote("") == " \"\"";
    KeyedCapability(s, i, w, 1, "");
  }

  /** `"NOTIFY" ""` makes the whole capability response an error. */
  lemma {:induction false} NotifyEmptyFails(s: string, i: nat, w: string)
    requires At(s, i, w) && SameCaseless(w, "\"NOTIFY\"") && At(s, i + 8, " \"\"")
    ensures ResponseCapability(s, i) == Failure(true)
  {
    assert KeyName(CapabilityKeys[4]) == "\"NOTIFY\"";
    assert |LowerAll(w)| == |LowerAll("\"NOTIFY\"")|;
    assert " " + Quote("") == " \"\"";
    KeyedCapability(s, i, w, 4, "");
    CutLineFails(s, i);
  }
}
