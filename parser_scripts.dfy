/**
 * What the LISTSCRIPTS and GETSCRIPT reply parsers accept: script lines with
 * a legal name and an optional ACTIVE mark, and a script that must be
 * followed by an OK line.
 */
module ParserScripts {
  import opened Wrappers
  import opened Text
  import opened Protocol
  import opened Parser
  import opened ParserStrings
  import opened ParserReplies
  import SieveName

  /** One LISTSCRIPTS line as a server writes it. */
  function ScriptLineText(name: string, active: bool): string {
    Quote(name) + (if active then " ACTIVE" else "") + CRLF
  }

  /** The lines of a LISTSCRIPTS reply before its final OK, NO or BYE line. */
  function ListingText(entries: seq<(SieveName.SieveNameString, bool)>): string {
    if entries == [] then "" else ScriptLineText(entries[0].0, entries[0].1) + ListingText(entries[1..])
  }

  /** A blank and ACTIVE, in any case, mark the active script. */
  lemma {:induction false} ActiveAt(s: string, j: nat, w: string)
    requires j < |s| && s[j] == ' ' && At(s, j + 1, w) && SameCaseless(w, "ACTIVE")
    ensures ActiveMark(s, j) == Success(true, j + 7)
  {
    assert LowerAll(w)[0] == LowerAll("ACTIVE")[0];
    assert s[j + 1 + 0] == w[0];
    OneBlank(s, j);
    CaselessAt(s, j + 1, w, "ACTIVE");
  }

  /** Without a blank there is no mark. */
  lemma {:induction false} NotActive(s: string, j: nat)
    requires j < |s| && !IsBlank(s[j])
    ensures ActiveMark(s, j) == Success(false, j)
  {
    NoBlank(s, j);
  }

  /**
   * A legal name followed by a blank and another word: the blank and the
   * word are not a mark, so CRLF is looked for at the blank and the line fails.
   */
  lemma {:induction false} OtherWord(s: string, i: nat, x: string)
    requires At(s, i, Quote(x)) && !SieveName.IsBadName(x)
    requires i + |Quote(x)| + 1 < |s| && s[i + |Quote(x)|] == ' '
    requires Lower(s[i + |Quote(x)| + 1]) != 'a' && !IsBlank(s[i + |Quote(x)| + 1])
    ensures ActiveMark(s, i + |Quote(x)|) == Success(false, i + |Quote(x)|)
    ensures ScriptLine(s, i) == Failure(false)
  {
    var j := i + |Quote(x)|;
    QuotedAt(s, i, x);
    OneBlank(s, j);
    Differs(s, j + 1, "ACTIVE", 0, true);
    Differs(s, j, CRLF, 0, false);
    assert SieveName.New(x) == Ok(x);
  }

  /** A script line from its legal name, its mark and CRLF. */
  lemma {:induction false} ScriptLineFrom(s: string, i: nat, x: string, e: nat, active: bool, f: nat)
    requires i <= e <= |s| && SieveString(s, i) == Success(x, e) && !SieveName.IsBadName(x)
    requires ActiveMark(s, e) == Success(active, f) && Literal(s, f, CRLF, false) == Success((), f + 2)
    ensures ScriptLine(s, i) == Success((x, active), f + 2)
  {
    assert SieveName.New(x) == Ok(x);
  }

  /** The same, with the name written as a quoted string. */
  lemma {:induction false} ScriptLineParts(s: string, i: nat, x: string, active: bool, f: nat)
    requires At(s, i, Quote(x)) && !SieveName.IsBadName(x)
    requires ActiveMark(s, i + |Quote(x)|) == Success(active, f) && At(s, f, CRLF)
    ensures ScriptLine(s, i) == Success((x, active), f + 2)
  {
    QuotedAt(s, i, x);
    TagAt(s, f, CRLF, false);
    ScriptLineFrom(s, i, x, i + |Quote(x)|, active, f);
  }

  /** A line naming an illegal script is rejected, without a cut. */
  lemma {:induction false} BadNameLine(s: string, i: nat, x: string)
    requires At(s, i, Quote(x)) && SieveName.IsBadName(x)
    ensures ScriptLine(s, i) == Failure(false)
  {
    QuotedAt(s, i, x);
  }

  /**
   * A listing whose first line names an illegal script is an error: the
   * line is not a script line, and a quoted name cannot start the final
   * OK, NO or BYE line either.
   */
  lemma {:induction false} BadNameListing(s: string, i: nat, x: string)
    requires At(s, i, Quote(x)) && SieveName.IsBadName(x)
    ensures ResponseListScripts(s, i) == Failure(false)
  {
    BadNameLine(s, i, x);
    assert s[i + 0] == Quote(x)[0];
    Differs(s, i, "OK", 0, true);
    Differs(s, i, "NO", 0, true);
    Differs(s, i, "BYE", 0, true);
  }

  /** A line that starts with neither a quote nor a literal ends the listing. */
  lemma {:induction false} ListingEnd(s: string, i: nat)
    requires i < |s| && s[i] != '"' && s[i] != '{'
    ensures ScriptLines(s, i) == Success([], i)
  {
    NotString(s, i);
  }

  /** A written script line reads back as its name and mark. */
  lemma {:induction false} ScriptLineAt(s: string, i: nat, x: SieveName.SieveNameString, active: bool)
    requires At(s, i, ScriptLineText(x, active))
    ensures ScriptLine(s, i) == Success((x, active), i + |ScriptLineText(x, active)|)
  {
    var q := Quote(x);
    var mark := if active then " ACTIVE" else "";
    AtAppend(s, i, q + mark, CRLF);
    AtAppend(s, i, q, mark);
    var e := i + |q|;
    assert s[e + |mark| + 0] == CRLF[0];
    if active {
      assert s[e + 0] == mark[0];
      assert mark == " " + "ACTIVE";
      AtAppend(s, e, " ", "ACTIVE");
      ActiveAt(s, e, "ACTIVE");
    } else {
      NotActive(s, e);
    }
    ScriptLineParts(s, i, x, active, e + |mark|);
  }

  /** Script lines are collected in the order they come. */
  lemma {:induction false} ScriptLinesCons(s: string, i: nat, v: (SieveName.SieveNameString, bool), e: nat,
                        vs: seq<(SieveName.SieveNameString, bool)>, f: nat)
    requires i <= |s| && ScriptLine(s, i) == Success(v, e) && ScriptLines(s, e) == Success(vs, f)
    ensures ScriptLines(s, i) == Success([v] + vs, f)
  {
  }

  /** A written listing is its first line followed by the rest. */
  lemma {:induction false} ListingSplit(s: string, i: nat, entries: seq<(SieveName.SieveNameString, bool)>)
    requires entries != [] && At(s, i, ListingText(entries))
    ensures var line := ScriptLineText(entries[0].0, entries[0].1);
      At(s, i, line) && At(s, i + |line|, ListingText(entries[1..]))
      && |ListingText(entries)| == |line| + |ListingText(entries[1..])|
  {
    AtAppend(s, i, ScriptLineText(entries[0].0, entries[0].1), ListingText(entries[1..]));
  }

  /** A written first line and the rest read back make the whole listing read back. */
  lemma {:induction false} ListingStep(s: string, i: nat, v: (SieveName.SieveNameString, bool),
                    vs: seq<(SieveName.SieveNameString, bool)>, f: nat)
    requires At(s, i, ScriptLineText(v.0, v.1))
    requires ScriptLines(s, i + |ScriptLineText(v.0, v.1)|) == Success(vs, f)
    ensures ScriptLines(s, i) == Success([v] + vs, f)
  {
    var e := i + |ScriptLineText(v.0, v.1)|;
    assert ScriptLine(s, i) == Success(v, e) by {
      ScriptLineAt(s, i, v.0, v.1);
      assert (v.0, v.1) == v;
    }
    ScriptLinesCons(s, i, v, e, vs, f);
  }

  /**
   * A written listing followed by a line that starts with neither a quote
   * nor a literal reads back as the same names, marks and order.
   */
  lemma {:induction false} ListingRead(s: string, i: nat, entries: seq<(SieveName.SieveNameString, bool)>)
    requires At(s, i, ListingText(entries))
    requires i + |ListingText(entries)| < |s|
    requires s[i + |ListingText(entries)|] != '"' && s[i + |ListingText(entries)|] != '{'
    ensures ScriptLines(s, i) == Success(entries, i + |ListingText(entries)|)
    decreases |entries|
  {
    if entries == [] {
      ListingEnd(s, i);
    } else {
      ListingSplit(s, i, entries);
      var e := i + |ScriptLineText(entries[0].0, entries[0].1)|;
      ListingRead(s, e, entries[1..]);
      ListingStep(s, i, entries[0], entries[1..], i + |ListingText(entries)|);
      assert [entries[0]] + entries[1..] == entries;
    }
  }

  /** A listing response from its lines and its final line. */
  lemma {:induction false} ListingParts(s: string, i: nat, entries: seq<(SieveName.SieveNameString, bool)>, e: nat,
                     r: Response, f: nat)
    requires i <= e <= |s| && ScriptLines(s, i) == Success(entries, e)
    requires ResponseOkNoBye(s, e) == Success(r, f)
    ensures ResponseListScripts(s, i) == Success((entries, r), f)
  {
  }

  /** A quoted string and CRLF make a string line. */
  lemma {:induction false} StringLineAt(s: string, i: nat, x: string)
    requires At(s, i, Quote(x) + CRLF)
    ensures StringLine(s, i) == Success(x, i + |Quote(x)| + 2)
  {
    AtAppend(s, i, Quote(x), CRLF);
    QuotedAt(s, i, x);
    TagAt(s, i + |Quote(x)|, CRLF, false);
  }

  /** A script line and an OK line make the script alternative. */
  lemma {:induction false} ScriptAndOkParts(s: string, i: nat, x: string, e: nat, r: Response, f: nat)
    requires i <= e <= |s| && StringLine(s, i) == Success(x, e) && ResponseOk(s, e) == Success(r, f)
    ensures ResponseGetScript(s, i) == Success(Left((x, r)), f)
  {
    assert ScriptAndOk(s, i) == Success(Left((x, r)), f);
  }

  /** A script followed by an OK line is the script, whatever the OK line holds. */
  lemma {:induction false} ScriptThenOk(s: string, i: nat, x: string, e: nat, r: Response, f: nat)
    requires At(s, i, Quote(x) + CRLF) && e == i + |Quote(x)| + 2
    requires e <= |s| && ResponseOk(s, e) == Success(r, f)
    ensures ResponseGetScript(s, i) == Success(Left((x, r)), f)
  {
    StringLineAt(s, i, x);
    ScriptAndOkParts(s, i, x, e, r, f);
  }

  /**
   * A script must be followed by OK: followed by any line that does not
   * start with `O`, such as a BYE line, the reply is an error, since a quoted
   * script cannot start a NO or BYE line either.
   */
  lemma {:induction false} ScriptThenOther(s: string, i: nat, x: string)
    requires At(s, i, Quote(x) + CRLF)
    requires i + |Quote(x)| + 2 < |s| && Lower(s[i + |Quote(x)| + 2]) != 'o'
    ensures ResponseGetScript(s, i) == Failure(false)
  {
    var e := i + |Quote(x)| + 2;
    StringLineAt(s, i, x);
    AtAppend(s, i, Quote(x), CRLF);
    Differs(s, e, "OK", 0, true);
    assert s[i + 0] == Quote(x)[0];
    Differs(s, i, "NO", 0, true);
    Differs(s, i, "BYE", 0, true);
  }
}
