/**
 * What the reply-line parsers accept: the OK/NO/BYE tag, the optional
 * response code and human-readable string, and the code table.
 */
module ParserReplies {
  import opened Wrappers
  import opened Text
  import opened Protocol
  import opened Parser
  import opened ParserStrings

  /** A reply tag as the server writes it. */
  function TagName(t: Tag): string {
    match t
    case OK => "OK"
    case NO => "NO"
    case BYE => "BYE"
  }

  /** The human-readable part of a reply line as the server writes it. */
  function HumanText(h: Option<string>): string {
    if h.Some? then " " + Quote(h.value) else ""
  }

  /** A tag that disagrees with the text at one position does not match. */
  lemma {:induction false} Differs(s: string, j: nat, t: string, k: nat, caseless: bool)
    requires j + k < |s| && k < |t| && !SameChar(s[j + k], t[k], caseless)
    ensures Literal(s, j, t, caseless) == Failure(false)
  {
  }

  /** A word that equals a tag up to ASCII case matches it caselessly. */
  lemma {:induction false} CaselessAt(s: string, i: nat, w: string, t: string)
    requires At(s, i, w) && SameCaseless(w, t)
    ensures Literal(s, i, t, true) == Success((), i + |t|)
  {
    assert |LowerAll(w)| == |LowerAll(t)|;
    forall k | 0 <= k < |t| ensures SameChar(s[i + k], t[k], true) {
      assert s[i + k] == w[k];
      assert LowerAll(w)[k] == LowerAll(t)[k];
    }
  }

  /** The reply-tag alternatives on a word that spells `tag` in any case. */
  lemma {:induction false} TagWords(s: string, w: string, tag: Tag)
    requires At(s, 0, w) && SameCaseless(w, TagName(tag))
    ensures TagWord(s, 0, "OK", OK) == (if tag == OK then Success(OK, |w|) else Failure(false))
    ensures Or(TagWord(s, 0, "NO", NO), TagWord(s, 0, "BYE", BYE))
         == (if tag == OK then Failure(false) else Success(tag, |w|))
  {
    var t := TagName(tag);
    CaselessAt(s, 0, w, t);
    assert LowerAll(w)[0] == LowerAll(t)[0];
    assert s[0 + 0] == w[0];
    assert Lower(s[0]) == Lower(t[0]);
    if tag != OK {
      Differs(s, 0, "OK", 0, true);
    }
    if tag != NO {
      Differs(s, 0, "NO", 0, true);
    }
    if tag != BYE {
      Differs(s, 0, "BYE", 0, true);
    }
  }

  /** A blank and a quoted string give that string as the human part. */
  lemma {:induction false} StringAhead(s: string, i: nat, x: string)
    requires At(s, i, " " + Quote(x))
    ensures Opt(SpacedString(s, i), i) == Success(Some(x), i + 1 + |Quote(x)|)
  {
    var q := Quote(x);
    AtAppend(s, i, " ", q);
    assert s[i + 0] == " "[0];
    assert s[i + 1 + 0] == q[0];
    OneBlank(s, i);
    QuotedAt(s, i + 1, x);
  }

  /** Without a blank there is no human part. */
  lemma {:induction false} NoStringAhead(s: string, i: nat)
    requires i < |s| && !IsBlank(s[i])
    ensures Opt(SpacedString(s, i), i) == Success(None, i)
  {
    NoBlank(s, i);
  }

  /** A human-readable part in front of CRLF reads back as written. */
  lemma {:induction false} HumanAt(s: string, i: nat, h: Option<string>)
    requires At(s, i, HumanText(h) + CRLF)
    ensures Opt(SpacedString(s, i), i) == Success(h, i + |HumanText(h)|)
    ensures Literal(s, i + |HumanText(h)|, CRLF, false) == Success((), i + |HumanText(h)| + 2)
  {
    AtAppend(s, i, HumanText(h), CRLF);
    TagAt(s, i + |HumanText(h)|, CRLF, false);
    if h.Some? {
      StringAhead(s, i, h.value);
    } else {
      assert s[i + 0] == CRLF[0];
      NoStringAhead(s, i);
    }
  }

  /** A reply line's tail from the results of its three parts. */
  lemma {:induction false} TailParts(s: string, i: nat, code: Option<ResponseCode>, j: nat, h: Option<string>, k: nat)
    requires i <= j <= k <= |s|
    requires Opt(SpacedCode(s, i), i) == Success(code, j)
    requires Opt(SpacedString(s, j), j) == Success(h, k)
    requires Literal(s, k, CRLF, false) == Success((), k + 2)
    ensures ResponseTail(s, i) == Success(ResponseInfo(code, h), k + 2)
  {
  }

  /** A response code must open with `(`. */
  lemma {:induction false} CodeNeedsParen(s: string, j: nat)
    requires j < |s| && s[j] != '('
    ensures Code(s, j) == Failure(false)
  {
    Differs(s, j, "(", 0, false);
  }

  /** Neither CRLF nor a blank before a string opens a response code. */
  lemma {:induction false} NoCodeAhead(s: string, i: nat)
    requires i + 1 < |s| && (s[i] == '\r' || (s[i] == ' ' && s[i + 1] == '"'))
    ensures Opt(SpacedCode(s, i), i) == Success(None, i)
  {
    if s[i] == ' ' {
      OneBlank(s, i);
      CodeNeedsParen(s, i + 1);
    } else {
      NoBlank(s, i);
    }
  }

  /** A blank and a code that reads as `c` up to `e` give that code. */
  lemma {:induction false} CodeAhead(s: string, i: nat, c: ResponseCode, e: nat)
    requires i + 1 < |s| && s[i] == ' ' && s[i + 1] == '('
    requires Code(s, i + 1) == Success(c, e)
    ensures i + 1 < e && Opt(SpacedCode(s, i), i) == Success(Some(c), e)
  {
    OneBlank(s, i);
  }

  /** A reply line's tail without a code: the human part, then CRLF. */
  lemma {:induction false} TailHuman(s: string, i: nat, h: Option<string>)
    requires At(s, i, HumanText(h) + CRLF)
    ensures ResponseTail(s, i) == Success(ResponseInfo(None, h), i + |HumanText(h)| + 2)
  {
    HumanNoCode(s, i, h);
    HumanLine(s, i, h);
    NoCodeThenHuman(s, i, h, i + |HumanText(h)|);
  }

  /** No code, then the human part up to `k` and CRLF, make the tail. */
  lemma {:induction false} NoCodeThenHuman(s: string, i: nat, h: Option<string>, k: nat)
    requires i <= k && k + 2 <= |s|
    requires Opt(SpacedCode(s, i), i) == Success(None, i)
    requires Opt(SpacedString(s, i), i) == Success(h, k)
    requires Literal(s, k, CRLF, false) == Success((), k + 2)
    ensures ResponseTail(s, i) == Success(ResponseInfo(None, h), k + 2)
  {
    TailParts(s, i, None, i, h, k);
  }

  /** What follows a tag directly, the human part or CRLF, is not a code. */
  lemma {:induction false} HumanNoCode(s: string, i: nat, h: Option<string>)
    requires At(s, i, HumanText(h) + CRLF)
    ensures Opt(SpacedCode(s, i), i) == Success(None, i)
  {
    AtAppend(s, i, HumanText(h), CRLF);
    if h.Some? {
      var q := Quote(h.value);
      AtAppend(s, i, " ", q);
      assert s[i + 0] == " "[0];
      assert s[i + 1 + 0] == q[0];
    } else {
      assert s[i + 0] == CRLF[0];
      assert s[i + 1] == CRLF[1];
    }
    NoCodeAhead(s, i);
  }

  /** A reply line's tail with a code that reads as `c` up to `e`. */
  lemma {:induction false} TailCode(s: string, i: nat, c: ResponseCode, e: nat, h: Option<string>)
    requires i + 1 < |s| && s[i] == ' ' && s[i + 1] == '('
    requires Code(s, i + 1) == Success(c, e) && At(s, e, HumanText(h) + CRLF)
    ensures ResponseTail(s, i) == Success(ResponseInfo(Some(c), h), e + |HumanText(h)| + 2)
  {
    HumanLine(s, e, h);
    CodeThenHuman(s, i, c, e, h, e + |HumanText(h)|);
  }

  /** A code read up to `e`, then the human part up to `k` and CRLF, make the tail. */
  lemma {:induction false} CodeThenHuman(s: string, i: nat, c: ResponseCode, e: nat, h: Option<string>, k: nat)
    requires i + 1 < |s| && s[i] == ' ' && s[i + 1] == '('
    requires Code(s, i + 1) == Success(c, e) && e <= k && k + 2 <= |s|
    requires Opt(SpacedString(s, e), e) == Success(h, k)
    requires Literal(s, k, CRLF, false) == Success((), k + 2)
    ensures ResponseTail(s, i) == Success(ResponseInfo(Some(c), h), k + 2)
  {
    CodeAhead(s, i, c, e);
    TailParts(s, i, Some(c), e, h, k);
  }

  /** The human part and CRLF written at `i` read back, and end inside the input. */
  lemma {:induction false} HumanLine(s: string, i: nat, h: Option<string>)
    requires At(s, i, HumanText(h) + CRLF)
    ensures i + |HumanText(h)| + 2 <= |s|
    ensures Opt(SpacedString(s, i), i) == Success(h, i + |HumanText(h)|)
    ensures Literal(s, i + |HumanText(h)|, CRLF, false) == Success((), i + |HumanText(h)| + 2)
  {
    HumanAt(s, i, h);
  }

  /** A sieve-string opens with `{` or `"`. */
  lemma {:induction false} NotString(s: string, j: nat)
    requires j < |s| && s[j] != '{' && s[j] != '"'
    ensures SieveString(s, j) == Failure(false)
  {
    Differs(s, j, "{", 0, false);
    Differs(s, j, "\"\"", 0, false);
    Differs(s, j, "\"", 0, false);
  }

  /** A code that fails is not skipped: the line cannot end there either. */
  lemma {:induction false} TailBadCode(s: string, i: nat)
    requires i + 1 < |s| && s[i] == ' ' && s[i + 1] == '('
    requires Code(s, i + 1) == Failure(false)
    ensures ResponseTail(s, i) == Failure(false)
  {
    OneBlank(s, i);
    assert Opt(SpacedCode(s, i), i) == Success(None, i);
    NotString(s, i + 1);
    assert Opt(SpacedString(s, i), i) == Success(None, i);
    Differs(s, i, CRLF, 0, false);
  }

  /** A reply line is its tag followed by its tail. */
  lemma {:induction false} ReplyParts(s: string, w: string, tag: Tag, info: ResponseInfo, k: nat)
    requires At(s, 0, w) && SameCaseless(w, TagName(tag))
    requires ResponseTail(s, |w|) == Success(info, k)
    ensures ResponseOkNoBye(s, 0) == Success(Response(tag, info), k)
  {
    TagWords(s, w, tag);
  }

  /** A tail that fails makes the whole reply line fail. */
  lemma {:induction false} ReplyPartsFail(s: string, w: string, tag: Tag)
    requires At(s, 0, w) && SameCaseless(w, TagName(tag))
    requires ResponseTail(s, |w|) == Failure(false)
    ensures ResponseOkNoBye(s, 0) == Failure(false)
  {
    TagWords(s, w, tag);
  }

  /**
   * A reply line without a code: the tag in any case, an optional quoted
   * human-readable string after a space, and CRLF, reads back as written.
   */
  lemma {:induction false} ReplyRoundTrip(w: string, tag: Tag, h: Option<string>, rest: string)
    requires SameCaseless(w, TagName(tag))
    ensures var line := w + HumanText(h) + CRLF;
      ResponseOkNoBye(line + rest, 0) == Success(Response(tag, ResponseInfo(None, h)), |line|)
  {
    var line := w + HumanText(h) + CRLF;
    var s := line + rest;
    assert At(s, 0, w) && At(s, |w|, HumanText(h) + CRLF) by {
      AtFront(line, rest);
      assert line == w + (HumanText(h) + CRLF);
      AtAppend(s, 0, w, HumanText(h) + CRLF);
    }
    TailHuman(s, |w|, h);
    ReplyParts(s, w, tag, ResponseInfo(None, h), |line|);
  }

  /** A reply line with a code that reads as `c`, as in `ok (QUOTA) "hello"`. */
  lemma {:induction false} ReplyWithCode(s: string, w: string, tag: Tag, c: ResponseCode, e: nat, h: Option<string>)
    requires At(s, 0, w) && SameCaseless(w, TagName(tag))
    requires |w| + 1 < |s| && s[|w|] == ' ' && s[|w| + 1] == '('
    requires Code(s, |w| + 1) == Success(c, e) && At(s, e, HumanText(h) + CRLF)
    ensures ResponseOkNoBye(s, 0) == Success(Response(tag, ResponseInfo(Some(c), h)), e + |HumanText(h)| + 2)
  {
    TailCode(s, |w|, c, e, h);
    ReplyParts(s, w, tag, ResponseInfo(Some(c), h), e + |HumanText(h)| + 2);
  }

  /** A code that fails makes the whole reply line fail, as in `ok (QUOTA/)`. */
  lemma {:induction false} ReplyWithBadCode(s: string, w: string, tag: Tag)
    requires At(s, 0, w) && SameCaseless(w, TagName(tag))
    requires |w| + 1 < |s| && s[|w|] == ' ' && s[|w| + 1] == '('
    requires Code(s, |w| + 1) == Failure(false)
    ensures ResponseOkNoBye(s, 0) == Failure(false)
  {
    TailBadCode(s, |w|);
    ReplyPartsFail(s, w, tag);
  }

  /** A tag with nothing after it yet asks for more input, as `ok` does. */
  lemma {:induction false} TagOnlyIncomplete(w: string, tag: Tag)
    requires SameCaseless(w, TagName(tag))
    ensures ResponseOkNoBye(w, 0) == Incomplete
  {
    AtFront(w, "");
    assert w + "" == w;
    TagWords(w, w, tag);
  }

  /** A reply line must start with its tag: a leading blank, as in ` ok`, is an error. */
  lemma {:induction false} ReplyBadStart(s: string)
    requires 0 < |s| && Lower(s[0]) != 'o' && Lower(s[0]) != 'n' && Lower(s[0]) != 'b'
    ensures ResponseOkNoBye(s, 0) == Failure(false)
  {
    Differs(s, 0, "OK", 0, true);
    Differs(s, 0, "NO", 0, true);
    Differs(s, 0, "BYE", 0, true);
  }

  /** A response code from the result of its body and the closing parenthesis. */
  lemma {:induction false} CodeParts(s: string, i: nat, c: ResponseCode, e: nat)
    requires i < |s| && s[i] == '('
    requires CodeBody(s, i + 1) == Success(c, e) && e < |s| && s[e] == ')'
    ensures Code(s, i) == Success(c, e + 1)
  {
    assert s[i + 0] == "("[0];
    assert s[e + 0] == ")"[0];
  }

  /** No code name starts with the character at `j`. */
  predicate NoCodeStarts(c: char) {
    var l := Lower(c);
    l != 'a' && l != 'e' && l != 'q' && l != 's' && l != 'r' && l != 't' && l != 'n' && l != 'w'
  }

  /** A named code that fails without a cut hands over to the next one. */
  lemma {:induction false} SkipName(s: string, j: nat, names: seq<CodeName>)
    requires j <= |s| && names != [] && NamedCode(s, j, names[0]) == Failure(false)
    ensures CodeFrom(s, j, names) == CodeFrom(s, j, names[1..])
  {
  }

  /** A named code whose first letter is not the one at `j` fails there. */
  predicate Unlike(c: char, n: CodeName) {
    0 < |n.name| && Lower(c) != Lower(n.name[0])
  }

  /** Named codes that all start with other letters are all skipped. */
  lemma {:induction false} SkipUnlike(s: string, j: nat, names: seq<CodeName>)
    requires j < |s| && forall n :: n in names ==> Unlike(s[j], n)
    ensures CodeFrom(s, j, names) == ExtensionCode(s, j)
    decreases |names|
  {
    if names != [] {
      var n := names[0];
      assert n in names;
      Differs(s, j, n.name, 0, true);
      SkipName(s, j, names);
      assert forall m :: m in names[1..] ==> m in names;
      SkipUnlike(s, j, names[1..]);
    }
  }

  /** Every named alternative of the code table fails on such a character. */
  lemma {:induction false} NamedCodesFail(s: string, j: nat)
    requires j < |s| && NoCodeStarts(s[j])
    ensures CodeBody(s, j) == ExtensionCode(s, j)
  {
    SkipUnlike(s, j, CodeNames);
  }

  /** An extension-code name followed by neither a blank nor data has no data. */
  lemma {:induction false} ExtensionNoData(s: string, j: nat, name: string)
    requires At(s, j, Quote(name)) && j + |Quote(name)| < |s| && !IsBlank(s[j + |Quote(name)|])
    ensures ExtensionCode(s, j) == Success(Extension(name, None), j + |Quote(name)|)
  {
    QuotedAt(s, j, name);
    NoBlank(s, j + |Quote(name)|);
  }

  /**
   * An unknown code whose name is a quoted string is kept as an extension
   * code without data.
   */
  lemma {:induction false} UnknownQuotedCode(s: string, i: nat, name: string)
    requires At(s, i, "(" + Quote(name) + ")")
    ensures Code(s, i) == Success(Extension(name, None), i + |Quote(name)| + 2)
  {
    var q := Quote(name);
    AtAppend(s, i, "(" + q, ")");
    AtAppend(s, i, "(", q);
    assert s[i + 0] == "("[0];
    assert s[i + 1 + 0] == q[0];
    var e := i + 1 + |q|;
    assert s[e + 0] == ")"[0];
    NamedCodesFail(s, i + 1);
    ExtensionNoData(s, i + 1, name);
    CodeParts(s, i, Extension(name, None), e);
  }

  /** A quoted string is an extension item. */
  lemma {:induction false} StringItem(s: string, j: nat, x: string)
    requires At(s, j, Quote(x))
    ensures Parser.ExtensionItem(s, j) == Success(Protocol.ExtensionItem.String(x), j + |Quote(x)|)
  {
    QuotedAt(s, j, x);
  }

  /** A decimal number followed by a non-digit is read as a number item. */
  lemma {:induction false} NumberItem(s: string, j: nat, n: u64)
    requires At(s, j, Decimal(n))
    requires j + |Decimal(n)| < |s| && !IsDigit(s[j + |Decimal(n)|])
    ensures Parser.ExtensionItem(s, j) == Success(Protocol.ExtensionItem.Number(n), j + |Decimal(n)|)
  {
    assert s[j + 0] == Decimal(n)[0];
    NotString(s, j);
    NumberAt(s, j, n);
  }

  /** A string in parentheses is read as a nested list holding that one item. */
  lemma {:induction false} NestedItem(s: string, j: nat, x: string)
    requires At(s, j, "(" + Quote(x) + ")")
    ensures Parser.ExtensionItem(s, j) == Success(
      Protocol.ExtensionItem.ExtensionData([Protocol.ExtensionItem.String(x)]), j + |Quote(x)| + 2)
  {
    var q := Quote(x);
    var e := j + 1 + |q|;
    AtAppend(s, j, "(" + q, ")");
    AtAppend(s, j, "(", q);
    assert s[j + 0] == "("[0];
    assert s[e + 0] == ")"[0];
    NotString(s, j);
    assert Digit1(s, j) == Failure(false);
    CharTag(s, j, "(");
    StringItem(s, j + 1, x);
    NoMoreItems(s, e);
    assert Parser.ExtensionData(s, j + 1) == Success([Protocol.ExtensionItem.String(x)] + [], e);
    assert [Protocol.ExtensionItem.String(x)] + [] == [Protocol.ExtensionItem.String(x)];
    CharTag(s, e, ")");
  }

  /** A list of extension items ends where no blank follows. */
  lemma {:induction false} NoMoreItems(s: string, j: nat)
    requires j < |s| && !IsBlank(s[j])
    ensures MoreItems(s, j) == Success([], j)
  {
    NoBlank(s, j);
  }

  /** A blank and one quoted string, then no blank: data of one item. */
  lemma {:induction false} OneStringData(s: string, e: nat, x: string)
    requires At(s, e, " " + Quote(x))
    requires e + 1 + |Quote(x)| < |s| && !IsBlank(s[e + 1 + |Quote(x)|])
    ensures Opt(SpacedData(s, e), e) == Success(Some([Protocol.ExtensionItem.String(x)]), e + 1 + |Quote(x)|)
  {
    var q := Quote(x);
    AtAppend(s, e, " ", q);
    assert s[e + 0] == " "[0];
    assert s[e + 1 + 0] == q[0];
    OneBlank(s, e);
    StringItem(s, e + 1, x);
    NoMoreItems(s, e + 1 + |q|);
    assert Parser.ExtensionData(s, e + 1) == Success([Protocol.ExtensionItem.String(x)] + [], e + 1 + |q|);
    assert [Protocol.ExtensionItem.String(x)] + [] == [Protocol.ExtensionItem.String(x)];
  }

  /** An extension-code name with one string of data after a blank. */
  lemma {:induction false} ExtensionOneString(s: string, j: nat, name: string, x: string)
    requires At(s, j, Quote(name) + " " + Quote(x))
    requires j + |Quote(name)| + 1 + |Quote(x)| < |s| && !IsBlank(s[j + |Quote(name)| + 1 + |Quote(x)|])
    ensures ExtensionCode(s, j) == Success(
      Extension(name, Some([Protocol.ExtensionItem.String(x)])),
      j + |Quote(name)| + 1 + |Quote(x)|)
  {
    NameThenString(s, j, name, x);
    ExtensionParts(s, j, name, j + |Quote(name)|, Some([Protocol.ExtensionItem.String(x)]), j + |Quote(name)| + 1 + |Quote(x)|);
  }

  /** The name and the one string of data after it, each read on its own. */
  lemma {:induction false} NameThenString(s: string, j: nat, name: string, x: string)
    requires At(s, j, Quote(name) + " " + Quote(x))
    requires j + |Quote(name)| + 1 + |Quote(x)| < |s| && !IsBlank(s[j + |Quote(name)| + 1 + |Quote(x)|])
    ensures SieveString(s, j) == Success(name, j + |Quote(name)|)
    ensures Opt(SpacedData(s, j + |Quote(name)|), j + |Quote(name)|)
      == Success(Some([Protocol.ExtensionItem.String(x)]), j + |Quote(name)| + 1 + |Quote(x)|)
  {
    SpacedPair(s, j, Quote(name), Quote(x));
    QuotedAt(s, j, name);
    OneStringData(s, j + |Quote(name)|, x);
  }

  /** Two texts with a blank between them, written at `j`: the first, then the blank and the second. */
  lemma {:induction false} SpacedPair(s: string, j: nat, a: string, b: string)
    requires At(s, j, a + " " + b)
    ensures At(s, j, a) && At(s, j + |a|, " " + b)
  {
    assert a + " " + b == a + (" " + b);
    AtAppend(s, j, a, " " + b);
  }

  /** An extension code is its name and then its optional data. */
  lemma {:induction false} ExtensionParts(s: string, j: nat, name: string, k: nat,
                                          data: Option<seq<Protocol.ExtensionItem>>, m: nat)
    requires j <= k <= |s|
    requires SieveString(s, j) == Success(name, k)
    requires Opt(SpacedData(s, k), k) == Success(data, m)
    ensures ExtensionCode(s, j) == Success(Extension(name, data), m)
  {
  }

  /**
   * An unknown code with one string of extension data after a blank keeps
   * that data as a list of one item.
   */
  lemma {:induction false} UnknownCodeWithData(s: string, i: nat, name: string, x: string)
    requires At(s, i, "(" + Quote(name) + " " + Quote(x) + ")")
    ensures Code(s, i) == Success(
      Extension(name, Some([Protocol.ExtensionItem.String(x)])),
      i + |Quote(name)| + |Quote(x)| + 3)
  {
    var q := Quote(name);
    var qx := Quote(x);
    var e := i + 1 + |q| + 1 + |qx|;
    assert At(s, i + 1, q + " " + qx) && s[i] == '(' && e < |s| && s[e] == ')' by {
      AtAppend(s, i, "(" + q + " " + qx, ")");
      assert "(" + q + " " + qx == "(" + (q + " " + qx);
      AtAppend(s, i, "(", q + " " + qx);
      assert s[i + 0] == "("[0];
      assert s[e + 0] == ")"[0];
    }
    DataCodeParts(s, i, name, x);
  }

  /** The same, from the quoted name and data between the parentheses. */
  lemma {:induction false} DataCodeParts(s: string, i: nat, name: string, x: string)
    requires At(s, i + 1, Quote(name) + " " + Quote(x)) && s[i] == '('
    requires i + |Quote(name)| + |Quote(x)| + 2 < |s| && s[i + |Quote(name)| + |Quote(x)| + 2] == ')'
    ensures Code(s, i) == Success(
      Extension(name, Some([Protocol.ExtensionItem.String(x)])),
      i + |Quote(name)| + |Quote(x)| + 3)
  {
    assert Quote(name) + " " + Quote(x) == Quote(name) + (" " + Quote(x));
    QuoteFirst(s, i + 1, name, " " + Quote(x));
    DataCodeBody(s, i + 1, name, x);
    CodeParts(s, i, Extension(name, Some([Protocol.ExtensionItem.String(x)])), i + |Quote(name)| + |Quote(x)| + 2);
  }

  /** A quoted string starts with a double quote. */
  lemma {:induction false} QuoteFirst(s: string, j: nat, name: string, rest: string)
    requires At(s, j, Quote(name) + rest)
    ensures j < |s| && s[j] == '"'
  {
    var q := Quote(name);
    AtAppend(s, j, q, rest);
    assert s[j + 0] == q[0];
    assert q == "\"" + (Escape(name) + "\"");
  }

  /** A quoted name, a blank and one quoted string, then no blank, are an extension code's body. */
  lemma {:induction false} DataCodeBody(s: string, j: nat, name: string, x: string)
    requires At(s, j, Quote(name) + " " + Quote(x)) && s[j] == '"'
    requires j + |Quote(name)| + 1 + |Quote(x)| < |s| && !IsBlank(s[j + |Quote(name)| + 1 + |Quote(x)|])
    ensures CodeBody(s, j) == Success(
      Extension(name, Some([Protocol.ExtensionItem.String(x)])),
      j + |Quote(name)| + 1 + |Quote(x)|)
  {
    NamedCodesFail(s, j);
    ExtensionOneString(s, j, name, x);
  }

  /** A code that starts with none of the known names and is not a string is rejected. */
  lemma {:induction false} BareUnknownCode(s: string, i: nat)
    requires i + 1 < |s| && s[i] == '(' && NoCodeStarts(s[i + 1])
    requires s[i + 1] != '{' && s[i + 1] != '"'
    ensures Code(s, i) == Failure(false)
  {
    assert s[i + 0] == "("[0];
    NamedCodesFail(s, i + 1);
    NotString(s, i + 1);
  }
}
