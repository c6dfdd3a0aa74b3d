/**
 * What the string parsers accept: `{n}` literals and quoted strings, against
 * the way a server writes them (section 4 of RFC 5804).
 */
module ParserStrings {
  import opened Text
  import opened Parser

  /** The `{n}` CRLF head of a literal. */
  function LiteralHead(n: nat): string {
    "{" + Decimal(n) + "}" + CRLF
  }

  /** A literal as the server writes it: `{n}`, CRLF, then `n` characters. */
  function LiteralText(p: string): string {
    LiteralHead(|p|) + p
  }

  /** How a quoted string writes one character: `\` and `"` after a backslash. */
  function EscapeChar(c: char): (r: string)
    ensures 0 < |r| && r[0] != '"'
  {
    if IsPlain(c) then [c] else ['\\', c]
  }

  /** The body of a quoted string holding `x`. */
  function Escape(x: string): (r: string)
    ensures |r| >= |x|
  {
    if x == [] then [] else EscapeChar(x[0]) + Escape(x[1..])
  }

  /** A quoted string as the server writes it. */
  function Quote(x: string): string {
    "\"" + Escape(x) + "\""
  }

  /** A result with `a` put in front of what it accepted. */
  function Prefixed(a: string, r: Parsed<string>): Parsed<string> {
    if r.Success? then Success(a + r.value, r.next) else r
  }

  /** `a` occurs in `s` at position `i`. */
  predicate At(s: string, i: nat, a: string) {
    i + |a| <= |s| && forall k {:trigger a[k]} :: 0 <= k < |a| ==> s[i + k] == a[k]
  }

  lemma {:induction false} AtAppend(s: string, i: nat, a: string, b: string)
    ensures At(s, i, a + b) <==> At(s, i, a) && At(s, i + |a|, b)
  {
    if At(s, i, a) && At(s, i + |a|, b) {
      forall k | 0 <= k < |a + b| ensures s[i + k] == (a + b)[k] {
        if k >= |a| {
          assert s[i + |a| + (k - |a|)] == b[k - |a|];
        }
      }
    }
    if At(s, i, a + b) {
      forall k | 0 <= k < |a| ensures s[i + k] == a[k] {
        assert (a + b)[k] == a[k];
      }
      forall k | 0 <= k < |b| ensures s[i + |a| + k] == b[k] {
        assert s[i + (|a| + k)] == (a + b)[|a| + k];
      }
    }
  }

  lemma {:induction false} AtFront(a: string, rest: string)
    ensures At(a + rest, 0, a)
  {
    forall k | 0 <= k < |a| ensures (a + rest)[0 + k] == a[k] {
    }
  }

  lemma {:induction false} AtSlice(s: string, i: nat, a: string)
    requires At(s, i, a)
    ensures s[i..i + |a|] == a
  {
    var w := s[i..i + |a|];
    forall k | 0 <= k < |a| ensures w[k] == a[k] {
      assert w[k] == s[i + k];
    }
  }

  lemma {:induction false} TagAt(s: string, i: nat, t: string, caseless: bool)
    requires At(s, i, t)
    ensures Literal(s, i, t, caseless) == Success((), i + |t|)
  {
  }

  /** A one-character tag is accepted where that character is. */
  lemma {:induction false} CharTag(s: string, i: nat, t: string)
    requires |t| == 1 && i < |s| && s[i] == t[0]
    ensures Literal(s, i, t, false) == Success((), i + 1)
  {
    assert Agrees(s, i, t, 1, false) by {
      assert s[i + 0] == t[0];
    }
  }

  lemma {:induction false} RunEndAt(s: string, i: nat, p: char -> bool, e: nat)
    requires i <= e <= |s|
    requires forall k :: i <= k < e ==> p(s[k])
    requires e < |s| ==> !p(s[e])
    ensures RunEnd(s, i, p) == e
  {
  }

  /** One blank before a non-blank is the whole `space1`. */
  lemma {:induction false} OneBlank(s: string, i: nat)
    requires i + 1 < |s| && IsBlank(s[i]) && !IsBlank(s[i + 1])
    ensures Space1(s, i).Success? && Space1(s, i).next == i + 1
  {
    RunEndAt(s, i, IsBlank, i + 1);
  }

  /** `space1` fails on a character that is not a blank. */
  lemma {:induction false} NoBlank(s: string, i: nat)
    requires i < |s| && !IsBlank(s[i])
    ensures Space1(s, i) == Failure(false)
  {
    RunEndAt(s, i, IsBlank, i);
  }

  /** A decimal numeral followed by a non-digit reads back its number. */
  lemma {:induction false} NumberAt(s: string, i: nat, n: u64)
    requires At(s, i, Decimal(n))
    requires i + |Decimal(n)| < |s| && !IsDigit(s[i + |Decimal(n)|])
    ensures Number(s, i) == Success(n, i + |Decimal(n)|)
  {
    var d := Decimal(n);
    assert forall k :: i <= k < i + |d| ==> IsDigit(s[k]) by {
      forall k | i <= k < i + |d| ensures IsDigit(s[k]) {
        assert s[i + (k - i)] == d[k - i];
      }
    }
    RunEndAt(s, i, IsDigit, i + |d|);
    AtSlice(s, i, d);
    DecimalValue(n);
  }

  /** The length part of a literal reads back the number written. */
  lemma {:induction false} LiteralLengthAt(s: string, i: nat, n: u64)
    requires At(s, i, LiteralHead(n))
    ensures LiteralLength(s, i) == Success(n, i + |LiteralHead(n)|)
  {
    var d := Decimal(n);
    AtAppend(s, i, "{" + d + "}", CRLF);
    AtAppend(s, i, "{" + d, "}");
    AtAppend(s, i, "{", d);
    TagAt(s, i, "{", false);
    assert s[i + 1 + |d| + 0] == "}"[0];
    NumberAt(s, i + 1, n);
    TagAt(s, i + 1 + |d|, "}", false);
    TagAt(s, i + 2 + |d|, CRLF, false);
  }

  /** `{n}` CRLF and exactly `n` characters read back as those characters, wherever they start. */
  lemma {:induction false} LiteralTextAt(s: string, i: nat, p: string)
    requires |p| <= U64_MAX && At(s, i, LiteralText(p))
    ensures LiteralS2c(s, i) == Success(p, i + |LiteralText(p)|)
    ensures SieveString(s, i) == Success(p, i + |LiteralText(p)|)
  {
    var h := LiteralHead(|p|);
    AtAppend(s, i, h, p);
    LiteralLengthAt(s, i, |p|);
    AtSlice(s, i + |h|, p);
  }

  /** `{n}` CRLF and exactly `n` characters parse to those characters; `{0}\r\n` is `""`. */
  lemma {:induction false} LiteralRoundTrip(p: string, rest: string)
    requires |p| <= U64_MAX
    ensures LiteralS2c(LiteralText(p) + rest, 0) == Success(p, |LiteralText(p)|)
    ensures SieveString(LiteralText(p) + rest, 0) == Success(p, |LiteralText(p)|)
  {
    AtFront(LiteralText(p), rest);
    LiteralTextAt(LiteralText(p) + rest, 0, p);
  }

  /**
   * Every proper prefix of a literal is `Incomplete`: the parser waits for
   * the announced number of characters and never returns a shorter string.
   */
  lemma {:induction false} LiteralPrefixIncomplete(p: string, m: nat)
    requires |p| <= U64_MAX && m < |LiteralText(p)|
    ensures LiteralS2c(LiteralText(p)[..m], 0) == Incomplete
    ensures SieveString(LiteralText(p)[..m], 0) == Incomplete
  {
    var d := Decimal(|p|);
    var h := LiteralHead(|p|);
    var l := LiteralText(p);
    var s := l[..m];
    assert l == h + p;
    assert h[0] == '{' && h[1 + |d|] == '}' && h[2 + |d|] == '\r' && h[3 + |d|] == '\n';
    assert forall k :: 0 <= k < |d| ==> h[1 + k] == d[k];
    if m == 0 {
    } else if m < |h| {
      assert s[0] == '{';
      assert forall k :: 0 <= k < |d| && 1 + k < m ==> s[1 + k] == d[k] by {
        forall k | 0 <= k < |d| && 1 + k < m ensures s[1 + k] == d[k] {
          assert s[1 + k] == l[1 + k] == h[1 + k];
        }
      }
      if m <= 1 + |d| {
        LiteralDigitsCut(s, |p|);
      } else {
        assert s[1 + |d|] == l[1 + |d|];
        assert m == 3 + |d| ==> s[2 + |d|] == l[2 + |d|];
        LiteralHeadCut(s, |p|);
      }
    } else {
      forall k | 0 <= k < |h| ensures s[0 + k] == h[k] {
        assert s[k] == l[k];
      }
      LiteralLengthAt(s, 0, |p|);
    }
  }

  /** A literal cut among its digits waits for the rest of the number. */
  lemma {:induction false} LiteralDigitsCut(s: string, n: u64)
    requires var d := Decimal(n); 1 <= |s| <= 1 + |d| && s[0] == '{'
    requires forall k :: 0 <= k < |Decimal(n)| && 1 + k < |s| ==> s[1 + k] == Decimal(n)[k]
    ensures LiteralLength(s, 0) == Incomplete
  {
    var d := Decimal(n);
    assert s[0 + 0] == "{"[0];
    TagAt(s, 0, "{", false);
    assert forall k :: 1 <= k < |s| ==> IsDigit(s[k]) by {
      forall k | 1 <= k < |s| ensures IsDigit(s[k]) {
        assert s[1 + (k - 1)] == d[k - 1];
      }
    }
    assert Digit1(s, 1) == Incomplete;
  }

  /** A literal cut inside its CRLF waits for the rest of the line. */
  lemma {:induction false} LiteralHeadCut(s: string, n: u64)
    requires var d := Decimal(n);
      2 + |d| <= |s| < 4 + |d| && s[0] == '{' && s[1 + |d|] == '}'
      && (|s| == 3 + |d| ==> s[2 + |d|] == '\r')
    requires forall k :: 0 <= k < |Decimal(n)| ==> s[1 + k] == Decimal(n)[k]
    ensures LiteralLength(s, 0) == Incomplete
  {
    var d := Decimal(n);
    assert s[0 + 0] == "{"[0];
    TagAt(s, 0, "{", false);
    NumberAt(s, 1, n);
    assert s[1 + |d| + 0] == "}"[0];
    TagAt(s, 1 + |d|, "}", false);
    assert Literal(s, 2 + |d|, CRLF, false) == Incomplete;
  }

  /** One plain character in front of the body of a quoted string is taken as it is. */
  lemma {:induction false} EscapedPlainStep(s: string, j: nat)
    requires j < |s| && IsPlain(s[j])
    ensures Escaped(s, j) == Prefixed([s[j]], Escaped(s, j + 1))
  {
    var e := RunEnd(s, j, IsPlain);
    assert RunEnd(s, j, IsPlain) == RunEnd(s, j + 1, IsPlain);
    if e == |s| {
      assert Escaped(s, j) == Incomplete;
      assert Escaped(s, j + 1) == Incomplete;
    } else if e == j + 1 {
      assert s[j..e] == [s[j]];
      assert TakeWhile1(s, j, IsPlain) == Success([s[j]], e);
      assert TakeWhile1(s, j + 1, IsPlain).Failure?;
    } else {
      assert TakeWhile1(s, j, IsPlain) == Success(s[j..e], e);
      assert TakeWhile1(s, j + 1, IsPlain) == Success(s[j + 1..e], e);
      assert s[j..e] == [s[j]] + s[j + 1..e];
      var rest := Escaped(s, e);
      if rest.Success? {
        assert s[j..e] + rest.value == [s[j]] + (s[j + 1..e] + rest.value);
      }
    }
  }

  /** A backslash the body parser gets past is followed by `\` or `"`. */
  lemma {:induction false} EscapedBackslash(s: string, j: nat)
    requires j < |s| && s[j] == '\\' && Escaped(s, j).Success?
    ensures j + 1 < |s| && !IsPlain(s[j + 1])
  {
    assert TakeWhile1(s, j, IsPlain).Failure?;
  }

  /** The escaping of one character in front of the body is read as that character. */
  lemma {:induction false} EscapedStep(s: string, j: nat, c: char)
    requires At(s, j, EscapeChar(c))
    ensures Escaped(s, j) == Prefixed([c], Escaped(s, j + |EscapeChar(c)|))
  {
    var e := EscapeChar(c);
    assert s[j + 0] == e[0];
    if IsPlain(c) {
      EscapedPlainStep(s, j);
    } else {
      assert s[j + 1] == e[1];
      assert TakeWhile1(s, j, IsPlain).Failure?;
    }
  }

  /** The body of a quoted string ends before the closing quote. */
  lemma {:induction false} EscapedEnd(s: string, j: nat)
    requires j < |s| && s[j] == '"'
    ensures Escaped(s, j) == Success("", j)
  {
    assert TakeWhile1(s, j, IsPlain).Failure?;
  }

  /** The body of a quoted string reads back the text its escaping came from. */
  lemma {:induction false} EscapedRoundTrip(s: string, j: nat, x: string)
    requires At(s, j, Escape(x)) && j + |Escape(x)| < |s| && s[j + |Escape(x)|] == '"'
    ensures Escaped(s, j) == Success(x, j + |Escape(x)|)
    decreases |x|
  {
    if x == [] {
      EscapedEnd(s, j);
    } else {
      var w := |EscapeChar(x[0])|;
      RoundTripTail(s, j, x);
      EscapedRoundTrip(s, j + w, x[1..]);
      RoundTripHead(s, j, x, j + |Escape(x)|);
    }
  }

  /** The escaping of all but the first character follows the first one's. */
  lemma {:induction false} RoundTripTail(s: string, j: nat, x: string)
    requires x != [] && At(s, j, Escape(x))
    ensures At(s, j, EscapeChar(x[0])) && At(s, j + |EscapeChar(x[0])|, Escape(x[1..]))
    ensures |Escape(x)| == |EscapeChar(x[0])| + |Escape(x[1..])|
  {
    AtAppend(s, j, EscapeChar(x[0]), Escape(x[1..]));
  }

  /** Reading the first character back in front of the rest read back gives all of `x`. */
  lemma {:induction false} RoundTripHead(s: string, j: nat, x: string, n: nat)
    requires x != [] && At(s, j, EscapeChar(x[0]))
    requires Escaped(s, j + |EscapeChar(x[0])|) == Success(x[1..], n)
    ensures Escaped(s, j) == Success(x, n)
  {
    EscapedStep(s, j, x[0]);
    assert [x[0]] + x[1..] == x;
  }

  /** The character the body parser reads at `j`: itself, or the one after a backslash. */
  function BodyChar(s: string, j: nat): char
    requires j < |s|
  {
    if IsPlain(s[j]) || j + 1 == |s| then s[j] else s[j + 1]
  }

  lemma {:induction false} EscapedHead(s: string, j: nat)
    requires j < |s| && s[j] != '"' && Escaped(s, j).Success?
    ensures At(s, j, EscapeChar(BodyChar(s, j)))
  {
    if !IsPlain(s[j]) {
      EscapedBackslash(s, j);
    }
    assert s[j + 0] == EscapeChar(BodyChar(s, j))[0];
  }

  lemma {:induction false} EscapeCons(s: string, j: nat, c: char, v: string)
    requires At(s, j, EscapeChar(c)) && At(s, j + |EscapeChar(c)|, Escape(v))
    ensures Escape([c] + v) == EscapeChar(c) + Escape(v)
    ensures At(s, j, Escape([c] + v))
  {
    assert ([c] + v)[1..] == v;
    AtAppend(s, j, EscapeChar(c), Escape(v));
  }

  /** Whatever the body parser accepts is an escaped text: only `\\` and `\"` are decoded. */
  lemma {:induction false} EscapedSound(s: string, j: nat)
    requires j <= |s| && Escaped(s, j).Success?
    ensures At(s, j, Escape(Escaped(s, j).value))
    ensures Escaped(s, j).next == j + |Escape(Escaped(s, j).value)|
    decreases |s| - j
  {
    if s[j] == '"' {
      EscapedEnd(s, j);
      assert Escape("") == "";
    } else {
      var c := BodyChar(s, j);
      var w := |EscapeChar(c)|;
      assert Escaped(s, j) == Prefixed([c], Escaped(s, j + w)) by {
        EscapedHead(s, j);
        EscapedStep(s, j, c);
      }
      EscapedSound(s, j + w);
      SoundCons(s, j, Escaped(s, j), Escaped(s, j + w));
    }
  }

  /** One more character in front of a sound body keeps it sound. */
  lemma {:induction false} SoundCons(s: string, j: nat, r: Parsed<string>, rest: Parsed<string>)
    requires j < |s| && s[j] != '"' && r == Escaped(s, j) && r.Success?
    requires r == Prefixed([BodyChar(s, j)], rest) && rest.Success?
    requires At(s, j + |EscapeChar(BodyChar(s, j))|, Escape(rest.value))
    requires rest.next == j + |EscapeChar(BodyChar(s, j))| + |Escape(rest.value)|
    ensures At(s, j, Escape(r.value)) && r.next == j + |Escape(r.value)|
  {
    EscapedHead(s, j);
    EscapeCons(s, j, BodyChar(s, j), rest.value);
  }

  /** A quoted string reads back the text it was written from, wherever it starts. */
  lemma {:induction false} QuotedAt(s: string, i: nat, x: string)
    requires At(s, i, Quote(x))
    ensures QuotedString(s, i) == Success(x, i + |Quote(x)|)
    ensures SieveString(s, i) == Success(x, i + |Quote(x)|)
  {
    var ex := Escape(x);
    AtAppend(s, i, "\"" + ex, "\"");
    AtAppend(s, i, "\"", ex);
    assert s[i + 0] == "\""[0];
    assert !SameChar(s[i + 0], "{"[0], false);
    if x == [] {
      assert s[i + 1 + 0] == "\""[0];
      TagAt(s, i, "\"\"", false);
    } else {
      assert s[i + 1 + 0] == ex[0];
      assert !SameChar(s[i + 1], "\"\""[1], false);
      TagAt(s, i, "\"", false);
      assert s[i + 1 + |ex| + 0] == "\""[0];
      EscapedRoundTrip(s, i + 1, x);
    }
  }

  /** A quoted string parses to the text it was written from; `""` is the empty string. */
  lemma {:induction false} QuotedRoundTrip(x: string, rest: string)
    ensures QuotedString(Quote(x) + rest, 0) == Success(x, |Quote(x)|)
    ensures SieveString(Quote(x) + rest, 0) == Success(x, |Quote(x)|)
  {
    AtFront(Quote(x), rest);
    QuotedAt(Quote(x) + rest, 0, x);
  }

  /** Whatever the quoted-string parser accepts is the quoting of what it returns. */
  lemma {:induction false} QuotedSound(s: string, i: nat)
    requires i <= |s| && QuotedString(s, i).Success?
    ensures var r := QuotedString(s, i); s[i..r.next] == Quote(r.value)
  {
    var r := QuotedString(s, i);
    if Literal(s, i, "\"\"", false).Success? {
      assert SameChar(s[i + 0], "\"\""[0], false);
      assert SameChar(s[i + 1], "\"\""[1], false);
      assert s[i..i + 2] == "\"\"";
    } else {
      assert SameChar(s[i + 0], "\""[0], false);
      EscapedSound(s, i + 1);
      var b := Escaped(s, i + 1);
      assert At(s, i, "\"") && At(s, i + 1 + |Escape(b.value)|, "\"");
      AtAppend(s, i, "\"", Escape(b.value));
      AtAppend(s, i, "\"" + Escape(b.value), "\"");
      AtSlice(s, i, Quote(r.value));
    }
  }

  /** Any backslash pair other than `\\` and `\"` makes a quoted string fail. */
  lemma {:induction false} QuotedBadEscape(a: string, c: char, rest: string)
    requires forall k :: 0 <= k < |a| ==> IsPlain(a[k])
    requires c != '\\' && c != '"'
    ensures QuotedString("\"" + a + "\\" + [c] + rest, 0) == Failure(false)
  {
    var s := "\"" + a + "\\" + [c] + rest;
    assert s[1] != '"' by {
      if |a| > 0 {
        assert s[1] == a[0];
      } else {
        assert s[1] == '\\';
      }
    }
    assert !SameChar(s[0 + 1], "\"\""[1], false);
    assert s[0 + 0] == "\""[0];
    TagAt(s, 0, "\"", false);
    forall k | 1 <= k < 1 + |a| ensures IsPlain(s[k]) {
      assert s[k] == a[k - 1];
    }
    EscapedSkipPlain(s, 1, |a|);
    var j := 1 + |a|;
    assert s[j] == '\\' && s[j + 1] == c;
    assert TakeWhile1(s, j, IsPlain).Failure?;
  }

  lemma {:induction false} EscapedSkipPlain(s: string, j: nat, n: nat)
    requires j + n < |s|
    requires forall k :: j <= k < j + n ==> IsPlain(s[k])
    ensures Escaped(s, j).Failure? <==> Escaped(s, j + n).Failure?
    decreases n
  {
    if n > 0 {
      EscapedPlainStep(s, j);
      EscapedSkipPlain(s, j + 1, n - 1);
    }
  }
}
