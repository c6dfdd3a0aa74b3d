/**
 * The server-to-client grammar of RFC 5804 as the client reads it: a set of
 * partial-input parsers over the text received so far. Each parser looks at
 * `s` from position `i` and answers
 *   - `Incomplete`: the text so far is a prefix of something it could accept,
 *     so more input is needed;
 *   - `Success(v, j)`: it accepts `s[i..j]` as `v`;
 *   - `Failure(cut)`: it rejects; a cut failure is final, an uncut one lets an
 *     enclosing alternative try its next branch.
 * Alternatives, optional parts and repetitions follow the combinator library
 * the client is written with: an alternative moves on only after an uncut
 * failure, an optional part or a repetition stops only at an uncut failure,
 * and `Incomplete` always propagates.
 */
module Parser {
  import opened Wrappers
  import opened Text
  import opened Protocol
  import SieveName

  datatype Parsed<+T> = Incomplete | Success(value: T, next: nat) | Failure(cut: bool)

  /** A result that did not succeed, passed on unchanged at another type. */
  function Propagate<T, U>(r: Parsed<T>): (p: Parsed<U>)
    requires !r.Success?
    ensures p.Incomplete? == r.Incomplete?
    ensures p.Failure? ==> p.cut == r.cut
  {
    if r.Incomplete? then Incomplete else Failure(r.cut)
  }

  /** `alt((a, b))`: `b` is tried only when `a` failed without a cut. */
  function Or<T>(a: Parsed<T>, b: Parsed<T>): Parsed<T> {
    if a.Failure? && !a.cut then b else a
  }

  /** `p.map(f)`. */
  function Map<T, U>(r: Parsed<T>, f: T -> U): Parsed<U> {
    if r.Success? then Success(f(r.value), r.next) else Propagate(r)
  }

  /** `cut_err(p)`: any failure becomes final. */
  function Cut<T>(r: Parsed<T>): Parsed<T> {
    if r.Failure? then Failure(true) else r
  }

  /** `opt(p)` for a `p` started at `i`: an uncut failure gives `None` and consumes nothing. */
  function Opt<T>(r: Parsed<T>, i: nat): Parsed<Option<T>> {
    if r.Success? then Success(Some(r.value), r.next)
    else if r.Failure? && !r.cut then Success(None, i)
    else Propagate(r)
  }

  predicate SameChar(a: char, b: char, caseless: bool) {
    if caseless then Lower(a) == Lower(b) else a == b
  }

  /** The first `n` characters from `i` agree with those of `t`. */
  predicate Agrees(s: string, i: nat, t: string, n: nat, caseless: bool)
    requires i + n <= |s| && n <= |t|
  {
    forall k {:trigger t[k]} :: 0 <= k < n ==> SameChar(s[i + k], t[k], caseless)
  }

  /**
   * A literal tag (`"x"`, or `Caseless("x")` when `caseless`) on partial
   * input: the text that is there is compared, and a matching text that
   * stops short of the whole tag asks for more.
   */
  function Literal(s: string, i: nat, t: string, caseless: bool): (r: Parsed<()>)
    requires i <= |s|
    ensures r.Success? ==> r.next == i + |t| <= |s|
    ensures r.Failure? ==> !r.cut
  {
    if 0 < |t| && i < |s| && !SameChar(s[i], t[0], caseless) then Failure(false)
    else
      var n := if |s| - i < |t| then |s| - i else |t|;
      if !Agrees(s, i, t, n, caseless) then Failure(false)
      else if n < |t| then Incomplete
      else Success((), i + |t|)
  }

  /**
   * What a literal tag accepts: the whole tag, or a prefix of it that the
   * end of the text cuts short.
   */
  lemma {:induction false} LiteralSpec(s: string, i: nat, t: string, caseless: bool)
    requires i <= |s|
    ensures Literal(s, i, t, caseless).Success? <==> i + |t| <= |s| && Agrees(s, i, t, |t|, caseless)
    ensures Literal(s, i, t, caseless).Incomplete? <==> |s| - i < |t| && Agrees(s, i, t, |s| - i, caseless)
  {
    if 0 < |t| && i < |s| && !SameChar(s[i], t[0], caseless) {
      assert !SameChar(s[i + 0], t[0], caseless);
    }
  }

  /** The end of the run of characters satisfying `p` that starts at `i`. */
  function RunEnd(s: string, i: nat, p: char -> bool): (e: nat)
    requires i <= |s|
    ensures i <= e <= |s|
    ensures forall k {:trigger p(s[k])} :: i <= k < e ==> p(s[k])
    ensures e < |s| ==> !p(s[e])
    decreases |s| - i
  {
    if i == |s| || !p(s[i]) then i else RunEnd(s, i + 1, p)
  }

  /**
   * `take_while(1.., p)` on partial input: a run that reaches the end of the
   * text may still grow, so it is `Incomplete`; an empty run fails.
   */
  function TakeWhile1(s: string, i: nat, p: char -> bool): (r: Parsed<string>)
    requires i <= |s|
    ensures r.Success? ==> i < r.next < |s| && r.value == s[i..r.next] && !p(s[r.next])
    ensures r.Success? ==> forall k {:trigger p(s[k])} :: i <= k < r.next ==> p(s[k])
    ensures r.Incomplete? <==> forall k {:trigger p(s[k])} :: i <= k < |s| ==> p(s[k])
    ensures r.Failure? <==> i < |s| && !p(s[i])
    ensures r.Failure? ==> !r.cut
  {
    var e := RunEnd(s, i, p);
    if e == |s| then Incomplete
    else if e == i then Failure(false)
    else Success(s[i..e], e)
  }

  /** The blanks `space1` accepts. */
  predicate IsBlank(c: char) {
    c == ' ' || c == '\t'
  }

  /** `space1`. */
  function Space1(s: string, i: nat): (r: Parsed<string>)
    requires i <= |s|
    ensures r.Success? ==> i < r.next < |s|
    ensures r.Failure? ==> !r.cut
  {
    TakeWhile1(s, i, IsBlank)
  }

  /** `digit1`. */
  function Digit1(s: string, i: nat): (r: Parsed<string>)
    requires i <= |s|
    ensures r.Success? ==> i < r.next < |s| && r.value == s[i..r.next] && AllDigits(r.value)
    ensures r.Failure? ==> !r.cut
  {
    TakeWhile1(s, i, IsDigit)
  }

  /**
   * `str::parse::<u64>`: an optional `+`, then at least one decimal digit,
   * with a value that fits in 64 bits.
   */
  function ParseU64(s: string): (r: Option<u64>)
    ensures r.Some? ==> s != "" && s != "+"
    ensures s != "" && AllDigits(s) && DigitsValue(s) <= U64_MAX ==> r == Some(DigitsValue(s))
    ensures s != "" && AllDigits(s) && DigitsValue(s) > U64_MAX ==> r == None
  {
    var d := if |s| > 0 && s[0] == '+' then s[1..] else s;
    if d == "" || !AllDigits(d) then None
    else if DigitsValue(d) > U64_MAX then None
    else Some(DigitsValue(d))
  }

  /** `digit1.parse_to::<u64>()`: too many digits is an ordinary failure. */
  function Number(s: string, i: nat): (r: Parsed<u64>)
    requires i <= |s|
    ensures r.Success? ==> i < r.next < |s|
    ensures r.Failure? ==> !r.cut
  {
    var d := Digit1(s, i);
    if !d.Success? then Propagate(d)
    else match ParseU64(d.value)
      case None => Failure(false)
      case Some(n) => Success(n, d.next)
  }

  /** `literal_s2c_len`: `{`, the length in decimal, `}`, CRLF. */
  function LiteralLength(s: string, i: nat): (r: Parsed<u64>)
    requires i <= |s|
    ensures r.Success? ==> i < r.next <= |s|
    ensures r.Failure? ==> !r.cut
  {
    var open := Literal(s, i, "{", false);
    if !open.Success? then Propagate(open)
    else
      var n := Number(s, open.next);
      if !n.Success? then Propagate(n)
      else
        var close := Literal(s, n.next, "}", false);
        if !close.Success? then Propagate(close)
        else
          var end := Literal(s, close.next, CRLF, false);
          if !end.Success? then Propagate(end)
          else Success(n.value, end.next)
  }

  /**
   * `literal_s2c`: `length_take(literal_s2c_len)`, which takes that many
   * characters; fewer than that so far is `Incomplete`.
   */
  function LiteralS2c(s: string, i: nat): (r: Parsed<string>)
    requires i <= |s|
    ensures r.Success? ==> i < r.next <= |s|
    ensures r.Failure? ==> !r.cut
  {
    var len := LiteralLength(s, i);
    if !len.Success? then Propagate(len)
    else if |s| - len.next < len.value then Incomplete
    else Success(s[len.next..len.next + len.value], len.next + len.value)
  }

  /** The characters `escaped` takes as they are. */
  predicate IsPlain(c: char) {
    c != '\\' && c != '"'
  }

  /**
   * The body of a quoted string: `escaped(take_while(1.., plain), '\\',
   * alt(("\\", "\"")))`, which stops before the closing quote. Running out
   * of text anywhere inside is `Incomplete`.
   */
  function Escaped(s: string, j: nat): (r: Parsed<string>)
    requires j <= |s|
    ensures r.Success? ==> j <= r.next < |s| && s[r.next] == '"'
    ensures r.Failure? ==> !r.cut
    decreases |s| - j
  {
    if j == |s| then Incomplete
    else
      var run := TakeWhile1(s, j, IsPlain);
      if run.Success? then
        var rest := Escaped(s, run.next);
        if rest.Success? then Success(run.value + rest.value, rest.next) else rest
      else if run.Incomplete? then Incomplete
      else if s[j] == '\\' then
        if j + 1 == |s| then Incomplete
        else if s[j + 1] == '\\' || s[j + 1] == '"' then
          var rest := Escaped(s, j + 2);
          if rest.Success? then Success([s[j + 1]] + rest.value, rest.next) else rest
        else Failure(false)
      else Success("", j)
  }

  /** `quoted_string`: `""` first, then a quote, the escaped body and a quote. */
  function QuotedString(s: string, i: nat): (r: Parsed<string>)
    requires i <= |s|
    ensures r.Success? ==> i < r.next <= |s|
    ensures r.Failure? ==> !r.cut
  {
    var empty := Literal(s, i, "\"\"", false);
    if empty.Success? then Success("", empty.next)
    else if empty.Incomplete? then Incomplete
    else
      var open := Literal(s, i, "\"", false);
      if !open.Success? then Propagate(open)
      else
        var body := Escaped(s, open.next);
        if !body.Success? then Propagate(body)
        else Success(body.value, body.next + 1)
  }

  /** `sievestring_s2c`: a literal or a quoted string. */
  function SieveString(s: string, i: nat): (r: Parsed<string>)
    requires i <= |s|
    ensures r.Success? ==> i < r.next <= |s|
    ensures r.Failure? ==> !r.cut
  {
    Or(LiteralS2c(s, i), QuotedString(s, i))
  }

  /** `extension_item`: a string, a number, or a parenthesised list. */
  function ExtensionItem(s: string, i: nat): (r: Parsed<ExtensionItem>)
    requires i <= |s|
    ensures r.Success? ==> i < r.next <= |s|
    ensures r.Failure? ==> !r.cut
    decreases |s| - i, 1
  {
    Or(Map(SieveString(s, i), (x: string) => Protocol.ExtensionItem.String(x)),
    Or(Map(Number(s, i), (n: u64) => Protocol.ExtensionItem.Number(n)),
       Parenthesised(s, i)))
  }

  /** `delimited("(", extension_data, ")")`. */
  function Parenthesised(s: string, i: nat): (r: Parsed<ExtensionItem>)
    requires i <= |s|
    ensures r.Success? ==> i < r.next <= |s|
    ensures r.Failure? ==> !r.cut
    decreases |s| - i, 0
  {
    var open := Literal(s, i, "(", false);
    if !open.Success? then Propagate(open)
    else
      var items := ExtensionData(s, open.next);
      if !items.Success? then Propagate(items)
      else
        var close := Literal(s, items.next, ")", false);
        if !close.Success? then Propagate(close)
        else Success(Protocol.ExtensionItem.ExtensionData(items.value), close.next)
  }

  /** `extension_data`: `separated(1.., extension_item, space1)`. */
  function ExtensionData(s: string, i: nat): (r: Parsed<seq<ExtensionItem>>)
    requires i <= |s|
    ensures r.Success? ==> i < r.next <= |s| && |r.value| > 0
    ensures r.Failure? ==> !r.cut
    decreases |s| - i, 2
  {
    var first := ExtensionItem(s, i);
    if !first.Success? then Propagate(first)
    else
      var more := MoreItems(s, first.next);
      if more.Success? then Success([first.value] + more.value, more.next) else Propagate(more)
  }

  /**
   * The rest of a separated list after an item that ends at `j`: a separator
   * or an item after it that fails without a cut ends the list at `j`.
   */
  function MoreItems(s: string, j: nat): (r: Parsed<seq<ExtensionItem>>)
    requires j <= |s|
    ensures r.Success? ==> j <= r.next <= |s|
    ensures r.Failure? ==> !r.cut
    decreases |s| - j, 3
  {
    var sep := Space1(s, j);
    if sep.Failure? then Success([], j)
    else if sep.Incomplete? then Incomplete
    else
      var item := ExtensionItem(s, sep.next);
      if item.Failure? then Success([], j)
      else if item.Incomplete? then Incomplete
      else
        var more := MoreItems(s, item.next);
        if more.Success? then Success([item.value] + more.value, more.next) else more
  }

  /** `Caseless(t).value(c)`. */
  function Atom(s: string, j: nat, t: string, c: ResponseCode): (r: Parsed<ResponseCode>)
    requires j <= |s|
    ensures r.Success? ==> r.next == j + |t| <= |s|
    ensures r.Failure? ==> !r.cut
  {
    var m := Literal(s, j, t, true);
    if m.Success? then Success(c, m.next) else Propagate(m)
  }

  /** The codes that carry a sieve-string right after their name. */
  datatype StringCode = SaslCode | ReferralCode | TagCode

  /** The response code a keyed name and its string make. */
  function KeyedCode(key: StringCode, x: string): (c: ResponseCode)
    ensures key == SaslCode ==> c == ResponseCode.Sasl(x)
    ensures key == ReferralCode ==> c == Referral(x)
    ensures key == TagCode ==> c == ResponseCode.Tag(x)
  {
    match key
    case SaslCode => ResponseCode.Sasl(x)
    case ReferralCode => Referral(x)
    case TagCode => ResponseCode.Tag(x)
  }

  /** `(Caseless(t), sievestring_s2c)`: the string must follow the name at once. */
  function Keyed(s: string, j: nat, t: string, key: StringCode): (r: Parsed<ResponseCode>)
    requires j <= |s|
    ensures r.Success? ==> j + |t| < r.next <= |s|
    ensures r.Failure? ==> !r.cut
  {
    var m := Literal(s, j, t, true);
    if !m.Success? then Propagate(m)
    else
      var x := SieveString(s, m.next);
      if x.Success? then Success(KeyedCode(key, x.value), x.next) else Propagate(x)
  }

  /** One named alternative of the code table. */
  datatype CodeName =
    | Named(name: string, code: ResponseCode)
    | NamedWithString(name: string, key: StringCode)

  /** The named codes, in the order they are tried. */
  const CodeNames: seq<CodeName> := [
    Named("AUTH-TOO-WEAK", AuthTooWeak),
    Named("ENCRYPT-NEEDED", EncryptNeeded),
    Named("QUOTA/MAXSCRIPTS", ResponseCode.Quota(MaxScripts)),
    Named("QUOTA/MAXSIZE", ResponseCode.Quota(MaxSize)),
    Named("QUOTA", ResponseCode.Quota(Unspecified)),
    NamedWithString("SASL", SaslCode),
    NamedWithString("REFERRAL", ReferralCode),
    Named("TRANSITION-NEEDED", TransitionNeeded),
    Named("TRYLATER", TryLater),
    Named("ACTIVE", Active),
    Named("NONEXISTENT", Nonexistent),
    Named("ALREADYEXISTS", AlreadyExists),
    Named("WARNINGS", Warnings),
    NamedWithString("TAG", TagCode)
  ]

  /** The parser of one named alternative. */
  function NamedCode(s: string, j: nat, n: CodeName): (r: Parsed<ResponseCode>)
    requires j <= |s|
    ensures r.Success? ==> j + |n.name| <= r.next <= |s|
    ensures r.Failure? ==> !r.cut
  {
    match n
    case Named(t, c) => Atom(s, j, t, c)
    case NamedWithString(t, key) => Keyed(s, j, t, key)
  }

  /**
   * The named alternatives `names`, then the extension code: each is tried
   * only when the ones before it failed without a cut.
   */
  function CodeFrom(s: string, j: nat, names: seq<CodeName>): (r: Parsed<ResponseCode>)
    requires j <= |s|
    ensures r.Success? ==> j <= r.next <= |s|
    ensures r.Failure? ==> !r.cut
  {
    if names == [] then ExtensionCode(s, j)
    else Or(NamedCode(s, j, names[0]), CodeFrom(s, j, names[1..]))
  }

  /** An unknown code: its name as a sieve-string, then optional extension data. */
  function ExtensionCode(s: string, j: nat): (r: Parsed<ResponseCode>)
    requires j <= |s|
    ensures r.Success? ==> j < r.next <= |s|
    ensures r.Failure? ==> !r.cut
  {
    var name := SieveString(s, j);
    if !name.Success? then Propagate(name)
    else
      var data := Opt(SpacedData(s, name.next), name.next);
      if !data.Success? then Propagate(data)
      else Success(Extension(name.value, data.value), data.next)
  }

  /** `preceded(space1, extension_data)`. */
  function SpacedData(s: string, j: nat): (r: Parsed<seq<ExtensionItem>>)
    requires j <= |s|
    ensures r.Success? ==> j < r.next <= |s|
    ensures r.Failure? ==> !r.cut
  {
    var sp := Space1(s, j);
    if !sp.Success? then Propagate(sp) else ExtensionData(s, sp.next)
  }

  /** The alternatives inside a response code's parentheses, in the order they are tried. */
  function CodeBody(s: string, j: nat): (r: Parsed<ResponseCode>)
    requires j <= |s|
    ensures r.Success? ==> j <= r.next <= |s|
    ensures r.Failure? ==> !r.cut
  {
    CodeFrom(s, j, CodeNames)
  }

  /** `code`: a response code in parentheses. */
  function Code(s: string, i: nat): (r: Parsed<ResponseCode>)
    requires i <= |s|
    ensures r.Success? ==> i < r.next <= |s|
    ensures r.Failure? ==> !r.cut
  {
    var open := Literal(s, i, "(", false);
    if !open.Success? then Propagate(open)
    else
      var body := CodeBody(s, open.next);
      if !body.Success? then Propagate(body)
      else
        var close := Literal(s, body.next, ")", false);
        if !close.Success? then Propagate(close)
        else Success(body.value, close.next)
  }

  /** `preceded(space1, code)`. */
  function SpacedCode(s: string, i: nat): (r: Parsed<ResponseCode>)
    requires i <= |s|
    ensures r.Success? ==> i < r.next <= |s|
    ensures r.Failure? ==> !r.cut
  {
    var sp := Space1(s, i);
    if !sp.Success? then Propagate(sp) else Code(s, sp.next)
  }

  /** `preceded(space1, sievestring_s2c)`. */
  function SpacedString(s: string, i: nat): (r: Parsed<string>)
    requires i <= |s|
    ensures r.Success? ==> i < r.next <= |s|
    ensures r.Failure? ==> !r.cut
  {
    var sp := Space1(s, i);
    if !sp.Success? then Propagate(sp) else SieveString(s, sp.next)
  }

  /**
   * What follows a reply tag: an optional code, an optional human-readable
   * string, each after blanks, and the closing CRLF.
   */
  function ResponseTail(s: string, i: nat): (r: Parsed<ResponseInfo>)
    requires i <= |s|
    ensures r.Success? ==> i < r.next <= |s|
    ensures r.Failure? ==> !r.cut
  {
    var code := Opt(SpacedCode(s, i), i);
    if !code.Success? then Propagate(code)
    else
      var human := Opt(SpacedString(s, code.next), code.next);
      if !human.Success? then Propagate(human)
      else
        var end := Literal(s, human.next, CRLF, false);
        if !end.Success? then Propagate(end)
        else Success(ResponseInfo(code.value, human.value), end.next)
  }

  /** `Caseless(t).value(tag)`. */
  function TagWord(s: string, i: nat, t: string, tag: Tag): (r: Parsed<Tag>)
    requires i <= |s|
    ensures r.Success? ==> r.next == i + |t| <= |s| && r.value == tag
    ensures r.Failure? ==> !r.cut
  {
    var m := Literal(s, i, t, true);
    if m.Success? then Success(tag, m.next) else Propagate(m)
  }

  /** A reply line whose tag is one of `OK`, or `NO`/`BYE`, as `tags` says. */
  function ReplyLine(s: string, i: nat, tags: Parsed<Tag>): (r: Parsed<Response>)
    requires i <= |s|
    requires tags.Success? ==> i < tags.next <= |s|
    requires tags.Failure? ==> !tags.cut
    ensures r.Success? ==> i < r.next <= |s| && tags.Success? && r.value.tag == tags.value
    ensures r.Failure? ==> !r.cut
  {
    if !tags.Success? then Propagate(tags)
    else
      var info := ResponseTail(s, tags.next);
      if !info.Success? then Propagate(info)
      else Success(Response(tags.value, info.value), info.next)
  }

  /** `response_ok`. */
  function ResponseOk(s: string, i: nat): (r: Parsed<Response>)
    requires i <= |s|
    ensures r.Success? ==> i < r.next <= |s| && r.value.tag == OK
    ensures r.Failure? ==> !r.cut
  {
    ReplyLine(s, i, TagWord(s, i, "OK", OK))
  }

  /** `response_nobye`. */
  function ResponseNoBye(s: string, i: nat): (r: Parsed<Response>)
    requires i <= |s|
    ensures r.Success? ==> i < r.next <= |s| && r.value.tag != OK
    ensures r.Failure? ==> !r.cut
  {
    ReplyLine(s, i, Or(TagWord(s, i, "NO", NO), TagWord(s, i, "BYE", BYE)))
  }

  /** `response_oknobye`. */
  function ResponseOkNoBye(s: string, i: nat): (r: Parsed<Response>)
    requires i <= |s|
    ensures r.Success? ==> i < r.next <= |s|
    ensures r.Failure? ==> !r.cut
  {
    Or(ResponseOk(s, i), ResponseNoBye(s, i))
  }

  /** `space_separated_string_s2c`: `""` gives no items. */
  function SpaceSeparated(v: string): (r: seq<string>)
    ensures v == "" ==> r == []
    ensures v != "" ==> Join(r) == v
  {
    JoinSplit(v);
    if v == "" then [] else Split(v)
  }

  /** Blanks, then a sieve-string; once a key matched, any failure here is cut. */
  function KeyValue(s: string, i: nat, key: string): (r: Parsed<string>)
    requires i <= |s|
    ensures r.Success? ==> i + |key| < r.next <= |s|
    ensures r.Failure? && !r.cut ==> !Literal(s, i, key, true).Success?
  {
    var k := Literal(s, i, key, true);
    if !k.Success? then Propagate(k) else Cut(SpacedString(s, k.next))
  }

  /** `version`: a quoted `major.minor`, each part `digit1` read as a `u64`. */
  function VersionValue(s: string, i: nat): (r: Parsed<Version>)
    requires i <= |s|
    ensures r.Success? ==> i < r.next <= |s|
    ensures r.Failure? ==> !r.cut
  {
    var open := Literal(s, i, "\"", false);
    if !open.Success? then Propagate(open)
    else
      var major := Number(s, open.next);
      if !major.Success? then Propagate(major)
      else VersionMinor(s, major.value, major.next)
  }

  /** The rest of a version after its major number: a dot, the minor number, the closing quote. */
  function VersionMinor(s: string, major: u64, j: nat): (r: Parsed<Version>)
    requires j <= |s|
    ensures r.Success? ==> j < r.next <= |s|
    ensures r.Failure? ==> !r.cut
  {
    var dot := Literal(s, j, ".", false);
    if !dot.Success? then Propagate(dot)
    else
      var minor := Number(s, dot.next);
      if !minor.Success? then Propagate(minor)
      else
        var close := Literal(s, minor.next, "\"", false);
        if !close.Success? then Propagate(close)
        else Success(Version.Version(major, minor.value), close.next)
  }

  /** `"VERSION"`, blanks, then a version, cut once the key matched. */
  function VersionCapability(s: string, i: nat): (r: Parsed<Capability>)
    requires i <= |s|
    ensures r.Success? ==> i < r.next <= |s|
  {
    var k := Literal(s, i, "\"VERSION\"", true);
    if !k.Success? then Propagate(k)
    else
      var sp := Space1(s, k.next);
      if !sp.Success? then Cut(Propagate(sp))
      else Cut(Map(VersionValue(s, sp.next), (v: Version) => Capability.Version(v)))
  }

  /** An unknown capability: its name, then an optional value after blanks. */
  function UnknownCapability(s: string, i: nat): (r: Parsed<Capability>)
    requires i <= |s|
    ensures r.Success? ==> i < r.next <= |s|
    ensures r.Failure? ==> !r.cut
  {
    var name := SieveString(s, i);
    if !name.Success? then Propagate(name)
    else
      var value := Opt(SpacedString(s, name.next), name.next);
      if !value.Success? then Propagate(value)
      else Success(Unknown(name.value, value.value), value.next)
  }

  /** The value of a `"MAXREDIRECTS"` capability: `number_string_s2c`. */
  function MaxRedirectsValue(v: string): Option<Capability> {
    match ParseU64(v)
    case None => None
    case Some(n) => Some(MaxRedirects(n))
  }

  /** The value of a `"NOTIFY"` capability: space-separated and not empty. */
  function NotifyValue(v: string): Option<Capability> {
    if v == "" then None else Some(Notify(Split(v)))
  }

  /** A keyed value that must also pass a check, failing with a cut otherwise. */
  function Checked(r: Parsed<string>, check: string -> Option<Capability>): Parsed<Capability> {
    if !r.Success? then Propagate(r)
    else match check(r.value)
      case None => Failure(true)
      case Some(c) => Success(c, r.next)
  }

  /** The capability names `single_capability` knows. */
  datatype CapabilityKey =
    | ImplementationKey | SaslKey | SieveKey | MaxRedirectsKey | NotifyKey
    | StartTlsKey | LanguageKey | VersionKey | OwnerKey

  /** How a known capability name is written, quotes included. */
  function KeyName(k: CapabilityKey): (t: string)
    ensures 2 < |t| && t[0] == '"' && t[|t| - 1] == '"'
  {
    match k
    case ImplementationKey => "\"IMPLEMENTATION\""
    case SaslKey => "\"SASL\""
    case SieveKey => "\"SIEVE\""
    case MaxRedirectsKey => "\"MAXREDIRECTS\""
    case NotifyKey => "\"NOTIFY\""
    case StartTlsKey => "\"STARTTLS\""
    case LanguageKey => "\"LANGUAGE\""
    case VersionKey => "\"VERSION\""
    case OwnerKey => "\"OWNER\""
  }

  /** The known capability names, in the order they are tried. */
  const CapabilityKeys: seq<CapabilityKey> := [
    ImplementationKey, SaslKey, SieveKey, MaxRedirectsKey, NotifyKey,
    StartTlsKey, LanguageKey, VersionKey, OwnerKey
  ]

  /**
   * The alternative of one known name. Apart from `"STARTTLS"`, which has no
   * value, a value that does not follow a matched name is a cut failure.
   */
  function KnownCapability(s: string, i: nat, k: CapabilityKey): (r: Parsed<Capability>)
    requires i <= |s|
    ensures r.Success? ==> i < r.next <= |s|
  {
    match k
    case ImplementationKey => Map(KeyValue(s, i, KeyName(k)), (v: string) => Implementation(v))
    case SaslKey => Map(KeyValue(s, i, KeyName(k)), (v: string) => Capability.Sasl(SpaceSeparated(v)))
    case SieveKey => Map(KeyValue(s, i, KeyName(k)), (v: string) => Sieve(SpaceSeparated(v)))
    case MaxRedirectsKey => Checked(KeyValue(s, i, KeyName(k)), MaxRedirectsValue)
    case NotifyKey => Checked(KeyValue(s, i, KeyName(k)), NotifyValue)
    case StartTlsKey => Map(Literal(s, i, KeyName(k), true), (u: ()) => StartTls)
    case LanguageKey => Map(KeyValue(s, i, KeyName(k)), (v: string) => Language(v))
    case VersionKey => VersionCapability(s, i)
    case OwnerKey => Map(KeyValue(s, i, KeyName(k)), (v: string) => Owner(v))
  }

  /** The known names `keys`, then an unknown capability, each tried after an uncut failure. */
  function CapabilityFrom(s: string, i: nat, keys: seq<CapabilityKey>): (r: Parsed<Capability>)
    requires i <= |s|
    ensures r.Success? ==> i < r.next <= |s|
  {
    if keys == [] then UnknownCapability(s, i)
    else Or(KnownCapability(s, i, keys[0]), CapabilityFrom(s, i, keys[1..]))
  }

  /** The alternatives of `single_capability`, in the order they are tried. */
  function CapabilityBody(s: string, i: nat): (r: Parsed<Capability>)
    requires i <= |s|
    ensures r.Success? ==> i < r.next <= |s|
  {
    CapabilityFrom(s, i, CapabilityKeys)
  }

  /** `single_capability`: one capability and its CRLF. */
  function SingleCapability(s: string, i: nat): (r: Parsed<Capability>)
    requires i <= |s|
    ensures r.Success? ==> i < r.next <= |s|
  {
    var c := CapabilityBody(s, i);
    if !c.Success? then c
    else
      var end := Literal(s, c.next, CRLF, false);
      if !end.Success? then Propagate(end)
      else Success(c.value, end.next)
  }

  /** `repeat(0.., single_capability)`. */
  function CapabilityLines(s: string, i: nat): (r: Parsed<seq<Capability>>)
    requires i <= |s|
    ensures r.Success? ==> i <= r.next <= |s|
    decreases |s| - i
  {
    var c := SingleCapability(s, i);
    if c.Failure? && !c.cut then Success([], i)
    else if !c.Success? then Propagate(c)
    else
      var more := CapabilityLines(s, c.next);
      if more.Success? then Success([c.value] + more.value, more.next) else more
  }

  /** `response_capability`: capability lines, then an OK, NO or BYE line. */
  function ResponseCapability(s: string, i: nat): (r: Parsed<(seq<Capability>, Response)>)
    requires i <= |s|
    ensures r.Success? ==> i < r.next <= |s|
  {
    var caps := CapabilityLines(s, i);
    if !caps.Success? then Propagate(caps)
    else
      var reply := ResponseOkNoBye(s, caps.next);
      if !reply.Success? then Propagate(reply)
      else Success((caps.value, reply.value), reply.next)
  }

  /** `response_authenticate`: a server challenge line, or the final reply. */
  function ResponseAuthenticate(s: string, i: nat): (r: Parsed<Either<string, Response>>)
    requires i <= |s|
    ensures r.Success? ==> i < r.next <= |s|
  {
    Or(Map(StringLine(s, i), (v: string) => Left(v)),
       Map(ResponseOkNoBye(s, i), (v: Response) => Right(v)))
  }

  /** `terminated(sievestring_s2c, crlf)`. */
  function StringLine(s: string, i: nat): (r: Parsed<string>)
    requires i <= |s|
    ensures r.Success? ==> i < r.next <= |s|
    ensures r.Failure? ==> !r.cut
  {
    var v := SieveString(s, i);
    if !v.Success? then Propagate(v)
    else
      var end := Literal(s, v.next, CRLF, false);
      if !end.Success? then Propagate(end)
      else Success(v.value, end.next)
  }

  /** `response_getscript`: the script and an OK line, or a NO or BYE line. */
  function ResponseGetScript(s: string, i: nat): (r: Parsed<Either<(string, Response), Response>>)
    requires i <= |s|
    ensures r.Success? ==> i < r.next <= |s|
    ensures r.Success? && r.value.Left? ==> r.value.left.1.tag == OK
    ensures r.Success? && r.value.Right? ==> r.value.right.tag != OK
  {
    Or(ScriptAndOk(s, i),
       Map(ResponseNoBye(s, i), (v: Response) => Right(v)))
  }

  /** `separated_pair(sievestring_s2c, crlf, response_ok)`. */
  function ScriptAndOk(s: string, i: nat): (r: Parsed<Either<(string, Response), Response>>)
    requires i <= |s|
    ensures r.Success? ==> i < r.next <= |s| && r.value.Left? && r.value.left.1.tag == OK
    ensures r.Failure? ==> !r.cut
  {
    var script := StringLine(s, i);
    if !script.Success? then Propagate(script)
    else
      var ok := ResponseOk(s, script.next);
      if !ok.Success? then Propagate(ok)
      else Success(Left((script.value, ok.value)), ok.next)
  }

  /** `opt((space1, Caseless("ACTIVE")))`, as a flag. */
  function ActiveMark(s: string, j: nat): (r: Parsed<bool>)
    requires j <= |s|
    ensures r.Success? ==> j <= r.next <= |s|
    ensures r.Success? && r.value ==> j < r.next
    ensures r.Success? && !r.value ==> r.next == j
    ensures !r.Failure?
  {
    var sp := Space1(s, j);
    if sp.Failure? then Success(false, j)
    else if sp.Incomplete? then Incomplete
    else
      var a := Literal(s, sp.next, "ACTIVE", true);
      if a.Success? then Success(true, a.next)
      else if a.Incomplete? then Incomplete
      else Success(false, j)
  }

  /** One LISTSCRIPTS line: a legal script name, the ACTIVE mark, CRLF. */
  function ScriptLine(s: string, i: nat): (r: Parsed<(SieveName.SieveNameString, bool)>)
    requires i <= |s|
    ensures r.Success? ==> i < r.next <= |s|
    ensures r.Failure? ==> !r.cut
  {
    var name := SieveString(s, i);
    if !name.Success? then Propagate(name)
    else match SieveName.New(name.value)
      case Err(_) => Failure(false)
      case Ok(legal) =>
        var active := ActiveMark(s, name.next);
        if !active.Success? then Propagate(active)
        else
          var end := Literal(s, active.next, CRLF, false);
          if !end.Success? then Propagate(end)
          else Success((legal, active.value), end.next)
  }

  /** `repeat(0.., script line)`. */
  function ScriptLines(s: string, i: nat): (r: Parsed<seq<(SieveName.SieveNameString, bool)>>)
    requires i <= |s|
    ensures r.Success? ==> i <= r.next <= |s|
    ensures r.Failure? ==> !r.cut
    decreases |s| - i
  {
    var line := ScriptLine(s, i);
    if line.Failure? then Success([], i)
    else if line.Incomplete? then Incomplete
    else
      var more := ScriptLines(s, line.next);
      if more.Success? then Success([line.value] + more.value, more.next) else more
  }

  /** `response_listscripts`: script lines, then an OK, NO or BYE line. */
  function ResponseListScripts(s: string, i: nat)
    : (r: Parsed<(seq<(SieveName.SieveNameString, bool)>, Response)>)
    requires i <= |s|
    ensures r.Success? ==> i < r.next <= |s|
    ensures r.Failure? ==> !r.cut
  {
    var scripts := ScriptLines(s, i);
    if !scripts.Success? then Propagate(scripts)
    else
      var reply := ResponseOkNoBye(s, scripts.next);
      if !reply.Success? then Propagate(reply)
      else Success((scripts.value, reply.value), reply.next)
  }

  // The whole-buffer entry points handed to the receive loop.

  function OkReply(buf: string): Parsed<Response> {
    ResponseOk(buf, 0)
  }

  function OkNoByeReply(buf: string): Parsed<Response> {
    ResponseOkNoBye(buf, 0)
  }

  function CapabilityReply(buf: string): Parsed<(seq<Capability>, Response)> {
    ResponseCapability(buf, 0)
  }

  function GetScriptReply(buf: string): Parsed<Either<(string, Response), Response>> {
    ResponseGetScript(buf, 0)
  }

  function ListScriptsReply(buf: string): Parsed<(seq<(SieveName.SieveNameString, bool)>, Response)> {
    ResponseListScripts(buf, 0)
  }
}
