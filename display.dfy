/**
 * How response codes, extension items and the information part of a reply
 * are shown to a person. Each is written piece by piece into a formatter;
 * the lists inside extension data are written one item at a time with a
 * `first` flag deciding whether a blank goes in front.
 */
module Display {
  import opened Wrappers
  import opened Text
  import opened Protocol

  /** The text a formatter has accumulated. Writing into a string never fails. */
  class Formatter {
    var text: string

    constructor ()
      ensures text == ""
    {
      text := "";
    }

    method Write(s: string)
      modifies this
      ensures text == old(text) + s
    {
      text := text + s;
    }
  }

  /** The text of each item, in order. */
  function Texts(items: seq<ExtensionItem>): seq<string> {
    seq(|items|, k requires 0 <= k < |items| => ItemText(items[k]))
  }

  /** `Display for ExtensionItem`: a string as it is, a number in decimal, a list in parentheses with its items separated by single blanks. */
  function ItemText(item: ExtensionItem): string
    decreases item
  {
    match item
    case String(s) => s
    case Number(n) => Decimal(n)
    case ExtensionData(d) =>
      "(" + Join(seq(|d|, k requires 0 <= k < |d| => ItemText(d[k]))) + ")"
  }

  /** The items of extension data, separated by single blanks. */
  function ItemsText(items: seq<ExtensionItem>): string {
    Join(Texts(items))
  }

  /** The fixed texts of the codes that carry nothing, in declaration order. */
  const Fixed: seq<string> := [
    "AUTH-TOO-WEAK", "ENCRYPT-NEEDED", "QUOTA", "QUOTA/MAXSCRIPTS", "QUOTA/MAXSIZE", "SASL ...",
    "TRANSITION-NEEDED", "TRYLATER", "ACTIVE", "NONEXISTENT", "ALREADYEXISTS", "WARNINGS"]

  /** `Display for ResponseCode`. A SASL code shows as a fixed text whatever its payload. */
  function CodeText(code: ResponseCode): string {
    match code
    case AuthTooWeak => Fixed[0]
    case EncryptNeeded => Fixed[1]
    case Quota(Unspecified) => Fixed[2]
    case Quota(MaxScripts) => Fixed[3]
    case Quota(MaxSize) => Fixed[4]
    case Referral(r) => "REFERRAL " + r
    case Sasl(_) => Fixed[5]
    case TransitionNeeded => Fixed[6]
    case TryLater => Fixed[7]
    case Active => Fixed[8]
    case Nonexistent => Fixed[9]
    case AlreadyExists => Fixed[10]
    case Warnings => Fixed[11]
    case Tag(t) => "TAG " + t
    case Extension(name, data) => name + " " + (if data.Some? then ItemsText(data.value) else "")
  }

  /** `Display for ResponseInfo`: the code in parentheses, a blank when both parts are there, then the human-readable text. */
  function InfoText(info: ResponseInfo): string {
    (if info.code.Some? then "(" + CodeText(info.code.value) + ")" else "")
    + (if info.code.Some? && info.human.Some? then " " else "")
    + (if info.human.Some? then info.human.value else "")
  }

  /** Adding one more piece to a join puts a single blank in front of it, unless it is the first. */
  lemma {:induction false} JoinSnoc(parts: seq<string>, p: string)
    ensures Join(parts + [p]) == if parts == [] then p else Join(parts) + " " + p
    decreases |parts|
  {
    if |parts| > 1 {
      var rest := parts[1..];
      JoinSnoc(rest, p);
      assert (parts + [p])[1..] == rest + [p];
    } else if |parts| == 1 {
      assert (parts + [p])[1..] == [p];
    }
  }

  /** Joining the texts of one more item puts a single blank in front of it, unless it is the first. */
  lemma {:induction false} JoinStep(items: seq<ExtensionItem>, i: nat)
    requires i < |items|
    ensures Join(Texts(items[..i + 1]))
      == if i == 0 then ItemText(items[i]) else Join(Texts(items[..i])) + " " + ItemText(items[i])
  {
    assert items[..i + 1] == items[..i] + [items[i]];
    assert Texts(items[..i + 1]) == Texts(items[..i]) + [ItemText(items[i])];
    JoinSnoc(Texts(items[..i]), ItemText(items[i]));
  }

  /** The list loop of both `fmt` functions: each item after the first gets a blank in front. */
  method FmtItems(f: Formatter, items: seq<ExtensionItem>, ghost bound: ExtensionItem)
    requires forall k :: 0 <= k < |items| ==> items[k] < bound
    modifies f
    ensures f.text == old(f.text) + ItemsText(items)
    decreases bound, 0
  {
    var first := true;
    var i := 0;
    while i < |items|
      invariant 0 <= i <= |items|
      invariant first <==> i == 0
      invariant f.text == old(f.text) + Join(Texts(items[..i]))
    {
      ghost var done := f.text;
      if !first {
        f.Write(" ");
      }
      first := false;
      FmtItem(f, items[i]);
      JoinStep(items, i);
      assert f.text == done + (if i == 0 then "" else " ") + ItemText(items[i]);
      i := i + 1;
    }
    assert items[..i] == items;
  }

  /** `ExtensionItem::fmt`. */
  method FmtItem(f: Formatter, item: ExtensionItem)
    modifies f
    ensures f.text == old(f.text) + ItemText(item)
    decreases item, 1
  {
    match item {
      case String(s) =>
        f.Write(s);
      case Number(n) =>
        f.Write(Decimal(n));
      case ExtensionData(d) =>
        f.Write("(");
        FmtItems(f, d, item);
        f.Write(")");
        assert Texts(d) == seq(|d|, k requires 0 <= k < |d| => ItemText(d[k]));
    }
  }

  /** `ResponseCode::fmt`. */
  method FmtCode(f: Formatter, code: ResponseCode)
    modifies f
    ensures f.text == old(f.text) + CodeText(code)
  {
    match code {
      case AuthTooWeak => f.Write("AUTH-TOO-WEAK");
      case EncryptNeeded => f.Write("ENCRYPT-NEEDED");
      case Quota(Unspecified) => f.Write("QUOTA");
      case Quota(MaxScripts) => f.Write("QUOTA/MAXSCRIPTS");
      case Quota(MaxSize) => f.Write("QUOTA/MAXSIZE");
      case Referral(r) => f.Write("REFERRAL " + r);
      case Sasl(_) => f.Write("SASL ...");
      case TransitionNeeded => f.Write("TRANSITION-NEEDED");
      case TryLater => f.Write("TRYLATER");
      case Active => f.Write("ACTIVE");
      case Nonexistent => f.Write("NONEXISTENT");
      case AlreadyExists => f.Write("ALREADYEXISTS");
      case Warnings => f.Write("WARNINGS");
      case Tag(t) => f.Write("TAG " + t);
      case Extension(name, data) =>
        f.Write(name + " ");
        // `data.iter().flatten()`: no data is no items
        var items := if data.Some? then data.value else [];
        FmtItems(f, items, ExtensionData(items));
        assert data.None? ==> ItemsText(items) == "";
    }
  }

  /** `ResponseInfo::fmt`. */
  method FmtInfo(f: Formatter, info: ResponseInfo)
    modifies f
    ensures f.text == old(f.text) + InfoText(info)
  {
    ghost var start := f.text;
    if info.code.Some? {
      ghost var c := CodeText(info.code.value);
      f.Write("(");
      FmtCode(f, info.code.value);
      assert f.text == start + "(" + c;
      f.Write(")");
      assert f.text == start + ("(" + c + ")");
    }
    ghost var coded := f.text;
    if info.code.Some? && info.human.Some? {
      f.Write(" ");
    }
    ghost var spaced := f.text;
    if info.human.Some? {
      f.Write(info.human.value);
    }
    InfoParts(info, start, coded, spaced, f.text);
  }

  lemma {:induction false} InfoParts(info: ResponseInfo, start: string, coded: string, spaced: string, end: string)
    requires coded == start + if info.code.Some? then "(" + CodeText(info.code.value) + ")" else ""
    requires spaced == coded + if info.code.Some? && info.human.Some? then " " else ""
    requires end == spaced + if info.human.Some? then info.human.value else ""
    ensures end == start + InfoText(info)
  {
  }

  /** `to_string` of the information part of a reply, as error messages show it. */
  method InfoString(info: ResponseInfo) returns (s: string)
    ensures s == InfoText(info)
  {
    var f := new Formatter();
    FmtInfo(f, info);
    s := f.text;
  }

  /** `to_string` of a response code. */
  method CodeString(code: ResponseCode) returns (s: string)
    ensures s == CodeText(code)
  {
    var f := new Formatter();
    FmtCode(f, code);
    s := f.text;
  }

  /** A SASL code never shows its payload: all of them look the same. */
  lemma {:induction false} SaslHidden(x: string, y: string)
    ensures CodeText(ResponseCode.Sasl(x)) == CodeText(ResponseCode.Sasl(y)) == "SASL ..."
  {
  }

  /** An extension code without data shows its name and a blank, just as one with an empty list. */
  lemma {:induction false} ExtensionWithoutData(name: string)
    ensures CodeText(Extension(name, None)) == name + " "
    ensures CodeText(Extension(name, Some([]))) == CodeText(Extension(name, None))
  {
    assert Texts([]) == [];
  }

  /** A number shows as its decimal digits, which read back as the number. */
  lemma {:induction false} NumberText(n: u64)
    ensures AllDigits(ItemText(Number(n)))
    ensures DigitsValue(ItemText(Number(n))) == n as nat
  {
    DecimalValue(n as nat);
  }

  /** An item that shows as one word: a number, or a string that is not empty and has no blank. */
  predicate IsWord(item: ExtensionItem) {
    item.Number? || (item.String? && item.s != "" && forall m :: 0 <= m < |item.s| ==> item.s[m] != ' ')
  }

  /** Items that each show as one word are separated by single blanks: splitting the text at blanks gives each item's text back. */
  lemma {:induction false} ItemsSplit(items: seq<ExtensionItem>)
    requires 0 < |items|
    requires forall k :: 0 <= k < |items| ==> IsWord(items[k])
    ensures Split(ItemsText(items)) == Texts(items)
  {
    var parts := Texts(items);
    forall k, m | 0 <= k < |parts| && 0 <= m < |parts[k]|
      ensures parts[k][m] != ' '
    {
      assert IsWord(items[k]);
      if items[k].Number? {
        assert IsDigit(parts[k][m]);
      }
    }
    SplitJoin(parts);
  }

  /** The information part shows nothing exactly when it has no code and no (or an empty) human-readable text. */
  lemma {:induction false} InfoEmpty(info: ResponseInfo)
    ensures InfoText(info) == "" <==> info.code.None? && (info.human.None? || info.human.value == "")
  {
  }

  /** With both parts, the code comes first in parentheses, then one blank, then the text. */
  lemma {:induction false} InfoBoth(info: ResponseInfo)
    requires info.code.Some? && info.human.Some?
    ensures InfoText(info) == "(" + CodeText(info.code.value) + ") " + info.human.value
  {
  }
}
