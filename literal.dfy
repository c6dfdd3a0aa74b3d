/**
 * String literals of the ManageSieve protocol (section 4 of RFC 5804): a
 * head `{n}` or `{n+}` and CRLF, then exactly `n` bytes of text. Both the
 * command writers (synchronising form) and the internal command text
 * (non-synchronising form) use it; the lemmas here show a literal is read
 * back unambiguously whatever follows it.
 */
module Literals {
  import opened Text
  import Utf8

  /** The head of a literal announcing `n` bytes; `plus` marks the non-synchronising form. */
  function Head(n: nat, plus: bool): string {
    "{" + Decimal(n) + (if plus then "+}" else "}") + CRLF
  }

  /** A text sent as a literal: the head with the text's byte length, then the text. */
  function Literal(s: string, plus: bool): string {
    Head(Utf8.Length(s), plus) + s
  }

  predicate IsUpper(c: char) {
    'A' <= c <= 'Z'
  }

  /** A text's UTF-8 length is the sum of its parts'. */
  lemma {:induction false} LengthAppend(a: string, b: string)
    ensures Utf8.Length(a + b) == Utf8.Length(a) + Utf8.Length(b)
  {
    Utf8.EncodeAppend(a, b);
  }

  /** Of two texts that start the same string, the one with as many bytes as the other is the other. */
  lemma {:induction false} PrefixByLength(a: string, x: string, b: string, y: string)
    requires a + x == b + y && Utf8.Length(a) == Utf8.Length(b)
    ensures a == b && x == y
    decreases if |a| <= |b| then 0 else 1
  {
    if |a| <= |b| {
      var t := b[|a|..];
      assert b == a + t by {
        forall k | 0 <= k < |a|
          ensures a[k] == b[k]
        {
          assert (a + x)[k] == a[k] && (b + y)[k] == b[k];
        }
        assert b == b[..|a|] + t;
      }
      LengthAppend(a, t);
      assert a + x == a + y;
      assert x == (a + x)[|a|..] && y == (a + y)[|a|..];
    } else {
      PrefixByLength(b, y, a, x);
    }
  }

  /** A literal head is read back unambiguously: the digits run up to the closing mark. */
  lemma {:induction false} HeadInjective(m: nat, x: string, n: nat, y: string, plus: bool)
    requires Head(m, plus) + x == Head(n, plus) + y
    ensures m == n && x == y
  {
    var s := Head(m, plus) + x;
    var dm, dn := Decimal(m), Decimal(n);
    var close := if plus then "+}" else "}";
    assert Head(m, plus) == "{" + dm + close + CRLF;
    assert Head(n, plus) == "{" + dn + close + CRLF;
    assert forall k :: 0 <= k < |dm| ==> s[1 + k] == dm[k];
    assert forall k :: 0 <= k < |dn| ==> s[1 + k] == dn[k];
    assert s[1 + |dm|] == close[0] && s[1 + |dn|] == close[0];
    assert |dm| == |dn|;
    assert dm == dn;
    DecimalInjective(m, n);
    assert x == s[|Head(m, plus)|..];
  }

  /** A literal is read back unambiguously, whatever follows it. */
  lemma {:induction false} LiteralInjective(a: string, x: string, b: string, y: string, plus: bool)
    requires Literal(a, plus) + x == Literal(b, plus) + y
    ensures a == b && x == y
  {
    var m, n := Utf8.Length(a), Utf8.Length(b);
    assert Head(m, plus) + (a + x) == Literal(a, plus) + x;
    assert Head(n, plus) + (b + y) == Literal(b, plus) + y;
    HeadInjective(m, a + x, n, b + y, plus);
    PrefixByLength(a, x, b, y);
  }

  /** A word of capitals ends where the capitals end, whatever follows it. */
  lemma {:induction false} WordSplit(v: string, x: string, w: string, y: string)
    requires v + x == w + y && 0 < |x| && 0 < |y| && !IsUpper(x[0]) && !IsUpper(y[0])
    requires forall k :: 0 <= k < |v| ==> IsUpper(v[k])
    requires forall k :: 0 <= k < |w| ==> IsUpper(w[k])
    ensures v == w
  {
    var s := v + x;
    assert forall k :: 0 <= k < |v| ==> s[k] == v[k];
    assert forall k :: 0 <= k < |w| ==> s[k] == w[k];
    assert s[|v|] == x[0] && s[|w|] == y[0];
    assert |v| == |w|;
  }
}
