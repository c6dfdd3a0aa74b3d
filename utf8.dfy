/**
 * UTF-8 as Rust's `str` uses it: `str::len` and `str::as_bytes` on the
 * writing side, `str::from_utf8` (strict: no overlong forms, no surrogates,
 * nothing past U+10FFFF, no truncated sequence) on the reading side.
 */
module Utf8 {
  import opened Wrappers

  type byte = b: int | 0 <= b < 0x100

  function EncodeChar(c: char): (r: seq<byte>)
    ensures 1 <= |r| <= 4
  {
    var n := c as int;
    if n < 0x80 then [n]
    else if n < 0x800 then Lead2(n)
    else if n < 0x1_0000 then Lead3(n)
    else Lead4(n)
  }

  function Lead2(n: int): seq<byte>
    requires 0x80 <= n < 0x800
  {
    [0xC0 + n / 0x40, 0x80 + n % 0x40]
  }

  function Lead3(n: int): seq<byte>
    requires 0x800 <= n < 0x1_0000
  {
    var m := n % 0x1000;
    [0xE0 + n / 0x1000, 0x80 + m / 0x40, 0x80 + m % 0x40]
  }

  function Lead4(n: int): seq<byte>
    requires 0x1_0000 <= n < 0x11_0000
  {
    var m := n % 0x4_0000;
    var m2 := m % 0x1000;
    [0xF0 + n / 0x4_0000, 0x80 + m / 0x1000, 0x80 + m2 / 0x40, 0x80 + m2 % 0x40]
  }

  /** `s.as_bytes()`. */
  function Encode(s: string): seq<byte> {
    if s == [] then [] else EncodeChar(s[0]) + Encode(s[1..])
  }

  /** `s.len()`: the length in bytes, not in characters. */
  function Length(s: string): nat {
    |Encode(s)|
  }

  predicate IsContinuation(b: byte) {
    0x80 <= b < 0xC0
  }

  /** The scalar value at the front of `b` and the number of bytes it takes. */
  function DecodeChar(b: seq<byte>): (r: Option<(char, nat)>)
    ensures r.Some? ==> 1 <= r.value.1 <= |b|
  {
    if |b| == 0 then None
    else if b[0] < 0x80 then Some((b[0] as char, 1))
    else if 0xC2 <= b[0] < 0xE0 then
      if 2 <= |b| && IsContinuation(b[1]) then
        Some((((b[0] as int - 0xC0) * 0x40 + (b[1] as int - 0x80)) as char, 2))
      else None
    else if 0xE0 <= b[0] < 0xF0 then
      if 3 <= |b| && IsContinuation(b[1]) && IsContinuation(b[2]) then
        var n := (b[0] as int - 0xE0) * 0x1000 + (b[1] as int - 0x80) * 0x40 + (b[2] as int - 0x80);
        if 0x800 <= n && !(0xD800 <= n < 0xE000) then Some((n as char, 3)) else None
      else None
    else if 0xF0 <= b[0] < 0xF5 then
      if 4 <= |b| && IsContinuation(b[1]) && IsContinuation(b[2]) && IsContinuation(b[3]) then
        var n := (b[0] as int - 0xF0) * 0x4_0000 + (b[1] as int - 0x80) * 0x1000 + (b[2] as int - 0x80) * 0x40 + (b[3] as int - 0x80);
        if 0x1_0000 <= n < 0x11_0000 then Some((n as char, 4)) else None
      else None
    else None
  }

  /** `str::from_utf8`: the text `b` encodes, or `None` when `b` is not valid UTF-8 on its own. */
  function Decode(b: seq<byte>): Option<string>
    decreases |b|
  {
    if b == [] then Some("")
    else match DecodeChar(b)
      case None => None
      case Some((c, k)) =>
        match Decode(b[k..])
        case None => None
        case Some(s) => Some([c] + s)
  }

  lemma {:induction false} DecodeEncodeChar(c: char, rest: seq<byte>)
    ensures DecodeChar(EncodeChar(c) + rest) == Some((c, |EncodeChar(c)|))
  {
    var n := c as int;
    var b := EncodeChar(c) + rest;
    if n < 0x80 {
    } else if n < 0x800 {
      assert (b[0] as int - 0xC0) * 0x40 + (b[1] as int - 0x80) == n;
    } else if n < 0x1_0000 {
      Decode3(n, b);
    } else {
      Decode4(n, b);
    }
  }

  lemma {:induction false} Decode3(n: int, b: seq<byte>)
    requires 0x800 <= n < 0x1_0000 && 3 <= |b| && b[..3] == Lead3(n)
    ensures (b[0] as int - 0xE0) * 0x1000 + (b[1] as int - 0x80) * 0x40 + (b[2] as int - 0x80) == n
  {
    var m := n % 0x1000;
    assert n == (n / 0x1000) * 0x1000 + m;
    assert m == (m / 0x40) * 0x40 + m % 0x40;
    assert b[0] == (b[..3])[0] && b[1] == (b[..3])[1] && b[2] == (b[..3])[2];
  }

  lemma {:induction false} Decode4(n: int, b: seq<byte>)
    requires 0x1_0000 <= n < 0x11_0000 && 4 <= |b| && b[..4] == Lead4(n)
    ensures (b[0] as int - 0xF0) * 0x4_0000 + (b[1] as int - 0x80) * 0x1000
            + (b[2] as int - 0x80) * 0x40 + (b[3] as int - 0x80) == n
  {
    var m := n % 0x4_0000;
    var m2 := m % 0x1000;
    assert n == (n / 0x4_0000) * 0x4_0000 + m;
    assert m == (m / 0x1000) * 0x1000 + m2;
    assert m2 == (m2 / 0x40) * 0x40 + m2 % 0x40;
    assert b[0] == (b[..4])[0] && b[1] == (b[..4])[1] && b[2] == (b[..4])[2] && b[3] == (b[..4])[3];
  }

  /** Whatever `as_bytes` writes, `from_utf8` reads back unchanged. */
  lemma {:induction false} DecodeEncode(s: string)
    ensures Decode(Encode(s)) == Some(s)
  {
    if s != [] {
      var e := EncodeChar(s[0]);
      DecodeEncodeChar(s[0], Encode(s[1..]));
      DecodeEncode(s[1..]);
      assert (e + Encode(s[1..]))[|e|..] == Encode(s[1..]);
      assert [s[0]] + s[1..] == s;
    }
  }

  lemma {:induction false} EncodeAppend(a: string, b: string)
    ensures Encode(a + b) == Encode(a) + Encode(b)
  {
    if a == [] {
      assert a + b == b;
    } else {
      EncodeAppend(a[1..], b);
      assert (a + b)[1..] == a[1..] + b;
    }
  }

  predicate IsAscii(s: string) {
    forall k :: 0 <= k < |s| ==> s[k] as int < 0x80
  }

  /** The bytes of a text taken one per character, as they are for ASCII text. */
  function AsciiBytes(s: string): (b: seq<byte>)
    ensures |b| == |s|
  {
    seq(|s|, i requires 0 <= i < |s| => s[i] as int % 0x100)
  }

  /** ASCII text encodes to its characters' codes. */
  lemma {:induction false} EncodeAscii(s: string)
    requires IsAscii(s)
    ensures Encode(s) == AsciiBytes(s)
  {
    if s != [] {
      EncodeAscii(s[1..]);
      assert AsciiBytes(s) == [s[0] as int] + AsciiBytes(s[1..]);
    }
  }

  /** ASCII text is one byte per character. */
  lemma {:induction false} AsciiLength(s: string)
    requires forall k :: 0 <= k < |s| ==> s[k] as int < 0x80
    ensures Length(s) == |s|
  {
    if s != [] {
      AsciiLength(s[1..]);
    }
  }
}
