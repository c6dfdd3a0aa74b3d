/**
 * Character-level helpers the source takes from Rust's standard library:
 * decimal formatting (`itoa`, `{}` on integers), parsing of digit runs
 * (`str::parse::<u64>`), ASCII case folding (`eq_ignore_ascii_case`) and
 * `str::split(' ')`.
 */
module Text {

  const U32_MAX: nat := 0xFFFF_FFFF
  const U64_MAX: nat := 0xFFFF_FFFF_FFFF_FFFF

  type u32 = n: nat | n <= U32_MAX
  type u64 = n: nat | n <= U64_MAX

  const CRLF: string := "\r\n"

  predicate IsDigit(c: char) {
    '0' <= c <= '9'
  }

  predicate AllDigits(s: string) {
    forall k :: 0 <= k < |s| ==> IsDigit(s[k])
  }

  /** The decimal digits of `n`, without leading zeros. */
  function Decimal(n: nat): (s: string)
    ensures 0 < |s| && AllDigits(s)
    ensures |s| > 1 ==> s[0] != '0'
  {
    var d := ['0' + (n % 10) as char];
    if n < 10 then d else Decimal(n / 10) + d
  }

  /** The number a run of decimal digits denotes (leading zeros allowed). */
  function DigitsValue(s: string): nat
    requires AllDigits(s)
  {
    if s == [] then 0
    else DigitsValue(s[..|s| - 1]) * 10 + (s[|s| - 1] as int - '0' as int)
  }

  /** Reading back what `Decimal` wrote gives the number again. */
  lemma {:induction false} DecimalValue(n: nat)
    ensures DigitsValue(Decimal(n)) == n
  {
    var s := Decimal(n);
    if n >= 10 {
      DecimalValue(n / 10);
      assert s[..|s| - 1] == Decimal(n / 10);
    }
  }

  /** Decimal numerals are distinct for distinct numbers. */
  lemma {:induction false} DecimalInjective(m: nat, n: nat)
    requires Decimal(m) == Decimal(n)
    ensures m == n
  {
    DecimalValue(m);
    DecimalValue(n);
  }

  /** ASCII-only lower-casing, as `eq_ignore_ascii_case` compares. */
  function Lower(c: char): char {
    if 'A' <= c <= 'Z' then (c as int + 32) as char else c
  }

  function LowerAll(s: string): (r: string)
    ensures |r| == |s|
    ensures forall k :: 0 <= k < |s| ==> r[k] == Lower(s[k])
  {
    seq(|s|, k requires 0 <= k < |s| => Lower(s[k]))
  }

  /** ASCII case-insensitive equality. */
  predicate SameCaseless(a: string, b: string) {
    LowerAll(a) == LowerAll(b)
  }

  /** The index of the first space in `s` at or after `from`, or `|s|`. */
  function NextSpace(s: string, from: nat): (k: nat)
    requires from <= |s|
    ensures from <= k <= |s|
    ensures k < |s| ==> s[k] == ' '
    ensures forall m :: from <= m < k ==> s[m] != ' '
    decreases |s| - from
  {
    if from == |s| || s[from] == ' ' then from else NextSpace(s, from + 1)
  }

  /** `str::split(' ')`: the pieces between single spaces; `""` gives `[""]`. */
  function Split(s: string): (r: seq<string>)
    ensures 0 < |r|
    ensures forall k, m :: 0 <= k < |r| && 0 <= m < |r[k]| ==> r[k][m] != ' '
    decreases |s|
  {
    var k := NextSpace(s, 0);
    if k == |s| then [s] else [s[..k]] + Split(s[k + 1..])
  }

  /** Pieces glued back together with single spaces. */
  function Join(parts: seq<string>): string {
    if parts == [] then ""
    else if |parts| == 1 then parts[0]
    else parts[0] + " " + Join(parts[1..])
  }

  /** Splitting on single spaces loses nothing: joining the pieces restores the text. */
  lemma {:induction false} JoinSplit(s: string)
    ensures Join(Split(s)) == s
    decreases |s|
  {
    var k := NextSpace(s, 0);
    if k < |s| {
      JoinSplit(s[k + 1..]);
      assert s == s[..k] + " " + s[k + 1..];
    }
  }

  /** Conversely, splitting a join of space-free, non-empty lists gives the pieces back. */
  lemma {:induction false} SplitJoin(parts: seq<string>)
    requires 0 < |parts|
    requires forall k, m :: 0 <= k < |parts| && 0 <= m < |parts[k]| ==> parts[k][m] != ' '
    ensures Split(Join(parts)) == parts
    decreases |parts|
  {
    var s := Join(parts);
    var p := parts[0];
    assert forall m :: 0 <= m < |p| ==> p[m] != ' ' by {
      forall m | 0 <= m < |p| ensures p[m] != ' ' {
        assert parts[0][m] != ' ';
      }
    }
    if |parts| == 1 {
      NextSpaceFree(s, 0);
    } else {
      var rest := parts[1..];
      assert forall k, m :: 0 <= k < |rest| && 0 <= m < |rest[k]| ==> rest[k][m] != ' ' by {
        forall k, m | 0 <= k < |rest| && 0 <= m < |rest[k]| ensures rest[k][m] != ' ' {
          assert rest[k] == parts[k + 1];
        }
      }
      SplitJoin(rest);
      var t := Join(rest);
      assert s == p + " " + t;
      assert forall m :: 0 <= m < |p| ==> s[m] != ' ' by {
        forall m | 0 <= m < |p| ensures s[m] != ' ' {
          assert s[m] == p[m];
        }
      }
      NextSpaceAt(s, 0, |p|);
      assert s[..|p|] == p;
      assert s[|p| + 1..] == t;
      assert Split(s) == [p] + Split(t);
      assert parts == [p] + rest;
    }
  }

  lemma {:induction false} NextSpaceFree(s: string, from: nat)
    requires from <= |s|
    requires forall m :: from <= m < |s| ==> s[m] != ' '
    ensures NextSpace(s, from) == |s|
    decreases |s| - from
  {
    if from < |s| {
      NextSpaceFree(s, from + 1);
    }
  }

  lemma {:induction false} NextSpaceAt(s: string, from: nat, k: nat)
    requires from <= k < |s| && s[k] == ' '
    requires forall m :: from <= m < k ==> s[m] != ' '
    ensures NextSpace(s, from) == k
    decreases k - from
  {
    if from < k {
      NextSpaceAt(s, from + 1, k);
    }
  }
}
