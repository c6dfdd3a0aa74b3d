/**
 * Script names (section 1.6 of RFC 5804): a name may hold any Unicode text
 * except control characters and the line and paragraph separators.
 */
module SieveName {
  import opened Wrappers

  /** Unicode general category Cc: the C0 controls and DEL plus the C1 controls. */
  predicate IsControl(c: char) {
    c as int < 0x20 || 0x7F <= c as int < 0xA0
  }

  /** `is_bad_sieve_name_char`: the guarded match, one arm per forbidden range. */
  function IsBadChar(c: char): (bad: bool)
    ensures bad <==> IsControl(c) || c as int == 0x2028 || c as int == 0x2029
    ensures ' ' <= c <= '~' ==> !bad
  {
    if c <= 0x1F as char then true
    else if c >= 0x7F as char && c <= 0x9F as char then true
    else if c == 0x2028 as char || c == 0x2029 as char then true
    else false
  }

  /** `is_bad_sieve_name`: `name.chars().any(is_bad_sieve_name_char)`. */
  function IsBadName(name: string): (bad: bool)
    ensures bad <==> exists k :: 0 <= k < |name| && IsBadChar(name[k])
    ensures name == "" ==> !bad
  {
    if name == [] then false
    else IsBadChar(name[0]) || IsBadName(name[1..])
  }

  /** `SieveNameError`: the one error a name check can report. */
  datatype SieveNameError = SieveNameError

  /** A `SieveNameString` owns a name that passed the check. */
  type SieveNameString = s: string | !IsBadName(s) witness ""

  /**
   * `SieveNameString::new` (and `SieveNameStr::new`, which is the same check on
   * a borrowed name): the name is wrapped unchanged when it is legal.
   */
  function New(name: string): (r: Result<SieveNameString, SieveNameError>)
    ensures r.Ok? <==> forall k :: 0 <= k < |name| ==> !IsBadChar(name[k])
    ensures r.Ok? ==> r.value == name
    ensures r.Err? ==> r.error == SieveNameError
  {
    if IsBadName(name) then Err(SieveNameError) else Ok(name)
  }

  /** A name made of two legal names is legal, and a legal name has legal parts. */
  lemma {:induction false} BadNameAppend(a: string, b: string)
    ensures IsBadName(a + b) <==> IsBadName(a) || IsBadName(b)
  {
    if IsBadName(a) {
      var k :| 0 <= k < |a| && IsBadChar(a[k]);
      assert (a + b)[k] == a[k];
    }
    if IsBadName(b) {
      var k :| 0 <= k < |b| && IsBadChar(b[k]);
      assert (a + b)[|a| + k] == b[k];
    }
    if IsBadName(a + b) {
      var k :| 0 <= k < |a + b| && IsBadChar((a + b)[k]);
      if k < |a| {
        assert a[k] == (a + b)[k];
      } else {
        assert b[k - |a|] == (a + b)[k];
      }
    }
  }
}
