/**
 * The response-code table: which named code a code body reads as, the
 * order in which the QUOTA variants are tried, and the codes that need a
 * sieve-string right after their name.
 */
module ParserCodes {
  import opened Wrappers
  import opened Text
  import opened Protocol
  import opened Parser
  import opened ParserStrings
  import opened ParserReplies

  /** A named code whose first letter differs from the text is skipped. */
  lemma {:induction false} SkipFirst(s: string, j: nat, names: seq<CodeName>)
    requires j < |s| && names != [] && Unlike(s[j], names[0])
    ensures CodeFrom(s, j, names) == CodeFrom(s, j, names[1..])
  {
    Differs(s, j, names[0].name, 0, true);
    SkipName(s, j, names);
  }

  /** A named code whose `k`-th letter differs from the text is skipped. */
  lemma {:induction false} SkipAt(s: string, j: nat, names: seq<CodeName>, k: nat)
    requires names != [] && j + k < |s| && k < |names[0].name|
    requires Lower(s[j + k]) != Lower(names[0].name[k])
    ensures CodeFrom(s, j, names) == CodeFrom(s, j, names[1..])
  {
    Differs(s, j, names[0].name, k, true);
    SkipName(s, j, names);
  }

  /** The named code at the head of `names` that matches is the result. */
  lemma {:induction false} TakeName(s: string, j: nat, names: seq<CodeName>, c: ResponseCode, e: nat)
    requires j <= |s| && names != [] && NamedCode(s, j, names[0]) == Success(c, e)
    ensures CodeFrom(s, j, names) == Success(c, e)
  {
  }

  /** The five names that QUOTA codes are looked up past or among. */
  lemma {:induction false} SkipAuthAndEncrypt(s: string, j: nat)
    requires j < |s| && Lower(s[j]) == 'q'
    ensures CodeFrom(s, j, CodeNames) == CodeFrom(s, j, CodeNames[2..])
  {
    SkipFirst(s, j, CodeNames);
    SkipFirst(s, j, CodeNames[1..]);
    assert CodeNames[1..][1..] == CodeNames[2..];
  }

  /** A name spelled in any case is read as its named code. */
  lemma {:induction false} NamedAt(s: string, j: nat, w: string, t: string, c: ResponseCode)
    requires At(s, j, w) && SameCaseless(w, t)
    ensures Atom(s, j, t, c) == Success(c, j + |t|)
  {
    CaselessAt(s, j, w, t);
  }

  /** `QUOTA/MAXSCRIPTS` is tried first among the QUOTA codes. */
  lemma {:induction false} QuotaMaxScripts(s: string, j: nat, w: string)
    requires At(s, j, w) && SameCaseless(w, "QUOTA/MAXSCRIPTS")
    ensures CodeBody(s, j) == Success(ResponseCode.Quota(MaxScripts), j + 16)
  {
    assert LowerAll(w)[0] == LowerAll("QUOTA/MAXSCRIPTS")[0];
    assert s[j + 0] == w[0];
    SkipAuthAndEncrypt(s, j);
    NamedAt(s, j, w, "QUOTA/MAXSCRIPTS", ResponseCode.Quota(MaxScripts));
    TakeName(s, j, CodeNames[2..], ResponseCode.Quota(MaxScripts), j + 16);
  }

  /** `QUOTA/MAXSIZE` is not taken for a prefix of `QUOTA/MAXSCRIPTS`. */
  lemma {:induction false} QuotaMaxSize(s: string, j: nat, w: string)
    requires At(s, j, w) && SameCaseless(w, "QUOTA/MAXSIZE")
    ensures CodeBody(s, j) == Success(ResponseCode.Quota(MaxSize), j + 13)
  {
    assert LowerAll(w)[0] == LowerAll("QUOTA/MAXSIZE")[0];
    assert LowerAll(w)[10] == LowerAll("QUOTA/MAXSIZE")[10];
    assert s[j + 0] == w[0];
    assert s[j + 10] == w[10];
    SkipAuthAndEncrypt(s, j);
    SkipAt(s, j, CodeNames[2..], 10);
    assert CodeNames[2..][1..] == CodeNames[3..];
    NamedAt(s, j, w, "QUOTA/MAXSIZE", ResponseCode.Quota(MaxSize));
    TakeName(s, j, CodeNames[3..], ResponseCode.Quota(MaxSize), j + 13);
  }

  /** Neither longer QUOTA name matches when the sixth letter is not `/`. */
  lemma {:induction false} SkipQuotaAt5(s: string, j: nat)
    requires j + 5 < |s| && Lower(s[j]) == 'q' && s[j + 5] != '/'
    ensures CodeBody(s, j) == CodeFrom(s, j, CodeNames[4..])
  {
    SkipAuthAndEncrypt(s, j);
    assert CodeNames[2..][0].name[5] == '/';
    SkipAt(s, j, CodeNames[2..], 5);
    assert CodeNames[2..][1..] == CodeNames[3..];
    assert CodeNames[3..][0].name[5] == '/';
    SkipAt(s, j, CodeNames[3..], 5);
    assert CodeNames[3..][1..] == CodeNames[4..];
  }

  /** Neither longer QUOTA name matches when the seventh letter is not `M`. */
  lemma {:induction false} SkipQuotaAt6(s: string, j: nat)
    requires j + 6 < |s| && Lower(s[j]) == 'q' && Lower(s[j + 6]) != 'm'
    ensures CodeBody(s, j) == CodeFrom(s, j, CodeNames[4..])
  {
    SkipAuthAndEncrypt(s, j);
    assert Lower(CodeNames[2..][0].name[6]) == 'm';
    SkipAt(s, j, CodeNames[2..], 6);
    assert CodeNames[2..][1..] == CodeNames[3..];
    assert Lower(CodeNames[3..][0].name[6]) == 'm';
    SkipAt(s, j, CodeNames[3..], 6);
    assert CodeNames[3..][1..] == CodeNames[4..];
  }

  /**
   * Bare `QUOTA`, not followed by `/`, is the quota code without a variant;
   * it is tried only after both longer names failed.
   */
  lemma {:induction false} QuotaUnspecified(s: string, j: nat, w: string)
    requires At(s, j, w) && SameCaseless(w, "QUOTA")
    requires j + 5 < |s| && s[j + 5] != '/'
    ensures CodeBody(s, j) == Success(ResponseCode.Quota(Unspecified), j + 5)
  {
    assert LowerAll(w)[0] == LowerAll("QUOTA")[0];
    assert s[j + 0] == w[0];
    SkipQuotaAt5(s, j);
    NamedAt(s, j, w, "QUOTA", ResponseCode.Quota(Unspecified));
    TakeName(s, j, CodeNames[4..], ResponseCode.Quota(Unspecified), j + 5);
  }

  /** A code body that ends before `)` makes the whole code fail. */
  lemma {:induction false} CodeUnclosed(s: string, i: nat, c: ResponseCode, e: nat)
    requires i < |s| && s[i] == '('
    requires CodeBody(s, i + 1) == Success(c, e) && e < |s| && s[e] != ')'
    ensures Code(s, i) == Failure(false)
  {
    assert s[i + 0] == "("[0];
    Differs(s, e, ")", 0, false);
  }

  /** `(QUOTA/)` is an error: bare QUOTA matches and `/` is not `)`. */
  lemma {:induction false} QuotaSlashFails(s: string, i: nat)
    requires At(s, i, "(QUOTA/)")
    ensures Code(s, i) == Failure(false)
  {
    assert "(QUOTA/)" == "(" + "QUOTA/)";
    assert "QUOTA/)" == "QUOTA" + "/)";
    AtAppend(s, i, "(", "QUOTA/)");
    AtAppend(s, i + 1, "QUOTA", "/)");
    assert s[i + 0] == "("[0];
    assert s[i + 1 + 5 + 0] == "/)"[0];
    assert s[i + 1 + 5 + 1] == "/)"[1];
    QuotaSlashBody(s, i + 1);
    CodeUnclosed(s, i, ResponseCode.Quota(Unspecified), i + 6);
  }

  /** After `QUOTA/` followed by `)`, neither longer QUOTA name matches and bare QUOTA is read. */
  lemma {:induction false} QuotaSlashBody(s: string, j: nat)
    requires At(s, j, "QUOTA") && j + 6 < |s| && s[j + 5] == '/' && s[j + 6] == ')'
    ensures CodeBody(s, j) == Success(ResponseCode.Quota(Unspecified), j + 5)
  {
    assert s[j + 0] == "QUOTA"[0];
    SkipQuotaAt6(s, j);
    TagAt(s, j, "QUOTA", true);
    TakeName(s, j, CodeNames[4..], ResponseCode.Quota(Unspecified), j + 5);
  }

  /** Named codes that all start with other letters than `s[j]` are skipped. */
  lemma {:induction false} SkipPrefix(s: string, j: nat, names: seq<CodeName>, m: nat)
    requires j < |s| && m <= |names|
    requires forall k :: 0 <= k < m ==> Unlike(s[j], names[k])
    ensures CodeFrom(s, j, names) == CodeFrom(s, j, names[m..])
    decreases m
  {
    if m > 0 {
      SkipFirst(s, j, names);
      assert names[1..][m - 1..] == names[m..];
      SkipPrefix(s, j, names[1..], m - 1);
    }
  }

  /** A keyed name followed at once by a quoted string reads as its code. */
  lemma {:induction false} KeyedAt(s: string, j: nat, w: string, t: string, key: StringCode, x: string)
    requires At(s, j, w) && SameCaseless(w, t) && At(s, j + |t|, Quote(x))
    ensures Keyed(s, j, t, key) == Success(KeyedCode(key, x), j + |t| + |Quote(x)|)
  {
    CaselessAt(s, j, w, t);
    QuotedAt(s, j + |t|, x);
  }

  /** A keyed name followed by a blank fails: the string must come at once. */
  lemma {:induction false} KeyedSpaced(s: string, j: nat, w: string, t: string, key: StringCode)
    requires At(s, j, w) && SameCaseless(w, t) && j + |t| < |s| && s[j + |t|] == ' '
    ensures Keyed(s, j, t, key) == Failure(false)
  {
    CaselessAt(s, j, w, t);
    NotString(s, j + |t|);
  }

  /** The lower-cased first letter of each named code, in table order. */
  const Initials: string := "aeqqqsrttanawt"

  lemma {:induction false} CodeInitials()
    ensures |CodeNames| == |Initials|
    ensures forall k :: 0 <= k < |CodeNames| ==>
      0 < |CodeNames[k].name| && Lower(CodeNames[k].name[0]) == Initials[k]
  {
  }

  /** Named codes whose initials all differ from `s[j]` are skipped. */
  lemma {:induction false} SkipInitials(s: string, j: nat, from: nat, to: nat)
    requires j < |s| && from <= to <= |CodeNames|
    requires forall k :: from <= k < to ==> Initials[k] != Lower(s[j])
    ensures CodeFrom(s, j, CodeNames[from..]) == CodeFrom(s, j, CodeNames[to..])
  {
    CodeInitials();
    SkipByInitials(s, j, CodeNames, Initials, from, to);
  }

  /** The same for any table whose initials are listed in `initials`. */
  lemma {:induction false} SkipByInitials(s: string, j: nat, names: seq<CodeName>, initials: string, from: nat, to: nat)
    requires j < |s| && from <= to <= |names| == |initials|
    requires forall k :: 0 <= k < |names| ==> 0 < |names[k].name| && Lower(names[k].name[0]) == initials[k]
    requires forall k :: from <= k < to ==> initials[k] != Lower(s[j])
    ensures CodeFrom(s, j, names[from..]) == CodeFrom(s, j, names[to..])
  {
    var rest := names[from..];
    forall k | 0 <= k < to - from ensures Unlike(s[j], rest[k]) {
      assert rest[k] == names[from + k];
    }
    assert rest[to - from..] == names[to..];
    SkipPrefix(s, j, rest, to - from);
  }

  /** The five names tried before SASL start with other letters than `s`. */
  lemma {:induction false} BeforeSasl(s: string, j: nat)
    requires j < |s| && Lower(s[j]) == 's'
    ensures CodeBody(s, j) == CodeFrom(s, j, CodeNames[5..])
  {
    assert CodeNames[0..] == CodeNames;
    SkipInitials(s, j, 0, 5);
  }

  /** The names tried after SASL start with other letters than `s`. */
  lemma {:induction false} AfterSasl(s: string, j: nat)
    requires j < |s| && Lower(s[j]) == 's'
    ensures CodeFrom(s, j, CodeNames[6..]) == ExtensionCode(s, j)
  {
    SkipInitials(s, j, 6, 14);
    assert CodeNames[14..] == [];
  }

  /** `SASL` with a string right after it is the SASL code with that string. */
  lemma {:induction false} SaslCodeAt(s: string, j: nat, w: string, x: string)
    requires At(s, j, w) && SameCaseless(w, "SASL") && At(s, j + 4, Quote(x))
    ensures CodeBody(s, j) == Success(ResponseCode.Sasl(x), j + 4 + |Quote(x)|)
  {
    assert LowerAll(w)[0] == LowerAll("SASL")[0];
    assert s[j + 0] == w[0];
    BeforeSasl(s, j);
    KeyedAt(s, j, w, "SASL", SaslCode, x);
    assert CodeNames[5..][0] == NamedWithString("SASL", SaslCode);
  }

  /**
   * `SASL` followed by a blank is no code at all: SASL fails, no other name
   * starts with `s`, and `SASL` is not a sieve-string to start an unknown code.
   */
  lemma {:induction false} SaslSpacedFails(s: string, j: nat, w: string)
    requires At(s, j, w) && SameCaseless(w, "SASL") && j + 4 < |s| && s[j + 4] == ' '
    ensures CodeBody(s, j) == Failure(false)
  {
    assert LowerAll(w)[0] == LowerAll("SASL")[0];
    assert s[j + 0] == w[0];
    BeforeSasl(s, j);
    AfterSasl(s, j);
    KeyedSpaced(s, j, w, "SASL", SaslCode);
    assert CodeNames[5..][0] == NamedWithString("SASL", SaslCode);
    SkipName(s, j, CodeNames[5..]);
    assert CodeNames[5..][1..] == CodeNames[6..];
    NotString(s, j);
  }

  /** TRANSITION-NEEDED and TRYLATER are skipped when the second letter is `a`. */
  lemma {:induction false} SkipTr(s: string, j: nat)
    requires j + 1 < |s| && Lower(s[j + 1]) == 'a'
    ensures CodeFrom(s, j, CodeNames[7..]) == CodeFrom(s, j, CodeNames[9..])
  {
    SkipAt(s, j, CodeNames[7..], 1);
    assert CodeNames[7..][1..] == CodeNames[8..];
    SkipAt(s, j, CodeNames[8..], 1);
    assert CodeNames[8..][1..] == CodeNames[9..];
  }

  /** TAG is the last name; the two other names starting with `t` differ next. */
  lemma {:induction false} BeforeTag(s: string, j: nat)
    requires j + 1 < |s| && Lower(s[j]) == 't' && Lower(s[j + 1]) == 'a'
    ensures CodeBody(s, j) == CodeFrom(s, j, CodeNames[13..])
  {
    assert CodeNames[0..] == CodeNames;
    SkipInitials(s, j, 0, 7);
    SkipTr(s, j);
    SkipInitials(s, j, 9, 13);
  }

  /** `TAG` with a string right after it is the TAG code with that string. */
  lemma {:induction false} TagCodeAt(s: string, j: nat, w: string, x: string)
    requires At(s, j, w) && SameCaseless(w, "TAG") && At(s, j + 3, Quote(x))
    ensures CodeBody(s, j) == Success(ResponseCode.Tag(x), j + 3 + |Quote(x)|)
  {
    assert LowerAll(w)[0] == LowerAll("TAG")[0];
    assert LowerAll(w)[1] == LowerAll("TAG")[1];
    assert s[j + 0] == w[0];
    assert s[j + 1] == w[1];
    BeforeTag(s, j);
    KeyedAt(s, j, w, "TAG", TagCode, x);
    assert CodeNames[13..][0] == NamedWithString("TAG", TagCode);
  }

  /** `TAG` followed by a blank is no code at all. */
  lemma {:induction false} TagSpacedFails(s: string, j: nat, w: string)
    requires At(s, j, w) && SameCaseless(w, "TAG") && j + 3 < |s| && s[j + 3] == ' '
    ensures CodeBody(s, j) == Failure(false)
  {
    assert LowerAll(w)[0] == LowerAll("TAG")[0];
    assert LowerAll(w)[1] == LowerAll("TAG")[1];
    assert s[j + 0] == w[0];
    assert s[j + 1] == w[1];
    BeforeTag(s, j);
    KeyedSpaced(s, j, w, "TAG", TagCode);
    assert CodeNames[13..][0] == NamedWithString("TAG", TagCode);
    SkipName(s, j, CodeNames[13..]);
    assert CodeNames[13..][1..] == [];
    NotString(s, j);
  }

  /** A word read caselessly as `t` has `t`'s letters, lower-cased, at each place. */
  lemma {:induction false} LetterAt(s: string, j: nat, w: string, t: string, p: nat)
    requires At(s, j, w) && SameCaseless(w, t) && p < |t|
    ensures j + p < |s| && Lower(s[j + p]) == Lower(t[p])
  {
    assert |LowerAll(w)| == |LowerAll(t)|;
    assert LowerAll(w)[p] == LowerAll(t)[p];
    assert s[j + p] == w[p];
  }

  /** Once every name before entry `m` is skipped, entry `m` is the code read. */
  lemma {:induction false} TakeEntry(s: string, j: nat, w: string, m: nat)
    requires m < |CodeNames| && CodeNames[m].Named?
    requires At(s, j, w) && SameCaseless(w, CodeNames[m].name)
    requires CodeBody(s, j) == CodeFrom(s, j, CodeNames[m..])
    ensures CodeBody(s, j) == Success(CodeNames[m].code, j + |w|)
  {
    var n := CodeNames[m];
    assert |LowerAll(w)| == |LowerAll(n.name)|;
    NamedAt(s, j, w, n.name, n.code);
    TakeName(s, j, CodeNames[m..], n.code, j + |n.name|);
  }

  /** `AUTH-TOO-WEAK` is the first name tried. */
  lemma {:induction false} AuthTooWeakAt(s: string, j: nat, w: string)
    requires At(s, j, w) && SameCaseless(w, "AUTH-TOO-WEAK")
    ensures CodeBody(s, j) == Success(AuthTooWeak, j + 13)
  {
    assert CodeNames[0..] == CodeNames;
    TakeEntry(s, j, w, 0);
  }

  /** `ENCRYPT-NEEDED` is read past the one name starting with `a`. */
  lemma {:induction false} EncryptNeededAt(s: string, j: nat, w: string)
    requires At(s, j, w) && SameCaseless(w, "ENCRYPT-NEEDED")
    ensures CodeBody(s, j) == Success(EncryptNeeded, j + 14)
  {
    LetterAt(s, j, w, "ENCRYPT-NEEDED", 0);
    assert CodeNames[0..] == CodeNames;
    SkipInitials(s, j, 0, 1);
    TakeEntry(s, j, w, 1);
  }

  /** `REFERRAL` with a string right after it is the referral code with that string. */
  lemma {:induction false} ReferralCodeAt(s: string, j: nat, w: string, x: string)
    requires At(s, j, w) && SameCaseless(w, "REFERRAL") && At(s, j + 8, Quote(x))
    ensures CodeBody(s, j) == Success(Referral(x), j + 8 + |Quote(x)|)
  {
    LetterAt(s, j, w, "REFERRAL", 0);
    KeyedAt(s, j, w, "REFERRAL", ReferralCode, x);
    ReferralFrom(s, j, Referral(x), j + 8 + |Quote(x)|);
  }

  /** What REFERRAL with its string reads is what the code body reads. */
  lemma {:induction false} ReferralFrom(s: string, j: nat, c: ResponseCode, e: nat)
    requires j < |s| && Lower(s[j]) == 'r' && Keyed(s, j, "REFERRAL", ReferralCode) == Success(c, e)
    ensures CodeBody(s, j) == Success(c, e)
  {
    BeforeReferral(s, j);
    assert CodeNames[6..][0] == NamedWithString("REFERRAL", ReferralCode);
    TakeName(s, j, CodeNames[6..], c, e);
  }

  /** The six names tried before REFERRAL start with other letters than `r`. */
  lemma {:induction false} BeforeReferral(s: string, j: nat)
    requires j < |s| && Lower(s[j]) == 'r'
    ensures CodeBody(s, j) == CodeFrom(s, j, CodeNames[6..])
  {
    assert CodeNames[0..] == CodeNames;
    SkipInitials(s, j, 0, 6);
  }

  /** `TRANSITION-NEEDED` is the first name starting with `t`. */
  lemma {:induction false} TransitionNeededAt(s: string, j: nat, w: string)
    requires At(s, j, w) && SameCaseless(w, "TRANSITION-NEEDED")
    ensures CodeBody(s, j) == Success(TransitionNeeded, j + 17)
  {
    LetterAt(s, j, w, "TRANSITION-NEEDED", 0);
    assert CodeNames[0..] == CodeNames;
    SkipInitials(s, j, 0, 7);
    TakeEntry(s, j, w, 7);
  }

  /** `TRYLATER` is read once TRANSITION-NEEDED fails at its third letter. */
  lemma {:induction false} TryLaterAt(s: string, j: nat, w: string)
    requires At(s, j, w) && SameCaseless(w, "TRYLATER")
    ensures CodeBody(s, j) == Success(TryLater, j + 8)
  {
    LetterAt(s, j, w, "TRYLATER", 0);
    LetterAt(s, j, w, "TRYLATER", 2);
    BeforeTryLater(s, j);
    TakeEntry(s, j, w, 8);
  }

  /** Every name before TRYLATER is skipped when the text starts with `t` and its third letter is `y`. */
  lemma {:induction false} BeforeTryLater(s: string, j: nat)
    requires j + 2 < |s| && Lower(s[j]) == 't' && Lower(s[j + 2]) == 'y'
    ensures CodeBody(s, j) == CodeFrom(s, j, CodeNames[8..])
  {
    assert CodeNames[0..] == CodeNames;
    SkipInitials(s, j, 0, 7);
    SkipTransition(s, j);
  }

  /** TRANSITION-NEEDED is skipped when the third letter is not `a`. */
  lemma {:induction false} SkipTransition(s: string, j: nat)
    requires j + 2 < |s| && Lower(s[j + 2]) != 'a'
    ensures CodeFrom(s, j, CodeNames[7..]) == CodeFrom(s, j, CodeNames[8..])
  {
    var names := CodeNames[7..];
    assert names[0].name == "TRANSITION-NEEDED" && names[1..] == CodeNames[8..];
    SkipAt(s, j, names, 2);
  }

  /** `ACTIVE` is read once AUTH-TOO-WEAK fails at its second letter. */
  lemma {:induction false} ActiveCodeAt(s: string, j: nat, w: string)
    requires At(s, j, w) && SameCaseless(w, "ACTIVE")
    ensures CodeBody(s, j) == Success(Active, j + 6)
  {
    LetterAt(s, j, w, "ACTIVE", 0);
    LetterAt(s, j, w, "ACTIVE", 1);
    BeforeActive(s, j);
    TakeEntry(s, j, w, 9);
  }

  /** `NONEXISTENT` is the only name starting with `n`. */
  lemma {:induction false} NonexistentAt(s: string, j: nat, w: string)
    requires At(s, j, w) && SameCaseless(w, "NONEXISTENT")
    ensures CodeBody(s, j) == Success(Nonexistent, j + 11)
  {
    LetterAt(s, j, w, "NONEXISTENT", 0);
    assert CodeNames[0..] == CodeNames;
    SkipInitials(s, j, 0, 10);
    TakeEntry(s, j, w, 10);
  }

  /** `ALREADYEXISTS` is read once AUTH-TOO-WEAK and ACTIVE fail at their second letter. */
  lemma {:induction false} AlreadyExistsAt(s: string, j: nat, w: string)
    requires At(s, j, w) && SameCaseless(w, "ALREADYEXISTS")
    ensures CodeBody(s, j) == Success(AlreadyExists, j + 13)
  {
    LetterAt(s, j, w, "ALREADYEXISTS", 0);
    LetterAt(s, j, w, "ALREADYEXISTS", 1);
    BeforeAlready(s, j);
    TakeEntry(s, j, w, 11);
  }

  /** Every name before ALREADYEXISTS differs from `al` in its first two letters. */
  lemma {:induction false} BeforeAlready(s: string, j: nat)
    requires j + 1 < |s| && Lower(s[j]) == 'a' && Lower(s[j + 1]) == 'l'
    ensures CodeBody(s, j) == CodeFrom(s, j, CodeNames[11..])
  {
    BeforeActive(s, j);
    assert CodeNames[9..][0].name == "ACTIVE";
    SkipAt(s, j, CodeNames[9..], 1);
    assert CodeNames[9..][1..] == CodeNames[10..];
    SkipInitials(s, j, 10, 11);
  }

  /** Every name before ACTIVE is skipped when the text starts with `a` and then not `u`. */
  lemma {:induction false} BeforeActive(s: string, j: nat)
    requires j + 1 < |s| && Lower(s[j]) == 'a' && Lower(s[j + 1]) != 'u'
    ensures CodeBody(s, j) == CodeFrom(s, j, CodeNames[9..])
  {
    assert CodeNames[0].name == "AUTH-TOO-WEAK";
    SkipAt(s, j, CodeNames, 1);
    SkipInitials(s, j, 1, 9);
  }

  /** `WARNINGS` is the only name starting with `w`. */
  lemma {:induction false} WarningsCodeAt(s: string, j: nat, w: string)
    requires At(s, j, w) && SameCaseless(w, "WARNINGS")
    ensures CodeBody(s, j) == Success(Warnings, j + 8)
  {
    LetterAt(s, j, w, "WARNINGS", 0);
    assert CodeNames[0..] == CodeNames;
    SkipInitials(s, j, 0, 12);
    TakeEntry(s, j, w, 12);
  }

  /**
   * Every code of the table without a string, spelled in any case and
   * followed by `)` or a blank, is read as its own code.
   */
  lemma {:induction false} NamedCodeAt(s: string, j: nat, w: string, m: nat)
    requires m < |CodeNames| && CodeNames[m].Named?
    requires At(s, j, w) && SameCaseless(w, CodeNames[m].name)
    requires j + |w| < |s| && (s[j + |w|] == ')' || s[j + |w|] == ' ')
    ensures CodeBody(s, j) == Success(CodeNames[m].code, j + |w|)
  {
    assert |LowerAll(w)| == |LowerAll(CodeNames[m].name)|;
    if m < 5 {
      QuotaOrFirstAt(s, j, w, m);
    } else {
      LaterCodeAt(s, j, w, m);
    }
  }

  /** The entries before SASL: the first two names and the three QUOTA names. */
  lemma {:induction false} QuotaOrFirstAt(s: string, j: nat, w: string, m: nat)
    requires m < 5 && At(s, j, w) && SameCaseless(w, CodeNames[m].name)
    requires j + |w| < |s| && (s[j + |w|] == ')' || s[j + |w|] == ' ')
    ensures CodeNames[m].Named? && CodeBody(s, j) == Success(CodeNames[m].code, j + |w|)
  {
    if m == 0 {
      assert CodeNames[0] == Named("AUTH-TOO-WEAK", AuthTooWeak);
      AuthTooWeakAt(s, j, w);
    } else if m == 1 {
      assert CodeNames[1] == Named("ENCRYPT-NEEDED", EncryptNeeded);
      EncryptNeededAt(s, j, w);
    } else if m == 2 {
      assert CodeNames[2] == Named("QUOTA/MAXSCRIPTS", ResponseCode.Quota(MaxScripts));
      QuotaMaxScripts(s, j, w);
    } else if m == 3 {
      assert CodeNames[3] == Named("QUOTA/MAXSIZE", ResponseCode.Quota(MaxSize));
      QuotaMaxSize(s, j, w);
    } else {
      assert CodeNames[4] == Named("QUOTA", ResponseCode.Quota(Unspecified));
      assert |LowerAll(w)| == |LowerAll("QUOTA")|;
      QuotaUnspecified(s, j, w);
    }
  }

  /** The entries from SASL on that carry no string. */
  lemma {:induction false} LaterCodeAt(s: string, j: nat, w: string, m: nat)
    requires 5 <= m < |CodeNames| && CodeNames[m].Named? && At(s, j, w) && SameCaseless(w, CodeNames[m].name)
    ensures CodeBody(s, j) == Success(CodeNames[m].code, j + |w|)
  {
    assert |LowerAll(w)| == |LowerAll(CodeNames[m].name)|;
    if m == 7 {
      assert CodeNames[7] == Named("TRANSITION-NEEDED", TransitionNeeded);
      TransitionNeededAt(s, j, w);
    } else if m == 8 {
      assert CodeNames[8] == Named("TRYLATER", TryLater);
      TryLaterAt(s, j, w);
    } else if m == 9 {
      assert CodeNames[9] == Named("ACTIVE", Active);
      ActiveCodeAt(s, j, w);
    } else if m == 10 {
      assert CodeNames[10] == Named("NONEXISTENT", Nonexistent);
      NonexistentAt(s, j, w);
    } else if m == 11 {
      assert CodeNames[11] == Named("ALREADYEXISTS", AlreadyExists);
      AlreadyExistsAt(s, j, w);
    } else if m == 12 {
      assert CodeNames[12] == Named("WARNINGS", Warnings);
      WarningsCodeAt(s, j, w);
    }
  }
}
