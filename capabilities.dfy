/**
 * `verify_capabilities`: the capability lines a server announced, folded
 * into one snapshot. Every capability may appear once; the first one seen
 * twice is reported by name. IMPLEMENTATION, SIEVE and VERSION must be
 * present, and are checked in that order.
 *
 * `VerifyCapabilities` is the loop over the nine optional locals and the
 * map of unknown capabilities; `Verify` is the same fold as a function.
 * `Fold`/`Finish` are an independent reference: a map from each
 * capability's slot to the capability that filled it. `VerifyIsReference`
 * connects the two, and the properties of the check are proved on the map.
 */
module CapabilitiesCheck {
  import opened Wrappers
  import opened Text
  import opened Protocol

  /** Where a capability is kept: one field per known name, one entry per unknown name. */
  datatype Slot =
    | ImplementationSlot | SaslSlot | SieveSlot | StartTlsSlot | MaxRedirectsSlot
    | NotifySlot | LanguageSlot | OwnerSlot | VersionSlot
    | OtherSlot(name: string)

  function SlotOf(c: Capability): Slot {
    match c
    case Implementation(_) => ImplementationSlot
    case Sasl(_) => SaslSlot
    case Sieve(_) => SieveSlot
    case StartTls => StartTlsSlot
    case MaxRedirects(_) => MaxRedirectsSlot
    case Notify(_) => NotifySlot
    case Language(_) => LanguageSlot
    case Owner(_) => OwnerSlot
    case Version(_) => VersionSlot
    case Unknown(name, _) => OtherSlot(name)
  }

  /** The names of the known capabilities, in slot order. */
  const Names: seq<string> := [
    "IMPLEMENTATION", "SASL", "SIEVE", "STARTTLS", "MAX_REDIRECTS", "NOTIFY", "LANGUAGE", "OWNER", "VERSION"]

  /** The name a duplicate is reported under; an unknown capability keeps its own. */
  function SlotName(s: Slot): string {
    match s
    case ImplementationSlot => Names[0]
    case SaslSlot => Names[1]
    case SieveSlot => Names[2]
    case StartTlsSlot => Names[3]
    case MaxRedirectsSlot => Names[4]
    case NotifySlot => Names[5]
    case LanguageSlot => Names[6]
    case OwnerSlot => Names[7]
    case VersionSlot => Names[8]
    case OtherSlot(name) => name
  }

  /** Every capability kept is kept in its own slot. */
  predicate Consistent(seen: map<Slot, Capability>) {
    forall s :: s in seen ==> SlotOf(seen[s]) == s
  }

  /** The fold over the announced lines: the first line whose slot is taken is a duplicate. */
  function Fold(seen: map<Slot, Capability>, caps: seq<Capability>)
    : (r: Result<map<Slot, Capability>, CapabilitiesError>)
    requires Consistent(seen)
    ensures r.Ok? ==> Consistent(r.value) && seen.Keys <= r.value.Keys
    ensures r.Err? ==> r.error.DuplicateCapability?
    decreases |caps|
  {
    if caps == [] then Ok(seen)
    else if SlotOf(caps[0]) in seen then Err(DuplicateCapability(SlotName(SlotOf(caps[0]))))
    else Fold(seen[SlotOf(caps[0]) := caps[0]], caps[1..])
  }

  /** The unknown capabilities kept, by name. */
  function Others(seen: map<Slot, Capability>): (m: map<string, Option<string>>)
    requires Consistent(seen)
    ensures forall n :: n in m <==> OtherSlot(n) in seen
    ensures forall n :: n in m ==> m[n] == seen[OtherSlot(n)].value
  {
    map s | s in seen && s.OtherSlot? :: s.name := seen[s].value
  }

  /** The snapshot made from a duplicate-free fold, or the first required capability missing. */
  function Finish(seen: map<Slot, Capability>): Result<Capabilities, CapabilitiesError>
    requires Consistent(seen)
  {
    if ImplementationSlot !in seen then Err(MissingImplementation)
    else if SieveSlot !in seen then Err(MissingSieve)
    else if VersionSlot !in seen then Err(MissingVersion)
    else Ok(Capabilities(
      implementation := seen[ImplementationSlot].implementation,
      sasl := if SaslSlot in seen then seen[SaslSlot].mechanisms else [],
      sieve := seen[SieveSlot].extensions,
      startTls := StartTlsSlot in seen,
      maxRedirects := if MaxRedirectsSlot in seen then Some(seen[MaxRedirectsSlot].maxRedirects) else None,
      notify := if NotifySlot in seen then Some(seen[NotifySlot].methods) else None,
      language := if LanguageSlot in seen then Some(seen[LanguageSlot].language) else None,
      owner := if OwnerSlot in seen then Some(seen[OwnerSlot].owner) else None,
      version := seen[VersionSlot].version,
      others := Others(seen)))
  }

  /** The check as the reference states it. */
  function Reference(caps: seq<Capability>): Result<Capabilities, CapabilitiesError> {
    var folded := Fold(map[], caps);
    if folded.Err? then Err(folded.error) else Finish(folded.value)
  }

  /** The locals `verify_capabilities` fills: one optional value per known capability, and the unknown ones. */
  datatype Pending = Pending(
    implementation: Option<string>,
    sasl: Option<seq<string>>,
    sieve: Option<seq<string>>,
    startTls: Option<()>,
    maxRedirects: Option<u64>,
    notify: Option<seq<string>>,
    language: Option<string>,
    owner: Option<string>,
    version: Option<Version>,
    others: map<string, Option<string>>)

  const Unset := Pending(None, None, None, None, None, None, None, None, None, map[])

  /** `try_set`: a field already set is a duplicate under `name`. */
  function TrySet<T>(field: Option<T>, value: T, name: string): (r: Result<Option<T>, CapabilitiesError>)
    ensures field.Some? <==> r.Err?
    ensures r.Err? ==> r.error == DuplicateCapability(name)
    ensures r.Ok? ==> r.value == Some(value)
  {
    if field.Some? then Err(DuplicateCapability(name)) else Ok(Some(value))
  }

  /** One pass of the loop: the line's local is set, or the line is a duplicate. */
  function Step(p: Pending, c: Capability): Result<Pending, CapabilitiesError> {
    match c
    case Implementation(v) =>
      var t := TrySet(p.implementation, v, SlotName(ImplementationSlot));
      if t.Err? then Err(t.error) else Ok(p.(implementation := t.value))
    case Sasl(v) =>
      var t := TrySet(p.sasl, v, SlotName(SaslSlot));
      if t.Err? then Err(t.error) else Ok(p.(sasl := t.value))
    case Sieve(v) =>
      var t := TrySet(p.sieve, v, SlotName(SieveSlot));
      if t.Err? then Err(t.error) else Ok(p.(sieve := t.value))
    case StartTls =>
      var t := TrySet(p.startTls, (), SlotName(StartTlsSlot));
      if t.Err? then Err(t.error) else Ok(p.(startTls := t.value))
    case MaxRedirects(v) =>
      var t := TrySet(p.maxRedirects, v, SlotName(MaxRedirectsSlot));
      if t.Err? then Err(t.error) else Ok(p.(maxRedirects := t.value))
    case Notify(v) =>
      var t := TrySet(p.notify, v, SlotName(NotifySlot));
      if t.Err? then Err(t.error) else Ok(p.(notify := t.value))
    case Language(v) =>
      var t := TrySet(p.language, v, SlotName(LanguageSlot));
      if t.Err? then Err(t.error) else Ok(p.(language := t.value))
    case Owner(v) =>
      var t := TrySet(p.owner, v, SlotName(OwnerSlot));
      if t.Err? then Err(t.error) else Ok(p.(owner := t.value))
    case Version(v) =>
      var t := TrySet(p.version, v, SlotName(VersionSlot));
      if t.Err? then Err(t.error) else Ok(p.(version := t.value))
    case Unknown(name, value) =>
      if name in p.others then Err(DuplicateCapability(name)) else Ok(p.(others := p.others[name := value]))
  }

  /** The loop over all lines, stopping at the first duplicate. */
  function Collect(p: Pending, caps: seq<Capability>): Result<Pending, CapabilitiesError>
    decreases |caps|
  {
    if caps == [] then Ok(p)
    else
      var q := Step(p, caps[0]);
      if q.Err? then Err(q.error) else Collect(q.value, caps[1..])
  }

  /** The final match: the snapshot, or the first of IMPLEMENTATION, SIEVE, VERSION missing. */
  function Outcome(p: Pending): Result<Capabilities, CapabilitiesError> {
    match (p.implementation, p.sieve, p.version)
    case (Some(impl), Some(sv), Some(ver)) =>
      Ok(Capabilities(
        implementation := impl,
        sasl := if p.sasl.Some? then p.sasl.value else [],
        sieve := sv,
        startTls := p.startTls.Some?,
        maxRedirects := p.maxRedirects,
        notify := p.notify,
        language := p.language,
        owner := p.owner,
        version := ver,
        others := p.others))
    case (None, _, _) => Err(MissingImplementation)
    case (_, None, _) => Err(MissingSieve)
    case (_, _, None) => Err(MissingVersion)
  }

  /** `verify_capabilities` as a function of the announced lines. */
  function Verify(caps: seq<Capability>): Result<Capabilities, CapabilitiesError> {
    var collected := Collect(Unset, caps);
    if collected.Err? then Err(collected.error) else Outcome(collected.value)
  }

  /** The body of the loop of `verify_capabilities`: one line sets its local, or is a duplicate. */
  method TakeLine(p: Pending, c: Capability) returns (r: Result<Pending, CapabilitiesError>)
    ensures r == Step(p, c)
  {
    match c {
      case Implementation(v) =>
        var t := TrySet(p.implementation, v, SlotName(ImplementationSlot));
        if t.Err? { return Err(t.error); }
        r := Ok(p.(implementation := t.value));
      case Sasl(v) =>
        var t := TrySet(p.sasl, v, SlotName(SaslSlot));
        if t.Err? { return Err(t.error); }
        r := Ok(p.(sasl := t.value));
      case Sieve(v) =>
        var t := TrySet(p.sieve, v, SlotName(SieveSlot));
        if t.Err? { return Err(t.error); }
        r := Ok(p.(sieve := t.value));
      case StartTls =>
        var t := TrySet(p.startTls, (), SlotName(StartTlsSlot));
        if t.Err? { return Err(t.error); }
        r := Ok(p.(startTls := t.value));
      case MaxRedirects(v) =>
        var t := TrySet(p.maxRedirects, v, SlotName(MaxRedirectsSlot));
        if t.Err? { return Err(t.error); }
        r := Ok(p.(maxRedirects := t.value));
      case Notify(v) =>
        var t := TrySet(p.notify, v, SlotName(NotifySlot));
        if t.Err? { return Err(t.error); }
        r := Ok(p.(notify := t.value));
      case Language(v) =>
        var t := TrySet(p.language, v, SlotName(LanguageSlot));
        if t.Err? { return Err(t.error); }
        r := Ok(p.(language := t.value));
      case Owner(v) =>
        var t := TrySet(p.owner, v, SlotName(OwnerSlot));
        if t.Err? { return Err(t.error); }
        r := Ok(p.(owner := t.value));
      case Version(v) =>
        var t := TrySet(p.version, v, SlotName(VersionSlot));
        if t.Err? { return Err(t.error); }
        r := Ok(p.(version := t.value));
      case Unknown(name, value) =>
        if name in p.others { return Err(DuplicateCapability(name)); }
        r := Ok(p.(others := p.others[name := value]));
    }
  }

  /**
   * `verify_capabilities`: nine optional locals and a map of unknown
   * capabilities, filled line by line, returning at the first duplicate.
   */
  method VerifyCapabilities(caps: seq<Capability>) returns (r: Result<Capabilities, CapabilitiesError>)
    ensures r == Verify(caps)
    ensures r == Reference(caps)
  {
    VerifyIsReference(caps);
    var p := Unset;
    for i := 0 to |caps|
      invariant Collect(Unset, caps) == Collect(p, caps[i..])
    {
      assert caps[i..][0] == caps[i] && caps[i..][1..] == caps[i + 1..];
      var q := TakeLine(p, caps[i]);
      if q.Err? {
        return Err(q.error);
      }
      p := q.value;
    }
    assert caps[|caps|..] == [];
    match (p.implementation, p.sieve, p.version) {
      case (Some(impl), Some(sv), Some(ver)) =>
        r := Ok(Capabilities(
          implementation := impl,
          sasl := if p.sasl.Some? then p.sasl.value else [],
          sieve := sv,
          startTls := p.startTls.Some?,
          maxRedirects := p.maxRedirects,
          notify := p.notify,
          language := p.language,
          owner := p.owner,
          version := ver,
          others := p.others));
      case (None, _, _) => r := Err(MissingImplementation);
      case (_, None, _) => r := Err(MissingSieve);
      case (_, _, None) => r := Err(MissingVersion);
    }
  }

  /** The locals as they stand once the capabilities in `seen` have been taken. */
  function PendingOf(seen: map<Slot, Capability>): Pending
    requires Consistent(seen)
  {
    Pending(
      if ImplementationSlot in seen then Some(seen[ImplementationSlot].implementation) else None,
      if SaslSlot in seen then Some(seen[SaslSlot].mechanisms) else None,
      if SieveSlot in seen then Some(seen[SieveSlot].extensions) else None,
      if StartTlsSlot in seen then Some(()) else None,
      if MaxRedirectsSlot in seen then Some(seen[MaxRedirectsSlot].maxRedirects) else None,
      if NotifySlot in seen then Some(seen[NotifySlot].methods) else None,
      if LanguageSlot in seen then Some(seen[LanguageSlot].language) else None,
      if OwnerSlot in seen then Some(seen[OwnerSlot].owner) else None,
      if VersionSlot in seen then Some(seen[VersionSlot].version) else None,
      Others(seen))
  }

  /** Filling a slot keeps every capability in its own slot and touches only that slot's local. */
  lemma {:induction false} OthersStep(seen: map<Slot, Capability>, c: Capability)
    requires Consistent(seen) && SlotOf(c) !in seen
    ensures Consistent(seen[SlotOf(c) := c])
    ensures Others(seen[SlotOf(c) := c]) == if c.Unknown? then Others(seen)[c.name := c.value] else Others(seen)
  {
    ConsistentStep(seen, c);
    if c.Unknown? {
      OthersUnknown(seen, c);
    } else {
      OthersKnown(seen, c);
    }
  }

  lemma {:induction false} ConsistentStep(seen: map<Slot, Capability>, c: Capability)
    requires Consistent(seen)
    ensures Consistent(seen[SlotOf(c) := c])
  {
    var m := seen[SlotOf(c) := c];
    forall s | s in m ensures SlotOf(m[s]) == s {
      if s != SlotOf(c) {
        assert m[s] == seen[s];
      }
    }
  }

  /** An unknown capability adds its name and value to the others. */
  lemma {:induction false} OthersUnknown(seen: map<Slot, Capability>, c: Capability)
    requires Consistent(seen) && Consistent(seen[SlotOf(c) := c]) && c.Unknown?
    ensures Others(seen[SlotOf(c) := c]) == Others(seen)[c.name := c.value]
  {
    var m := seen[SlotOf(c) := c];
    var a := Others(m);
    var b := Others(seen)[c.name := c.value];
    forall n ensures n in a <==> n in b {
      assert OtherSlot(n) in m <==> OtherSlot(n) in seen || n == c.name;
    }
    forall n | n in a ensures a[n] == b[n] {
      if n != c.name {
        assert m[OtherSlot(n)] == seen[OtherSlot(n)];
      }
    }
  }

  /** A known capability leaves the others as they were. */
  lemma {:induction false} OthersKnown(seen: map<Slot, Capability>, c: Capability)
    requires Consistent(seen) && Consistent(seen[SlotOf(c) := c]) && !c.Unknown?
    ensures Others(seen[SlotOf(c) := c]) == Others(seen)
  {
    var m := seen[SlotOf(c) := c];
    var a := Others(m);
    var b := Others(seen);
    forall n ensures n in a <==> n in b {
      assert OtherSlot(n) != SlotOf(c);
    }
    forall n | n in a ensures a[n] == b[n] {
      assert OtherSlot(n) != SlotOf(c);
      assert m[OtherSlot(n)] == seen[OtherSlot(n)];
    }
  }

  /** A line is a duplicate exactly when its slot is taken; otherwise the loop fills that slot. */
  lemma {:induction false} StepView(seen: map<Slot, Capability>, c: Capability)
    requires Consistent(seen)
    ensures SlotOf(c) in seen ==> Step(PendingOf(seen), c) == Err(DuplicateCapability(SlotName(SlotOf(c))))
    ensures SlotOf(c) !in seen ==>
      Consistent(seen[SlotOf(c) := c]) && Step(PendingOf(seen), c) == Ok(PendingOf(seen[SlotOf(c) := c]))
  {
    if SlotOf(c) in seen {
      StepTaken(seen, c);
    } else {
      OthersStep(seen, c);
      StepFree(seen, c);
    }
  }

  lemma {:induction false} StepTaken(seen: map<Slot, Capability>, c: Capability)
    requires Consistent(seen) && SlotOf(c) in seen
    ensures Step(PendingOf(seen), c) == Err(DuplicateCapability(SlotName(SlotOf(c))))
  {
  }

  lemma {:induction false} StepFree(seen: map<Slot, Capability>, c: Capability)
    requires Consistent(seen) && SlotOf(c) !in seen
    requires Consistent(seen[SlotOf(c) := c])
    requires Others(seen[SlotOf(c) := c]) == if c.Unknown? then Others(seen)[c.name := c.value] else Others(seen)
    ensures Step(PendingOf(seen), c) == Ok(PendingOf(seen[SlotOf(c) := c]))
  {
  }

  /** The loop over the locals and the fold over slots agree line by line. */
  lemma {:induction false} CollectView(seen: map<Slot, Capability>, caps: seq<Capability>)
    requires Consistent(seen)
    ensures var f := Fold(seen, caps);
      Collect(PendingOf(seen), caps) == if f.Err? then Err(f.error) else Ok(PendingOf(f.value))
    decreases |caps|
  {
    if caps != [] {
      StepView(seen, caps[0]);
      if SlotOf(caps[0]) !in seen {
        CollectView(seen[SlotOf(caps[0]) := caps[0]], caps[1..]);
      }
    }
  }

  /** The final match on the locals is the reference's check of the slots. */
  lemma {:induction false} OutcomeView(seen: map<Slot, Capability>)
    requires Consistent(seen)
    ensures Outcome(PendingOf(seen)) == Finish(seen)
  {
  }

  /** `verify_capabilities` computes what the reference states, on every list of lines. */
  lemma {:induction false} VerifyIsReference(caps: seq<Capability>)
    ensures Verify(caps) == Reference(caps)
  {
    assert PendingOf(map[]) == Unset;
    CollectView(map[], caps);
    var f := Fold(map[], caps);
    if f.Ok? {
      OutcomeView(f.value);
    }
  }

  /** Some line fills slot `sl`. */
  predicate Has(caps: seq<Capability>, sl: Slot) {
    exists k :: 0 <= k < |caps| && SlotOf(caps[k]) == sl
  }

  /** No two lines fill the same slot. */
  predicate Distinct(caps: seq<Capability>) {
    forall i, j :: 0 <= i < j < |caps| ==> SlotOf(caps[i]) != SlotOf(caps[j])
  }

  /** Line `j` fills a slot an earlier line filled. */
  predicate Repeats(caps: seq<Capability>, j: int) {
    0 <= j < |caps| && exists i :: 0 <= i < j && SlotOf(caps[i]) == SlotOf(caps[j])
  }

  /** The slots the lines fill, each with the last line that filled it. */
  function Gathered(caps: seq<Capability>): (m: map<Slot, Capability>)
    ensures Consistent(m)
    decreases |caps|
  {
    if caps == [] then map[]
    else Gathered(caps[..|caps| - 1])[SlotOf(caps[|caps| - 1]) := caps[|caps| - 1]]
  }

  /** The slots gathered are the slots filled; without repeats each holds the one line that filled it. */
  lemma {:induction false} GatheredView(caps: seq<Capability>)
    ensures forall sl :: sl in Gathered(caps) <==> Has(caps, sl)
    ensures Distinct(caps) ==> forall k :: 0 <= k < |caps| ==>
      SlotOf(caps[k]) in Gathered(caps) && Gathered(caps)[SlotOf(caps[k])] == caps[k]
  {
    GatheredKeys(caps);
    if Distinct(caps) {
      GatheredValues(caps);
    }
  }

  /** The slots gathered are the slots filled. */
  lemma {:induction false} GatheredKeys(caps: seq<Capability>)
    ensures forall sl :: sl in Gathered(caps) <==> Has(caps, sl)
    decreases |caps|
  {
    if caps != [] {
      var n := |caps| - 1;
      var front := caps[..n];
      GatheredKeys(front);
      forall sl
        ensures sl in Gathered(caps) <==> Has(caps, sl)
      {
        if Has(front, sl) {
          var k :| 0 <= k < |front| && SlotOf(front[k]) == sl;
          assert caps[k] == front[k];
        }
        if Has(caps, sl) {
          var k :| 0 <= k < |caps| && SlotOf(caps[k]) == sl;
          if k < n {
            assert front[k] == caps[k];
          }
        }
      }
    }
  }

  /** Without repeats each slot gathered holds the one line that filled it. */
  lemma {:induction false} GatheredValues(caps: seq<Capability>)
    requires Distinct(caps)
    ensures forall k :: 0 <= k < |caps| ==>
      SlotOf(caps[k]) in Gathered(caps) && Gathered(caps)[SlotOf(caps[k])] == caps[k]
    decreases |caps|
  {
    if caps != [] {
      var n := |caps| - 1;
      var front := caps[..n];
      assert Distinct(front) by {
        forall i, j | 0 <= i < j < |front|
          ensures SlotOf(front[i]) != SlotOf(front[j])
        {
          assert front[i] == caps[i] && front[j] == caps[j];
        }
      }
      GatheredValues(front);
      forall k | 0 <= k < |caps|
        ensures SlotOf(caps[k]) in Gathered(caps) && Gathered(caps)[SlotOf(caps[k])] == caps[k]
      {
        if k < n {
          assert front[k] == caps[k];
          assert SlotOf(caps[k]) != SlotOf(caps[n]);
        }
      }
    }
  }

  /** Up to a first repeat, the fold has gathered exactly the lines before it. */
  lemma {:induction false} FoldPrefix(caps: seq<Capability>, j: nat)
    requires j <= |caps| && Distinct(caps[..j])
    ensures Fold(map[], caps) == Fold(Gathered(caps[..j]), caps[j..])
  {
    if j == 0 {
      assert caps[..0] == [] && caps[0..] == caps;
    } else {
      var front := caps[..j - 1];
      assert caps[..j][..j - 1] == front;
      assert Distinct(front) by {
        forall a, b | 0 <= a < b < |front|
          ensures SlotOf(front[a]) != SlotOf(front[b])
        {
          assert front[a] == caps[..j][a] && front[b] == caps[..j][b];
        }
      }
      FoldPrefix(caps, j - 1);
      GatheredView(front);
      assert SlotOf(caps[j - 1]) !in Gathered(front) by {
        forall k | 0 <= k < |front|
          ensures SlotOf(front[k]) != SlotOf(caps[j - 1])
        {
          assert front[k] == caps[..j][k] && caps[j - 1] == caps[..j][j - 1];
        }
      }
      assert caps[j - 1..][0] == caps[j - 1] && caps[j - 1..][1..] == caps[j..];
    }
  }

  /** A line repeating a slot is reported, by that slot's name, when no earlier line did. */
  lemma {:induction false} FirstDuplicate(caps: seq<Capability>, j: nat)
    requires Repeats(caps, j) && Distinct(caps[..j])
    ensures Verify(caps) == Err(DuplicateCapability(SlotName(SlotOf(caps[j]))))
  {
    FoldPrefix(caps, j);
    GatheredView(caps[..j]);
    var i :| 0 <= i < j && SlotOf(caps[i]) == SlotOf(caps[j]);
    assert caps[..j][i] == caps[i];
    assert caps[j..][0] == caps[j];
    VerifyIsReference(caps);
  }

  /** Without repeats the fold gathers every line, and the snapshot is made from them. */
  lemma {:induction false} NoDuplicate(caps: seq<Capability>)
    requires Distinct(caps)
    ensures Verify(caps) == Finish(Gathered(caps))
  {
    FoldPrefix(caps, |caps|);
    assert caps[..|caps|] == caps && caps[|caps|..] == [];
    VerifyIsReference(caps);
  }

  /** Some line repeats an earlier slot, and a first one does. */
  lemma {:induction false} FirstRepeat(caps: seq<Capability>) returns (j: nat)
    requires !Distinct(caps)
    ensures Repeats(caps, j) && Distinct(caps[..j])
    decreases |caps|
  {
    var n := |caps| - 1;
    var front := caps[..n];
    if Distinct(front) {
      j := n;
      assert caps[..j] == front;
      var a, b :| 0 <= a < b < |caps| && SlotOf(caps[a]) == SlotOf(caps[b]);
      if b < n {
        assert false;
      }
    } else {
      j := FirstRepeat(front);
      assert front[..j] == caps[..j];
      var i :| 0 <= i < j && SlotOf(front[i]) == SlotOf(front[j]);
      assert front[i] == caps[i] && front[j] == caps[j];
    }
  }

  /** The check reports a duplicate exactly when two lines fill the same slot. */
  lemma {:induction false} DuplicateIff(caps: seq<Capability>)
    ensures (Verify(caps).Err? && Verify(caps).error.DuplicateCapability?) <==> !Distinct(caps)
  {
    if Distinct(caps) {
      NoDuplicate(caps);
    } else {
      var j := FirstRepeat(caps);
      FirstDuplicate(caps, j);
    }
  }

  /**
   * Without duplicates, IMPLEMENTATION, SIEVE and VERSION must all be
   * present, and the first of them missing, in that order, is reported.
   */
  lemma {:induction false} MissingOrder(caps: seq<Capability>)
    requires Distinct(caps)
    ensures Verify(caps) == Err(MissingImplementation) <==> !Has(caps, ImplementationSlot)
    ensures Verify(caps) == Err(MissingSieve) <==> Has(caps, ImplementationSlot) && !Has(caps, SieveSlot)
    ensures Verify(caps) == Err(MissingVersion)
      <==> Has(caps, ImplementationSlot) && Has(caps, SieveSlot) && !Has(caps, VersionSlot)
    ensures Verify(caps).Ok? <==> Has(caps, ImplementationSlot) && Has(caps, SieveSlot) && Has(caps, VersionSlot)
  {
    NoDuplicate(caps);
    GatheredView(caps);
  }

  /** Without duplicates, every announced value lands in its field of the snapshot. */
  lemma {:induction false} Announced(caps: seq<Capability>, k: nat)
    requires Distinct(caps) && Verify(caps).Ok? && k < |caps|
    ensures var r := Verify(caps).value;
      match caps[k]
      case Implementation(v) => r.implementation == v
      case Sasl(v) => r.sasl == v
      case Sieve(v) => r.sieve == v
      case StartTls => r.startTls
      case MaxRedirects(n) => r.maxRedirects == Some(n)
      case Notify(v) => r.notify == Some(v)
      case Language(v) => r.language == Some(v)
      case Owner(v) => r.owner == Some(v)
      case Version(v) => r.version == v
      case Unknown(name, v) => name in r.others && r.others[name] == v
  {
    NoDuplicate(caps);
    GatheredView(caps);
  }

  /**
   * Without duplicates, what was not announced is left at its default:
   * no SASL mechanisms, STARTTLS off, the optional fields empty, and no
   * entry for a name no unknown line carried.
   */
  lemma {:induction false} NotAnnounced(caps: seq<Capability>)
    requires Distinct(caps) && Verify(caps).Ok?
    ensures var r := Verify(caps).value;
      && (!Has(caps, SaslSlot) ==> r.sasl == [])
      && (r.startTls <==> Has(caps, StartTlsSlot))
      && (!Has(caps, MaxRedirectsSlot) ==> r.maxRedirects == None)
      && (!Has(caps, NotifySlot) ==> r.notify == None)
      && (!Has(caps, LanguageSlot) ==> r.language == None)
      && (!Has(caps, OwnerSlot) ==> r.owner == None)
      && (forall n :: n in r.others <==> Has(caps, OtherSlot(n)))
  {
    NoDuplicate(caps);
    GatheredView(caps);
  }

  /** Reordered lines hold the same capabilities. */
  lemma {:induction false} SameLines(caps: seq<Capability>, other: seq<Capability>)
    requires multiset(caps) == multiset(other)
    ensures forall k :: 0 <= k < |other| ==> other[k] in caps
    ensures forall k :: 0 <= k < |caps| ==> caps[k] in other
  {
    forall k | 0 <= k < |other|
      ensures other[k] in caps
    {
      assert other[k] in multiset(other);
    }
    forall k | 0 <= k < |caps|
      ensures caps[k] in other
    {
      assert caps[k] in multiset(caps);
    }
  }

  /** Reordering lines that fill different slots keeps them in different slots. */
  lemma {:induction false} DistinctReordered(caps: seq<Capability>, other: seq<Capability>)
    requires Distinct(caps) && multiset(caps) == multiset(other)
    ensures Distinct(other)
  {
    SameLines(caps, other);
    forall i, j | 0 <= i < j < |other|
      ensures SlotOf(other[i]) != SlotOf(other[j])
    {
      if SlotOf(other[i]) == SlotOf(other[j]) {
        var a :| 0 <= a < |caps| && caps[a] == other[i];
        var b :| 0 <= b < |caps| && caps[b] == other[j];
        if a == b {
          Twice(other, i, j);
          Once(caps, a);
        }
        assert false;
      }
    }
  }

  /** Reordered lines without repeated slots gather the same slots. */
  lemma {:induction false} GatheredReordered(caps: seq<Capability>, other: seq<Capability>)
    requires Distinct(caps) && Distinct(other) && multiset(caps) == multiset(other)
    ensures Gathered(caps) == Gathered(other)
  {
    SameLines(caps, other);
    GatheredView(caps);
    GatheredView(other);
    var g, h := Gathered(caps), Gathered(other);
    assert g.Keys == h.Keys by {
      SameSlots(caps, other);
    }
    forall sl | sl in g
      ensures g[sl] == h[sl]
    {
      var k :| 0 <= k < |caps| && SlotOf(caps[k]) == sl;
      var m :| 0 <= m < |other| && other[m] == caps[k];
    }
  }

  /** Reordered lines fill the same slots. */
  lemma {:induction false} SameSlots(caps: seq<Capability>, other: seq<Capability>)
    requires forall k :: 0 <= k < |other| ==> other[k] in caps
    requires forall k :: 0 <= k < |caps| ==> caps[k] in other
    ensures forall sl :: Has(caps, sl) <==> Has(other, sl)
  {
    forall sl
      ensures Has(caps, sl) <==> Has(other, sl)
    {
      if Has(caps, sl) {
        var k :| 0 <= k < |caps| && SlotOf(caps[k]) == sl;
        var m :| 0 <= m < |other| && other[m] == caps[k];
      }
      if Has(other, sl) {
        var k :| 0 <= k < |other| && SlotOf(other[k]) == sl;
        var m :| 0 <= m < |caps| && caps[m] == other[k];
      }
    }
  }

  /** Reordering lines that fill different slots does not change the outcome. */
  lemma {:induction false} OrderFree(caps: seq<Capability>, other: seq<Capability>)
    requires Distinct(caps) && multiset(caps) == multiset(other)
    ensures Verify(caps) == Verify(other)
  {
    DistinctReordered(caps, other);
    GatheredReordered(caps, other);
    NoDuplicate(caps);
    NoDuplicate(other);
  }

  /** A value at two positions is counted twice. */
  lemma {:induction false} Twice(xs: seq<Capability>, i: nat, j: nat)
    requires i < j < |xs| && xs[i] == xs[j]
    ensures multiset(xs)[xs[i]] >= 2
  {
    assert xs == xs[..i] + [xs[i]] + xs[i + 1..j] + [xs[j]] + xs[j + 1..];
  }

  /** Without repeated slots, each value is counted once. */
  lemma {:induction false} Once(xs: seq<Capability>, k: nat)
    requires Distinct(xs) && k < |xs|
    ensures multiset(xs)[xs[k]] == 1
  {
    assert xs == xs[..k] + [xs[k]] + xs[k + 1..];
    assert xs[k] !in xs[..k] by {
      forall a | 0 <= a < k
        ensures xs[..k][a] != xs[k]
      {
        assert xs[..k][a] == xs[a];
      }
    }
    var rest := xs[k + 1..];
    assert xs[k] !in rest by {
      forall a | 0 <= a < |rest|
        ensures rest[a] != xs[k]
      {
        assert rest[a] == xs[k + 1 + a];
      }
    }
  }
}
