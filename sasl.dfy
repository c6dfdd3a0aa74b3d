/**
 * The SASL exchange states a mechanism reports after each step, and the
 * adapters that turn a step function or a coroutine into those states.
 * The step itself is the caller's: here it is a function parameter.
 */
module SaslStates {
  import opened Wrappers
  import Utf8

  type byte = Utf8.byte

  /** What a mechanism reports after a step. */
  datatype SaslState =
    | Yielded(data: seq<byte>)
    | Complete
    | CompleteWithFinalResponse(data: seq<byte>)

  /** `has_response`: the state carries data for the server. */
  predicate HasResponse(s: SaslState) {
    s.Yielded? || s.CompleteWithFinalResponse?
  }

  /** `is_finished`: the mechanism has nothing more to do. */
  predicate IsFinished(s: SaslState) {
    s.Complete? || s.CompleteWithFinalResponse?
  }

  /** `response`: the data for the server, if the state carries any. */
  function Response(s: SaslState): (r: Option<seq<byte>>)
    ensures r.Some? <==> HasResponse(s)
    ensures r.Some? ==> r.value == s.data
  {
    match s
    case Yielded(d) => Some(d)
    case Complete => None
    case CompleteWithFinalResponse(d) => Some(d)
  }

  /** Every state has a response or is finished, and only a final response is both. */
  lemma {:induction false} ResponseOrFinished(s: SaslState)
    ensures HasResponse(s) || IsFinished(s)
    ensures HasResponse(s) && IsFinished(s) <==> s.CompleteWithFinalResponse?
    ensures Response(s).None? <==> s == Complete
  {
    match s
    case Yielded(_) =>
    case Complete =>
    case CompleteWithFinalResponse(_) =>
  }

  /** `InitialSaslState`: what the client sends with the AUTHENTICATE command itself. */
  datatype InitialSaslState = NoInitial | InitialYielded(data: seq<byte>) | InitialComplete(data: seq<byte>)

  /** What a coroutine hands back when resumed. */
  datatype CoroutineState<E> = CoroutineYielded(data: seq<byte>) | CoroutineComplete(result: Result<Option<seq<byte>>, E>)

  /** The step behind a mechanism: a caller's function, a coroutine, or none at all (`SaslInnerDummy`). */
  datatype SaslInner<E> =
    | StepFn(step: seq<byte> -> Result<SaslState, E>)
    | StepCoroutine(resume: seq<byte> -> CoroutineState<E>)
    | Dummy

  /** `Sasl`: the mechanism's name, its initial state and its step. */
  datatype Sasl<E> = Sasl(name: string, init: InitialSaslState, inner: SaslInner<E>)

  /** The coroutine adapter: a yield is a step, a return ends the exchange with or without a last response. */
  function FromCoroutine<E>(c: CoroutineState<E>): (r: Result<SaslState, E>)
    ensures c.CoroutineYielded? ==> r == Ok(Yielded(c.data))
    ensures c.CoroutineComplete? && c.result.Err? ==> r == Err(c.result.error)
    ensures r.Ok? ==> (IsFinished(r.value) <==> c.CoroutineComplete?)
    ensures r.Ok? && c.CoroutineComplete? ==> Response(r.value) == c.result.value
  {
    match c
    case CoroutineYielded(data) => Ok(Yielded(data))
    case CoroutineComplete(Err(e)) => Err(e)
    case CoroutineComplete(Ok(Some(data))) => Ok(CompleteWithFinalResponse(data))
    case CoroutineComplete(Ok(None)) => Ok(Complete)
  }

  /** The coroutine state a step result came from. */
  function ToCoroutine<E>(r: Result<SaslState, E>): CoroutineState<E> {
    match r
    case Err(e) => CoroutineComplete(Err(e))
    case Ok(Yielded(data)) => CoroutineYielded(data)
    case Ok(CompleteWithFinalResponse(data)) => CoroutineComplete(Ok(Some(data)))
    case Ok(Complete) => CoroutineComplete(Ok(None))
  }

  /** The adapter loses nothing: every coroutine state is recovered from its step result. */
  lemma {:induction false} CoroutineRoundTrip<E>(c: CoroutineState<E>)
    ensures ToCoroutine(FromCoroutine(c)) == c
  {
    match c
    case CoroutineYielded(_) =>
    case CoroutineComplete(Err(_)) =>
    case CoroutineComplete(Ok(Some(_))) =>
    case CoroutineComplete(Ok(None)) =>
  }

  /** And every step result comes from a coroutine state, so the two correspond one to one. */
  lemma {:induction false} StepRoundTrip<E>(r: Result<SaslState, E>)
    ensures FromCoroutine(ToCoroutine(r)) == r
  {
    match r
    case Err(_) =>
    case Ok(Yielded(_)) =>
    case Ok(CompleteWithFinalResponse(_)) =>
    case Ok(Complete) =>
  }

  /** A mechanism with a step can be resumed; the dummy step of `new_init` is unreachable. */
  predicate Resumable<E>(inner: SaslInner<E>) {
    !inner.Dummy?
  }

  /** `resume`: one step of the mechanism with the server's data. */
  function Resume<E>(inner: SaslInner<E>, arg: seq<byte>): (r: Result<SaslState, E>)
    requires Resumable(inner)
    ensures inner.StepFn? ==> r == inner.step(arg)
    ensures inner.StepCoroutine? ==> ToCoroutine(r) == inner.resume(arg)
  {
    match inner
    case StepFn(step) => step(arg)
    case StepCoroutine(resume) =>
      CoroutineRoundTrip(resume(arg));
      FromCoroutine(resume(arg))
  }

  /** `new_fn`. */
  function NewFn<E>(name: string, init: InitialSaslState, f: seq<byte> -> Result<SaslState, E>): (m: Sasl<E>)
    ensures m.name == name && m.init == init && Resumable(m.inner)
    ensures forall arg :: Resume(m.inner, arg) == f(arg)
  {
    Sasl(name, init, StepFn(f))
  }

  /** `new_init`: the whole exchange is the initial response, so there is never a step to resume. */
  function NewInit<E>(name: string, init: seq<byte>): (m: Sasl<E>)
    ensures m.name == name && m.init == InitialComplete(init)
    ensures !Resumable(m.inner)
  {
    Sasl(name, InitialComplete(init), Dummy)
  }

  /** `new_coroutine`. */
  function NewCoroutine<E>(name: string, init: InitialSaslState, c: seq<byte> -> CoroutineState<E>): (m: Sasl<E>)
    ensures m.name == name && m.init == init && Resumable(m.inner)
    ensures forall arg :: ToCoroutine(Resume(m.inner, arg)) == c(arg)
  {
    Sasl(name, init, StepCoroutine(c))
  }
}
