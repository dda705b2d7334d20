/** Errors and what the default error handler answers for them. */
module ErrorTrees {
  import opened Options

  /** An error and what its Unwrap reaches: one cause, several, or none. A PanicError
      unwraps to the panicked value when that is an error. */
  datatype Error =
    | PanicError(value: Option<Error>)
    | HTTPError(code: int, message: string, cause: Option<Error>)
    | Wrapped(inner: Error)
    | Joined(errs: seq<Error>)
    | Plain

  /** t is e or is reached from it by Unwrap. */
  predicate Reaches(e: Error, t: Error)
    decreases e
  {
    || e == t
    || match e {
         case PanicError(v) => v.Some? && Reaches(v.value, t)
         case HTTPError(_, _, cause) => cause.Some? && Reaches(cause.value, t)
         case Wrapped(inner) => Reaches(inner, t)
         case Joined(errs) => exists i :: 0 <= i < |errs| && Reaches(errs[i], t)
         case Plain => false
       }
  }

  /** errors.As: the first error of the kind asked for, each error before what it unwraps
      to, and several causes in order. */
  function As(e: Error, kind: Error -> bool): Option<Error>
    decreases e, if e.Joined? then |e.errs| + 1 else 0
  {
    if kind(e) then Some(e)
    else
      match e
      case PanicError(v) => if v.Some? then As(v.value, kind) else None
      case HTTPError(_, _, cause) => if cause.Some? then As(cause.value, kind) else None
      case Wrapped(inner) => As(inner, kind)
      case Joined(errs) => AsFrom(e, 0, kind)
      case Plain => None
  }

  function AsFrom(e: Error, i: nat, kind: Error -> bool): Option<Error>
    requires e.Joined? && i <= |e.errs|
    decreases e, |e.errs| - i
  {
    if i == |e.errs| then None
    else
      var found := As(e.errs[i], kind);
      if found.Some? then found else AsFrom(e, i + 1, kind)
  }

  /** errors.As finds an error of the kind exactly when Unwrap reaches one, and what it
      finds is one. */
  lemma {:induction false} AsFindsWhatIsReached(e: Error, kind: Error -> bool)
    ensures As(e, kind).Some? ==> kind(As(e, kind).value) && Reaches(e, As(e, kind).value)
    ensures As(e, kind).None? ==> forall t :: Reaches(e, t) ==> !kind(t)
    decreases e, if e.Joined? then |e.errs| + 1 else 0
  {
    if !kind(e) {
      match e
      case PanicError(v) => if v.Some? { AsFindsWhatIsReached(v.value, kind); }
      case HTTPError(_, _, cause) => if cause.Some? { AsFindsWhatIsReached(cause.value, kind); }
      case Wrapped(inner) => AsFindsWhatIsReached(inner, kind);
      case Joined(errs) => AsFromFinds(e, 0, kind);
      case Plain =>
    }
  }

  lemma {:induction false} AsFromFinds(e: Error, i: nat, kind: Error -> bool)
    requires e.Joined? && i <= |e.errs|
    ensures AsFrom(e, i, kind).Some? ==>
      kind(AsFrom(e, i, kind).value) && exists j :: i <= j < |e.errs| && Reaches(e.errs[j], AsFrom(e, i, kind).value)
    ensures AsFrom(e, i, kind).None? ==> forall j, t :: i <= j < |e.errs| && Reaches(e.errs[j], t) ==> !kind(t)
    decreases e, |e.errs| - i
  {
    if i < |e.errs| {
      AsFindsWhatIsReached(e.errs[i], kind);
      AsFromFinds(e, i + 1, kind);
    }
  }

  /** It takes the first of several causes that reaches one, and an error before what that
      unwraps to. */
  lemma {:induction false} AsTakesTheFirst(errs: seq<Error>, i: nat, kind: Error -> bool)
    requires !kind(Joined(errs)) && i < |errs| && As(errs[i], kind).Some?
    requires forall j :: 0 <= j < i ==> As(errs[j], kind).None?
    ensures As(Joined(errs), kind) == As(errs[i], kind)
    ensures kind(errs[i]) ==> As(Joined(errs), kind) == Some(errs[i])
  {
    AsFromSkips(Joined(errs), 0, i, kind);
  }

  lemma {:induction false} AsFromSkips(e: Error, from: nat, i: nat, kind: Error -> bool)
    requires e.Joined? && from <= i < |e.errs| && As(e.errs[i], kind).Some?
    requires forall j :: from <= j < i ==> As(e.errs[j], kind).None?
    ensures AsFrom(e, from, kind) == As(e.errs[i], kind)
    decreases i - from
  {
    if from < i {
      AsFromSkips(e, from + 1, i, kind);
    }
  }

  // ----- answers

  const INTERNAL := 500

  /** The status actually sent for a code. */
  function ValidStatus(code: int): int {
    if code < 100 || code > 599 then INTERNAL else code
  }

  datatype Body = NoBody | Text(text: string) | Streamed(fn: nat)

  /** statusText is the transport's text for a status. */
  datatype Response = Response(status: int, body: Body)

  function Responding(code: int, msg: string, statusText: int -> string): Response {
    var v := ValidStatus(code);
    Response(v, Text(if msg == "" then statusText(v) else msg))
  }

  const IS_PANIC := (e: Error) => e.PanicError?

  const IS_HTTP := (e: Error) => e.HTTPError?

  /** What an error answers: 500 when it reaches a panic, otherwise the code of the first
      HTTPError it reaches, otherwise 500. */
  function Answer(e: Error, statusText: int -> string): Response {
    if As(e, IS_PANIC).Some? then Responding(INTERNAL, "Internal Server Error", statusText)
    else
      var h := As(e, IS_HTTP);
      if h.Some? && h.value.HTTPError? then Responding(h.value.code, h.value.message, statusText)
      else Responding(INTERNAL, "Internal Server Error", statusText)
  }

  /** A panic anywhere in an error's chain is a 500 with a generic body, whatever it or the
      errors around it carry; and no error ever answers a status outside 100 to 599. */
  lemma PanicsAre500(e: Error, t: Error, statusText: int -> string)
    requires Reaches(e, t) && t.PanicError?
    ensures Answer(e, statusText) == Response(INTERNAL, Text("Internal Server Error"))
  {
    AsFindsWhatIsReached(e, IS_PANIC);
  }

  lemma AnswersAreValid(e: Error, statusText: int -> string)
    ensures 100 <= Answer(e, statusText).status <= 599
  {
  }

  /** A status a response can have is sent as it is, and so is a message; any other status is
      500, and no message is the status's own text. */
  lemma CodesAreKept(code: int, msg: string, statusText: int -> string)
    ensures var r := Responding(code, msg, statusText);
      && r.status == (if 100 <= code <= 599 then code else 500)
      && r.body == Text(if msg != "" then msg else statusText(r.status))
  {
  }

  /** An HTTPError without a panic beneath answers for itself, whatever it wraps. */
  lemma OuterCodeWins(e: Error, statusText: int -> string)
    requires e.HTTPError? && forall t :: Reaches(e, t) ==> !t.PanicError?
    ensures Answer(e, statusText) == Responding(e.code, e.message, statusText)
    ensures 100 <= e.code <= 599 ==> Answer(e, statusText).status == e.code
    ensures e.message != "" ==> Answer(e, statusText).body == Text(e.message)
  {
    AsFindsWhatIsReached(e, IS_PANIC);
  }

  /** One request, and the response being built for it. */
  class RequestCtx {
    const statusText: int -> string
    const verb: string
    const path: string
    const isHead: bool
    var response: Response
    var closes: bool                // the connection, after the response
    ghost var log: seq<Event>

    constructor (statusText: int -> string, verb: string, path: string)
      ensures log == [] && !closes && this.statusText == statusText
      ensures this.verb == verb && this.path == path && isHead == (verb == "HEAD")
    {
      this.statusText, this.verb, this.path, isHead := statusText, verb, path, verb == "HEAD";
      response, closes, log := Response(200, NoBody), false, [];
    }

    /** Writes a status and a text body, discarding what was written before. */
    method Respond(code: int, msg: string)
      modifies this`response
      ensures response == Responding(code, msg, statusText)
    {
      var v := code;
      if ValidStatus(code) != code {
        v := ValidStatus(code);
      }
      var text := msg;
      if text == "" {
        text := statusText(v);
      }
      response := Response(v, Text(text));
    }

    /** The default error handler. Its type switch in front of the two walks is a fast path:
        the answer is the walks', because it takes an HTTPError only when that wraps nothing. */
    method DefaultErrorHandler(err: Error)
      modifies this`response
      ensures response == Answer(err, statusText)
    {
      match err {
        case PanicError(_) =>
          Respond(INTERNAL, "Internal Server Error");
          return;
        case HTTPError(code, message, cause) =>
          if cause.None? {
            Respond(code, message);
            return;
          }
        case _ =>
      }
      var pe := As(err, IS_PANIC);
      if pe.Some? {
        Respond(INTERNAL, "Internal Server Error");
        return;
      }
      var he := As(err, IS_HTTP);
      AsFindsWhatIsReached(err, IS_HTTP);
      if he.Some? {
        Respond(he.value.code, he.value.message);
        return;
      }
      Respond(INTERNAL, "Internal Server Error");
    }
  }

  /** What happens to a request, in order. */
  datatype Event =
    | Handling(err: Error)          // the ErrorHandler starts to run
    | LastResort                    // it panicked
    | PanicReached(value: Option<Error>)   // a panic reached handle
    | Released
    | Started(fn: nat, heartbeat: nat)     // the recorded stream
}
