/** What one request comes to, for every behaviour of user code. */
module DispatchRule {
  import opened Options
  import opened ErrorTrees

  /** What a handler, a middleware or an ErrorHandler does. It is finite, and says at each
      call of HandleError what the ErrorHandler would do if it ran there. */
  datatype Script =
    | Returns(err: Option<Error>)
    | Panics(value: Option<Error>)
    | Settles(err: Option<Error>, reaction: Script, rest: Script)        // c.HandleError
    | Streams(fn: Option<nat>, heartbeat: nat, rest: Script)             // c.Stream or c.SSE
    | Writes(response: Response, rest: Script)
    | CallsNext(next: Script, recovers: bool, rest: Script)              // what wraps a handler

  datatype Outcome = Returned(err: Option<Error>) | Panicked(value: Option<Error>)

  /** What an App and a request fix: whether the ErrorHandler is the default one, whether
      the request is HEAD, and the transport's text for a status. */
  datatype Setting = Setting(useDefault: bool, isHead: bool, statusText: int -> string)

  /** The state of a request that user code can change. */
  datatype Core = Core(
    handled: bool,
    streamSet: bool,
    stream: Option<(nat, nat)>,       // the recorded callback and its heartbeat
    response: Response,
    log: seq<Event>)

  const GENERIC := "Internal Server Error"

  /** One run of user code. */
  function After(k: Core, s: Script, w: Setting): (Core, Outcome)
    decreases s, 0
  {
    match s
    case Returns(err) => (k, Returned(err))
    case Panics(value) => (k, Panicked(value))
    case Settles(err, reaction, rest) => After(AfterSettling(k, err, reaction, w), rest, w)
    case Streams(fn, heartbeat, rest) =>
      if fn.None? || k.streamSet then (k, Panicked(None))
      else After(k.(streamSet := true, stream := if w.isHead then k.stream else Some((fn.value, heartbeat))), rest, w)
    case Writes(response, rest) => After(k.(response := response), rest, w)
    case CallsNext(next, recovers, rest) =>
      var (k', o) := After(k, next, w);
      if o.Panicked? && !recovers then (k', o) else After(k', rest, w)
  }

  /** A call of HandleError. */
  function AfterSettling(k: Core, err: Option<Error>, reaction: Script, w: Setting): Core
    decreases reaction, 2
  {
    if err.None? || k.handled then k else AfterError(k.(handled := true), err.value, reaction, w)
  }

  /** The ErrorHandler, with the last resort beneath it. */
  function AfterError(k: Core, err: Error, reaction: Script, w: Setting): Core
    decreases reaction, 1
  {
    var begun := k.(log := k.log + [Handling(err)]);
    if w.useDefault then begun.(response := Answer(err, w.statusText))
    else
      var (k', o) := After(begun, reaction, w);
      if o.Panicked? then
        k'.(log := k'.log + [LastResort], response := Responding(INTERNAL, GENERIC, w.statusText))
      else k'
  }

  /** The ErrorHandler ran once for err, on top of what had happened; at most, it panicked. */
  predicate RanOnce(before: seq<Event>, after: seq<Event>, err: Error) {
    after == before + [Handling(err)] || after == before + [Handling(err), LastResort]
  }

  /** It ran once for some error. */
  ghost predicate RanFor(before: seq<Event>, after: seq<Event>) {
    exists err :: RanOnce(before, after, err)
  }

  /** Whatever user code does, at any depth, the ErrorHandler runs at most once: when the
      request was not settled before and is after. A settled request stays settled. */
  lemma {:induction false} RunsAtMostOnce(k: Core, s: Script, w: Setting)
    ensures var k' := After(k, s, w).0;
      && (k.handled ==> k'.handled)
      && (k'.handled == k.handled ==> k'.log == k.log)
      && (k'.handled && !k.handled ==> RanFor(k.log, k'.log))
    decreases s, 0
  {
    match s
    case Returns(_) =>
    case Panics(_) =>
    case Settles(err, reaction, rest) =>
      if err.Some? && !k.handled {
        RunsOnce(k.(handled := true), err.value, reaction, w);
      }
      RunsAtMostOnce(AfterSettling(k, err, reaction, w), rest, w);
    case Streams(fn, heartbeat, rest) =>
      if fn.Some? && !k.streamSet {
        RunsAtMostOnce(k.(streamSet := true, stream := if w.isHead then k.stream else Some((fn.value, heartbeat))),
                       rest, w);
      }
    case Writes(response, rest) =>
      RunsAtMostOnce(k.(response := response), rest, w);
    case CallsNext(next, recovers, rest) =>
      RunsAtMostOnce(k, next, w);
      var (k', o) := After(k, next, w);
      if o.Returned? || recovers {
        RunsAtMostOnce(k', rest, w);
      }
  }

  /** An ErrorHandler that runs, whatever it does, runs once: it finds the request settled,
      so calling HandleError itself does nothing, and its panic goes no further. */
  lemma {:induction false} RunsOnce(k: Core, err: Error, reaction: Script, w: Setting)
    requires k.handled
    ensures var k' := AfterError(k, err, reaction, w);
      && k'.handled && RanOnce(k.log, k'.log, err)
      && (w.useDefault ==> k'.response == Answer(err, w.statusText))
      && (k'.log == k.log + [Handling(err), LastResort] ==> k'.response == Response(INTERNAL, Text(GENERIC)))
    decreases reaction, 1
  {
    var begun := k.(log := k.log + [Handling(err)]);
    if !w.useDefault {
      RunsAtMostOnce(begun, reaction, w);
      assert AfterError(k, err, reaction, w).log == begun.log
          || AfterError(k, err, reaction, w).log == k.log + [Handling(err), LastResort];
    }
  }

  /** A callback is recorded at most once, and never for HEAD. */
  lemma {:induction false} StreamsOnce(k: Core, s: Script, w: Setting)
    requires k.stream.Some? ==> k.streamSet && !w.isHead
    ensures var k' := After(k, s, w).0;
      && (k.streamSet ==> k'.streamSet && k'.stream == k.stream)
      && (k'.stream.Some? ==> k'.streamSet && !w.isHead)
    decreases s, 0
  {
    match s
    case Returns(_) =>
    case Panics(_) =>
    case Settles(err, reaction, rest) =>
      if err.Some? && !k.handled {
        ReactionStreamsOnce(k.(handled := true), err.value, reaction, w);
      }
      StreamsOnce(AfterSettling(k, err, reaction, w), rest, w);
    case Streams(fn, heartbeat, rest) =>
      if fn.Some? && !k.streamSet {
        StreamsOnce(k.(streamSet := true, stream := if w.isHead then k.stream else Some((fn.value, heartbeat))),
                    rest, w);
      }
    case Writes(response, rest) =>
      StreamsOnce(k.(response := response), rest, w);
    case CallsNext(next, recovers, rest) =>
      StreamsOnce(k, next, w);
      var (k', o) := After(k, next, w);
      if o.Returned? || recovers {
        StreamsOnce(k', rest, w);
      }
  }

  lemma {:induction false} ReactionStreamsOnce(k: Core, err: Error, reaction: Script, w: Setting)
    requires k.stream.Some? ==> k.streamSet && !w.isHead
    ensures var k' := AfterError(k, err, reaction, w);
      && (k.streamSet ==> k'.streamSet && k'.stream == k.stream)
      && (k'.stream.Some? ==> k'.streamSet && !w.isHead)
    decreases reaction, 1
  {
    if !w.useDefault {
      StreamsOnce(k.(log := k.log + [Handling(err)]), reaction, w);
    }
  }

  // ----- a whole request

  /** What the chain does, and what the ErrorHandler does if it is called for the chain's
      error, or for a panic that reaches handle. */
  datatype Request = Request(chain: Script, failed: Script, panicked: Script)

  function Fresh(response: Response): Core {
    Core(false, false, None, response, [])
  }

  /** The chain, and the answer to the error it returns unless the request is settled. */
  function AfterChain(k: Core, q: Request, w: Setting): (Core, Outcome) {
    var (k', o) := After(k, q.chain, w);
    if o.Returned? && o.err.Some? && !k'.handled then (AfterError(k'.(handled := true), o.err.value, q.failed, w), o)
    else (k', o)
  }

  /** A panic that reached handle is answered whatever was settled. */
  function AfterPanic(k: Core, o: Outcome, q: Request, w: Setting): Core {
    if o.Returned? then k
    else AfterError(k.(handled := true, log := k.log + [PanicReached(o.value)]), PanicError(o.value), q.panicked, w)
  }

  /** The release, and then the recorded stream of a request the funnel did not answer. */
  function AfterRelease(k: Core): Core {
    var released := k.(log := k.log + [Released]);
    if k.stream.Some? && !k.handled then
      released.(log := released.log + [Started(k.stream.value.0, k.stream.value.1)],
                response := k.response.(body := Streamed(k.stream.value.0)))
    else released
  }

  function AfterAll(response: Response, q: Request, w: Setting): Core {
    var (k, o) := AfterChain(Fresh(response), q, w);
    AfterRelease(AfterPanic(k, o, q, w))
  }

  /** How a request ends. */
  function Ending(unsettled: bool, recorded: Option<(nat, nat)>): seq<Event> {
    [Released] + if unsettled && recorded.Some? then [Started(recorded.value.0, recorded.value.1)] else []
  }

  /** Over every behaviour: before a panic reaches handle the ErrorHandler has run at most
      once, and for the panic it runs exactly once more. Then the Ctx is released, once;
      only then may the recorded stream start, and it does exactly when the ErrorHandler
      never ran. HEAD starts none. */
  lemma EveryRequest(response: Response, q: Request, w: Setting)
    ensures var (k, o) := AfterChain(Fresh(response), q, w);
      && (k.log == [] || RanFor([], k.log))
      && (w.isHead ==> k.stream.None?)
      && (o.Returned? ==> AfterAll(response, q, w).log == k.log + Ending(k.log == [], k.stream))
      && (o.Panicked? ==> exists settled ::
            && RanOnce(k.log + [PanicReached(o.value)], settled, PanicError(o.value))
            && AfterAll(response, q, w).log == settled + [Released])
  {
    hide Answer, Responding;
    var (k0, o0) := After(Fresh(response), q.chain, w);
    RunsAtMostOnce(Fresh(response), q.chain, w);
    StreamsOnce(Fresh(response), q.chain, w);
    if o0.Returned? && o0.err.Some? && !k0.handled {
      RunsOnce(k0.(handled := true), o0.err.value, q.failed, w);
      ReactionStreamsOnce(k0.(handled := true), o0.err.value, q.failed, w);
    }
    var (k, o) := AfterChain(Fresh(response), q, w);
    if o.Panicked? {
      var reached := k.(handled := true, log := k.log + [PanicReached(o.value)]);
      RunsOnce(reached, PanicError(o.value), q.panicked, w);
    }
  }

  /** Under the default handler a panic that reaches handle answers 500 with the generic
      body, whatever was written or settled before, and no stream replaces it. */
  lemma PanicAnswers500(response: Response, q: Request, w: Setting)
    requires w.useDefault && AfterChain(Fresh(response), q, w).1.Panicked?
    ensures AfterAll(response, q, w).response == Response(INTERNAL, Text(GENERIC))
  {
    var (k, o) := AfterChain(Fresh(response), q, w);
    var reached := k.(handled := true, log := k.log + [PanicReached(o.value)]);
    RunsOnce(reached, PanicError(o.value), q.panicked, w);
    PanicsAre500(PanicError(o.value), PanicError(o.value), w.statusText);
  }

  /** An error the chain returns unsettled is answered as it says. */
  lemma ErrorAnswers(response: Response, q: Request, w: Setting)
    requires w.useDefault
    requires var (k, o) := After(Fresh(response), q.chain, w); o.Returned? && o.err.Some? && !k.handled
    ensures AfterAll(response, q, w).response == Answer(After(Fresh(response), q.chain, w).1.err.value, w.statusText)
  {
  }
}
