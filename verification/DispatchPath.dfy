/** What user code does on the way, deed by deed, and what of it the client gets. */
module DispatchPaths {
  import opened Options
  import opened ErrorTrees
  import opened DispatchRule

  /** The deeds of user code and of the funnel that anyone can see afterwards. */
  datatype Deed =
    | Wrote(response: Response)
    | Ran(err: Error)                 // the ErrorHandler began to run
    | Resorted                        // it panicked
    | Reached(value: Option<Error>)   // a panic reached handle
    | Asked(fn: nat, heartbeat: nat)  // a stream was asked for

  // ----- what a list of deeds comes to

  /** The last response written, or the first one there was. */
  function LastWritten(ds: seq<Deed>, first: Response): Response {
    if ds == [] then first
    else if ds[|ds| - 1].Wrote? then ds[|ds| - 1].response
    else LastWritten(ds[..|ds| - 1], first)
  }

  predicate HasRun(ds: seq<Deed>) { exists i :: 0 <= i < |ds| && ds[i].Ran? }

  predicate HasAsked(ds: seq<Deed>) { exists i :: 0 <= i < |ds| && ds[i].Asked? }

  /** The stream asked for, if any. */
  function StreamOf(ds: seq<Deed>): Option<(nat, nat)> {
    if ds == [] then None
    else if ds[|ds| - 1].Asked? then Some((ds[|ds| - 1].fn, ds[|ds| - 1].heartbeat))
    else StreamOf(ds[..|ds| - 1])
  }

  /** The events among them. */
  function EventsOf(ds: seq<Deed>): seq<Event> {
    if ds == [] then []
    else
      var before := EventsOf(ds[..|ds| - 1]);
      match ds[|ds| - 1]
      case Ran(err) => before + [Handling(err)]
      case Resorted => before + [ErrorTrees.LastResort]
      case Reached(value) => before + [PanicReached(value)]
      case _ => before
  }

  /** What the client gets: the last response written, its body the stream's when one was asked
      for, other than by HEAD, and the ErrorHandler never ran. */
  function Sent(ds: seq<Deed>, first: Response, w: Setting): Response {
    var last := LastWritten(ds, first);
    if StreamOf(ds).Some? && !w.isHead && !HasRun(ds) then last.(body := Streamed(StreamOf(ds).value.0)) else last
  }

  // ----- the path that is executed

  /** The deeds of a run of user code after those of before. A request is settled exactly when
      the ErrorHandler has run, and has its stream when one was asked for. */
  function Path(before: seq<Deed>, s: Script, w: Setting): (seq<Deed>, Outcome)
    decreases s, 0
  {
    match s
    case Returns(err) => (before, Returned(err))
    case Panics(value) => (before, Panicked(value))
    case Settles(err, reaction, rest) =>
      Path(if err.Some? && !HasRun(before) then ErrorPath(before, err.value, reaction, w) else before, rest, w)
    case Streams(fn, heartbeat, rest) =>
      if fn.Some? && !HasAsked(before) then Path(before + [Asked(fn.value, heartbeat)], rest, w)
      else (before, Panicked(None))
    case Writes(response, rest) => Path(before + [Wrote(response)], rest, w)
    case CallsNext(next, recovers, rest) =>
      var (ds, o) := Path(before, next, w);
      if o.Returned? || recovers then Path(ds, rest, w) else (ds, o)
  }

  /** Those of the ErrorHandler. */
  function ErrorPath(before: seq<Deed>, err: Error, reaction: Script, w: Setting): seq<Deed>
    decreases reaction, 1
  {
    if w.useDefault then before + [Ran(err), Wrote(Answer(err, w.statusText))]
    else
      var (ds, o) := Path(before + [Ran(err)], reaction, w);
      if o.Returned? then ds else ds + [Resorted, Wrote(Response(INTERNAL, Text(GENERIC)))]
  }

  /** Those of a whole request: the chain; the ErrorHandler for an error it returns unless it
      has run; the ErrorHandler for its panic in any case. */
  function WholePath(q: Request, w: Setting): seq<Deed> {
    var (ds, o) := Path([], q.chain, w);
    match o
    case Returned(None) => ds
    case Returned(Some(err)) => if HasRun(ds) then ds else ErrorPath(ds, err, q.failed, w)
    case Panicked(value) => ErrorPath(ds + [Reached(value)], PanicError(value), q.panicked, w)
  }

  // ----- the rule does what the path says

  ghost predicate Reflects(k: Core, ds: seq<Deed>, first: Response, w: Setting) {
    && k.handled == HasRun(ds)
    && k.streamSet == HasAsked(ds) == StreamOf(ds).Some?
    && k.stream == (if w.isHead then None else StreamOf(ds))
    && k.response == LastWritten(ds, first)
    && k.log == EventsOf(ds)
  }

  lemma OneDeed(ds: seq<Deed>, d: Deed, first: Response)
    ensures LastWritten(ds + [d], first) == if d.Wrote? then d.response else LastWritten(ds, first)
    ensures HasRun(ds + [d]) == (HasRun(ds) || d.Ran?)
    ensures HasAsked(ds + [d]) == (HasAsked(ds) || d.Asked?)
    ensures StreamOf(ds + [d]) == if d.Asked? then Some((d.fn, d.heartbeat)) else StreamOf(ds)
    ensures d.Wrote? || d.Asked? ==> EventsOf(ds + [d]) == EventsOf(ds)
    ensures d.Ran? ==> EventsOf(ds + [d]) == EventsOf(ds) + [Handling(d.err)]
    ensures d.Resorted? ==> EventsOf(ds + [d]) == EventsOf(ds) + [ErrorTrees.LastResort]
    ensures d.Reached? ==> EventsOf(ds + [d]) == EventsOf(ds) + [PanicReached(d.value)]
  {
    var more := ds + [d];
    assert more[..|more| - 1] == ds && more[|more| - 1] == d;
    if d.Ran? || d.Asked? {
      assert more[|ds|] == d;
    }
    assert forall i :: 0 <= i < |ds| ==> more[i] == ds[i];
  }

  /** Every run of user code, in any state, does to a request what its path says. */
  lemma {:induction false} AfterIsPath(k: Core, ds: seq<Deed>, s: Script, first: Response, w: Setting)
    requires Reflects(k, ds, first, w)
    ensures Reflects(After(k, s, w).0, Path(ds, s, w).0, first, w)
    ensures After(k, s, w).1 == Path(ds, s, w).1
    decreases s, 0
  {
    hide LastWritten, HasRun, HasAsked, StreamOf, EventsOf, Answer, Responding;
    match s
    case Returns(_) =>
    case Panics(_) =>
    case Settles(err, reaction, rest) =>
      if err.Some? && !k.handled {
        AfterErrorIsPath(k, ds, err.value, reaction, first, w);
        AfterIsPath(AfterSettling(k, err, reaction, w), ErrorPath(ds, err.value, reaction, w), rest, first, w);
      } else {
        AfterIsPath(k, ds, rest, first, w);
      }
    case Streams(fn, heartbeat, rest) =>
      if fn.Some? && !k.streamSet {
        OneDeed(ds, Asked(fn.value, heartbeat), first);
        AfterIsPath(k.(streamSet := true, stream := if w.isHead then k.stream else Some((fn.value, heartbeat))),
                    ds + [Asked(fn.value, heartbeat)], rest, first, w);
      }
    case Writes(response, rest) =>
      OneDeed(ds, Wrote(response), first);
      AfterIsPath(k.(response := response), ds + [Wrote(response)], rest, first, w);
    case CallsNext(next, recovers, rest) =>
      AfterIsPath(k, ds, next, first, w);
      var (k', o) := After(k, next, w);
      if o.Returned? || recovers {
        AfterIsPath(k', Path(ds, next, w).0, rest, first, w);
      }
  }

  lemma {:induction false} AfterErrorIsPath(k: Core, ds: seq<Deed>, err: Error, reaction: Script, first: Response,
                                            w: Setting)
    requires Reflects(k, ds, first, w)
    ensures Reflects(AfterError(k.(handled := true), err, reaction, w), ErrorPath(ds, err, reaction, w), first, w)
    decreases reaction, 1
  {
    hide LastWritten, HasRun, HasAsked, StreamOf, EventsOf, Answer;
    OneDeed(ds, Ran(err), first);
    var begun := k.(handled := true, log := k.log + [Handling(err)]);
    if w.useDefault {
      OneDeed(ds + [Ran(err)], Wrote(Answer(err, w.statusText)), first);
      assert ds + [Ran(err)] + [Wrote(Answer(err, w.statusText))] == ErrorPath(ds, err, reaction, w);
    } else {
      AfterIsPath(begun, ds + [Ran(err)], reaction, first, w);
      var (all, o) := Path(ds + [Ran(err)], reaction, w);
      if o.Panicked? {
        var generic := Wrote(Response(INTERNAL, Text(GENERIC)));
        OneDeed(all, Resorted, first);
        OneDeed(all + [Resorted], generic, first);
        assert all + [Resorted] + [generic] == all + [Resorted, generic];
      }
    }
  }

  /** A whole request: the client gets what the path says, and what happened is what it says,
      with the release and the start of the stream at its end. */
  lemma EveryResponse(response: Response, q: Request, w: Setting)
    ensures var ds := WholePath(q, w);
      && AfterAll(response, q, w).response == Sent(ds, response, w)
      && AfterAll(response, q, w).log ==
           EventsOf(ds) + Ending(!HasRun(ds), if w.isHead then None else StreamOf(ds))
  {
    hide LastWritten, HasRun, HasAsked, StreamOf, EventsOf, Answer, Responding, After, Path, AfterError, ErrorPath;
    Nothing(response);
    AfterIsPath(Fresh(response), [], q.chain, response, w);
    var (k, o) := After(Fresh(response), q.chain, w);
    var (ds, _) := Path([], q.chain, w);
    if o.Panicked? {
      OneDeed(ds, Reached(o.value), response);
      AfterErrorIsPath(k.(log := k.log + [PanicReached(o.value)]), ds + [Reached(o.value)], PanicError(o.value),
                       q.panicked, response, w);
    } else if o.err.Some? && !k.handled {
      AfterErrorIsPath(k, ds, o.err.value, q.failed, response, w);
    }
  }

  lemma Nothing(first: Response)
    ensures LastWritten([], first) == first && !HasRun([]) && !HasAsked([]) && StreamOf([]) == None
    ensures EventsOf([]) == []
  {
  }

  // ----- what a script says it writes last

  /** Nothing in it writes or settles. */
  predicate Quiet(s: Script) {
    match s
    case Returns(_) => true
    case Panics(_) => true
    case Settles(_, _, _) => false
    case Streams(_, _, rest) => Quiet(rest)
    case Writes(_, _) => false
    case CallsNext(next, _, rest) => Quiet(next) && Quiet(rest)
  }

  /** If it returns, made is the last response it has written. */
  predicate EndsWriting(s: Script, made: Response) {
    match s
    case Returns(_) => false
    case Panics(_) => false
    case Settles(_, _, rest) => EndsWriting(rest, made)
    case Streams(_, _, rest) => EndsWriting(rest, made)
    case Writes(response, rest) => (response == made && Quiet(rest)) || EndsWriting(rest, made)
    case CallsNext(next, recovers, rest) =>
      EndsWriting(rest, made) || (!recovers && EndsWriting(next, made) && Quiet(rest))
  }

  lemma {:induction false} QuietKeeps(k: Core, s: Script, w: Setting)
    requires Quiet(s)
    ensures After(k, s, w).0.response == k.response && After(k, s, w).0.handled == k.handled
    decreases s
  {
    match s
    case Returns(_) =>
    case Panics(_) =>
    case Streams(fn, heartbeat, rest) =>
      var stream := if w.isHead || fn.None? then k.stream else Some((fn.value, heartbeat));
      QuietKeeps(k.(streamSet := true, stream := stream), rest, w);
    case CallsNext(next, recovers, rest) =>
      QuietKeeps(k, next, w);
      QuietKeeps(After(k, next, w).0, rest, w);
  }

  lemma {:induction false} WrittenLast(k: Core, s: Script, made: Response, w: Setting)
    requires EndsWriting(s, made) && After(k, s, w).1.Returned?
    ensures After(k, s, w).0.response == made
    decreases s
  {
    match s
    case Settles(err, reaction, rest) =>
      WrittenLast(AfterSettling(k, err, reaction, w), rest, made, w);
    case Streams(fn, heartbeat, rest) =>
      WrittenLast(k.(streamSet := true, stream := if w.isHead then k.stream else Some((fn.value, heartbeat))),
                  rest, made, w);
    case Writes(response, rest) =>
      if EndsWriting(rest, made) {
        WrittenLast(k.(response := response), rest, made, w);
      } else {
        QuietKeeps(k.(response := response), rest, w);
      }
    case CallsNext(next, recovers, rest) =>
      var k' := After(k, next, w).0;
      if EndsWriting(rest, made) {
        WrittenLast(k', rest, made, w);
      } else {
        WrittenLast(k, next, made, w);
        QuietKeeps(k', rest, w);
      }
  }

  /** So what a handler writes last is what the client gets when the chain returns no error,
      whatever the response was before; a recorded stream replaces its body, and nothing
      else of it. */
  lemma WrittenIsSent(response: Response, q: Request, made: Response, w: Setting)
    requires EndsWriting(q.chain, made) && After(Fresh(response), q.chain, w).1 == Returned(None)
    ensures var k := After(Fresh(response), q.chain, w).0;
      AfterAll(response, q, w).response ==
      if k.stream.Some? && !k.handled then made.(body := Streamed(k.stream.value.0)) else made
  {
    WrittenLast(Fresh(response), q.chain, made, w);
  }

  /** And what the application's own ErrorHandler writes last is what the client gets for an
      error the chain returned unsettled. */
  lemma HandlersAnswerIsSent(response: Response, q: Request, made: Response, w: Setting)
    requires !w.useDefault && EndsWriting(q.failed, made)
    requires var (k, o) := After(Fresh(response), q.chain, w);
      && o.Returned? && o.err.Some? && !k.handled
      && After(k.(handled := true, log := k.log + [Handling(o.err.value)]), q.failed, w).1.Returned?
    ensures AfterAll(response, q, w).response == made
  {
    var (k, o) := After(Fresh(response), q.chain, w);
    var begun := k.(handled := true, log := k.log + [Handling(o.err.value)]);
    WrittenLast(begun, q.failed, made, w);
    RunsAtMostOnce(begun, q.failed, w);
  }
}
