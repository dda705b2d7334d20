/** One request through the App: the pooled Ctx, the chain, the error funnel and the stream
    it may record, in the fields that are updated on the way. */
module Dispatching {
  import opened Options
  import opened Routes
  import opened CaptureStore
  import opened ErrorTrees
  import opened DispatchRule
  import DispatchPaths
  import Chain
  import Routing = Application

  class Ctx {
    const params: Params                     // the captures, in storage the Ctx keeps
    var app: App?
    var fctx: RequestCtx?
    var ctx: Option<nat>                     // a context a middleware set
    var store: seq<(string, string)>
    var handled: bool
    var streamFn: Option<nat>
    var streamHeartbeat: nat
    var streamSet: bool
    var route: string

    constructor (capacity: nat)
      ensures Blank() && fresh(params) && fresh(params.slots) && params.slots.Length == capacity
    {
      params := new Params(capacity);
      app, fctx, ctx, store := null, null, None, [];
      handled, streamFn, streamHeartbeat, streamSet, route := false, None, 0, false, "";
    }

    /** Bound to nothing, and nothing of an earlier request left, in slots past the captures
        neither. */
    ghost predicate Blank()
      reads this, params, params.slots
    {
      app == null && fctx == null && Clean()
    }

    ghost predicate Clean()
      reads this, params, params.slots
    {
      && params.Valid() && params.Contents() == []
      && ctx == None && store == [] && route == ""
      && !handled && streamFn == None && streamHeartbeat == 0 && !streamSet
    }

    method Reset(app: App?, fctx: RequestCtx?)
      requires params.Valid()
      modifies this, params`count, params.slots
      ensures this.app == app && this.fctx == fctx && Clean() && params.slots == old(params.slots)
    {
      this.app := app;
      this.fctx := fctx;
      ctx := None;
      handled := false;
      streamFn := None;
      streamHeartbeat := 0;
      streamSet := false;
      route := "";
      params.Reset();
      store := [];
    }

    predicate Bound()
      reads this
    {
      app != null && fctx != null
    }

    predicate Kept(a: App?, f: RequestCtx?)
      reads this
    {
      Bound() && app == a && fctx == f
    }

    ghost function Around(): Setting
      requires Bound()
      reads this
    {
      Setting(app.useDefault, fctx.isHead, fctx.statusText)
    }

    /** What user code can change of the request. */
    ghost function State(): Core
      requires Bound()
      reads this, fctx
    {
      Core(handled, streamSet, if streamFn.Some? then Some((streamFn.value, streamHeartbeat)) else None,
           fctx.response, fctx.log)
    }

    /** Records a stream, once per request; for HEAD only that one was asked for. */
    method RegisterStream(heartbeat: nat, fn: Option<nat>) returns (panics: bool)
      requires Bound()
      modifies this`streamSet, this`streamFn, this`streamHeartbeat
      ensures panics <==> fn.None? || old(streamSet)
      ensures State() ==
        if panics then old(State())
        else old(State()).(streamSet := true,
                           stream := if fctx.isHead then old(State()).stream else Some((fn.value, heartbeat)))
    {
      if fn.None? || streamSet {
        return true;
      }
      streamSet := true;
      if fctx.isHead {
        return false;
      }
      streamFn, streamHeartbeat := fn, heartbeat;
      panics := false;
    }

    /** Answers err through the ErrorHandler now, unless the request is settled. */
    method HandleError(err: Option<Error>, reaction: Script)
      requires Bound()
      modifies this, fctx`response, fctx`log
      decreases reaction, 2
      ensures Kept(old(app), old(fctx))
      ensures State() == AfterSettling(old(State()), err, reaction, Around())
    {
      if err.None? || handled {
        return;
      }
      handled := true;
      app.CallErrorHandler(this, err.value, reaction);
    }
  }

  /** Runs user code. */
  method Exec(c: Ctx, s: Script) returns (o: Outcome)
    requires c.Bound()
    modifies c, c.fctx`response, c.fctx`log
    decreases s, 0
    ensures c.Kept(old(c.app), old(c.fctx))
    ensures (c.State(), o) == After(old(c.State()), s, c.Around())
  {
    match s
    case Returns(err) =>
      o := Returned(err);
    case Panics(value) =>
      o := Panicked(value);
    case Settles(err, reaction, rest) =>
      c.HandleError(err, reaction);
      o := Exec(c, rest);
    case Streams(fn, heartbeat, rest) =>
      var panics := c.RegisterStream(heartbeat, fn);
      if panics {
        return Panicked(None);
      }
      o := Exec(c, rest);
    case Writes(response, rest) =>
      c.fctx.response := response;
      o := Exec(c, rest);
    case CallsNext(next, recovers, rest) =>
      o := Exec(c, next);
      if o.Panicked? && !recovers {
        return;
      }
      o := Exec(c, rest);
  }

  class App {
    const routing: Routing.App       // the routes, built
    const useDefault: bool           // the default error handler, or the application's own
    var draining: bool
    var pool: set<Ctx>

    constructor (routing: Routing.App, useDefault: bool)
      requires routing.Valid() && routing.built
      ensures Valid() && pool == {} && this.useDefault == useDefault && this.routing == routing
    {
      hide Routing.App.Valid;
      this.routing, this.useDefault, draining, pool := routing, useDefault, false, {};
      new;
      StillRouted(routing);
    }

    /** Every pooled Ctx is blank, has storage of its own, and room for every route. */
    ghost predicate Pooled()
      reads this, pool, set c | c in pool :: c.params, set c | c in pool :: c.params.slots, routing`maxParams
    {
      && (forall c :: c in pool ==> c.Blank() && c.params.slots.Length >= routing.maxParams)
      && (forall c, d :: c in pool && d in pool && c != d ==> Apart(c, d))
    }

    ghost predicate Valid()
      reads this, pool, set c | c in pool :: c.params, set c | c in pool :: c.params.slots
      reads routing, routing.trees.Values, routing.Nodes()
    {
      Pooled() && routing.Valid() && routing.built
    }

    /** Runs the ErrorHandler, with a last resort beneath it. */
    method CallErrorHandler(c: Ctx, err: Error, reaction: Script)
      requires c.Kept(this, c.fctx)
      modifies c, c.fctx`response, c.fctx`log
      decreases reaction, 1
      ensures c.Kept(this, old(c.fctx))
      ensures c.State() == AfterError(old(c.State()), err, reaction, c.Around())
    {
      c.fctx.log := c.fctx.log + [Handling(err)];
      if useDefault {
        c.fctx.DefaultErrorHandler(err);
        return;
      }
      var o := Exec(c, reaction);
      if o.Panicked? {
        c.fctx.log := c.fctx.log + [LastResort];
        c.fctx.Respond(INTERNAL, GENERIC);
      }
    }

    /** Takes a Ctx from the pool, which may have dropped any of them, and binds it. */
    method Acquire(fctx: RequestCtx, reuse: bool) returns (c: Ctx)
      requires Pooled()
      modifies this`pool, pool, set c | c in pool :: c.params, set c | c in pool :: c.params.slots
      ensures Untouched(routing)
      ensures Pooled() && pool <= old(pool) && Ready(c) && c.Kept(this, fctx) && c.Clean()
      ensures c.State() == Fresh(fctx.response).(log := fctx.log)
      ensures c in old(pool) || (fresh(c) && fresh(c.params))
      ensures (c in old(pool) && c.params.slots == old(c.params.slots)) || fresh(c.params.slots)
    {
      c := Take(reuse);
      c.Reset(this, fctx);
    }

    method Take(reuse: bool) returns (c: Ctx)
      requires Pooled()
      modifies this`pool
      ensures Untouched(routing)
      ensures Pooled() && pool <= old(pool) && Outside(c)
      ensures c in old(pool) || (fresh(c) && fresh(c.params) && fresh(c.params.slots))
    {
      if reuse && pool != {} {
        c :| c in pool;
        pool := pool - {c};
      } else {
        c := new Ctx(routing.maxParams);
      }
    }

    /** Unbinds c and hands it back. */
    method Release(c: Ctx)
      requires Pooled() && Ready(c)
      modifies this`pool, c, c.params`count, c.params.slots
      ensures Pooled() && pool == old(pool) + {c} && c.Blank()
    {
      c.Reset(null, null);
      pool := pool + {c};
    }

    /** Finds the route and its captures; the storage of the Ctx is not outgrown. */
    method Route(c: Ctx) returns (h: Chain.Handler, ghost e: Option<Routing.Entry>, ghost p: Pattern,
                                  ghost vals: seq<string>)
      requires Pooled() && routing.Valid() && Ready(c) && c.Clean()
      modifies c`route, c.params, c.params.slots
      ensures Untouched(routing) && Pooled() && Ready(c)
      ensures c.Kept(this, old(c.fctx)) && c.State() == old(c.State()) && c.params.slots == old(c.params.slots)
      ensures h == if e.Some? then e.value.h else routing.miss
      ensures Answers(routing.Table(c.fctx.verb), c.fctx.path, e, p, vals)
      ensures c.route == (if e.Some? then e.value.pattern else "")
      ensures c.params.Contents() == if e.Some? then Captured(p, vals) else []
    {
      hide Answers, IsBest, Matchable, Captured, Pooled, Ready, Routing.App.Valid;
      var entry;
      entry, p, vals := Find(c);
      e := entry;
      NameRoute(c, if entry.Some? then entry.value.pattern else "");
      h := if entry.Some? then entry.value.h else routing.miss;
    }

    method Find(c: Ctx) returns (entry: Option<Routing.Entry>, ghost p: Pattern, ghost vals: seq<string>)
      requires Pooled() && routing.Valid() && Ready(c) && c.Clean()
      modifies c.params, c.params.slots
      ensures Untouched(routing) && Pooled() && Ready(c)
      ensures c.Kept(this, old(c.fctx)) && c.State() == old(c.State()) && c.params.slots == old(c.params.slots)
      ensures Answers(routing.Table(c.fctx.verb), c.fctx.path, entry, p, vals)
      ensures c.params.Contents() == if entry.Some? then Captured(p, vals) else []
    {
      hide Matchable, Captured, Routing.App.Valid;
      entry, p, vals := routing.LookupEntry(c.fctx.verb, c.fctx.path, c.params);
    }

    method NameRoute(c: Ctx, route: string)
      requires Pooled() && Ready(c)
      modifies c`route
      ensures Untouched(routing) && Pooled() && Ready(c) && c.route == route
      ensures c.Kept(this, old(c.fctx)) && c.State() == old(c.State())
    {
      c.route := route;
    }

    /** A Ctx taken from the pool, with storage of its own and room for every route. */
    ghost predicate Outside(c: Ctx)
      reads this`pool, c.params, c.params.slots, set d | d in pool :: d.params, routing`maxParams
    {
      && c !in pool && (forall d :: d in pool ==> Apart(c, d))
      && c.params.Valid() && c.params.slots.Length >= routing.maxParams
    }

    /** And bound to this App. */
    ghost predicate Ready(c: Ctx)
      reads this`pool, c, c.params, c.params.slots, set d | d in pool :: d.params, routing`maxParams
    {
      Outside(c) && c.Kept(this, c.fctx)
    }

    /** Runs the chain and answers the error it returns, unless the request is settled. */
    method RunChain(c: Ctx, q: Request) returns (o: Outcome)
      requires c.Kept(this, c.fctx)
      modifies c, c.fctx`response, c.fctx`log
      ensures c.Kept(this, old(c.fctx))
      ensures (c.State(), o) == AfterChain(old(c.State()), q, c.Around())
    {
      o := Exec(c, q.chain);
      if o.Returned? && o.err.Some? && !c.handled {
        c.handled := true;
        CallErrorHandler(c, o.err.value, q.failed);
      }
    }

    /** Answers a panic that got this far, whatever was settled. */
    method Recovered(c: Ctx, o: Outcome, q: Request)
      requires c.Kept(this, c.fctx)
      modifies c, c.fctx`response, c.fctx`log
      ensures c.Kept(this, old(c.fctx))
      ensures c.State() == AfterPanic(old(c.State()), o, q, c.Around())
    {
      if o.Panicked? {
        c.fctx.log := c.fctx.log + [PanicReached(o.value)];
        c.handled := true;
        CallErrorHandler(c, PanicError(o.value), q.panicked);
      }
    }

    /** The dispatch path. behaves says what a compiled handler does. What happens, and the
        response, are those of the rule, for the chain of the best route of the request or of
        the miss handler; while draining, the response closes its connection. */
    method Handle(fctx: RequestCtx, reuse: bool, behaves: Chain.Handler -> Script, failed: Script, panicked: Script)
        returns (ghost e: Option<Routing.Entry>, ghost p: Pattern, ghost vals: seq<string>)
      requires Valid() && fctx.log == []
      modifies this`pool, pool, set c | c in pool :: c.params, set c | c in pool :: c.params.slots
      modifies fctx`response, fctx`log, fctx`closes
      ensures Valid()
      ensures Answers(routing.Table(fctx.verb), fctx.path, e, p, vals)
      ensures var q := Request(behaves(if e.Some? then e.value.h else routing.miss), failed, panicked);
        var k := AfterAll(old(fctx.response), q, Setting(useDefault, fctx.isHead, fctx.statusText));
        fctx.log == k.log && fctx.response == k.response
      ensures var q := Request(behaves(if e.Some? then e.value.h else routing.miss), failed, panicked);
        var w := Setting(useDefault, fctx.isHead, fctx.statusText);
        fctx.response == DispatchPaths.Sent(DispatchPaths.WholePath(q, w), old(fctx.response), w)
      ensures fctx.closes == (old(fctx.closes) || draining)
    {
      hide DispatchPaths.Sent, DispatchPaths.WholePath;
      hide Answers, AfterAll, Pooled, Routing.App.Valid, Ctx.Clean, Ready, Outside;
      var c, h;
      c, h, e, p, vals := Enter(fctx, reuse);
      StillRouted(routing);
      label entered:
      Deliver(c, Request(behaves(h), failed, panicked));
      DispatchPaths.EveryResponse(old(fctx.response), Request(behaves(h), failed, panicked),
                                  Setting(useDefault, fctx.isHead, fctx.statusText));
      StillRouted@entered(routing);
    }

    /** Up to the chain: a bound Ctx, the handler to run, and the captures. */
    method Enter(fctx: RequestCtx, reuse: bool)
        returns (c: Ctx, h: Chain.Handler, ghost e: Option<Routing.Entry>, ghost p: Pattern, ghost vals: seq<string>)
      requires Valid() && fctx.log == []
      modifies this`pool, pool, set c | c in pool :: c.params, set c | c in pool :: c.params.slots
      modifies fctx`closes
      ensures Untouched(routing) && Pooled() && Ready(c) && c.Kept(this, fctx)
      ensures c.State() == Fresh(fctx.response) && fctx.closes == (old(fctx.closes) || draining)
      ensures c in old(pool) || (fresh(c) && fresh(c.params))
      ensures (c in old(pool) && c.params.slots == old(c.params.slots)) || fresh(c.params.slots)
      ensures Answers(routing.Table(fctx.verb), fctx.path, e, p, vals)
      ensures h == if e.Some? then e.value.h else routing.miss
      ensures c.route == (if e.Some? then e.value.pattern else "")
      ensures c.params.Contents() == if e.Some? then Captured(p, vals) else []
    {
      hide Answers, Pooled, Routing.App.Valid, Ctx.Clean, Ready, Outside, Captured;
      Close(fctx);
      StillRouted(routing);
      label closed:
      c := Acquire(fctx, reuse);
      StillRouted@closed(routing);
      h, e, p, vals := Route(c);
    }

    /** While draining, every response closes its connection. */
    method Close(fctx: RequestCtx)
      requires Pooled()
      modifies fctx`closes
      ensures Untouched(routing) && Pooled() && fctx.closes == (old(fctx.closes) || draining)
    {
      if draining {
        fctx.closes := true;
      }
    }

    /** From the chain to the end of the request. */
    method Deliver(c: Ctx, q: Request)
      requires Pooled() && Ready(c) && c.State() == Fresh(c.fctx.response)
      modifies this`pool, c, c.params`count, c.params.slots, c.fctx`response, c.fctx`log
      ensures Untouched(routing) && Pooled()
      ensures var k := AfterAll(old(c.fctx.response), q, old(c.Around()));
        old(c.fctx).log == k.log && old(c.fctx).response == k.response
    {
      Serve(c, q);
      Finish(c);
    }

    /** The chain, with what the funnel and a panic make of it. */
    method Serve(c: Ctx, q: Request)
      requires Pooled() && Ready(c)
      modifies c, c.fctx`response, c.fctx`log
      ensures Untouched(routing) && Pooled() && Ready(c) && c.Kept(this, old(c.fctx))
      ensures var (k, o) := AfterChain(old(c.State()), q, c.Around());
        c.State() == AfterPanic(k, o, q, c.Around())
    {
      var o := RunChain(c, q);
      Recovered(c, o, q);
    }

    /** The release, and then the recorded stream of a request the funnel did not answer. */
    method Finish(c: Ctx)
      requires Pooled() && Ready(c)
      modifies this`pool, c, c.params`count, c.params.slots, c.fctx`response, c.fctx`log
      ensures Untouched(routing) && Pooled()
      ensures var k := AfterRelease(old(c.State()));
        old(c.fctx).log == k.log && old(c.fctx).response == k.response
    {
      var fctx := c.fctx;
      var fn, heartbeat, answered := c.streamFn, c.streamHeartbeat, c.handled;
      Release(c);
      fctx.log := fctx.log + [Released];
      if fn.Some? && !answered {
        fctx.log := fctx.log + [Started(fn.value, heartbeat)];
        fctx.response := fctx.response.(body := Streamed(fn.value));
      }
    }
  }

  /** The routes and their trees are as they were. */
  twostate predicate Untouched(routing: Routing.App)
    reads routing, routing.trees.Values, routing.Nodes()
  {
    && unchanged(routing) && unchanged(routing.trees.Values) && routing.Nodes() == old(routing.Nodes())
    && unchanged(routing.Nodes())
  }

  twostate lemma StillRouted(routing: Routing.App)
    requires old(routing.Valid()) && Untouched(routing)
    ensures routing.Valid()
    ensures forall verb :: routing.Table(verb) == old(routing.Table(verb))
  {
  }

  /** Two Ctx that share no storage. */
  ghost predicate Apart(c: Ctx, d: Ctx)
    reads c.params, d.params
  {
    c != d && c.params != d.params && c.params.slots != d.params.slots
  }

  /** e is what a table of routes answers a path with: the entry of the best one, or none. */
  ghost predicate Answers(table: map<Pattern, Routing.Entry>, path: string,
                          e: Option<Routing.Entry>, p: Pattern, vals: seq<string>)
  {
    match e
    case None => forall q :: q in table ==> !Matchable(q, path)
    case Some(entry) => p in table && IsBest(table.Keys, path, p) && Matches(p, path, vals) && entry == table[p]
  }
}
