/** Middleware chains: what a compiled handler does, and the fold that compiles it. */
module Chain {

  /** A middleware is known by its identity; a handler is the route's own, or one wrapped
      in a middleware that runs code before and after calling it. */
  type Middleware = nat

  datatype Handler =
    | Own(id: nat)
    | Wrapped(mw: Middleware, next: Handler)

  datatype Event =
    | Enter(mw: Middleware)
    | Run(id: nat)
    | Leave(mw: Middleware)

  /** What happens, in order, when a handler is called. */
  function Trace(h: Handler): seq<Event> {
    match h
    case Own(id) => [Run(id)]
    case Wrapped(mw, next) => [Enter(mw)] + Trace(next) + [Leave(mw)]
  }

  /** The chain of mws around h, the first outermost. */
  function Around(mws: seq<Middleware>, h: Handler): Handler {
    if mws == [] then h else Wrapped(mws[0], Around(mws[1..], h))
  }

  /** Fold backwards, so that the first middleware ends up outermost. */
  method Compile(h: Handler, mws: seq<Middleware>) returns (compiled: Handler)
    ensures compiled == Around(mws, h)
  {
    compiled := h;
    var i := |mws|;
    assert mws[i..] == [];
    while i > 0
      invariant 0 <= i <= |mws|
      invariant compiled == Around(mws[i..], h)
    {
      i := i - 1;
      assert mws[i..][1..] == mws[i + 1..];
      compiled := Wrapped(mws[i], compiled);
    }
    assert mws[0..] == mws;
  }

  function Entering(mws: seq<Middleware>): (es: seq<Event>)
    ensures |es| == |mws| && forall i :: 0 <= i < |mws| ==> es[i] == Enter(mws[i])
  {
    seq(|mws|, i requires 0 <= i < |mws| => Enter(mws[i]))
  }

  /** Leaving is in reverse. */
  function Leaving(mws: seq<Middleware>): (es: seq<Event>)
    ensures |es| == |mws| && forall i :: 0 <= i < |mws| ==> es[i] == Leave(mws[|mws| - 1 - i])
  {
    seq(|mws|, i requires 0 <= i < |mws| => Leave(mws[|mws| - 1 - i]))
  }

  /** A chain enters every middleware in order, runs what it wraps, and leaves in reverse. */
  lemma {:induction false} ChainOrder(mws: seq<Middleware>, h: Handler)
    ensures Trace(Around(mws, h)) == Entering(mws) + Trace(h) + Leaving(mws)
  {
    if mws == [] {
      assert Entering(mws) + Trace(h) + Leaving(mws) == Trace(h);
    } else {
      var rest := mws[1..];
      ChainOrder(rest, h);
      assert Entering(mws) == [Enter(mws[0])] + Entering(rest);
      assert Leaving(mws) == Leaving(rest) + [Leave(mws[0])];
      var inner := Entering(rest) + Trace(h) + Leaving(rest);
      assert [Enter(mws[0])] + inner + [Leave(mws[0])] == Entering(mws) + Trace(h) + Leaving(mws);
    }
  }

  /** Wrapping in two lists is wrapping in the outer list and then the inner one. */
  lemma {:induction false} AroundTwice(outer: seq<Middleware>, inner: seq<Middleware>, h: Handler)
    ensures Around(outer + inner, h) == Around(outer, Around(inner, h))
  {
    if outer == [] {
      assert outer + inner == inner;
    } else {
      assert (outer + inner)[1..] == outer[1..] + inner;
      AroundTwice(outer[1..], inner, h);
    }
  }
}
