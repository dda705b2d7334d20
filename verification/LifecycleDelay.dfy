/** The drain delay, over runs that begin where Shutdown takes readiness away. */
module LifecycleDelay {
  import opened Options
  import opened Lifecycle
  import opened LifecycleInv
  import opened LifecycleSafety
  import opened LifecycleRuns

  /** What follows that step: the call that took it is still in its first phase and has noted
      whether there is a delay, or the delay, if any, is set. */
  ghost predicate Noted(s: State, t: Tid, timed: bool, ended: bool) {
    && s.drain.elapsed == ended && (ended ==> s.drain.once.Done?)
    && if s.drain.once.Done? then s.drain.delayed == timed else
         && s.drain.once == Running(t) && t in s.shuts && InOnce(s.shuts[t].pc) && !s.shuts[t].pc.SSwap?
         && !s.drain.delayed && timed == (s.shuts[t].wasReady && s.delay)
  }

  ghost predicate Unset(d: Drain) {
    d.delayed || d.elapsed ==> d.once.Done?
  }

  lemma StepKeepsUnset(s: State, a: Act)
    requires Can(s, a) && Unset(s.drain)
    ensures Unset(Do(s, a).drain)
  {
    hide GateAfter, NetAfter, NetAfterConn, GateAfterShut, NetAfterShut, HookAfter, TurnAfter, ShutAfter, EndsClean;
    hide Allows, NothingOpen;
  }

  lemma {:induction false} UnsetUntilDone(s: State, acts: seq<Act>)
    requires IsRun(s, acts) && Unset(s.drain)
    ensures Unset(After(s, acts).drain)
    decreases |acts|
  {
    hide Can, Do, Unset;
    if acts != [] {
      StepKeepsUnset(s, acts[0]);
      UnsetUntilDone(Do(s, acts[0]), acts[1..]);
    }
  }

  lemma ReachableUnset(s: State)
    requires Reachable(s)
    ensures Unset(s.drain)
  {
    hide IsRun, After;
    var hooks: nat, delay: bool, acts: seq<Act> :|
      IsRun(Init(hooks, delay), acts) && s == After(Init(hooks, delay), acts);
    UnsetUntilDone(Init(hooks, delay), acts);
  }

  lemma SwapNotes(s: State, t: Tid)
    requires Reachable(s) && CanShut(s, t, Swap)
    ensures Noted(Do(s, ShutStep(t, Swap)), t, s.delay && s.gate.ready, false)
  {
    hide GateOk, ListenOk, TurnOk, HookOk, TrackOk, CloseOk, LookOk, LookedOk, DelayOk, ResultOk, DrainOk, Reachable;
    ReachableInv(s);
    ReachableUnset(s);
    assert OpeningAt(s.gate, s.drain, t, s.shuts[t]);
  }

  lemma StepKeepsNoted(s: State, t: Tid, timed: bool, ended: bool, a: Act)
    requires Reachable(s) && Noted(s, t, timed, ended) && Can(s, a)
    ensures Noted(Do(s, a), t, timed, ended || a.DelayEnds?)
  {
    if a.ShutStep? {
      ShutKeepsNoted(s, t, timed, ended, a.t, a.shut);
    } else {
      hide GateAfter, NetAfter, NetAfterConn, Reachable, CanServe, CanConn;
      assert Do(s, a).shuts == s.shuts && Do(s, a).delay == s.delay;
    }
  }

  lemma ShutKeepsNoted(s: State, t: Tid, timed: bool, ended: bool, u: Tid, x: ShutAct)
    requires Reachable(s) && Noted(s, t, timed, ended) && CanShut(s, u, x)
    ensures Noted(Do(s, ShutStep(u, x)), t, timed, ended)
  {
    hide GateAfterShut, NetAfterShut, HookAfter, TurnAfter, EndsClean, Allows, Finds, DrainAfter, ShutAfter, Reachable;
    OnceBelongs(s, u);
    if u == t && !s.drain.once.Done? {
      OwnNoted(s, t, s.shuts[t], x);
    } else {
      DrainOnlyInOnce(s, u, x);
    }
  }

  lemma OwnNoted(s: State, t: Tid, u: Shut, x: ShutAct)
    requires Allows(u, x) && InOnce(u.pc) && !u.pc.SSwap?
    ensures var d, v := DrainAfter(s.drain, t, u, s.delay, x), ShutAfter(s, u, x);
      && v.wasReady == u.wasReady && d.elapsed == s.drain.elapsed
      && if x.SetDrainEnd? then d.once.Done? && d.delayed == (u.wasReady && s.delay) else
           InOnce(v.pc) && !v.pc.SSwap? && d.once == s.drain.once && d.delayed == s.drain.delayed
  {
  }

  lemma DrainOnlyInOnce(s: State, u: Tid, x: ShutAct)
    requires CanShut(s, u, x) && !s.drain.once.NotRun?
    ensures u !in s.shuts || !InOnce(s.shuts[u].pc) ==> DrainAfter(s.drain, u, Mover(s, u), s.delay, x) == s.drain
  {
    hide NothingOpen;
  }

  lemma OnceBelongs(s: State, u: Tid)
    requires Reachable(s)
    ensures u in s.shuts && InOnce(s.shuts[u].pc) ==> s.drain.once == Running(u)
  {
    hide GateOk, ListenOk, TurnOk, HookOk, TrackOk, CloseOk, LookOk, LookedOk, DelayOk, ResultOk, DrainOk, Reachable;
    ReachableInv(s);
    if u in s.shuts {
      assert OpeningAt(s.gate, s.drain, u, s.shuts[u]);
    }
  }

  lemma {:induction false} RunKeepsNoted(s: State, t: Tid, timed: bool, ended: bool, acts: seq<Act>)
    requires Reachable(s) && Noted(s, t, timed, ended) && IsRun(s, acts)
    ensures Noted(After(s, acts), t, timed, ended || DelayEnds in acts)
    decreases |acts|
  {
    hide Can, Do, Noted, Reachable;
    if acts != [] {
      StepKeepsNoted(s, t, timed, ended, acts[0]);
      OneStep(s, acts[0]);
      assert DelayEnds in acts <==> acts[0].DelayEnds? || DelayEnds in acts[1..];
      RunKeepsNoted(Do(s, acts[0]), t, timed, ended || acts[0].DelayEnds?, acts[1..]);
    }
  }

  /** From the step that takes readiness away: with a delay, and an App that was ready, no
      call whose context is live gets past the delay before it ends, nor has the turn; and
      while every context is live the listener is open and nothing is closed by force. */
  lemma NobodyPassesTheDelay(s: State, t: Tid, acts: seq<Act>)
    requires Reachable(s) && s.delay && s.gate.ready && CanShut(s, t, Swap)
    requires IsRun(s, [ShutStep(t, Swap)] + acts) && DelayEnds !in acts
    ensures var s' := After(s, [ShutStep(t, Swap)] + acts);
      && (forall u :: u in s'.shuts && !s'.shuts[u].ctxDone ==> !PastDelay(s'.shuts[u].pc) && !HasTurn(s'.shuts[u]))
      && ((forall u :: u in s'.shuts ==> !s'.shuts[u].ctxDone) ==>
            && s'.gate.published.Some? && s'.gate.published == s.gate.published
            && s'.gate.published.value in s'.net.open && s'.turn.None? && !s'.net.forceClosed)
  {
    hide Inv, CanShut, Reachable, Noted;
    var first := Do(s, ShutStep(t, Swap));
    assert ([ShutStep(t, Swap)] + acts)[1..] == acts;
    OneStep(s, ShutStep(t, Swap));
    SwapNotes(s, t);
    RunKeepsNoted(first, t, true, false, acts);
    StillReachable(first, acts);
    StaysPublished(s, t, acts);
    Waiting(After(first, acts), t);
  }

  lemma StaysPublished(s: State, t: Tid, acts: seq<Act>)
    requires Reachable(s) && s.gate.ready && CanShut(s, t, Swap)
    requires IsRun(s, [ShutStep(t, Swap)] + acts)
    ensures s.gate.published.Some? && After(s, [ShutStep(t, Swap)] + acts).gate.published == s.gate.published
  {
    hide ListenOk, TurnOk, HookOk, TrackOk, CloseOk, LookOk, LookedOk, DelayOk, ResultOk, DrainOk, Reachable;
    hide IsRun, After, Finds;
    ReachableInv(s);
    assert OpeningAt(s.gate, s.drain, t, s.shuts[t]);
    ClosedFreezes(s, [ShutStep(t, Swap)] + acts);
  }

  lemma Waiting(s: State, t: Tid)
    requires Reachable(s) && Noted(s, t, true, false)
    ensures forall u :: u in s.shuts && !s.shuts[u].ctxDone ==> !PastDelay(s.shuts[u].pc) && !HasTurn(s.shuts[u])
    ensures (forall u :: u in s.shuts ==> !s.shuts[u].ctxDone) ==>
      && (s.gate.published.Some? ==> s.gate.published.value in s.net.open) && s.turn.None? && !s.net.forceClosed
  {
    hide GateOk, HookOk, TrackOk, CloseOk, LookOk, LookedOk, ResultOk, DrainOk, Reachable;
    ReachableInv(s);
    forall u | u in s.shuts && !s.shuts[u].ctxDone ensures !PastDelay(s.shuts[u].pc) && !HasTurn(s.shuts[u]) {
      assert OpeningAt(s.gate, s.drain, u, s.shuts[u]);
      assert DelayAt(s.drain, s.shuts[u]) && TurnAt(s.turn, u, s.shuts[u], s.net.busy);
    }
  }

  /** And exactly then is there a delay to wait out: a call that has come to it may go on if
      and only if there is none, it has ended, or the call's own context has. */
  lemma WaitsExactly(s: State, t: Tid, acts: seq<Act>, u: Tid)
    requires Reachable(s) && CanShut(s, t, Swap) && IsRun(s, [ShutStep(t, Swap)] + acts)
    requires var s' := After(s, [ShutStep(t, Swap)] + acts); u in s'.shuts && s'.shuts[u].pc.SDelay?
    ensures var s' := After(s, [ShutStep(t, Swap)] + acts);
      && (Can(s', DelayEnds) <==> s.delay && s.gate.ready)
      && (CanShut(s', u, DelayOver) <==> !(s.delay && s.gate.ready) || DelayEnds in acts || s'.shuts[u].ctxDone)
  {
    hide Inv, Reachable, Noted, Do;
    var first := Do(s, ShutStep(t, Swap));
    assert ([ShutStep(t, Swap)] + acts)[1..] == acts;
    OneStep(s, ShutStep(t, Swap));
    SwapNotes(s, t);
    RunKeepsNoted(first, t, s.delay && s.gate.ready, false, acts);
    StillReachable(first, acts);
    AtDelay(After(first, acts), t, s.delay && s.gate.ready, DelayEnds in acts, u);
  }

  lemma AtDelay(s: State, t: Tid, timed: bool, ended: bool, u: Tid)
    requires Reachable(s) && Noted(s, t, timed, ended) && u in s.shuts && s.shuts[u].pc.SDelay?
    ensures Can(s, DelayEnds) <==> timed
    ensures CanShut(s, u, DelayOver) <==> !timed || ended || s.shuts[u].ctxDone
  {
    hide GateOk, ListenOk, TurnOk, HookOk, TrackOk, CloseOk, LookOk, LookedOk, DelayOk, ResultOk, DrainOk, Reachable;
    ReachableInv(s);
    assert OpeningAt(s.gate, s.drain, u, s.shuts[u]);
  }

  /** There is such a run: Shutdown 9 waits, the listener of Serve 1 is open, and the delay
      has yet to end. */
  lemma SomeRunWaits() returns (s: State)
    ensures Reachable(s) && s.shuts.Keys == {9} && s.shuts[9].pc.SDelay? && !s.shuts[9].ctxDone
    ensures s.gate.published == Some(1) && 1 in s.net.open
    ensures Can(s, DelayEnds) && !CanShut(s, 9, DelayOver) && CanShut(Do(s, DelayEnds), 9, DelayOver)
  {
    hide Leads;
    var o := Init(0, true);
    s := Fresh(0, true, 0);
    s := Publishes(o, 0, s, 1);
    s := Marks(o, 0, s, 9);
    s := SwapsReady(o, s);
    s := FirstFlag(o, 0, s, 9);
    s := SetsTheDelay(o, s);
    LeadsReaches(0, true, 0, s);
  }

  lemma SetsTheDelay(o: State, s0: State) returns (s: State)
    requires Leads(o, 0, s0) && s0.shuts.Keys == {9} && s0.shuts[9].pc.SDrainEnd? && s0.shuts[9].wasReady
    requires s0.delay && !s0.drain.elapsed && !s0.shuts[9].ctxDone
    ensures Leads(o, 0, s) && s.gate == s0.gate && s.net == s0.net
    ensures s.shuts.Keys == {9} && s.shuts[9].pc.SDelay? && !s.shuts[9].ctxDone
    ensures Can(s, DelayEnds) && !CanShut(s, 9, DelayOver) && CanShut(Do(s, DelayEnds), 9, DelayOver)
  {
    hide Leads;
    s := Next(o, 0, s0, ShutStep(9, SetDrainEnd));
  }

  lemma SwapsReady(o: State, s0: State) returns (s: State)
    requires Leads(o, 0, s0) && s0.shuts.Keys == {9} && s0.shuts[9].pc.SSwap?
    ensures Leads(o, 0, s)
    ensures s == s0.(gate := s0.gate.(ready := false, swapped := true),
                     shuts := s0.shuts[9 := s0.shuts[9].(pc := SDraining, wasReady := s0.gate.ready)])
  {
    hide Leads;
    s := Next(o, 0, s0, ShutStep(9, Swap));
  }
}
