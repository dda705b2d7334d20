/** What holds in every run of Serve, Shutdown and the connections they serve. */
module LifecycleSafety {
  import opened Options
  import opened Lifecycle
  import opened LifecycleInv

  /** s can be reached from a fresh App with this many OnShutdown hooks. */
  ghost predicate Reachable(s: State) {
    exists hooks: nat, delay: bool, acts: seq<Act> {:trigger IsRun(Init(hooks, delay), acts)} ::
      IsRun(Init(hooks, delay), acts) && s == After(Init(hooks, delay), acts)
  }

  lemma ReachableInv(s: State)
    requires Reachable(s)
    ensures Inv(s)
  {
    hide Inv;
    var hooks: nat, delay: bool, acts: seq<Act> :|
      IsRun(Init(hooks, delay), acts) && s == After(Init(hooks, delay), acts);
    InitInv(hooks, delay);
    RunKeepsInv(Init(hooks, delay), acts);
  }

  lemma {:induction false} RunsJoin(s: State, first: seq<Act>, rest: seq<Act>)
    requires IsRun(s, first) && IsRun(After(s, first), rest)
    ensures IsRun(s, first + rest) && After(s, first + rest) == After(After(s, first), rest)
    decreases |first|
  {
    hide Can, Do;
    if first == [] {
      assert first + rest == rest;
    } else {
      assert (first + rest)[0] == first[0] && (first + rest)[1..] == first[1..] + rest;
      RunsJoin(Do(s, first[0]), first[1..], rest);
    }
  }

  /** Anything that follows from a reachable state is reachable. */
  lemma StillReachable(s: State, acts: seq<Act>)
    requires Reachable(s) && IsRun(s, acts)
    ensures Reachable(After(s, acts))
  {
    hide IsRun, After;
    var hooks: nat, delay: bool, before: seq<Act> :|
      IsRun(Init(hooks, delay), before) && s == After(Init(hooks, delay), before);
    RunsJoin(Init(hooks, delay), before, acts);
  }

  // ----- serving

  /** At most one Serve is past the first check, and Ready means that one has published
      its listener, is not unwinding, and no Shutdown has taken its first drain step. */
  lemma OneServes(s: State, v: Tid, w: Tid)
    requires Reachable(s) && v in s.gate.serves && w in s.gate.serves
    ensures InBody(s.gate.serves[v]) && InBody(s.gate.serves[w]) ==> v == w
    ensures s.gate.ready ==>
      && !s.gate.swapped && s.gate.serving.Some? && s.gate.published == s.gate.serving
      && s.gate.serving.value in s.gate.serves
      && var pc := s.gate.serves[s.gate.serving.value]; PastPublish(pc) || pc.VUnready?
  {
    ReachableInv(s);
    hide ListenOk, OpeningOk, TurnOk, HookOk, TrackOk, CloseOk, LookOk, LookedOk, DelayOk, ResultOk, DrainOk;
  }

  /** A listener is published, and readiness gained, only before any Shutdown has set closed. */
  lemma PublishedBeforeClosed(s: State, a: Act)
    requires Reachable(s) && Can(s, a)
    ensures Do(s, a).gate.published != s.gate.published || (Do(s, a).gate.ready && !s.gate.ready) ==> !s.gate.closed
    ensures s.gate.closed ==> Do(s, a).gate.closed
    ensures s.gate.swapped ==> s.gate.closed && !s.gate.ready && Do(s, a).gate.swapped && !Do(s, a).gate.ready
  {
    hide ListenOk, OpeningOk, TurnOk, HookOk, TrackOk, CloseOk, LookOk, LookedOk, DelayOk, ResultOk, DrainOk;
    hide NetAfterShut, DrainAfter, HookAfter, TurnAfter, ShutAfter, EndsClean, NetAfter, NetAfterConn, Finds, Allows;
    ReachableInv(s);
  }

  /** So once closed is set the listener every Shutdown saw is the only one there will be,
      and once readiness was taken away it stays away. */
  lemma {:induction false} ClosedFreezes(s: State, acts: seq<Act>)
    requires Reachable(s) && IsRun(s, acts) && s.gate.closed
    ensures After(s, acts).gate.closed && After(s, acts).gate.published == s.gate.published
    ensures s.gate.swapped ==> After(s, acts).gate.swapped && !After(s, acts).gate.ready
    decreases |acts|
  {
    hide Can, Do;
    if acts == [] {
      if s.gate.swapped {
        ReadyGone(s);
      }
    } else {
      PublishedBeforeClosed(s, acts[0]);
      assert IsRun(Do(s, acts[0]), []);
      OneStep(s, acts[0]);
      ClosedFreezes(Do(s, acts[0]), acts[1..]);
    }
  }

  lemma ReadyGone(s: State)
    requires Reachable(s) && s.gate.swapped
    ensures s.gate.closed && !s.gate.ready
  {
    hide ListenOk, OpeningOk, TurnOk, HookOk, TrackOk, CloseOk, LookOk, LookedOk, DelayOk, ResultOk, DrainOk;
    ReachableInv(s);
  }

  lemma OneStep(s: State, a: Act)
    requires Reachable(s) && Can(s, a)
    ensures Reachable(Do(s, a))
  {
    hide Can, Do, Reachable;
    assert IsRun(s, [a]) && After(s, [a]) == Do(s, a) by {
      assert [a][1..] == [];
    }
    StillReachable(s, [a]);
  }

  // ----- after Shutdown

  /** A Shutdown call is past its drain, or its force-close, or has returned. */
  predicate Ending(u: Shut) {
    u.pc.SHooks? || Hooking(u.pc) || u.pc.SRelease? || u.pc.SReturned?
  }

  /** Every connection is closed, will be on arrival, or is out of rice's hands. */
  ghost predicate NothingServed(s: State) {
    forall c :: c in s.net.conns ==>
      var k := s.net.conns[c];
      && (k.phase.Live? ==> k.closed)
      && (k.phase.New? ==> s.net.forceClosed)
  }

  lemma EndingSettles(s: State, t: Tid)
    requires Inv(s) && t in s.shuts && Ending(s.shuts[t])
    ensures s.clean || s.forced
  {
    hide GateOk, ListenOk, OpeningOk, TrackOk, LookOk, LookedOk, DelayOk, ResultOk, DrainOk, ForcedOk;
    assert HookAt(s.hook, t, s.shuts[t], s.clean || s.forced);
    assert CloseAt(s.net, s.shuts[t], s.cancelled, s.forced);
    assert TurnAt(s.turn, t, s.shuts[t], s.net.busy);
  }

  lemma SettledServesNothing(s: State)
    requires Inv(s) && (s.clean || s.forced)
    ensures NothingServed(s)
    ensures !s.forced ==> !SomeCounted(s.net)
  {
    hide GateOk, ListenOk, TurnOk, HookOk, LookOk, LookedOk, TrackOk;
    forall c | c in s.net.conns ensures Counted(s.net.conns[c].phase) ==> SomeCounted(s.net) {
    }
  }

  lemma {:induction false} Settled(s: State, acts: seq<Act>)
    requires IsRun(s, acts) && (s.clean || s.forced)
    ensures After(s, acts).clean || After(s, acts).forced
    decreases |acts|
  {
    hide Can, GateAfter, NetAfter, NetAfterConn, GateAfterShut, DrainAfter, NetAfterShut, HookAfter, TurnAfter,
      ShutAfter, EndsClean;
    if acts != [] {
      Settled(Do(s, acts[0]), acts[1..]);
    }
  }

  /** Nothing is served after a Shutdown has returned, whatever it returns and whatever
      happens next: every accepted connection that was not hijacked is drained or closed,
      those accepted before the transport knew of the listener included. */
  lemma NothingServedAfterShutdown(s: State, t: Tid, acts: seq<Act>)
    requires Reachable(s) && t in s.shuts && Ending(s.shuts[t]) && IsRun(s, acts)
    ensures NothingServed(s) && NothingServed(After(s, acts))
  {
    hide Inv, IsRun, After, Ending, NothingServed;
    ReachableInv(s);
    EndingSettles(s, t);
    SettledServesNothing(s);
    Settled(s, acts);
    StillReachable(s, acts);
    ReachableInv(After(s, acts));
    SettledServesNothing(After(s, acts));
  }

  /** A call that had its turn and is past the transport's first drain, or has returned. */
  predicate PastListener(u: Shut) {
    u.holds && (AfterListener(u.pc) || u.pc.SReturned?)
  }

  /** The listener a Shutdown saw is closed when it returns, and for ever after, unless its
      first drain ended with its context without having found that very listener. */
  lemma ListenerClosedUnlessMissed(s: State, t: Tid, later: seq<Act>)
    requires Reachable(s) && t in s.shuts && PastListener(s.shuts[t]) && s.shuts[t].ln.Some?
    requires IsRun(s, later)
    ensures s.gate.published == s.shuts[t].ln
    ensures AfterListener(s.shuts[t].pc) ==> (s.shuts[t].ln.value in s.net.open <==> Missed(s.shuts[t]))
    ensures !Missed(s.shuts[t]) ==>
      s.shuts[t].ln.value !in s.net.open && s.shuts[t].ln.value !in After(s, later).net.open
  {
    hide GateOk, ListenOk, HookOk, TrackOk, CloseOk, LookedOk, DelayOk, ResultOk, DrainOk, IsRun, After;
    ReachableInv(s);
    assert OpeningAt(s.gate, s.drain, t, s.shuts[t]);
    assert LookAt(s.net, s.shuts[t]);
    if !Missed(s.shuts[t]) {
      KnownListener(s);
      StaysClosed(s, s.shuts[t].ln.value, later);
    }
  }

  /** At the moment a Shutdown that had its turn returns, that condition is exact. */
  lemma OpenAtReturnIfMissed(s: State, t: Tid)
    requires Reachable(s) && CanShut(s, t, Release) && s.shuts[t].ln.Some?
    ensures s.shuts[t].ln.value in Do(s, ShutStep(t, Release)).net.open <==> Missed(s.shuts[t])
  {
    hide GateOk, ListenOk, OpeningOk, HookOk, TrackOk, CloseOk, LookedOk, DelayOk, ResultOk, DrainOk, Finds;
    ReachableInv(s);
    assert LookAt(s.net, s.shuts[t]) && TurnAt(s.turn, t, s.shuts[t], s.net.busy);
  }

  lemma KnownListener(s: State)
    requires Inv(s) && s.gate.published.Some?
    ensures s.gate.published.value in s.gate.serves
  {
  }

  lemma StepOpensNone(s: State, v: Tid, a: Act)
    requires Can(s, a) && v in s.gate.serves && v !in s.net.open
    ensures v in Do(s, a).gate.serves && v !in Do(s, a).net.open
  {
    hide DrainAfter, HookAfter, TurnAfter, ShutAfter, EndsClean, NextServePc, Finds, Allows;
  }

  /** A listener is opened only by the call of Serve that brings it. */
  lemma {:induction false} StaysClosed(s: State, v: Tid, acts: seq<Act>)
    requires IsRun(s, acts) && v in s.gate.serves && v !in s.net.open
    ensures v !in After(s, acts).net.open
    decreases |acts|
  {
    hide Can, Do;
    if acts != [] {
      StepOpensNone(s, v, acts[0]);
      StaysClosed(Do(s, acts[0]), v, acts[1..]);
    }
  }

  /** It cannot be missed by an App whose Serve was called once: only the listener of an
      earlier, failed Serve can hold the first drain up. */
  lemma OneServeIsNotMissed(s: State, t: Tid, v: Tid)
    requires Reachable(s) && t in s.shuts && s.gate.serves.Keys <= {v}
    ensures !Missed(s.shuts[t])
  {
    hide ListenOk, HookOk, TrackOk, CloseOk, DrainOk;
    ReachableInv(s);
    var u := s.shuts[t];
    assert OpeningAt(s.gate, s.drain, t, u) && LookedAt(s.gate, u) && LookAt(s.net, u);
    if u.timedOut && u.ln.Some? {
      assert u.ln == s.gate.published;
      var w :| w in u.looked;
      assert w in s.gate.serves.Keys && u.ln.value in s.gate.serves.Keys;
    }
  }

  /** During the drain delay, while no call's context has ended, the App goes on as before:
      the published listener is open, no call has the turn and nothing is force-closed. */
  lemma ListenerOpenDuringDelay(s: State)
    requires Reachable(s) && s.drain.delayed && !s.drain.elapsed && forall t :: t in s.shuts ==> !s.shuts[t].ctxDone
    ensures s.gate.published.Some? ==> s.gate.published.value in s.net.open
    ensures s.turn.None? && !s.net.forceClosed
  {
    hide GateOk, OpeningOk, HookOk, TrackOk, CloseOk, LookOk, LookedOk, ResultOk, DrainOk;
    ReachableInv(s);
    forall t | t in s.shuts ensures !PastDelay(s.shuts[t].pc) && !HasTurn(s.shuts[t]) {
      assert DelayAt(s.drain, s.shuts[t]) && TurnAt(s.turn, t, s.shuts[t], s.net.busy);
    }
  }

  /** A Shutdown that reports a timeout has force-closed; one that does not had its turn, its
      drain went to the end, the hooks are done and the listener it saw is closed. */
  lemma ResultSays(s: State, t: Tid)
    requires Reachable(s) && t in s.shuts && s.shuts[t].pc.SReturned?
    ensures s.shuts[t].timeout ==> s.forced && s.net.forceClosed && s.cancelled
    ensures !s.shuts[t].timeout ==>
      && s.clean && s.shuts[t].holds && s.hook.done
      && (s.shuts[t].ln.Some? ==> s.shuts[t].ln.value !in s.net.open)
  {
    hide GateOk, ListenOk, TurnOk, TrackOk, LookOk, LookedOk, DelayOk;
    ReachableInv(s);
    assert ResultAt(s.shuts[t], s.clean, s.forced);
    assert HookAt(s.hook, t, s.shuts[t], s.clean || s.forced);
    assert OpeningAt(s.gate, s.drain, t, s.shuts[t]);
  }

  // ----- turns and hooks

  /** One call holds the turn at a time. */
  lemma OneTurn(s: State, t: Tid, o: Tid)
    requires Reachable(s) && t in s.shuts && o in s.shuts && HasTurn(s.shuts[t]) && HasTurn(s.shuts[o])
    ensures t == o && s.turn == Some(t)
  {
    hide GateOk, ListenOk, OpeningOk, HookOk, TrackOk, CloseOk, LookOk, LookedOk, DelayOk, ResultOk, DrainOk;
    ReachableInv(s);
    assert TurnAt(s.turn, t, s.shuts[t], s.net.busy) && TurnAt(s.turn, o, s.shuts[o], s.net.busy);
  }

  /** A hook runs only in the call that holds the turn, after its drain and every close of
      its force-close; it is the last registered one that has not run, and none runs twice. */
  lemma HookRunsNext(s: State, t: Tid, panics: bool)
    requires Reachable(s) && CanShut(s, t, RunHook(panics))
    ensures s.turn == Some(t) && s.shuts[t].pending == {} && NothingServed(s)
    ensures |s.hook.ran| < s.hook.total && s.hook.once == Running(t) && !s.hook.panicked && !s.hook.done
    ensures Do(s, ShutStep(t, RunHook(panics))).hook.ran == s.hook.ran + [s.hook.total - 1 - |s.hook.ran|]
    ensures s.hook.total - 1 - |s.hook.ran| !in s.hook.ran
  {
    hide GateOk, ListenOk, OpeningOk, TrackOk, LookOk, LookedOk, DelayOk, ResultOk, DrainOk, NothingServed, Finds,
      ForcedOk, Inv;
    hide NetAfterShut, GateAfterShut, DrainAfter, TurnAfter, ShutAfter, EndsClean;
    ReachableInv(s);
    HookRunsInTurn(s, t);
    SettledServesNothing(s);
  }

  lemma HookRunsInTurn(s: State, t: Tid)
    requires Inv(s) && t in s.shuts && s.shuts[t].pc.SHookRun? && s.shuts[t].pc.left > 0
    ensures s.turn == Some(t) && s.shuts[t].pending == {} && s.hook.once == Running(t)
    ensures s.clean || s.forced
    ensures !s.hook.panicked && !s.hook.done && CountsDown(s.hook.ran, s.hook.total)
    ensures s.shuts[t].pc.left + |s.hook.ran| == s.hook.total
  {
    hide GateOk, ListenOk, OpeningOk, TrackOk, LookOk, LookedOk, DelayOk, ResultOk, DrainOk, ForcedOk;
    assert TurnAt(s.turn, t, s.shuts[t], s.net.busy) && HookAt(s.hook, t, s.shuts[t], s.clean || s.forced);
    assert CloseAt(s.net, s.shuts[t], s.cancelled, s.forced);
  }

  /** Nothing but such a step adds to the hooks that have run. */
  lemma OnlyHooksRun(s: State, a: Act)
    requires Can(s, a)
    ensures Do(s, a).hook.ran == s.hook.ran || exists t, p :: a == ShutStep(t, RunHook(p))
  {
    hide GateAfter, NetAfter, NetAfterConn, GateAfterShut, DrainAfter, NetAfterShut, TurnAfter, ShutAfter, EndsClean,
      Finds;
    if a.ShutStep? && a.shut.RunHook? {
      assert a == ShutStep(a.t, RunHook(a.shut.panics));
    }
  }

  /** shutdownDone is closed only after them: all of them, in reverse, unless one panicked. */
  lemma DoneAfterHooks(s: State)
    requires Reachable(s) && s.hook.done
    ensures s.hook.started && s.hook.once.Done?
    ensures !s.hook.panicked ==>
      s.hook.ran == seq(s.hook.total, k requires 0 <= k < s.hook.total => s.hook.total - 1 - k)
  {
    hide GateOk, ListenOk, OpeningOk, TurnOk, TrackOk, CloseOk, LookOk, LookedOk, DelayOk, ResultOk, DrainOk;
    ReachableInv(s);
    if !s.hook.panicked {
      assert |s.hook.ran| == s.hook.total;
    }
  }

  /** A call that returned without the turn has force-closed; one that returned after
      holding it has seen the hooks to their end. */
  lemma ReturnedHow(s: State, t: Tid)
    requires Reachable(s) && t in s.shuts && s.shuts[t].pc.SReturned?
    ensures !s.shuts[t].holds ==> s.forced && s.net.forceClosed && s.cancelled
    ensures s.shuts[t].holds ==> s.hook.done
  {
    hide GateOk, ListenOk, OpeningOk, TrackOk, LookOk, LookedOk, DelayOk, ResultOk, DrainOk;
    ReachableInv(s);
    assert HookAt(s.hook, t, s.shuts[t], s.clean || s.forced);
    assert CloseAt(s.net, s.shuts[t], s.cancelled, s.forced);
  }

  // ----- closeConns

  /** A closeConns call past its loop has closed everything it found tracked, and it closes
      nothing before the base context is cancelled. */
  lemma CopyIsClosed(s: State, t: Tid, c: Cid)
    requires Reachable(s) && t in s.shuts
    ensures s.shuts[t].pc.CClose? ==> s.cancelled && s.net.forceClosed
    ensures !Closing(s.shuts[t].pc) && c in s.shuts[t].copy ==> c in s.net.conns && s.net.conns[c].closed
  {
    hide GateOk, ListenOk, OpeningOk, TurnOk, HookOk, LookOk, LookedOk, DelayOk, ResultOk, DrainOk, TrackOk, ForcedOk;
    ReachableInv(s);
    assert CloseAt(s.net, s.shuts[t], s.cancelled, s.forced);
  }

  /** Whatever happens meanwhile, once a closeConns is over every connection that was tracked
      at its lock step is closed, and rice stays closed to new ones. */
  lemma TrackedAreClosed(s: State, t: Tid, acts: seq<Act>)
    requires Reachable(s) && CanShut(s, t, LockConns) && IsRun(s, [ShutStep(t, LockConns)] + acts)
    requires var s' := After(s, [ShutStep(t, LockConns)] + acts); t in s'.shuts && !Closing(s'.shuts[t].pc)
    ensures var s' := After(s, [ShutStep(t, LockConns)] + acts);
      && s'.net.forceClosed && s'.cancelled
      && forall c :: c in s.net.tracked ==> c in s'.net.conns && s'.net.conns[c].closed
  {
    hide Inv, CanShut, Reachable;
    var lock := ShutStep(t, LockConns);
    var first := Do(s, lock);
    assert ([lock] + acts)[1..] == acts;
    OneStep(s, lock);
    LockCopies(s, t);
    KeepsCopy(first, t, acts);
    StillReachable(first, acts);
    var end := After(first, acts);
    forall c | c in s.net.tracked ensures c in end.net.conns && end.net.conns[c].closed {
      CopyIsClosed(end, t, c);
    }
  }

  lemma LockCopies(s: State, t: Tid)
    requires CanShut(s, t, LockConns)
    ensures var u := Do(s, ShutStep(t, LockConns)).shuts[t];
      Copied(Do(s, ShutStep(t, LockConns)), t) && u.copy == s.net.tracked
  {
  }

  /** The call has locked, and cancelled unless that comes next. */
  predicate Copied(s: State, t: Tid) {
    && t in s.shuts && s.net.forceClosed
    && (s.shuts[t].pc.CCancel? || (s.cancelled && (s.shuts[t].pc.CClose? || Ending(s.shuts[t]))))
  }

  lemma {:induction false} KeepsCopy(s: State, t: Tid, acts: seq<Act>)
    requires Copied(s, t) && IsRun(s, acts)
    ensures Copied(After(s, acts), t) && After(s, acts).shuts[t].copy == s.shuts[t].copy
    decreases |acts|
  {
    hide Can, Do;
    if acts != [] {
      StepKeepsCopy(s, t, acts[0]);
      KeepsCopy(Do(s, acts[0]), t, acts[1..]);
    }
  }

  lemma StepKeepsCopy(s: State, t: Tid, a: Act)
    requires Copied(s, t) && Can(s, a)
    ensures Copied(Do(s, a), t) && Do(s, a).shuts[t].copy == s.shuts[t].copy
  {
    hide GateAfter, GateAfterShut, DrainAfter, HookAfter, TurnAfter, EndsClean, Finds, NextServePc;
  }

  /** Once forceClosed is set the tracked set only shrinks. */
  lemma TrackedShrinks(s: State, a: Act)
    requires Can(s, a) && s.net.forceClosed
    ensures Do(s, a).net.forceClosed && Do(s, a).net.tracked <= s.net.tracked
  {
    hide GateAfter, GateAfterShut, DrainAfter, HookAfter, TurnAfter, ShutAfter, EndsClean, Finds, NextServePc, Allows;
  }

  /** And a connection that rice has not heard of by then can only be closed on arrival. */
  lemma ClosedOnArrival(s: State, a: Act, c: Cid)
    requires Can(s, a) && s.net.forceClosed && c in s.net.conns
    ensures c in Do(s, a).net.conns
    ensures s.net.conns[c].phase.New? ==>
      Do(s, a).net.conns[c].phase.New? || Do(s, a).net.conns[c].phase.Rejecting?
    ensures s.net.conns[c].phase.Rejecting? ==>
      Do(s, a).net.conns[c].phase.Rejecting? || Do(s, a).net.conns[c] == Conn(Refused, true)
  {
    hide GateAfter, GateAfterShut, DrainAfter, HookAfter, TurnAfter, ShutAfter, EndsClean, Finds, NextServePc, Allows;
  }
}
