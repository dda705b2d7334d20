/** Runs put together from what single calls do; one in which Shutdown returns with its
    listener still open. */
module LifecycleRuns {
  import opened Options
  import opened Lifecycle
  import opened LifecycleInv
  import opened LifecycleSafety

  /** s follows from o, and no step on the way calls Shutdown x. */
  ghost predicate Leads(o: State, x: Tid, s: State) {
    exists acts :: IsRun(o, acts) && Without(acts, x) && After(o, acts) == s
  }

  predicate Without(acts: seq<Act>, x: Tid) {
    forall i :: 0 <= i < |acts| ==> acts[i] != ShutStep(x, CallShutdown)
  }

  lemma Next(o: State, x: Tid, s0: State, a: Act) returns (s: State)
    requires Leads(o, x, s0) && Can(s0, a) && a != ShutStep(x, CallShutdown)
    ensures s == Do(s0, a) && Leads(o, x, s)
  {
    hide Can, Do;
    var acts :| IsRun(o, acts) && Without(acts, x) && After(o, acts) == s0;
    s := Do(s0, a);
    assert IsRun(s0, [a]) && After(s0, [a]) == s by {
      assert [a][1..] == [];
    }
    RunsJoin(o, acts, [a]);
    assert Without(acts + [a], x);
  }

  lemma Stays(s: State, x: Tid)
    ensures Leads(s, x, s)
  {
    assert IsRun(s, []) && Without([], x) && After(s, []) == s;
  }

  lemma Fresh(hooks: nat, delay: bool, x: Tid) returns (s: State)
    ensures s == Init(hooks, delay) && Leads(s, x, s)
  {
    s := Init(hooks, delay);
    Stays(s, x);
  }

  lemma LeadsReaches(hooks: nat, delay: bool, x: Tid, s: State)
    requires Leads(Init(hooks, delay), x, s)
    ensures Reachable(s)
  {
    var acts :| IsRun(Init(hooks, delay), acts) && Without(acts, x) && After(Init(hooks, delay), acts) == s;
  }

  /** A step that changes nothing but the call's own locals. */
  lemma Moves(o: State, x: Tid, s0: State, u: Tid, a: ShutAct) returns (s: State)
    requires Leads(o, x, s0) && CanShut(s0, u, a)
    requires a.CancelStreams? || a.DrainSkip? || a.DelayOver? || a.TurnTaken? || a.CtxEnds? || a.GiveUp?
    ensures Leads(o, x, s) && s == s0.(shuts := s0.shuts[u := ShutAfter(s0, s0.shuts[u], a)])
  {
    hide Leads;
    s := Next(o, x, s0, ShutStep(u, a));
  }

  /** A Serve that starts and publishes its listener, which the transport has yet to record. */
  lemma Publishes(o: State, x: Tid, s0: State, t: Tid) returns (s: State)
    requires Leads(o, x, s0) && t !in s0.gate.serves && !s0.gate.closed && s0.gate.serving.None?
    ensures Leads(o, x, s)
    ensures s == s0.(gate := Gate(false, Some(t), Some(t), true, s0.gate.swapped, s0.gate.serves[t := VRecord]),
                     net := s0.net.(open := s0.net.open + {t}))
  {
    hide Leads;
    s := Next(o, x, s0, ServeStep(t, CallServe));
    s := Next(o, x, s, ServeStep(t, EnterBody));
    s := Next(o, x, s, ServeStep(t, StartHooks(true)));
    s := Next(o, x, s, ServeStep(t, Publish));
    assert s.gate.serves == s0.gate.serves[t := VRecord];
  }

  /** It is recorded, accepts c and serves it. */
  lemma Serves(o: State, x: Tid, s0: State, t: Tid, c: Cid) returns (s: State)
    requires Leads(o, x, s0) && t in s0.gate.serves && s0.gate.serves[t].VRecord? && t in s0.net.open
    requires !s0.net.busy && !s0.net.forceClosed && c !in s0.net.conns
    ensures Leads(o, x, s)
    ensures s == s0.(gate := s0.gate.(serves := s0.gate.serves[t := VAccept]),
                     net := s0.net.(recorded := s0.net.recorded + {t}, conns := s0.net.conns[c := Conn(Live, false)],
                                    tracked := s0.net.tracked + {c}))
  {
    hide Leads;
    s := Next(o, x, s0, ServeStep(t, Record));
    s := Next(o, x, s, ServeStep(t, Count));
    s := Next(o, x, s, ServeStep(t, Accept(c)));
    s := Next(o, x, s, ConnStep(c, Report));
    assert s.gate.serves == s0.gate.serves[t := VAccept];
    assert s.net.conns == s0.net.conns[c := Conn(Live, false)];
  }

  /** Its accept loop ends: it unwinds and returns. */
  lemma Unwinds(o: State, x: Tid, s0: State, t: Tid) returns (s: State)
    requires Leads(o, x, s0) && t in s0.gate.serves && s0.gate.serves[t].VAccept?
    ensures Leads(o, x, s)
    ensures s == s0.(gate := s0.gate.(serving := None, ready := false, serves := s0.gate.serves[t := VDone]))
  {
    hide Leads;
    s := Next(o, x, s0, ServeStep(t, AcceptFails));
    s := Next(o, x, s, ServeStep(t, Unready));
    s := Next(o, x, s, ServeStep(t, Unserve));
    assert s.gate.serves == s0.gate.serves[t := VDone];
  }

  /** A first Shutdown, without a drain delay, up to its first ShutdownWithContext. */
  lemma Begins(o: State, x: Tid, s0: State, u: Tid) returns (s: State)
    requires Leads(o, x, s0) && u != x && u !in s0.shuts && s0.drain == Drain(NotRun, false, false, false)
      && s0.turn.None? && !s0.delay
    ensures Leads(o, x, s)
    ensures s == s0.(gate := s0.gate.(closed := true, ready := false, swapped := true),
                     drain := Drain(Done, true, false, false), turn := Some(u),
                     shuts := s0.shuts[u := NewShut().(pc := SLook, ln := s0.gate.published, holds := true,
                                                       wasReady := s0.gate.ready)])
  {
    hide Leads;
    s := Marks(o, x, s0, u);
    s := Swaps(o, x, s, u);
    s := Takes(o, x, s, u);
    assert s.shuts == s0.shuts[u := s.shuts[u]];
  }

  lemma Marks(o: State, x: Tid, s0: State, u: Tid) returns (s: State)
    requires Leads(o, x, s0) && u != x && u !in s0.shuts && s0.drain.once.NotRun?
    ensures Leads(o, x, s)
    ensures s == s0.(gate := s0.gate.(closed := true), drain := s0.drain.(once := Running(u)),
                     shuts := s0.shuts[u := NewShut().(pc := SSwap, ln := s0.gate.published)])
  {
    hide Leads;
    s := Calls(o, x, s0, u);
    s := Next(o, x, s, ShutStep(u, CancelStreams));
    s := Next(o, x, s, ShutStep(u, DrainOnce));
    assert s.shuts == s0.shuts[u := NewShut().(pc := SSwap, ln := s0.gate.published)];
  }

  lemma Calls(o: State, x: Tid, s0: State, u: Tid) returns (s: State)
    requires Leads(o, x, s0) && u != x && u !in s0.shuts
    ensures Leads(o, x, s)
    ensures s == s0.(gate := s0.gate.(closed := true),
                     shuts := s0.shuts[u := NewShut().(pc := SStreams, ln := s0.gate.published)])
  {
    hide Leads;
    s := Next(o, x, s0, ShutStep(u, CallShutdown));
    s := Enters(o, x, s, u);
    assert s.shuts == s0.shuts[u := NewShut().(pc := SStreams, ln := s0.gate.published)];
  }

  lemma Enters(o: State, x: Tid, s0: State, u: Tid) returns (s: State)
    requires Leads(o, x, s0) && u in s0.shuts && s0.shuts[u] == NewShut()
    ensures Leads(o, x, s)
    ensures s == s0.(gate := s0.gate.(closed := true),
                     shuts := s0.shuts[u := NewShut().(pc := SStreams, ln := s0.gate.published)])
  {
    hide Leads;
    s := Next(o, x, s0, ShutStep(u, MarkClosed));
  }

  lemma Swaps(o: State, x: Tid, s0: State, u: Tid) returns (s: State)
    requires Leads(o, x, s0) && u in s0.shuts && s0.shuts[u].pc.SSwap? && !s0.delay
    ensures Leads(o, x, s)
    ensures s == s0.(gate := s0.gate.(ready := false, swapped := true),
                     drain := s0.drain.(once := Done, draining := true, delayed := false),
                     shuts := s0.shuts[u := s0.shuts[u].(pc := SDelay, wasReady := s0.gate.ready)])
  {
    hide Leads;
    s := Next(o, x, s0, ShutStep(u, Swap));
    s := Flags(o, x, s, u);
    assert s.shuts == s0.shuts[u := s0.shuts[u].(pc := SDelay, wasReady := s0.gate.ready)];
  }

  lemma Flags(o: State, x: Tid, s0: State, u: Tid) returns (s: State)
    requires Leads(o, x, s0) && u in s0.shuts && s0.shuts[u].pc.SDraining? && !s0.delay
    ensures Leads(o, x, s)
    ensures s == s0.(drain := s0.drain.(once := Done, draining := true, delayed := false),
                     shuts := s0.shuts[u := s0.shuts[u].(pc := SDelay)])
  {
    hide Leads;
    s := FirstFlag(o, x, s0, u);
    s := Next(o, x, s, ShutStep(u, SetDrainEnd));
    assert s.shuts == s0.shuts[u := s0.shuts[u].(pc := SDelay)];
  }

  lemma FirstFlag(o: State, x: Tid, s0: State, u: Tid) returns (s: State)
    requires Leads(o, x, s0) && u in s0.shuts && s0.shuts[u].pc.SDraining?
    ensures Leads(o, x, s)
    ensures s == s0.(drain := s0.drain.(draining := true), shuts := s0.shuts[u := s0.shuts[u].(pc := SDrainEnd)])
  {
    hide Leads;
    s := Next(o, x, s0, ShutStep(u, SetDraining));
  }

  lemma Takes(o: State, x: Tid, s0: State, u: Tid) returns (s: State)
    requires Leads(o, x, s0) && u in s0.shuts && s0.shuts[u].pc.SDelay? && !s0.drain.delayed && s0.turn.None?
    ensures Leads(o, x, s)
    ensures s == s0.(turn := Some(u), shuts := s0.shuts[u := s0.shuts[u].(pc := SLook, holds := true)])
  {
    hide Leads;
    s := Delays(o, x, s0, u);
    s := Next(o, x, s, ShutStep(u, TryTurn));
    assert s.shuts == s0.shuts[u := s0.shuts[u].(pc := SLook, holds := true)];
  }

  lemma Delays(o: State, x: Tid, s0: State, u: Tid) returns (s: State)
    requires Leads(o, x, s0) && u in s0.shuts && s0.shuts[u].pc.SDelay? && !s0.drain.delayed
    ensures Leads(o, x, s)
    ensures s == s0.(shuts := s0.shuts[u := s0.shuts[u].(pc := STry)])
  {
    hide Leads;
    s := Next(o, x, s0, ShutStep(u, DelayOver));
  }

  /** Serve 1 serves connection 1 and then fails: its listener stays recorded. Serve 2
      publishes its own, and Shutdown 9 begins. */
  lemma Retried() returns (s: State)
    ensures Leads(Init(0, false), 0, s) && s.gate.published == Some(2) && s.gate.serves == map[1 := VDone, 2 := VRecord]
    ensures s.net == Net({1, 2}, {1}, false, false, map[1 := Conn(Live, false)], {1}, false)
    ensures s.shuts == map[9 := NewShut().(pc := SLook, ln := Some(2), holds := true, wasReady := true)]
    ensures s.turn == Some(9) && s.hook.once.NotRun? && s.hook.total == 0
  {
    hide Leads;
    s := Fresh(0, false, 0);
    s := Publishes(Init(0, false), 0, s, 1);
    s := Serves(Init(0, false), 0, s, 1, 1);
    s := Unwinds(Init(0, false), 0, s, 1);
    s := Publishes(Init(0, false), 0, s, 2);
    s := Begins(Init(0, false), 0, s, 9);
    assert s.net.open == {1, 2} && s.net.recorded == {1} && s.net.tracked == {1};
  }

  /** Its first drain waits for connection 1 and times out. */
  lemma TimesOut() returns (s: State)
    ensures Leads(Init(0, false), 0, s) && s.gate.serves == map[1 := VDone, 2 := VRecord]
    ensures s.net == Net({2}, {}, false, true, map[1 := Conn(Live, false)], {1}, false)
    ensures s.shuts == map[9 := Shut(CLock, Some(2), true, true, {1}, true, true, {}, {}, true)]
    ensures s.turn == Some(9) && s.hook.once.NotRun? && s.hook.total == 0
  {
    hide Leads;
    s := Looks();
    s := Next(Init(0, false), 0, s, ShutStep(9, CtxEnds));
    s := Next(Init(0, false), 0, s, ShutStep(9, DrainTimesOut));
  }

  lemma Looks() returns (s: State)
    ensures Leads(Init(0, false), 0, s) && s.gate.serves == map[1 := VDone, 2 := VRecord]
    ensures s.net == Net({2}, {1}, true, true, map[1 := Conn(Live, false)], {1}, false)
    ensures s.shuts == map[9 := Shut(SDrain, Some(2), false, true, {1}, false, true, {}, {}, false)]
    ensures s.turn == Some(9) && s.hook.once.NotRun? && s.hook.total == 0
  {
    hide Leads;
    s := Retried();
    s := Next(Init(0, false), 0, s, ShutStep(9, LookSome));
    assert s.net.open == {2};
  }

  /** It force-closes. */
  lemma Locks(o: State, x: Tid, s0: State, u: Tid) returns (s: State)
    requires Leads(o, x, s0) && u in s0.shuts && s0.shuts[u].pc.CLock?
    ensures Leads(o, x, s)
    ensures s == s0.(net := s0.net.(forceClosed := true), cancelled := true,
                     shuts := s0.shuts[u := s0.shuts[u].(pc := CClose, copy := s0.net.tracked,
                                                         pending := s0.net.tracked)])
  {
    hide Leads;
    s := Next(o, x, s0, ShutStep(u, LockConns));
    s := Next(o, x, s, ShutStep(u, CancelBase));
    assert s.shuts == s0.shuts[u := s0.shuts[u].(pc := CClose, copy := s0.net.tracked, pending := s0.net.tracked)];
  }

  lemma Forces() returns (s: State)
    ensures Leads(Init(0, false), 0, s) && s.gate.serves == map[1 := VDone, 2 := VRecord]
    ensures s.net == Net({2}, {}, false, true, map[1 := Conn(Live, true)], {1}, true)
    ensures s.shuts == map[9 := Shut(SHooks, Some(2), true, true, {1}, true, true, {1}, {}, true)]
    ensures s.turn == Some(9) && s.hook.once.NotRun? && s.hook.total == 0
  {
    hide Leads;
    s := ClosesOne();
    s := Next(Init(0, false), 0, s, ShutStep(9, CloseDone));
  }

  lemma ClosesOne() returns (s: State)
    ensures Leads(Init(0, false), 0, s) && s.gate.serves == map[1 := VDone, 2 := VRecord]
    ensures s.net == Net({2}, {}, false, true, map[1 := Conn(Live, true)], {1}, true)
    ensures s.shuts == map[9 := Shut(CClose, Some(2), true, true, {1}, true, true, {1}, {}, true)]
    ensures s.turn == Some(9) && s.hook.once.NotRun? && s.hook.total == 0
  {
    hide Leads;
    s := TimesOut();
    s := Locks(Init(0, false), 0, s, 9);
    s := Next(Init(0, false), 0, s, ShutStep(9, CloseOne(1)));
    assert s.shuts[9].pending == {};
  }

  /** The call that holds the turn runs its hooks when there are none, and returns. */
  lemma Returns(o: State, x: Tid, s0: State, u: Tid) returns (s: State)
    requires Leads(o, x, s0) && u in s0.shuts && s0.shuts[u].pc == SHookRun(0)
    ensures Leads(o, x, s)
    ensures s == s0.(hook := s0.hook.(once := Done, done := true), turn := None,
                     shuts := s0.shuts[u := s0.shuts[u].(pc := SReturned)])
  {
    hide Leads;
    s := Next(o, x, s0, ShutStep(u, EndHooks));
    s := Next(o, x, s, ShutStep(u, Release));
    assert s.shuts == s0.shuts[u := s0.shuts[u].(pc := SReturned)];
  }

  /** So Shutdown returns while Serve 2 can go on to accept on an open listener. What it
      accepts is closed on arrival, but the listener is never closed. */
  lemma ListenerLeftOpen() returns (s: State)
    ensures Reachable(s) && s.shuts.Keys == {9} && s.shuts[9].pc.SReturned? && s.shuts[9].holds
    ensures s.shuts[9].ln == Some(2) && 2 in s.net.open && Missed(s.shuts[9])
    ensures CanServe(s, 2, Record)
  {
    hide Leads;
    s := Forces();
    s := Next(Init(0, false), 0, s, ShutStep(9, BeginHooks));
    s := Returns(Init(0, false), 0, s, 9);
    LeadsReaches(0, false, 0, s);
  }
}
