/** A run in which RunContext is about to return while OnShutdown hooks run: its check found
    them not started, and another Shutdown started them right after. */
module RunContextRuns {
  import opened Options
  import opened Lifecycle
  import opened LifecycleInv
  import opened LifecycleSafety
  import opened LifecycleRuns
  import opened RunContexts

  /** App with one hook; Serve 1 serves connection 1, Shutdown 8 waits for it, and the accept
      loop has ended. */
  function Waiting(): State {
    State(false,
          Gate(true, None, Some(1), false, true, map[1 := VDone]),
          Net({}, {1}, true, true, map[1 := Conn(Live, false)], {1}, false),
          Drain(Done, true, false, false),
          Hook(1, NotRun, false, [], false, false),
          Some(8),
          map[8 := Shut(SDrain, Some(1), false, true, {1}, false, true, {}, {}, false)],
          false, false, false)
  }

  lemma Waits(x: Tid) returns (s: State)
    requires x == 9
    ensures s == Waiting() && Leads(Init(1, false), x, s)
  {
    hide Leads;
    var o := Init(1, false);
    s := Drains(x);
    s := Unwinds(o, x, s, 1);
    assert s.gate.serves == map[1 := VDone];
  }

  lemma Drains(x: Tid) returns (s: State)
    requires x == 9
    ensures Leads(Init(1, false), x, s)
    ensures s == Waiting().(gate := Gate(true, Some(1), Some(1), false, true, map[1 := VAccept]))
  {
    hide Leads;
    var o := Init(1, false);
    s := Fresh(1, false, x);
    s := Publishes(o, x, s, 1);
    s := Serves(o, x, s, 1, 1);
    s := Begins(o, x, s, 8);
    s := Next(o, x, s, ShutStep(8, LookSome));
    assert s.net.open == {} && s.net.recorded == {1} && s.net.tracked == {1};
    assert s.gate.serves == map[1 := VAccept];
    assert s.shuts == Waiting().shuts;
  }

  // ----- Shutdown 9, RunContext's own

  /** It has been called. */
  function Called(): State {
    Waiting().(shuts := Waiting().shuts[9 := NewShut()])
  }

  /** It has force-closed and returned. */
  function Checked(): State {
    Waiting().(net := Waiting().net.(conns := map[1 := Conn(Live, true)], forceClosed := true),
               shuts := Waiting().shuts[9 := Shut(SReturned, Some(1), true, false, {}, false, false, {1}, {}, true)],
               cancelled := true, forced := true)
  }

  lemma Queues(o: State, x: Tid, s0: State, u: Tid) returns (s: State)
    requires Leads(o, x, s0) && u in s0.shuts && s0.shuts[u] == NewShut()
    requires s0.drain.once.Done? && !s0.drain.delayed && s0.gate.closed
    ensures Leads(o, x, s)
    ensures s == s0.(shuts := s0.shuts[u := NewShut().(pc := STry, ln := s0.gate.published)])
  {
    hide Leads, Do;
    s := Enters(o, x, s0, u);
    s := Moves(o, x, s, u, CancelStreams);
    s := Moves(o, x, s, u, DrainSkip);
    s := Moves(o, x, s, u, DelayOver);
    assert s.shuts == s0.shuts[u := NewShut().(pc := STry, ln := s0.gate.published)];
  }

  lemma GivesUp(o: State, x: Tid, s0: State, u: Tid) returns (s: State)
    requires Leads(o, x, s0) && u in s0.shuts && s0.shuts[u].pc.STry? && s0.turn.Some?
    ensures Leads(o, x, s)
    ensures s == s0.(shuts := s0.shuts[u := s0.shuts[u].(pc := CLock, ctxDone := true, timeout := true)])
  {
    hide Leads, Do;
    s := Moves(o, x, s0, u, TurnTaken);
    s := Moves(o, x, s, u, CtxEnds);
    s := Moves(o, x, s, u, GiveUp);
    assert s.shuts == s0.shuts[u := s0.shuts[u].(pc := CLock, ctxDone := true, timeout := true)];
  }

  lemma Checks(o: State) returns (s: State)
    requires o == Called()
    ensures s == Checked() && Leads(o, 9, s)
  {
    hide Leads;
    Stays(o, 9);
    s := Queues(o, 9, o, 9);
    s := GivesUp(o, 9, s, 9);
    s := Locks(o, 9, s, 9);
    s := Closes(o, s);
  }

  lemma Closes(o: State, s0: State) returns (s: State)
    requires Leads(o, 9, s0)
    requires s0 == Checked().(net := Waiting().net.(forceClosed := true), forced := false,
      shuts := Waiting().shuts[9 := Shut(CClose, Some(1), true, false, {}, false, false, {1}, {1}, true)])
    ensures s == Checked() && Leads(o, 9, s)
  {
    hide Leads;
    s := ClosesOnly(o, s0);
    s := Next(o, 9, s, ShutStep(9, CloseDone));
    assert s.shuts == Checked().shuts;
  }

  lemma ClosesOnly(o: State, s0: State) returns (s: State)
    requires Leads(o, 9, s0)
    requires s0 == Checked().(net := Waiting().net.(forceClosed := true), forced := false,
      shuts := Waiting().shuts[9 := Shut(CClose, Some(1), true, false, {}, false, false, {1}, {1}, true)])
    ensures Leads(o, 9, s)
    ensures s == Checked().(forced := false,
      shuts := Waiting().shuts[9 := Shut(CClose, Some(1), true, false, {}, false, false, {1}, {}, true)])
  {
    hide Leads;
    s := Next(o, 9, s0, ShutStep(9, CloseOne(1)));
    assert s.shuts[9].pending == {};
    assert s.shuts == Waiting().shuts[9 := Shut(CClose, Some(1), true, false, {}, false, false, {1}, {}, true)];
  }

  // ----- Shutdown 8, called elsewhere

  lemma Hangs(o: State) returns (s: State)
    requires o == Checked()
    ensures Leads(o, 9, s) && s == o.(net := o.net.(conns := map[1 := Conn(Gone, true)], tracked := {}))
  {
    hide Leads;
    Stays(o, 9);
    s := Next(o, 9, o, ConnStep(1, End));
    s := Next(o, 9, s, ConnStep(1, Untrack));
    s := Next(o, 9, s, ConnStep(1, ConnAct.Leave));
    assert s.net.conns == map[1 := Conn(Gone, true)];
    assert s.net.tracked == {};
  }

  lemma Finishes(o: State, s0: State) returns (s: State)
    requires Leads(o, 9, s0) && 8 in s0.shuts && s0.shuts[8].pc.SDrain? && s0.shuts[8].ln == Some(1)
    requires s0.net.conns == map[1 := Conn(Gone, true)] && s0.gate.serves == map[1 := VDone]
    ensures Leads(o, 9, s)
    ensures s == s0.(net := s0.net.(open := s0.net.open - {1}, recorded := {}, busy := false),
                     shuts := s0.shuts[8 := s0.shuts[8].(pc := SLookAgain)])
  {
    hide Leads;
    s := FinishesDrain(o, s0);
    s := Next(o, 9, s, ShutStep(8, CloseListener));
    assert s.shuts == s0.shuts[8 := s0.shuts[8].(pc := SLookAgain)];
  }

  lemma FinishesDrain(o: State, s0: State) returns (s: State)
    requires Leads(o, 9, s0) && 8 in s0.shuts && s0.shuts[8].pc.SDrain?
    requires s0.net.conns == map[1 := Conn(Gone, true)] && s0.gate.serves == map[1 := VDone]
    ensures Leads(o, 9, s)
    ensures s == s0.(net := s0.net.(recorded := {}, busy := false),
                     shuts := s0.shuts[8 := s0.shuts[8].(pc := SCloseLn)])
  {
    hide Leads;
    assert NothingOpen(s0);
    s := Next(o, 9, s0, ShutStep(8, Drained));
  }

  lemma StartsHooks(o: State, s0: State) returns (s: State)
    requires Leads(o, 9, s0) && 8 in s0.shuts && s0.shuts[8].pc.SLookAgain? && s0.net.recorded == {}
    requires s0.hook.once.NotRun? && !s0.hook.done
    ensures Leads(o, 9, s) && HooksRunning(s)
  {
    hide Leads;
    s := FindsNone(o, s0);
    s := Next(o, 9, s, ShutStep(8, BeginHooks));
  }

  lemma FindsNone(o: State, s0: State) returns (s: State)
    requires Leads(o, 9, s0) && 8 in s0.shuts && s0.shuts[8].pc.SLookAgain? && s0.net.recorded == {}
    ensures Leads(o, 9, s)
    ensures s == s0.(clean := true, net := s0.net.(cleared := true),
                     shuts := s0.shuts[8 := s0.shuts[8].(pc := SHooks)])
  {
    hide Leads;
    s := Next(o, 9, s0, ShutStep(8, LookNone));
  }

  lemma RunsHooks() returns (s: State)
    ensures Leads(Checked(), 9, s) && HooksRunning(s)
  {
    hide Leads;
    s := Hangs(Checked());
    s := Finishes(Checked(), s);
    s := StartsHooks(Checked(), s);
  }

  // ----- the whole run

  function Start(): Caller {
    Caller(Init(1, false), RServing, false, 1, 9)
  }

  /** RunContext finds Serve back, waits for the other Shutdown, and shuts down itself when its
      context ends. */
  lemma CallsShutdown() returns (r: Caller)
    ensures Comes(Start(), r) && r == Caller(Called(), RShutting(false), true, 1, 9)
  {
    hide Comes, Leads, Do;
    ComesItself(Start());
    var s := Waits(9);
    r := ComesApp(Start(), Start(), s);
    r := ComesStep(Start(), r, ServeNil);
    r := ComesStep(Start(), r, CtxDone);
    assert CanShut(s, 9, CallShutdown);
    r := ComesStep(Start(), r, ShutDown);
    CallOf9();
  }

  lemma CallOf9()
    ensures CanShut(Waiting(), 9, CallShutdown) && Can(Waiting(), ShutStep(9, CallShutdown))
    ensures Do(Waiting(), ShutStep(9, CallShutdown)) == Called()
  {
  }

  /** One run from the start of RunContext to its return, which the check allowed, with hooks
      running at that moment. */
  lemma ReturnsAmidHooks() returns (r: Caller)
    ensures Starts(Start()) && Comes(Start(), r) && Able(r, Return) && HooksRunning(r.app)
  {
    hide Comes, Leads;
    StartIsStart();
    r := CallsShutdown();
    var s := Checks(Called());
    r := ComesApp(Start(), r, s);
    r := ComesStep(Start(), r, ShutdownBack);
    r := ComesStep(Start(), r, CheckHooks);
    s := RunsHooks();
    r := ComesApp(Start(), r, s);
  }

  lemma StartIsStart()
    ensures Starts(Start())
  {
    assert IsRun(Init(1, false), []) && After(Init(1, false), []) == Init(1, false);
  }

  /** So the promise that RunContext never returns while OnShutdown hooks are running is kept
      if and only if no Shutdown is called elsewhere. */
  lemma PromiseKept(others: bool)
    ensures Promise(others) <==> !others
  {
    hide Comes, Starts;
    if others {
      var r := ReturnsAmidHooks();
      assert !(Starts(Start()) && Comes(Start(), r) ==> !(Able(r, Return) && HooksRunning(r.app)));
    } else {
      forall start, r | Starts(start) && Comes(start, r) && NoneElsewhere(r)
        ensures !(Able(r, Return) && HooksRunning(r.app))
      {
        if Able(r, Return) {
          NoHooksAfterLeaving(start, r);
        }
      }
    }
  }
}
