/** RunContext, on top of the Serve and Shutdown steps it starts and waits for. */
module RunContexts {
  import opened Options
  import opened Lifecycle
  import opened LifecycleInv
  import opened LifecycleSafety
  import opened LifecycleRuns

  datatype Pc =
    | RServing                  // waiting for Serve, or for the context
    | RElsewhere                // Serve returned nil: another Shutdown is under way
    | RShutting(join: bool)     // in shutdownWithin, to wait for Serve after it or not
    | RJoining
    | RChecking                 // awaitRunningHooks: have they started
    | RAwaiting                 // they have: wait for their end
    | RLeaving                  // about to return
    | RReturned

  /** The App, and one RunContext whose Serve call is v and whose Shutdown call, if it
      makes one, is u. */
  datatype Caller = Caller(app: State, pc: Pc, ctxDone: bool, v: Tid, u: Tid)

  datatype Step =
    | AppStep(a: Act)
    | CtxDone
    | ServeErred        // Serve returned an error
    | ServeNil          // Serve returned nil, which only a Shutdown lets it do
    | SeeDone
    | ShutDown
    | ShutdownBack
    | ServeBack
    | CheckHooks
    | HooksBack
    | Return

  ghost predicate Able(r: Caller, x: Step) {
    match x
    case AppStep(a) => Can(r.app, a) && a != ShutStep(r.u, CallShutdown)
    case CtxDone => true
    case ServeErred => r.pc.RServing? && ServeIsBack(r)
    case ServeNil => r.pc.RServing? && ServeIsBack(r) && r.app.gate.closed
    case SeeDone => r.pc.RElsewhere? && r.app.hook.done
    case ShutDown => (r.pc.RServing? || r.pc.RElsewhere?) && r.ctxDone && CanShut(r.app, r.u, CallShutdown)
    case ShutdownBack => r.pc.RShutting? && r.u in r.app.shuts && r.app.shuts[r.u].pc.SReturned?
    case ServeBack => r.pc.RJoining? && ServeIsBack(r)
    case CheckHooks => r.pc.RChecking?
    case HooksBack => r.pc.RAwaiting? && r.app.hook.done
    case Return => r.pc.RLeaving?
  }

  predicate ServeIsBack(r: Caller) {
    r.v in r.app.gate.serves && r.app.gate.serves[r.v].VDone?
  }

  ghost function Moved(r: Caller, x: Step): Caller
    requires Able(r, x)
  {
    match x
    case AppStep(a) => r.(app := Do(r.app, a))
    case CtxDone => r.(ctxDone := true)
    case ServeErred => r.(pc := RChecking)
    case ServeNil => r.(pc := RElsewhere)
    case SeeDone => r.(pc := RLeaving)
    case ShutDown => r.(pc := RShutting(r.pc.RServing?), app := Do(r.app, ShutStep(r.u, CallShutdown)))
    case ShutdownBack => r.(pc := if r.pc.join then RJoining else RChecking)
    case ServeBack => r.(pc := RChecking)
    case CheckHooks => r.(pc := if r.app.hook.started then RAwaiting else RLeaving)
    case HooksBack => r.(pc := RLeaving)
    case Return => r.(pc := RReturned)
  }

  predicate Leaves(pc: Pc) { pc.RLeaving? || pc.RReturned? }

  /** Before it has waited for Serve. */
  predicate Joins(pc: Pc) { pc.RServing? || pc.RJoining? || (pc.RShutting? && pc.join) }

  /** Who may have called, and who is back. */
  ghost predicate CallerOk(r: Caller) {
    && Reachable(r.app)
    && (r.pc.RAwaiting? ==> r.app.hook.started)
    && (!Joins(r.pc) ==> ServeIsBack(r))
    && (r.pc.RServing? || r.pc.RElsewhere? ==> r.u !in r.app.shuts)
    && (r.u in r.app.shuts ==> r.ctxDone)
    && (r.pc.RShutting? || r.pc.RJoining? ==> r.u in r.app.shuts)
    && (r.pc.RJoining? || ((r.pc.RChecking? || r.pc.RAwaiting? || Leaves(r.pc)) && r.u in r.app.shuts) ==>
          r.app.shuts[r.u].pc.SReturned?)
  }

  lemma HooksStay(s: State, a: Act)
    requires Can(s, a)
    ensures s.hook.started ==> Do(s, a).hook.started
    ensures s.hook.done ==> Do(s, a).hook.done
  {
    hide GateAfter, NetAfter, NetAfterConn, GateAfterShut, DrainAfter, NetAfterShut, TurnAfter, EndsClean, Finds;
    hide ShutAfter;
  }

  lemma CallsStay(s: State, a: Act, u: Tid)
    requires Can(s, a)
    ensures u in s.shuts ==> u in Do(s, a).shuts
    ensures u in s.shuts && s.shuts[u].pc.SReturned? ==> Do(s, a).shuts[u].pc.SReturned?
    ensures u !in s.shuts && a != ShutStep(u, CallShutdown) ==> u !in Do(s, a).shuts
  {
    hide GateAfter, NetAfter, NetAfterConn, GateAfterShut, DrainAfter, NetAfterShut, HookAfter, TurnAfter;
    hide EndsClean, Finds;
  }

  lemma StepKeepsCaller(r: Caller, x: Step)
    requires CallerOk(r) && Able(r, x)
    ensures CallerOk(Moved(r, x))
  {
    hide Reachable, Do, Can;
    if x.AppStep? {
      OneStep(r.app, x.a);
      HooksStay(r.app, x.a);
      CallsStay(r.app, x.a, r.u);
      if ServeIsBack(r) {
        ServeStaysBack(r.app, x.a, r.v);
      }
    } else if x.ShutDown? {
      var a := ShutStep(r.u, CallShutdown);
      assert Can(r.app, a) by { CallIsAct(r.app, r.u); }
      OneStep(r.app, a);
      CallAdds(r.app, r.u);
    }
  }

  lemma CallIsAct(s: State, u: Tid)
    requires CanShut(s, u, CallShutdown)
    ensures Can(s, ShutStep(u, CallShutdown))
  {
  }

  lemma ServeStaysBack(s: State, a: Act, v: Tid)
    requires Can(s, a) && v in s.gate.serves && s.gate.serves[v].VDone?
    ensures v in Do(s, a).gate.serves && Do(s, a).gate.serves[v].VDone?
  {
    hide NetAfter, NetAfterConn, DrainAfter, NetAfterShut, HookAfter, TurnAfter, ShutAfter, EndsClean, Finds, Allows;
  }

  lemma CallAdds(s: State, u: Tid)
    requires Can(s, ShutStep(u, CallShutdown))
    ensures u in Do(s, ShutStep(u, CallShutdown)).shuts
    ensures Do(s, ShutStep(u, CallShutdown)).gate.serves == s.gate.serves
    ensures Do(s, ShutStep(u, CallShutdown)).hook == s.hook
  {
  }

  ghost predicate IsRunOf(r: Caller, steps: seq<Step>)
    decreases |steps|
  {
    steps == [] || (Able(r, steps[0]) && IsRunOf(Moved(r, steps[0]), steps[1..]))
  }

  ghost function AfterAll(r: Caller, steps: seq<Step>): Caller
    requires IsRunOf(r, steps)
    decreases |steps|
  {
    if steps == [] then r else AfterAll(Moved(r, steps[0]), steps[1..])
  }

  lemma {:induction false} RunKeepsCaller(r: Caller, steps: seq<Step>)
    requires CallerOk(r) && IsRunOf(r, steps)
    ensures CallerOk(AfterAll(r, steps))
    decreases |steps|
  {
    hide CallerOk, Able, Moved;
    if steps != [] {
      StepKeepsCaller(r, steps[0]);
      RunKeepsCaller(Moved(r, steps[0]), steps[1..]);
    }
  }

  /** RunContext has started Serve and made no call of Shutdown yet. */
  ghost predicate Starts(r: Caller) {
    Reachable(r.app) && r.pc == RServing && r.u !in r.app.shuts
  }

  /** r follows from start by steps of RunContext and of the App. */
  ghost predicate Comes(start: Caller, r: Caller) {
    exists steps :: IsRunOf(start, steps) && AfterAll(start, steps) == r
  }

  lemma ComesOk(start: Caller, r: Caller)
    requires Starts(start) && Comes(start, r)
    ensures CallerOk(r) && r.u == start.u
  {
    var steps :| IsRunOf(start, steps) && AfterAll(start, steps) == r;
    RunKeepsCaller(start, steps);
    SameCalls(start, steps);
  }

  // ----- how it returns

  /** Some check on the way found the hooks not started. */
  ghost predicate FoundUnstarted(r: Caller, steps: seq<Step>)
    requires IsRunOf(r, steps)
    decreases |steps|
  {
    steps != [] &&
      ((steps[0].CheckHooks? && !r.app.hook.started) || FoundUnstarted(Moved(r, steps[0]), steps[1..]))
  }

  /** RunContext returns when Serve is back, and with the OnShutdown hooks finished or after a
      check that found them not started; if its own Shutdown had its turn they are finished.
      It shuts down itself only when its context has ended; then that call has returned, and
      nothing is served then or at any time after. If it does not, Serve failed or the hooks
      are finished. */
  lemma RunContextReturns(start: Caller, steps: seq<Step>, later: seq<Act>)
    requires Starts(start) && IsRunOf(start, steps) && Able(AfterAll(start, steps), Return)
    requires IsRun(AfterAll(start, steps).app, later)
    ensures var r := AfterAll(start, steps);
      && ServeIsBack(r)
      && (r.app.hook.done || FoundUnstarted(start, steps))
      && (r.u in r.app.shuts ==>
            && r.ctxDone && r.app.shuts[r.u].pc.SReturned? && (r.app.shuts[r.u].holds ==> r.app.hook.done)
            && NothingServed(r.app) && NothingServed(After(r.app, later)))
      && (r.u !in r.app.shuts ==> r.app.hook.done || ServeErred in steps)
  {
    hide CallerOk, NothingServed, IsRun, After, Reachable, FoundUnstarted;
    var r := AfterAll(start, steps);
    StartIsOk(start);
    RunKeepsCaller(start, steps);
    OkLeaves(r);
    LeavesHow(start, steps);
    LeavesWhy(start, steps);
    if r.u in r.app.shuts {
      NothingServedAfterShutdown(r.app, r.u, later);
      ReturnedHow(r.app, r.u);
    }
  }

  lemma StartIsOk(r: Caller)
    requires Starts(r)
    ensures CallerOk(r)
  {
  }

  lemma OkLeaves(r: Caller)
    requires CallerOk(r) && Leaves(r.pc)
    ensures Reachable(r.app) && ServeIsBack(r) && (r.u in r.app.shuts ==> r.app.shuts[r.u].pc.SReturned?)
    ensures r.u in r.app.shuts ==> r.ctxDone
  {
  }

  /** From a check that finds the hooks started, RunContext does not leave before they are
      done; after one that does not, it leaves at once. */
  lemma AwaitsRunningHooks(start: Caller, r: Caller, steps: seq<Step>)
    requires Starts(start) && Comes(start, r) && Able(r, CheckHooks) && IsRunOf(Moved(r, CheckHooks), steps)
    ensures r.app.hook.started && Leaves(AfterAll(Moved(r, CheckHooks), steps).pc) ==>
      AfterAll(Moved(r, CheckHooks), steps).app.hook.done
    ensures !r.app.hook.started ==> Able(Moved(r, CheckHooks), Return)
  {
    hide Comes, CallerOk;
    ComesOk(start, r);
    StepKeepsCaller(r, CheckHooks);
    if r.app.hook.started {
      NoCheckAgain(Moved(r, CheckHooks), steps);
      LeavesHow(Moved(r, CheckHooks), steps);
    }
  }

  lemma {:induction false} NoCheckAgain(r: Caller, steps: seq<Step>)
    requires IsRunOf(r, steps) && (r.pc.RAwaiting? || Leaves(r.pc))
    ensures !FoundUnstarted(r, steps)
    decreases |steps|
  {
    hide Do, Can;
    if steps != [] {
      NoCheckAgain(Moved(r, steps[0]), steps[1..]);
    }
  }

  lemma {:induction false} LeavesHow(r: Caller, steps: seq<Step>)
    requires CallerOk(r) && IsRunOf(r, steps) && (Leaves(r.pc) ==> r.app.hook.done)
    ensures Leaves(AfterAll(r, steps).pc) ==> AfterAll(r, steps).app.hook.done || FoundUnstarted(r, steps)
    decreases |steps|
  {
    hide CallerOk;
    if steps != [] && !(steps[0].CheckHooks? && !r.app.hook.started) {
      DoneStays(r, steps[0]);
      StepKeepsCaller(r, steps[0]);
      LeavesHow(Moved(r, steps[0]), steps[1..]);
    }
  }

  lemma DoneStays(r: Caller, x: Step)
    requires CallerOk(r) && Able(r, x) && (Leaves(r.pc) ==> r.app.hook.done)
    requires x.CheckHooks? ==> r.app.hook.started
    ensures Leaves(Moved(r, x).pc) ==> Moved(r, x).app.hook.done
    ensures r.app.hook.done ==> Moved(r, x).app.hook.done
  {
    hide Do, Can;
    if x.AppStep? {
      HooksStay(r.app, x.a);
    } else if x.ShutDown? {
      CallIsAct(r.app, r.u);
      CallAdds(r.app, r.u);
    }
  }

  /** Without an error of Serve, and without a call of its own, only the end of the hooks
      lets RunContext go on. */
  predicate NeedsDone(r: Caller) {
    (r.pc.RChecking? || r.pc.RAwaiting? || Leaves(r.pc)) && r.u !in r.app.shuts ==> r.app.hook.done
  }

  lemma {:induction false} WhyFrom(r: Caller, steps: seq<Step>)
    requires CallerOk(r) && IsRunOf(r, steps) && NeedsDone(r) && ServeErred !in steps
    ensures NeedsDone(AfterAll(r, steps))
    decreases |steps|
  {
    hide CallerOk, NeedsDone;
    if steps != [] {
      StepKeepsNeed(r, steps[0]);
      StepKeepsCaller(r, steps[0]);
      WhyFrom(Moved(r, steps[0]), steps[1..]);
    }
  }

  lemma StepKeepsNeed(r: Caller, x: Step)
    requires CallerOk(r) && Able(r, x) && NeedsDone(r) && !x.ServeErred?
    ensures NeedsDone(Moved(r, x))
  {
    hide Do, Can, Reachable;
    if x.AppStep? {
      HooksStay(r.app, x.a);
      CallsStay(r.app, x.a, r.u);
    } else if x.ShutDown? {
      CallIsAct(r.app, r.u);
      CallAdds(r.app, r.u);
    }
  }

  lemma LeavesWhy(start: Caller, steps: seq<Step>)
    requires Starts(start) && IsRunOf(start, steps) && Leaves(AfterAll(start, steps).pc)
    ensures AfterAll(start, steps).u !in AfterAll(start, steps).app.shuts ==>
      AfterAll(start, steps).app.hook.done || ServeErred in steps
  {
    hide CallerOk;
    if ServeErred !in steps {
      StartIsOk(start);
      WhyFrom(start, steps);
    }
  }

  /** It waits for Serve or for the end of its context, for the hooks of another Shutdown or
      for that, for its own Shutdown, for Serve after it, or for hooks that have started. */
  predicate Waits(r: Caller) {
    || (r.pc.RServing? && !ServeIsBack(r) && !r.ctxDone)
    || (r.pc.RElsewhere? && !r.app.hook.done && !r.ctxDone)
    || (r.pc.RShutting? && r.u in r.app.shuts && !r.app.shuts[r.u].pc.SReturned?)
    || (r.pc.RJoining? && !ServeIsBack(r))
    || (r.pc.RAwaiting? && r.app.hook.started && !r.app.hook.done)
  }

  /** And for nothing else: otherwise it can take a step of its own. */
  lemma RunContextGoesOn(start: Caller, r: Caller) returns (x: Step)
    requires Starts(start) && Comes(start, r) && !r.pc.RReturned? && !Waits(r)
    ensures Able(r, x) && !x.AppStep? && !x.CtxDone?
  {
    hide Comes, Reachable;
    ComesOk(start, r);
    match r.pc
    case RServing => x := if ServeIsBack(r) then ServeErred else ShutDown;
    case RElsewhere => x := if r.app.hook.done then SeeDone else ShutDown;
    case RShutting(_) => x := ShutdownBack;
    case RJoining => x := ServeBack;
    case RChecking => x := CheckHooks;
    case RAwaiting => x := HooksBack;
    case RLeaving => x := Return;
  }

  // ----- the promise about running hooks

  /** No Shutdown was called but RunContext's own, if that. */
  predicate NoneElsewhere(r: Caller) { r.app.shuts.Keys <= {r.u} }

  predicate HooksRunning(s: State) { s.hook.started && !s.hook.done }

  /** Then no hook is running when RunContext returns, or later. */
  lemma NoHooksAfterLeaving(start: Caller, r: Caller)
    requires Starts(start) && Comes(start, r) && Leaves(r.pc) && NoneElsewhere(r)
    ensures !HooksRunning(r.app)
  {
    hide Comes;
    hide GateOk, ListenOk, OpeningOk, TurnOk, TrackOk, CloseOk, LookOk, LookedOk, DelayOk, ResultOk, DrainOk;
    ComesOk(start, r);
    ReachableInv(r.app);
  }

  /** RunContext never returns while OnShutdown hooks are running: for every run, or for
      every run in which no Shutdown is called elsewhere. */
  ghost predicate Promise(others: bool) {
    forall start, r :: Starts(start) && Comes(start, r) && (others || NoneElsewhere(r)) ==>
      !(Able(r, Return) && HooksRunning(r.app))
  }

  /** A run of the App, without a call of RunContext's own Shutdown, is part of its run. */
  lemma ComesApp(start: Caller, r: Caller, s: State) returns (r': Caller)
    requires Comes(start, r) && Leads(r.app, r.u, s)
    ensures r' == r.(app := s) && Comes(start, r')
  {
    r' := r.(app := s);
    var steps :| IsRunOf(start, steps) && AfterAll(start, steps) == r;
    var acts :| IsRun(r.app, acts) && Without(acts, r.u) && After(r.app, acts) == s;
    AppSteps(r, acts);
    RunsOfJoin(start, steps, Lifted(acts));
  }

  function Lifted(acts: seq<Act>): seq<Step> {
    if acts == [] then [] else [AppStep(acts[0])] + Lifted(acts[1..])
  }

  lemma {:induction false} AppSteps(r: Caller, acts: seq<Act>)
    requires IsRun(r.app, acts) && Without(acts, r.u)
    ensures IsRunOf(r, Lifted(acts)) && AfterAll(r, Lifted(acts)) == r.(app := After(r.app, acts))
    decreases |acts|
  {
    hide Can, Do;
    if acts != [] {
      assert acts[0] != ShutStep(r.u, CallShutdown);
      assert Lifted(acts)[1..] == Lifted(acts[1..]);
      AppSteps(r.(app := Do(r.app, acts[0])), acts[1..]);
    }
  }

  lemma {:induction false} RunsOfJoin(r: Caller, first: seq<Step>, rest: seq<Step>)
    requires IsRunOf(r, first) && IsRunOf(AfterAll(r, first), rest)
    ensures IsRunOf(r, first + rest) && AfterAll(r, first + rest) == AfterAll(AfterAll(r, first), rest)
    decreases |first|
  {
    hide Able, Moved;
    if first == [] {
      assert first + rest == rest;
    } else {
      assert (first + rest)[0] == first[0] && (first + rest)[1..] == first[1..] + rest;
      RunsOfJoin(Moved(r, first[0]), first[1..], rest);
    }
  }

  lemma ComesStep(start: Caller, r: Caller, x: Step) returns (r': Caller)
    requires Comes(start, r) && Able(r, x)
    ensures r' == Moved(r, x) && Comes(start, r')
  {
    hide Able, Moved;
    r' := Moved(r, x);
    var steps :| IsRunOf(start, steps) && AfterAll(start, steps) == r;
    assert IsRunOf(r, [x]) && AfterAll(r, [x]) == r' by {
      assert [x][1..] == [];
    }
    RunsOfJoin(start, steps, [x]);
  }

  lemma ComesItself(r: Caller)
    ensures Comes(r, r)
  {
    assert IsRunOf(r, []) && AfterAll(r, []) == r;
  }

  lemma {:induction false} SameCalls(r: Caller, steps: seq<Step>)
    requires IsRunOf(r, steps)
    ensures AfterAll(r, steps).u == r.u
    decreases |steps|
  {
    hide Able, Do;
    if steps != [] {
      SameCalls(Moved(r, steps[0]), steps[1..]);
    }
  }
}
