/** What a Shutdown may wait for, and what it gets by being the only one; and what becomes of
    a listener that is never served. */
module LifecycleProgress {
  import opened Options
  import opened Lifecycle
  import opened LifecycleInv
  import opened LifecycleSafety

  // ----- nobody is stuck

  /** The call waits for another call inside drainOnce, or, unless its context has ended, for
      the delay, for its turn, or for what is still open. */
  ghost predicate Waits(s: State, t: Tid)
    requires t in s.shuts
  {
    var u := s.shuts[t];
    || (u.pc.SOnce? && s.drain.once.Running?)
    || (!u.ctxDone && u.pc.SDelay? && s.drain.delayed && !s.drain.elapsed)
    || (!u.ctxDone && u.pc.SWait? && s.turn.Some?)
    || (!u.ctxDone && Draining(u.pc) && !NothingOpen(s))
  }

  /** A Shutdown that has not returned and does not wait can take a step of its own. */
  lemma ShutdownGoesOn(s: State, t: Tid) returns (x: ShutAct)
    requires Reachable(s) && t in s.shuts && !s.shuts[t].pc.SReturned? && !Waits(s, t)
    ensures CanShut(s, t, x) && !x.CtxEnds?
  {
    hide Inv, Reachable, NothingOpen;
    ReachableInv(s);
    HooksAreFree(s, t);
    var u := s.shuts[t];
    if Opening(u.pc) {
      x := OpeningGoesOn(s, t);
      return;
    }
    match u.pc
    case SLook => x := if s.net.recorded == {} then LookNone else LookSome;
    case SDrain => x := if u.ctxDone then DrainTimesOut else Drained;
    case SCloseLn => x := if u.ln.Some? then CloseListener else NoListener;
    case SLookAgain => x := if s.net.recorded == {} then LookNone else LookSome;
    case SDrainAgain => x := if u.ctxDone then DrainTimesOut else Drained;
    case CLock => x := LockConns;
    case CCancel => x := CancelBase;
    case CClose => x := ClosesOn(s, t);
    case SHooks => x := if s.hook.once.NotRun? then BeginHooks else HooksOver;
    case SHookRun(left) => x := if left > 0 then RunHook(false) else EndHooks;
    case SHooksEnd => x := EndHooks;
    case SRelease => x := Release;
    case _ => assert false;
  }

  lemma OpeningGoesOn(s: State, t: Tid) returns (x: ShutAct)
    requires t in s.shuts && Opening(s.shuts[t].pc) && !Waits(s, t)
    ensures CanShut(s, t, x) && !x.CtxEnds?
  {
    hide NothingOpen;
    match s.shuts[t].pc
    case SStart => x := MarkClosed;
    case SStreams => x := CancelStreams;
    case SOnce => x := if s.drain.once.NotRun? then DrainOnce else DrainSkip;
    case SSwap => x := Swap;
    case SDraining => x := SetDraining;
    case SDrainEnd => x := SetDrainEnd;
    case SDelay => x := DelayOver;
    case STry => x := if s.turn.None? then TryTurn else TurnTaken;
    case SWait => x := if s.turn.None? then WaitTurn else GiveUp;
  }

  lemma HooksAreFree(s: State, t: Tid)
    requires Inv(s) && t in s.shuts
    ensures s.shuts[t].pc.SHooks? ==> !s.hook.once.Running?
  {
    hide GateOk, ListenOk, OpeningOk, TurnOk, TrackOk, CloseOk, LookOk, LookedOk, DelayOk, ResultOk, DrainOk;
    InItsTurn(s, t);
    if s.hook.once.Running? && s.hook.once.owner in s.shuts {
      InItsTurn(s, s.hook.once.owner);
    }
  }

  lemma InItsTurn(s: State, t: Tid)
    requires Inv(s) && t in s.shuts
    ensures s.shuts[t].pc.SHooks? || Hooking(s.shuts[t].pc) ==> s.turn == Some(t)
  {
    hide GateOk, ListenOk, OpeningOk, HookOk, TrackOk, CloseOk, LookOk, LookedOk, DelayOk, ResultOk, DrainOk;
    assert TurnAt(s.turn, t, s.shuts[t], s.net.busy);
  }

  lemma ClosesOn(s: State, t: Tid) returns (x: ShutAct)
    requires Inv(s) && t in s.shuts && s.shuts[t].pc.CClose?
    ensures CanShut(s, t, x) && !x.CtxEnds?
  {
    hide GateOk, ListenOk, OpeningOk, TurnOk, HookOk, TrackOk, LookOk, LookedOk, DelayOk, ResultOk, DrainOk, ForcedOk;
    var u := s.shuts[t];
    assert CloseAt(s.net, u, s.cancelled, s.forced);
    if u.pending == {} {
      x := CloseDone;
    } else {
      var c :| c in u.pending;
      x := CloseOne(c);
    }
  }

  /** So one whose context has ended waits at most for a call inside drainOnce, and that call
      waits for nobody. */
  lemma EndedWaitsForTheOnce(s: State, t: Tid) returns (o: Tid, x: ShutAct)
    requires Reachable(s) && t in s.shuts && s.shuts[t].ctxDone && Waits(s, t)
    ensures o in s.shuts && InOnce(s.shuts[o].pc) && CanShut(s, o, x) && !x.CtxEnds?
  {
    hide GateOk, ListenOk, TurnOk, HookOk, TrackOk, CloseOk, LookOk, LookedOk, DelayOk, ResultOk, DrainOk, Reachable;
    ReachableInv(s);
    o := s.drain.once.owner;
    x := ShutdownGoesOn(s, o);
  }

  /** How far a call is from its return. */
  function Stage(pc: ShutPc): nat {
    match pc
    case SStart => 21 case SStreams => 20 case SOnce => 19 case SSwap => 18 case SDraining => 17
    case SDrainEnd => 16 case SDelay => 15 case STry => 14 case SWait => 13 case SLook => 12
    case SDrain => 11 case SCloseLn => 10 case SLookAgain => 9 case SDrainAgain => 8
    case CLock => 7 case CCancel => 6 case CClose => 5
    case SHooks => 4 case SHookRun(_) => 3 case SHooksEnd => 2 case SRelease => 1 case SReturned => 0
  }

  /** What is left to do in a loop. */
  function Left(u: Shut): nat {
    if u.pc.CClose? then |u.pending| else if u.pc.SHookRun? then u.pc.left else 0
  }

  /** Every step of its own brings a call nearer to its return. */
  lemma EveryStepIsNearer(s: State, t: Tid, x: ShutAct)
    requires t in s.shuts && CanShut(s, t, x) && !x.CtxEnds?
    ensures var u, v := s.shuts[t], Do(s, ShutStep(t, x)).shuts[t];
      Stage(v.pc) < Stage(u.pc) || (Stage(v.pc) == Stage(u.pc) && Left(v) < Left(u))
  {
    hide GateAfterShut, NetAfterShut, DrainAfter, HookAfter, TurnAfter, EndsClean, Finds, Allows, NextShutPc;
    NextStage(s.shuts[t], s.hook.total, x);
    if x.CloseOne? {
      var pending := s.shuts[t].pending;
      assert |pending - {x.c}| == |pending| - 1;
    }
  }

  lemma NextStage(u: Shut, total: nat, x: ShutAct)
    requires Allows(u, x) && !x.CtxEnds? && !x.CallShutdown?
    ensures var pc := NextShutPc(u.pc, u.holds, total, x);
      if x.CloseOne? then pc == u.pc && pc.CClose? && x.c in u.pending
      else Stage(pc) < Stage(u.pc) || (pc.SHookRun? && u.pc.SHookRun? && pc.left < u.pc.left)
  {
  }

  /** And nothing anyone else does takes it back, or gives it more to do. */
  lemma OthersLeaveItThere(s: State, t: Tid, a: Act)
    requires t in s.shuts && Can(s, a) && !(a.ShutStep? && a.t == t)
    ensures t in Do(s, a).shuts && Do(s, a).shuts[t] == s.shuts[t]
  {
    hide GateAfter, NetAfter, NetAfterConn, GateAfterShut, NetAfterShut, DrainAfter, HookAfter, TurnAfter, EndsClean;
    hide Finds, Allows;
  }

  /** A Serve that has not returned can go on, except that the transport may hold it back
      while a ShutdownWithContext is under way. */
  lemma ServeGoesOn(s: State, v: Tid) returns (x: ServeAct)
    requires v in s.gate.serves && !s.gate.serves[v].VDone? && !(s.gate.serves[v].VRecord? && s.net.busy)
    ensures CanServe(s, v, x) && !x.Accept?
  {
    match s.gate.serves[v]
    case VEnter => x := if s.gate.closed || s.gate.serving.Some? then Refuse else EnterBody;
    case VBail => x := CloseOwn;
    case VStart => x := StartHooks(true);
    case VBailBody => x := CloseOwn;
    case VPublish => x := if s.gate.closed then PublishLate else Publish;
    case VRecord => x := Record;
    case VCount => x := Count;
    case VAccept => x := AcceptFails;
    case VUnready => x := Unready;
    case VUnserve => x := Unserve;
  }

  // ----- the turn

  /** It found the turn taken, or gave up on it. */
  predicate TurnedAway(u: Shut) {
    u.pc.SWait? || (!u.holds && (Closing(u.pc) || u.pc.SReturned?))
  }

  ghost predicate NotAlone(s: State) {
    forall t :: t in s.shuts && TurnedAway(s.shuts[t]) ==> exists o :: o in s.shuts && o != t
  }

  lemma StepKeepsNotAlone(s: State, a: Act)
    requires Reachable(s) && Can(s, a) && NotAlone(s)
    ensures NotAlone(Do(s, a))
  {
    hide Can, Do, Reachable, TurnedAway;
    var s' := Do(s, a);
    forall t | t in s'.shuts && TurnedAway(s'.shuts[t]) ensures exists o :: o in s'.shuts && o != t {
      if t in s.shuts && TurnedAway(s.shuts[t]) {
        var o :| o in s.shuts && o != t;
        CallsStayThere(s, a, o);
      } else {
        var o := TurnedAwayBy(s, a, t);
        CallsStayThere(s, a, o);
      }
    }
  }

  lemma CallsStayThere(s: State, a: Act, o: Tid)
    requires Can(s, a) && o in s.shuts
    ensures o in Do(s, a).shuts
  {
    hide GateAfter, NetAfter, NetAfterConn, GateAfterShut, NetAfterShut, DrainAfter, HookAfter, TurnAfter, EndsClean;
    hide Finds, Allows, ShutAfter;
  }

  /** A call is turned away by another that has the turn. */
  lemma TurnedAwayBy(s: State, a: Act, t: Tid) returns (o: Tid)
    requires Reachable(s) && Can(s, a) && t in Do(s, a).shuts && TurnedAway(Do(s, a).shuts[t])
    requires t in s.shuts ==> !TurnedAway(s.shuts[t])
    ensures o in s.shuts && o != t
  {
    hide GateAfter, NetAfter, NetAfterConn, GateAfterShut, NetAfterShut, DrainAfter, HookAfter, TurnAfter, EndsClean;
    hide Inv, Finds, Reachable;
    ReachableInv(s);
    assert a.ShutStep? && a.t == t;
    HoldsItsTurn(s, t);
    OnlyTurnTaken(s, Mover(s, t), a.shut);
    o := TurnHolder(s, t);
  }

  lemma HoldsItsTurn(s: State, t: Tid)
    requires Inv(s) && t in s.shuts
    ensures !Opening(s.shuts[t].pc) && !Closing(s.shuts[t].pc) && !s.shuts[t].pc.SReturned? ==> s.shuts[t].holds
  {
    hide GateOk, ListenOk, OpeningOk, HookOk, TrackOk, CloseOk, LookOk, LookedOk, DelayOk, ResultOk, DrainOk;
    assert TurnAt(s.turn, t, s.shuts[t], s.net.busy);
  }

  lemma OnlyTurnTaken(s: State, u: Shut, x: ShutAct)
    requires Allows(u, x) && !TurnedAway(u) && TurnedAway(ShutAfter(s, u, x))
    requires !Opening(u.pc) && !Closing(u.pc) && !u.pc.SReturned? ==> u.holds
    ensures x.TurnTaken?
  {
  }

  lemma TurnHolder(s: State, t: Tid) returns (o: Tid)
    requires Inv(s) && CanShut(s, t, TurnTaken)
    ensures o in s.shuts && o != t
  {
    hide GateOk, ListenOk, OpeningOk, HookOk, TrackOk, CloseOk, LookOk, LookedOk, DelayOk, ResultOk, DrainOk;
    assert TurnAt(s.turn, t, s.shuts[t], s.net.busy);
    o := s.turn.value;
  }

  lemma {:induction false} RunKeepsNotAlone(s: State, acts: seq<Act>)
    requires Reachable(s) && IsRun(s, acts) && NotAlone(s)
    ensures NotAlone(After(s, acts))
    decreases |acts|
  {
    hide Can, Do, NotAlone, Reachable;
    if acts != [] {
      StepKeepsNotAlone(s, acts[0]);
      OneStep(s, acts[0]);
      RunKeepsNotAlone(Do(s, acts[0]), acts[1..]);
    }
  }

  /** The only Shutdown there is takes its turn, even when its context has ended before: it
      returns with the hooks run, and with its listener closed unless it missed it. */
  lemma OnlyShutdownTakesItsTurn(s: State, t: Tid)
    requires Reachable(s) && s.shuts.Keys == {t} && s.shuts[t].pc.SReturned?
    ensures s.shuts[t].holds && s.hook.done
    ensures s.shuts[t].ln.Some? && !Missed(s.shuts[t]) ==> s.shuts[t].ln.value !in s.net.open
  {
    hide IsRun, After, Inv;
    var hooks: nat, delay: bool, acts: seq<Act> :|
      IsRun(Init(hooks, delay), acts) && s == After(Init(hooks, delay), acts);
    FreshIsReachable(hooks, delay);
    RunKeepsNotAlone(Init(hooks, delay), acts);
    assert forall o :: o in s.shuts ==> o in s.shuts.Keys;
    assert !TurnedAway(s.shuts[t]);
    ReturnedHow(s, t);
    if s.shuts[t].ln.Some? {
      NoSteps(s);
      ListenerClosedUnlessMissed(s, t, []);
    }
  }

  lemma FreshIsReachable(hooks: nat, delay: bool)
    ensures Reachable(Init(hooks, delay))
  {
    NoSteps(Init(hooks, delay));
  }

  lemma NoSteps(s: State)
    ensures IsRun(s, []) && After(s, []) == s
  {
  }

  // ----- force

  /** A call times out, and closes connections by force, only after its context has ended. */
  ghost predicate InTime(s: State) {
    && (forall t :: t in s.shuts && (s.shuts[t].timeout || Closing(s.shuts[t].pc)) ==> s.shuts[t].ctxDone)
    && (s.net.forceClosed || s.cancelled || s.forced ==> SomeEnded(s.shuts))
  }

  ghost predicate SomeEnded(shuts: map<Tid, Shut>) {
    exists t :: t in shuts && shuts[t].ctxDone
  }

  lemma StepKeepsInTime(s: State, a: Act)
    requires Can(s, a) && InTime(s)
    ensures InTime(Do(s, a))
  {
    var s' := Do(s, a);
    if a.ShutStep? {
      hide GateAfterShut, DrainAfter, HookAfter, TurnAfter, EndsClean, Finds, Allows, NextShutPc;
      OwnTime(s, Mover(s, a.t), a.shut);
      if SomeEnded(s.shuts) {
        var o :| o in s.shuts && s.shuts[o].ctxDone;
        assert o in s'.shuts && s'.shuts[o].ctxDone;
      }
      if s'.shuts[a.t].ctxDone {
        assert SomeEnded(s'.shuts);
      }
    } else {
      hide GateAfter, NetAfter, NetAfterConn, CanServe, CanConn;
      SameForce(s, a);
    }
  }

  lemma OwnTime(s: State, u: Shut, x: ShutAct)
    requires Allows(u, x) && (u.timeout || Closing(u.pc) ==> u.ctxDone)
    ensures var v := ShutAfter(s, u, x);
      && (u.ctxDone ==> v.ctxDone) && (v.timeout || Closing(v.pc) ==> v.ctxDone)
      && (x.LockConns? || x.CancelBase? || x.CloseDone? ==> v.ctxDone)
  {
  }

  lemma SameForce(s: State, a: Act)
    requires Can(s, a) && !a.ShutStep?
    ensures var s' := Do(s, a);
      && s'.shuts == s.shuts && s'.net.forceClosed == s.net.forceClosed
      && s'.cancelled == s.cancelled && s'.forced == s.forced
  {
    hide GateAfter, ConnAfter;
  }

  lemma {:induction false} RunKeepsInTime(s: State, acts: seq<Act>)
    requires IsRun(s, acts) && InTime(s)
    ensures InTime(After(s, acts))
    decreases |acts|
  {
    hide Can, Do, InTime;
    if acts != [] {
      StepKeepsInTime(s, acts[0]);
      RunKeepsInTime(Do(s, acts[0]), acts[1..]);
    }
  }

  /** While every context is live nothing is closed by force, the base context is not
      cancelled, and no call that has returned reports a timeout: all of them have drained. */
  lemma NoForceInTime(s: State)
    requires Reachable(s) && forall t :: t in s.shuts ==> !s.shuts[t].ctxDone
    ensures !s.net.forceClosed && !s.cancelled && !s.forced
    ensures forall t :: t in s.shuts ==> !s.shuts[t].timeout
    ensures forall t :: t in s.shuts && s.shuts[t].pc.SReturned? ==> s.clean && s.hook.done
  {
    hide IsRun, After, Inv;
    var hooks: nat, delay: bool, acts: seq<Act> :|
      IsRun(Init(hooks, delay), acts) && s == After(Init(hooks, delay), acts);
    RunKeepsInTime(Init(hooks, delay), acts);
    forall t | t in s.shuts && s.shuts[t].pc.SReturned? ensures s.clean && s.hook.done {
      ResultSays(s, t);
    }
  }

  // ----- a Serve that does not serve

  /** It has been refused or has failed to start, and is about to close its listener; or it
      has closed it. */
  predicate Bails(s: State, v: Tid) {
    && v in s.gate.serves
    && if s.gate.serves[v].VBail? || s.gate.serves[v].VBailBody? then true else
         && v !in s.net.open
         && (s.gate.serves[v].VUnready? || s.gate.serves[v].VUnserve? || s.gate.serves[v].VDone?)
  }

  lemma StepKeepsBails(s: State, v: Tid, a: Act)
    requires Bails(s, v) && Can(s, a)
    ensures Bails(Do(s, a), v)
  {
    hide DrainAfter, HookAfter, TurnAfter, ShutAfter, EndsClean, Finds, Allows, ConnAfter;
  }

  lemma {:induction false} RunKeepsBails(s: State, v: Tid, acts: seq<Act>)
    requires Bails(s, v) && IsRun(s, acts)
    ensures Bails(After(s, acts), v)
    decreases |acts|
  {
    hide Can, Do, Bails;
    if acts != [] {
      StepKeepsBails(s, v, acts[0]);
      RunKeepsBails(Do(s, acts[0]), v, acts[1..]);
    }
  }

  /** A Serve that is refused, fails to start or comes too late serves nothing, and has closed
      its listener when it returns. */
  lemma UnservedIsClosed(s: State, v: Tid, x: ServeAct, acts: seq<Act>)
    requires CanServe(s, v, x) && (x == Refuse || x == StartHooks(false) || x == PublishLate)
    requires IsRun(s, [ServeStep(v, x)] + acts)
    ensures var s' := After(s, [ServeStep(v, x)] + acts);
      && v in s'.gate.serves && !PastPublish(s'.gate.serves[v])
      && (s'.gate.serves[v].VDone? ==> v !in s'.net.open)
  {
    assert ([ServeStep(v, x)] + acts)[1..] == acts;
    RunKeepsBails(Do(s, ServeStep(v, x)), v, acts);
  }
}
