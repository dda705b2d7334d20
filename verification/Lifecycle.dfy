/** Serving and shutting down, as one step system.

    Any number of Serve, Shutdown and connection goroutines interleave.  Each takes one
    step at a time: a critical section, an atomic access, a channel operation or one call
    into the transport.  The transport is an abstract machine that does what server.go and
    conns.go say they rely on:

    - Serve records its listener before it accepts, never while a ShutdownWithContext is
      under way, and counts itself as open from before its first accept until it returns;
      it accepts only while the listener is open.  A Serve that stops on its own leaves its
      listener recorded.
    - ShutdownWithContext with no recorded listener returns nil at once.  Otherwise it
      closes every recorded listener and waits until nothing is open or its context ends;
      either way it then forgets the listeners.
    - A connection is open from its accept until its goroutine has left.  StateNew is
      reported before it is first read. */
module Lifecycle {
  import opened Options

  type Tid = nat
  type Cid = nat

  // ----- program counters

  datatype ServePc =
    | VEnter      // Serve called; the first critical section is next
    | VBail       // refused: close the listener and return
    | VStart      // OnStart hooks are running
    | VBailBody   // failed to start: close the listener and unwind
    | VPublish    // the second critical section is next
    | VRecord     // calling the transport, which has not recorded the listener yet
    | VCount      // recorded, not yet counted as open
    | VAccept     // accepting
    | VUnready    // unwinding: ready is cleared next
    | VUnserve    // unwinding: serving is cleared next
    | VDone

  datatype ShutPc =
    | SStart            // the critical section that sets closed is next
    | SStreams          // cancel open streams
    | SOnce             // drainOnce.Do
    | SSwap             // in the once: ready is swapped off next
    | SDraining         // in the once: draining is set next
    | SDrainEnd         // in the once: the delay's end is set next
    | SDelay            // waiting out the drain delay
    | STry              // first select for the turn
    | SWait             // second select for the turn, or the context
    | SLook             // first ShutdownWithContext: looks for listeners next
    | SDrain            // first ShutdownWithContext: draining
    | SCloseLn          // close the listener seen at the start
    | SLookAgain        // second ShutdownWithContext: looks for listeners next
    | SDrainAgain       // second ShutdownWithContext: draining
    | CLock             // closeConns: the critical section is next
    | CCancel           // closeConns: cancel the base context
    | CClose            // closeConns: closing what was tracked
    | SHooks            // shutdownOnce.Do
    | SHookRun(left: nat)
    | SHooksEnd         // close shutdownDone
    | SRelease          // give the turn back
    | SReturned

  datatype Once = NotRun | Running(owner: Tid) | Done

  /** One Shutdown call and its locals. */
  datatype Shut = Shut(
    pc: ShutPc,
    ln: Option<Tid>,        // the listener published when it set closed
    ctxDone: bool,
    holds: bool,            // whether it took the turn
    looked: set<Tid>,       // the listeners its first drain found recorded
    timedOut: bool,         // whether its first drain ended with its context
    wasReady: bool,
    copy: set<Cid>,         // the connections closeConns copied
    pending: set<Cid>,      // and those of them it has yet to close
    timeout: bool)          // whether it will return ErrShutdownTimeout

  datatype Phase =
    | New         // accepted, StateNew not reported yet
    | Rejecting   // reported after force-close: to be closed
    | Refused     // closed on arrival
    | Live        // reported, tracked, being served
    | Ended       // its goroutine has finished serving
    | Left        // StateClosed reported
    | Hijacked
    | Gone

  datatype Conn = Conn(phase: Phase, closed: bool)

  /** What a.mu guards, and ready. A listener is named by the Serve call it was passed to. */
  datatype Gate = Gate(
    closed: bool,
    serving: Option<Tid>,     // serving, and who set it
    published: Option<Tid>,   // ln
    ready: bool,
    swapped: bool,            // the first drain step, which takes ready away, is done
    serves: map<Tid, ServePc>)

  /** The transport, and the connections rice tracks. */
  datatype Net = Net(
    open: set<Tid>,           // listeners that still accept
    recorded: set<Tid>,       // listeners the transport knows
    busy: bool,               // a ShutdownWithContext is under way
    cleared: bool,            // some ShutdownWithContext has looked
    conns: map<Cid, Conn>,
    tracked: set<Cid>,
    forceClosed: bool)

  datatype Drain = Drain(once: Once, draining: bool, delayed: bool, elapsed: bool)

  datatype Hook = Hook(total: nat, once: Once, started: bool, ran: seq<nat>, panicked: bool, done: bool)

  datatype State = State(
    delay: bool,
    gate: Gate, net: Net, drain: Drain, hook: Hook,
    turn: Option<Tid>,
    shuts: map<Tid, Shut>,
    cancelled: bool,          // the base context
    forced: bool,             // some force-close has run to its end
    clean: bool)              // some turn has drained to its end

  function Init(hooks: nat, delay: bool): State {
    State(delay,
          Gate(false, None, None, false, false, map[]),
          Net({}, {}, false, false, map[], {}, false),
          Drain(NotRun, false, false, false),
          Hook(hooks, NotRun, false, [], false, false),
          None, map[], false, false, false)
  }

  // ----- what is open

  predicate Counted(p: Phase) {
    p.New? || p.Rejecting? || p.Refused? || p.Live? || p.Ended? || p.Left?
  }

  /** Nothing the transport counts: no connection, no Serve loop. */
  ghost predicate NothingOpen(s: State) {
    && (forall c :: c in s.net.conns ==> !Counted(s.net.conns[c].phase))
    && (forall v :: v in s.gate.serves ==> !s.gate.serves[v].VAccept?)
  }

  // ----- Serve

  datatype ServeAct =
    | CallServe
    | Refuse          // closed, or already serving
    | EnterBody       // sets serving
    | StartHooks(ok: bool)
    | CloseOwn        // close a listener that will not be served
    | Publish         // ln and ready, under one lock with the check of closed
    | PublishLate     // Shutdown came first
    | Record
    | Count
    | Accept(c: Cid)
    | AcceptFails
    | Unready
    | Unserve

  predicate CanServe(s: State, t: Tid, a: ServeAct) {
    if a.CallServe? then t !in s.gate.serves
    else
      && t in s.gate.serves
      && var pc := s.gate.serves[t];
         match a
         case CallServe => true
         case Refuse => pc.VEnter? && (s.gate.closed || s.gate.serving.Some?)
         case EnterBody => pc.VEnter? && !s.gate.closed && s.gate.serving.None?
         case StartHooks(_) => pc.VStart?
         case CloseOwn => pc.VBail? || pc.VBailBody?
         case Publish => pc.VPublish? && !s.gate.closed
         case PublishLate => pc.VPublish? && s.gate.closed
         case Record => pc.VRecord? && !s.net.busy
         case Count => pc.VCount?
         case Accept(c) => pc.VAccept? && t in s.net.open && c !in s.net.conns
         case AcceptFails => pc.VAccept?
         case Unready => pc.VUnready?
         case Unserve => pc.VUnserve?
  }

  function NextServePc(pc: ServePc, a: ServeAct): ServePc {
    match a
    case CallServe => VEnter
    case Refuse => VBail
    case EnterBody => VStart
    case StartHooks(ok) => if ok then VPublish else VBailBody
    case CloseOwn => if pc.VBail? then VDone else VUnready
    case Publish => VRecord
    case PublishLate => VBailBody
    case Record => VCount
    case Count => VAccept
    case Accept(_) => VAccept
    case AcceptFails => VUnready
    case Unready => VUnserve
    case Unserve => VDone
  }

  function GateAfter(g: Gate, t: Tid, a: ServeAct): Gate {
    Gate(g.closed,
         if a.EnterBody? then Some(t) else if a.Unserve? then None else g.serving,
         if a.Publish? then Some(t) else g.published,
         a.Publish? || (g.ready && !a.Unready?),
         g.swapped,
         g.serves[t := NextServePc(if t in g.serves then g.serves[t] else VEnter, a)])
  }

  function NetAfter(n: Net, t: Tid, a: ServeAct): Net {
    n.(open := if a.CallServe? then n.open + {t} else if a.CloseOwn? then n.open - {t} else n.open,
       recorded := if a.Record? then n.recorded + {t} else n.recorded,
       conns := if a.Accept? then n.conns[a.c := Conn(New, false)] else n.conns)
  }

  // ----- connections: connState, and what the transport does to them

  datatype ConnAct =
    | Report          // StateNew: tracked
    | ReportLate      // StateNew after force-close: to be closed
    | Reject          // closed on arrival
    | IdleClose       // the drain closes an idle connection
    | End             // its goroutine finishes serving
    | Untrack         // StateClosed
    | Leave           // no longer counted as open
    | Hijack          // StateHijacked

  predicate CanConn(s: State, c: Cid, a: ConnAct) {
    && c in s.net.conns
    && var p := s.net.conns[c].phase;
       match a
       case Report => p.New? && !s.net.forceClosed
       case ReportLate => p.New? && s.net.forceClosed
       case Reject => p.Rejecting?
       case IdleClose => p.Live? && s.net.busy
       case End => p.Live? || p.Refused?
       case Untrack => p.Ended?
       case Leave => p.Left?
       case Hijack => p.Live?
  }

  function ConnAfter(k: Conn, a: ConnAct): Conn {
    match a
    case Report => k.(phase := Live)
    case ReportLate => k.(phase := Rejecting)
    case Reject => Conn(Refused, true)
    case IdleClose => k.(closed := true)
    case End => Conn(Ended, true)
    case Untrack => k.(phase := Left)
    case Leave => k.(phase := Gone)
    case Hijack => k.(phase := Hijacked)
  }

  function NetAfterConn(n: Net, c: Cid, a: ConnAct): Net
    requires c in n.conns
  {
    var conns := n.conns[c := ConnAfter(n.conns[c], a)];
    match a
    case Report => n.(tracked := n.tracked + {c}, conns := conns)
    case Untrack => n.(tracked := n.tracked - {c}, conns := conns)
    case Hijack => n.(tracked := n.tracked - {c}, conns := conns)
    case _ => n.(conns := conns)
  }

  // ----- Shutdown

  datatype ShutAct =
    | CallShutdown
    | CtxEnds
    | MarkClosed
    | CancelStreams
    | DrainOnce       // runs the once
    | DrainSkip       // the once has run
    | Swap
    | SetDraining
    | SetDrainEnd
    | DelayOver
    | TryTurn
    | TurnTaken       // the first select finds the turn taken
    | WaitTurn
    | GiveUp          // the context ends while waiting
    | LookNone        // ShutdownWithContext finds no listener
    | LookSome
    | Drained
    | DrainTimesOut
    | CloseListener
    | NoListener      // nothing was published when closed was set
    | LockConns
    | CancelBase
    | CloseOne(c: Cid)
    | CloseDone
    | BeginHooks
    | HooksOver       // the hooks have run before
    | RunHook(panics: bool)
    | EndHooks
    | Release

  function NewShut(): Shut {
    Shut(SStart, None, false, false, {}, false, false, {}, {}, false)
  }

  /** What a call's own locals let it do next. */
  predicate Allows(u: Shut, a: ShutAct) {
    match a
    case CallShutdown => u == NewShut()
    case CtxEnds => true
    case MarkClosed => u.pc.SStart?
    case CancelStreams => u.pc.SStreams?
    case DrainOnce => u.pc.SOnce?
    case DrainSkip => u.pc.SOnce?
    case Swap => u.pc.SSwap?
    case SetDraining => u.pc.SDraining?
    case SetDrainEnd => u.pc.SDrainEnd?
    case DelayOver => u.pc.SDelay?
    case TryTurn => u.pc.STry?
    case TurnTaken => u.pc.STry?
    case WaitTurn => u.pc.SWait?
    case GiveUp => u.pc.SWait? && u.ctxDone
    case LookNone => u.pc.SLook? || u.pc.SLookAgain?
    case LookSome => u.pc.SLook? || u.pc.SLookAgain?
    case Drained => u.pc.SDrain? || u.pc.SDrainAgain?
    case DrainTimesOut => (u.pc.SDrain? || u.pc.SDrainAgain?) && u.ctxDone
    case CloseListener => u.pc.SCloseLn? && u.ln.Some?
    case NoListener => u.pc.SCloseLn? && u.ln.None?
    case LockConns => u.pc.CLock?
    case CancelBase => u.pc.CCancel?
    case CloseOne(c) => u.pc.CClose? && c in u.pending
    case CloseDone => u.pc.CClose? && u.pending == {}
    case BeginHooks => u.pc.SHooks?
    case HooksOver => u.pc.SHooks?
    case RunHook(_) => u.pc.SHookRun? && u.pc.left > 0
    case EndHooks => u.pc.SHooksEnd? || u.pc == SHookRun(0)
    case Release => u.pc.SRelease?
  }

  /** What the step finds in the state it shares: a once run or not, the turn free or
      taken, listeners recorded or none, nothing open. */
  ghost predicate Finds(s: State, u: Shut, a: ShutAct) {
    match a
    case DrainOnce => s.drain.once.NotRun?
    case DrainSkip => s.drain.once.Done?
    case DelayOver => !s.drain.delayed || s.drain.elapsed || u.ctxDone
    case TryTurn => s.turn.None?
    case TurnTaken => s.turn.Some?
    case WaitTurn => s.turn.None?
    case LookNone => s.net.recorded == {}
    case LookSome => s.net.recorded != {}
    case Drained => NothingOpen(s)
    case CloseOne(c) => c in s.net.conns
    case BeginHooks => s.hook.once.NotRun?
    case HooksOver => s.hook.once.Done?
    case _ => true
  }

  /** The call that takes a step, before it. */
  function Mover(s: State, t: Tid): Shut {
    if t in s.shuts then s.shuts[t] else NewShut()
  }

  ghost predicate CanShut(s: State, t: Tid, a: ShutAct) {
    && (t in s.shuts <==> !a.CallShutdown?)
    && Allows(Mover(s, t), a)
    && Finds(s, Mover(s, t), a)
  }

  function NextShutPc(pc: ShutPc, holds: bool, total: nat, a: ShutAct): ShutPc {
    match a
    case CallShutdown => SStart
    case CtxEnds => pc
    case MarkClosed => SStreams
    case CancelStreams => SOnce
    case DrainOnce => SSwap
    case DrainSkip => SDelay
    case Swap => SDraining
    case SetDraining => SDrainEnd
    case SetDrainEnd => SDelay
    case DelayOver => STry
    case TryTurn => SLook
    case TurnTaken => SWait
    case WaitTurn => SLook
    case GiveUp => CLock
    case LookNone => if pc.SLook? then SCloseLn else SHooks
    case LookSome => if pc.SLook? then SDrain else SDrainAgain
    case Drained => if pc.SDrain? then SCloseLn else SHooks
    case DrainTimesOut => CLock
    case CloseListener => SLookAgain
    case NoListener => SHooks
    case LockConns => CCancel
    case CancelBase => CClose
    case CloseOne(_) => pc
    case CloseDone => if holds then SHooks else SReturned
    case BeginHooks => SHookRun(total)
    case HooksOver => SRelease
    case RunHook(panics) => if panics || !pc.SHookRun? || pc.left == 0 then SHooksEnd else SHookRun(pc.left - 1)
    case EndHooks => SRelease
    case Release => SReturned
  }

  /** Where the call goes next, and its other locals. */
  function ShutAfter(s: State, u: Shut, a: ShutAct): Shut {
    Shut(NextShutPc(u.pc, u.holds, s.hook.total, a),
         if a.MarkClosed? then s.gate.published else u.ln,
         u.ctxDone || a.CtxEnds?,
         u.holds || a.TryTurn? || a.WaitTurn?,
         if a.LookSome? && u.pc.SLook? then s.net.recorded else u.looked,
         if a.DrainTimesOut? then u.pc.SDrain? else u.timedOut,
         if a.Swap? then s.gate.ready else u.wasReady,
         if a.LockConns? then s.net.tracked else u.copy,
         if a.LockConns? then s.net.tracked else if a.CloseOne? then u.pending - {a.c} else u.pending,
         u.timeout || a.DrainTimesOut? || a.GiveUp?)
  }

  function GateAfterShut(g: Gate, a: ShutAct): Gate {
    g.(closed := g.closed || a.MarkClosed?, ready := g.ready && !a.Swap?, swapped := g.swapped || a.Swap?)
  }

  function DrainAfter(d: Drain, t: Tid, u: Shut, delay: bool, a: ShutAct): Drain {
    match a
    case DrainOnce => d.(once := Running(t))
    case SetDraining => d.(draining := true)
    case SetDrainEnd => d.(once := Done, delayed := u.wasReady && delay)
    case _ => d
  }

  /** A ShutdownWithContext that finds listeners closes them all at once, and forgets them
      when it returns. */
  function NetAfterShut(n: Net, u: Shut, a: ShutAct): Net {
    Net(if a.LookSome? then n.open - n.recorded
        else if a.CloseListener? && u.ln.Some? then n.open - {u.ln.value}
        else n.open,
        if a.Drained? || a.DrainTimesOut? then {} else n.recorded,
        a.LookSome? || (n.busy && !a.Drained? && !a.DrainTimesOut?),
        n.cleared || a.LookNone? || a.LookSome?,
        if a.CloseOne? && a.c in n.conns then n.conns[a.c := n.conns[a.c].(closed := true)] else n.conns,
        n.tracked,
        n.forceClosed || a.LockConns?)
  }

  function HookAfter(h: Hook, t: Tid, u: Shut, a: ShutAct): Hook {
    match a
    case BeginHooks => h.(once := Running(t), started := true)
    case RunHook(panics) =>
      if u.pc.SHookRun? && u.pc.left > 0 then
        h.(ran := h.ran + [u.pc.left - 1], panicked := h.panicked || panics)
      else h
    case EndHooks => h.(once := Done, done := true)
    case _ => h
  }

  function TurnAfter(turn: Option<Tid>, t: Tid, a: ShutAct): Option<Tid> {
    match a
    case TryTurn => Some(t)
    case WaitTurn => Some(t)
    case Release => None
    case _ => turn
  }

  /** Whether this step ends a drain that did not time out. */
  predicate EndsClean(u: Shut, a: ShutAct) {
    a.NoListener? || (a.LookNone? && u.pc.SLookAgain?) || (a.Drained? && u.pc.SDrainAgain?)
  }

  // ----- all steps

  datatype Act =
    | ServeStep(t: Tid, serve: ServeAct)
    | ConnStep(c: Cid, conn: ConnAct)
    | ShutStep(t: Tid, shut: ShutAct)
    | DelayEnds

  ghost predicate Can(s: State, a: Act) {
    match a
    case ServeStep(t, x) => CanServe(s, t, x)
    case ConnStep(c, x) => CanConn(s, c, x)
    case ShutStep(t, x) => CanShut(s, t, x)
    case DelayEnds => s.drain.delayed
  }

  ghost function Do(s: State, a: Act): State
    requires Can(s, a)
  {
    match a
    case ServeStep(t, x) => s.(gate := GateAfter(s.gate, t, x), net := NetAfter(s.net, t, x))
    case ConnStep(c, x) => s.(net := NetAfterConn(s.net, c, x))
    case DelayEnds => s.(drain := s.drain.(elapsed := true))
    case ShutStep(t, x) =>
      var u := Mover(s, t);
      State(s.delay,
            GateAfterShut(s.gate, x),
            NetAfterShut(s.net, u, x),
            DrainAfter(s.drain, t, u, s.delay, x),
            HookAfter(s.hook, t, u, x),
            TurnAfter(s.turn, t, x),
            s.shuts[t := ShutAfter(s, u, x)],
            s.cancelled || x.CancelBase?,
            s.forced || x.CloseDone?,
            s.clean || EndsClean(u, x))
  }

  /** acts is a run from s. */
  ghost predicate IsRun(s: State, acts: seq<Act>)
    decreases |acts|
  {
    acts == [] || (Can(s, acts[0]) && IsRun(Do(s, acts[0]), acts[1..]))
  }

  ghost function After(s: State, acts: seq<Act>): State
    requires IsRun(s, acts)
    decreases |acts|
  {
    if acts == [] then s else After(Do(s, acts[0]), acts[1..])
  }
}
