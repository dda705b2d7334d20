/** What every step of the serving and shutdown protocol keeps. */
module LifecycleInv {
  import opened Options
  import opened Lifecycle

  // ----- where a Serve call is

  predicate InBody(pc: ServePc) {
    !pc.VEnter? && !pc.VBail? && !pc.VDone?
  }

  predicate PastPublish(pc: ServePc) { pc.VRecord? || pc.VCount? || pc.VAccept? }

  /** Its listener is open and nobody else knows it. */
  predicate BeforePublish(pc: ServePc) { pc.VEnter? || pc.VStart? || pc.VPublish? }

  predicate Unpublished(pc: ServePc) { BeforePublish(pc) || pc.VBail? || pc.VBailBody? }

  /** serving belongs to the one call in the body, ln is what it published, and ready holds
      only while that call may serve and before the first drain step. */
  ghost predicate GateOk(g: Gate) {
    && (forall v :: v in g.serves && InBody(g.serves[v]) ==> g.serving == Some(v))
    && (g.serving.Some? ==> g.serving.value in g.serves && InBody(g.serves[g.serving.value]))
    && (forall v :: v in g.serves && PastPublish(g.serves[v]) ==> g.published == Some(v))
    && (forall v :: v in g.serves && Unpublished(g.serves[v]) ==> g.published != Some(v))
    && (g.published.Some? ==> g.published.value in g.serves)
    && (g.ready ==>
          && g.serving.Some? && g.serving == g.published
          && !Unpublished(g.serves[g.serving.value]) && !g.serves[g.serving.value].VUnserve?)
    && (g.swapped ==> g.closed && !g.ready)
  }

  /** Who is recorded, and whose listener is open. */
  ghost predicate ListenOk(g: Gate, n: Net) {
    && (forall v :: v in n.recorded || v in n.open ==> v in g.serves)
    && (forall v :: v in g.serves && (g.serves[v].VCount? || g.serves[v].VAccept?) ==> v in n.recorded || v !in n.open)
    && (forall v :: v in g.serves && Unpublished(g.serves[v]) ==> v !in n.recorded)
    && (forall v :: v in g.serves && BeforePublish(g.serves[v]) ==> v in n.open)
    && (g.published.Some? && !n.cleared ==> g.published.value in n.open)
    && (n.cleared ==> g.closed)
    && (n.cleared && !n.busy ==> forall v :: v in n.recorded ==> g.published == Some(v))
    && (n.busy ==> n.cleared && n.recorded !! n.open)
    && (n.conns != map[] ==> g.published.Some?)
  }

  // ----- where a Shutdown call is

  predicate Opening(pc: ShutPc) {
    pc.SStart? || pc.SStreams? || InOnce(pc) || pc.SOnce? || pc.SDelay? || pc.STry? || pc.SWait?
  }

  predicate InOnce(pc: ShutPc) { pc.SSwap? || pc.SDraining? || pc.SDrainEnd? }

  predicate Closing(pc: ShutPc) { pc.CLock? || pc.CCancel? || pc.CClose? }

  predicate Draining(pc: ShutPc) { pc.SDrain? || pc.SDrainAgain? }

  predicate Hooking(pc: ShutPc) { pc.SHookRun? || pc.SHooksEnd? }

  predicate HasTurn(u: Shut) { u.holds && !u.pc.SReturned? }

  ghost predicate OpeningAt(g: Gate, d: Drain, t: Tid, u: Shut) {
    && (!u.pc.SStart? ==> g.closed && u.ln == g.published)
    && (InOnce(u.pc) ==> d.once == Running(t))
    && (u.pc.SDraining? || u.pc.SDrainEnd? ==> g.swapped)
    && (u.pc.SDrainEnd? ==> d.draining)
    && (!Opening(u.pc) || u.pc.SDelay? || u.pc.STry? || u.pc.SWait? ==> d.once.Done?)
  }

  /** closed is set once and freezes ln; the drain's once runs in one call. */
  ghost predicate OpeningOk(g: Gate, d: Drain, shuts: map<Tid, Shut>) {
    && (forall t :: t in shuts ==> OpeningAt(g, d, t, shuts[t]))
    && (!d.once.NotRun? ==> g.closed)
    && (d.once.Running? ==> d.once.owner in shuts && InOnce(shuts[d.once.owner].pc))
    && (g.swapped ==> !d.once.NotRun?)
    && (d.once.Done? ==> g.swapped && d.draining)
  }

  ghost predicate TurnAt(turn: Option<Tid>, t: Tid, u: Shut, busy: bool) {
    && (HasTurn(u) ==> turn == Some(t))
    && (Opening(u.pc) ==> !u.holds)
    && (!Opening(u.pc) && !Closing(u.pc) && !u.pc.SReturned? ==> u.holds)
    && (Draining(u.pc) ==> busy)
  }

  /** One call at a time has the turn, and a ShutdownWithContext is under way exactly
      while the call that has it drains. */
  ghost predicate TurnOk(turn: Option<Tid>, shuts: map<Tid, Shut>, busy: bool) {
    && (forall t :: t in shuts ==> TurnAt(turn, t, shuts[t], busy))
    && (turn.Some? ==> turn.value in shuts && HasTurn(shuts[turn.value]))
    && (busy ==> turn.Some? && Draining(shuts[turn.value].pc))
  }

  /** The hooks run so far: from the last registered down. */
  ghost predicate CountsDown(ran: seq<nat>, total: nat) {
    |ran| <= total && forall k :: 0 <= k < |ran| ==> ran[k] == total - 1 - k
  }

  ghost predicate HookAt(h: Hook, t: Tid, u: Shut, settled: bool) {
    && (Hooking(u.pc) ==> h.once == Running(t))
    && (u.pc.SRelease? || (u.pc.SReturned? && u.holds) ==> h.once.Done?)
    && (u.pc.SHooks? ==> settled)
  }

  /** How far the hooks are, when the call running them is at pc. */
  ghost predicate Counts(h: Hook, pc: ShutPc, settled: bool) {
    && CountsDown(h.ran, h.total)
    && (h.once.NotRun? ==> h.ran == [] && !h.started && !h.done && !h.panicked)
    && (h.once.Running? ==>
          && h.started && !h.done && Hooking(pc)
          && if pc.SHookRun? then !h.panicked && pc.left + |h.ran| == h.total else h.panicked)
    && (h.once.Done? ==> h.started && h.done && (h.panicked || |h.ran| == h.total))
    && (!h.once.NotRun? ==> settled)
  }

  function OwnerPc(h: Hook, shuts: map<Tid, Shut>): ShutPc {
    if h.once.Running? && h.once.owner in shuts then shuts[h.once.owner].pc else SStart
  }

  /** The hooks run once, in one call that has the turn, after its drain. */
  ghost predicate HookOk(h: Hook, shuts: map<Tid, Shut>, settled: bool) {
    && Counts(h, OwnerPc(h, shuts), settled)
    && (forall t :: t in shuts ==> HookAt(h, t, shuts[t], settled))
  }

  /** What rice tracks, and what a force-close has closed. */
  ghost predicate TrackOk(n: Net) {
    && (forall c :: c in n.conns && n.conns[c].phase.Live? ==> c in n.tracked)
    && (forall c :: c in n.tracked ==> c in n.conns && (n.conns[c].phase.Live? || n.conns[c].phase.Ended?))
    && (forall c :: c in n.conns && (n.conns[c].phase.Refused? || n.conns[c].phase.Ended?) ==> n.conns[c].closed)
    && (forall c :: c in n.conns && n.conns[c].phase.Rejecting? ==> n.forceClosed)
  }

  ghost predicate CloseAt(n: Net, u: Shut, cancelled: bool, forced: bool) {
    && (forall c :: c in u.copy ==> c in n.conns && (c in u.pending || n.conns[c].closed))
    && u.pending <= u.copy
    && (Opening(u.pc) || u.pc.SLook? || InDrains(u.pc) || u.pc.CLock? ==> u.copy == {})
    && (u.pc.CCancel? || u.pc.CClose? ==> n.forceClosed && LiveWithin(n, u.copy))
    && (u.pc.CClose? ==> cancelled)
    && (!Closing(u.pc) ==> u.pending == {})
    && (u.pc.SReturned? && !u.holds ==> forced)
  }

  ghost predicate ForcedOk(n: Net, cancelled: bool, forced: bool) {
    forced ==> n.forceClosed && cancelled && forall c :: c in n.conns && n.conns[c].phase.Live? ==> n.conns[c].closed
  }

  /** What each call has copied is closed, or about to be; and once a force-close has
      ended, nothing that is served has an open socket. */
  ghost predicate CloseOk(n: Net, shuts: map<Tid, Shut>, cancelled: bool, forced: bool) {
    && (forall t :: t in shuts ==> CloseAt(n, shuts[t], cancelled, forced))
    && ForcedOk(n, cancelled, forced)
  }

  ghost predicate LiveWithin(n: Net, copy: set<Cid>) {
    forall c :: c in n.conns && n.conns[c].phase.Live? ==> c in copy
  }

  // ----- drains

  /** Its first drain ended with its context, without having found its own listener. */
  predicate Missed(u: Shut) {
    u.timedOut && u.ln.Some? && u.ln.value !in u.looked
  }

  ghost predicate SomeCounted(n: Net) {
    exists c :: c in n.conns && Counted(n.conns[c].phase)
  }

  ghost predicate LookAt(n: Net, u: Shut) {
    && (InDrains(u.pc) ==> n.cleared)
    && (u.pc.SLookAgain? || u.pc.SDrainAgain? ==> u.ln.Some?)
    && (u.pc.SDrain? && u.ln.Some? ==> (u.ln.value in n.open <==> u.ln.value !in u.looked))
    && (HasTurn(u) && AfterListener(u.pc) && u.ln.Some? ==> (u.ln.value in n.open <==> Missed(u)))
    && (u.holds && u.pc.SReturned? && u.ln.Some? && !Missed(u) ==> u.ln.value !in n.open)
    && (Opening(u.pc) || u.pc.SLook? || InDrains(u.pc) ==> !u.timedOut)
  }

  /** What the call that has the turn knows of the listeners. */
  ghost predicate LookOk(n: Net, shuts: map<Tid, Shut>) {
    forall t :: t in shuts ==> LookAt(n, shuts[t])
  }

  /** Why nothing is left open once a turn has passed its drain. */
  ghost predicate DrainOk(g: Gate, n: Net, turn: Option<Tid>, shuts: map<Tid, Shut>, forced: bool, clean: bool) {
    && (SomeCounted(n) ==>
        n.recorded != {} || forced || (turn.Some? && turn.value in shuts && Closing(shuts[turn.value].pc)))
    && (clean ==> g.closed && (g.published.Some? ==> g.published.value !in n.open) && (SomeCounted(n) ==> forced))
  }

  predicate InDrains(pc: ShutPc) {
    pc.SDrain? || pc.SCloseLn? || pc.SLookAgain? || pc.SDrainAgain?
  }

  predicate AfterListener(pc: ShutPc) {
    pc.SLookAgain? || pc.SDrainAgain? || Closing(pc) || pc.SHooks? || Hooking(pc) || pc.SRelease?
  }

  lemma ServeKeepsGate(s: State, t: Tid, x: ServeAct)
    requires CanServe(s, t, x) && GateOk(s.gate)
    ensures GateOk(GateAfter(s.gate, t, x))
  {
  }

  lemma ShutKeepsGate(s: State, t: Tid, x: ShutAct)
    requires CanShut(s, t, x) && GateOk(s.gate) && OpeningOk(s.gate, s.drain, s.shuts)
    ensures GateOk(GateAfterShut(s.gate, x))
  {
  }

  lemma ServeKeepsListen(s: State, t: Tid, x: ServeAct)
    requires CanServe(s, t, x) && GateOk(s.gate) && ListenOk(s.gate, s.net)
    ensures ListenOk(GateAfter(s.gate, t, x), NetAfter(s.net, t, x))
  {
  }

  lemma ConnKeepsListen(s: State, c: Cid, x: ConnAct)
    requires CanConn(s, c, x) && ListenOk(s.gate, s.net)
    ensures ListenOk(s.gate, NetAfterConn(s.net, c, x))
  {
  }

  lemma ShutKeepsListen(s: State, t: Tid, x: ShutAct)
    requires CanShut(s, t, x) && GateOk(s.gate) && ListenOk(s.gate, s.net)
    requires OpeningOk(s.gate, s.drain, s.shuts) && TurnOk(s.turn, s.shuts, s.net.busy)
    requires LookOk(s.net, s.shuts)
    ensures ListenOk(GateAfterShut(s.gate, x), NetAfterShut(s.net, Mover(s, t), x))
  {
    var u := Mover(s, t);
    assert LookAt(s.net, u) && TurnAt(s.turn, t, u, s.net.busy) && OpeningAt(s.gate, s.drain, t, u);
    OwnListen(s, t, u, x);
  }

  lemma OwnListen(s: State, t: Tid, u: Shut, x: ShutAct)
    requires Allows(u, x) && ListenOk(s.gate, s.net)
    requires LookAt(s.net, u) && TurnAt(s.turn, t, u, s.net.busy) && OpeningAt(s.gate, s.drain, t, u)
    requires x.LookNone? ==> s.net.recorded == {}
    requires forall v :: v in s.gate.serves && Unpublished(s.gate.serves[v]) ==> s.gate.published != Some(v)
    ensures ListenOk(GateAfterShut(s.gate, x), NetAfterShut(s.net, u, x))
  {
    if x.LookSome? {
      Looked(s.gate, s.net);
    } else if x.Drained? || x.DrainTimesOut? {
      Forgotten(s.gate, s.net);
    } else if x.CloseListener? {
      ListenerClosed(s.gate, s.net);
    }
  }

  lemma Looked(g: Gate, n: Net)
    requires ListenOk(g, n) && g.closed
    ensures ListenOk(g, n.(open := n.open - n.recorded, busy := true, cleared := true))
  {
  }

  lemma Forgotten(g: Gate, n: Net)
    requires ListenOk(g, n) && n.busy
    ensures ListenOk(g, n.(recorded := {}, busy := false))
  {
  }

  lemma ListenerClosed(g: Gate, n: Net)
    requires ListenOk(g, n) && g.published.Some? && n.cleared
    requires forall v :: v in g.serves && Unpublished(g.serves[v]) ==> g.published != Some(v)
    ensures ListenOk(g, n.(open := n.open - {g.published.value}))
  {
  }

  lemma ServeKeepsOpening(s: State, t: Tid, x: ServeAct)
    requires CanServe(s, t, x) && OpeningOk(s.gate, s.drain, s.shuts)
    ensures OpeningOk(GateAfter(s.gate, t, x), s.drain, s.shuts)
  {
  }

  lemma ShutKeepsOpening(s: State, t: Tid, x: ShutAct)
    requires CanShut(s, t, x) && OpeningOk(s.gate, s.drain, s.shuts)
    ensures var s' := Do(s, ShutStep(t, x)); OpeningOk(s'.gate, s'.drain, s'.shuts)
  {
    var s' := Do(s, ShutStep(t, x));
    assert OpeningAt(s.gate, s.drain, t, Mover(s, t));
    OwnOpening(s, t, Mover(s, t), x);
    forall o | o in s'.shuts && o != t ensures OpeningAt(s'.gate, s'.drain, o, s'.shuts[o]) {
      OtherOpening(s, t, x, o);
    }
  }

  lemma OwnOpening(s: State, t: Tid, u: Shut, x: ShutAct)
    requires Allows(u, x) && Finds(s, u, x) && OpeningAt(s.gate, s.drain, t, u)
    requires !s.drain.once.NotRun? ==> s.gate.closed
    requires s.drain.once.Done? ==> s.gate.swapped && s.drain.draining
    ensures OpeningAt(GateAfterShut(s.gate, x), DrainAfter(s.drain, t, u, s.delay, x), t, ShutAfter(s, u, x))
  {
    var v, g, d := ShutAfter(s, u, x), GateAfterShut(s.gate, x), DrainAfter(s.drain, t, u, s.delay, x);
    assert !v.pc.SStart? ==> g.closed && v.ln == g.published;
    assert InOnce(v.pc) ==> d.once == Running(t);
    assert !Opening(v.pc) || v.pc.SDelay? || v.pc.STry? || v.pc.SWait? ==> d.once.Done?;
  }

  lemma OtherOpening(s: State, t: Tid, x: ShutAct, o: Tid)
    requires CanShut(s, t, x) && OpeningOk(s.gate, s.drain, s.shuts) && o in s.shuts && o != t
    ensures OpeningAt(GateAfterShut(s.gate, x), DrainAfter(s.drain, t, Mover(s, t), s.delay, x), o, s.shuts[o])
  {
    assert OpeningAt(s.gate, s.drain, o, s.shuts[o]);
  }

  predicate BusyAfter(busy: bool, x: ShutAct) {
    x.LookSome? || (busy && !x.Drained? && !x.DrainTimesOut?)
  }

  lemma BusyChanges(n: Net, u: Shut, x: ShutAct)
    ensures NetAfterShut(n, u, x).busy == BusyAfter(n.busy, x)
  {
  }

  lemma ShutKeepsTurn(s: State, t: Tid, x: ShutAct)
    requires CanShut(s, t, x) && TurnOk(s.turn, s.shuts, s.net.busy)
    ensures var s' := Do(s, ShutStep(t, x)); TurnOk(s'.turn, s'.shuts, s'.net.busy)
  {
    hide NetAfterShut;
    var s', u := Do(s, ShutStep(t, x)), Mover(s, t);
    BusyChanges(s.net, u, x);
    assert TurnAt(s.turn, t, u, s.net.busy);
    OwnTurn(s, t, u, x);
    forall o | o in s'.shuts && o != t ensures TurnAt(s'.turn, o, s'.shuts[o], s'.net.busy) {
      OtherTurn(s, t, x, o);
    }
    TurnHeld(s, t, u, x);
  }

  lemma OwnTurn(s: State, t: Tid, u: Shut, x: ShutAct)
    requires Allows(u, x) && TurnAt(s.turn, t, u, s.net.busy) && (x.TryTurn? || x.WaitTurn? ==> s.turn.None?)
    ensures TurnAt(TurnAfter(s.turn, t, x), t, ShutAfter(s, u, x), BusyAfter(s.net.busy, x))
  {
    var v := ShutAfter(s, u, x);
    assert HasTurn(v) ==> TurnAfter(s.turn, t, x) == Some(t);
    assert Opening(v.pc) ==> !v.holds;
    assert !Opening(v.pc) && !Closing(v.pc) && !v.pc.SReturned? ==> v.holds;
  }

  lemma OtherTurn(s: State, t: Tid, x: ShutAct, o: Tid)
    requires CanShut(s, t, x) && TurnOk(s.turn, s.shuts, s.net.busy) && o in s.shuts && o != t
    ensures TurnAt(TurnAfter(s.turn, t, x), o, s.shuts[o], BusyAfter(s.net.busy, x))
  {
    assert TurnAt(s.turn, o, s.shuts[o], s.net.busy);
    if t in s.shuts {
      assert TurnAt(s.turn, t, s.shuts[t], s.net.busy);
    }
  }

  lemma TurnHeld(s: State, t: Tid, u: Shut, x: ShutAct)
    requires u == Mover(s, t) && Allows(u, x) && (x.TryTurn? || x.WaitTurn? ==> s.turn.None?)
    requires TurnOk(s.turn, s.shuts, s.net.busy) && TurnAt(s.turn, t, u, s.net.busy)
    ensures var turn, v := TurnAfter(s.turn, t, x), ShutAfter(s, u, x);
      && (turn.Some? ==> if turn.value == t then HasTurn(v) else turn.value in s.shuts && HasTurn(s.shuts[turn.value]))
      && (BusyAfter(s.net.busy, x) ==>
            turn.Some? && if turn.value == t then Draining(v.pc) else Draining(s.shuts[turn.value].pc))
  {
    var turn, v := TurnAfter(s.turn, t, x), ShutAfter(s, u, x);
    assert turn == Some(t) ==> HasTurn(v);
    assert turn == Some(t) && BusyAfter(s.net.busy, x) ==> Draining(v.pc);
    assert turn.Some? && turn.value != t ==> s.turn == turn;
  }

  lemma ShutKeepsHook(s: State, t: Tid, x: ShutAct)
    requires CanShut(s, t, x) && HookOk(s.hook, s.shuts, s.clean || s.forced) && TurnOk(s.turn, s.shuts, s.net.busy)
    ensures var s' := Do(s, ShutStep(t, x)); HookOk(s'.hook, s'.shuts, s'.clean || s'.forced)
  {
    hide Counts;
    var s', u := Do(s, ShutStep(t, x)), Mover(s, t);
    assert HookAt(s.hook, t, u, s.clean || s.forced) && TurnAt(s.turn, t, u, s.net.busy);
    OwnHook(s, t, u, x);
    forall o | o in s'.shuts && o != t ensures HookAt(s'.hook, o, s'.shuts[o], s'.clean || s'.forced) {
      OtherHook(s, t, x, o);
    }
    if s.hook.once.NotRun? || s.hook.once == Running(t) {
      OwnCounts(s, t, u, x);
    } else {
      Undisturbed(s, t, u, x);
    }
  }

  lemma OwnHook(s: State, t: Tid, u: Shut, x: ShutAct)
    requires Allows(u, x) && Finds(s, u, x)
    requires HookAt(s.hook, t, u, s.clean || s.forced) && TurnAt(s.turn, t, u, s.net.busy)
    ensures HookAt(HookAfter(s.hook, t, u, x), t, ShutAfter(s, u, x),
                   s.clean || EndsClean(u, x) || s.forced || x.CloseDone?)
  {
    var h, v := HookAfter(s.hook, t, u, x), ShutAfter(s, u, x);
    assert Hooking(v.pc) ==> h.once == Running(t);
    assert v.pc.SRelease? || (v.pc.SReturned? && v.holds) ==> h.once.Done?;
  }

  lemma OtherHook(s: State, t: Tid, x: ShutAct, o: Tid)
    requires CanShut(s, t, x) && HookOk(s.hook, s.shuts, s.clean || s.forced) && o in s.shuts && o != t
    ensures var u := Mover(s, t);
      HookAt(HookAfter(s.hook, t, u, x), o, s.shuts[o], s.clean || EndsClean(u, x) || s.forced || x.CloseDone?)
  {
    assert HookAt(s.hook, o, s.shuts[o], s.clean || s.forced);
    if t in s.shuts {
      assert HookAt(s.hook, t, s.shuts[t], s.clean || s.forced);
    }
  }

  lemma OwnCounts(s: State, t: Tid, u: Shut, x: ShutAct)
    requires Allows(u, x) && Finds(s, u, x) && HookAt(s.hook, t, u, s.clean || s.forced)
    requires s.hook.once.NotRun? || s.hook.once == Running(t)
    requires Counts(s.hook, if s.hook.once.NotRun? then SStart else u.pc, s.clean || s.forced)
    ensures var h, pc := HookAfter(s.hook, t, u, x), ShutAfter(s, u, x).pc;
      Counts(h, if h.once.Running? then pc else SStart, s.clean || EndsClean(u, x) || s.forced || x.CloseDone?)
  {
    var h := HookAfter(s.hook, t, u, x);
    assert CountsDown(h.ran, h.total);
  }

  lemma Undisturbed(s: State, t: Tid, u: Shut, x: ShutAct)
    requires Allows(u, x) && Finds(s, u, x) && HookAt(s.hook, t, u, s.clean || s.forced)
    requires !s.hook.once.NotRun? && s.hook.once != Running(t)
    requires Counts(s.hook, OwnerPc(s.hook, s.shuts), s.clean || s.forced)
    ensures HookAfter(s.hook, t, u, x) == s.hook
    ensures Counts(s.hook, OwnerPc(s.hook, s.shuts), s.clean || EndsClean(u, x) || s.forced || x.CloseDone?)
  {
  }

  lemma ServeKeepsTrack(s: State, t: Tid, x: ServeAct)
    requires CanServe(s, t, x) && TrackOk(s.net)
    ensures TrackOk(NetAfter(s.net, t, x))
  {
  }

  lemma ConnKeepsTrack(s: State, c: Cid, x: ConnAct)
    requires CanConn(s, c, x) && TrackOk(s.net)
    ensures TrackOk(NetAfterConn(s.net, c, x))
  {
  }

  lemma ServeKeepsClose(s: State, t: Tid, x: ServeAct)
    requires CanServe(s, t, x) && CloseOk(s.net, s.shuts, s.cancelled, s.forced)
    ensures CloseOk(NetAfter(s.net, t, x), s.shuts, s.cancelled, s.forced)
  {
  }

  lemma ConnKeepsClose(s: State, c: Cid, x: ConnAct)
    requires CanConn(s, c, x) && TrackOk(s.net) && CloseOk(s.net, s.shuts, s.cancelled, s.forced)
    ensures CloseOk(NetAfterConn(s.net, c, x), s.shuts, s.cancelled, s.forced)
  {
  }

  lemma ShutKeepsTrack(s: State, t: Tid, x: ShutAct)
    requires CanShut(s, t, x) && TrackOk(s.net) && CloseOk(s.net, s.shuts, s.cancelled, s.forced)
    ensures TrackOk(Do(s, ShutStep(t, x)).net)
  {
  }

  lemma ShutKeepsClose(s: State, t: Tid, x: ShutAct)
    requires CanShut(s, t, x) && TrackOk(s.net) && CloseOk(s.net, s.shuts, s.cancelled, s.forced)
    requires TurnOk(s.turn, s.shuts, s.net.busy)
    ensures var s' := Do(s, ShutStep(t, x)); CloseOk(s'.net, s'.shuts, s'.cancelled, s'.forced)
  {
    var s' := Do(s, ShutStep(t, x));
    assert CloseAt(s.net, Mover(s, t), s.cancelled, s.forced) && TurnAt(s.turn, t, Mover(s, t), s.net.busy);
    OwnClose(s, t, Mover(s, t), x);
    forall o | o in s'.shuts && o != t ensures CloseAt(s'.net, s'.shuts[o], s'.cancelled, s'.forced) {
      OtherClose(s, t, x, o);
    }
    ForcedStays(s, t, x);
  }

  lemma OwnClose(s: State, t: Tid, u: Shut, x: ShutAct)
    requires Allows(u, x) && TrackOk(s.net)
    requires CloseAt(s.net, u, s.cancelled, s.forced) && TurnAt(s.turn, t, u, s.net.busy)
    ensures CloseAt(NetAfterShut(s.net, u, x), ShutAfter(s, u, x), s.cancelled || x.CancelBase?,
                    s.forced || x.CloseDone?)
  {
    var n, v := NetAfterShut(s.net, u, x), ShutAfter(s, u, x);
    assert forall c :: c in v.copy ==> c in n.conns && (c in v.pending || n.conns[c].closed);
    assert !Closing(v.pc) ==> v.pending == {};
    assert Opening(v.pc) || v.pc.SLook? || InDrains(v.pc) || v.pc.CLock? ==> v.copy == {};
    assert v.pc.CCancel? || v.pc.CClose? ==> n.forceClosed && LiveWithin(n, v.copy);
  }

  lemma OtherClose(s: State, t: Tid, x: ShutAct, o: Tid)
    requires CanShut(s, t, x) && CloseOk(s.net, s.shuts, s.cancelled, s.forced) && o in s.shuts && o != t
    ensures CloseAt(NetAfterShut(s.net, Mover(s, t), x), s.shuts[o], s.cancelled || x.CancelBase?,
                    s.forced || x.CloseDone?)
  {
    assert CloseAt(s.net, s.shuts[o], s.cancelled, s.forced);
  }

  lemma ForcedStays(s: State, t: Tid, x: ShutAct)
    requires CanShut(s, t, x) && CloseOk(s.net, s.shuts, s.cancelled, s.forced)
    ensures ForcedOk(NetAfterShut(s.net, Mover(s, t), x), s.cancelled || x.CancelBase?, s.forced || x.CloseDone?)
  {
    if x.CloseDone? {
      assert CloseAt(s.net, s.shuts[t], s.cancelled, s.forced);
    }
  }

  lemma ServeKeepsLook(s: State, t: Tid, x: ServeAct)
    requires CanServe(s, t, x) && GateOk(s.gate) && ListenOk(s.gate, s.net)
    requires OpeningOk(s.gate, s.drain, s.shuts) && LookOk(s.net, s.shuts)
    ensures LookOk(NetAfter(s.net, t, x), s.shuts)
  {
  }

  lemma ShutKeepsLook(s: State, t: Tid, x: ShutAct)
    requires CanShut(s, t, x) && GateOk(s.gate) && ListenOk(s.gate, s.net)
    requires OpeningOk(s.gate, s.drain, s.shuts) && TurnOk(s.turn, s.shuts, s.net.busy)
    requires LookOk(s.net, s.shuts)
    ensures var s' := Do(s, ShutStep(t, x)); LookOk(s'.net, s'.shuts)
  {
    var s' := Do(s, ShutStep(t, x));
    assert LookAt(s.net, Mover(s, t)) && TurnAt(s.turn, t, Mover(s, t), s.net.busy);
    assert OpeningAt(s.gate, s.drain, t, Mover(s, t));
    OwnLook(s, t, Mover(s, t), x);
    forall o | o in s'.shuts && o != t ensures LookAt(s'.net, s'.shuts[o]) {
      OtherLook(s, t, x, o);
    }
  }

  lemma OwnLook(s: State, t: Tid, u: Shut, x: ShutAct)
    requires Allows(u, x) && ListenOk(s.gate, s.net)
    requires LookAt(s.net, u) && TurnAt(s.turn, t, u, s.net.busy) && OpeningAt(s.gate, s.drain, t, u)
    requires s.net.busy && HasTurn(u) ==> Draining(u.pc)
    requires (x.LookNone? ==> s.net.recorded == {}) && (x.LookSome? ==> s.net.recorded != {})
    ensures LookAt(NetAfterShut(s.net, u, x), ShutAfter(s, u, x))
  {
    hide ListenOk;
    var n, v := NetAfterShut(s.net, u, x), ShutAfter(s, u, x);
    assert InDrains(v.pc) ==> n.cleared;
    assert v.pc.SLookAgain? || v.pc.SDrainAgain? ==> v.ln.Some?;
    assert Opening(v.pc) || v.pc.SLook? || InDrains(v.pc) ==> !v.timedOut;
    FirstLook(s, t, u, x);
  }

  lemma FirstLook(s: State, t: Tid, u: Shut, x: ShutAct)
    requires Allows(u, x) && ListenOk(s.gate, s.net)
    requires LookAt(s.net, u) && TurnAt(s.turn, t, u, s.net.busy) && OpeningAt(s.gate, s.drain, t, u)
    requires s.net.busy && HasTurn(u) ==> Draining(u.pc)
    requires x.LookSome? ==> s.net.recorded != {}
    ensures var n, v := NetAfterShut(s.net, u, x), ShutAfter(s, u, x);
      v.pc.SDrain? && v.ln.Some? ==> (v.ln.value in n.open <==> v.ln.value !in v.looked)
  {
  }

  lemma OtherLook(s: State, t: Tid, x: ShutAct, o: Tid)
    requires CanShut(s, t, x) && TurnOk(s.turn, s.shuts, s.net.busy) && LookOk(s.net, s.shuts)
    requires o in s.shuts && o != t
    ensures LookAt(NetAfterShut(s.net, Mover(s, t), x), s.shuts[o])
  {
    assert LookAt(s.net, s.shuts[o]) && TurnAt(s.turn, o, s.shuts[o], s.net.busy);
    if t in s.shuts {
      assert TurnAt(s.turn, t, s.shuts[t], s.net.busy);
    }
  }

  lemma ServeKeepsDrain(s: State, t: Tid, x: ServeAct)
    requires CanServe(s, t, x) && GateOk(s.gate) && ListenOk(s.gate, s.net)
    requires DrainOk(s.gate, s.net, s.turn, s.shuts, s.forced, s.clean)
    ensures DrainOk(GateAfter(s.gate, t, x), NetAfter(s.net, t, x), s.turn, s.shuts, s.forced, s.clean)
  {
  }

  lemma ConnKeepsDrain(s: State, c: Cid, x: ConnAct)
    requires CanConn(s, c, x) && DrainOk(s.gate, s.net, s.turn, s.shuts, s.forced, s.clean)
    ensures DrainOk(s.gate, NetAfterConn(s.net, c, x), s.turn, s.shuts, s.forced, s.clean)
  {
  }

  lemma ShutKeepsDrain(s: State, t: Tid, x: ShutAct)
    requires CanShut(s, t, x) && ListenOk(s.gate, s.net)
    requires OpeningOk(s.gate, s.drain, s.shuts) && TurnOk(s.turn, s.shuts, s.net.busy)
    requires LookOk(s.net, s.shuts)
    requires DrainOk(s.gate, s.net, s.turn, s.shuts, s.forced, s.clean)
    ensures var s' := Do(s, ShutStep(t, x)); DrainOk(s'.gate, s'.net, s'.turn, s'.shuts, s'.forced, s'.clean)
  {
    var s', u := Do(s, ShutStep(t, x)), Mover(s, t);
    assert LookAt(s.net, u) && TurnAt(s.turn, t, u, s.net.busy) && OpeningAt(s.gate, s.drain, t, u);
    StillCounted(s.net, u, x);
    OwnCounted(s, t, u, x, SomeCounted(s.net));
    OwnClean(s, t, u, x);
  }

  lemma StillCounted(n: Net, u: Shut, x: ShutAct)
    ensures SomeCounted(NetAfterShut(n, u, x)) <==> SomeCounted(n)
  {
    var n' := NetAfterShut(n, u, x);
    assert n'.conns.Keys == n.conns.Keys;
    assert forall c :: c in n.conns ==> n'.conns[c].phase == n.conns[c].phase;
    if SomeCounted(n) {
      var c :| c in n.conns && Counted(n.conns[c].phase);
      assert Counted(n'.conns[c].phase);
    }
  }

  lemma OwnCounted(s: State, t: Tid, u: Shut, x: ShutAct, counted: bool)
    requires u == Mover(s, t) && Allows(u, x) && (x.TryTurn? || x.WaitTurn? ==> s.turn.None?)
    requires TurnOk(s.turn, s.shuts, s.net.busy) && TurnAt(s.turn, t, u, s.net.busy)
    requires x.Drained? ==> !counted
    requires counted ==>
      s.net.recorded != {} || s.forced || (s.turn.Some? && s.turn.value in s.shuts && Closing(s.shuts[s.turn.value].pc))
    ensures var turn, v := TurnAfter(s.turn, t, x), ShutAfter(s, u, x);
      counted ==>
        || NetAfterShut(s.net, u, x).recorded != {} || s.forced || x.CloseDone?
        || (turn.Some? &&
            if turn.value == t then Closing(v.pc) else turn.value in s.shuts && Closing(s.shuts[turn.value].pc))
  {
    var v := ShutAfter(s, u, x);
    assert Closing(u.pc) && !x.CloseDone? ==> Closing(v.pc);
    assert x.DrainTimesOut? ==> Closing(v.pc) && s.turn == Some(t);
  }

  lemma OwnClean(s: State, t: Tid, u: Shut, x: ShutAct)
    requires u == Mover(s, t) && Allows(u, x) && Finds(s, u, x) && ListenOk(s.gate, s.net)
    requires LookAt(s.net, u) && TurnAt(s.turn, t, u, s.net.busy) && OpeningAt(s.gate, s.drain, t, u)
    requires DrainOk(s.gate, s.net, s.turn, s.shuts, s.forced, s.clean)
    requires s.net.busy && HasTurn(u) ==> Draining(u.pc)
    ensures var g, n := GateAfterShut(s.gate, x), NetAfterShut(s.net, u, x);
      s.clean || EndsClean(u, x) ==>
        && g.closed && (g.published.Some? ==> g.published.value !in n.open)
        && (SomeCounted(s.net) ==> s.forced || x.CloseDone?)
  {
  }

  // ----- all of it

  /** What a call's first drain looked at. */
  ghost predicate LookedAt(g: Gate, u: Shut) {
    u.looked <= g.serves.Keys && (u.pc.SDrain? || u.timedOut ==> u.looked != {})
  }

  ghost predicate LookedOk(g: Gate, shuts: map<Tid, Shut>) {
    forall t :: t in shuts ==> LookedAt(g, shuts[t])
  }

  lemma ShutKeepsLooked(s: State, t: Tid, x: ShutAct)
    requires CanShut(s, t, x) && ListenOk(s.gate, s.net) && LookedOk(s.gate, s.shuts)
    ensures var s' := Do(s, ShutStep(t, x)); LookedOk(s'.gate, s'.shuts)
  {
    hide NetAfterShut, DrainAfter, HookAfter, TurnAfter, EndsClean, NothingOpen;
    assert LookedAt(s.gate, Mover(s, t));
    assert s.net.recorded <= s.gate.serves.Keys;
  }

  // ----- the drain delay

  predicate PastDelay(pc: ShutPc) { !Opening(pc) || pc.STry? || pc.SWait? }

  ghost predicate DelayAt(d: Drain, u: Shut) {
    PastDelay(u.pc) ==> !d.delayed || d.elapsed || u.ctxDone
  }

  /** Nothing is closed before some call is past the delay. */
  ghost predicate DelayOk(d: Drain, n: Net, shuts: map<Tid, Shut>) {
    && (forall t :: t in shuts ==> DelayAt(d, shuts[t]))
    && (n.cleared || n.forceClosed ==> SomePast(shuts))
  }

  ghost predicate SomePast(shuts: map<Tid, Shut>) {
    exists t :: t in shuts && PastDelay(shuts[t].pc)
  }

  lemma ShutKeepsDelay(s: State, t: Tid, x: ShutAct)
    requires CanShut(s, t, x) && OpeningOk(s.gate, s.drain, s.shuts) && DelayOk(s.drain, s.net, s.shuts)
    ensures var s' := Do(s, ShutStep(t, x)); DelayOk(s'.drain, s'.net, s'.shuts)
  {
    hide HookAfter, TurnAfter, GateAfterShut, EndsClean, NothingOpen;
    var s', u := Do(s, ShutStep(t, x)), Mover(s, t);
    assert OpeningAt(s.gate, s.drain, t, u) && DelayAt(s.drain, u);
    OwnDelay(s, t, u, x);
    forall o | o in s'.shuts && o != t ensures DelayAt(s'.drain, s'.shuts[o]) {
      assert OpeningAt(s.gate, s.drain, o, s.shuts[o]) && DelayAt(s.drain, s.shuts[o]);
    }
    if SomePast(s.shuts) {
      var o :| o in s.shuts && PastDelay(s.shuts[o].pc);
      assert o in s'.shuts && PastDelay(s'.shuts[o].pc);
    } else if s'.net.cleared || s'.net.forceClosed {
      assert t in s'.shuts && PastDelay(s'.shuts[t].pc);
    }
  }

  lemma OwnDelay(s: State, t: Tid, u: Shut, x: ShutAct)
    requires Allows(u, x) && Finds(s, u, x) && OpeningAt(s.gate, s.drain, t, u) && DelayAt(s.drain, u)
    ensures DelayAt(DrainAfter(s.drain, t, u, s.delay, x), ShutAfter(s, u, x))
    ensures PastDelay(u.pc) ==> PastDelay(ShutAfter(s, u, x).pc)
    ensures x.LookNone? || x.LookSome? || x.LockConns? ==> PastDelay(ShutAfter(s, u, x).pc)
  {
    hide NothingOpen;
  }

  // ----- what a call returns

  ghost predicate ResultAt(u: Shut, clean: bool, forced: bool) {
    && (Opening(u.pc) || u.pc.SLook? || InDrains(u.pc) ==> !u.timeout)
    && (Closing(u.pc) ==> u.timeout)
    && (u.pc.SHooks? || Hooking(u.pc) || u.pc.SRelease? || u.pc.SReturned? ==>
        if u.timeout then forced else clean && u.holds)
  }

  ghost predicate ResultOk(shuts: map<Tid, Shut>, clean: bool, forced: bool) {
    forall t :: t in shuts ==> ResultAt(shuts[t], clean, forced)
  }

  lemma ShutKeepsResult(s: State, t: Tid, x: ShutAct)
    requires CanShut(s, t, x) && TurnOk(s.turn, s.shuts, s.net.busy) && ResultOk(s.shuts, s.clean, s.forced)
    ensures var s' := Do(s, ShutStep(t, x)); ResultOk(s'.shuts, s'.clean, s'.forced)
  {
    hide HookAfter, TurnAfter, GateAfterShut, DrainAfter, NetAfterShut, EndsClean, NothingOpen, Finds, ShutAfter;
    var u := Mover(s, t);
    assert TurnAt(s.turn, t, u, s.net.busy) && ResultAt(u, s.clean, s.forced);
    OwnResult(s, u, x);
  }

  lemma OwnResult(s: State, u: Shut, x: ShutAct)
    requires Allows(u, x) && ResultAt(u, s.clean, s.forced)
    requires Opening(u.pc) ==> !u.holds
    requires !Opening(u.pc) && !Closing(u.pc) && !u.pc.SReturned? ==> u.holds
    ensures ResultAt(ShutAfter(s, u, x), s.clean || EndsClean(u, x), s.forced || x.CloseDone?)
  {
    var v := ShutAfter(s, u, x);
    assert Opening(v.pc) || v.pc.SLook? || InDrains(v.pc) ==> !v.timeout;
    assert Closing(v.pc) ==> v.timeout;
  }

  /** The invariant of every run. */
  ghost predicate Inv(s: State) {
    && GateOk(s.gate)
    && ListenOk(s.gate, s.net)
    && OpeningOk(s.gate, s.drain, s.shuts)
    && TurnOk(s.turn, s.shuts, s.net.busy)
    && HookOk(s.hook, s.shuts, s.clean || s.forced)
    && TrackOk(s.net)
    && CloseOk(s.net, s.shuts, s.cancelled, s.forced)
    && LookOk(s.net, s.shuts)
    && LookedOk(s.gate, s.shuts)
    && DelayOk(s.drain, s.net, s.shuts)
    && ResultOk(s.shuts, s.clean, s.forced)
    && DrainOk(s.gate, s.net, s.turn, s.shuts, s.forced, s.clean)
  }

  lemma InitInv(hooks: nat, delay: bool)
    ensures Inv(Init(hooks, delay))
  {
  }

  lemma ServeKeepsInv(s: State, t: Tid, x: ServeAct)
    requires Inv(s) && CanServe(s, t, x)
    ensures Inv(Do(s, ServeStep(t, x)))
  {
    hide CanServe, GateOk, ListenOk, OpeningOk, HookOk, TrackOk, CloseOk, LookOk, DrainOk, NextServePc;
    ServeKeepsGate(s, t, x);
    ServeKeepsListen(s, t, x);
    ServeKeepsOpening(s, t, x);
    ServeKeepsTrack(s, t, x);
    ServeKeepsClose(s, t, x);
    ServeKeepsLook(s, t, x);
    ServeKeepsDrain(s, t, x);
  }

  lemma ConnKeepsInv(s: State, c: Cid, x: ConnAct)
    requires Inv(s) && CanConn(s, c, x)
    ensures Inv(Do(s, ConnStep(c, x)))
  {
    hide GateOk, ListenOk, OpeningOk, HookOk, TrackOk, CloseOk, DrainOk;
    ConnKeepsListen(s, c, x);
    ConnKeepsTrack(s, c, x);
    ConnKeepsClose(s, c, x);
    ConnKeepsDrain(s, c, x);
  }

  lemma ShutKeepsInv(s: State, t: Tid, x: ShutAct)
    requires Inv(s) && CanShut(s, t, x)
    ensures Inv(Do(s, ShutStep(t, x)))
  {
    hide CanShut, GateOk, ListenOk, OpeningOk, TurnOk, HookOk, TrackOk, CloseOk, LookOk, LookedOk, DelayOk, ResultOk,
      DrainOk;
    hide NetAfterShut, GateAfterShut, DrainAfter, HookAfter, TurnAfter, ShutAfter, EndsClean, Mover;
    ShutKeepsGate(s, t, x);
    ShutKeepsListen(s, t, x);
    ShutKeepsOpening(s, t, x);
    ShutKeepsTurn(s, t, x);
    ShutKeepsHook(s, t, x);
    ShutKeepsTrack(s, t, x);
    ShutKeepsClose(s, t, x);
    ShutKeepsLook(s, t, x);
    ShutKeepsLooked(s, t, x);
    ShutKeepsDelay(s, t, x);
    ShutKeepsResult(s, t, x);
    ShutKeepsDrain(s, t, x);
  }

  lemma StepKeepsInv(s: State, a: Act)
    requires Inv(s) && Can(s, a)
    ensures Inv(Do(s, a))
  {
    match a
    case ServeStep(t, x) => ServeKeepsInv(s, t, x);
    case ConnStep(c, x) => ConnKeepsInv(s, c, x);
    case ShutStep(t, x) => ShutKeepsInv(s, t, x);
    case DelayEnds =>
      hide GateOk, ListenOk, TurnOk, HookOk, TrackOk, CloseOk, LookOk, LookedOk, ResultOk, DrainOk;
  }

  lemma {:induction false} RunKeepsInv(s: State, acts: seq<Act>)
    requires Inv(s) && IsRun(s, acts)
    ensures Inv(After(s, acts))
    decreases |acts|
  {
    hide Inv, Can, Do;
    if acts != [] {
      StepKeepsInv(s, acts[0]);
      RunKeepsInv(Do(s, acts[0]), acts[1..]);
    }
  }
}
