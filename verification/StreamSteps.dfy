/** The goroutines that share a stream's writer: the body-writer function with the callback
    it runs, goroutines the callback handed the stream to, and the heartbeat. Each takes
    one step at a time; the context can be cancelled at any moment. */
module StreamSteps {
  import opened Options
  import opened EventStream

  type Tid = nat

  /** The callback runs on the body writer's own goroutine. */
  const CALLBACK: Tid := 0

  datatype Who = Caller(t: Tid) | Beater | BodyWriter

  /** What one critical section writes. */
  datatype Content =
    | OneEvent(event: Event)   // a Send
    | Comment                  // the heartbeat's
    | LastFlush                // the body writer's
    | Plain                    // a Write or Flush

  /** The pieces of one frame: writes into the buffered writer, and the flush, which adds no
      text. */
  datatype Job = Job(content: Content, texts: seq<string>)

  function Together(texts: seq<string>): string {
    if texts == [] then "" else Together(texts[..|texts| - 1]) + texts[|texts| - 1]
  }

  predicate GoodJob(j: Job) {
    && j.texts != []
    && match j.content {
         case OneEvent(e) => Sendable(e) && Together(j.texts) == Encoded(e)
         case Comment => j.texts == [COMMENT, ""]
         case LastFlush => j.texts == [""]
         case Plain => true
       }
  }

  /** Piece k of the n of one frame. */
  datatype Piece = Piece(who: Who, frame: nat, k: nat, n: nat, text: string)

  /** A Write, Flush or Send. */
  datatype CallPc =
    | Idle
    | Wants(job: Job)                      // locking the mutex
    | Has(job: Job)                        // reads done next
    | Writing(frame: nat, k: nat, n: nat)  // k pieces written

  datatype BeatPc =
    | NoHeartbeat
    | Selecting
    | BeatWants
    | Beating(frame: nat, k: nat)          // of two pieces: the comment and the flush
    | Failing                              // its flush failed: cancels next
    | Exited

  datatype BodyPc =
    | InCallback
    | Cancelling                           // the callback has returned or panicked
    | Joining                              // waiting for the heartbeat to exit
    | Locking
    | Flushing
    | Retiring                             // sets done next
    | Unlocking
    | Returned

  datatype State = State(
    body: BodyPc, beat: BeatPc, calls: map<Tid, CallPc>,
    lock: Option<Who>, done: bool, cancelled: bool,
    begun: seq<Job>,                       // every frame, in the order they were begun
    pieces: seq<Piece>)                    // every touch of the writer, in order

  function Init(heartbeat: bool): State {
    State(InCallback, if heartbeat then Selecting else NoHeartbeat, map[], None, false, false, [], [])
  }

  function CallOf(s: State, t: Tid): CallPc {
    if t in s.calls then s.calls[t] else Idle
  }

  datatype Act =
    | Call(t: Tid, job: Job)
    | Lock(t: Tid)
    | Refuse(t: Tid)
    | Begin(t: Tid)
    | Put(t: Tid)
    | Unlock(t: Tid)
    | Cancel
    | Tick
    | BeatLock
    | BeatPut
    | BeatUnlock(failed: bool)
    | BeatFails
    | BeatStops
    | CallbackEnds
    | CancelOwn
    | Join
    | BodyLock
    | FinalFlush
    | SetDone
    | Return

  predicate Can(s: State, a: Act) {
    match a
    case Call(t, job) =>
      && CallOf(s, t).Idle? && (t == CALLBACK ==> s.body.InCallback?)
      && GoodJob(job) && (job.content.OneEvent? || job.content.Plain?)
    case Lock(t) => CallOf(s, t).Wants? && s.lock.None?
    case Refuse(t) => CallOf(s, t).Has? && s.done
    case Begin(t) => CallOf(s, t).Has? && !s.done
    case Put(t) => CallOf(s, t).Writing? && CallOf(s, t).k < CallOf(s, t).n
      && HasText(s, CallOf(s, t).frame, CallOf(s, t).k)
    case Unlock(t) => CallOf(s, t).Writing? && CallOf(s, t).k == CallOf(s, t).n
    case Cancel => true
    case Tick => s.beat.Selecting?
    case BeatLock => s.beat.BeatWants? && s.lock.None?
    case BeatPut => s.beat.Beating? && s.beat.k < 2
    case BeatUnlock(_) => s.beat.Beating? && s.beat.k == 2
    case BeatFails => s.beat.Failing?
    case BeatStops => s.beat.Selecting? && s.cancelled
    case CallbackEnds => s.body.InCallback? && CallOf(s, CALLBACK).Idle?
    case CancelOwn => s.body.Cancelling?
    case Join => s.body.Joining? && (s.beat.NoHeartbeat? || s.beat.Exited?)
    case BodyLock => s.body.Locking? && s.lock.None?
    case FinalFlush => s.body.Flushing?
    case SetDone => s.body.Retiring?
    case Return => s.body.Unlocking?
  }

  /** A frame that is being written has been begun, so this is no further condition. */
  predicate HasText(s: State, frame: nat, k: nat) {
    frame < |s.begun| && k < |s.begun[frame].texts|
  }

  const BEAT := Job(Comment, [COMMENT, ""])

  const LAST := Job(LastFlush, [""])

  function Do(s: State, a: Act): State
    requires Can(s, a)
  {
    match a
    case Call(t, job) => s.(calls := s.calls[t := Wants(job)])
    case Lock(t) => s.(calls := s.calls[t := Has(s.calls[t].job)], lock := Some(Caller(t)))
    case Refuse(t) => s.(calls := s.calls[t := Idle], lock := None)
    case Begin(t) =>
      var job := s.calls[t].job;
      s.(calls := s.calls[t := Writing(|s.begun|, 0, |job.texts|)], begun := s.begun + [job])
    case Put(t) =>
      var c := s.calls[t];
      s.(calls := s.calls[t := c.(k := c.k + 1)],
         pieces := s.pieces + [Piece(Caller(t), c.frame, c.k, c.n, s.begun[c.frame].texts[c.k])])
    case Unlock(t) => s.(calls := s.calls[t := Idle], lock := None)
    case Cancel => s.(cancelled := true)
    case Tick => s.(beat := BeatWants)
    case BeatLock => s.(beat := Beating(|s.begun|, 0), begun := s.begun + [BEAT], lock := Some(Beater))
    case BeatPut =>
      s.(beat := s.beat.(k := s.beat.k + 1),
         pieces := s.pieces + [Piece(Beater, s.beat.frame, s.beat.k, 2, BEAT.texts[s.beat.k])])
    case BeatUnlock(failed) => s.(beat := if failed then Failing else Selecting, lock := None)
    case BeatFails => s.(beat := Exited, cancelled := true)
    case BeatStops => s.(beat := Exited)
    case CallbackEnds => s.(body := Cancelling)
    case CancelOwn => s.(body := Joining, cancelled := true)
    case Join => s.(body := Locking)
    case BodyLock => s.(body := Flushing, lock := Some(BodyWriter))
    case FinalFlush =>
      s.(body := Retiring, begun := s.begun + [LAST], pieces := s.pieces + [Piece(BodyWriter, |s.begun|, 0, 1, "")])
    case SetDone => s.(body := Unlocking, done := true)
    case Return => s.(body := Returned, lock := None)
  }

  predicate IsRun(s: State, acts: seq<Act>)
    decreases |acts|
  {
    acts == [] || (Can(s, acts[0]) && IsRun(Do(s, acts[0]), acts[1..]))
  }

  function After(s: State, acts: seq<Act>): State
    requires IsRun(s, acts)
    decreases |acts|
  {
    if acts == [] then s else After(Do(s, acts[0]), acts[1..])
  }

  // ----- who may write

  predicate HoldsLock(pc: BodyPc) { pc.Flushing? || pc.Retiring? || pc.Unlocking? }

  /** The mutex is held exactly by the one goroutine that is between its lock and unlock. */
  ghost predicate LockOk(s: State) {
    && (forall t: Tid :: CallOf(s, t).Has? || CallOf(s, t).Writing? <==> s.lock == Some(Caller(t)))
    && (s.beat.Beating? <==> s.lock == Some(Beater))
    && (HoldsLock(s.body) <==> s.lock == Some(BodyWriter))
  }

  ghost predicate DoneOk(s: State) {
    && (s.done <==> s.body.Unlocking? || s.body.Returned?)
    && (forall t: Tid :: CallOf(s, t).Writing? ==> !s.done && CallOf(s, t).k <= CallOf(s, t).n)
    && (s.beat.Beating? ==> s.beat.k <= 2)
    && (!s.body.InCallback? ==> CallOf(s, CALLBACK).Idle?)
    && (!s.body.InCallback? && !s.body.Cancelling? ==> s.cancelled)
    && (!s.body.InCallback? && !s.body.Cancelling? && !s.body.Joining? ==> s.beat.NoHeartbeat? || s.beat.Exited?)
  }

  /** The frame that is being written, how many of its pieces are, and how many it has. */
  function Written(s: State): Option<(nat, nat, nat)> {
    match s.lock
    case Some(Caller(t)) => var c := CallOf(s, t); if c.Writing? then Some((c.frame, c.k, c.n)) else None
    case Some(Beater) => if s.beat.Beating? then Some((s.beat.frame, s.beat.k, 2)) else None
    case _ => None
  }

  /** The last piece of the frame that is being written, if it has one. */
  function Current(s: State): Option<Piece> {
    match Written(s)
    case None => None
    case Some(w) =>
      if w.1 > 0 && HasText(s, w.0, w.1 - 1)
      then Some(Piece(s.lock.value, w.0, w.1 - 1, w.2, s.begun[w.0].texts[w.1 - 1])) else None
  }

  predicate Ends(p: Piece) { p.k + 1 == p.n }

  /** b continues the frame of a. */
  predicate Continues(a: Piece, b: Piece) { b == a.(k := a.k + 1, text := b.text) }

  /** Every frame is written without interruption: a piece that does not end its frame is
      followed at once by the next piece of the same frame, and one that does by the first
      piece of another. */
  predicate Uninterrupted(pieces: seq<Piece>) {
    && (pieces != [] ==> pieces[0].k == 0)
    && forall i :: 0 <= i < |pieces| - 1 ==>
         if Ends(pieces[i]) then pieces[i + 1].k == 0 else Continues(pieces[i], pieces[i + 1])
  }

  ghost predicate PiecesOk(s: State) {
    Uninterrupted(s.pieces) && EndsWith(s.pieces, Current(s))
  }

  /** The last piece is the one given, or else it ends its frame. */
  predicate EndsWith(pieces: seq<Piece>, current: Option<Piece>) {
    if current.Some? then pieces != [] && pieces[|pieces| - 1] == current.value
    else pieces != [] ==> Ends(pieces[|pieces| - 1])
  }

  // ----- the text

  function TextOf(pieces: seq<Piece>): string {
    if pieces == [] then "" else TextOf(pieces[..|pieces| - 1]) + pieces[|pieces| - 1].text
  }

  function AllText(jobs: seq<Job>): string {
    if jobs == [] then "" else AllText(jobs[..|jobs| - 1]) + Together(jobs[|jobs| - 1].texts)
  }

  ghost predicate TextOk(s: State) {
    && (forall i :: 0 <= i < |s.begun| ==> GoodJob(s.begun[i]))
    && (forall t: Tid :: CallOf(s, t).Wants? || CallOf(s, t).Has? ==> GoodJob(CallOf(s, t).job))
    && (s.beat.Beating? ==> s.begun != [] && s.begun[|s.begun| - 1] == BEAT)
    && TextIs(s.begun, s.pieces, Written(s))
  }

  /** The frames begun are written, all but the last in whole. */
  predicate TextIs(begun: seq<Job>, pieces: seq<Piece>, written: Option<(nat, nat, nat)>) {
    match written
    case None => TextOf(pieces) == AllText(begun)
    case Some(w) =>
      && |begun| == w.0 + 1 && |begun[w.0].texts| == w.2 && w.1 <= w.2
      && TextOf(pieces) == AllText(begun[..w.0]) + Together(begun[w.0].texts[..w.1])
  }

  ghost predicate Inv(s: State) {
    LockOk(s) && DoneOk(s) && TextOk(s) && PiecesOk(s)
  }

  lemma StepKeepsLock(s: State, a: Act)
    requires Inv(s) && Can(s, a)
    ensures LockOk(Do(s, a))
  {
    hide TextOk, PiecesOk, GoodJob;
  }

  lemma StepKeepsDone(s: State, a: Act)
    requires Inv(s) && Can(s, a)
    ensures DoneOk(Do(s, a))
  {
    var s' := Do(s, a);
    forall t: Tid ensures CallOf(s', t).Writing? ==> !s'.done && CallOf(s', t).k <= CallOf(s', t).n {
      assert CallOf(s, t).Writing? || CallOf(s, t).Has? <==> s.lock == Some(Caller(t));
    }
    assert CallOf(s, CALLBACK).Has? || CallOf(s, CALLBACK).Writing? <==> s.lock == Some(Caller(CALLBACK));
  }

  lemma StepKeepsPieces(s: State, a: Act)
    requires Inv(s) && Can(s, a)
    ensures PiecesOk(Do(s, a))
  {
    hide LockOk, DoneOk, TextOk, Can, Current, Uninterrupted;
    Moves(s, a);
    if a.Put? || a.BeatPut? || a.FinalFlush? {
      Appended(s.pieces, Do(s, a).pieces[|s.pieces|]);
    }
  }

  /** What each step does to the last piece of the frame that is being written. */
  lemma Moves(s: State, a: Act)
    requires Inv(s) && Can(s, a)
    ensures var c, s' := Current(s), Do(s, a);
      if a.Put? || a.BeatPut? then
        var p := s'.pieces[|s.pieces|];
        Current(s') == Some(p) && if c.None? then p.k == 0 else Continues(c.value, p) && !Ends(c.value)
      else if a.FinalFlush? then
        var p := s'.pieces[|s.pieces|];
        c.None? && Current(s').None? && p.k == 0 && Ends(p)
      else s'.pieces == s.pieces && if Current(s').Some? then Current(s') == c else c.Some? ==> Ends(c.value)
  {
    if a.Put? || a.BeatPut? {
      MovesOn(s, a);
    } else {
      MovesNot(s, a);
    }
  }

  lemma MovesOn(s: State, a: Act)
    requires Inv(s) && Can(s, a) && (a.Put? || a.BeatPut?)
    ensures var c, p := Current(s), Do(s, a).pieces[|s.pieces|];
      Current(Do(s, a)) == Some(p) && if c.None? then p.k == 0 else Continues(c.value, p) && !Ends(c.value)
  {
    Writes(s, a);
    assert TextIs(s.begun, s.pieces, Written(s));
    hide Written, LockOk, PiecesOk, GoodJob, TextOf, AllText, Together, DoneOk, CallOf;
  }

  lemma MovesNot(s: State, a: Act)
    requires Inv(s) && Can(s, a) && !a.Put? && !a.BeatPut?
    ensures var c, s' := Current(s), Do(s, a);
      if a.FinalFlush? then
        var p := s'.pieces[|s.pieces|];
        c.None? && Current(s').None? && p.k == 0 && Ends(p)
      else s'.pieces == s.pieces && if Current(s').Some? then Current(s') == c else c.Some? ==> Ends(c.value)
  {
    Writes(s, a);
    assert TextIs(s.begun, s.pieces, Written(s));
    SameFrame(s, a);
    hide Can, Do, Written, LockOk, PiecesOk, GoodJob, TextOf, AllText, Together, DoneOk;
  }

  /** The frame goes on with the same holder and the same texts. */
  lemma SameFrame(s: State, a: Act)
    requires Can(s, a) && !a.Put? && !a.BeatPut?
    ensures var s' := Do(s, a);
      && (a.FinalFlush? ==> s'.pieces == s.pieces + [Piece(BodyWriter, |s.begun|, 0, 1, "")])
      && (!a.FinalFlush? ==> s'.pieces == s.pieces)
      && s.begun <= s'.begun
      && (s'.lock == s.lock || s.lock.None? || s'.lock.None?)
  {
  }

  lemma StepKeepsText(s: State, a: Act)
    requires Inv(s) && Can(s, a)
    ensures TextOk(Do(s, a))
  {
    hide PiecesOk, TextIs, AllText, TextOf, Together;
    JobsGood(s, a);
    Writes(s, a);
    match a
    case Begin(t) => BeginText(s.begun, s.pieces, s.calls[t].job);
    case BeatLock => BeginText(s.begun, s.pieces, BEAT);
    case Put(t) => PutText(s.begun, s.pieces, Written(s).value, Do(s, a).pieces[|s.pieces|]);
    case BeatPut => PutText(s.begun, s.pieces, Written(s).value, Do(s, a).pieces[|s.pieces|]);
    case Unlock(_) => EndText(s.begun, s.pieces, Written(s).value);
    case BeatUnlock(_) => EndText(s.begun, s.pieces, Written(s).value);
    case FinalFlush => FlushText(s.begun, s.pieces, Do(s, a).pieces[|s.pieces|]);
    case _ =>
  }

  /** What each step does to the frame that is being written. */
  lemma Writes(s: State, a: Act)
    requires Inv(s) && Can(s, a)
    ensures var w, w' := Written(s), Written(Do(s, a));
      match a
      case Begin(t) => w.None? && w' == Some((|s.begun|, 0, |s.calls[t].job.texts|))
      case BeatLock => w.None? && w' == Some((|s.begun|, 0, 2))
      case Put(t) =>
        var c := s.calls[t];
        w == Some((c.frame, c.k, c.n)) && c.k < c.n && w' == Some((c.frame, c.k + 1, c.n)) && s.lock == Some(Caller(t))
      case BeatPut =>
        && w == Some((s.beat.frame, s.beat.k, 2)) && s.beat.k < 2 && w' == Some((s.beat.frame, s.beat.k + 1, 2))
        && s.lock == Some(Beater) && s.beat.frame < |s.begun| && s.begun[s.beat.frame] == BEAT
      case Unlock(_) => w.Some? && w.value.1 == w.value.2 && w'.None?
      case BeatUnlock(_) => w.Some? && w.value.1 == w.value.2 && w'.None?
      case FinalFlush => w.None? && w'.None?
      case _ => w' == w
  {
    hide PiecesOk, AllText, TextOf, Together, GoodJob;
  }

  lemma BeginText(begun: seq<Job>, pieces: seq<Piece>, job: Job)
    requires TextIs(begun, pieces, None)
    ensures TextIs(begun + [job], pieces, Some((|begun|, 0, |job.texts|)))
  {
    assert (begun + [job])[..|begun|] == begun && job.texts[..0] == [];
  }

  lemma PutText(begun: seq<Job>, pieces: seq<Piece>, w: (nat, nat, nat), p: Piece)
    requires TextIs(begun, pieces, Some(w)) && w.1 < w.2 && p.text == begun[w.0].texts[w.1]
    ensures TextIs(begun, pieces + [p], Some((w.0, w.1 + 1, w.2)))
  {
    var texts := begun[w.0].texts;
    assert texts[..w.1 + 1][..w.1] == texts[..w.1];
    MoreText(pieces, p);
  }

  lemma EndText(begun: seq<Job>, pieces: seq<Piece>, w: (nat, nat, nat))
    requires TextIs(begun, pieces, Some(w)) && w.1 == w.2
    ensures TextIs(begun, pieces, None)
  {
    var job := begun[w.0];
    assert begun == begun[..w.0] + [job] && job.texts[..w.2] == job.texts;
    OneText(begun[..w.0], job);
  }

  lemma FlushText(begun: seq<Job>, pieces: seq<Piece>, p: Piece)
    requires TextIs(begun, pieces, None) && p.text == ""
    ensures TextIs(begun + [LAST], pieces + [p], None)
  {
    OneText(begun, LAST);
    MoreText(pieces, p);
    assert Together([""]) == "" by { assert [""][..0] == []; }
  }

  lemma JobsGood(s: State, a: Act)
    requires Inv(s) && Can(s, a)
    ensures var s' := Do(s, a);
      && (forall i :: 0 <= i < |s'.begun| ==> GoodJob(s'.begun[i]))
      && (forall t: Tid :: CallOf(s', t).Wants? || CallOf(s', t).Has? ==> GoodJob(CallOf(s', t).job))
  {
    hide PiecesOk, LockOk, DoneOk, TextIs, GoodJob;
    var s' := Do(s, a);
    if a.BeatLock? || a.FinalFlush? {
      OwnJobs();
    }
    forall t: Tid | CallOf(s', t).Wants? || CallOf(s', t).Has? ensures GoodJob(CallOf(s', t).job) {
      assert CallOf(s, t).Wants? || CallOf(s, t).Has? ==> GoodJob(CallOf(s, t).job);
    }
  }

  lemma OwnJobs()
    ensures GoodJob(BEAT) && GoodJob(LAST)
  {
  }

  lemma OneText(jobs: seq<Job>, job: Job)
    ensures AllText(jobs + [job]) == AllText(jobs) + Together(job.texts)
  {
    assert (jobs + [job])[..|jobs|] == jobs;
  }

  lemma MoreText(pieces: seq<Piece>, p: Piece)
    ensures TextOf(pieces + [p]) == TextOf(pieces) + p.text
  {
    assert (pieces + [p])[..|pieces|] == pieces;
  }

  lemma Appended(pieces: seq<Piece>, p: Piece)
    requires Uninterrupted(pieces)
    requires if pieces == [] || Ends(pieces[|pieces| - 1]) then p.k == 0 else Continues(pieces[|pieces| - 1], p)
    ensures Uninterrupted(pieces + [p])
  {
  }

  lemma InitInv(heartbeat: bool)
    ensures Inv(Init(heartbeat))
  {
  }

  lemma {:induction false} RunKeepsInv(s: State, acts: seq<Act>)
    requires Inv(s) && IsRun(s, acts)
    ensures Inv(After(s, acts))
    decreases |acts|
  {
    hide Can, Do, LockOk, DoneOk, TextOk, PiecesOk;
    if acts != [] {
      StepKeepsLock(s, acts[0]);
      StepKeepsDone(s, acts[0]);
      StepKeepsText(s, acts[0]);
      StepKeepsPieces(s, acts[0]);
      RunKeepsInv(Do(s, acts[0]), acts[1..]);
    }
  }

  /** In every interleaving each frame is written whole and uninterrupted; what may be
      unfinished is the last one, by the goroutine that holds the lock. */
  lemma FramesAreWhole(heartbeat: bool, acts: seq<Act>)
    requires IsRun(Init(heartbeat), acts)
    ensures var s := After(Init(heartbeat), acts);
      && Uninterrupted(s.pieces)
      && (s.pieces != [] && !Ends(s.pieces[|s.pieces| - 1]) ==>
            s.lock == Some(s.pieces[|s.pieces| - 1].who) && !s.body.Returned?)
  {
    InitInv(heartbeat);
    RunKeepsInv(Init(heartbeat), acts);
  }

  // ----- a stream of events

  /** The events and heartbeats of the frames, in the order they were begun. */
  function FramesOf(jobs: seq<Job>): seq<Frame> {
    if jobs == [] then []
    else
      var c := jobs[|jobs| - 1].content;
      FramesOf(jobs[..|jobs| - 1])
      + (if c.OneEvent? then [Sent(c.event)] else if c.Comment? then [Frame.Heartbeat] else [])
  }

  predicate OnlyEvents(jobs: seq<Job>) {
    forall i :: 0 <= i < |jobs| ==> GoodJob(jobs[i]) && !jobs[i].content.Plain?
  }

  lemma {:induction false} JobsAreAStream(jobs: seq<Job>)
    requires OnlyEvents(jobs)
    ensures AllText(jobs) == Stream(FramesOf(jobs)) && AllSendable(FramesOf(jobs))
  {
    if jobs != [] {
      var front, last := jobs[..|jobs| - 1], jobs[|jobs| - 1];
      JobsAreAStream(front);
      assert GoodJob(last);
      if last.content.LastFlush? {
        assert Together([""]) == "" by { assert [""][..0] == []; }
        assert FramesOf(jobs) == FramesOf(front);
      } else {
        assert last.content.Comment? ==> Together(last.texts) == COMMENT by {
          TwoTogether(COMMENT, "");
        }
        assert FramesOf(jobs)[..|FramesOf(front)|] == FramesOf(front);
      }
    }
  }

  lemma TwoTogether(a: string, b: string)
    ensures Together([a, b]) == a + b
  {
    assert [a, b][..1] == [a] && [a][..0] == [];
    assert Together([a]) == "" + a;
  }

  lemma {:induction false} PartOfTogether(texts: seq<string>, k: nat)
    requires k <= |texts|
    ensures Together(texts[..k]) <= Together(texts)
    decreases |texts| - k
  {
    if k == |texts| {
      assert texts[..k] == texts;
    } else {
      assert texts[..k + 1][..k] == texts[..k];
      PartOfTogether(texts, k + 1);
    }
  }

  /** A call is refused exactly when the body-writer function has returned: until then every
      call that gets the lock writes. */
  lemma RefusedWhenReturned(s: State, t: Tid)
    requires Inv(s) && CallOf(s, t).Has?
    ensures Can(s, Refuse(t)) <==> s.body.Returned?
    ensures Can(s, Begin(t)) <==> !s.body.Returned?
  {
    hide TextOk, PiecesOk;
    assert s.lock == Some(Caller(t));
  }

  lemma {:induction false} BeatsOn(s: State, acts: seq<Act>)
    requires IsRun(s, acts) && (s.beat.Exited? ==> s.cancelled)
    ensures After(s, acts).beat.Exited? ==> After(s, acts).cancelled
    decreases |acts|
  {
    if acts != [] {
      BeatsOn(Do(s, acts[0]), acts[1..]);
    }
  }

  /** The heartbeat goes on until the stream is cancelled, which a failed beat does itself. */
  lemma HeartbeatLasts(heartbeat: bool, acts: seq<Act>)
    requires IsRun(Init(heartbeat), acts)
    ensures After(Init(heartbeat), acts).beat.Exited? ==> After(Init(heartbeat), acts).cancelled
  {
    BeatsOn(Init(heartbeat), acts);
  }

  /** In every interleaving of Sends from any goroutines with the heartbeat, what has been
      written is the frames in the order of their critical sections, each of them whole but
      the one that is being written; a client parses it to exactly their events in that order. */
  lemma EveryRunIsAStream(heartbeat: bool, acts: seq<Act>)
    requires IsRun(Init(heartbeat), acts) && OnlyEvents(After(Init(heartbeat), acts).begun)
    ensures var s := After(Init(heartbeat), acts);
      && TextOf(s.pieces) <= Stream(FramesOf(s.begun))
      && Feed(Connected(), TextOf(s.pieces)).items <= ObservedAll(FramesOf(s.begun))
      && (Written(s).None? ==>
            && TextOf(s.pieces) == Stream(FramesOf(s.begun))
            && Feed(Connected(), TextOf(s.pieces)).items == ObservedAll(FramesOf(s.begun)))
      && (Written(s).Some? ==>
            && |s.begun| == Written(s).value.0 + 1
            && Stream(FramesOf(s.begun[..|s.begun| - 1])) <= TextOf(s.pieces))
  {
    hide LockOk, DoneOk, PiecesOk, Can, Do, TextIs, Feed;
    InitInv(heartbeat);
    RunKeepsInv(Init(heartbeat), acts);
    var s := After(Init(heartbeat), acts);
    TextIsAStream(s.begun, s.pieces, Written(s));
    JobsAreAStream(s.begun);
    CutOffStream(FramesOf(s.begun), TextOf(s.pieces));
    StreamComesBack(FramesOf(s.begun));
  }

  lemma TextIsAStream(begun: seq<Job>, pieces: seq<Piece>, w: Option<(nat, nat, nat)>)
    requires OnlyEvents(begun) && TextIs(begun, pieces, w)
    ensures TextOf(pieces) <= Stream(FramesOf(begun))
    ensures w.None? ==> TextOf(pieces) == Stream(FramesOf(begun))
    ensures w.Some? ==>
      |begun| == w.value.0 + 1 && Stream(FramesOf(begun[..|begun| - 1])) <= TextOf(pieces)
  {
    hide GoodJob, TextOf, AllText, Together, Stream, FramesOf;
    JobsAreAStream(begun);
    if w.Some? {
      var (frame, k, n) := w.value;
      var front, last := begun[..frame], begun[frame];
      assert begun == front + [last];
      JobsAreAStream(front);
      OneText(front, last);
      PartOfTogether(last.texts, k);
    }
  }

  lemma ReturnedIsQuiet(s: State, a: Act)
    requires Inv(s) && Can(s, a) && s.body.Returned?
    ensures Do(s, a).pieces == s.pieces && Do(s, a).body.Returned?
  {
  }

  /** Once the body-writer function has returned the heartbeat has exited, and no step of
      any goroutine touches the writer again. */
  lemma NothingTouchesAfterReturn(heartbeat: bool, acts: seq<Act>, later: seq<Act>)
    requires IsRun(Init(heartbeat), acts) && IsRun(After(Init(heartbeat), acts), later)
    requires After(Init(heartbeat), acts).body.Returned?
    ensures var s := After(Init(heartbeat), acts);
      (s.beat.NoHeartbeat? || s.beat.Exited?) && After(s, later).pieces == s.pieces
  {
    InitInv(heartbeat);
    RunKeepsInv(Init(heartbeat), acts);
    StaysQuiet(After(Init(heartbeat), acts), later);
  }

  lemma {:induction false} StaysQuiet(s: State, later: seq<Act>)
    requires Inv(s) && s.body.Returned? && IsRun(s, later)
    ensures After(s, later).pieces == s.pieces
    decreases |later|
  {
    hide Can, Do, LockOk, DoneOk, TextOk, PiecesOk;
    if later != [] {
      ReturnedIsQuiet(s, later[0]);
      StepKeepsLock(s, later[0]);
      StepKeepsDone(s, later[0]);
      StepKeepsText(s, later[0]);
      StepKeepsPieces(s, later[0]);
      StaysQuiet(Do(s, later[0]), later[1..]);
    }
  }

  /** The function is never stuck on its way out: it can go on, or the goroutine it waits
      for, the heartbeat or the one that holds the lock, can. */
  lemma BodyIsNotStuck(s: State) returns (a: Act)
    requires Inv(s) && !s.body.InCallback? && !s.body.Returned?
    ensures Can(s, a)
    ensures !a.Call? && !a.Cancel? && !a.Tick?
  {
    match s.body
    case Cancelling => a := CancelOwn;
    case Joining =>
      if s.beat.NoHeartbeat? || s.beat.Exited? {
        a := Join;
      } else {
        a := BeatGoesOn(s);
      }
    case Locking => a := if s.lock.None? then BodyLock else HolderGoesOn(s);
    case Flushing => a := FinalFlush;
    case Retiring => a := SetDone;
    case Unlocking => a := Return;
  }

  function HolderGoesOn(s: State): Act
    requires Inv(s) && s.lock.Some?
  {
    match s.lock.value
    case Caller(t) =>
      var c := CallOf(s, t);
      if c.Has? then if s.done then Refuse(t) else Begin(t)
      else if c.k < c.n then Put(t) else Unlock(t)
    case Beater => if s.beat.k < 2 then BeatPut else BeatUnlock(false)
    case BodyWriter => if s.body.Flushing? then FinalFlush else if s.body.Retiring? then SetDone else Return
  }

  function BeatGoesOn(s: State): Act
    requires Inv(s) && s.cancelled && !s.beat.NoHeartbeat? && !s.beat.Exited?
  {
    match s.beat
    case Selecting => BeatStops
    case BeatWants => if s.lock.None? then BeatLock else HolderGoesOn(s)
    case Beating(_, k) => if k < 2 then BeatPut else BeatUnlock(false)
    case Failing => BeatFails
  }
}
