/**
 What is left of the audit logger when a panic of the wait group is recovered: the request that
 called Write is given up, and everybody else goes on with a counter that no longer counts the
 writers. No accepted entry is lost, but Close may wait for ever: when exactly is the last result.
 */
module AuditRecovery {
  import opened Common
  import opened AuditLogger
  import opened AuditShutdown
  import LB = LiveBroadcaster

  // ------------------------------------------------------------ runs with recovery

  /** A panic inside Write is recovered by the request's handler: the call is over. */
  function Recovered(g: Gate, t: ThreadId): Gate {
    g.(panic := None, writers := g.writers - {t})
  }

  /** A step, and the recovery from the panic it may raise; a panic of Close ends the run. */
  function Landed(s: Logger, a: Action): Logger
    requires Enabled(s, a)
  {
    var s' := Step(s, a);
    if a.Writer? && s'.gate.panic.Some? then s'.(gate := Recovered(s'.gate, a.wt)) else s'
  }

  predicate LandedRuns(s: Logger, actions: seq<Action>)
    decreases |actions|
  {
    actions == [] || (Enabled(s, actions[0]) && LandedRuns(Landed(s, actions[0]), actions[1..]))
  }

  function LandedAfter(s: Logger, actions: seq<Action>): Logger
    requires LandedRuns(s, actions)
    decreases |actions|
  {
    if actions == [] then s else LandedAfter(Landed(s, actions[0]), actions[1..])
  }

  // ------------------------------------------------------------ what every such run keeps

  /** The logger is closed and no writer may still send. */
  ghost predicate Quiet(g: Gate) {
    g.closed && !MaySend(g)
  }

  /** The wait group is in order as long as nothing panicked, and not needed afterwards. */
  ghost predicate Calm(g: Gate) {
    if g.panic.None? then GroupOk(g) || Quiet(g) else g.panic.value.WaitReused?
  }

  ghost predicate LandedCore(g: Gate, p: Pipe) {
    && Calm(g)
    && CloseOk(g, p.loop)
    && DataOk(p)
    && CallsOk(p)
    && (CloseStore in p.calls <==> StoreClosed(g))
  }

  ghost predicate LandedInv(s: Logger) {
    LandedCore(s.gate, s.pipe) && LiveOk(s)
  }

  lemma ParkedIsClosed(g: Gate, loop: LoopPc)
    requires CloseOk(g, loop) && SomeParked(g)
    ensures g.closed
  {
  }

  /** A wait group in order panics in Add only, and then nobody may send any more. */
  lemma PanicIsQuiet(g: Gate, loop: LoopPc, t: ThreadId, op: GateOp)
    requires GroupOk(g) && CloseOk(g, loop) && g.panic.None? && WriterAt(g, t, op)
    requires WriterStep(g, t, op).panic.Some?
    ensures op.Add? && Quiet(Recovered(WriterStep(g, t, op), t))
  {
    WriterKeepsGroup(g, t, op);
    ParkedIsClosed(g, loop);
    WaitExcludesSenders(g);
    QuietStays(g, t, op);
  }

  lemma QuietStays(g: Gate, t: ThreadId, op: GateOp)
    requires Quiet(g) && WriterAt(g, t, op)
    ensures Quiet(WriterStep(g, t, op))
    ensures Quiet(Recovered(WriterStep(g, t, op), t))
  {
    var g' := WriterStep(g, t, op);
    if MaySend(g') { SendersShrink(g, t, op); }
    assert forall u :: u in Recovered(g', t).writers ==> u in g'.writers && g'.writers[u] == Recovered(g', t).writers[u];
  }

  lemma RecoveredKeepsClose(g: Gate, loop: LoopPc, t: ThreadId)
    requires CloseOk(g, loop)
    ensures CloseOk(Recovered(g, t), loop)
  {
    var g' := Recovered(g, t);
    assert MaySend(g') ==> MaySend(g);
    forall u | u in g'.closers ensures CloserOk(g', loop, g'.closers[u]) { assert CloserOk(g, loop, g.closers[u]); }
  }

  /** A writer's step on the gate, with recovery. */
  function LandedWriter(g: Gate, t: ThreadId, op: GateOp): Gate
    requires WriterAt(g, t, op)
  {
    var g' := WriterStep(g, t, op);
    if g'.panic.Some? then Recovered(g', t) else g'
  }

  lemma WriterKeepsCalm(g: Gate, loop: LoopPc, t: ThreadId, op: GateOp)
    requires Calm(g) && CloseOk(g, loop) && g.panic.None? && WriterAt(g, t, op)
    ensures Calm(LandedWriter(g, t, op)) && LandedWriter(g, t, op).panic.None?
    ensures CloseOk(LandedWriter(g, t, op), loop)
  {
    WriterKeepsClose(g, loop, t, op);
    RecoveredKeepsClose(WriterStep(g, t, op), loop, t);
    if Quiet(g) {
      QuietStays(g, t, op);
    } else {
      WriterKeepsGroup(g, t, op);
      if WriterStep(g, t, op).panic.Some? { PanicIsQuiet(g, loop, t, op); }
    }
  }

  lemma LandedKeepsCore(g: Gate, p: Pipe, t: ThreadId, op: GateOp)
    requires LandedCore(g, p) && g.panic.None? && WriterAt(g, t, op) && (op.Sent? ==> |p.buffer| < p.cap)
    ensures LandedCore(LandedWriter(g, t, op), if op.Sent? then Push(p, g.writers[t].entry) else p)
  {
    WriterKeepsCalm(g, p.loop, t, op);
    assert LandedWriter(g, t, op).closers == g.closers;
    if op.Sent? {
      assert MaySend(g);
      SendKeepsPipe(g, p, t);
    }
  }

  lemma LandedKeepsLive(s: Logger, t: ThreadId, op: GateOp)
    requires LiveOk(s) && Enabled(s, Writer(t, op))
    ensures LiveOk(Landed(s, Writer(t, op)))
  {
    if op.Sent? {
      SendKeepsLive(s, t);
    } else if op.Publish? {
      PublishKeeps(s, t);
    } else {
      MovesKeepLive(s.gate, t, op, s.live.publishing.Keys, s.pipe.accepted);
    }
  }

  lemma WriterKeepsLanded(s: Logger, t: ThreadId, op: GateOp)
    requires LandedInv(s) && Enabled(s, Writer(t, op))
    ensures LandedInv(Landed(s, Writer(t, op)))
  {
    LandedKeepsCore(s.gate, s.pipe, t, op);
    LandedKeepsLive(s, t, op);
  }

  lemma QuietCloserKeeps(g: Gate, p: Pipe, t: ThreadId, op: GateOp)
    requires LandedCore(g, p) && g.panic.None? && Quiet(g) && CloserAt(g, p.loop, t, op)
    ensures var g' := CloserStep(g, p.loop, t, op); Calm(g') && CloseOk(g', p.loop)
  {
    var g' := CloserStep(g, p.loop, t, op);
    assert g'.writers == g.writers;
    if !op.Swap? {
      assert CloserOk(g, p.loop, g.closers[t]);
      assert forall u :: u in g.closers ==> u == t;
      assert CloserOk(g', p.loop, g'.closers[t]);
    }
  }

  lemma CloserKeepsLanded(s: Logger, t: ThreadId, op: GateOp)
    requires LandedInv(s) && Enabled(s, Closer(t, op))
    ensures LandedInv(Landed(s, Closer(t, op)))
  {
    var g, p := s.gate, s.pipe;
    var g' := CloserStep(g, p.loop, t, op);
    if Quiet(g) {
      QuietCloserKeeps(g, p, t, op);
    } else {
      CloserKeepsGroup(g, p.loop, t, op);
      CloserKeepsClose(g, p.loop, t, op);
    }
    if op.Finish? {
      assert CloserOk(g, p.loop, g.closers[t]);
      assert !StoreClosed(g);
      CloseStoreKeeps(p);
      assert g'.closers[t].Finished?;
    } else {
      assert StoreClosed(g') <==> StoreClosed(g) by {
        assert forall u :: u in g.closers && u != t ==> u in g'.closers;
        assert forall u :: u in g'.closers && u != t ==> u in g.closers;
      }
    }
  }

  lemma LoopKeepsLanded(s: Logger, op: LoopOp)
    requires LandedInv(s) && Enabled(s, Loop(op))
    ensures LandedInv(Landed(s, Loop(op)))
  {
    LoopKeepsClose(s.gate, s.pipe, op);
    LoopKeepsData(s.pipe, s.gate.done, op);
    LoopKeepsCalls(s.pipe, s.gate.done, op);
    var p' := LoopStep(s.pipe, s.gate.done, op);
    assert CloseStore in p'.calls <==> CloseStore in s.pipe.calls;
    assert p'.accepted == s.pipe.accepted;
  }

  lemma LandedKeeps(s: Logger, a: Action)
    requires LandedInv(s) && Enabled(s, a)
    ensures LandedInv(Landed(s, a))
  {
    match a
    case WriteNil =>
    case Writer(t, op) => WriterKeepsLanded(s, t, op);
    case Closer(t, op) => CloserKeepsLanded(s, t, op);
    case Loop(op) => LoopKeepsLanded(s, op);
    case BroadcastLive(t, e) => LB.StepKeeps(s.live, LB.BeginPublish(t, e));
    case LiveStep(b) => LB.StepKeeps(s.live, b);
  }

  lemma {:induction false} LandedRunKeeps(s: Logger, actions: seq<Action>)
    requires LandedInv(s) && LandedRuns(s, actions)
    ensures LandedInv(LandedAfter(s, actions))
    decreases |actions|
  {
    if actions != [] {
      LandedKeeps(s, actions[0]);
      LandedRunKeeps(Landed(s, actions[0]), actions[1..]);
    }
  }

  /**
   However many panics of Write are recovered, nothing accepted is lost, repeated or reordered,
   the store sees its calls in the same order, and all accepted entries before its Close; the
   only panic that is left to end a run is that of a Close waking too late.
   */
  lemma RecoveryLosesNothing(bufferSize: int, actions: seq<Action>)
    requires LandedRuns(Init(bufferSize), actions)
    ensures var s := LandedAfter(Init(bufferSize), actions);
            && s.pipe.accepted == Handed(s.pipe.calls) + s.pipe.batch + s.pipe.buffer
            && Ordered(s.pipe.calls)
            && (CloseStore in s.pipe.calls ==> s.pipe.accepted == Handed(s.pipe.calls))
            && (Panicked(s) ==> s.gate.panic == Some(WaitReused))
  {
    InitInv(bufferSize);
    LandedRunKeeps(Init(bufferSize), actions);
    var s := LandedAfter(Init(bufferSize), actions);
    if CloseStore in s.pipe.calls {
      var t :| t in s.gate.closers && s.gate.closers[t].Finished?;
      assert CloserOk(s.gate, s.pipe.loop, s.gate.closers[t]);
    }
  }

  // ------------------------------------------------------------ after a recovered panic

  /** With no writer left that may send, no continuation accepts another entry. */
  lemma {:induction false} QuietAcceptsNothing(s: Logger, actions: seq<Action>)
    requires LandedInv(s) && Quiet(s.gate) && LandedRuns(s, actions)
    ensures LandedAfter(s, actions).pipe.accepted == s.pipe.accepted
    decreases |actions|
  {
    if actions != [] {
      var s' := Landed(s, actions[0]);
      StepAfterWait(s, actions[0]);
      match actions[0] {
        case Writer(t, op) => QuietStays(s.gate, t, op);
        case _ => assert s'.gate.writers == s.gate.writers;
      }
      LandedKeeps(s, actions[0]);
      QuietAcceptsNothing(s', actions[1..]);
    }
  }

  /** So once a panic of Write has been recovered. */
  lemma NothingAcceptedAfterRecovery(s: Logger, t: ThreadId, op: GateOp, actions: seq<Action>)
    requires LandedInv(s) && Enabled(s, Writer(t, op)) && Step(s, Writer(t, op)).gate.panic.Some?
    requires LandedRuns(Landed(s, Writer(t, op)), actions)
    ensures LandedAfter(Landed(s, Writer(t, op)), actions).pipe.accepted == s.pipe.accepted
  {
    var s' := Landed(s, Writer(t, op));
    if Quiet(s.gate) { QuietStays(s.gate, t, op); } else { PanicIsQuiet(s.gate, s.pipe.loop, t, op); }
    LandedKeeps(s, Writer(t, op));
    QuietAcceptsNothing(s', actions);
  }

  /** Some run of the flush goroutine alone leads from s to s'. */
  ghost predicate Flushes(s: Logger, s': Logger) {
    exists actions ::
      (forall a: Action :: a in actions ==> a.Loop?) && LandedRuns(s, actions) && LandedAfter(s, actions) == s'
  }

  lemma FlushesOn(s: Logger, op: LoopOp, s': Logger)
    requires Enabled(s, Loop(op)) && Flushes(Landed(s, Loop(op)), s')
    ensures Flushes(s, s')
  {
    var rest :| (forall a: Action :: a in rest ==> a.Loop?) && LandedRuns(Landed(s, Loop(op)), rest) &&
                LandedAfter(Landed(s, Loop(op)), rest) == s';
    var actions := [Loop(op)] + rest;
    assert actions[1..] == rest && actions[0] == Loop(op);
    assert forall a: Action :: a in actions ==> a.Loop?;
    assert LandedRuns(s, actions) && LandedAfter(s, actions) == s';
  }

  /** What brings the flush goroutine on, when it still has entries. */
  function WorkOp(p: Pipe): LoopOp {
    match p.loop
    case Selecting => if p.buffer != [] then Receive else Tick
    case Flushing => FlushBatch
    case Draining => if p.buffer != [] then Drain else Drained
    case _ => FinalFlush
  }

  /** Whatever became of Close, the flush goroutine alone can hand over all that was accepted. */
  lemma {:induction false} FlushesAll(s: Logger) returns (s': Logger)
    requires LandedInv(s) && !Panicked(s)
    ensures Flushes(s, s')
    ensures Handed(s'.pipe.calls) == s.pipe.accepted
    decreases PipeRank(s.pipe)
  {
    if s.pipe.buffer == [] && s.pipe.batch == [] {
      assert LandedRuns(s, []) && LandedAfter(s, []) == s;
      s' := s;
    } else {
      var op := WorkOp(s.pipe);
      LoopStepRank(s.pipe, s.gate.done, op);
      LandedKeeps(s, Loop(op));
      s' := FlushesAll(Landed(s, Loop(op)));
      FlushesOn(s, op, s');
    }
  }

  // ------------------------------------------------------------ whether Close can still end

  /** Some continuation closes the store. */
  ghost predicate CanClose(s: Logger) {
    exists actions :: LandedRuns(s, actions) && CloseStore in LandedAfter(s, actions).pipe.calls
  }

  /** Close is parked, and the counter is past what the writers that are left can count down. */
  ghost predicate Stuck(g: Gate) {
    && g.panic.None? && g.closed && g.writes.sema == 0
    && g.writes.count >= 1 + |InFlight(g.writers)|
    && (forall t :: t in g.closers ==> g.closers[t].Parked?)
    && (forall u :: u in g.writers ==> !g.writers[u].Confirmed? && !g.writers[u].Waking?)
  }

  lemma StuckMove(g: Gate, t: ThreadId, op: GateOp)
    requires Stuck(g) && WriterAt(g, t, op) && !op.Add? && !op.Done? && !op.Confirm?
    ensures Stuck(LandedWriter(g, t, op))
  {
    match op
    case Call(e) => MoveUncounted(g.writers, t, Called(e));
    case Check => MoveUncounted(g.writers, t, g.writers[t]);
    case Recheck => MoveCounted(g.writers, t, Leaving);
    case Sent => MoveCounted(g.writers, t, Accepted(g.writers[t].entry));
    case Dropped => MoveCounted(g.writers, t, Leaving);
    case Publish => MoveCounted(g.writers, t, Leaving);
    case _ =>
  }

  lemma StuckWriter(g: Gate, t: ThreadId, op: GateOp)
    requires Stuck(g) && WriterAt(g, t, op)
    ensures Stuck(LandedWriter(g, t, op))
  {
    match op
    case Add => MoveUncounted(g.writers, t, Registered(g.writers[t].entry));
    case Done => LeaveCounted(g.writers, t, g.writes.waiters);
    case Confirm => MoveReleaser(g.writers, t, g.writers[t]);
    case _ => StuckMove(g, t, op);
  }

  lemma StuckStep(s: Logger, a: Action)
    requires Stuck(s.gate) && Enabled(s, a)
    ensures Stuck(Landed(s, a).gate)
  {
    match a
    case Writer(t, op) => StuckWriter(s.gate, t, op);
    case Closer(t, op) => assert CloserStep(s.gate, s.pipe.loop, t, op) == s.gate;
    case _ =>
  }

  lemma {:induction false} StuckForEver(s: Logger, actions: seq<Action>)
    requires LandedInv(s) && Stuck(s.gate) && LandedRuns(s, actions)
    ensures CloseStore !in LandedAfter(s, actions).pipe.calls
    decreases |actions|
  {
    if actions != [] {
      StuckStep(s, actions[0]);
      LandedKeeps(s, actions[0]);
      StuckForEver(Landed(s, actions[0]), actions[1..]);
    }
  }

  /** A run without a panic needs no recovery. */
  lemma {:induction false} RunsLand(s: Logger, actions: seq<Action>)
    requires Runs(s, actions) && !Panicked(After(s, actions))
    ensures LandedRuns(s, actions)
    ensures LandedAfter(s, actions) == After(s, actions)
    decreases |actions|
  {
    if actions != [] {
      assert actions[1..] != [] ==> Enabled(Step(s, actions[0]), actions[1..][0]);
      RunsLand(Step(s, actions[0]), actions[1..]);
    }
  }

  /** The late Add has panicked in the wait group of a Close that is being let go. */
  ghost predicate LateAddPanics(s: Logger, x: ThreadId) {
    Inv(s) && Enabled(s, Writer(x, Add)) && Step(s, Writer(x, Add)).gate.panic.Some?
  }

  ghost predicate SomeConfirmed(g: Gate) {
    exists u :: u in g.writers && g.writers[u].Confirmed?
  }

  lemma LateAddState(s: Logger, x: ThreadId)
    requires LateAddPanics(s, x)
    ensures var g := Landed(s, Writer(x, Add)).gate;
            && g == s.gate.(writes := Group(1, 1, 0), writers := s.gate.writers - {x})
            && InFlight(g.writers) == {} && SomeParked(g)
            && OneReleaser(g.writers, Zeroed(1), Confirmed(1))
  {
    WriterKeepsGroup(s.gate, x, Add);
    MoveUncounted(s.gate.writers, x, s.gate.writers[x]);
    assert InFlight(s.gate.writers) == {};
    var u :| u in s.gate.writers && Releasers(s.gate.writers) == {u} &&
             (s.gate.writers[u] == Zeroed(1) || s.gate.writers[u] == Confirmed(1));
    assert u != x;
  }

  lemma ResetRestores(s: Logger, u: ThreadId) returns (s': Logger)
    requires LandedInv(s) && s.gate.panic.None? && s.gate.writes == Group(1, 1, 0) && InFlight(s.gate.writers) == {}
    requires SomeParked(s.gate) && Releasers(s.gate.writers) == {u} && s.gate.writers[u] == Confirmed(1)
    ensures Enabled(s, Writer(u, Reset)) && s' == Landed(s, Writer(u, Reset))
    ensures Inv(s') && s'.gate.panic.None? && s'.gate.closers == s.gate.closers
  {
    assert u in s.gate.writers;
    s' := Landed(s, Writer(u, Reset));
    LandedKeeps(s, Writer(u, Reset));
    MoveReleaser(s.gate.writers, u, Waking(1));
    assert SomeParked(s'.gate) && s'.gate.writers[u] == Waking(1);
  }

  /**
   After the recovery from a late Add, Close can still end exactly when the writer that lets it
   go had already re-read the state word; otherwise it waits for ever, whatever else happens.
   */
  lemma CloseEndsIff(s: Logger, x: ThreadId)
    requires LateAddPanics(s, x)
    ensures CanClose(Landed(s, Writer(x, Add))) <==> SomeConfirmed(s.gate)
  {
    var s1 := Landed(s, Writer(x, Add));
    LandedKeeps(s, Writer(x, Add));
    LateAddState(s, x);
    var u :| u in s1.gate.writers && Releasers(s1.gate.writers) == {u} &&
             (s1.gate.writers[u] == Zeroed(1) || s1.gate.writers[u] == Confirmed(1));
    if s1.gate.writers[u] == Zeroed(1) {
      assert forall v :: v in s1.gate.writers && v != u ==> v !in Releasers(s1.gate.writers);
      assert forall v :: v in s.gate.writers && v != x ==> v in s1.gate.writers;
      assert Stuck(s1.gate);
      forall actions | LandedRuns(s1, actions) ensures CloseStore !in LandedAfter(s1, actions).pipe.calls {
        StuckForEver(s1, actions);
      }
    } else {
      CloseEnds(s1, u);
      assert u in s.gate.writers;
    }
  }

  lemma CloseEnds(s: Logger, u: ThreadId)
    requires LandedInv(s) && s.gate.panic.None? && s.gate.writes == Group(1, 1, 0) && InFlight(s.gate.writers) == {}
    requires SomeParked(s.gate) && Releasers(s.gate.writers) == {u} && s.gate.writers[u] == Confirmed(1)
    ensures CanClose(s)
  {
    var s1 := ResetRestores(s, u);
    var t :| t in s.gate.closers && s.gate.closers[t].Parked?;
    var s2 := CloseCanFinish(s1, t);
    var rest :| InternalRun(s1, rest) && Runs(s1, rest) && After(s1, rest) == s2 && Inv(s2);
    RunsLand(s1, rest);
    CanCloseOn(s, Writer(u, Reset), rest);
  }

  lemma CanCloseOn(s: Logger, a: Action, rest: seq<Action>)
    requires Enabled(s, a) && LandedRuns(Landed(s, a), rest)
    requires CloseStore in LandedAfter(Landed(s, a), rest).pipe.calls
    ensures CanClose(s)
  {
    var actions := [a] + rest;
    assert actions[1..] == rest && actions[0] == a;
    assert LandedRuns(s, actions) && LandedAfter(s, actions) == LandedAfter(Landed(s, a), rest);
  }
}
