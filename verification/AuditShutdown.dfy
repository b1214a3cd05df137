/**
 Shutting the audit logger down: exactly when the wait group panics on the way, and that the
 shutdown can always be completed. A panic needs a writer that has passed its first check and
 not yet added itself while another such writer, or a registered one, is about: the first part
 gives the runs into both panics, the second an invariant that keeps clear of them.
 */
module AuditShutdown {
  import opened Common
  import opened AuditLogger
  import LB = LiveBroadcaster

  // ------------------------------------------------------------ what a state can lead to

  /**
   A step of a thread that is already present: no new call, and no tick that finds nothing
   to flush, which changes nothing.
   */
  predicate Internal(s: Logger, a: Action) {
    match a
    case WriteNil => false
    case Writer(_, op) => !op.Call?
    case Closer(_, op) => !op.Swap?
    case Loop(op) => op.Tick? ==> s.pipe.batch != []
    case BroadcastLive(_, _) => false
    case LiveStep(b) => !b.DrawId? && !b.Unsubscribe?
  }

  predicate InternalRun(s: Logger, actions: seq<Action>)
    decreases |actions|
  {
    actions == [] ||
    (Enabled(s, actions[0]) && Internal(s, actions[0]) && InternalRun(Step(s, actions[0]), actions[1..]))
  }

  /** Some run leads from s to s', which keeps the invariant. */
  ghost predicate Reaches(s: Logger, s': Logger) {
    exists actions ::
      Runs(s, actions) && After(s, actions) == s' && Inv(s')
  }

  /** The threads that are present lead from s to s' among themselves. */
  ghost predicate Leads(s: Logger, s': Logger) {
    exists actions ::
      InternalRun(s, actions) && Runs(s, actions) && After(s, actions) == s' && Inv(s')
  }

  lemma {:induction false} RunConcat(s: Logger, first: seq<Action>, second: seq<Action>)
    requires Runs(s, first) && Runs(After(s, first), second)
    ensures Runs(s, first + second)
    ensures After(s, first + second) == After(After(s, first), second)
    ensures InternalRun(s, first) && InternalRun(After(s, first), second) ==> InternalRun(s, first + second)
    decreases |first|
  {
    if first == [] {
      assert first + second == second;
    } else {
      assert (first + second)[1..] == first[1..] + second;
      RunConcat(Step(s, first[0]), first[1..], second);
    }
  }

  lemma ReachesOne(s: Logger, a: Action)
    requires Inv(s) && Enabled(s, a)
    ensures Reaches(s, Step(s, a))
    ensures Internal(s, a) ==> Leads(s, Step(s, a))
  {
    StepKeeps(s, a);
    assert Runs(Step(s, a), []) && InternalRun(Step(s, a), []);
    assert Runs(s, [a]) && After(s, [a]) == Step(s, a);
    assert Internal(s, a) ==> InternalRun(s, [a]);
  }

  lemma ReachesOn(s: Logger, s1: Logger, s2: Logger)
    requires Reaches(s, s1) && (Reaches(s1, s2) || Leads(s1, s2))
    ensures Reaches(s, s2)
  {
    var first :| Runs(s, first) && After(s, first) == s1 && Inv(s1);
    var second :| Runs(s1, second) && After(s1, second) == s2 && Inv(s2);
    RunConcat(s, first, second);
  }

  lemma LeadsHere(s: Logger)
    requires Inv(s)
    ensures Leads(s, s)
  {
    assert InternalRun(s, []) && Runs(s, []) && After(s, []) == s;
  }

  lemma LeadsOn(s: Logger, s1: Logger, s2: Logger)
    requires Leads(s, s1) && Leads(s1, s2)
    ensures Leads(s, s2)
  {
    var first :| InternalRun(s, first) && Runs(s, first) && After(s, first) == s1 && Inv(s1);
    var second :| InternalRun(s1, second) && Runs(s1, second) && After(s1, second) == s2 && Inv(s2);
    RunConcat(s, first, second);
  }

  // ------------------------------------------------------------ a counted writer can always leave

  /** A step of a writer outside the send and the broadcaster changes the gate and nothing else. */
  lemma GateMove(s: Logger, t: ThreadId, op: GateOp)
    requires Inv(s) && s.gate.panic.None? && WriterAt(s.gate, t, op) && t !in s.live.publishing
    requires !op.Sent? && !op.Dropped? && !op.Publish? && !op.Call?
    ensures Leads(s, s.(gate := WriterStep(s.gate, t, op)))
  {
    ReachesOne(s, Writer(t, op));
  }

  /** Only a writer with nothing but its Done left is inside Publish. */
  lemma NotPublishing(s: Logger, t: ThreadId)
    requires Inv(s) && t in s.gate.writers && !s.gate.writers[t].Leaving?
    ensures t !in s.live.publishing
  {
  }

  lemma LiveMove(s: Logger, b: LB.Action)
    requires Inv(s) && s.gate.panic.None? && LB.Enabled(s.live, b) && (b.Send? || b.EndPublish?)
    ensures Leads(s, s.(live := LB.Step(s.live, b)))
  {
    ReachesOne(s, LiveStep(b));
  }

  lemma SendOne(live: LB.Live, t: ThreadId, id: string)
    requires LB.Inv(live) && t in live.publishing && id in live.publishing[t].todo
    ensures var live' := LB.Step(live, LB.Send(t, id, false));
            t in live'.publishing && live'.publishing[t].todo == live.publishing[t].todo - {id}
  {
  }

  lemma {:induction false} FinishPublish(s: Logger, t: ThreadId) returns (s': Logger)
    requires Inv(s) && s.gate.panic.None? && t in s.live.publishing
    ensures Leads(s, s')
    ensures s' == s.(live := s'.live)
    ensures t !in s'.live.publishing
    decreases |s.live.publishing[t].todo|
  {
    var todo := s.live.publishing[t].todo;
    if todo == {} {
      LiveMove(s, LB.EndPublish(t));
      s' := s.(live := LB.Step(s.live, LB.EndPublish(t)));
    } else {
      var id :| id in todo;
      LiveMove(s, LB.Send(t, id, false));
      SendOne(s.live, t, id);
      var s1 := s.(live := LB.Step(s.live, LB.Send(t, id, false)));
      s' := FinishPublish(s1, t);
      LeadsOn(s, s1, s');
    }
  }

  function CountedRank(pc: WriterPc): nat {
    match pc case Registered(_) => 3 case Cleared(_) => 2 case Accepted(_) => 1 case _ => 0
  }

  /** In the gate only writer t has moved. */
  ghost predicate OnlyMoved(s: Logger, s': Logger, t: ThreadId, pc: WriterPc) {
    s'.gate == s.gate.(writers := s.gate.writers[t := pc])
  }

  function CountedOp(p: Pipe, pc: WriterPc): GateOp {
    match pc
    case Registered(_) => Recheck
    case Cleared(_) => if |p.buffer| < p.cap then Sent else Dropped
    case _ => Publish
  }

  lemma CountedEnabled(s: Logger, t: ThreadId)
    requires Inv(s) && s.gate.panic.None? && t in InFlight(s.gate.writers) && !s.gate.writers[t].Leaving?
    ensures Enabled(s, Writer(t, CountedOp(s.pipe, s.gate.writers[t])))
  {
  }

  lemma CountedMoves(s: Logger, t: ThreadId)
    requires s.gate.panic.None? && t in InFlight(s.gate.writers) && !s.gate.writers[t].Leaving?
    requires Enabled(s, Writer(t, CountedOp(s.pipe, s.gate.writers[t])))
    ensures var s' := Step(s, Writer(t, CountedOp(s.pipe, s.gate.writers[t])));
            && t in InFlight(s'.gate.writers) && OnlyMoved(s, s', t, s'.gate.writers[t])
            && CountedRank(s'.gate.writers[t]) < CountedRank(s.gate.writers[t])
  {
  }

  /** A counted writer can run up to its Done. */
  lemma {:induction false} ToLeaving(s: Logger, t: ThreadId) returns (s': Logger)
    requires Inv(s) && s.gate.panic.None? && t in InFlight(s.gate.writers)
    ensures Leads(s, s')
    ensures OnlyMoved(s, s', t, Leaving)
    ensures t !in s'.live.publishing
    decreases CountedRank(s.gate.writers[t])
  {
    if s.gate.writers[t].Leaving? {
      s' := s;
      if t in s.live.publishing { s' := FinishPublish(s, t); } else { LeadsHere(s); }
      assert s.gate.writers[t := Leaving] == s.gate.writers;
    } else {
      CountedEnabled(s, t);
      CountedMoves(s, t);
      var a := Writer(t, CountedOp(s.pipe, s.gate.writers[t]));
      ReachesOne(s, a);
      var s1 := Step(s, a);
      s' := ToLeaving(s1, t);
      MovedTwice(s, s1, s', t, s1.gate.writers[t], Leaving);
      LeadsOn(s, s1, s');
    }
  }

  lemma MovedTwice(s: Logger, s1: Logger, s2: Logger, t: ThreadId, pc: WriterPc, pc': WriterPc)
    requires OnlyMoved(s, s1, t, pc) && OnlyMoved(s1, s2, t, pc')
    ensures OnlyMoved(s, s2, t, pc')
  {
    assert s.gate.writers[t := pc][t := pc'] == s.gate.writers[t := pc'];
  }

  /** Nothing but the writers has moved in the gate, none of them to or from its first check. */
  ghost predicate SameGate(g: Gate, g': Gate, writes: Group) {
    Outside(g') == Outside(g.(writes := writes))
  }

  function Outside(g: Gate): (Gate, set<ThreadId>) {
    (g.(writers := map[]), CheckedOnes(g.writers))
  }

  /** A counted writer can run through its Done. */
  lemma LeaveOne(s: Logger, t: ThreadId) returns (s': Logger)
    requires Inv(s) && s.gate.panic.None? && t in InFlight(s.gate.writers)
    ensures Leads(s, s')
    ensures SameGate(s.gate, s'.gate, s.gate.writes.(count := s.gate.writes.count - 1))
  {
    var s1 := ToLeaving(s, t);
    GateMove(s1, t, Done);
    s' := s1.(gate := DoneOne(s1.gate, t));
    DoneKeepsGroup(s1.gate, t);
    LeadsOn(s, s1, s');
    CheckedStay(s.gate.writers, s'.gate.writers, t);
  }

  function CheckedOnes(writers: map<ThreadId, WriterPc>): set<ThreadId> {
    set t | t in writers && writers[t].Checked?
  }

  lemma CheckedStay(writers: map<ThreadId, WriterPc>, writers': map<ThreadId, WriterPc>, t: ThreadId)
    requires forall u :: u != t ==> (u in writers <==> u in writers') && (u in writers ==> writers'[u] == writers[u])
    requires t !in CheckedOnes(writers) && t !in CheckedOnes(writers')
    ensures CheckedOnes(writers') == CheckedOnes(writers)
  {
  }

  // ------------------------------------------------------------ when the wait group panics

  /**
   Some writer is between its first check and its Add, and it is not the only one that has
   passed its first check and not returned.
   */
  ghost predicate AtRisk(g: Gate) {
    CheckedOnes(g.writers) != {} && |CheckedOnes(g.writers)| + |InFlight(g.writers)| >= 2
  }

  /** From a parked Close the counted writers can all leave, the last one about to let it go. */
  lemma {:induction false} DrainToZero(s: Logger) returns (s': Logger)
    requires Inv(s) && s.gate.panic.None? && s.gate.writes.waiters == 1 && s.gate.writes.count > 0
    ensures Leads(s, s')
    ensures SameGate(s.gate, s'.gate, s.gate.writes.(count := 0))
    decreases s.gate.writes.count
  {
    var t :| t in InFlight(s.gate.writers);
    var s1 := LeaveOne(s, t);
    if s1.gate.writes.count > 0 {
      s' := DrainToZero(s1);
      LeadsOn(s, s1, s');
    } else {
      s' := s1;
    }
  }

  /** Some Close is parked and being let go, while some writer has yet to add. */
  ghost predicate LateWriter(g: Gate) {
    exists t, x :: IsLate(g, t, x)
  }

  ghost predicate IsLate(g: Gate, t: ThreadId, x: ThreadId) {
    && g.panic.None? && t in g.closers && g.closers[t].Parked?
    && g.writes.waiters == 1 && g.writes.count == 0 && x in CheckedOnes(g.writers)
  }

  lemma OnlyWaiting(g: Gate, loop: LoopPc, t: ThreadId)
    requires GroupOk(g) && CloseOk(g, loop) && t in g.closers && !g.closers[t].Parked?
    ensures !SomeParked(g)
    ensures g.writes.waiters == 0
    ensures g.writes.sema == 0
  {
  }

  lemma CloserMove(s: Logger, t: ThreadId, op: GateOp)
    requires Inv(s) && s.gate.panic.None? && CloserAt(s.gate, s.pipe.loop, t, op) && !op.Finish? && !op.Swap?
    ensures Leads(s, s.(gate := CloserStep(s.gate, s.pipe.loop, t, op)))
  {
    ReachesOne(s, Closer(t, op));
  }

  lemma ParkAndDrain(s: Logger, t: ThreadId, x: ThreadId) returns (s': Logger)
    requires Inv(s) && s.gate.panic.None? && t in s.gate.closers && s.gate.closers[t].Waiting?
    requires s.gate.writes.count > 0 && x in CheckedOnes(s.gate.writers)
    ensures Leads(s, s') && LateWriter(s'.gate)
  {
    OnlyWaiting(s.gate, s.pipe.loop, t);
    CloserMove(s, t, Enter);
    var s1 := s.(gate := CloserStep(s.gate, s.pipe.loop, t, Enter));
    s' := DrainToZero(s1);
    assert IsLate(s'.gate, t, x);
    LeadsOn(s, s1, s');
  }

  lemma AnotherChecked(writers: map<ThreadId, WriterPc>, x: ThreadId) returns (y: ThreadId)
    requires x in CheckedOnes(writers) && |CheckedOnes(writers)| >= 2
    ensures y in CheckedOnes(writers) && y != x
  {
    var others := CheckedOnes(writers) - {x};
    assert |others| >= 1;
    y :| y in others;
  }

  /** At risk, a Close about to wait can be led to where it is being let go and a writer is late. */
  lemma MeetsLateWriter(s: Logger, t: ThreadId) returns (s': Logger)
    requires Inv(s) && s.gate.panic.None? && t in s.gate.closers && s.gate.closers[t].Waiting? && AtRisk(s.gate)
    ensures Leads(s, s') && LateWriter(s'.gate)
  {
    var x :| x in CheckedOnes(s.gate.writers);
    if InFlight(s.gate.writers) == {} {
      var y := AnotherChecked(s.gate.writers, x);
      OnlyWaiting(s.gate, s.pipe.loop, t);
      NotPublishing(s, y);
      GateMove(s, y, Add);
      var s1 := s.(gate := AddOne(s.gate, y));
      s' := ParkAndDrain(s1, t, x);
      LeadsOn(s, s1, s');
    } else {
      s' := ParkAndDrain(s, t, x);
    }
  }

  /** An Add while the waiter is being let go: "Add called concurrently with Wait". */
  lemma AddCanPanic(s: Logger, t: ThreadId) returns (s': Logger)
    requires Inv(s) && s.gate.panic.None? && t in s.gate.closers && s.gate.closers[t].Waiting? && AtRisk(s.gate)
    ensures Leads(s, s')
    ensures s'.gate.panic == Some(AddDuringWait)
  {
    var s1 := MeetsLateWriter(s, t);
    var u, x :| IsLate(s1.gate, u, x);
    NotPublishing(s1, x);
    GateMove(s1, x, Add);
    s' := s1.(gate := AddOne(s1.gate, x));
    LeadsOn(s, s1, s');
  }

  function LetGoRank(pc: WriterPc): nat {
    match pc case Zeroed(_) => 3 case Confirmed(_) => 2 case _ => 1
  }

  function LetGoOp(pc: WriterPc): GateOp {
    match pc case Zeroed(_) => Confirm case Confirmed(_) => Reset case _ => Release
  }

  /** The next of the three accesses that let a parked Close go, on the gate alone. */
  lemma LetGoStep(g: Gate, u: ThreadId)
    requires GroupOk(g) && g.panic.None? && SomeParked(g) && u in Releasers(g.writers)
    ensures WriterAt(g, u, LetGoOp(g.writers[u]))
    ensures var op := LetGoOp(g.writers[u]);
            var g' := WriterStep(g, u, op);
            && SameGate(g, g', g'.writes) && g'.writes.count == g.writes.count
            && if op.Release? then g'.writes == Group(g.writes.count, 0, 1)
               else u in Releasers(g'.writers) && LetGoRank(g'.writers[u]) < LetGoRank(g.writers[u])
  {
    var op := LetGoOp(g.writers[u]);
    ReleaseKeepsGroup(g, u, op);
    CheckedStay(g.writers, WriterStep(g, u, op).writers, u);
  }

  /** The last writer lets the parked Close go without anybody else moving. */
  lemma {:induction false} LetGo(s: Logger, u: ThreadId) returns (s': Logger)
    requires Inv(s) && s.gate.panic.None? && SomeParked(s.gate) && u in Releasers(s.gate.writers)
    ensures Leads(s, s')
    ensures s' == s.(gate := s'.gate)
    ensures SameGate(s.gate, s'.gate, Group(s.gate.writes.count, 0, 1))
    decreases LetGoRank(s.gate.writers[u])
  {
    var op := LetGoOp(s.gate.writers[u]);
    LetGoStep(s.gate, u);
    NotPublishing(s, u);
    GateMove(s, u, op);
    s' := s.(gate := WriterStep(s.gate, u, op));
    if !op.Release? {
      var s1 := s';
      s' := LetGo(s1, u);
      LeadsOn(s, s1, s');
    }
  }

  lemma WakeAndLook(s: Logger, t: ThreadId) returns (s': Logger)
    requires Inv(s) && s.gate.panic.None? && t in s.gate.closers && s.gate.closers[t].Parked?
    requires s.gate.writes == Group(1, 0, 1)
    ensures Leads(s, s')
    ensures s'.gate.panic == Some(WaitReused)
  {
    CloserMove(s, t, Wake);
    var s1 := s.(gate := CloserStep(s.gate, s.pipe.loop, t, Wake));
    CloserMove(s1, t, Look);
    s' := s1.(gate := CloserStep(s1.gate, s1.pipe.loop, t, Look));
    LeadsOn(s, s1, s');
  }

  /** Released but not yet awake, a Close meets a late Add when it re-reads the state word. */
  lemma LateAdd(s: Logger, t: ThreadId, x: ThreadId) returns (s': Logger)
    requires Inv(s) && s.gate.panic.None? && t in s.gate.closers && s.gate.closers[t].Parked?
    requires s.gate.writes == Group(0, 0, 1) && x in CheckedOnes(s.gate.writers)
    ensures Leads(s, s')
    ensures s'.gate.panic == Some(WaitReused)
  {
    NotPublishing(s, x);
    GateMove(s, x, Add);
    var s1 := s.(gate := AddOne(s.gate, x));
    s' := WakeAndLook(s1, t);
    LeadsOn(s, s1, s');
  }

  /** An Add between the release and the re-read: "WaitGroup is reused before previous Wait has returned". */
  lemma WaitCanPanic(s: Logger, t: ThreadId) returns (s': Logger)
    requires Inv(s) && s.gate.panic.None? && t in s.gate.closers && s.gate.closers[t].Waiting? && AtRisk(s.gate)
    ensures Leads(s, s')
    ensures s'.gate.panic == Some(WaitReused)
  {
    var s1 := MeetsLateWriter(s, t);
    var waiter, x :| IsLate(s1.gate, waiter, x);
    assert Releasers(s1.gate.writers) != {};
    var u :| u in Releasers(s1.gate.writers);
    var s2 := LetGo(s1, u);
    s' := LateAdd(s2, waiter, x);
    LeadsOn(s, s1, s2);
    LeadsOn(s, s2, s');
  }

  // ------------------------------------------------------------ when it cannot

  /** The closer has been let go, or is about to be. */
  ghost predicate BeingLetGo(g: Gate) {
    exists t :: t in g.closers && (g.closers[t].Awake? || (g.closers[t].Parked? && g.writes.waiters == 0))
  }

  ghost predicate SomeWaiting(g: Gate) {
    exists t :: t in g.closers && g.closers[t].Waiting?
  }

  /** A closed gate from which no run leads to a panic. */
  ghost predicate Safe(g: Gate) {
    && g.closed
    && (|| PastWait(g)
        || (CheckedOnes(g.writers) == {} && (BeingLetGo(g) ==> g.writes.count == 0))
        || (|CheckedOnes(g.writers)| == 1 && InFlight(g.writers) == {} && SomeWaiting(g)))
  }

  ghost predicate OneCloser(g: Gate) {
    forall t, u :: t in g.closers && u in g.closers ==> t == u
  }

  lemma SafeAtSwap(g: Gate)
    requires g.closed && SomeWaiting(g) && !AtRisk(g) && OneCloser(g)
    ensures Safe(g)
  {
    if CheckedOnes(g.writers) != {} {
      assert |CheckedOnes(g.writers)| >= 1;
      assert |InFlight(g.writers)| == 0;
    }
  }

  lemma CheckedShrink(g: Gate, t: ThreadId, op: GateOp)
    requires g.closed && WriterAt(g, t, op)
    ensures CheckedOnes(WriterStep(g, t, op).writers) == if op.Add? then CheckedOnes(g.writers) - {t} else CheckedOnes(g.writers)
  {
    var writers := WriterStep(g, t, op).writers;
    forall u | u != t ensures u in CheckedOnes(writers) <==> u in CheckedOnes(g.writers) {
      assert u in writers <==> u in g.writers;
    }
    assert t in writers ==> !writers[t].Checked?;
  }

  lemma AddKeepsSafe(g: Gate, t: ThreadId)
    requires GroupOk(g) && g.panic.None? && Safe(g) && WriterAt(g, t, Add) && OneCloser(g)
    ensures Safe(AddOne(g, t)) && g.writes.waiters == 0
  {
    assert t in CheckedOnes(g.writers);
    assert PastWait(g) || SomeWaiting(g) || CheckedOnes(g.writers) == {};
    assert !SomeParked(g);
    CheckedShrink(g, t, Add);
  }

  lemma InFlightOnlyAdds(g: Gate, t: ThreadId, op: GateOp)
    requires GroupOk(g) && g.panic.None? && WriterAt(g, t, op) && !op.Add?
    ensures WriterStep(g, t, op).writes.count <= g.writes.count
    ensures InFlight(g.writers) == {} ==> InFlight(WriterStep(g, t, op).writers) == {}
  {
    WriterKeepsGroup(g, t, op);
    if op.Done? { assert t in InFlight(g.writers); }
  }

  /** A writer's move keeps a safe gate safe, and does not panic. */
  lemma WriterKeepsSafe(g: Gate, t: ThreadId, op: GateOp)
    requires GroupOk(g) && g.panic.None? && Safe(g) && WriterAt(g, t, op) && OneCloser(g)
    ensures var g' := WriterStep(g, t, op); g'.panic.None? && Safe(g')
  {
    var g' := WriterStep(g, t, op);
    WriterKeepsGroup(g, t, op);
    CheckedShrink(g, t, op);
    assert g'.closers == g.closers && g'.closed == g.closed;
    if op.Add? {
      AddKeepsSafe(g, t);
    } else {
      InFlightOnlyAdds(g, t, op);
      assert PastWait(g) ==> PastWait(g');
      assert SomeWaiting(g) ==> SomeWaiting(g');
      if BeingLetGo(g') && !PastWait(g) && CheckedOnes(g.writers) == {} {
        var u :| u in g'.closers && (g'.closers[u].Awake? || (g'.closers[u].Parked? && g'.writes.waiters == 0));
        assert BeingLetGo(g) || op.Reset?;
      }
    }
  }

  /** So is a Close's. */
  lemma CloserKeepsSafe(g: Gate, loop: LoopPc, t: ThreadId, op: GateOp)
    requires GroupOk(g) && CloseOk(g, loop) && g.panic.None? && Safe(g) && CloserAt(g, loop, t, op)
    ensures var g' := CloserStep(g, loop, t, op); g'.panic.None? && Safe(g')
  {
    var g' := CloserStep(g, loop, t, op);
    CloserKeepsGroup(g, loop, t, op);
    if !op.Swap? {
      assert forall u :: u in g.closers ==> u == t;
      assert t in g'.closers && g'.writers == g.writers && g'.closed;
      if op.Wake? || op.Look? { assert BeingLetGo(g); }
    }
  }

  lemma SafeStep(s: Logger, a: Action)
    requires Inv(s) && Safe(s.gate) && Enabled(s, a)
    ensures Step(s, a).gate.panic.None?
    ensures Safe(Step(s, a).gate)
  {
    match a
    case Writer(t, op) => WriterKeepsSafe(s.gate, t, op);
    case Closer(t, op) => CloserKeepsSafe(s.gate, s.pipe.loop, t, op);
    case _ =>
  }

  lemma {:induction false} SafeRun(s: Logger, actions: seq<Action>)
    requires Inv(s) && s.gate.panic.None? && Safe(s.gate) && Runs(s, actions)
    ensures !Panicked(After(s, actions))
    decreases |actions|
  {
    if actions != [] {
      SafeStep(s, actions[0]);
      StepKeeps(s, actions[0]);
      SafeRun(Step(s, actions[0]), actions[1..]);
    }
  }

  // ------------------------------------------------------------ the exact condition

  /** Some continuation panics. */
  ghost predicate CanPanic(s: Logger) {
    exists actions :: Runs(s, actions) && Panicked(After(s, actions))
  }

  /**
   From the swap of the winning Close on, a panic can be reached if and only if some writer
   is between its first check and its Add and another one has passed its first check and
   not finished.
   */
  lemma PanicIff(s: Logger, t: ThreadId)
    requires Inv(s) && !s.gate.closed && Enabled(s, Closer(t, Swap))
    ensures var s' := Step(s, Closer(t, Swap)); CanPanic(s') <==> AtRisk(s'.gate)
  {
    StepKeeps(s, Closer(t, Swap));
    var s' := Step(s, Closer(t, Swap));
    assert s'.gate.closers[t].Waiting?;
    if AtRisk(s'.gate) {
      var s1 := AddCanPanic(s', t);
      assert Leads(s', s1) && Panicked(s1);
    } else {
      SafeAtSwap(s'.gate);
      forall actions | Runs(s', actions) ensures !Panicked(After(s', actions)) {
        SafeRun(s', actions);
      }
    }
  }

  lemma CallMove(s: Logger, t: ThreadId, e: LogEntry)
    requires Inv(s) && s.gate.panic.None? && t !in s.gate.writers && t !in s.live.publishing
    ensures Reaches(s, s.(gate := WriterStep(s.gate, t, Call(e))))
  {
    ReachesOne(s, Writer(t, Call(e)));
  }

  /** A new Write call gets past its first check while the logger is open. */
  lemma BeginWrite(s: Logger, t: ThreadId, e: LogEntry) returns (s': Logger)
    requires Inv(s) && s.gate.panic.None? && !s.gate.closed && t !in s.gate.writers && t !in s.live.publishing
    ensures Reaches(s, s')
    ensures s' == s.(gate := s.gate.(writers := s.gate.writers[t := Checked(e)]))
  {
    CallMove(s, t, e);
    var s1 := s.(gate := WriterStep(s.gate, t, Call(e)));
    GateMove(s1, t, Check);
    s' := s1.(gate := WriterStep(s1.gate, t, Check));
    assert s.gate.writers[t := Called(e)][t := Checked(e)] == s.gate.writers[t := Checked(e)];
    ReachesOn(s, s1, s');
  }

  /** A fresh logger with one writer registered and another one past its first check. */
  lemma TwoWriters(e: LogEntry) returns (s': Logger)
    ensures Reaches(Init(1), s')
    ensures s'.gate == Gate(false, Group(1, 0, 0), false, map[1 := Registered(e), 2 := Checked(e)], map[], None)
  {
    InitInv(1);
    var s1 := BeginWrite(Init(1), 1, e);
    GateMove(s1, 1, Add);
    var s2 := s1.(gate := AddOne(s1.gate, 1));
    assert s2.gate.writers == map[1 := Registered(e)];
    s' := BeginWrite(s2, 2, e);
    ReachesOn(Init(1), s1, s2);
    ReachesOn(Init(1), s2, s');
  }

  /** Then a Close wins the swap. */
  lemma Race(e: LogEntry) returns (s': Logger)
    ensures Reaches(Init(1), s')
    ensures s'.gate ==
              Gate(true, Group(1, 0, 0), false, map[1 := Registered(e), 2 := Checked(e)], map[3 := Waiting], None)
  {
    var s := TwoWriters(e);
    ReachesOne(s, Closer(3, Swap));
    s' := Step(s, Closer(3, Swap));
    ReachesOn(Init(1), s, s');
  }

  /** Two concurrent writers and one Close of a fresh logger are enough for a panic. */
  lemma FreshLoggerCanPanic(e: LogEntry) returns (s': Logger)
    ensures Reaches(Init(1), s')
    ensures s'.gate.panic == Some(WaitReused)
  {
    var s := Race(e);
    assert CheckedOnes(s.gate.writers) == {2} && InFlight(s.gate.writers) == {1};
    s' := WaitCanPanic(s, 3);
    ReachesOn(Init(1), s, s');
  }

  // ------------------------------------------------------------ Close can always be completed

  /** With nobody waiting in the wait group the counted writers can all leave. */
  lemma {:induction false} FinishWriters(s: Logger) returns (s': Logger)
    requires Inv(s) && s.gate.panic.None? && s.gate.writes.waiters == 0
    ensures Leads(s, s')
    ensures SameGate(s.gate, s'.gate, s.gate.writes.(count := 0))
    decreases s.gate.writes.count
  {
    if s.gate.writes.count == 0 {
      LeadsHere(s);
      s' := s;
    } else {
      var t :| t in InFlight(s.gate.writers);
      var s1 := LeaveOne(s, t);
      s' := FinishWriters(s1);
      LeadsOn(s, s1, s');
    }
  }

  function LoopRank(loop: LoopPc): nat {
    match loop
    case Selecting => 6
    case Flushing => 5
    case Draining => 4
    case FinalFlushing => 3
    case StoreFlushing => 2
    case Exited => 0
  }

  /** What the flush goroutine can do next once done is closed. */
  function NextLoopOp(p: Pipe): LoopOp
    requires !p.loop.Exited?
  {
    match p.loop
    case Flushing => FlushBatch
    case Selecting => Stop
    case Draining => if p.buffer != [] then Drain else Drained
    case FinalFlushing => FinalFlush
    case StoreFlushing => StoreFlush
  }

  /** 2 for every entry of the batch, 3 for every one in the buffer, and where the loop stands. */
  function PipeRank(p: Pipe): nat {
    3 * |p.buffer| + 2 * |p.batch| + LoopRank(p.loop)
  }

  /** Every move of the flush goroutine but an idle tick brings it nearer to its end. */
  lemma LoopStepRank(p: Pipe, done: bool, op: LoopOp)
    requires DataOk(p) && LoopAt(p, done, op) && (op.Tick? ==> p.batch != [])
    ensures PipeRank(LoopStep(p, done, op)) < PipeRank(p)
  {
  }

  /** Once done is closed the flush goroutine can always run to its exit. */
  lemma {:induction false} FinishLoop(s: Logger) returns (s': Logger)
    requires Inv(s) && s.gate.panic.None? && s.gate.done
    ensures Leads(s, s')
    ensures s'.gate == s.gate
    ensures s'.pipe.loop.Exited?
    decreases PipeRank(s.pipe)
  {
    if s.pipe.loop.Exited? {
      LeadsHere(s);
      s' := s;
    } else {
      var op := NextLoopOp(s.pipe);
      ReachesOne(s, Loop(op));
      LoopStepRank(s.pipe, s.gate.done, op);
      var s1 := Step(s, Loop(op));
      s' := FinishLoop(s1);
      LeadsOn(s, s1, s');
    }
  }

  function CloserRank(pc: CloserPc): nat {
    match pc
    case Waiting => 6
    case Parked => 5
    case Awake => 4
    case Waited => 3
    case Signalled => 2
    case Joined => 1
    case Finished => 0
  }

  lemma CloserStepRank(g: Gate, loop: LoopPc, t: ThreadId, op: GateOp)
    requires CloserAt(g, loop, t, op) && !op.Swap?
    ensures var g' := CloserStep(g, loop, t, op);
            && t in g'.closers
            && (g'.panic.None? ==> CloserRank(g'.closers[t]) < CloserRank(g.closers[t]))
            && g'.closers == g.closers[t := g'.closers[t]]
  {
  }

  /** A parked Close can always be released. */
  lemma ReleaseParked(s: Logger, t: ThreadId) returns (s': Logger)
    requires Inv(s) && s.gate.panic.None? && t in s.gate.closers && s.gate.closers[t].Parked?
    ensures Leads(s, s')
    ensures s'.gate.closers == s.gate.closers
    ensures s'.gate.panic.None?
    ensures s'.gate.writes.sema > 0
  {
    assert SomeParked(s.gate);
    LeadsHere(s);
    var s1 := s;
    if s.gate.writes.waiters == 1 && s.gate.writes.count > 0 { s1 := DrainToZero(s); }
    s' := s1;
    assert SomeParked(s1.gate);
    if s1.gate.writes.sema == 0 {
      var u :| u in Releasers(s1.gate.writers);
      s' := LetGo(s1, u);
      LeadsOn(s, s1, s');
    }
  }

  function NextCloserOp(pc: CloserPc): GateOp
    requires !pc.Finished?
  {
    match pc
    case Waiting => Enter
    case Parked => Wake
    case Awake => Look
    case Waited => Signal
    case Signalled => Join
    case Joined => Finish
  }

  /** Nothing is in the way of closer t's next step. */
  ghost predicate WayClear(s: Logger, t: ThreadId) {
    && t in s.gate.closers
    && (s.gate.closers[t].Parked? ==> s.gate.writes.sema > 0)
    && (s.gate.closers[t].Awake? ==> s.gate.writes.count == 0)
    && (s.gate.closers[t].Signalled? ==> s.pipe.loop.Exited?)
  }

  /** With its way cleared, the winning Close takes its next step without a panic. */
  lemma CloserMoves(s: Logger, t: ThreadId) returns (s': Logger)
    requires Inv(s) && WayClear(s, t) && s.gate.panic.None? && !s.gate.closers[t].Finished?
    ensures Leads(s, s') && s'.gate.panic.None?
    ensures t in s'.gate.closers
    ensures CloserRank(s'.gate.closers[t]) < CloserRank(s.gate.closers[t])
  {
    var op := NextCloserOp(s.gate.closers[t]);
    CloserKeepsGroup(s.gate, s.pipe.loop, t, op);
    CloserStepRank(s.gate, s.pipe.loop, t, op);
    ReachesOne(s, Closer(t, op));
    s' := Step(s, Closer(t, op));
  }

  /**
   Close never deadlocks: from every state the invariant allows in which a Close has won the
   swap, the threads already present can run on, without a panic, until the store is closed.
   */
  lemma {:induction false} CloseCanFinish(s: Logger, t: ThreadId) returns (s': Logger)
    requires Inv(s) && s.gate.panic.None? && t in s.gate.closers
    ensures Leads(s, s')
    ensures CloseStore in s'.pipe.calls
    ensures s'.gate.panic.None?
    decreases CloserRank(s.gate.closers[t])
  {
    if s.gate.closers[t].Finished? {
      LeadsHere(s);
      s' := s;
      assert StoreClosed(s.gate);
    } else {
      LeadsHere(s);
      var s1 := s;
      match s.gate.closers[t] {
        case Parked => s1 := ReleaseParked(s, t);
        case Awake =>
          OnlyWaiting(s.gate, s.pipe.loop, t);
          s1 := FinishWriters(s);
        case Signalled =>
          assert CloserOk(s.gate, s.pipe.loop, s.gate.closers[t]);
          s1 := FinishLoop(s);
        case _ =>
      }
      var s2 := CloserMoves(s1, t);
      s' := CloseCanFinish(s2, t);
      LeadsOn(s, s1, s2);
      LeadsOn(s, s2, s');
    }
  }
}
