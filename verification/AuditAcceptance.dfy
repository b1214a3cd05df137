/**
 What a call of Write comes to: its entry is accepted and shown to the subscribers, once, unless
 the logger was closed or its buffer full while the call ran; and what a new logger has room for.
 */
module AuditAcceptance {
  import opened Common
  import opened AuditLogger
  import opened AuditShutdown
  import LB = LiveBroadcaster

  // ------------------------------------------------------------ what one thread's steps do

  /** The entries the step appends to what the logger has accepted. */
  function Appended(s: Logger, a: Action): seq<LogEntry>
    requires Enabled(s, a)
  {
    var before, after := s.pipe.accepted, Step(s, a).pipe.accepted;
    if before <= after then after[|before|..] else after
  }

  /** The entry thread t begins to publish in this step. */
  function Published(s: Logger, a: Action, t: ThreadId): seq<LogEntry>
    requires Enabled(s, a)
  {
    var live, live' := s.live, Step(s, a).live;
    if t !in live.publishing && t in live'.publishing then [live'.publishing[t].entry] else []
  }

  /** What thread t's own steps of the run append to the accepted entries. */
  function Taken(s: Logger, actions: seq<Action>, t: ThreadId): seq<LogEntry>
    requires Runs(s, actions)
    decreases |actions|
  {
    if actions == [] then []
    else
      (if actions[0].Writer? && actions[0].wt == t then Appended(s, actions[0]) else [])
      + Taken(Step(s, actions[0]), actions[1..], t)
  }

  /** What thread t publishes in the run. */
  function Shown(s: Logger, actions: seq<Action>, t: ThreadId): seq<LogEntry>
    requires Runs(s, actions)
    decreases |actions|
  {
    if actions == [] then [] else Published(s, actions[0], t) + Shown(Step(s, actions[0]), actions[1..], t)
  }

  /** Thread t is inside Write, and its call returns with the last step of the run. */
  predicate Returns(s: Logger, actions: seq<Action>, t: ThreadId)
    requires Runs(s, actions)
    decreases |actions|
  {
    if actions == [] then t !in s.gate.writers
    else t in s.gate.writers && Returns(Step(s, actions[0]), actions[1..], t)
  }

  /** At some state of the run the logger is closed or its buffer is full. */
  predicate Hampered(s: Logger, actions: seq<Action>)
    requires Runs(s, actions)
    decreases |actions|
  {
    || s.gate.closed || |s.pipe.buffer| >= s.pipe.cap
    || (actions != [] && Hampered(Step(s, actions[0]), actions[1..]))
  }

  /** The call is at a point before its send, with entry e. */
  predicate BeforeSend(pc: WriterPc, e: LogEntry) {
    pc == Called(e) || pc == Checked(e) || pc == Registered(e) || pc == Cleared(e)
  }

  predicate OnTheWayOut(pc: WriterPc) {
    pc.Leaving? || pc.Zeroed? || pc.Confirmed? || pc.Waking?
  }

  lemma OtherWriterPasses(g: Gate, u: ThreadId, op: GateOp, t: ThreadId)
    requires WriterAt(g, u, op) && u != t && t in g.writers
    ensures var g' := WriterStep(g, u, op); t in g'.writers && g'.writers[t] == g.writers[t]
  {
  }

  /** Another thread's step leaves the call where it is. */
  lemma OthersPass(s: Logger, a: Action, t: ThreadId)
    requires Enabled(s, a) && t in s.gate.writers && !(a.Writer? && a.wt == t)
    ensures var g := Step(s, a).gate; t in g.writers && g.writers[t] == s.gate.writers[t]
    ensures Published(s, a, t) == []
  {
    match a
    case Writer(u, op) =>
      OtherWriterPasses(s.gate, u, op, t);
      assert Step(s, a).live == s.live || Step(s, a).live == LB.Step(s.live, LB.BeginPublish(u, s.gate.writers[u].entry));
    case _ =>
  }

  /** Its own step before the send brings it on, sends, or turns away for one of two reasons. */
  lemma StepBeforeSend(s: Logger, t: ThreadId, op: GateOp, e: LogEntry)
    requires Enabled(s, Writer(t, op)) && t in s.gate.writers && BeforeSend(s.gate.writers[t], e)
    requires Step(s, Writer(t, op)).gate.panic.None?
    ensures Published(s, Writer(t, op), t) == []
    ensures var g, n := Step(s, Writer(t, op)).gate, Appended(s, Writer(t, op));
            || (n == [] && t in g.writers && BeforeSend(g.writers[t], e))
            || (n == [e] && t in g.writers && g.writers[t] == Accepted(e))
            || (n == [] && (s.gate.closed || |s.pipe.buffer| >= s.pipe.cap) && (t in g.writers ==> g.writers[t].Leaving?))
  {
  }

  lemma StepAfterSend(s: Logger, t: ThreadId, op: GateOp, e: LogEntry)
    requires Enabled(s, Writer(t, op)) && t in s.gate.writers && s.gate.writers[t] == Accepted(e)
    ensures var g := Step(s, Writer(t, op)).gate;
            Appended(s, Writer(t, op)) == [] && Published(s, Writer(t, op), t) == [e] && t in g.writers && g.writers[t].Leaving?
  {
  }

  lemma StepOnTheWayOut(s: Logger, t: ThreadId, op: GateOp)
    requires Enabled(s, Writer(t, op)) && t in s.gate.writers && OnTheWayOut(s.gate.writers[t])
    ensures var g := Step(s, Writer(t, op)).gate;
            && Appended(s, Writer(t, op)) == [] && Published(s, Writer(t, op), t) == []
            && (t in g.writers ==> OnTheWayOut(g.writers[t]))
  {
  }

  // ------------------------------------------------------------ what a whole call does

  lemma {:induction false} LeavingTakesNothing(s: Logger, actions: seq<Action>, t: ThreadId)
    requires Runs(s, actions) && Returns(s, actions, t) && (t in s.gate.writers ==> OnTheWayOut(s.gate.writers[t]))
    ensures Taken(s, actions, t) == [] && Shown(s, actions, t) == []
    decreases |actions|
  {
    if actions != [] {
      var a := actions[0];
      if a.Writer? && a.wt == t { StepOnTheWayOut(s, t, a.wop); } else { OthersPass(s, a, t); }
      LeavingTakesNothing(Step(s, a), actions[1..], t);
    }
  }

  lemma {:induction false} AcceptedIsShown(s: Logger, actions: seq<Action>, t: ThreadId, e: LogEntry)
    requires Runs(s, actions) && Returns(s, actions, t) && t in s.gate.writers && s.gate.writers[t] == Accepted(e)
    ensures Taken(s, actions, t) == [] && Shown(s, actions, t) == [e]
    decreases |actions|
  {
    var a := actions[0];
    if a.Writer? && a.wt == t {
      StepAfterSend(s, t, a.wop, e);
      LeavingTakesNothing(Step(s, a), actions[1..], t);
    } else {
      OthersPass(s, a, t);
      AcceptedIsShown(Step(s, a), actions[1..], t, e);
    }
  }

  /** Either taken and shown, once; or neither, and there was a reason. */
  ghost predicate Settled(s: Logger, actions: seq<Action>, t: ThreadId, e: LogEntry)
    requires Runs(s, actions)
  {
    || (Taken(s, actions, t) == [e] && Shown(s, actions, t) == [e])
    || (Taken(s, actions, t) == [] && Shown(s, actions, t) == [] && Hampered(s, actions))
  }

  lemma {:induction false} CallSettles(s: Logger, actions: seq<Action>, t: ThreadId, e: LogEntry)
    requires Runs(s, actions) && Returns(s, actions, t) && t in s.gate.writers && BeforeSend(s.gate.writers[t], e)
    ensures Settled(s, actions, t, e)
    decreases |actions|
  {
    var a, s', rest := actions[0], Step(s, actions[0]), actions[1..];
    if a.Writer? && a.wt == t {
      assert s'.gate.panic.None?;
      StepBeforeSend(s, t, a.wop, e);
      if t in s'.gate.writers && BeforeSend(s'.gate.writers[t], e) {
        CallSettles(s', rest, t, e);
      } else if t in s'.gate.writers && s'.gate.writers[t] == Accepted(e) {
        AcceptedIsShown(s', rest, t, e);
      } else {
        LeavingTakesNothing(s', rest, t);
      }
    } else {
      OthersPass(s, a, t);
      CallSettles(s', rest, t, e);
    }
  }

  /**
   Every call of Write that returns has had its entry accepted and published exactly once, or
   neither; and neither only if the logger was closed or its buffer was full at some moment of
   the call.
   */
  lemma WriteSettles(s: Logger, actions: seq<Action>, t: ThreadId, e: LogEntry)
    requires Enabled(s, Writer(t, Call(e)))
    requires Runs(Step(s, Writer(t, Call(e))), actions) && Returns(Step(s, Writer(t, Call(e))), actions, t)
    ensures Settled(Step(s, Writer(t, Call(e))), actions, t, e)
  {
    CallSettles(Step(s, Writer(t, Call(e))), actions, t, e);
  }

  // ------------------------------------------------------------ nothing else is accepted

  /** A step accepts nothing, or the one entry of the call that makes it, in front of nothing. */
  lemma OnlyWritesAccept(s: Logger, a: Action)
    requires Enabled(s, a)
    ensures var before, after := s.pipe.accepted, Step(s, a).pipe.accepted;
            || after == before
            || (a.Writer? && a.wt in s.gate.writers && BeforeSend(s.gate.writers[a.wt], s.gate.writers[a.wt].entry)
                && after == before + [s.gate.writers[a.wt].entry])
  {
  }

  /** BroadcastLive publishes its entry and accepts nothing. */
  lemma BroadcastOnlyShows(s: Logger, t: ThreadId, e: LogEntry)
    requires Enabled(s, BroadcastLive(t, e))
    ensures var s' := Step(s, BroadcastLive(t, e));
            Published(s, BroadcastLive(t, e), t) == [e] && s'.gate == s.gate && s'.pipe == s.pipe
  {
  }

  // ------------------------------------------------------------ room is used

  /** Thread t alone has moved: it has written e and returned, and its entry is in the buffer. */
  ghost predicate Wrote(s: Logger, s': Logger, t: ThreadId, e: LogEntry) {
    && s'.gate == s.gate
    && s'.pipe == s.pipe.(buffer := s.pipe.buffer + [e], accepted := s.pipe.accepted + [e])
    && t !in s'.live.publishing
  }

  lemma OpenGroup(s: Logger)
    requires Inv(s) && s.gate.panic.None? && !s.gate.closed
    ensures s.gate.writes.waiters == 0 && s.gate.writes.sema == 0 && s.gate.closers == map[]
  {
  }

  /** A writer past its first check while the logger is open gets its entry into a buffer with room. */
  lemma CheckedSends(s: Logger, t: ThreadId, e: LogEntry) returns (s': Logger)
    requires Inv(s) && s.gate.panic.None? && !s.gate.closed && |s.pipe.buffer| < s.pipe.cap
    requires t in s.gate.writers && s.gate.writers[t] == Checked(e)
    ensures Reaches(s, s')
    ensures s'.gate == s.gate.(writes := s.gate.writes.(count := s.gate.writes.count + 1), writers := s.gate.writers[t := Accepted(e)])
    ensures s'.pipe == s.pipe.(buffer := s.pipe.buffer + [e], accepted := s.pipe.accepted + [e]) && s'.live == s.live
  {
    OpenGroup(s);
    NotPublishing(s, t);
    ReachesOne(s, Writer(t, Add));
    var s1 := Step(s, Writer(t, Add));
    assert s1.gate == s.gate.(writes := s.gate.writes.(count := s.gate.writes.count + 1), writers := s.gate.writers[t := Registered(e)]);
    s' := RegisteredSends(s1, t, e);
    assert s.gate.writers[t := Registered(e)][t := Accepted(e)] == s.gate.writers[t := Accepted(e)];
    ReachesOn(s, s1, s');
  }

  lemma RegisteredSends(s: Logger, t: ThreadId, e: LogEntry) returns (s': Logger)
    requires Inv(s) && s.gate.panic.None? && !s.gate.closed && |s.pipe.buffer| < s.pipe.cap
    requires t in s.gate.writers && s.gate.writers[t] == Registered(e)
    ensures Reaches(s, s')
    ensures s'.gate == s.gate.(writers := s.gate.writers[t := Accepted(e)])
    ensures s'.pipe == s.pipe.(buffer := s.pipe.buffer + [e], accepted := s.pipe.accepted + [e]) && s'.live == s.live
  {
    NotPublishing(s, t);
    ReachesOne(s, Writer(t, Recheck));
    var s1 := Step(s, Writer(t, Recheck));
    assert s1 == s.(gate := s.gate.(writers := s.gate.writers[t := Cleared(e)]));
    ReachesOne(s1, Writer(t, Sent));
    s' := Step(s1, Writer(t, Sent));
    assert s.gate.writers[t := Cleared(e)][t := Accepted(e)] == s.gate.writers[t := Accepted(e)];
    ReachesOn(s, s1, s');
  }

  /** An accepted entry can be published to every subscriber ... */
  lemma AcceptedShows(s: Logger, t: ThreadId, e: LogEntry) returns (s': Logger)
    requires Inv(s) && s.gate.panic.None? && t in s.gate.writers && s.gate.writers[t] == Accepted(e)
    ensures Reaches(s, s')
    ensures s'.gate == s.gate.(writers := s.gate.writers[t := Leaving]) && s'.pipe == s.pipe && t !in s'.live.publishing
  {
    NotPublishing(s, t);
    ReachesOne(s, Writer(t, Publish));
    var s1 := Step(s, Writer(t, Publish));
    s' := FinishPublish(s1, t);
    ReachesOn(s, s1, s');
  }

  /** ... and the call return. */
  lemma LeavingReturns(s: Logger, t: ThreadId) returns (s': Logger)
    requires Inv(s) && s.gate.panic.None? && !s.gate.closed && t !in s.live.publishing
    requires t in s.gate.writers && s.gate.writers[t] == Leaving
    ensures Reaches(s, s')
    ensures s' == s.(gate := s.gate.(writes := s.gate.writes.(count := s.gate.writes.count - 1), writers := s.gate.writers - {t}))
  {
    OpenGroup(s);
    DoneKeepsGroup(s.gate, t);
    ReachesOne(s, Writer(t, Done));
    s' := Step(s, Writer(t, Done));
  }

  lemma AcceptedReturns(s: Logger, t: ThreadId, e: LogEntry) returns (s': Logger)
    requires Inv(s) && s.gate.panic.None? && !s.gate.closed && t in s.gate.writers && s.gate.writers[t] == Accepted(e)
    ensures Reaches(s, s')
    ensures s'.gate == s.gate.(writes := s.gate.writes.(count := s.gate.writes.count - 1), writers := s.gate.writers - {t})
    ensures s'.pipe == s.pipe && t !in s'.live.publishing
  {
    var s1 := AcceptedShows(s, t, e);
    s' := LeavingReturns(s1, t);
    assert s.gate.writers[t := Leaving] - {t} == s.gate.writers - {t};
    ReachesOn(s, s1, s');
  }

  lemma CheckedReturns(s: Logger, t: ThreadId, e: LogEntry) returns (s': Logger)
    requires Inv(s) && s.gate.panic.None? && !s.gate.closed && |s.pipe.buffer| < s.pipe.cap
    requires t in s.gate.writers && s.gate.writers[t] == Checked(e)
    ensures Reaches(s, s')
    ensures s'.gate == s.gate.(writers := s.gate.writers - {t}) && t !in s'.live.publishing
    ensures s'.pipe == s.pipe.(buffer := s.pipe.buffer + [e], accepted := s.pipe.accepted + [e])
  {
    var s1 := CheckedSends(s, t, e);
    s' := AcceptedReturns(s1, t, e);
    assert s.gate.writers[t := Accepted(e)] - {t} == s.gate.writers - {t};
    ReachesOn(s, s1, s');
  }

  /**
   Wherever the logger is open, its buffer has room and the thread is idle, it can write its
   entry: some run appends exactly that to what is accepted, and the call returns.
   */
  lemma RoomIsUsed(s: Logger, t: ThreadId, e: LogEntry) returns (s': Logger)
    requires Inv(s) && s.gate.panic.None? && !s.gate.closed && |s.pipe.buffer| < s.pipe.cap
    requires t !in s.gate.writers && t !in s.live.publishing
    ensures Reaches(s, s') && Wrote(s, s', t, e)
  {
    var s1 := BeginWrite(s, t, e);
    s' := CheckedReturns(s1, t, e);
    assert s.gate.writers[t := Checked(e)] - {t} == s.gate.writers;
    ReachesOn(s, s1, s');
  }

  // ------------------------------------------------------------ how much a new logger takes

  /** The size of the buffer of a new logger. */
  function SizeOf(bufferSize: int): nat {
    if bufferSize <= 0 then 1000 else bufferSize
  }

  /** While the flush goroutine does not move, a new logger takes that many entries ... */
  lemma {:induction false} NewLoggerTakes(bufferSize: int, es: seq<LogEntry>) returns (s': Logger)
    requires |es| <= SizeOf(bufferSize)
    ensures Reaches(Init(bufferSize), s')
    ensures s'.gate == Init(bufferSize).gate
    ensures s'.pipe == Init(bufferSize).pipe.(buffer := es, accepted := es) && 0 !in s'.live.publishing
  {
    InitInv(bufferSize);
    if es == [] {
      s' := Init(bufferSize);
      LeadsHere(s');
      assert Runs(s', []) && After(s', []) == s';
    } else {
      var n := |es| - 1;
      var s := NewLoggerTakes(bufferSize, es[..n]);
      s' := RoomIsUsed(s, 0, es[n]);
      assert es[..n] + [es[n]] == es;
      ReachesOn(Init(bufferSize), s, s');
    }
  }

  /** ... and never more. */
  lemma {:induction false} NewLoggerTakesNoMore(s: Logger, actions: seq<Action>)
    requires Inv(s) && Runs(s, actions) && forall a :: a in actions ==> !a.Loop?
    requires s.pipe.accepted == s.pipe.buffer
    ensures |After(s, actions).pipe.accepted| <= s.pipe.cap
    decreases |actions|
  {
    if actions != [] {
      StepKeeps(s, actions[0]);
      assert actions[0] in actions;
      NewLoggerTakesNoMore(Step(s, actions[0]), actions[1..]);
    }
  }

  // ------------------------------------------------------------ full batches

  /** Every batch so far holds a hundred entries, and the next one is handed over when it does. */
  ghost predicate Hundreds(p: Pipe) {
    && (forall b :: b in Batches(p.calls) ==> |b| == 100)
    && ((p.loop.Selecting? && |p.batch| < 100) || (p.loop.Flushing? && |p.batch| == 100))
  }

  lemma HundredsStep(p: Pipe, done: bool, op: LoopOp)
    requires Hundreds(p) && LoopAt(p, done, op) && !op.Tick? && !op.Stop?
    ensures Hundreds(LoopStep(p, done, op))
  {
    if op.FlushBatch? { BatchesAppend(p.calls, WriteBatch(p.batch)); }
  }

  /** Between ticks of the timer and before the shutdown the store gets a hundred entries at a time. */
  lemma {:induction false} BatchesAreHundreds(s: Logger, actions: seq<Action>)
    requires Runs(s, actions) && Hundreds(s.pipe) && forall a :: a in actions ==> a != Loop(Tick) && a != Loop(Stop)
    ensures Hundreds(After(s, actions).pipe)
    decreases |actions|
  {
    if actions != [] {
      var a := actions[0];
      assert a in actions;
      if a.Loop? { HundredsStep(s.pipe, s.gate.done, a.lop); }
      assert !Stopping(s.pipe.loop);
      assert forall x :: x in actions[1..] ==> x in actions;
      BatchesAreHundreds(Step(s, a), actions[1..]);
    }
  }

  lemma NewLoggerHundreds(bufferSize: int, actions: seq<Action>)
    requires Runs(Init(bufferSize), actions) && forall a :: a in actions ==> a != Loop(Tick) && a != Loop(Stop)
    ensures forall b :: b in Batches(After(Init(bufferSize), actions).pipe.calls) ==> |b| == 100
    ensures |After(Init(bufferSize), actions).pipe.batch| <= 100
  {
    BatchesAreHundreds(Init(bufferSize), actions);
  }
}
