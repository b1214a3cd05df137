/** The audit logger: Write, Close, the flush goroutine and the store, as a step system. */
module AuditLogger {
  import opened Common
  import LB = LiveBroadcaster

  // Any number of Write calls, any number of racing Close calls, one flush goroutine and the
  // live broadcaster are interleaved at every atomic operation: a load, a swap, one select
  // branch, taking the broadcaster's lock, one call into the store, and inside the wait group
  // every access to its state word.
  //
  // The state has three parts. `Gate` is what decides who may still write: the closed flag,
  // the wait group, the done channel and the program counter of every Write and Close call.
  // `Pipe` is the way of an entry: the channel buffer, the current batch, the flush
  // goroutine's program counter and the history of store calls. `live` is the broadcaster.
  // A panic of the Go runtime or of the wait group is a state, and ends the run.

  type LogEntry = LB.LogEntry
  type ThreadId = LB.ThreadId

  const BATCH_FLUSH_THRESHOLD := 100

  /** What the logger does to its store. */
  datatype StoreCall = WriteBatch(entries: seq<LogEntry>) | Flush | CloseStore

  /**
   Where a Write call stands. It is counted by the wait group from Registered to Leaving.
   A Done that finds waiters after counting down to zero has three more accesses to make.
   */
  datatype WriterPc =
    | Called(entry: LogEntry)      // before the first closed.Load
    | Checked(entry: LogEntry)     // saw closed == false
    | Registered(entry: LogEntry)  // writes.Add(1) done
    | Cleared(entry: LogEntry)     // saw closed == false again; about to send
    | Accepted(entry: LogEntry)    // sent; about to publish
    | Leaving                      // only the deferred writes.Done is left
    | Zeroed(waiters: nat)         // counted down to zero with waiters present
    | Confirmed(waiters: nat)      // re-read the state word and found it unchanged
    | Waking(waiters: nat)         // cleared it; this many waiters still to release

  /** Where the Close call that won the swap stands; the others return at once. */
  datatype CloserPc =
    | Waiting    // about to enter writes.Wait
    | Parked     // counted as a waiter, blocked on the semaphore
    | Awake      // released; about to re-read the state word
    | Waited
    | Signalled
    | Joined
    | Finished

  datatype LoopPc = Selecting | Flushing | Draining | FinalFlushing | StoreFlushing | Exited

  datatype Panic = NegativeCounter | AddDuringWait | WaitReused | ClosedTwice

  /** sync.WaitGroup: one state word of a counter and a number of waiters, and a semaphore. */
  datatype Group = Group(count: int, waiters: nat, sema: nat)

  datatype Gate = Gate(
    closed: bool,
    writes: Group,
    done: bool,
    writers: map<ThreadId, WriterPc>,
    closers: map<ThreadId, CloserPc>,
    panic: Option<Panic>)

  datatype Pipe = Pipe(
    cap: nat,
    buffer: seq<LogEntry>,
    batch: seq<LogEntry>,
    loop: LoopPc,
    accepted: seq<LogEntry>,
    calls: seq<StoreCall>)

  datatype Logger = Logger(gate: Gate, pipe: Pipe, live: LB.Live, broadcast: set<LogEntry>)

  /** NewLogger: a non-positive buffer size means 1000. */
  function Init(bufferSize: int): Logger {
    Logger(Gate(false, Group(0, 0, 0), false, map[], map[], None),
           Pipe(if bufferSize <= 0 then 1000 else bufferSize, [], [], Selecting, [], []),
           LB.Init(), {})
  }

  // ------------------------------------------------------------ the gate

  datatype GateOp =
    | Call(entry: LogEntry)
    | Check
    | Add
    | Recheck
    | Sent      // the select took the send branch
    | Dropped   // the select took the default branch
    | Publish   // takes the broadcaster's read lock
    | Done
    | Confirm
    | Reset
    | Release
    | Swap
    | Enter
    | Wake
    | Look
    | Signal
    | Join
    | Finish

  predicate WriterAt(g: Gate, t: ThreadId, op: GateOp) {
    match op
    case Call(_) => t !in g.writers
    case Check => t in g.writers && g.writers[t].Called?
    case Add => t in g.writers && g.writers[t].Checked?
    case Recheck => t in g.writers && g.writers[t].Registered?
    case Sent => t in g.writers && g.writers[t].Cleared?
    case Dropped => t in g.writers && g.writers[t].Cleared?
    case Publish => t in g.writers && g.writers[t].Accepted?
    case Done => t in g.writers && g.writers[t].Leaving?
    case Confirm => t in g.writers && g.writers[t].Zeroed?
    case Reset => t in g.writers && g.writers[t].Confirmed?
    case Release => t in g.writers && g.writers[t].Waking?
    case _ => false
  }

  /** writes.Add(1): the atomic addition, and its complaint about a waiter that was let go. */
  function AddOne(g: Gate, t: ThreadId): Gate
    requires WriterAt(g, t, Add)
  {
    var w := g.writes;
    g.(writes := w.(count := w.count + 1),
       writers := g.writers[t := Registered(g.writers[t].entry)],
       panic := if w.waiters != 0 && w.count + 1 == 1 then Some(AddDuringWait) else None)
  }

  /** writes.Done: the atomic subtraction; with waiters at zero it goes on to release them. */
  function DoneOne(g: Gate, t: ThreadId): Gate
    requires WriterAt(g, t, Done)
  {
    var w := g.writes.(count := g.writes.count - 1);
    if w.count < 0 then g.(writes := w, panic := Some(NegativeCounter))
    else if w.count > 0 || w.waiters == 0 then g.(writes := w, writers := g.writers - {t})
    else g.(writes := w, writers := g.writers[t := Zeroed(w.waiters)])
  }

  function WriterStep(g: Gate, t: ThreadId, op: GateOp): Gate
    requires WriterAt(g, t, op)
  {
    var w := g.writes;
    match op
    case Call(e) => g.(writers := g.writers[t := Called(e)])
    case Check =>
      if g.closed then g.(writers := g.writers - {t})
      else g.(writers := g.writers[t := Checked(g.writers[t].entry)])
    case Add => AddOne(g, t)
    case Recheck =>
      if g.closed then g.(writers := g.writers[t := Leaving])
      else g.(writers := g.writers[t := Cleared(g.writers[t].entry)])
    case Sent => g.(writers := g.writers[t := Accepted(g.writers[t].entry)])
    case Dropped => g.(writers := g.writers[t := Leaving])
    case Publish => g.(writers := g.writers[t := Leaving])
    case Done => DoneOne(g, t)
    case Confirm =>
      if w.count != 0 || w.waiters != g.writers[t].waiters then g.(panic := Some(AddDuringWait))
      else g.(writers := g.writers[t := Confirmed(g.writers[t].waiters)])
    case Reset => g.(writes := w.(count := 0, waiters := 0), writers := g.writers[t := Waking(g.writers[t].waiters)])
    case Release =>
      if g.writers[t].waiters == 0 then g.(writers := g.writers - {t})
      else if g.writers[t].waiters == 1 then g.(writes := w.(sema := w.sema + 1), writers := g.writers - {t})
      else g.(writes := w.(sema := w.sema + 1), writers := g.writers[t := Waking(g.writers[t].waiters - 1)])
  }

  predicate CloserAt(g: Gate, loop: LoopPc, t: ThreadId, op: GateOp) {
    match op
    case Swap => t !in g.closers
    case Enter => t in g.closers && g.closers[t].Waiting?
    case Wake => t in g.closers && g.closers[t].Parked? && g.writes.sema > 0
    case Look => t in g.closers && g.closers[t].Awake?
    case Signal => t in g.closers && g.closers[t].Waited?
    case Join => t in g.closers && g.closers[t].Signalled? && loop.Exited?
    case Finish => t in g.closers && g.closers[t].Joined?
    case _ => false
  }

  /** Entering the wait is its load and, unless the counter is zero, its compare-and-swap. */
  function CloserStep(g: Gate, loop: LoopPc, t: ThreadId, op: GateOp): Gate
    requires CloserAt(g, loop, t, op)
  {
    var w := g.writes;
    match op
    case Swap => if g.closed then g else g.(closed := true, closers := g.closers[t := Waiting])
    case Enter =>
      if w.count == 0 then g.(closers := g.closers[t := Waited])
      else g.(writes := w.(waiters := w.waiters + 1), closers := g.closers[t := Parked])
    case Wake => g.(writes := w.(sema := w.sema - 1), closers := g.closers[t := Awake])
    case Look =>
      if w.count != 0 || w.waiters != 0 then g.(panic := Some(WaitReused))
      else g.(closers := g.closers[t := Waited])
    case Signal =>
      g.(closers := g.closers[t := Signalled], done := true, panic := if g.done then Some(ClosedTwice) else None)
    case Join => g.(closers := g.closers[t := Joined])
    case Finish => g.(closers := g.closers[t := Finished])
  }

  // ------------------------------------------------------------ the pipe

  datatype LoopOp =
    | Receive
    | Tick
    | FlushBatch
    | Stop
    | Drain
    | Drained
    | FinalFlush
    | StoreFlush

  /** The send of Write into a buffer with room. */
  function Push(p: Pipe, e: LogEntry): Pipe {
    p.(buffer := p.buffer + [e], accepted := p.accepted + [e])
  }

  predicate LoopAt(p: Pipe, done: bool, op: LoopOp) {
    match op
    case Receive => p.loop.Selecting? && p.buffer != []
    case Tick => p.loop.Selecting?
    case FlushBatch => p.loop.Flushing?
    case Stop => p.loop.Selecting? && done
    case Drain => p.loop.Draining? && p.buffer != []
    case Drained => p.loop.Draining? && p.buffer == []
    case FinalFlush => p.loop.FinalFlushing?
    case StoreFlush => p.loop.StoreFlushing?
  }

  function LoopStep(p: Pipe, done: bool, op: LoopOp): Pipe
    requires LoopAt(p, done, op)
  {
    match op
    case Receive =>
      var batch := p.batch + [p.buffer[0]];
      p.(buffer := p.buffer[1..],
         batch := batch,
         loop := if |batch| >= BATCH_FLUSH_THRESHOLD then Flushing else Selecting)
    case Tick => p.(loop := if |p.batch| > 0 then Flushing else Selecting)
    case FlushBatch => p.(calls := p.calls + [WriteBatch(p.batch)], batch := [], loop := Selecting)
    case Stop => p.(loop := Draining)
    case Drain => p.(buffer := p.buffer[1..], batch := p.batch + [p.buffer[0]])
    case Drained => p.(loop := if |p.batch| > 0 then FinalFlushing else StoreFlushing)
    case FinalFlush => p.(calls := p.calls + [WriteBatch(p.batch)], batch := [], loop := StoreFlushing)
    case StoreFlush => p.(calls := p.calls + [Flush], loop := Exited)
  }

  // ------------------------------------------------------------ the whole logger

  datatype Action =
    | WriteNil
    | Writer(wt: ThreadId, wop: GateOp)
    | Closer(ct: ThreadId, cop: GateOp)
    | Loop(lop: LoopOp)
    | BroadcastLive(bt: ThreadId, entry: LogEntry)
    | LiveStep(live: LB.Action)

  predicate Panicked(s: Logger) {
    s.gate.panic.Some? || s.live.panicked
  }

  predicate Enabled(s: Logger, a: Action) {
    && !Panicked(s)
    && match a
       case WriteNil => true
       case Writer(t, op) =>
         // A thread that is inside Publish takes no other step.
         && WriterAt(s.gate, t, op) && t !in s.live.publishing
         && (op.Sent? ==> |s.pipe.buffer| < s.pipe.cap)
         && (op.Dropped? ==> |s.pipe.buffer| >= s.pipe.cap)
       case Closer(t, op) => CloserAt(s.gate, s.pipe.loop, t, op)
       case Loop(op) => LoopAt(s.pipe, s.gate.done, op)
       case BroadcastLive(t, _) => t !in s.gate.writers && t !in s.live.publishing
       case LiveStep(b) => !b.BeginPublish? && LB.Enabled(s.live, b)
  }

  function Step(s: Logger, a: Action): Logger
    requires Enabled(s, a)
  {
    match a
    case WriteNil => s
    case Writer(t, op) =>
      var s1 := s.(gate := WriterStep(s.gate, t, op));
      if op.Sent? then s1.(pipe := Push(s.pipe, s.gate.writers[t].entry))
      else if op.Publish? then s1.(live := LB.Step(s.live, LB.BeginPublish(t, s.gate.writers[t].entry)))
      else s1
    case Closer(t, op) =>
      var s1 := s.(gate := CloserStep(s.gate, s.pipe.loop, t, op));
      if op.Finish? then s1.(pipe := s.pipe.(calls := s.pipe.calls + [CloseStore])) else s1
    case Loop(op) => s.(pipe := LoopStep(s.pipe, s.gate.done, op))
    case BroadcastLive(t, e) =>
      s.(live := LB.Step(s.live, LB.BeginPublish(t, e)), broadcast := s.broadcast + {e})
    case LiveStep(b) => s.(live := LB.Step(s.live, b))
  }

  // ------------------------------------------------------------ specification terms

  function Batches(calls: seq<StoreCall>): (bs: seq<seq<LogEntry>>) {
    if calls == [] then []
    else
      var last := calls[|calls| - 1];
      Batches(calls[..|calls| - 1]) + if last.WriteBatch? then [last.entries] else []
  }

  function Concat(bs: seq<seq<LogEntry>>): seq<LogEntry> {
    if bs == [] then [] else Concat(bs[..|bs| - 1]) + bs[|bs| - 1]
  }

  /** Everything the store has been given, in the order it was given. */
  function Handed(calls: seq<StoreCall>): seq<LogEntry> {
    Concat(Batches(calls))
  }

  lemma BatchesAppend(calls: seq<StoreCall>, c: StoreCall)
    ensures Batches(calls + [c]) == Batches(calls) + if c.WriteBatch? then [c.entries] else []
    ensures Handed(calls + [c]) == Handed(calls) + if c.WriteBatch? then c.entries else []
  {
    assert (calls + [c])[..|calls|] == calls;
    var bs := Batches(calls);
    if c.WriteBatch? {
      assert (bs + [c.entries])[..|bs|] == bs;
    } else {
      assert bs + [] == bs;
    }
  }

  // ------------------------------------------------------------ invariants of the gate

  /** The writers the wait group counts. */
  function InFlight(writers: map<ThreadId, WriterPc>): set<ThreadId> {
    set t | t in writers &&
      (writers[t].Registered? || writers[t].Cleared? || writers[t].Accepted? || writers[t].Leaving?)
  }

  /** The writers on their way to release the waiters. */
  function Releasers(writers: map<ThreadId, WriterPc>): set<ThreadId> {
    set t | t in writers && (writers[t].Zeroed? || writers[t].Confirmed? || writers[t].Waking?)
  }

  /** Some writer may still send. */
  ghost predicate MaySend(g: Gate) {
    exists t :: t in g.writers && g.writers[t].Cleared?
  }

  ghost predicate SomeParked(g: Gate) {
    exists t :: t in g.closers && g.closers[t].Parked?
  }

  predicate Stopping(loop: LoopPc) {
    !loop.Selecting? && !loop.Flushing?
  }

  predicate PastWaitPc(pc: CloserPc) {
    pc.Waited? || pc.Signalled? || pc.Joined? || pc.Finished?
  }

  /** One writer is releasing, at one of these points. */
  ghost predicate OneReleaser(writers: map<ThreadId, WriterPc>, a: WriterPc, b: WriterPc) {
    exists u :: u in writers && Releasers(writers) == {u} && (writers[u] == a || writers[u] == b)
  }

  /**
   The wait group counts exactly the registered writers. A parked Close is its one waiter
   until a writer that counted down to zero lets it go.
   */
  ghost predicate GroupOk(g: Gate) {
    var w := g.writes;
    && w.count == |InFlight(g.writers)|
    && (!SomeParked(g) ==> w.waiters == 0 && w.sema == 0 && Releasers(g.writers) == {})
    && (SomeParked(g) ==>
          || (w.waiters == 1 && w.sema == 0 && w.count > 0 && Releasers(g.writers) == {})
          || (w.waiters == 1 && w.sema == 0 && w.count == 0 && OneReleaser(g.writers, Zeroed(1), Confirmed(1)))
          || (w.waiters == 0 && w.sema == 0 && OneReleaser(g.writers, Waking(1), Waking(1)))
          || (w.waiters == 0 && w.sema == 1 && Releasers(g.writers) == {}))
  }

  /** One Close wins. Once it is past its wait no writer can send; done stays open until then. */
  ghost predicate CloseOk(g: Gate, loop: LoopPc) {
    && (g.closed <==> g.closers != map[])
    && (forall t, u :: t in g.closers && u in g.closers ==> t == u)
    && (g.done ==> g.closed)
    && (Stopping(loop) ==> g.done)
    && (forall t :: t in g.closers ==> CloserOk(g, loop, g.closers[t]))
  }

  ghost predicate CloserOk(g: Gate, loop: LoopPc, pc: CloserPc) {
    && (g.done <==> pc.Signalled? || pc.Joined? || pc.Finished?)
    && (pc.Joined? || pc.Finished? ==> loop.Exited?)
    && (PastWaitPc(pc) ==> !MaySend(g))
  }

  // How one writer's move changes the two sets.

  lemma MoveCounted(writers: map<ThreadId, WriterPc>, t: ThreadId, pc: WriterPc)
    requires t in InFlight(writers) && (pc.Registered? || pc.Cleared? || pc.Accepted? || pc.Leaving?)
    ensures InFlight(writers[t := pc]) == InFlight(writers)
    ensures Releasers(writers[t := pc]) == Releasers(writers)
  {
  }

  lemma MoveUncounted(writers: map<ThreadId, WriterPc>, t: ThreadId, pc: WriterPc)
    requires t !in InFlight(writers) && t !in Releasers(writers)
    ensures pc.Called? || pc.Checked? ==>
              InFlight(writers[t := pc]) == InFlight(writers) && Releasers(writers[t := pc]) == Releasers(writers)
    ensures pc.Registered? ==>
              InFlight(writers[t := pc]) == InFlight(writers) + {t} && Releasers(writers[t := pc]) == Releasers(writers)
    ensures InFlight(writers - {t}) == InFlight(writers)
    ensures Releasers(writers - {t}) == Releasers(writers)
  {
  }

  lemma LeaveCounted(writers: map<ThreadId, WriterPc>, t: ThreadId, waiters: nat)
    requires t in InFlight(writers)
    ensures InFlight(writers - {t}) == InFlight(writers) - {t}
    ensures Releasers(writers - {t}) == Releasers(writers)
    ensures var moved := writers[t := Zeroed(waiters)];
            InFlight(moved) == InFlight(writers) - {t} && Releasers(moved) == Releasers(writers) + {t}
  {
  }

  lemma MoveReleaser(writers: map<ThreadId, WriterPc>, t: ThreadId, pc: WriterPc)
    requires t in Releasers(writers)
    ensures pc.Zeroed? || pc.Confirmed? || pc.Waking? ==>
              InFlight(writers[t := pc]) == InFlight(writers) && Releasers(writers[t := pc]) == Releasers(writers)
    ensures InFlight(writers - {t}) == InFlight(writers)
    ensures Releasers(writers - {t}) == Releasers(writers) - {t}
  {
  }

  /** A Done among counted writers never goes negative, and keeps the wait group in order. */
  lemma DoneKeepsGroup(g: Gate, t: ThreadId)
    requires GroupOk(g) && g.panic.None? && WriterAt(g, t, Done)
    ensures GroupOk(DoneOne(g, t))
    ensures DoneOne(g, t).panic.None?
  {
    LeaveCounted(g.writers, t, g.writes.waiters);
    assert t in InFlight(g.writers);
    var g' := DoneOne(g, t);
    if g'.writes.count == 0 && g.writes.waiters != 0 {
      assert g'.writers[t] == Zeroed(1) && Releasers(g'.writers) == {t};
    }
  }

  /** An Add panics exactly when it meets a waiter that is being let go. */
  lemma AddKeepsGroup(g: Gate, t: ThreadId)
    requires GroupOk(g) && g.panic.None? && WriterAt(g, t, Add)
    ensures AddOne(g, t).panic == (if g.writes.waiters != 0 && g.writes.count == 0 then Some(AddDuringWait) else None)
    ensures AddOne(g, t).panic.None? ==> GroupOk(AddOne(g, t))
  {
    MoveUncounted(g.writers, t, Registered(g.writers[t].entry));
    var g' := AddOne(g, t);
    if g'.panic.None? && g.writes.waiters == 0 && SomeParked(g) && g.writes.sema == 0 {
      var u :| u in g.writers && Releasers(g.writers) == {u} && g.writers[u] == Waking(1);
      assert u != t && g'.writers[u] == Waking(1);
    }
  }

  lemma ReleaseKeepsGroup(g: Gate, t: ThreadId, op: GateOp)
    requires GroupOk(g) && g.panic.None? && WriterAt(g, t, op) && (op.Confirm? || op.Reset? || op.Release?)
    ensures GroupOk(WriterStep(g, t, op))
    ensures WriterStep(g, t, op).panic.None?
  {
    assert t in Releasers(g.writers);
    assert SomeParked(g);
    var w := g.writers[t].waiters;
    MoveReleaser(g.writers, t, if op.Confirm? then Confirmed(w) else Waking(w));
    var g' := WriterStep(g, t, op);
    assert SomeParked(g');
    if !op.Release? { assert t in g'.writers && Releasers(g'.writers) == {t}; }
  }

  lemma WriterKeepsGroup(g: Gate, t: ThreadId, op: GateOp)
    requires GroupOk(g) && g.panic.None? && WriterAt(g, t, op)
    ensures var g' := WriterStep(g, t, op);
            && (g'.panic.None? ==> GroupOk(g'))
            && (g'.panic.Some? ==> op.Add? && g'.panic.value.AddDuringWait? && g.writes.waiters != 0 && g.writes.count == 0)
  {
    match op
    case Add => AddKeepsGroup(g, t);
    case Done => DoneKeepsGroup(g, t);
    case Confirm => ReleaseKeepsGroup(g, t, op);
    case Reset => ReleaseKeepsGroup(g, t, op);
    case Release => ReleaseKeepsGroup(g, t, op);
    case _ => OtherMovesKeepGroup(g, t, op);
  }

  lemma OtherMovesKeepGroup(g: Gate, t: ThreadId, op: GateOp)
    requires GroupOk(g) && g.panic.None? && WriterAt(g, t, op)
    requires op.Call? || op.Check? || op.Recheck? || op.Sent? || op.Dropped? || op.Publish?
    ensures GroupOk(WriterStep(g, t, op))
    ensures WriterStep(g, t, op).panic.None?
    ensures InFlight(WriterStep(g, t, op).writers) == InFlight(g.writers)
  {
    var g' := WriterStep(g, t, op);
    if op.Call? || op.Check? {
      var pc := if op.Call? then Called(op.entry) else Checked(g.writers[t].entry);
      MoveUncounted(g.writers, t, pc);
    } else {
      MoveCounted(g.writers, t, g'.writers[t]);
    }
    assert Releasers(g'.writers) == Releasers(g.writers);
    assert t !in Releasers(g.writers);
    forall u | u in Releasers(g.writers) ensures u in g'.writers && g'.writers[u] == g.writers[u] {}
    assert g'.writes == g.writes && g'.closers == g.closers;
  }

  /** What a Close does keeps the wait group in order; it panics exactly when it wakes too late. */
  lemma CloserKeepsGroup(g: Gate, loop: LoopPc, t: ThreadId, op: GateOp)
    requires GroupOk(g) && CloseOk(g, loop) && g.panic.None? && CloserAt(g, loop, t, op)
    ensures var g' := CloserStep(g, loop, t, op);
            && (g'.panic.None? ==> GroupOk(g'))
            && (g'.panic.Some? <==> op.Look? && g.writes.count != 0)
            && (g'.panic.Some? ==> g'.panic.value.WaitReused?)
  {
    var g' := CloserStep(g, loop, t, op);
    if op.Swap? {
      if !g.closed { assert forall u :: u in g'.closers ==> u == t; }
    } else {
      assert CloserOk(g, loop, g.closers[t]);
      assert forall u :: u in g.closers ==> u == t;
      assert g'.writers == g.writers;
      if op.Enter? && g.writes.count != 0 { assert g'.closers[t].Parked?; }
    }
  }

  /** The crux: after the swap no writer can pass its second check. */
  lemma SendersShrink(g: Gate, t: ThreadId, op: GateOp)
    requires g.closed && WriterAt(g, t, op) && MaySend(WriterStep(g, t, op))
    ensures MaySend(g)
  {
    var g' := WriterStep(g, t, op);
    var u :| u in g'.writers && g'.writers[u].Cleared?;
    assert u in g.writers && g.writers[u].Cleared?;
  }

  lemma WriterKeepsClose(g: Gate, loop: LoopPc, t: ThreadId, op: GateOp)
    requires CloseOk(g, loop) && WriterAt(g, t, op)
    ensures CloseOk(WriterStep(g, t, op), loop)
  {
    var g' := WriterStep(g, t, op);
    assert g'.closers == g.closers && g'.closed == g.closed && g'.done == g.done;
    forall u | u in g'.closers ensures CloserOk(g', loop, g'.closers[u]) {
      assert CloserOk(g, loop, g.closers[u]);
      if MaySend(g') { SendersShrink(g, t, op); }
    }
  }

  /** With the counter at zero no writer is past its second check. */
  lemma WaitExcludesSenders(g: Gate)
    requires GroupOk(g) && g.writes.count == 0
    ensures !MaySend(g)
  {
    forall t | t in g.writers ensures !g.writers[t].Cleared? {
      assert t !in InFlight(g.writers);
    }
  }

  lemma CloserKeepsClose(g: Gate, loop: LoopPc, t: ThreadId, op: GateOp)
    requires GroupOk(g) && CloseOk(g, loop) && CloserAt(g, loop, t, op)
    ensures CloseOk(CloserStep(g, loop, t, op), loop)
  {
    var g' := CloserStep(g, loop, t, op);
    if op.Swap? && g.closed {
      assert g' == g;
    } else {
      assert g'.writers == g.writers;
      assert MaySend(g') <==> MaySend(g);
      if (op.Enter? || op.Look?) && g.writes.count == 0 { WaitExcludesSenders(g); }
      assert t in g'.closers;
      if !op.Swap? { assert CloserOk(g, loop, g.closers[t]); }
      assert CloserOk(g', loop, g'.closers[t]);
    }
  }

  lemma LoopKeepsClose(g: Gate, p: Pipe, op: LoopOp)
    requires CloseOk(g, p.loop) && LoopAt(p, g.done, op)
    ensures CloseOk(g, LoopStep(p, g.done, op).loop)
  {
    var loop' := LoopStep(p, g.done, op).loop;
    forall t | t in g.closers ensures CloserOk(g, loop', g.closers[t]) {
      assert CloserOk(g, p.loop, g.closers[t]);
    }
  }

  // ------------------------------------------------------------ invariants of the pipe

  predicate PastBatches(loop: LoopPc) {
    loop.StoreFlushing? || loop.Exited?
  }

  /** Nothing accepted is lost, repeated or reordered on its way to the store. */
  ghost predicate DataOk(p: Pipe) {
    && p.cap > 0
    && |p.buffer| <= p.cap
    && p.accepted == Handed(p.calls) + p.batch + p.buffer
    && (p.loop.Selecting? ==> |p.batch| < BATCH_FLUSH_THRESHOLD)
    && (p.loop.Flushing? ==> 0 < |p.batch| <= BATCH_FLUSH_THRESHOLD)
    && (p.loop.Draining? ==> |p.batch| + |p.buffer| <= BATCH_FLUSH_THRESHOLD - 1 + p.cap)
    && (p.loop.FinalFlushing? ==> 0 < |p.batch| <= BATCH_FLUSH_THRESHOLD - 1 + p.cap)
    && (p.loop.FinalFlushing? || PastBatches(p.loop) ==> p.buffer == [])
    && (PastBatches(p.loop) ==> p.batch == [])
  }

  /** No batch is empty; all but the one of the final drain respect the threshold. */
  ghost predicate SizesOk(bs: seq<seq<LogEntry>>, cap: nat, drained: bool) {
    && (forall b :: b in bs ==> b != [])
    && (forall i :: 0 <= i < |bs| - 1 ==> |bs[i]| <= BATCH_FLUSH_THRESHOLD)
    && (bs != [] ==> |bs[|bs| - 1]| <= if drained then BATCH_FLUSH_THRESHOLD - 1 + cap else BATCH_FLUSH_THRESHOLD)
  }

  /** Batches first, then at most one Flush, then at most one Close. */
  ghost predicate Ordered(calls: seq<StoreCall>) {
    forall i, j :: 0 <= i < j < |calls| ==>
      !calls[i].CloseStore? && (calls[i].Flush? ==> calls[j].CloseStore?)
  }

  ghost predicate CallsOk(p: Pipe) {
    && SizesOk(Batches(p.calls), p.cap, PastBatches(p.loop))
    && (!p.loop.Exited? ==> forall c :: c in p.calls ==> c.WriteBatch?)
    && (p.loop.Exited? ==> Flush in p.calls)
    && Ordered(p.calls)
  }

  lemma PushKeeps(p: Pipe, e: LogEntry)
    requires DataOk(p) && CallsOk(p) && !Stopping(p.loop) && |p.buffer| < p.cap
    ensures DataOk(Push(p, e)) && CallsOk(Push(p, e))
  {
    assert Push(p, e).accepted == Handed(p.calls) + p.batch + (p.buffer + [e]);
  }

  lemma TakeKeeps(p: Pipe, handed: seq<LogEntry>)
    requires p.buffer != [] && p.accepted == handed + p.batch + p.buffer
    ensures p.accepted == handed + (p.batch + [p.buffer[0]]) + p.buffer[1..]
  {
    assert p.buffer == [p.buffer[0]] + p.buffer[1..];
  }

  lemma FlushKeeps(p: Pipe)
    requires p.accepted == Handed(p.calls) + p.batch + p.buffer
    ensures p.accepted == Handed(p.calls + [WriteBatch(p.batch)]) + [] + p.buffer
  {
    BatchesAppend(p.calls, WriteBatch(p.batch));
  }

  lemma LoopKeepsData(p: Pipe, done: bool, op: LoopOp)
    requires DataOk(p) && LoopAt(p, done, op)
    ensures DataOk(LoopStep(p, done, op))
  {
    match op
    case Receive => TakeKeeps(p, Handed(p.calls));
    case Drain => TakeKeeps(p, Handed(p.calls));
    case FlushBatch => FlushKeeps(p);
    case FinalFlush => FlushKeeps(p);
    case StoreFlush =>
      BatchesAppend(p.calls, Flush);
      assert Handed(p.calls) + [] == Handed(p.calls);
    case _ =>
  }

  lemma SizesAppend(bs: seq<seq<LogEntry>>, b: seq<LogEntry>, cap: nat, drained: bool)
    requires SizesOk(bs, cap, false) && b != []
    requires |b| <= if drained then BATCH_FLUSH_THRESHOLD - 1 + cap else BATCH_FLUSH_THRESHOLD
    ensures SizesOk(bs + [b], cap, drained)
  {
  }

  lemma OrderedAppend(calls: seq<StoreCall>, c: StoreCall)
    requires Ordered(calls) && CloseStore !in calls
    requires c.CloseStore? || Flush !in calls
    ensures Ordered(calls + [c])
  {
  }

  lemma BatchKeepsCalls(p: Pipe, done: bool, op: LoopOp)
    requires DataOk(p) && CallsOk(p) && LoopAt(p, done, op) && (op.FlushBatch? || op.FinalFlush?)
    ensures CallsOk(LoopStep(p, done, op))
  {
    BatchesAppend(p.calls, WriteBatch(p.batch));
    SizesAppend(Batches(p.calls), p.batch, p.cap, op.FinalFlush?);
    OrderedAppend(p.calls, WriteBatch(p.batch));
  }

  lemma FlushKeepsCalls(p: Pipe, done: bool)
    requires DataOk(p) && CallsOk(p) && LoopAt(p, done, StoreFlush)
    ensures CallsOk(LoopStep(p, done, StoreFlush))
  {
    BatchesAppend(p.calls, Flush);
    OrderedAppend(p.calls, Flush);
    var calls := p.calls + [Flush];
    assert calls[|p.calls|] == Flush;
  }

  lemma LoopKeepsCalls(p: Pipe, done: bool, op: LoopOp)
    requires DataOk(p) && CallsOk(p) && LoopAt(p, done, op)
    ensures CallsOk(LoopStep(p, done, op))
  {
    if op.FlushBatch? || op.FinalFlush? {
      BatchKeepsCalls(p, done, op);
    } else if op.StoreFlush? {
      FlushKeepsCalls(p, done);
    }
  }

  lemma CloseStoreKeeps(p: Pipe)
    requires DataOk(p) && CallsOk(p) && p.loop.Exited? && CloseStore !in p.calls
    ensures DataOk(p.(calls := p.calls + [CloseStore]))
    ensures CallsOk(p.(calls := p.calls + [CloseStore]))
  {
    BatchesAppend(p.calls, CloseStore);
    OrderedAppend(p.calls, CloseStore);
    assert Handed(p.calls) + [] == Handed(p.calls);
  }

  // ------------------------------------------------------------ the whole invariant

  ghost predicate StoreClosed(g: Gate) {
    exists t :: t in g.closers && g.closers[t].Finished?
  }

  /** A writer inside Publish only has its Done left; what it publishes was accepted. */
  ghost predicate WritersPublish(writers: map<ThreadId, WriterPc>, publishing: set<ThreadId>, accepted: seq<LogEntry>) {
    && (forall t :: t in writers && t in publishing ==> writers[t].Leaving?)
    && (forall t :: t in writers && writers[t].Accepted? ==> writers[t].entry in accepted)
  }

  ghost predicate LiveOk(s: Logger) {
    && LB.Inv(s.live)
    && WritersPublish(s.gate.writers, s.live.publishing.Keys, s.pipe.accepted)
    && s.live.offered <= Elements(s.pipe.accepted) + s.broadcast
  }

  /** The only panics are the two of a wait group whose Add races with the end of a Wait. */
  ghost predicate PanicOk(g: Gate) {
    g.panic.Some? ==> g.panic.value.AddDuringWait? || g.panic.value.WaitReused?
  }

  ghost predicate CoreOk(g: Gate, p: Pipe) {
    && PanicOk(g)
    && (g.panic.None? ==> GroupOk(g))
    && CloseOk(g, p.loop)
    && DataOk(p)
    && CallsOk(p)
    && (CloseStore in p.calls <==> StoreClosed(g))
  }

  ghost predicate Inv(s: Logger) {
    CoreOk(s.gate, s.pipe) && LiveOk(s)
  }

  lemma SendNotStopping(g: Gate, loop: LoopPc)
    requires CloseOk(g, loop) && MaySend(g)
    ensures !Stopping(loop)
  {
    forall t | t in g.closers ensures !g.done {
      assert CloserOk(g, loop, g.closers[t]);
    }
    assert g.closers == map[] || exists t :: t in g.closers;
  }

  lemma SendKeepsPipe(g: Gate, p: Pipe, t: ThreadId)
    requires CoreOk(g, p) && WriterAt(g, t, Sent) && |p.buffer| < p.cap
    ensures var p' := Push(p, g.writers[t].entry);
            DataOk(p') && CallsOk(p') && p'.loop == p.loop && p'.calls == p.calls
  {
    assert MaySend(g);
    SendNotStopping(g, p.loop);
    PushKeeps(p, g.writers[t].entry);
  }

  lemma SendKeepsLive(s: Logger, t: ThreadId)
    requires LiveOk(s) && Enabled(s, Writer(t, Sent))
    ensures LiveOk(Step(s, Writer(t, Sent)))
  {
    var e := s.gate.writers[t].entry;
    assert Elements(s.pipe.accepted + [e]) == Elements(s.pipe.accepted) + {e};
    assert forall x :: x in s.pipe.accepted ==> x in s.pipe.accepted + [e];
  }

  lemma PublishKeeps(s: Logger, t: ThreadId)
    requires LiveOk(s) && Enabled(s, Writer(t, Publish))
    ensures LiveOk(Step(s, Writer(t, Publish)))
  {
    LB.StepKeeps(s.live, LB.BeginPublish(t, s.gate.writers[t].entry));
  }

  lemma MovesKeepLive(g: Gate, t: ThreadId, op: GateOp, publishing: set<ThreadId>, accepted: seq<LogEntry>)
    requires WriterAt(g, t, op) && !op.Sent? && t !in publishing && WritersPublish(g.writers, publishing, accepted)
    ensures WritersPublish(WriterStep(g, t, op).writers, publishing, accepted)
  {
    var writers := WriterStep(g, t, op).writers;
    assert forall u :: u in writers && u != t ==> u in g.writers && writers[u] == g.writers[u];
    assert t in writers ==> !writers[t].Accepted?;
  }

  lemma WriterKeepsCore(g: Gate, p: Pipe, t: ThreadId, op: GateOp)
    requires CoreOk(g, p) && g.panic.None? && WriterAt(g, t, op) && (op.Sent? ==> |p.buffer| < p.cap)
    ensures CoreOk(WriterStep(g, t, op), if op.Sent? then Push(p, g.writers[t].entry) else p)
  {
    WriterKeepsGroup(g, t, op);
    WriterKeepsClose(g, p.loop, t, op);
    assert WriterStep(g, t, op).closers == g.closers;
    if op.Sent? { SendKeepsPipe(g, p, t); }
  }

  lemma WriterKeeps(s: Logger, t: ThreadId, op: GateOp)
    requires Inv(s) && Enabled(s, Writer(t, op))
    ensures Inv(Step(s, Writer(t, op)))
  {
    WriterKeepsCore(s.gate, s.pipe, t, op);
    if op.Sent? { SendKeepsLive(s, t); }
    else if op.Publish? { PublishKeeps(s, t); }
    else { MovesKeepLive(s.gate, t, op, s.live.publishing.Keys, s.pipe.accepted); }
  }

  lemma CloserKeepsCore(g: Gate, p: Pipe, t: ThreadId, op: GateOp)
    requires CoreOk(g, p) && g.panic.None? && CloserAt(g, p.loop, t, op)
    ensures CoreOk(CloserStep(g, p.loop, t, op), if op.Finish? then p.(calls := p.calls + [CloseStore]) else p)
  {
    var g' := CloserStep(g, p.loop, t, op);
    CloserKeepsGroup(g, p.loop, t, op);
    CloserKeepsClose(g, p.loop, t, op);
    if op.Finish? {
      assert CloserOk(g, p.loop, g.closers[t]);
      assert !StoreClosed(g);
      CloseStoreKeeps(p);
      assert g'.closers[t].Finished?;
    } else {
      assert StoreClosed(g') <==> StoreClosed(g) by {
        assert forall u :: u in g.closers && u != t ==> u in g'.closers;
        assert forall u :: u in g'.closers && u != t ==> u in g.closers;
      }
    }
  }

  lemma CloserKeeps(s: Logger, t: ThreadId, op: GateOp)
    requires Inv(s) && Enabled(s, Closer(t, op))
    ensures Inv(Step(s, Closer(t, op)))
  {
    CloserKeepsCore(s.gate, s.pipe, t, op);
  }

  lemma LoopKeeps(s: Logger, op: LoopOp)
    requires Inv(s) && Enabled(s, Loop(op))
    ensures Inv(Step(s, Loop(op)))
  {
    LoopKeepsClose(s.gate, s.pipe, op);
    LoopKeepsData(s.pipe, s.gate.done, op);
    LoopKeepsCalls(s.pipe, s.gate.done, op);
    var p' := LoopStep(s.pipe, s.gate.done, op);
    assert CloseStore in p'.calls <==> CloseStore in s.pipe.calls;
    assert p'.accepted == s.pipe.accepted;
  }

  /** Every step of every thread keeps the invariant. */
  lemma StepKeeps(s: Logger, a: Action)
    requires Inv(s) && Enabled(s, a)
    ensures Inv(Step(s, a))
  {
    match a
    case WriteNil =>
    case Writer(t, op) => WriterKeeps(s, t, op);
    case Closer(t, op) => CloserKeeps(s, t, op);
    case Loop(op) => LoopKeeps(s, op);
    case BroadcastLive(t, e) => LB.StepKeeps(s.live, LB.BeginPublish(t, e));
    case LiveStep(b) => LB.StepKeeps(s.live, b);
  }

  // ------------------------------------------------------------ whole runs

  predicate Runs(s: Logger, actions: seq<Action>)
    decreases |actions|
  {
    actions == [] || (Enabled(s, actions[0]) && Runs(Step(s, actions[0]), actions[1..]))
  }

  function After(s: Logger, actions: seq<Action>): Logger
    requires Runs(s, actions)
    decreases |actions|
  {
    if actions == [] then s else After(Step(s, actions[0]), actions[1..])
  }

  lemma {:induction false} RunKeeps(s: Logger, actions: seq<Action>)
    requires Inv(s) && Runs(s, actions)
    ensures Inv(After(s, actions))
    decreases |actions|
  {
    if actions != [] {
      StepKeeps(s, actions[0]);
      RunKeeps(Step(s, actions[0]), actions[1..]);
    }
  }

  lemma InitInv(bufferSize: int)
    ensures Inv(Init(bufferSize))
  {
    var s := Init(bufferSize);
    assert InFlight(s.gate.writers) == {} && Releasers(s.gate.writers) == {};
    assert CloseOk(s.gate, s.pipe.loop);
    assert DataOk(s.pipe) && CallsOk(s.pipe) by {
      assert Batches([]) == [] && Handed([]) == [];
    }
    LB.InitInv();
  }

  /** s is what some interleaving of a fresh logger leads to. */
  ghost predicate Reachable(s: Logger) {
    exists bufferSize: int, actions: seq<Action> ::
      Runs(Init(bufferSize), actions) && s == After(Init(bufferSize), actions)
  }

  lemma ReachableInv(s: Logger)
    requires Reachable(s)
    ensures Inv(s)
  {
    var bufferSize: int, actions: seq<Action> :|
      Runs(Init(bufferSize), actions) && s == After(Init(bufferSize), actions);
    InitInv(bufferSize);
    RunKeeps(Init(bufferSize), actions);
  }

  /**
   Conservation: in every reachable state the accepted entries, in acceptance order, are
   what the store was handed, then the current batch, then the buffer. So once some Close
   has closed the store, every accepted entry has been handed over exactly once, in order.
   */
  lemma ExactlyOnceInOrder(s: Logger)
    requires Reachable(s)
    ensures s.pipe.accepted == Handed(s.pipe.calls) + s.pipe.batch + s.pipe.buffer
    ensures CloseStore in s.pipe.calls ==> s.pipe.accepted == Handed(s.pipe.calls)
  {
    ReachableInv(s);
    if CloseStore in s.pipe.calls {
      var t :| t in s.gate.closers && s.gate.closers[t].Finished?;
      assert CloserOk(s.gate, s.pipe.loop, s.gate.closers[t]);
    }
  }

  /**
   The store sees non-empty bounded batches, then one Flush, then at most one Close. Nothing
   is sent on or closes a closed channel and the counter never goes negative; what can panic
   is the wait group, when an Add meets the end of a Wait (see PanicIff).
   */
  lemma StoreProtocol(s: Logger)
    requires Reachable(s)
    ensures !s.live.panicked
    ensures (s.gate.panic.Some? ==> s.gate.panic.value.AddDuringWait? || s.gate.panic.value.WaitReused?)
    ensures Ordered(s.pipe.calls)
    ensures CloseStore in s.pipe.calls ==> Flush in s.pipe.calls
    ensures var bs := Batches(s.pipe.calls);
            && (forall b :: b in bs ==> b != [])
            && (forall i :: 0 <= i < |bs| ==>
                  |bs[i]| <= if i == |bs| - 1 && PastBatches(s.pipe.loop)
                             then BATCH_FLUSH_THRESHOLD - 1 + s.pipe.cap else BATCH_FLUSH_THRESHOLD)
  {
    ReachableInv(s);
    if CloseStore in s.pipe.calls {
      var t :| t in s.gate.closers && s.gate.closers[t].Finished?;
      assert CloserOk(s.gate, s.pipe.loop, s.gate.closers[t]);
    }
  }

  /** Some Close is past writes.Wait. */
  ghost predicate PastWait(g: Gate) {
    exists t :: t in g.closers && PastWaitPc(g.closers[t])
  }

  lemma PastWaitExcludes(s: Logger)
    requires Inv(s) && PastWait(s.gate)
    ensures !MaySend(s.gate)
  {
    var t :| t in s.gate.closers && PastWaitPc(s.gate.closers[t]);
    assert CloserOk(s.gate, s.pipe.loop, s.gate.closers[t]);
  }

  lemma PastWaitStays(s: Logger, a: Action)
    requires Enabled(s, a) && PastWait(s.gate)
    ensures PastWait(Step(s, a).gate)
  {
    var t :| t in s.gate.closers && PastWaitPc(s.gate.closers[t]);
    assert t in Step(s, a).gate.closers;
  }

  lemma StepAfterWait(s: Logger, a: Action)
    requires Enabled(s, a) && !MaySend(s.gate)
    ensures Step(s, a).pipe.accepted == s.pipe.accepted
    ensures |Step(s, a).pipe.buffer| + (if a == Loop(Drain) then 1 else 0) <= |s.pipe.buffer|
  {
    assert !(a.Writer? && a.wop.Sent?);
  }

  /** Once a Close is past its wait, no continuation accepts another entry. */
  lemma {:induction false} NothingAcceptedAfterWait(s: Logger, actions: seq<Action>)
    requires Inv(s) && PastWait(s.gate) && Runs(s, actions)
    ensures After(s, actions).pipe.accepted == s.pipe.accepted
    decreases |actions|
  {
    if actions != [] {
      PastWaitExcludes(s);
      StepAfterWait(s, actions[0]);
      PastWaitStays(s, actions[0]);
      StepKeeps(s, actions[0]);
      NothingAcceptedAfterWait(Step(s, actions[0]), actions[1..]);
    }
  }

  function Drains(actions: seq<Action>): nat {
    if actions == [] then 0
    else (if actions[0] == Loop(Drain) then 1 else 0) + Drains(actions[1..])
  }

  /**
   The drain terminates: once a Close is past its wait, and so before the flush goroutine
   starts to drain, no run of all the goroutines contains more drain steps than entries
   were buffered.
   */
  lemma {:induction false} DrainTerminates(s: Logger, actions: seq<Action>)
    requires Inv(s) && PastWait(s.gate) && Runs(s, actions)
    ensures Drains(actions) + |After(s, actions).pipe.buffer| <= |s.pipe.buffer|
    decreases |actions|
  {
    if actions != [] {
      PastWaitExcludes(s);
      StepAfterWait(s, actions[0]);
      PastWaitStays(s, actions[0]);
      StepKeeps(s, actions[0]);
      DrainTerminates(Step(s, actions[0]), actions[1..]);
    }
  }

  /** Once the store is closed nothing changes in it and nothing is accepted any more. */
  lemma {:induction false} ClosedIsFinal(s: Logger, actions: seq<Action>)
    requires Inv(s) && CloseStore in s.pipe.calls && Runs(s, actions)
    ensures After(s, actions).pipe == s.pipe
    decreases |actions|
  {
    if actions != [] {
      var t :| t in s.gate.closers && s.gate.closers[t].Finished?;
      assert CloserOk(s.gate, s.pipe.loop, s.gate.closers[t]);
      var s' := Step(s, actions[0]);
      assert !MaySend(s.gate);
      assert s'.pipe == s.pipe;
      StepKeeps(s, actions[0]);
      ClosedIsFinal(s', actions[1..]);
    }
  }

  /** Live subscribers only ever see entries Write accepted or BroadcastLive was given. */
  lemma LiveEntriesKnown(s: Logger, channel: nat, e: LogEntry)
    requires Reachable(s) && channel < |s.live.channels|
    requires var c := s.live.channels[channel]; e in c.received || e in c.queue
    ensures e in s.pipe.accepted || e in s.broadcast
  {
    ReachableInv(s);
    var c := s.live.channels[channel];
    assert LB.ChannelOk(c, s.live.offered, s.live.published);
    var at: seq<nat> :| LB.Embeds(c.received + c.queue, c.attempted, at);
    assert e in c.received + c.queue;
    var i :| 0 <= i < |c.received + c.queue| && (c.received + c.queue)[i] == e;
    assert c.attempted[at[i]] == e;
    assert e in s.live.offered;
  }
}
