/**
 Every schedule of the threads that are present while the audit logger shuts down comes to
 an end: a rank that each of their steps lowers, and a step to take while the store is open.
 The rank adds up what every writer, Close call, publication and queue, and the flush
 goroutine may still do, so that no fairness is needed.
 */
module AuditTermination {
  import opened Common
  import opened AuditLogger
  import opened AuditShutdown
  import LB = LiveBroadcaster

  // ------------------------------------------------------------ ranks

  /** What a writer may still do when a publication visits at most n subscribers. */
  function WriterWeight(pc: WriterPc, n: nat): int {
    match pc
    case Called(_) => 13 + 2 * n
    case Checked(_) => 12 + 2 * n
    case Registered(_) => 11 + 2 * n
    case Cleared(_) => 10 + 2 * n
    case Accepted(_) => 6 + 2 * n
    case Leaving => 4
    case Zeroed(w) => w + 2
    case Confirmed(w) => w + 1
    case Waking(w) => w
  }

  function WriterWeights(n: nat): WriterPc -> int {
    pc => WriterWeight(pc, n)
  }

  function CloserWeight(pc: CloserPc): int {
    CloserRank(pc)
  }

  /** Each subscriber still to visit is a send and an entry to receive. */
  function PublicationWeight(p: LB.Publication): int {
    1 + 2 * |p.todo|
  }

  function Queued(channels: seq<LB.Channel>): nat {
    if channels == [] then 0
    else Queued(channels[..|channels| - 1]) + |channels[|channels| - 1].queue|
  }

  /** Subscribers, those about to be registered included. */
  function Audience(live: LB.Live): nat {
    |live.subscribers| + |live.pending|
  }

  ghost function LiveRank(live: LB.Live): int {
    SumOf(live.publishing, PublicationWeight) + Queued(live.channels) + |live.pending|
  }

  ghost function GateRank(g: Gate, n: nat): int {
    SumOf(g.writers, WriterWeights(n)) + SumOf(g.closers, CloserWeight) + if g.panic.Some? then 0 else 1
  }

  ghost function Rank(s: Logger): int {
    GateRank(s.gate, Audience(s.live)) + PipeRank(s.pipe) + LiveRank(s.live)
  }

  lemma RankNotNegative(s: Logger)
    ensures Rank(s) >= 0
  {
    SumNotNegative(s.gate.writers, WriterWeights(Audience(s.live)));
    SumNotNegative(s.gate.closers, CloserWeight);
    SumNotNegative(s.live.publishing, PublicationWeight);
  }

  // ------------------------------------------------------------ writers

  /** What a writer's step spends; what it hands to the buffer or the broadcaster is paid for. */
  lemma WriterSpends(g: Gate, t: ThreadId, op: GateOp, n: nat)
    requires GroupOk(g) && g.panic.None? && WriterAt(g, t, op) && !op.Call?
    ensures var g' := WriterStep(g, t, op);
            && g'.closers == g.closers
            && (g'.writers == g.writers - {t} ||
                (t in g'.writers && g'.writers == g.writers[t := g'.writers[t]]))
            && var left := if t in g'.writers then WriterWeight(g'.writers[t], n) else 0;
               left + 1 + (if op.Sent? then 3 else 0) + (if op.Publish? then 1 + 2 * n else 0) <= WriterWeight(g.writers[t], n)
  {
    WriterKeepsGroup(g, t, op);
    if op.Done? { DoneKeepsGroup(g, t); }
    if op.Release? || op.Confirm? || op.Reset? { assert t in Releasers(g.writers); }
  }

  lemma WriterLowersGate(g: Gate, t: ThreadId, op: GateOp, n: nat)
    requires GroupOk(g) && g.panic.None? && WriterAt(g, t, op) && !op.Call?
    ensures GateRank(WriterStep(g, t, op), n) + 1 + (if op.Sent? then 3 else 0) + (if op.Publish? then 1 + 2 * n else 0)
         <= GateRank(g, n)
  {
    var g' := WriterStep(g, t, op);
    WriterSpends(g, t, op, n);
    SumWithout(g.writers, WriterWeights(n), t);
    if t in g'.writers {
      SumUpdate(g.writers, WriterWeights(n), t, g'.writers[t]);
    }
  }

  lemma BeginPublishCosts(live: LB.Live, t: ThreadId, e: LogEntry)
    requires LB.Enabled(live, LB.BeginPublish(t, e))
    ensures var live' := LB.Step(live, LB.BeginPublish(t, e));
            LiveRank(live') <= LiveRank(live) + 1 + 2 * Audience(live) && Audience(live') == Audience(live)
  {
    var p := LB.Publication(live.published, e, live.subscribers.Keys);
    SumUpdate(live.publishing, PublicationWeight, t, p);
    assert |live.subscribers.Keys| == |live.subscribers|;
  }

  lemma WriterLowers(s: Logger, t: ThreadId, op: GateOp)
    requires Inv(s) && Enabled(s, Writer(t, op)) && !op.Call?
    ensures Rank(Step(s, Writer(t, op))) < Rank(s)
  {
    WriterLowersGate(s.gate, t, op, Audience(s.live));
    if op.Publish? { BeginPublishCosts(s.live, t, s.gate.writers[t].entry); }
  }

  // ------------------------------------------------------------ closers and the loop

  lemma CloserLowersGate(g: Gate, loop: LoopPc, t: ThreadId, op: GateOp, n: nat)
    requires g.panic.None? && CloserAt(g, loop, t, op) && !op.Swap?
    ensures GateRank(CloserStep(g, loop, t, op), n) < GateRank(g, n)
  {
    CloserStepRank(g, loop, t, op);
    var g' := CloserStep(g, loop, t, op);
    SumUpdate(g.closers, CloserWeight, t, g'.closers[t]);
    assert g'.writers == g.writers;
    if g'.panic.Some? { assert CloserRank(g'.closers[t]) <= CloserRank(g.closers[t]); }
  }

  lemma CloserLowers(s: Logger, t: ThreadId, op: GateOp)
    requires Enabled(s, Closer(t, op)) && !op.Swap?
    ensures Rank(Step(s, Closer(t, op))) < Rank(s)
  {
    CloserLowersGate(s.gate, s.pipe.loop, t, op, Audience(s.live));
  }

  lemma LoopLowers(s: Logger, op: LoopOp)
    requires Inv(s) && Enabled(s, Loop(op)) && (op.Tick? ==> s.pipe.batch != [])
    ensures Rank(Step(s, Loop(op))) < Rank(s)
  {
    LoopStepRank(s.pipe, s.gate.done, op);
  }

  // ------------------------------------------------------------ the broadcaster

  lemma {:induction false} QueuedUpdate(channels: seq<LB.Channel>, i: nat, c: LB.Channel)
    requires i < |channels|
    ensures Queued(channels[i := c]) == Queued(channels) - |channels[i].queue| + |c.queue|
  {
    var n := |channels| - 1;
    if i < n {
      QueuedUpdate(channels[..n], i, c);
      assert channels[i := c][..n] == channels[..n][i := c];
    } else {
      assert channels[i := c][..n] == channels[..n];
    }
  }

  lemma FreshSubscriber(live: LB.Live, t: ThreadId)
    requires LB.RegistryOk(live) && LB.IdsUnique(LB.Ids(live.channels), live.pending, live.nextId) && t in live.pending
    ensures live.pending[t].id !in live.subscribers
  {
    forall id | id in live.subscribers ensures id != live.pending[t].id {
      assert LB.Ids(live.channels)[live.subscribers[id]] == id;
    }
  }

  lemma MapSizes(subscribers: map<string, nat>, id: string, i: nat, pending: map<ThreadId, LB.Pending>, t: ThreadId)
    requires id !in subscribers && t in pending
    ensures |subscribers[id := i]| == |subscribers| + 1
    ensures |pending - {t}| == |pending| - 1
  {
    assert subscribers[id := i].Keys == subscribers.Keys + {id};
    assert |subscribers[id := i].Keys| == |subscribers[id := i]| && |subscribers.Keys| == |subscribers|;
    assert (pending - {t}).Keys == pending.Keys - {t};
    assert |(pending - {t}).Keys| == |pending - {t}| && |pending.Keys| == |pending|;
  }

  lemma RegisterLowers(live: LB.Live, t: ThreadId)
    requires LB.Inv(live) && LB.Enabled(live, LB.Register(t))
    ensures var live' := LB.Step(live, LB.Register(t)); LiveRank(live') < LiveRank(live) && Audience(live') == Audience(live)
  {
    FreshSubscriber(live, t);
    MapSizes(live.subscribers, live.pending[t].id, |live.channels|, live.pending, t);
    var live' := LB.Step(live, LB.Register(t));
    assert live'.channels[..|live.channels|] == live.channels;
  }

  /** A send on an open channel changes the publication and that channel only. */
  lemma SendShape(live: LB.Live, t: ThreadId, id: string, waiting: bool)
    requires LB.Inv(live) && LB.Enabled(live, LB.Send(t, id, waiting))
    ensures var p, i := live.publishing[t], live.subscribers[id];
            && i < |live.channels|
            && var c := LB.Offer(live.channels[i], p.num, p.entry, waiting);
               && |c.queue| <= |live.channels[i].queue| + 1
               && LB.Step(live, LB.Send(t, id, waiting)) ==
                    live.(publishing := live.publishing[t := p.(todo := p.todo - {id})], channels := live.channels[i := c])
  {
  }

  lemma SendLowers(live: LB.Live, t: ThreadId, id: string, waiting: bool)
    requires LB.Inv(live) && LB.Enabled(live, LB.Send(t, id, waiting))
    ensures var live' := LB.Step(live, LB.Send(t, id, waiting));
            LiveRank(live') < LiveRank(live) && Audience(live') == Audience(live)
  {
    SendShape(live, t, id, waiting);
    var p, i := live.publishing[t], live.subscribers[id];
    SendCosts(live.publishing, t, id, live.channels, i, LB.Offer(live.channels[i], p.num, p.entry, waiting));
  }

  lemma SendCosts(
      publishing: map<ThreadId, LB.Publication>, t: ThreadId, id: string,
      channels: seq<LB.Channel>, i: nat, c: LB.Channel)
    requires t in publishing && id in publishing[t].todo && i < |channels| && |c.queue| <= |channels[i].queue| + 1
    ensures var q := publishing[t].(todo := publishing[t].todo - {id});
            SumOf(publishing[t := q], PublicationWeight) + Queued(channels[i := c])
              < SumOf(publishing, PublicationWeight) + Queued(channels)
  {
    var q := publishing[t].(todo := publishing[t].todo - {id});
    SumUpdate(publishing, PublicationWeight, t, q);
    QueuedUpdate(channels, i, c);
    assert |q.todo| == |publishing[t].todo| - 1;
  }

  lemma EndLowers(live: LB.Live, t: ThreadId)
    requires LB.Enabled(live, LB.EndPublish(t))
    ensures var live' := LB.Step(live, LB.EndPublish(t)); LiveRank(live') < LiveRank(live) && Audience(live') == Audience(live)
  {
    SumWithout(live.publishing, PublicationWeight, t);
  }

  lemma ReceiveLowers(live: LB.Live, i: nat)
    requires LB.Enabled(live, LB.Receive(i))
    ensures var live' := LB.Step(live, LB.Receive(i)); LiveRank(live') < LiveRank(live) && Audience(live') == Audience(live)
  {
    QueuedUpdate(live.channels, i, LB.Step(live, LB.Receive(i)).channels[i]);
  }

  lemma LiveLowers(s: Logger, b: LB.Action)
    requires Inv(s) && Enabled(s, LiveStep(b)) && !b.DrawId? && !b.Unsubscribe?
    ensures Rank(Step(s, LiveStep(b))) < Rank(s)
  {
    match b
    case Register(t) => RegisterLowers(s.live, t);
    case Send(t, id, waiting) => SendLowers(s.live, t, id, waiting);
    case EndPublish(t) => EndLowers(s.live, t);
    case Receive(i) => ReceiveLowers(s.live, i);
  }

  // ------------------------------------------------------------ every schedule ends

  /** Every step of a thread that is present lowers the rank. */
  lemma InternalLowers(s: Logger, a: Action)
    requires Inv(s) && Enabled(s, a) && Internal(s, a)
    ensures Rank(Step(s, a)) < Rank(s)
  {
    match a
    case Writer(t, op) => WriterLowers(s, t, op);
    case Closer(t, op) => CloserLowers(s, t, op);
    case Loop(op) => LoopLowers(s, op);
    case LiveStep(b) => LiveLowers(s, b);
  }

  lemma {:induction false} InternalRunRuns(s: Logger, actions: seq<Action>)
    requires Inv(s) && InternalRun(s, actions)
    ensures Runs(s, actions) && Inv(After(s, actions))
    ensures |actions| + Rank(After(s, actions)) <= Rank(s)
    decreases |actions|
  {
    if actions != [] {
      InternalLowers(s, actions[0]);
      StepKeeps(s, actions[0]);
      InternalRunRuns(Step(s, actions[0]), actions[1..]);
    }
  }

  /** No thread that is present can move. */
  ghost predicate AtRest(s: Logger) {
    forall a :: Enabled(s, a) ==> !Internal(s, a)
  }

  /** While nobody is publishing, a counted writer has a step. */
  lemma CountedStep(s: Logger)
    requires Inv(s) && s.gate.panic.None? && s.live.publishing == map[] && s.gate.writes.count > 0
    ensures !AtRest(s)
  {
    var u :| u in InFlight(s.gate.writers);
    var a := Writer(u, if s.gate.writers[u].Leaving? then Done else CountedOp(s.pipe, s.gate.writers[u]));
    if !s.gate.writers[u].Leaving? { CountedEnabled(s, u); }
    assert Enabled(s, a) && Internal(s, a);
  }

  lemma ParkedStep(s: Logger, t: ThreadId)
    requires Inv(s) && s.gate.panic.None? && s.live.publishing == map[] && t in s.gate.closers && s.gate.closers[t].Parked?
    ensures !AtRest(s)
  {
    assert SomeParked(s.gate);
    if s.gate.writes.sema > 0 {
      assert Enabled(s, Closer(t, Wake)) && Internal(s, Closer(t, Wake));
    } else if Releasers(s.gate.writers) != {} {
      var u :| u in Releasers(s.gate.writers);
      var a := Writer(u, LetGoOp(s.gate.writers[u]));
      assert Enabled(s, a) && Internal(s, a);
    } else {
      CountedStep(s);
    }
  }

  /** While a Close has not finished, some thread that is present has a step. */
  lemma SomebodyMoves(s: Logger, t: ThreadId)
    requires Inv(s) && s.gate.panic.None? && t in s.gate.closers && !s.gate.closers[t].Finished?
    ensures !AtRest(s)
  {
    if s.live.publishing != map[] {
      var u :| u in s.live.publishing;
      var todo := s.live.publishing[u].todo;
      var id :| todo == {} || id in todo;
      var a := LiveStep(if todo == {} then LB.EndPublish(u) else LB.Send(u, id, false));
      assert Enabled(s, a) && Internal(s, a);
    } else if s.gate.closers[t].Parked? {
      ParkedStep(s, t);
    } else {
      assert CloserOk(s.gate, s.pipe.loop, s.gate.closers[t]);
      var a := if s.gate.closers[t].Signalled? && !s.pipe.loop.Exited? then Loop(NextLoopOp(s.pipe))
               else Closer(t, NextCloserOp(s.gate.closers[t]));
      assert Enabled(s, a) && Internal(s, a);
    }
  }

  /**
   However the threads present are scheduled once a Close has won the swap, they make at
   most Rank(s) steps between new calls and idle ticks; and where they can make no more,
   the store is closed, unless the wait group panicked.
   */
  lemma EveryScheduleEnds(s: Logger, t: ThreadId, actions: seq<Action>)
    requires Inv(s) && t in s.gate.closers && InternalRun(s, actions)
    ensures |actions| <= Rank(s)
    ensures Runs(s, actions) && (AtRest(After(s, actions)) ==>
              CloseStore in After(s, actions).pipe.calls || After(s, actions).gate.panic.Some?)
  {
    InternalRunRuns(s, actions);
    var s' := After(s, actions);
    RankNotNegative(s');
    CloserStays(s, t, actions);
    if s'.gate.panic.None? {
      if s'.gate.closers[t].Finished? {
        assert StoreClosed(s'.gate);
      } else {
        SomebodyMoves(s', t);
      }
    }
  }

  lemma {:induction false} CloserStays(s: Logger, t: ThreadId, actions: seq<Action>)
    requires t in s.gate.closers && Runs(s, actions)
    ensures t in After(s, actions).gate.closers
    decreases |actions|
  {
    if actions != [] { CloserStays(Step(s, actions[0]), t, actions[1..]); }
  }
}
