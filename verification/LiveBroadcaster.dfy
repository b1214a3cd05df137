/** The live broadcaster: a registry of subscriber channels, as a labelled step system. */
module LiveBroadcaster {
  import opened Common

  // The registry stands behind a read/write lock. Every action is one step no other goroutine
  // can split: an atomic increment, a critical section under the write lock, one non-blocking
  // send, one receive. A panic of the Go runtime (send on, or close of, a closed channel) is a
  // state, so its absence is a theorem and not a guard.

  datatype LogEntry = LogEntry(id: string, requestId: string, model: string)

  type ThreadId = nat

  /**
   One subscriber channel together with the history of what happened on it: the entries
   whose sending was attempted, and the numbers of the publications that attempted it.
   */
  datatype Channel = Channel(
    id: string,
    cap: nat,
    open: bool,
    queue: seq<LogEntry>,
    received: seq<LogEntry>,
    attempted: seq<LogEntry>,
    nums: seq<nat>)

  /** A Publish call holding the read lock: the subscribers its loop has yet to visit. */
  datatype Publication = Publication(num: nat, entry: LogEntry, todo: set<string>)

  datatype Pending = Pending(id: string, cap: nat)

  datatype Live = Live(
    nextId: nat,
    pending: map<ThreadId, Pending>,     // id drawn, not yet in the registry
    subscribers: map<string, nat>,       // id -> index into channels
    channels: seq<Channel>,
    publishing: map<ThreadId, Publication>,
    published: nat,                      // publications begun so far
    offered: set<LogEntry>,              // every entry some Publish was called with
    panicked: bool)

  function Init(): Live {
    Live(0, map[], map[], [], map[], 0, {}, false)
  }

  datatype Action =
    | DrawId(t: ThreadId, cap: nat)
    | Register(t: ThreadId)
    | Unsubscribe(id: string)
    | BeginPublish(t: ThreadId, entry: LogEntry)
    | Send(t: ThreadId, id: string, receiverWaiting: bool)
    | EndPublish(t: ThreadId)
    | Receive(channel: nat)

  function SubscriberId(n: nat): string {
    "sub_" + Decimal(n)
  }

  predicate Enabled(s: Live, a: Action) {
    match a
    case DrawId(t, _) => t !in s.pending
    case Register(t) => t in s.pending && s.publishing == map[]
    case Unsubscribe(_) => s.publishing == map[]
    case BeginPublish(t, _) => t !in s.publishing
    case Send(t, id, _) => t in s.publishing && id in s.publishing[t].todo
    case EndPublish(t) => t in s.publishing && s.publishing[t].todo == {}
    case Receive(c) => c < |s.channels| && s.channels[c].queue != []
  }

  /** A non-blocking send: hand over, enqueue, or drop. */
  function Offer(c: Channel, num: nat, e: LogEntry, receiverWaiting: bool): Channel {
    var tried := c.(attempted := c.attempted + [e], nums := c.nums + [num]);
    if |c.queue| < c.cap then tried.(queue := c.queue + [e])
    else if receiverWaiting && c.queue == [] then tried.(received := c.received + [e])
    else tried
  }

  function Step(s: Live, a: Action): Live
    requires Enabled(s, a)
  {
    match a
    case DrawId(t, cap) =>
      var n := s.nextId + 1;
      s.(nextId := n, pending := s.pending[t := Pending(SubscriberId(n), cap)])
    case Register(t) =>
      var p := s.pending[t];
      s.(pending := s.pending - {t},
         subscribers := s.subscribers[p.id := |s.channels|],
         channels := s.channels + [Channel(p.id, p.cap, true, [], [], [], [])])
    case Unsubscribe(id) =>
      if id !in s.subscribers then s
      else
        var i := s.subscribers[id];
        if i >= |s.channels| || !s.channels[i].open then s.(panicked := true)
        else
          s.(subscribers := s.subscribers - {id},
             channels := s.channels[i := s.channels[i].(open := false)])
    case BeginPublish(t, e) =>
      s.(publishing := s.publishing[t := Publication(s.published, e, s.subscribers.Keys)],
         published := s.published + 1,
         offered := s.offered + {e})
    case Send(t, id, waiting) =>
      var p := s.publishing[t];
      var s1 := s.(publishing := s.publishing[t := p.(todo := p.todo - {id})]);
      if id !in s.subscribers || s.subscribers[id] >= |s.channels| then s1.(panicked := true)
      else
        var i := s.subscribers[id];
        if !s.channels[i].open then s1.(panicked := true)
        else s1.(channels := s.channels[i := Offer(s.channels[i], p.num, p.entry, waiting)])
    case EndPublish(t) =>
      s.(publishing := s.publishing - {t})
    case Receive(i) =>
      var c := s.channels[i];
      s.(channels := s.channels[i := c.(queue := c.queue[1..], received := c.received + [c.queue[0]])])
  }

  /** at lists, in ascending order, the positions of ys where the elements of xs sit. */
  ghost predicate Embeds<T>(xs: seq<T>, ys: seq<T>, at: seq<nat>) {
    && |at| == |xs|
    && (forall i, j :: 0 <= i < j < |at| ==> at[i] < at[j])
    && (forall i :: 0 <= i < |at| ==> at[i] < |ys| && xs[i] == ys[at[i]])
  }

  /** xs can be obtained from ys by leaving elements out. */
  ghost predicate Subsequence<T>(xs: seq<T>, ys: seq<T>) {
    exists at: seq<nat> :: Embeds(xs, ys, at)
  }

  lemma SubsequenceExtend<T>(xs: seq<T>, ys: seq<T>, e: T)
    requires Subsequence(xs, ys)
    ensures Subsequence(xs, ys + [e])
    ensures Subsequence(xs + [e], ys + [e])
  {
    var at: seq<nat> :| Embeds(xs, ys, at);
    assert Embeds(xs, ys + [e], at);
    assert Embeds(xs + [e], ys + [e], at + [|ys|]);
  }

  // ------------------------------------------------------------ invariants

  /** What holds of one channel whatever happened to it. */
  ghost predicate ChannelOk(c: Channel, offered: set<LogEntry>, published: nat) {
    && |c.queue| <= c.cap
    && |c.nums| == |c.attempted| && Distinct(c.nums) && (forall n :: n in c.nums ==> n < published)
    && Subsequence(c.received + c.queue, c.attempted)
    && (forall e :: e in c.attempted ==> e in offered)
  }

  ghost predicate IssuedId(id: string, n: nat) {
    exists k: nat :: 1 <= k <= n && id == SubscriberId(k)
  }

  ghost function Ids(channels: seq<Channel>): (ids: seq<string>)
    ensures |ids| == |channels| && forall i :: 0 <= i < |ids| ==> ids[i] == channels[i].id
  {
    seq(|channels|, i requires 0 <= i < |channels| => channels[i].id)
  }

  /** Registered and pending ids are pairwise different and all drawn from the counter. */
  ghost predicate IdsUnique(ids: seq<string>, pending: map<ThreadId, Pending>, n: nat) {
    && Distinct(ids)
    && (forall id :: id in ids ==> IssuedId(id, n))
    && (forall t :: t in pending ==> pending[t].id !in ids && IssuedId(pending[t].id, n))
    && (forall t, u :: t in pending && u in pending && t != u ==> pending[t].id != pending[u].id)
  }

  /** The registry holds exactly the open channels, each under its own id. */
  ghost predicate RegistryOk(s: Live) {
    && (forall id :: id in s.subscribers ==>
          s.subscribers[id] < |s.channels| &&
          s.channels[s.subscribers[id]].id == id && s.channels[s.subscribers[id]].open)
    && (forall i :: 0 <= i < |s.channels| && s.channels[i].open ==> s.channels[i].id in s.subscribers)
  }

  /** Publication num tried to send e on the channel. */
  ghost predicate AttemptedBy(c: Channel, num: nat, e: LogEntry) {
    exists k :: 0 <= k < |c.nums| && k < |c.attempted| && c.nums[k] == num && c.attempted[k] == e
  }

  /** A publication has tried exactly the subscribers its loop has passed. */
  ghost predicate Visited(s: Live, t: ThreadId)
    requires RegistryOk(s) && t in s.publishing
  {
    var p := s.publishing[t];
    && p.num < s.published
    && forall id :: id in s.subscribers ==>
         var c := s.channels[s.subscribers[id]];
         if id in p.todo then p.num !in c.nums else AttemptedBy(c, p.num, p.entry)
  }

  ghost predicate Inv(s: Live) {
    && !s.panicked
    && IdsUnique(Ids(s.channels), s.pending, s.nextId)
    && RegistryOk(s)
    && (forall t :: t in s.publishing ==> Visited(s, t))
    && (forall i :: 0 <= i < |s.channels| ==> ChannelOk(s.channels[i], s.offered, s.published))
    && (forall t, u :: t in s.publishing && u in s.publishing && t != u ==>
          s.publishing[t].num != s.publishing[u].num)
    && (forall t :: t in s.publishing ==>
          s.publishing[t].todo <= s.subscribers.Keys && s.publishing[t].entry in s.offered)
  }

  lemma FreshId(id: string, n: nat)
    requires IssuedId(id, n)
    ensures id != SubscriberId(n + 1)
    ensures IssuedId(id, n + 1)
  {
    var k: nat :| 1 <= k <= n && id == SubscriberId(k);
    if id == SubscriberId(n + 1) {
      assert Decimal(k) == SubscriberId(k)[4..];
      assert Decimal(n + 1) == SubscriberId(n + 1)[4..];
      DecimalInjective(k, n + 1);
    }
  }

  lemma DrawIdUnique(ids: seq<string>, pending: map<ThreadId, Pending>, n: nat, t: ThreadId, cap: nat)
    requires IdsUnique(ids, pending, n) && t !in pending
    ensures IdsUnique(ids, pending[t := Pending(SubscriberId(n + 1), cap)], n + 1)
  {
    assert IssuedId(SubscriberId(n + 1), n + 1);
    forall id | id in ids ensures id != SubscriberId(n + 1) && IssuedId(id, n + 1) {
      FreshId(id, n);
    }
    forall u | u in pending ensures pending[u].id != SubscriberId(n + 1) && IssuedId(pending[u].id, n + 1) {
      FreshId(pending[u].id, n);
    }
  }

  lemma DrawIdKeeps(s: Live, t: ThreadId, cap: nat)
    requires Inv(s) && Enabled(s, DrawId(t, cap))
    ensures Inv(Step(s, DrawId(t, cap)))
  {
    DrawIdUnique(Ids(s.channels), s.pending, s.nextId, t, cap);
    var s' := Step(s, DrawId(t, cap));
    forall u | u in s'.publishing ensures Visited(s', u) {
      assert Visited(s, u);
    }
  }

  lemma RegisterUnique(ids: seq<string>, pending: map<ThreadId, Pending>, n: nat, t: ThreadId)
    requires IdsUnique(ids, pending, n) && t in pending
    ensures IdsUnique(ids + [pending[t].id], pending - {t}, n)
  {
    DistinctAppend(ids, pending[t].id);
  }

  lemma NewChannelOk(id: string, cap: nat, offered: set<LogEntry>, published: nat)
    ensures ChannelOk(Channel(id, cap, true, [], [], [], []), offered, published)
  {
    var none: seq<LogEntry> := [];
    assert none + none == none;
    assert Embeds(none, none, []);
  }

  lemma RegisterRegistry(s: Live, t: ThreadId)
    requires Inv(s) && Enabled(s, Register(t))
    ensures RegistryOk(Step(s, Register(t)))
  {
    var s' := Step(s, Register(t));
    var id := s.pending[t].id;
    forall k | k in s'.subscribers
      ensures s'.subscribers[k] < |s'.channels| && s'.channels[s'.subscribers[k]].id == k
      ensures s'.channels[s'.subscribers[k]].open
    {
      if k != id { assert k in s.subscribers; }
    }
  }

  lemma RegisterKeeps(s: Live, t: ThreadId)
    requires Inv(s) && Enabled(s, Register(t))
    ensures Inv(Step(s, Register(t)))
  {
    var s' := Step(s, Register(t));
    RegisterRegistry(s, t);
    assert Ids(s'.channels) == Ids(s.channels) + [s.pending[t].id];
    RegisterUnique(Ids(s.channels), s.pending, s.nextId, t);
    NewChannelOk(s.pending[t].id, s.pending[t].cap, s.offered, s.published);
  }

  lemma UnsubscribeKeeps(s: Live, id: string)
    requires Inv(s) && Enabled(s, Unsubscribe(id))
    ensures Inv(Step(s, Unsubscribe(id)))
  {
    if id in s.subscribers {
      var s' := Step(s, Unsubscribe(id));
      assert Ids(s'.channels) == Ids(s.channels);
      assert ChannelOk(s.channels[s.subscribers[id]], s.offered, s.published);
    }
  }

  lemma BeginPublishKeeps(s: Live, t: ThreadId, e: LogEntry)
    requires Inv(s) && Enabled(s, BeginPublish(t, e))
    ensures Inv(Step(s, BeginPublish(t, e)))
  {
    var s' := Step(s, BeginPublish(t, e));
    forall k | 0 <= k < |s'.channels| ensures ChannelOk(s'.channels[k], s'.offered, s'.published) {
      assert ChannelOk(s.channels[k], s.offered, s.published);
    }
    forall u | u in s.publishing ensures s.publishing[u].num < s.published { assert Visited(s, u); }
    forall u | u in s'.publishing ensures Visited(s', u) {
      if u != t { assert Visited(s, u); }
      else {
        forall id | id in s'.subscribers ensures s.published !in s'.channels[s'.subscribers[id]].nums {
          assert ChannelOk(s.channels[s.subscribers[id]], s.offered, s.published);
        }
      }
    }
  }

  lemma OfferKeeps(c: Channel, num: nat, e: LogEntry, waiting: bool, offered: set<LogEntry>, published: nat)
    requires ChannelOk(c, offered, published) && e in offered && num < published && num !in c.nums
    ensures ChannelOk(Offer(c, num, e, waiting), offered, published)
  {
    var seen := c.received + c.queue;
    var c' := Offer(c, num, e, waiting);
    assert Subsequence(c'.received + c'.queue, c'.attempted) by {
      SubsequenceExtend(seen, c.attempted, e);
      if |c.queue| < c.cap {
        assert c'.received + c'.queue == seen + [e];
      } else if waiting && c.queue == [] {
        assert c'.received + c'.queue == seen + [e];
      } else {
        assert c'.received + c'.queue == seen;
      }
    }
    DistinctAppend(c.nums, num);
    forall x | x in c'.attempted ensures x in offered {
      assert x in c.attempted || x == e;
    }
  }

  /** A publication's own attempt is recorded, and those of the others stay as they were. */
  lemma OfferAttempts(c: Channel, num: nat, e: LogEntry, waiting: bool, n: nat, x: LogEntry)
    requires |c.nums| == |c.attempted|
    ensures var c' := Offer(c, num, e, waiting);
            && AttemptedBy(c', num, e)
            && (AttemptedBy(c, n, x) ==> AttemptedBy(c', n, x))
            && (n != num && n !in c.nums ==> n !in c'.nums)
  {
    var c' := Offer(c, num, e, waiting);
    assert c'.nums[|c.nums|] == num && c'.attempted[|c.nums|] == e;
    if AttemptedBy(c, n, x) {
      var k :| 0 <= k < |c.nums| && k < |c.attempted| && c.nums[k] == n && c.attempted[k] == x;
      assert c'.nums[k] == n && c'.attempted[k] == x;
    }
  }

  lemma SendRegistry(s: Live, t: ThreadId, id: string, waiting: bool)
    requires Inv(s) && Enabled(s, Send(t, id, waiting))
    ensures var s' := Step(s, Send(t, id, waiting));
            !s'.panicked && Ids(s'.channels) == Ids(s.channels) && RegistryOk(s')
  {
    var s' := Step(s, Send(t, id, waiting));
    assert forall k :: 0 <= k < |s'.channels| ==>
        s'.channels[k].id == s.channels[k].id && s'.channels[k].open == s.channels[k].open;
  }

  lemma SendVisited(s: Live, t: ThreadId, id: string, waiting: bool, u: ThreadId)
    requires Inv(s) && Enabled(s, Send(t, id, waiting)) && u in s.publishing
    requires RegistryOk(Step(s, Send(t, id, waiting)))
    ensures Visited(Step(s, Send(t, id, waiting)), u)
  {
    var s' := Step(s, Send(t, id, waiting));
    var i, p, q := s.subscribers[id], s.publishing[t], s.publishing[u];
    assert Visited(s, u);
    assert ChannelOk(s.channels[i], s.offered, s.published);
    OfferAttempts(s.channels[i], p.num, p.entry, waiting, q.num, q.entry);
    forall k | k in s'.subscribers
      ensures var c := s'.channels[s'.subscribers[k]];
              if k in s'.publishing[u].todo then q.num !in c.nums else AttemptedBy(c, q.num, q.entry)
    {
      if k != id { assert s.subscribers[k] != i; }
    }
  }

  lemma SendChannels(s: Live, t: ThreadId, id: string, waiting: bool)
    requires Inv(s) && Enabled(s, Send(t, id, waiting))
    ensures var s' := Step(s, Send(t, id, waiting));
            forall i :: 0 <= i < |s'.channels| ==> ChannelOk(s'.channels[i], s'.offered, s'.published)
  {
    var p := s.publishing[t];
    assert Visited(s, t);
    OfferKeeps(s.channels[s.subscribers[id]], p.num, p.entry, waiting, s.offered, s.published);
  }

  lemma SendKeeps(s: Live, t: ThreadId, id: string, waiting: bool)
    requires Inv(s) && Enabled(s, Send(t, id, waiting))
    ensures Inv(Step(s, Send(t, id, waiting)))
  {
    SendRegistry(s, t, id, waiting);
    SendChannels(s, t, id, waiting);
    forall u | u in s.publishing ensures Visited(Step(s, Send(t, id, waiting)), u) {
      SendVisited(s, t, id, waiting, u);
    }
  }

  lemma ReceiveRegistry(s: Live, i: nat)
    requires Inv(s) && Enabled(s, Receive(i))
    ensures var s' := Step(s, Receive(i)); Ids(s'.channels) == Ids(s.channels) && RegistryOk(s')
    ensures forall t :: t in s.publishing ==> Visited(Step(s, Receive(i)), t)
  {
    var s' := Step(s, Receive(i));
    assert forall k :: 0 <= k < |s'.channels| ==>
        s'.channels[k].id == s.channels[k].id && s'.channels[k].open == s.channels[k].open &&
        s'.channels[k].attempted == s.channels[k].attempted && s'.channels[k].nums == s.channels[k].nums;
    forall t | t in s.publishing ensures Visited(s', t) {
      assert Visited(s, t);
    }
  }

  lemma ReceiveKeeps(s: Live, i: nat)
    requires Inv(s) && Enabled(s, Receive(i))
    ensures Inv(Step(s, Receive(i)))
  {
    ReceiveRegistry(s, i);
    var c, c' := s.channels[i], Step(s, Receive(i)).channels[i];
    assert c'.received + c'.queue == c.received + c.queue;
    assert ChannelOk(c, s.offered, s.published);
  }

  lemma EndPublishKeeps(s: Live, t: ThreadId)
    requires Inv(s) && Enabled(s, EndPublish(t))
    ensures Inv(Step(s, EndPublish(t)))
  {
    var s' := Step(s, EndPublish(t));
    forall u | u in s'.publishing ensures Visited(s', u) {
      assert Visited(s, u);
    }
  }

  /** Every step keeps the invariant. */
  lemma StepKeeps(s: Live, a: Action)
    requires Inv(s) && Enabled(s, a)
    ensures Inv(Step(s, a))
  {
    match a
    case DrawId(t, cap) => DrawIdKeeps(s, t, cap);
    case Register(t) => RegisterKeeps(s, t);
    case Unsubscribe(id) => UnsubscribeKeeps(s, id);
    case BeginPublish(t, e) => BeginPublishKeeps(s, t, e);
    case Send(t, id, w) => SendKeeps(s, t, id, w);
    case EndPublish(t) => EndPublishKeeps(s, t);
    case Receive(i) => ReceiveKeeps(s, i);
  }

  lemma InitInv()
    ensures Inv(Init())
  {
    assert Ids([]) == [];
  }

  // ------------------------------------------------------------ whole runs

  predicate Runs(s: Live, actions: seq<Action>)
    decreases |actions|
  {
    actions == [] || (Enabled(s, actions[0]) && Runs(Step(s, actions[0]), actions[1..]))
  }

  function After(s: Live, actions: seq<Action>): Live
    requires Runs(s, actions)
    decreases |actions|
  {
    if actions == [] then s else After(Step(s, actions[0]), actions[1..])
  }

  lemma {:induction false} RunKeeps(s: Live, actions: seq<Action>)
    requires Inv(s) && Runs(s, actions)
    ensures Inv(After(s, actions))
    decreases |actions|
  {
    if actions != [] {
      StepKeeps(s, actions[0]);
      RunKeeps(Step(s, actions[0]), actions[1..]);
    }
  }

  /**
   In every interleaving of subscribers, unsubscribers, publishers and receivers the
   runtime never panics, ids never repeat, queues respect their capacity, and what a
   subscriber has received and still has queued is a subsequence of what was sent at it,
   all of it entries somebody published.
   */
  lemma BroadcastSafety(actions: seq<Action>)
    requires Runs(Init(), actions)
    ensures var s := After(Init(), actions);
            && !s.panicked
            && (forall i, j :: 0 <= i < j < |s.channels| ==> s.channels[i].id != s.channels[j].id)
            && (forall i :: 0 <= i < |s.channels| ==>
                  var c := s.channels[i];
                  && (c.open <==> c.id in s.subscribers)
                  && |c.queue| <= c.cap
                  && Subsequence(c.received + c.queue, c.attempted)
                  && (forall e :: e in c.attempted ==> e in s.offered))
  {
    InitInv();
    RunKeeps(Init(), actions);
    var s := After(Init(), actions);
    forall i | 0 <= i < |s.channels|
      ensures ChannelOk(s.channels[i], s.offered, s.published)
      ensures s.channels[i].open <==> s.channels[i].id in s.subscribers
    {
      var c := s.channels[i];
      if c.id in s.subscribers {
        var k := s.subscribers[c.id];
        assert s.channels[k].id == s.channels[i].id;
        assert k == i;
      }
    }
  }

  /**
   When a publication ends it has tried every registered subscriber itself, and exactly
   once: no two attempts on a channel are by the same publication.
   */
  lemma PublishReachesAll(actions: seq<Action>, t: ThreadId)
    requires Runs(Init(), actions) && Enabled(After(Init(), actions), EndPublish(t))
    ensures var s := After(Init(), actions);
            var p := s.publishing[t];
            forall id :: id in s.subscribers ==>
              && s.subscribers[id] < |s.channels|
              && AttemptedBy(s.channels[s.subscribers[id]], p.num, p.entry)
              && Distinct(s.channels[s.subscribers[id]].nums)
    ensures var s := After(Init(), actions);
            forall u :: u in s.publishing && u != t ==> s.publishing[u].num != s.publishing[t].num
  {
    InitInv();
    RunKeeps(Init(), actions);
    var s := After(Init(), actions);
    assert Visited(s, t);
    forall id | id in s.subscribers ensures Distinct(s.channels[s.subscribers[id]].nums) {
      assert ChannelOk(s.channels[s.subscribers[id]], s.offered, s.published);
    }
  }
}
