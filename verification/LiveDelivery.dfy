/**
 What subscribers get from the live broadcaster, told from the moments of the sends: exactly the
 entries sent while there was room for them, in order.
 */
module LiveDelivery {
  import opened Common
  import LB = LiveBroadcaster

  // ------------------------------------------------------------ what is sent, and what finds room

  /** The step sends an entry at channel i, which is open, as `LB.Inv` says of all registered ones. */
  predicate SendsAt(s: LB.Live, a: LB.Action, i: nat) {
    && a.Send? && a.t in s.publishing && a.id in s.subscribers && s.subscribers[a.id] == i
    && i < |s.channels| && s.channels[i].open
  }

  /** A non-blocking send on a Go channel goes through: free buffer, or a receiver waiting at an empty one. */
  predicate HasRoom(c: LB.Channel, receiverWaiting: bool) {
    |c.queue| < c.cap || (receiverWaiting && c.queue == [])
  }

  /** What one step sends at channel i, and what of it goes through. */
  function SentBy(s: LB.Live, a: LB.Action, i: nat): seq<LB.LogEntry> {
    if SendsAt(s, a, i) then [s.publishing[a.t].entry] else []
  }

  function ArrivingBy(s: LB.Live, a: LB.Action, i: nat): seq<LB.LogEntry> {
    if SendsAt(s, a, i) && HasRoom(s.channels[i], a.receiverWaiting) then [s.publishing[a.t].entry] else []
  }

  /** The entries a run sends at channel i. */
  function Sent(s: LB.Live, actions: seq<LB.Action>, i: nat): seq<LB.LogEntry>
    requires LB.Runs(s, actions)
    decreases |actions|
  {
    if actions == [] then [] else SentBy(s, actions[0], i) + Sent(LB.Step(s, actions[0]), actions[1..], i)
  }

  /** Those of them that are sent at a moment with room. */
  function SentWithRoom(s: LB.Live, actions: seq<LB.Action>, i: nat): seq<LB.LogEntry>
    requires LB.Runs(s, actions)
    decreases |actions|
  {
    if actions == [] then [] else ArrivingBy(s, actions[0], i) + SentWithRoom(LB.Step(s, actions[0]), actions[1..], i)
  }

  /** Every send at channel i finds room. */
  predicate AlwaysRoom(s: LB.Live, actions: seq<LB.Action>, i: nat)
    requires LB.Runs(s, actions)
    decreases |actions|
  {
    actions == [] ||
    ((SendsAt(s, actions[0], i) ==> HasRoom(s.channels[i], actions[0].receiverWaiting))
     && AlwaysRoom(LB.Step(s, actions[0]), actions[1..], i))
  }

  /** What has arrived on channel i, taken out already or not. */
  function Arrived(s: LB.Live, i: nat): seq<LB.LogEntry> {
    if i < |s.channels| then s.channels[i].received + s.channels[i].queue else []
  }

  function Attempted(s: LB.Live, i: nat): seq<LB.LogEntry> {
    if i < |s.channels| then s.channels[i].attempted else []
  }

  lemma SendDelivers(s: LB.Live, t: LB.ThreadId, id: string, waiting: bool, i: nat)
    requires LB.Enabled(s, LB.Send(t, id, waiting))
    ensures var a := LB.Send(t, id, waiting);
            && Arrived(LB.Step(s, a), i) == Arrived(s, i) + ArrivingBy(s, a, i)
            && Attempted(LB.Step(s, a), i) == Attempted(s, i) + SentBy(s, a, i)
  {
    var a := LB.Send(t, id, waiting);
    if SendsAt(s, a, i) {
      var c, e := s.channels[i], s.publishing[t].entry;
      assert c.received + (c.queue + [e]) == (c.received + c.queue) + [e];
      assert c.queue == [] ==> (c.received + [e]) + c.queue == (c.received + c.queue) + [e];
      assert (c.received + c.queue) + [] == c.received + c.queue;
    } else {
      assert Arrived(s, i) + [] == Arrived(s, i) && Attempted(s, i) + [] == Attempted(s, i);
    }
  }

  lemma ReceiveDelivers(s: LB.Live, k: nat, i: nat)
    requires LB.Enabled(s, LB.Receive(k))
    ensures Arrived(LB.Step(s, LB.Receive(k)), i) == Arrived(s, i)
    ensures Attempted(LB.Step(s, LB.Receive(k)), i) == Attempted(s, i)
  {
    var c := s.channels[k];
    assert (c.received + [c.queue[0]]) + c.queue[1..] == c.received + c.queue;
  }

  lemma OthersDeliverNothing(s: LB.Live, a: LB.Action, i: nat)
    requires LB.Enabled(s, a) && !a.Send?
    ensures Arrived(LB.Step(s, a), i) == Arrived(s, i)
    ensures Attempted(LB.Step(s, a), i) == Attempted(s, i)
  {
    match a
    case Receive(k) => ReceiveDelivers(s, k, i);
    case Register(t) => assert Arrived(LB.Step(s, a), |s.channels|) == [];
    case _ =>
  }

  lemma StepDelivers(s: LB.Live, a: LB.Action, i: nat)
    requires LB.Enabled(s, a)
    ensures Arrived(LB.Step(s, a), i) == Arrived(s, i) + ArrivingBy(s, a, i)
    ensures Attempted(LB.Step(s, a), i) == Attempted(s, i) + SentBy(s, a, i)
  {
    if a.Send? {
      SendDelivers(s, a.t, a.id, a.receiverWaiting, i);
    } else {
      OthersDeliverNothing(s, a, i);
      assert Arrived(s, i) + [] == Arrived(s, i) && Attempted(s, i) + [] == Attempted(s, i);
    }
  }

  /** A subscriber has exactly what was sent at it while there was room, in the order it was sent. */
  lemma {:induction false} DeliversWhatFits(s: LB.Live, actions: seq<LB.Action>, i: nat)
    requires LB.Runs(s, actions)
    ensures Arrived(LB.After(s, actions), i) == Arrived(s, i) + SentWithRoom(s, actions, i)
    ensures Attempted(LB.After(s, actions), i) == Attempted(s, i) + Sent(s, actions, i)
    decreases |actions|
  {
    if actions != [] {
      var a, s', rest := actions[0], LB.Step(s, actions[0]), actions[1..];
      StepDelivers(s, a, i);
      DeliversWhatFits(s', rest, i);
      Reassociate(Arrived(s, i), ArrivingBy(s, a, i), SentWithRoom(s', rest, i));
      Reassociate(Attempted(s, i), SentBy(s, a, i), Sent(s', rest, i));
    }
  }

  lemma {:induction false} RoomForAll(s: LB.Live, actions: seq<LB.Action>, i: nat)
    requires LB.Runs(s, actions)
    ensures AlwaysRoom(s, actions, i) ==> SentWithRoom(s, actions, i) == Sent(s, actions, i)
    ensures |SentWithRoom(s, actions, i)| <= |Sent(s, actions, i)|
    ensures |SentWithRoom(s, actions, i)| == |Sent(s, actions, i)| ==> AlwaysRoom(s, actions, i)
    decreases |actions|
  {
    if actions != [] { RoomForAll(LB.Step(s, actions[0]), actions[1..], i); }
  }

  /** A subscriber misses nothing that is published at it if and only if every send found room. */
  lemma NothingMissedIff(actions: seq<LB.Action>, i: nat)
    requires LB.Runs(LB.Init(), actions)
    ensures var s := LB.After(LB.Init(), actions);
            Arrived(s, i) == Attempted(s, i) <==> AlwaysRoom(LB.Init(), actions, i)
  {
    DeliversWhatFits(LB.Init(), actions, i);
    RoomForAll(LB.Init(), actions, i);
  }

  // ------------------------------------------------------------ subscribing and unsubscribing

  /** Subscribing opens one more channel, empty and of the size asked for, under an id of its own. */
  lemma SubscribeOpens(s: LB.Live, t: LB.ThreadId, size: nat)
    requires LB.Inv(s) && s.publishing == map[] && t !in s.pending
    ensures LB.Runs(s, [LB.DrawId(t, size), LB.Register(t)])
    ensures var s' := LB.After(s, [LB.DrawId(t, size), LB.Register(t)]);
            && |s'.channels| == |s.channels| + 1 && s'.channels[..|s.channels|] == s.channels
            && var c := s'.channels[|s.channels|];
               && c.open && c.cap == size && c.received + c.queue == []
               && c.id !in s.subscribers.Keys && s'.subscribers.Keys == s.subscribers.Keys + {c.id}
  {
    var first := LB.DrawId(t, size);
    var s1 := LB.Step(s, first);
    LB.StepKeeps(s, first);
    var s2 := LB.Step(s1, LB.Register(t));
    assert [first, LB.Register(t)][1..] == [LB.Register(t)] && [LB.Register(t)][1..] == [];
    assert LB.Runs(s1, [LB.Register(t)]) && LB.After(s1, [LB.Register(t)]) == s2;
    forall id | id in s.subscribers ensures id != s1.pending[t].id {
      assert LB.Ids(s.channels)[s.subscribers[id]] == id;
    }
  }

  /** Unsubscribing closes the one channel and takes the one id out. */
  lemma UnsubscribeCloses(s: LB.Live, id: string)
    requires LB.Inv(s) && s.publishing == map[] && id in s.subscribers
    ensures LB.Enabled(s, LB.Unsubscribe(id))
    ensures var s' := LB.Step(s, LB.Unsubscribe(id));
            && s'.subscribers.Keys == s.subscribers.Keys - {id} && |s'.channels| == |s.channels|
            && forall i :: 0 <= i < |s.channels| ==>
                 s'.channels[i].open == (s.channels[i].open && s.channels[i].id != id)
  {
    var s' := LB.Step(s, LB.Unsubscribe(id));
    LB.StepKeeps(s, LB.Unsubscribe(id));
    forall i | 0 <= i < |s.channels| && i != s.subscribers[id] ensures s.channels[i].id != id {
      assert LB.Ids(s.channels)[i] == s.channels[i].id && LB.Ids(s.channels)[s.subscribers[id]] == id;
    }
  }

  /** On a closed channel nothing arrives any more, and it is never opened again. */
  lemma {:induction false} ClosedStaysSilent(s: LB.Live, actions: seq<LB.Action>, i: nat)
    requires LB.Inv(s) && LB.Runs(s, actions) && i < |s.channels| && !s.channels[i].open
    ensures var s' := LB.After(s, actions);
            i < |s'.channels| && !s'.channels[i].open && Arrived(s', i) == Arrived(s, i)
    decreases |actions|
  {
    if actions != [] {
      StepDelivers(s, actions[0], i);
      LB.StepKeeps(s, actions[0]);
      assert !SendsAt(s, actions[0], i);
      ClosedStaysSilent(LB.Step(s, actions[0]), actions[1..], i);
    }
  }

  /** A subscriber can take out what arrived, oldest first, down to the last entry. */
  lemma {:induction false} CanReceiveAll(s: LB.Live, i: nat) returns (actions: seq<LB.Action>)
    requires LB.Inv(s) && i < |s.channels|
    ensures LB.Runs(s, actions)
    ensures var s' := LB.After(s, actions);
            i < |s'.channels| && s'.channels[i].queue == [] && s'.channels[i].received == Arrived(s, i)
    decreases |s.channels[i].queue|
  {
    actions := [];
    var c := s.channels[i];
    if c.queue != [] {
      var s1 := LB.Step(s, LB.Receive(i));
      LB.StepKeeps(s, LB.Receive(i));
      StepDelivers(s, LB.Receive(i), i);
      assert |s1.channels[i].queue| == |c.queue| - 1;
      var rest := CanReceiveAll(s1, i);
      actions := [LB.Receive(i)] + rest;
      assert actions[1..] == rest;
    } else {
      assert c.received + [] == c.received;
    }
  }
}
