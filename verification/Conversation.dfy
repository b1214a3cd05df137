/**
 The conversation around one audit entry: a walk back along the responses it answers and
 forward along the requests that answer it, both over lookups of a store that may fail or
 hold cyclic links.
 */
module Conversation {
  import opened Common

  datatype Scalar = Text(s: string) | NotText
  datatype Element = Element(key: string, value: Scalar)

  /** A stored body: a map, an ordered document whose keys may repeat, or neither. */
  datatype Body =
    | Object(fields: map<string, Scalar>)
    | Document(elements: seq<Element>)
    | NoObject

  datatype Data = Data(request: Body, response: Body)
  datatype Entry = Entry(id: string, timestamp: int, data: Option<Data>)

  type Found = Result<Option<Entry>, string>
  datatype Store = Store(byID: string -> Found, byResponse: string -> Found, byPrevious: string -> Found)

  function TrimmedText(v: Scalar): string {
    if v.Text? then Trim(v.s) else ""
  }

  /** The first element of that name decides. */
  function DocumentText(elements: seq<Element>, key: string): string {
    if elements == [] then ""
    else if elements[0].key == key then TrimmedText(elements[0].value)
    else DocumentText(elements[1..], key)
  }

  function FieldText(body: Body, key: string): string {
    match body
    case Object(fields) => if key in fields then TrimmedText(fields[key]) else ""
    case Document(elements) => DocumentText(elements, key)
    case NoObject => ""
  }

  function ResponseID(e: Entry): string {
    if e.data.None? then "" else FieldText(e.data.value.response, "id")
  }

  function PreviousResponseID(e: Entry): string {
    if e.data.None? then "" else FieldText(e.data.value.request, "previous_response_id")
  }

  function ClampLimit(limit: int): (r: nat)
    ensures 1 <= r <= 50
    ensures 1 <= limit <= 50 ==> r == limit
    ensures limit > 50 ==> r == 50
    ensures limit <= 0 ==> r == 40
  {
    if limit <= 0 then 40 else if limit > 50 then 50 else limit
  }

  function Ids(thread: seq<Entry>): set<string> {
    if thread == [] then {} else {thread[0].id} + Ids(thread[1..])
  }

  lemma {:induction false} IdsAdd(thread: seq<Entry>, e: Entry)
    ensures Ids([e] + thread) == Ids(thread + [e]) == Ids(thread) + {e.id}
  {
    assert ([e] + thread)[1..] == thread;
    if thread != [] {
      IdsAdd(thread[1..], e);
      assert (thread + [e])[1..] == thread[1..] + [e];
    }
  }

  lemma {:induction false} IdsHas(thread: seq<Entry>, i: nat)
    requires i < |thread|
    ensures thread[i].id in Ids(thread)
  {
    if i > 0 { IdsHas(thread[1..], i - 1); }
  }

  lemma {:induction false} IdsOnly(thread: seq<Entry>, id: string) returns (i: nat)
    requires id in Ids(thread)
    ensures i < |thread| && thread[i].id == id
  {
    if thread[0].id == id {
      i := 0;
    } else {
      i := IdsOnly(thread[1..], id);
      i := i + 1;
    }
  }

  // ------------------------------------------------------------ the walk

  /** What following a link comes to; To means the store found that entry. */
  datatype Link = NoLink | Failed(error: string) | Nothing | To(entry: Entry)

  /** The links of an entry to the one it answers and to the one that answers it. */
  datatype Links = Links(back: Entry -> Link, forward: Entry -> Link)

  function Follow(lookup: string -> Found, id: string): Link {
    if id == "" then NoLink
    else
      match lookup(id)
      case Err(e) => Failed(e)
      case Ok(None) => Nothing
      case Ok(Some(entry)) => To(entry)
  }

  function Via(lookup: string -> Found, idOf: Entry -> string): Entry -> Link {
    e => Follow(lookup, idOf(e))
  }

  function LinksOf(store: Store): Links {
    Links(Via(store.byResponse, PreviousResponseID), Via(store.byPrevious, ResponseID))
  }

  /** The thread so far, the link lookups made for it, and the error that ended it. */
  datatype Progress = Progress(thread: seq<Entry>, lookups: nat, error: Option<string>)

  predicate IsNew(l: Link, thread: seq<Entry>) {
    l.To? && l.entry.id !in Ids(thread)
  }

  /** The walk ends at a link that leads to no new entry. */
  function Ended(thread: seq<Entry>, l: Link): (p: Progress)
    ensures p.thread == thread && p.lookups <= 1
  {
    match l
    case NoLink => Progress(thread, 0, None)
    case Failed(e) => Progress(thread, 1, Some(e))
    case _ => Progress(thread, 1, None)
  }

  function Back(links: Links, thread: seq<Entry>, limit: nat): (p: Progress)
    requires thread != []
    ensures p.thread != []
    decreases limit - |thread|
  {
    if |thread| >= limit then Progress(thread, 0, None)
    else
      var l := links.back(thread[0]);
      if !IsNew(l, thread) then Ended(thread, l)
      else
        var p := Back(links, [l.entry] + thread, limit);
        p.(lookups := p.lookups + 1)
  }

  function Forward(links: Links, thread: seq<Entry>, limit: nat): (p: Progress)
    requires thread != []
    ensures p.thread != []
    decreases limit - |thread|
  {
    if |thread| >= limit then Progress(thread, 0, None)
    else
      var l := links.forward(thread[|thread| - 1]);
      if !IsNew(l, thread) then Ended(thread, l)
      else
        var p := Forward(links, thread + [l.entry], limit);
        p.(lookups := p.lookups + 1)
  }

  function Thread(links: Links, anchor: Entry, limit: nat): (p: Progress)
    ensures p.thread != []
  {
    var b := Back(links, [anchor], limit);
    if b.error.Some? then b
    else
      var f := Forward(links, b.thread, limit);
      f.(lookups := b.lookups + f.lookups)
  }

  datatype Conversation = Conversation(anchorID: string, entries: seq<Entry>)

  predicate Earlier(a: Entry, b: Entry) {
    a.timestamp <= b.timestamp
  }

  predicate InTimeOrder(entries: seq<Entry>, thread: seq<Entry>) {
    multiset(entries) == multiset(thread) && Sorted(entries, Earlier)
  }

  /** sort.Slice is not stable: nothing is promised about entries of equal time. */
  method SortByTime(thread: seq<Entry>) returns (entries: seq<Entry>)
    ensures InTimeOrder(entries, thread)
  {
    entries := Sort(thread, Earlier);
    SortSorted(thread, Earlier);
  }

  /** The first loop: parents are put in front. */
  method WalkBack(ghost links: Links, lookup: string -> Found, idOf: Entry -> string, anchor: Entry, max: nat)
    returns (thread: seq<Entry>, seen: set<string>, ghost lookups: nat, error: Option<string>)
    requires links.back == Via(lookup, idOf)
    ensures Progress(thread, lookups, error) == Back(links, [anchor], max)
    ensures seen == Ids(thread) && thread != []
  {
    thread, seen, lookups, error := [anchor], {anchor.id}, 0, None;
    var current := anchor;
    while |thread| < max
      invariant thread != [] && current == thread[0] && seen == Ids(thread) && error == None
      invariant var rest := Back(links, thread, max);
                rest.(lookups := lookups + rest.lookups) == Back(links, [anchor], max)
      decreases max - |thread|
    {
      ghost var l := links.back(current);
      var id := idOf(current);
      if id == "" { break; }
      var found := lookup(id);
      lookups := lookups + 1;
      if found.Err? { error := Some(found.error); return; }
      if found.value.None? { break; }
      var parent := found.value.value;
      if parent.id in seen { break; }
      assert l == To(parent);
      IdsAdd(thread, parent);
      thread, seen, current := [parent] + thread, seen + {parent.id}, parent;
    }
  }

  /** The walk back only puts entries in front. */
  lemma {:induction false} BackEndsAt(links: Links, thread: seq<Entry>, limit: nat)
    requires thread != []
    ensures var t := Back(links, thread, limit).thread; t[|t| - 1] == thread[|thread| - 1]
    decreases limit - |thread|
  {
    var l := links.back(thread[0]);
    if |thread| < limit && IsNew(l, thread) { BackEndsAt(links, [l.entry] + thread, limit); }
  }

  /** The second loop: children of the last entry are appended. */
  method WalkForward(
      ghost links: Links, lookup: string -> Found, idOf: Entry -> string,
      anchor: Entry, start: seq<Entry>, ids: set<string>, max: nat)
    returns (thread: seq<Entry>, ghost lookups: nat, error: Option<string>)
    requires links.forward == Via(lookup, idOf)
    requires start != [] && start[|start| - 1] == anchor && ids == Ids(start)
    ensures Progress(thread, lookups, error) == Forward(links, start, max)
  {
    thread, lookups, error := start, 0, None;
    var seen, current := ids, anchor;
    while |thread| < max
      invariant thread != [] && current == thread[|thread| - 1] && seen == Ids(thread) && error == None
      invariant var rest := Forward(links, thread, max);
                rest.(lookups := lookups + rest.lookups) == Forward(links, start, max)
      decreases max - |thread|
    {
      ghost var l := links.forward(current);
      var id := idOf(current);
      if id == "" { break; }
      var found := lookup(id);
      lookups := lookups + 1;
      if found.Err? { error := Some(found.error); return; }
      if found.value.None? { break; }
      var child := found.value.value;
      if child.id in seen { break; }
      assert l == To(child);
      IdsAdd(thread, child);
      thread, seen, current := thread + [child], seen + {child.id}, child;
    }
  }

  /** At most the clamped limit of link lookups, and the thread in time order. */
  method BuildThread(store: Store, logID: string, limit: int)
    returns (r: Result<Conversation, string>, ghost lookups: nat)
    ensures lookups <= ClampLimit(limit)
    ensures
      match store.byID(logID)
      case Err(e) => r == Err(e)
      case Ok(None) => r == Ok(Conversation(logID, []))
      case Ok(Some(anchor)) =>
        var p := Thread(LinksOf(store), anchor, ClampLimit(limit));
        match p.error
        case Some(e) => r == Err(e)
        case None => r.Ok? && r.value.anchorID == anchor.id && InTimeOrder(r.value.entries, p.thread)
  {
    lookups := 0;
    var max := ClampLimit(limit);
    var first := store.byID(logID);
    if first.Err? { return Err(first.error), 0; }
    if first.value.None? { return Ok(Conversation(logID, [])), 0; }
    var anchor := first.value.value;
    LookupBound(LinksOf(store), anchor, max);
    var thread, seen, error;
    BackEndsAt(LinksOf(store), [anchor], max);
    thread, seen, lookups, error := WalkBack(LinksOf(store), store.byResponse, PreviousResponseID, anchor, max);
    if error.Some? { return Err(error.value), lookups; }
    ghost var more: nat;
    thread, more, error := WalkForward(LinksOf(store), store.byPrevious, ResponseID, anchor, thread, seen, max);
    lookups := lookups + more;
    if error.Some? { return Err(error.value), lookups; }
    var entries := SortByTime(thread);
    r := Ok(Conversation(anchor.id, entries));
  }

  // ------------------------------------------------------------ cost

  lemma {:induction false} BackBound(links: Links, thread: seq<Entry>, limit: nat)
    requires 1 <= |thread| <= limit
    ensures var p := Back(links, thread, limit);
            && |thread| <= |p.thread| <= limit
            && p.lookups <= |p.thread| - |thread| + if |p.thread| < limit then 1 else 0
    decreases limit - |thread|
  {
    var l := links.back(thread[0]);
    if |thread| < limit && IsNew(l, thread) {
      BackBound(links, [l.entry] + thread, limit);
    }
  }

  lemma {:induction false} ForwardBound(links: Links, thread: seq<Entry>, limit: nat)
    requires 1 <= |thread| <= limit
    ensures var p := Forward(links, thread, limit);
            && |thread| <= |p.thread| <= limit
            && p.lookups <= |p.thread| - |thread| + if |p.thread| < limit then 1 else 0
    decreases limit - |thread|
  {
    var l := links.forward(thread[|thread| - 1]);
    if |thread| < limit && IsNew(l, thread) {
      ForwardBound(links, thread + [l.entry], limit);
    }
  }

  /** However the links run, the walk makes at most limit link lookups and keeps at most limit entries. */
  lemma LookupBound(links: Links, anchor: Entry, limit: nat)
    requires limit >= 1
    ensures var p := Thread(links, anchor, limit); p.lookups <= limit && 1 <= |p.thread| <= limit
  {
    BackBound(links, [anchor], limit);
    var b := Back(links, [anchor], limit);
    if b.error.None? { ForwardBound(links, b.thread, limit); }
  }

  // ------------------------------------------------------------ what the thread is

  /** Up to position a an entry is its successor's parent, from there on its child follows it. */
  predicate LinkedAt(links: Links, thread: seq<Entry>, a: nat, i: nat)
    requires i + 1 < |thread|
  {
    if i < a then links.back(thread[i + 1]) == To(thread[i]) else links.forward(thread[i]) == To(thread[i + 1])
  }

  predicate Chain(links: Links, thread: seq<Entry>, a: nat) {
    a < |thread| && forall i: nat :: i + 1 < |thread| ==> LinkedAt(links, thread, a, i)
  }

  predicate DifferentIds(thread: seq<Entry>, i: nat, j: nat)
    requires i < j < |thread|
  {
    thread[i].id != thread[j].id
  }

  predicate UniqueIds(thread: seq<Entry>) {
    forall i: nat, j: nat :: i < j < |thread| ==> DifferentIds(thread, i, j)
  }

  lemma PrependKeepsChain(links: Links, thread: seq<Entry>, p: Entry)
    requires thread != [] && Chain(links, thread, |thread| - 1) && links.back(thread[0]) == To(p)
    ensures Chain(links, [p] + thread, |thread|)
  {
    var t := [p] + thread;
    forall i: nat | i + 1 < |t| ensures LinkedAt(links, t, |thread|, i) {
      if i > 0 {
        assert LinkedAt(links, thread, |thread| - 1, i - 1);
        assert t[i] == thread[i - 1];
      }
    }
  }

  lemma AppendKeepsChain(links: Links, thread: seq<Entry>, c: Entry, a: nat)
    requires Chain(links, thread, a) && links.forward(thread[|thread| - 1]) == To(c)
    ensures Chain(links, thread + [c], a)
  {
    var t := thread + [c];
    forall i: nat | i + 1 < |t| ensures LinkedAt(links, t, a, i) {
      if i + 1 < |thread| { assert LinkedAt(links, thread, a, i); }
    }
  }

  lemma AddKeepsUnique(thread: seq<Entry>, e: Entry)
    requires UniqueIds(thread) && e.id !in Ids(thread)
    ensures UniqueIds([e] + thread)
    ensures UniqueIds(thread + [e])
  {
    forall i: nat, j: nat | i < j < |thread| + 1 ensures DifferentIds([e] + thread, i, j) {
      if i > 0 { assert DifferentIds(thread, i - 1, j - 1); } else { IdsHas(thread, j - 1); }
    }
    forall i: nat, j: nat | i < j < |thread| + 1 ensures DifferentIds(thread + [e], i, j) {
      if j < |thread| { assert DifferentIds(thread, i, j); } else { IdsHas(thread, i); }
    }
  }

  /** A link that leads to no new entry: none, nothing stored, or an entry already there. */
  predicate Over(l: Link, thread: seq<Entry>) {
    !l.Failed? && !IsNew(l, thread)
  }

  predicate FrontOver(links: Links, thread: seq<Entry>)
    requires thread != []
  {
    Over(links.back(thread[0]), thread)
  }

  predicate EndOver(links: Links, thread: seq<Entry>)
    requires thread != []
  {
    Over(links.forward(thread[|thread| - 1]), thread)
  }

  lemma {:induction false} BackChain(links: Links, thread: seq<Entry>, limit: nat)
    requires thread != [] && |thread| <= limit && Chain(links, thread, |thread| - 1) && UniqueIds(thread)
    ensures var p := Back(links, thread, limit);
            var t := p.thread;
            Chain(links, t, |t| - 1) && UniqueIds(t)
    decreases limit - |thread|
  {
    var l := links.back(thread[0]);
    if |thread| < limit && IsNew(l, thread) {
      PrependKeepsChain(links, thread, l.entry);
      AddKeepsUnique(thread, l.entry);
      BackChain(links, [l.entry] + thread, limit);
    }
  }

  lemma {:induction false} ForwardChain(links: Links, thread: seq<Entry>, limit: nat, a: nat)
    requires |thread| <= limit && Chain(links, thread, a) && UniqueIds(thread)
    ensures var p := Forward(links, thread, limit);
            var t := p.thread;
            Chain(links, t, a) && UniqueIds(t) && thread <= t
    decreases limit - |thread|
  {
    var l := links.forward(thread[|thread| - 1]);
    if |thread| < limit && IsNew(l, thread) {
      AppendKeepsChain(links, thread, l.entry, a);
      AddKeepsUnique(thread, l.entry);
      ForwardChain(links, thread + [l.entry], limit, a);
    }
  }

  lemma {:induction false} BackOver(links: Links, thread: seq<Entry>, limit: nat)
    requires thread != []
    ensures var p := Back(links, thread, limit);
            p.error.None? ==> |p.thread| >= limit || FrontOver(links, p.thread)
    decreases limit - |thread|
  {
    var l := links.back(thread[0]);
    if |thread| < limit && IsNew(l, thread) { BackOver(links, [l.entry] + thread, limit); }
  }

  lemma {:induction false} ForwardOver(links: Links, thread: seq<Entry>, limit: nat)
    requires thread != []
    ensures var p := Forward(links, thread, limit);
            && (p.error.None? ==> |p.thread| >= limit || EndOver(links, p.thread))
            && p.thread[0] == thread[0] && Ids(thread) <= Ids(p.thread)
    decreases limit - |thread|
  {
    var l := links.forward(thread[|thread| - 1]);
    if |thread| < limit && IsNew(l, thread) {
      IdsAdd(thread, l.entry);
      ForwardOver(links, thread + [l.entry], limit);
    }
  }

  /**
   For any store, cyclic ones included: the thread is a linked chain of entries with
   different ids that holds the anchor, and unless it has reached the limit it cannot be
   extended at either end.
   */
  lemma ThreadIsMaximalChain(links: Links, anchor: Entry, limit: nat) returns (a: nat)
    requires limit >= 1
    ensures var t := Thread(links, anchor, limit).thread;
            Chain(links, t, a) && t[a] == anchor && UniqueIds(t) && |t| <= limit
    ensures var p := Thread(links, anchor, limit);
            p.error.None? && |p.thread| < limit ==>
              FrontOver(links, p.thread) && EndOver(links, p.thread)
  {
    BackBound(links, [anchor], limit);
    BackChain(links, [anchor], limit);
    BackEndsAt(links, [anchor], limit);
    BackOver(links, [anchor], limit);
    var b := Back(links, [anchor], limit);
    a := |b.thread| - 1;
    if b.error.None? {
      ForwardBound(links, b.thread, limit);
      ForwardChain(links, b.thread, limit, a);
      ForwardOver(links, b.thread, limit);
      FrontStaysOver(links, b.thread, Forward(links, b.thread, limit).thread);
    }
  }

  lemma FrontStaysOver(links: Links, thread: seq<Entry>, longer: seq<Entry>)
    requires thread != [] && longer != [] && thread[0] == longer[0] && Ids(thread) <= Ids(longer)
    ensures FrontOver(links, thread) ==> FrontOver(links, longer)
  {
  }

  // ------------------------------------------------------------ order

  /** Among the entries a store holds, a link always leads from an earlier to a later one. */
  ghost predicate LinksAdvance(links: Links, held: set<Entry>) {
    forall e :: e in held ==> AdvancesFrom(links, held, e)
  }

  ghost predicate AdvancesFrom(links: Links, held: set<Entry>, e: Entry) {
    var older, newer := links.back(e), links.forward(e);
    && (older.To? ==> older.entry in held && older.entry.timestamp < e.timestamp)
    && (newer.To? ==> newer.entry in held && e.timestamp < newer.entry.timestamp)
  }

  lemma {:induction false} HeldBack(links: Links, thread: seq<Entry>, a: nat, i: nat, held: set<Entry>)
    requires LinksAdvance(links, held) && Chain(links, thread, a) && thread[a] in held && i <= a
    ensures thread[i] in held
    decreases a - i
  {
    if i < a {
      HeldBack(links, thread, a, i + 1, held);
      assert LinkedAt(links, thread, a, i);
    }
  }

  lemma {:induction false} HeldForward(links: Links, thread: seq<Entry>, a: nat, i: nat, held: set<Entry>)
    requires LinksAdvance(links, held) && Chain(links, thread, a) && thread[a] in held && a <= i < |thread|
    ensures thread[i] in held
    decreases i
  {
    if a < i {
      HeldForward(links, thread, a, i - 1, held);
      assert LinkedAt(links, thread, a, i - 1);
    }
  }

  predicate AdvancesAt(thread: seq<Entry>, i: nat)
    requires i + 1 < |thread|
  {
    thread[i].timestamp < thread[i + 1].timestamp
  }

  /** Every entry is older than the next one. */
  predicate Advances(thread: seq<Entry>) {
    forall i: nat :: i + 1 < |thread| ==> AdvancesAt(thread, i)
  }

  lemma {:induction false} AdvancesAll(thread: seq<Entry>, i: nat, j: nat)
    requires Advances(thread) && i < j < |thread|
    ensures thread[i].timestamp < thread[j].timestamp
    decreases j
  {
    assert AdvancesAt(thread, j - 1);
    if i < j - 1 { AdvancesAll(thread, i, j - 1); }
  }

  lemma HeldThreadAdvances(links: Links, anchor: Entry, limit: nat, held: set<Entry>)
    requires limit >= 1 && LinksAdvance(links, held) && anchor in held
    ensures Advances(Thread(links, anchor, limit).thread)
  {
    var t := Thread(links, anchor, limit).thread;
    var a := ThreadIsMaximalChain(links, anchor, limit);
    forall i: nat | i + 1 < |t| ensures AdvancesAt(t, i) {
      assert LinkedAt(links, t, a, i);
      if i < a { HeldBack(links, t, a, i + 1, held); } else { HeldForward(links, t, a, i, held); }
    }
  }

  lemma AdvancingStays(thread: seq<Entry>, entries: seq<Entry>)
    requires Advances(thread) && InTimeOrder(entries, thread)
    ensures entries == thread
  {
    forall i, j | 0 <= i < j < |thread| ensures thread[i].timestamp < thread[j].timestamp {
      AdvancesAll(thread, i, j);
    }
    MultisetMembers(entries, thread);
    SortedUnique(entries, thread, Earlier);
  }

  lemma TieCanSwap(thread: seq<Entry>, i: nat)
    requires Sorted(thread, Earlier) && UniqueIds(thread) && i + 1 < |thread|
    requires thread[i].timestamp == thread[i + 1].timestamp
    ensures exists entries :: InTimeOrder(entries, thread) && entries != thread
  {
    var entries := thread[i := thread[i + 1]][i + 1 := thread[i]];
    assert DifferentIds(thread, i, i + 1);
    assert entries[i] != thread[i];
    assert InTimeOrder(entries, thread);
  }

  /** The sort can only give back the chain itself exactly when the chain advances in time. */
  lemma ChainOrderIff(links: Links, anchor: Entry, limit: nat)
    requires limit >= 1
    ensures var t := Thread(links, anchor, limit).thread;
            (forall entries :: InTimeOrder(entries, t) ==> entries == t) <==> Advances(t)
  {
    var t := Thread(links, anchor, limit).thread;
    var a := ThreadIsMaximalChain(links, anchor, limit);
    if Advances(t) {
      forall entries | InTimeOrder(entries, t) ensures entries == t { AdvancingStays(t, entries); }
    } else {
      var i: nat :| i + 1 < |t| && !AdvancesAt(t, i);
      SortSorted(t, Earlier);
      assert InTimeOrder(Sort(t, Earlier), t);
      if Sort(t, Earlier) == t {
        assert Earlier(t[i], t[i + 1]);
        TieCanSwap(t, i);
      }
    }
  }

  /** When the links between held entries advance in time, the entries come out in exactly the order of the chain. */
  lemma ChainOrder(store: Store, anchor: Entry, limit: nat, held: set<Entry>, entries: seq<Entry>)
    requires limit >= 1 && LinksAdvance(LinksOf(store), held) && anchor in held
    requires InTimeOrder(entries, Thread(LinksOf(store), anchor, limit).thread)
    ensures entries == Thread(LinksOf(store), anchor, limit).thread
  {
    HeldThreadAdvances(LinksOf(store), anchor, limit, held);
    AdvancingStays(Thread(LinksOf(store), anchor, limit).thread, entries);
  }

  /** The lookups find what they are asked for. */
  ghost predicate FaithfulLookups(store: Store) {
    && (forall id, e :: store.byResponse(id) == Ok(Some(e)) ==> ResponseID(e) == id)
    && (forall id, e :: store.byPrevious(id) == Ok(Some(e)) ==> PreviousResponseID(e) == id)
  }

  predicate AnsweredBy(p: Entry, c: Entry) {
    PreviousResponseID(c) == ResponseID(p) != ""
  }

  lemma FollowTo(lookup: string -> Found, id: string, e: Entry)
    ensures Follow(lookup, id) == To(e) <==> id != "" && lookup(id) == Ok(Some(e))
  {
  }

  /** Then each entry of the thread answers the response of the one before it. */
  lemma EachAnswersTheLast(store: Store, anchor: Entry, limit: nat)
    requires limit >= 1 && FaithfulLookups(store)
    ensures var t := Thread(LinksOf(store), anchor, limit).thread;
            forall i: nat :: i + 1 < |t| ==> AnsweredBy(t[i], t[i + 1])
  {
    var t := Thread(LinksOf(store), anchor, limit).thread;
    var a := ThreadIsMaximalChain(LinksOf(store), anchor, limit);
    forall i: nat | i + 1 < |t| ensures AnsweredBy(t[i], t[i + 1]) {
      assert LinkedAt(LinksOf(store), t, a, i);
      FollowTo(store.byResponse, PreviousResponseID(t[i + 1]), t[i]);
      FollowTo(store.byPrevious, ResponseID(t[i]), t[i + 1]);
    }
  }

  // ------------------------------------------------------------ what is read of an entry

  /** In an ordered document the first element of a name decides, whatever follows it. */
  lemma {:induction false} FirstElementDecides(elements: seq<Element>, key: string, i: nat)
    requires i < |elements| && elements[i].key == key && forall j :: 0 <= j < i ==> elements[j].key != key
    ensures DocumentText(elements, key) == match elements[i].value case Text(s) => Trim(s) case NotText => ""
  {
    if i > 0 { FirstElementDecides(elements[1..], key, i - 1); }
  }

  lemma {:induction false} NoElement(elements: seq<Element>, key: string)
    requires forall e :: e in elements ==> e.key != key
    ensures DocumentText(elements, key) == ""
  {
    if elements != [] {
      assert elements[0] in elements;
      NoElement(elements[1..], key);
    }
  }

  /** A body holds that text under the name: as a map, or as the first element of the name. */
  ghost predicate Holding(body: Body, key: string, s: string) {
    match body
    case Object(fields) => key in fields && fields[key] == Text(s)
    case Document(elements) =>
      exists i :: 0 <= i < |elements| && elements[i] == Element(key, Text(s)) && forall j :: 0 <= j < i ==> elements[j].key != key
    case NoObject => false
  }

  /** An entry's response id is the id of its response, the one it answers the one its request names; both trimmed. */
  lemma IdsAreRead(e: Entry, s: string)
    requires e.data.Some?
    ensures Holding(e.data.value.response, "id", s) ==> ResponseID(e) == Trim(s)
    ensures Holding(e.data.value.request, "previous_response_id", s) ==> PreviousResponseID(e) == Trim(s)
  {
    HoldingRead(e.data.value.response, "id", s);
    HoldingRead(e.data.value.request, "previous_response_id", s);
  }

  lemma HoldingRead(body: Body, key: string, s: string)
    ensures Holding(body, key, s) ==> FieldText(body, key) == Trim(s)
  {
    if body.Document? && Holding(body, key, s) {
      var es := body.elements;
      var i :| 0 <= i < |es| && es[i] == Element(key, Text(s)) && forall j :: 0 <= j < i ==> es[j].key != key;
      FirstElementDecides(es, key, i);
    }
  }

  /** Where no body holds a text under the name, there is no link to follow. */
  lemma NothingRead(e: Entry)
    requires e.data.None? || forall s :: !Holding(e.data.value.response, "id", s)
    ensures ResponseID(e) == ""
  {
    if e.data.Some? { NothingHeld(e.data.value.response, "id"); }
  }

  lemma NothingReadBack(e: Entry)
    requires e.data.None? || forall s :: !Holding(e.data.value.request, "previous_response_id", s)
    ensures PreviousResponseID(e) == ""
  {
    if e.data.Some? { NothingHeld(e.data.value.request, "previous_response_id"); }
  }

  lemma NothingHeld(body: Body, key: string)
    requires forall s :: !Holding(body, key, s)
    ensures FieldText(body, key) == ""
  {
    match body
    case Object(fields) => if key in fields && fields[key].Text? { assert Holding(body, key, fields[key].s); }
    case Document(es) =>
      if i :| 0 <= i < |es| && es[i].key == key && forall j :: 0 <= j < i ==> es[j].key != key {
        FirstElementDecides(es, key, i);
        if es[i].value.Text? { assert Holding(body, key, es[i].value.s); }
      } else {
        NotAmong(es, key, |es|);
        NoElement(es, key);
      }
    case NoObject =>
  }

  lemma {:induction false} NotAmong(es: seq<Element>, key: string, n: nat)
    requires n <= |es|
    requires forall i :: 0 <= i < |es| && es[i].key == key ==> exists j :: 0 <= j < i && es[j].key == key
    ensures forall i :: 0 <= i < n ==> es[i].key != key
  {
    if n > 0 { NotAmong(es, key, n - 1); }
  }

  // ------------------------------------------------------------ errors

  lemma {:induction false} BackErrorIsLink(links: Links, thread: seq<Entry>, limit: nat)
    requires thread != []
    ensures var p := Back(links, thread, limit); p.error.Some? ==> links.back(p.thread[0]) == Failed(p.error.value)
    decreases limit - |thread|
  {
    var l := links.back(thread[0]);
    if |thread| < limit && IsNew(l, thread) { BackErrorIsLink(links, [l.entry] + thread, limit); }
  }

  lemma {:induction false} ForwardErrorIsLink(links: Links, thread: seq<Entry>, limit: nat)
    requires thread != []
    ensures var p := Forward(links, thread, limit);
            p.error.Some? ==> links.forward(p.thread[|p.thread| - 1]) == Failed(p.error.value)
    decreases limit - |thread|
  {
    var l := links.forward(thread[|thread| - 1]);
    if |thread| < limit && IsNew(l, thread) { ForwardErrorIsLink(links, thread + [l.entry], limit); }
  }

  /** An error is that of a lookup at an end of the thread; a thread below the limit has none only if neither end failed. */
  lemma ErrorIsAtAnEnd(links: Links, anchor: Entry, limit: nat)
    requires limit >= 1
    ensures var p := Thread(links, anchor, limit);
            match p.error
            case Some(e) => links.back(p.thread[0]) == Failed(e) || links.forward(p.thread[|p.thread| - 1]) == Failed(e)
            case None => |p.thread| < limit ==> !links.back(p.thread[0]).Failed? && !links.forward(p.thread[|p.thread| - 1]).Failed?
  {
    BackErrorIsLink(links, [anchor], limit);
    ForwardErrorIsLink(links, Back(links, [anchor], limit).thread, limit);
    var a := ThreadIsMaximalChain(links, anchor, limit);
  }

  /** A store that fails for an id that is there to be looked up. */
  predicate Fails(lookup: string -> Found, id: string) {
    id != "" && lookup(id).Err?
  }

  lemma FailedIff(lookup: string -> Found, id: string)
    ensures Follow(lookup, id).Failed? <==> Fails(lookup, id)
    ensures Fails(lookup, id) ==> Follow(lookup, id).error == lookup(id).error
  {
  }

  /** The same told from the store's answers: no failure is passed over, and none is made up. */
  lemma StoreErrorsShow(store: Store, anchor: Entry, limit: nat)
    requires limit >= 1
    ensures var p := Thread(LinksOf(store), anchor, limit);
            var before, after := PreviousResponseID(p.thread[0]), ResponseID(p.thread[|p.thread| - 1]);
            if p.error.Some? then
              || (Fails(store.byResponse, before) && store.byResponse(before).error == p.error.value)
              || (Fails(store.byPrevious, after) && store.byPrevious(after).error == p.error.value)
            else |p.thread| < limit ==> !Fails(store.byResponse, before) && !Fails(store.byPrevious, after)
  {
    var links := LinksOf(store);
    var p := Thread(links, anchor, limit);
    var first, last := p.thread[0], p.thread[|p.thread| - 1];
    ErrorIsAtAnEnd(links, anchor, limit);
    FailedIff(store.byResponse, PreviousResponseID(first));
    FailedIff(store.byPrevious, ResponseID(last));
    assert links.back(first) == Follow(store.byResponse, PreviousResponseID(first));
    assert links.forward(last) == Follow(store.byPrevious, ResponseID(last));
  }

  // ------------------------------------------------------------ a whole conversation

  predicate Neighbours(links: Links, conv: seq<Entry>, i: nat)
    requires i + 1 < |conv|
  {
    links.back(conv[i + 1]) == To(conv[i]) && links.forward(conv[i]) == To(conv[i + 1])
  }

  /** The store holds exactly this conversation around each of its entries. */
  predicate Holds(links: Links, conv: seq<Entry>) {
    && UniqueIds(conv)
    && (forall i: nat :: i + 1 < |conv| ==> Neighbours(links, conv, i))
    && (conv != [] ==>
          && (links.back(conv[0]).NoLink? || links.back(conv[0]).Nothing?)
          && (links.forward(conv[|conv| - 1]).NoLink? || links.forward(conv[|conv| - 1]).Nothing?))
  }

  lemma IdsOfSlice(conv: seq<Entry>, lo: nat, hi: nat, k: nat)
    requires UniqueIds(conv) && lo <= hi <= |conv| && k < |conv| && !(lo <= k < hi)
    ensures conv[k].id !in Ids(conv[lo..hi])
  {
    forall i: nat | i < hi - lo ensures conv[lo..hi][i].id != conv[k].id {
      assert if k < lo then DifferentIds(conv, k, lo + i) else DifferentIds(conv, lo + i, k);
    }
    if conv[k].id in Ids(conv[lo..hi]) {
      var i := IdsOnly(conv[lo..hi], conv[k].id);
    }
  }

  lemma LinksInside(links: Links, conv: seq<Entry>, lo: nat, hi: nat)
    requires Holds(links, conv) && lo < hi <= |conv|
    ensures var l := links.back(conv[lo]);
            if lo > 0 then l == To(conv[lo - 1]) && IsNew(l, conv[lo..hi]) else Over(l, conv[lo..hi])
    ensures var l := links.forward(conv[hi - 1]);
            if hi < |conv| then l == To(conv[hi]) && IsNew(l, conv[lo..hi]) else Over(l, conv[lo..hi])
  {
    if lo > 0 {
      IdsOfSlice(conv, lo, hi, lo - 1);
      assert Neighbours(links, conv, lo - 1);
    }
    if hi < |conv| {
      IdsOfSlice(conv, lo, hi, hi);
      assert Neighbours(links, conv, hi - 1);
    }
  }

  lemma {:induction false} BackWindow(links: Links, conv: seq<Entry>, lo: nat, hi: nat, limit: nat)
    requires Holds(links, conv) && lo < hi <= |conv| && hi - lo <= limit
    ensures var p := Back(links, conv[lo..hi], limit);
            p.error.None? && p.thread == conv[if hi <= limit then 0 else hi - limit..hi]
    decreases lo
  {
    var t := conv[lo..hi];
    LinksInside(links, conv, lo, hi);
    if |t| < limit && lo > 0 {
      assert [conv[lo - 1]] + t == conv[lo - 1..hi];
      BackWindow(links, conv, lo - 1, hi, limit);
    }
  }

  lemma {:induction false} ForwardWindow(links: Links, conv: seq<Entry>, lo: nat, hi: nat, limit: nat)
    requires Holds(links, conv) && lo < hi <= |conv| && hi - lo <= limit
    ensures var p := Forward(links, conv[lo..hi], limit);
            p.error.None? && p.thread == conv[lo..if lo + limit < |conv| then lo + limit else |conv|]
    decreases |conv| - hi
  {
    var t := conv[lo..hi];
    LinksInside(links, conv, lo, hi);
    if |t| < limit && hi < |conv| {
      assert t + [conv[hi]] == conv[lo..hi + 1];
      ForwardWindow(links, conv, lo, hi + 1, limit);
    }
  }

  /**
   From any entry of a conversation the walk finds all of it when it fits; otherwise the
   last limit entries up to the anchor, filled up with the ones after it.
   */
  lemma WholeConversation(links: Links, conv: seq<Entry>, a: nat, limit: nat)
    requires Holds(links, conv) && a < |conv| && limit >= 1
    ensures var p := Thread(links, conv[a], limit);
            var lo := if a + 1 <= limit then 0 else a + 1 - limit;
            p.error.None? && p.thread == conv[lo..if lo + limit < |conv| then lo + limit else |conv|]
  {
    assert conv[a..a + 1] == [conv[a]];
    BackWindow(links, conv, a, a + 1, limit);
    ForwardWindow(links, conv, if a + 1 <= limit then 0 else a + 1 - limit, a + 1, limit);
  }

  lemma LinksOfHeld(links: Links, conv: seq<Entry>, k: nat)
    requires Holds(links, conv) && k < |conv|
    ensures if k == 0 then !links.back(conv[k]).To? else links.back(conv[k]) == To(conv[k - 1])
    ensures if k + 1 == |conv| then !links.forward(conv[k]).To? else links.forward(conv[k]) == To(conv[k + 1])
  {
    if k > 0 { assert Neighbours(links, conv, k - 1); }
    if k + 1 < |conv| { assert Neighbours(links, conv, k); }
  }

  /** Every stored conversation whose entries advance in time meets the hypothesis. */
  lemma HeldConversationAdvances(links: Links, conv: seq<Entry>)
    requires Holds(links, conv) && Advances(conv)
    ensures LinksAdvance(links, Elements(conv))
  {
    forall e | e in Elements(conv) ensures AdvancesFrom(links, Elements(conv), e) {
      var k :| 0 <= k < |conv| && conv[k] == e;
      LinksOfHeld(links, conv, k);
      if k > 0 { assert AdvancesAt(conv, k - 1); }
      if k + 1 < |conv| { assert AdvancesAt(conv, k); }
    }
  }

  /** A store of a question and the answer to it. */
  function SmallStore(a: Entry, b: Entry): Store {
    var one: Found := Ok(Some(a));
    Store(id => one,
          id => if id == "r" then Ok(Some(a)) else Ok(None),
          id => if id == "r" then Ok(Some(b)) else Ok(None))
  }

  lemma TwoEntriesAdvance(a: Entry, b: Entry)
    requires a.id != b.id && a.timestamp < b.timestamp
    requires a.data == Some(Data(NoObject, Object(map["id" := Text("r")])))
    requires b.data == Some(Data(Object(map["previous_response_id" := Text("r")]), NoObject))
    ensures var links := LinksOf(SmallStore(a, b));
            LinksAdvance(links, {a, b}) && Thread(links, b, 2).thread == [a, b]
  {
    var links := LinksOf(SmallStore(a, b));
    TrimOfTrimmed("r");
    assert ResponseID(a) == "r" && PreviousResponseID(a) == "";
    assert ResponseID(b) == "" && PreviousResponseID(b) == "r";
    var store := SmallStore(a, b);
    assert links.back(a) == Follow(store.byResponse, PreviousResponseID(a));
    assert links.back(b) == Follow(store.byResponse, PreviousResponseID(b));
    assert links.forward(a) == Follow(store.byPrevious, ResponseID(a));
    assert links.forward(b) == Follow(store.byPrevious, ResponseID(b));
    var conv := [a, b];
    assert Neighbours(links, conv, 0) && DifferentIds(conv, 0, 1);
    assert Holds(links, conv);
    assert AdvancesAt(conv, 0);
    HeldConversationAdvances(links, conv);
    assert Elements(conv) == {a, b};
    WholeConversation(links, conv, 1, 2);
    assert conv[0..2] == conv;
  }
}
