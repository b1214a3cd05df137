/**
 The sidecar's local CONNECT proxies: one listener per source address the providers are
 configured to send from, opened, adopted, kept and closed as the configuration changes.
 Opening a listener and writing the file may fail; both outcomes are inputs of a call.
 */
module BindProxies {
  import opened Common

  /** Canonical text of net.ParseIP(s), or None when s is not an address. */
  type Parser = string -> Option<string>

  /** What the model uses of net.ParseIP: printing an address and parsing it is the identity. */
  ghost predicate CanonicalParser(parse: Parser) {
    && parse("") == None
    && (forall s :: parse(s).Some? ==>
          var h := parse(s).value; h != "" && Trim(h) == h && parse(h) == Some(h))
  }

  // ------------------------------------------------------------ normalised addresses

  function Canonical(raw: string, parse: Parser): Option<string> {
    if Trim(raw) == "" then None else parse(Trim(raw))
  }

  /** The canonical forms of the entries that are addresses. */
  function Parsed(raws: seq<string>, parse: Parser): seq<string> {
    if raws == [] then []
    else
      var hosts := Parsed(raws[..|raws| - 1], parse);
      match Canonical(raws[|raws| - 1], parse) case None => hosts case Some(h) => hosts + [h]
  }

  /** The canonical addresses in order of first appearance. */
  function Kept(raws: seq<string>, parse: Parser): seq<string> {
    Dedup(Parsed(raws, parse))
  }

  ghost function AddressSet(raws: seq<string>, parse: Parser): set<string> {
    set raw | raw in raws && Canonical(raw, parse).Some? :: Canonical(raw, parse).value
  }

  function Normalised(raws: seq<string>, parse: Parser): seq<string> {
    SortStrings(Kept(raws, parse))
  }

  lemma {:induction false} ParsedSpec(raws: seq<string>, parse: Parser)
    ensures Elements(Parsed(raws, parse)) == AddressSet(raws, parse)
  {
    if raws != [] {
      var init, last := raws[..|raws| - 1], raws[|raws| - 1];
      ParsedSpec(init, parse);
      assert raws == init + [last];
      match Canonical(last, parse)
      case None =>
      case Some(h) =>
        assert AddressSet(raws, parse) == AddressSet(init, parse) + {h};
        assert Elements(Parsed(init, parse) + [h]) == Elements(Parsed(init, parse)) + {h};
    }
  }

  lemma KeptSpec(raws: seq<string>, parse: Parser)
    ensures Distinct(Kept(raws, parse))
    ensures Elements(Kept(raws, parse)) == AddressSet(raws, parse)
  {
    DedupSpec(Parsed(raws, parse));
    ParsedSpec(raws, parse);
  }

  /** Sorted, without repetitions, exactly the canonical addresses of the input. */
  lemma NormalisedSpec(raws: seq<string>, parse: Parser)
    ensures var n := Normalised(raws, parse);
            Sorted(n, StrLe) && Distinct(n) && Elements(n) == AddressSet(raws, parse)
  {
    KeptSpec(raws, parse);
    SortStringsBySet(Kept(raws, parse), Kept(raws, parse));
  }

  /** Two inputs naming the same addresses, in any order and number, normalise alike. */
  lemma NormalisedBySet(raws: seq<string>, raws': seq<string>, parse: Parser)
    requires AddressSet(raws, parse) == AddressSet(raws', parse)
    ensures Normalised(raws, parse) == Normalised(raws', parse)
  {
    KeptSpec(raws, parse);
    KeptSpec(raws', parse);
    SortStringsBySet(Kept(raws, parse), Kept(raws', parse));
  }

  lemma KeptStep(raws: seq<string>, i: nat, parse: Parser)
    requires i < |raws|
    ensures Kept(raws[..i + 1], parse) ==
            (match Canonical(raws[i], parse)
             case None => Kept(raws[..i], parse)
             case Some(h) => if h in Kept(raws[..i], parse) then Kept(raws[..i], parse) else Kept(raws[..i], parse) + [h])
  {
    assert raws[..i + 1][..i] == raws[..i];
    var before := Parsed(raws[..i], parse);
    match Canonical(raws[i], parse)
    case None =>
    case Some(h) => assert (before + [h])[..|before|] == before;
  }

  method KeepAddresses(raws: seq<string>, parse: Parser) returns (out: seq<string>)
    ensures out == Kept(raws, parse)
  {
    var seen: set<string> := {};
    out := [];
    for i := 0 to |raws|
      invariant out == Kept(raws[..i], parse) && seen == Elements(out)
    {
      KeptStep(raws, i, parse);
      var raw := Trim(raws[i]);
      var ip := if raw == "" then None else parse(raw);
      if ip.Some? && ip.value !in seen {
        assert Elements(out + [ip.value]) == Elements(out) + {ip.value};
        seen := seen + {ip.value};
        out := out + [ip.value];
      }
    }
    assert raws[..|raws|] == raws;
  }

  // ------------------------------------------------------------ the resource state

  datatype Owned = Owned(listener: int, port: nat)
  datatype Proxy = Proxy(ip: string, port: nat)

  /**
   What the gateway remembers (owned, written) and what the outside world saw: listeners
   are numbered in the order they were opened; `closes` counts the Close calls on each and
   `publications` the successful rewrites of the file.
   */
  datatype State = State(
    owned: map<string, Owned>,
    written: Option<seq<Proxy>>,
    nextListener: nat,
    open: set<int>,
    closes: multiset<int>,
    publications: nat)

  function Start(): State {
    State(map[], None, 0, {}, multiset{}, 0)
  }

  /** One Sync call: the addresses, AURORA_SIDECAR_ENABLED, and how the outside reacts. */
  datatype Call = Call(ips: seq<string>, enabled: bool, listen: string -> Option<nat>, writeOk: bool)

  datatype World = World(env: map<string, nat>, parse: Parser)

  function Desired(w: World, c: Call): seq<string> {
    if c.enabled then Normalised(c.ips, w.parse) else []
  }

  /** The port published for a host after its turn, if any. */
  function PortOf(s: State, w: World, host: string): Option<nat> {
    if host in w.env then Some(w.env[host])
    else if host in s.owned then Some(s.owned[host].port)
    else None
  }

  function OpenOne(s: State, w: World, c: Call, host: string): State {
    if host in w.env || host in s.owned || w.parse(host).None? || c.listen(host).None? then s
    else
      s.(owned := s.owned[host := Owned(s.nextListener, c.listen(host).value)],
         nextListener := s.nextListener + 1,
         open := s.open + {s.nextListener})
  }

  function OpenAll(s: State, w: World, c: Call, hosts: seq<string>): State {
    if hosts == [] then s
    else OpenOne(OpenAll(s, w, c, hosts[..|hosts| - 1]), w, c, hosts[|hosts| - 1])
  }

  /** The hosts with a port, in order. */
  function Published(s: State, w: World, hosts: seq<string>): seq<Proxy> {
    if hosts == [] then []
    else
      var host := hosts[|hosts| - 1];
      Published(s, w, hosts[..|hosts| - 1]) +
      match PortOf(s, w, host) case None => [] case Some(port) => [Proxy(host, port)]
  }

  function Listeners(owned: map<string, Owned>): set<int> {
    set h | h in owned :: owned[h].listener
  }

  function Inside(owned: map<string, Owned>, keep: set<string>): (m: map<string, Owned>)
    ensures m.Keys == owned.Keys * keep && forall h :: h in m ==> m[h] == owned[h]
  {
    map h | h in owned && h in keep :: owned[h]
  }

  function Outside(owned: map<string, Owned>, keep: set<string>): (m: map<string, Owned>)
    ensures m.Keys == owned.Keys - keep && forall h :: h in m ==> m[h] == owned[h]
  {
    map h | h in owned && h !in keep :: owned[h]
  }

  function CloseOthers(s: State, keep: set<string>): State {
    var dropped := Listeners(Outside(s.owned, keep));
    s.(owned := Inside(s.owned, keep),
       open := s.open - dropped,
       closes := s.closes + multiset(dropped))
  }

  function Write(s: State, payload: seq<Proxy>, writeOk: bool): State {
    if s.written == Some(payload) || !writeOk then s
    else s.(written := Some(payload), publications := s.publications + 1)
  }

  function Synced(s: State, w: World, c: Call): State {
    var hosts := Desired(w, c);
    var s1 := OpenAll(s, w, c, hosts);
    Write(CloseOthers(s1, Elements(hosts)), Published(s1, w, hosts), c.writeOk)
  }

  function Stopped(s: State): State {
    CloseOthers(s, {})
  }

  /** Every owned address has its own open listener; every other listener was closed once. */
  ghost predicate Inv(s: State, env: map<string, nat>) {
    && s.open == Listeners(s.owned)
    && (forall h, k :: h in s.owned && k in s.owned && s.owned[h].listener == s.owned[k].listener ==> h == k)
    && (forall h :: h in s.owned ==> 0 <= s.owned[h].listener < s.nextListener)
    && (forall n: int :: s.closes[n] == if 0 <= n < s.nextListener && n !in s.open then 1 else 0)
    && s.owned.Keys !! env.Keys
  }

  lemma ListenersAdd(owned: map<string, Owned>, h: string, o: Owned)
    requires h !in owned
    ensures Listeners(owned[h := o]) == Listeners(owned) + {o.listener}
  {
    var owned' := owned[h := o];
    assert o.listener in Listeners(owned') by { assert owned'[h] == o; }
    forall n | n in Listeners(owned) ensures n in Listeners(owned') {
      var k :| k in owned && owned[k].listener == n;
      assert owned'[k] == owned[k];
    }
  }

  lemma OpenOneKeeps(s: State, w: World, c: Call, host: string)
    requires Inv(s, w.env)
    ensures Inv(OpenOne(s, w, c, host), w.env)
  {
    if OpenOne(s, w, c, host) != s {
      ListenersAdd(s.owned, host, Owned(s.nextListener, c.listen(host).value));
    }
  }

  lemma {:induction false} OpenAllKeeps(s: State, w: World, c: Call, hosts: seq<string>)
    requires Inv(s, w.env)
    ensures Inv(OpenAll(s, w, c, hosts), w.env)
  {
    if hosts != [] {
      OpenAllKeeps(s, w, c, hosts[..|hosts| - 1]);
      OpenOneKeeps(OpenAll(s, w, c, hosts[..|hosts| - 1]), w, c, hosts[|hosts| - 1]);
    }
  }

  /** The first loop adds exactly the hosts a listener could be opened for; nothing else moves. */
  lemma {:induction false} OpenAllOwns(s: State, w: World, c: Call, hosts: seq<string>, h: string)
    ensures var s' := OpenAll(s, w, c, hosts);
            && (h in s'.owned <==>
                h in s.owned || (h in hosts && h !in w.env && w.parse(h).Some? && c.listen(h).Some?))
            && (h in s.owned ==> s'.owned[h] == s.owned[h])
  {
    if hosts != [] {
      var init := hosts[..|hosts| - 1];
      OpenAllOwns(s, w, c, init, h);
      assert hosts == init + [hosts[|hosts| - 1]];
    }
  }

  /** Keeping some addresses splits the listeners into the kept and the dropped ones. */
  lemma ListenersSplit(owned: map<string, Owned>, keep: set<string>)
    requires forall h, k :: h in owned && k in owned && owned[h].listener == owned[k].listener ==> h == k
    ensures Listeners(Inside(owned, keep)) == Listeners(owned) - Listeners(Outside(owned, keep))
    ensures Listeners(Outside(owned, keep)) <= Listeners(owned)
  {
    forall n | n in Listeners(owned) && n !in Listeners(Outside(owned, keep))
      ensures n in Listeners(Inside(owned, keep))
    {
      var h :| h in owned && owned[h].listener == n;
      assert h in Inside(owned, keep) || h in Outside(owned, keep);
    }
  }

  lemma CloseOthersKeeps(s: State, env: map<string, nat>, keep: set<string>)
    requires Inv(s, env)
    ensures Inv(CloseOthers(s, keep), env)
  {
    ListenersSplit(s.owned, keep);
    var s' := CloseOthers(s, keep);
    var dropped := Listeners(Outside(s.owned, keep));
    forall n: int ensures s'.closes[n] == if 0 <= n < s'.nextListener && n !in s'.open then 1 else 0 {
      assert multiset(dropped)[n] == if n in dropped then 1 else 0;
    }
  }

  lemma SyncKeeps(s: State, w: World, c: Call)
    requires Inv(s, w.env)
    ensures Inv(Synced(s, w, c), w.env)
  {
    var hosts := Desired(w, c);
    OpenAllKeeps(s, w, c, hosts);
    CloseOthersKeeps(OpenAll(s, w, c, hosts), w.env, Elements(hosts));
  }

  // ------------------------------------------------------------ runs of Sync and Stop

  datatype Op = Sync(call: Call) | Stop

  function Do(s: State, w: World, op: Op): State {
    match op case Sync(c) => Synced(s, w, c) case Stop => Stopped(s)
  }

  function Run(s: State, w: World, ops: seq<Op>): State {
    if ops == [] then s else Do(Run(s, w, ops[..|ops| - 1]), w, ops[|ops| - 1])
  }

  /**
   In every state reachable by Sync and Stop, failures included, the open listeners are
   exactly the recorded ones, each listener is closed at most once, and no host the
   entrypoint lists is owned.
   */
  lemma {:induction false} RunsAreSafe(w: World, ops: seq<Op>)
    ensures Inv(Run(Start(), w, ops), w.env)
    ensures forall n: int :: Run(Start(), w, ops).closes[n] <= 1
  {
    if ops != [] {
      var init := ops[..|ops| - 1];
      RunsAreSafe(w, init);
      match ops[|ops| - 1]
      case Sync(c) => SyncKeeps(Run(Start(), w, init), w, c);
      case Stop => CloseOthersKeeps(Run(Start(), w, init), w.env, {});
    }
  }

  /** An address that stays desired keeps its listener and its port. */
  lemma {:induction false} DesiredKeepsListener(s: State, w: World, calls: seq<Call>, host: string)
    requires Inv(s, w.env) && host in s.owned
    requires forall c :: c in calls ==> host in Desired(w, c)
    ensures var s' := Run(s, w, Syncs(calls)); Inv(s', w.env) && host in s'.owned && s'.owned[host] == s.owned[host]
  {
    if calls != [] {
      var init, last := calls[..|calls| - 1], calls[|calls| - 1];
      assert Syncs(calls)[..|calls| - 1] == Syncs(init);
      DesiredKeepsListener(s, w, init, host);
      var s1 := Run(s, w, Syncs(init));
      SyncKeeps(s1, w, last);
      OpenAllOwns(s1, w, last, Desired(w, last), host);
      assert host in Elements(Desired(w, last));
    }
  }

  function Syncs(calls: seq<Call>): (ops: seq<Op>)
    ensures |ops| == |calls| && forall i :: 0 <= i < |calls| ==> ops[i] == Sync(calls[i])
  {
    seq(|calls|, i requires 0 <= i < |calls| => Sync(calls[i]))
  }

  // ------------------------------------------------------------ what is published

  function Ips(ps: seq<Proxy>): (r: seq<string>)
    ensures |r| == |ps| && forall i :: 0 <= i < |ps| ==> r[i] == ps[i].ip
  {
    seq(|ps|, i requires 0 <= i < |ps| => ps[i].ip)
  }

  lemma {:induction false} PublishedAll(s: State, w: World, hosts: seq<string>)
    requires forall h :: h in hosts ==> PortOf(s, w, h).Some?
    ensures Ips(Published(s, w, hosts)) == hosts
    ensures forall p :: p in Published(s, w, hosts) ==> PortOf(s, w, p.ip) == Some(p.port)
  {
    if hosts != [] {
      var init, last := hosts[..|hosts| - 1], hosts[|hosts| - 1];
      assert hosts == init + [last];
      PublishedAll(s, w, init);
      assert Published(s, w, hosts) == Published(s, w, init) + [Proxy(last, PortOf(s, w, last).value)];
    }
  }

  lemma {:induction false} PublishedSome(s: State, w: World, hosts: seq<string>, h: string)
    ensures h in Ips(Published(s, w, hosts)) <==> h in hosts && PortOf(s, w, h).Some?
  {
    if hosts != [] {
      var init, last := hosts[..|hosts| - 1], hosts[|hosts| - 1];
      assert hosts == init + [last];
      PublishedSome(s, w, init, h);
      var below := Published(s, w, init);
      if PortOf(s, w, last).Some? {
        assert Ips(Published(s, w, hosts)) == Ips(below) + [last];
      } else {
        assert Published(s, w, hosts) == below;
      }
    }
  }

  /** No host that still needs a listener is refused one. */
  ghost predicate NoListenFails(s: State, w: World, c: Call) {
    forall h :: h in Desired(w, c) && h !in w.env && h !in s.owned ==> c.listen(h).Some?
  }

  function Payload(s: State, w: World, c: Call): seq<Proxy> {
    Published(OpenAll(s, w, c, Desired(w, c)), w, Desired(w, c))
  }

  lemma DesiredParse(w: World, c: Call, h: string)
    requires CanonicalParser(w.parse) && h in Desired(w, c)
    ensures w.parse(h) == Some(h)
  {
    NormalisedSpec(c.ips, w.parse);
    assert h in Elements(Normalised(c.ips, w.parse));
  }

  /** Absent listen failures the file lists exactly the normalised addresses, in order. */
  lemma PublishesDesired(s: State, w: World, c: Call)
    requires CanonicalParser(w.parse) && Inv(s, w.env) && NoListenFails(s, w, c)
    ensures Ips(Payload(s, w, c)) == Desired(w, c)
    ensures forall h :: h in Desired(w, c) ==> h in w.env || h in Synced(s, w, c).owned
  {
    var hosts := Desired(w, c);
    var s1 := OpenAll(s, w, c, hosts);
    forall h | h in hosts ensures PortOf(s1, w, h).Some? {
      DesiredHasPort(s, w, c, h);
    }
    PublishedAll(s1, w, hosts);
    forall h | h in hosts ensures h in w.env || h in Synced(s, w, c).owned {
      assert PortOf(s1, w, h).Some? && h in Elements(hosts);
    }
  }

  lemma DesiredHasPort(s: State, w: World, c: Call, h: string)
    requires CanonicalParser(w.parse) && Inv(s, w.env) && NoListenFails(s, w, c) && h in Desired(w, c)
    ensures PortOf(OpenAll(s, w, c, Desired(w, c)), w, h).Some?
  {
    OpenAllOwns(s, w, c, Desired(w, c), h);
    DesiredParse(w, c, h);
  }

  /** Whatever fails, what is owned afterwards is what is published and not adopted. */
  lemma OwnedIsPublished(s: State, w: World, c: Call, h: string)
    requires Inv(s, w.env)
    ensures h in Synced(s, w, c).owned <==> h in Ips(Payload(s, w, c)) && h !in w.env
  {
    var hosts := Desired(w, c);
    OpenAllKeeps(s, w, c, hosts);
    OpenAllOwns(s, w, c, hosts, h);
    PublishedSome(OpenAll(s, w, c, hosts), w, hosts, h);
  }

  // ------------------------------------------------------------ what one Sync comes to

  /** The addresses a call asks for: those its entries parse to, or none while the sidecar is off. */
  ghost function Wanted(w: World, c: Call): set<string> {
    if c.enabled then AddressSet(c.ips, w.parse) else {}
  }

  /** The addresses are what the entries that are not blank parse to, once trimmed. */
  lemma AddressesAreParsed(raws: seq<string>, parse: Parser, a: string)
    ensures a in AddressSet(raws, parse) <==>
            exists raw :: raw in raws && !AllBlank(raw) && parse(Trim(raw)) == Some(a)
  {
    forall raw | raw in raws ensures Trim(raw) == "" <==> AllBlank(raw) { BlankTrims(raw); }
  }

  /** Stopping closes what is open, each listener once, and leaves the file alone. */
  lemma StopLeavesNothing(s: State, env: map<string, nat>)
    requires Inv(s, env)
    ensures var s' := Stopped(s);
            && s'.owned == map[] && s'.open == {} && s'.written == s.written
            && forall n: int :: s'.closes[n] == s.closes[n] + if n in s.open then 1 else 0
  {
    CloseOthersKeeps(s, env, {});
    assert Listeners(map[]) == {};
  }

  lemma WantedIsDesired(w: World, c: Call)
    ensures Elements(Desired(w, c)) == Wanted(w, c)
    ensures Distinct(Desired(w, c)) && Sorted(Desired(w, c), StrLe)
  {
    NormalisedSpec(c.ips, w.parse);
  }

  /** A port is opened for an address: none was open, the entrypoint has none, and listening works. */
  predicate Opens(s: State, w: World, c: Call, h: string) {
    h !in s.owned && h !in w.env && w.parse(h).Some? && c.listen(h).Some?
  }

  lemma {:induction false} OpenedPort(s: State, w: World, c: Call, hosts: seq<string>, h: string)
    requires h in OpenAll(s, w, c, hosts).owned && h !in s.owned
    ensures Opens(s, w, c, h)
    ensures OpenAll(s, w, c, hosts).owned[h].port == c.listen(h).value
    ensures s.nextListener <= OpenAll(s, w, c, hosts).owned[h].listener
  {
    ListenersGrow(s, w, c, hosts[..|hosts| - 1]);
    if h in OpenAll(s, w, c, hosts[..|hosts| - 1]).owned { OpenedPort(s, w, c, hosts[..|hosts| - 1], h); }
  }

  lemma {:induction false} ListenersGrow(s: State, w: World, c: Call, hosts: seq<string>)
    ensures s.nextListener <= OpenAll(s, w, c, hosts).nextListener
  {
    if hosts != [] { ListenersGrow(s, w, c, hosts[..|hosts| - 1]); }
  }

  /**
   Which addresses have a listener afterwards: those wanted that the entrypoint does not list
   and that had one or could be given one. One that had it keeps it, listener and port; a new one
   is on the port that listening answered.
   */
  lemma SyncOwns(s: State, w: World, c: Call, h: string)
    ensures var s' := Synced(s, w, c);
            && (h in s'.owned <==> h in Wanted(w, c) && (h in s.owned || Opens(s, w, c, h)))
            && (h in s'.owned && h in s.owned ==> s'.owned[h] == s.owned[h])
            && (h in s'.owned && h !in s.owned ==>
                  s'.owned[h].port == c.listen(h).value && s.nextListener <= s'.owned[h].listener)
  {
    var hosts := Desired(w, c);
    WantedIsDesired(w, c);
    OpenAllOwns(s, w, c, hosts, h);
    assert h in hosts <==> h in Elements(hosts);
    if h in OpenAll(s, w, c, hosts).owned && h !in s.owned { OpenedPort(s, w, c, hosts, h); }
  }

  lemma {:induction false} PublishedPort(s: State, w: World, hosts: seq<string>, p: Proxy)
    ensures p in Published(s, w, hosts) <==>
              p.ip in hosts &&
              if p.ip in w.env then p.port == w.env[p.ip] else p.ip in s.owned && p.port == s.owned[p.ip].port
  {
    if hosts != [] {
      var init, last := hosts[..|hosts| - 1], hosts[|hosts| - 1];
      PublishedPort(s, w, init, p);
      assert hosts == init + [last];
    }
  }

  /**
   What the file is to say: for every address wanted the port the entrypoint lists for it, or
   else the port of its listener, if it has one; in dictionary order, each address once.
   */
  lemma PayloadPorts(s: State, w: World, c: Call, p: Proxy)
    ensures var s' := Synced(s, w, c);
            p in Payload(s, w, c) <==>
              p.ip in Wanted(w, c) &&
              if p.ip in w.env then p.port == w.env[p.ip] else p.ip in s'.owned && p.port == s'.owned[p.ip].port
  {
    var hosts := Desired(w, c);
    WantedIsDesired(w, c);
    PublishedPort(OpenAll(s, w, c, hosts), w, hosts, p);
    assert p.ip in hosts <==> p.ip in Elements(hosts);
  }

  lemma {:induction false} PublishedOrder(s: State, w: World, hosts: seq<string>)
    requires Sorted(hosts, StrLe) && Distinct(hosts)
    ensures Sorted(Ips(Published(s, w, hosts)), StrLe) && Distinct(Ips(Published(s, w, hosts)))
  {
    if hosts != [] {
      var init, last := hosts[..|hosts| - 1], hosts[|hosts| - 1];
      PublishedOrder(s, w, init);
      var below := Published(s, w, init);
      forall i | 0 <= i < |below| ensures StrLe(below[i].ip, last) && below[i].ip != last {
        assert Ips(below)[i] == below[i].ip;
        PublishedSome(s, w, init, below[i].ip);
        var k :| 0 <= k < |init| && init[k] == below[i].ip;
        assert hosts[k] == init[k];
      }
    }
  }

  lemma PayloadOrder(s: State, w: World, c: Call)
    ensures Sorted(Ips(Payload(s, w, c)), StrLe) && Distinct(Ips(Payload(s, w, c)))
  {
    WantedIsDesired(w, c);
    PublishedOrder(OpenAll(s, w, c, Desired(w, c)), w, Desired(w, c));
  }

  /** The file is rewritten exactly when it can be and what it says changes; then it says the payload. */
  lemma SyncWrites(s: State, w: World, c: Call)
    ensures var s' := Synced(s, w, c);
            && s'.written == (if c.writeOk then Some(Payload(s, w, c)) else s.written)
            && s'.publications == s.publications + if s'.written == s.written then 0 else 1
  {
    OpenAllWritesNothing(s, w, c, Desired(w, c));
    var s2 := CloseOthers(OpenAll(s, w, c, Desired(w, c)), Elements(Desired(w, c)));
    assert s2.written == s.written && s2.publications == s.publications;
  }

  lemma {:induction false} OpenAllWritesNothing(s: State, w: World, c: Call, hosts: seq<string>)
    ensures OpenAll(s, w, c, hosts).written == s.written
    ensures OpenAll(s, w, c, hosts).publications == s.publications
  {
    if hosts != [] { OpenAllWritesNothing(s, w, c, hosts[..|hosts| - 1]); }
  }

  // ------------------------------------------------------------ addresses the entrypoint serves

  /** Some owned address is one the entrypoint serves as well, however it is spelled there. */
  ghost predicate BoundTwice(s: State, w: World) {
    exists h, k :: h in s.owned && k in w.env && w.parse(k).Some? && w.parse(k) == w.parse(h)
  }

  /** Every address the entrypoint serves is also listed in canonical form. */
  ghost predicate CanonicalEnv(w: World) {
    forall k :: k in w.env && w.parse(k).Some? ==> w.parse(k).value in w.env
  }

  lemma {:induction false} RunOwnsCanonical(w: World, ops: seq<Op>)
    requires CanonicalParser(w.parse)
    ensures forall h :: h in Run(Start(), w, ops).owned ==> w.parse(h) == Some(h)
  {
    if ops != [] {
      var init, s' := ops[..|ops| - 1], Run(Start(), w, ops);
      RunOwnsCanonical(w, init);
      forall h | h in s'.owned ensures w.parse(h) == Some(h) {
        match ops[|ops| - 1]
        case Sync(c) =>
          assert h in Elements(Desired(w, c));
          DesiredParse(w, c, h);
        case Stop =>
      }
    }
  }

  lemma OwnsWhatIsMissing(w: World, k: string) returns (ops: seq<Op>)
    requires CanonicalParser(w.parse) && k in w.env && w.parse(k).Some? && w.parse(k).value !in w.env
    ensures BoundTwice(Run(Start(), w, ops), w)
  {
    var h := w.parse(k).value;
    var c := Call([h], true, _ => Some(1), true);
    ops := [Sync(c)];
    assert ops[..0] == [];
    assert Canonical(h, w.parse) == Some(h);
    NormalisedSpec(c.ips, w.parse);
    assert h in AddressSet(c.ips, w.parse);
    assert h in Elements(Desired(w, c));
    OpenAllOwns(Start(), w, c, Desired(w, c), h);
    assert h in Run(Start(), w, ops).owned;
  }

  lemma ApartInText(s: State, w: World)
    requires CanonicalEnv(w) && s.owned.Keys !! w.env.Keys
    requires forall h :: h in s.owned ==> w.parse(h) == Some(h)
    ensures !BoundTwice(s, w)
  {
    forall h, k | h in s.owned && k in w.env && w.parse(k).Some? ensures w.parse(k) != w.parse(h) {
      assert w.parse(k).value in w.env.Keys;
      assert h in s.owned.Keys;
    }
  }

  ghost predicate Reachable(s: State, w: World) {
    exists ops :: s == Run(Start(), w, ops)
  }

  lemma BindsOnce(s: State, w: World)
    requires CanonicalParser(w.parse) && CanonicalEnv(w) && Reachable(s, w)
    ensures !BoundTwice(s, w)
  {
    var ops :| s == Run(Start(), w, ops);
    RunsAreSafe(w, ops);
    RunOwnsCanonical(w, ops);
    ApartInText(s, w);
  }

  lemma SomeRunBindsTwice(w: World) returns (s: State)
    requires CanonicalParser(w.parse) && !CanonicalEnv(w)
    ensures Reachable(s, w) && BoundTwice(s, w)
  {
    var k :| k in w.env && w.parse(k).Some? && w.parse(k).value !in w.env;
    var ops := OwnsWhatIsMissing(w, k);
    s := Run(Start(), w, ops);
  }

  /**
   The entrypoint's hosts are compared as they are written. No run of Sync and Stop binds an
   address the entrypoint serves a second time if and only if each of them is also listed in
   canonical form.
   */
  lemma NeverBoundTwiceIff(w: World)
    requires CanonicalParser(w.parse)
    ensures (forall s :: Reachable(s, w) ==> !BoundTwice(s, w)) <==> CanonicalEnv(w)
  {
    if CanonicalEnv(w) {
      forall s | Reachable(s, w) ensures !BoundTwice(s, w) { BindsOnce(s, w); }
    } else {
      var s := SomeRunBindsTwice(w);
    }
  }

  // ------------------------------------------------------------ repeating a Sync

  lemma {:induction false} NothingToOpen(s: State, w: World, c: Call, hosts: seq<string>)
    requires forall h :: h in hosts ==> h in w.env || h in s.owned
    ensures OpenAll(s, w, c, hosts) == s
  {
    if hosts != [] {
      var init := hosts[..|hosts| - 1];
      assert hosts == init + [hosts[|hosts| - 1]];
      NothingToOpen(s, w, c, init);
    }
  }

  lemma NothingToClose(s: State, keep: set<string>)
    requires s.owned.Keys <= keep
    ensures CloseOthers(s, keep) == s
  {
    assert Outside(s.owned, keep) == map[];
    assert Inside(s.owned, keep) == s.owned;
    assert Listeners(map[]) == {};
  }

  lemma {:induction false} SamePublished(s: State, s': State, w: World, hosts: seq<string>)
    requires forall h :: h in hosts ==> PortOf(s, w, h) == PortOf(s', w, h)
    ensures Published(s, w, hosts) == Published(s', w, hosts)
  {
    if hosts != [] {
      var init := hosts[..|hosts| - 1];
      assert hosts == init + [hosts[|hosts| - 1]];
      SamePublished(s, s', w, init);
    }
  }

  lemma PayloadStays(s: State, w: World, c: Call, s1: State)
    requires Inv(s, w.env) && s1 == Synced(s, w, c)
    ensures Published(s1, w, Desired(w, c)) == Payload(s, w, c)
  {
    var hosts := Desired(w, c);
    var mid := OpenAll(s, w, c, hosts);
    forall h | h in hosts ensures PortOf(mid, w, h) == PortOf(s1, w, h) {
      assert h in Elements(hosts);
    }
    SamePublished(mid, s1, w, hosts);
  }

  /**
   A repeat with the same addresses, listed in any order and any number of times, opens,
   closes and writes nothing once the file holds the payload.
   */
  lemma RepeatDoesNothing(s: State, w: World, first: Call, again: Call)
    requires CanonicalParser(w.parse) && Inv(s, w.env) && NoListenFails(s, w, first)
    requires AddressSet(first.ips, w.parse) == AddressSet(again.ips, w.parse) && first.enabled == again.enabled
    requires Synced(s, w, first).written == Some(Payload(s, w, first))
    ensures Synced(Synced(s, w, first), w, again) == Synced(s, w, first)
  {
    var s1 := Synced(s, w, first);
    NormalisedBySet(first.ips, again.ips, w.parse);
    var hosts := Desired(w, first);
    assert Desired(w, again) == hosts;
    PublishesDesired(s, w, first);
    NothingToOpen(s1, w, again, hosts);
    NothingToClose(s1, Elements(hosts));
    PayloadStays(s, w, first, s1);
  }

  /** A write that succeeds leaves the file holding the payload. */
  lemma WriteSettles(s: State, w: World, c: Call)
    requires c.writeOk
    ensures Synced(s, w, c).written == Some(Payload(s, w, c))
  {
  }

  // ------------------------------------------------------------ the object

  class SidecarBindProxies {
    const w: World
    var owned: map<string, Owned>
    var written: Option<seq<Proxy>>
    // The outside world's side of the state.
    var nextListener: nat
    var open: set<int>
    var closes: multiset<int>
    var publications: nat

    ghost function View(): State
      reads this
    {
      State(owned, written, nextListener, open, closes, publications)
    }

    constructor (w: World)
      ensures this.w == w && View() == Start()
    {
      this.w := w;
      owned, written, nextListener, open, closes, publications := map[], None, 0, {}, multiset{}, 0;
    }

    method Sync(c: Call)
      requires Inv(View(), w.env)
      modifies this
      ensures View() == Synced(old(View()), w, c) && Inv(View(), w.env)
    {
      ghost var before := View();
      SyncKeeps(before, w, c);
      var desired: seq<string> := [];
      if c.enabled {
        desired := KeepAddresses(c.ips, w.parse);
        desired := SortStrings(desired);
        NormalisedSpec(c.ips, w.parse);
      }
      var published, keep := OpenDesired(c, desired);
      ghost var mid := View();
      OpenAllKeeps(before, w, c, desired);
      CloseUnkept(keep);
      CloseByPublished(mid, before, w, c, desired);
      WriteLocked(published, c.writeOk);
    }

    /** One turn of Sync's first loop: adopt, keep, or open a listener for a desired host. */
    method OpenForHost(c: Call, host: string) returns (port: Option<nat>)
      modifies this
      ensures View() == OpenOne(old(View()), w, c, host)
      ensures port == PortOf(View(), w, host)
    {
      if host in w.env {
        return Some(w.env[host]);
      }
      if host in owned {
        return Some(owned[host].port);
      }
      if w.parse(host).None? {
        return None;
      }
      port := c.listen(host);
      if port.Some? {
        owned := owned[host := Owned(nextListener, port.value)];
        open := open + {nextListener};
        nextListener := nextListener + 1;
      }
    }

    /** Sync's first loop over the desired hosts. */
    method OpenDesired(c: Call, desired: seq<string>) returns (published: seq<Proxy>, keep: set<string>)
      requires Distinct(desired)
      modifies this
      ensures View() == OpenAll(old(View()), w, c, desired)
      ensures published == Published(View(), w, desired)
      ensures keep == Elements(Ips(published))
    {
      published, keep := [], {};
      ghost var s0 := View();
      for i := 0 to |desired|
        invariant View() == OpenAll(s0, w, c, desired[..i])
        invariant published == Published(View(), w, desired[..i])
        invariant keep == Elements(Ips(published))
      {
        PublishedStep(View(), w, c, desired, i);
        var port := OpenForHost(c, desired[i]);
        if port.Some? {
          IpsAppend(published, Proxy(desired[i], port.value));
          published := published + [Proxy(desired[i], port.value)];
          keep := keep + {desired[i]};
        }
        assert desired[..i + 1][..i] == desired[..i];
      }
      assert desired[..|desired|] == desired;
    }

    method CloseListener(host: string)
      requires host in owned
      modifies this
      ensures View() == DropOne(old(View()), host)
    {
      var held := owned[host];
      open := open - {held.listener};
      closes := closes + multiset{held.listener};
      owned := owned - {host};
    }

    /** Sync's second loop: close every listener that is no longer kept, in any order. */
    method CloseUnkept(keep: set<string>)
      requires Inv(View(), w.env)
      modifies this
      ensures View() == CloseOthers(old(View()), keep)
    {
      ghost var s0 := View();
      var rest := owned.Keys;
      NothingToClose(s0, keep + rest);
      while rest != {}
        invariant rest <= s0.owned.Keys
        invariant View() == CloseOthers(s0, keep + rest)
        decreases rest
      {
        var host :| host in rest;
        VisitOne(s0, w.env, keep, rest, host);
        if host !in keep {
          CloseListener(host);
        }
        rest := rest - {host};
      }
      assert keep + rest == keep;
    }

    method WriteLocked(payload: seq<Proxy>, writeOk: bool)
      modifies this`written, this`publications
      ensures View() == Write(old(View()), payload, writeOk)
    {
      if written == Some(payload) {
        return;
      }
      if !writeOk {
        return;
      }
      written := Some(payload);
      publications := publications + 1;
    }

    method Stop()
      requires Inv(View(), w.env)
      modifies this
      ensures View() == Stopped(old(View())) && Inv(View(), w.env)
    {
      CloseOthersKeeps(View(), w.env, {});
      CloseUnkept({});
    }
  }

  lemma PublishedStep(s: State, w: World, c: Call, hosts: seq<string>, i: nat)
    requires Distinct(hosts) && i < |hosts|
    ensures var s' := OpenOne(s, w, c, hosts[i]);
            Published(s', w, hosts[..i + 1]) == Published(s, w, hosts[..i]) +
              match PortOf(s', w, hosts[i]) case None => [] case Some(port) => [Proxy(hosts[i], port)]
  {
    assert hosts[..i + 1][..i] == hosts[..i];
    var s' := OpenOne(s, w, c, hosts[i]);
    forall h | h in hosts[..i] ensures PortOf(s, w, h) == PortOf(s', w, h) {
      assert h != hosts[i];
    }
    SamePublished(s, s', w, hosts[..i]);
  }

  lemma IpsAppend(ps: seq<Proxy>, p: Proxy)
    ensures Elements(Ips(ps + [p])) == Elements(Ips(ps)) + {p.ip}
  {
    assert Ips(ps + [p]) == Ips(ps) + [p.ip];
  }

  function DropOne(s: State, host: string): State
    requires host in s.owned
  {
    s.(owned := s.owned - {host},
       open := s.open - {s.owned[host].listener},
       closes := s.closes + multiset{s.owned[host].listener})
  }

  lemma OutsideGrows(owned: map<string, Owned>, keep: set<string>, host: string)
    requires forall h, k :: h in owned && k in owned && owned[h].listener == owned[k].listener ==> h == k
    requires host in owned && host !in keep
    ensures var out, o := Outside(owned, keep + {host}), owned[host];
            o.listener !in Listeners(out) && Listeners(Outside(owned, keep)) == Listeners(out) + {o.listener}
    ensures Inside(owned, keep) == Inside(owned, keep + {host}) - {host}
    ensures Inside(owned, keep + {host})[host] == owned[host]
  {
    var out := Outside(owned, keep + {host});
    assert Outside(owned, keep) == out[host := owned[host]];
    ListenersAdd(out, host, owned[host]);
  }

  /** Dropping one more address closes exactly its listener. */
  lemma CloseOneMore(s: State, env: map<string, nat>, keep: set<string>, host: string)
    requires Inv(s, env) && host in s.owned && host !in keep
    ensures host in CloseOthers(s, keep + {host}).owned
    ensures CloseOthers(s, keep) == DropOne(CloseOthers(s, keep + {host}), host)
  {
    OutsideGrows(s.owned, keep, host);
    var x, l := s.owned[host].listener, Listeners(Outside(s.owned, keep + {host}));
    assert multiset(l + {x}) == multiset(l) + multiset{x};
    assert s.open - (l + {x}) == (s.open - l) - {x};
  }

  lemma VisitOne(s: State, env: map<string, nat>, keep: set<string>, rest: set<string>, host: string)
    requires Inv(s, env) && host in rest && rest <= s.owned.Keys
    ensures host in CloseOthers(s, keep + rest).owned
    ensures CloseOthers(s, keep + (rest - {host})) ==
            if host in keep then CloseOthers(s, keep + rest) else DropOne(CloseOthers(s, keep + rest), host)
  {
    if host in keep {
      assert keep + (rest - {host}) == keep + rest;
    } else {
      assert keep + (rest - {host}) + {host} == keep + rest;
      CloseOneMore(s, env, keep + (rest - {host}), host);
    }
  }

  /** Closing what was not published is closing what is not desired. */
  lemma CloseByPublished(mid: State, s: State, w: World, c: Call, desired: seq<string>)
    requires Inv(s, w.env) && mid == OpenAll(s, w, c, desired)
    ensures CloseOthers(mid, Elements(Ips(Published(mid, w, desired)))) == CloseOthers(mid, Elements(desired))
  {
    var keep := Elements(Ips(Published(mid, w, desired)));
    OpenAllKeeps(s, w, c, desired);
    forall h | h in mid.owned ensures h in keep <==> h in Elements(desired) {
      PublishedSome(mid, w, desired, h);
    }
    assert Inside(mid.owned, keep) == Inside(mid.owned, Elements(desired));
    assert Outside(mid.owned, keep) == Outside(mid.owned, Elements(desired));
  }
}
