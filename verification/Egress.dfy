/**
 syncEgress: after every provider rebuild the exits of each provider are derived from its
 configured source addresses, state of vanished providers is dropped, and the sidecar's
 proxies follow the union of all addresses. Go visits the provider map in any order.
 */
module Egress {
  import opened Common
  import opened BindProxies

  datatype RawProvider = RawProvider(
    bindIp: string,
    bindIps: seq<string>,
    strategy: string,
    disabled: seq<string>)

  datatype Strategy = RoundRobin | Random | Weighted | First

  /** A misspelt strategy never disables selection: it means round robin. */
  function ParseStrategy(s: string): Strategy {
    var t := ToLower(Trim(s));
    if t == "random" then Random
    else if t == "weighted" then Weighted
    else if t == "first" then First
    else RoundRobin
  }

  /** What the registry remembers of one exit; the counters and the last outcome travel together. */
  datatype Health = Health(failures: nat, downUntil: int, limitedUntil: int, record: string)

  /**
   What the registry keeps for one provider: the configured strategy (none while it has no
   exits of its own), its exits, the exits the operator turned off, the health of its exits,
   where the rotation stands, and until when which tier is passed over.
   */
  datatype Exits = Exits(
    strategy: Option<Strategy>,
    core: seq<string>,
    disabled: set<string>,
    health: map<string, Health>,
    rotation: nat,
    limitedTiers: map<int, int>)

  function NoExits(): Exits {
    Exits(None, [], {}, map[], 0, map[])
  }

  /** The health that still applies. */
  function HealthOf(core: seq<string>, health: map<string, Health>): map<string, Health> {
    map c | c in health && c in core :: health[c]
  }

  /** The legacy single address first, then the list, canonical and without repetitions. */
  function Candidates(raw: RawProvider, parse: Parser): seq<string> {
    Kept([raw.bindIp] + raw.bindIps, parse)
  }

  function DisabledSet(names: seq<string>): set<string> {
    set n | n in names && Trim(n) != "" :: Trim(n)
  }

  /** A provider without exits of its own starts afresh; otherwise what still applies is kept. */
  function ExitsOf(raw: RawProvider, parse: Parser, before: Exits): Exits {
    var cands := Candidates(raw, parse);
    if cands == [] then NoExits().(disabled := DisabledSet(raw.disabled))
    else before.(strategy := Some(ParseStrategy(raw.strategy)), core := cands,
                 disabled := DisabledSet(raw.disabled), health := HealthOf(cands, before.health))
  }

  predicate Blank(name: string) {
    Trim(name) == ""
  }

  /** The registry a provider map turns another one into; blank names are never registered. */
  function RegistryFor(raws: map<string, RawProvider>, parse: Parser, before: Entries): Entries {
    map name | name in raws && !Blank(name) :: ExitsOf(raws[name], parse, EntryOf(before, name))
  }

  /** Every canonical source address some provider is configured with. */
  ghost function AllAddresses(raws: map<string, RawProvider>, parse: Parser): set<string> {
    set name, a | name in raws && a in Candidates(raws[name], parse) :: a
  }

  type Entries = map<string, Exits>

  function Restrict(m: Entries, keep: set<string>): (r: Entries)
    ensures r.Keys == m.Keys * keep && forall n :: n in r ==> r[n] == m[n]
  {
    map n | n in m && n in keep :: m[n]
  }

  function EntryOf(m: Entries, provider: string): Exits {
    if provider in m then m[provider] else NoExits()
  }

  /** The first candidate of every name; the name is made from the address. */
  method Dedupe(cands: seq<string>) returns (out: seq<string>)
    ensures out == Dedup(cands)
  {
    out := [];
    var seen: set<string> := {};
    for i := 0 to |cands|
      invariant out == Dedup(cands[..i]) && seen == Elements(out)
    {
      assert cands[..i + 1][..i] == cands[..i];
      var c := cands[i];
      if c !in seen {
        assert Elements(out + [c]) == Elements(out) + {c};
        out, seen := out + [c], seen + {c};
      }
    }
    assert cands[..|cands|] == cands;
  }

  function WithCore(m: Entries, provider: string, strategy: Strategy, cands: seq<string>): Entries {
    if Blank(provider) then m
    else
      var was := EntryOf(m, provider);
      m[provider := was.(strategy := Some(strategy), core := Dedup(cands), health := HealthOf(Dedup(cands), was.health))]
  }

  function WithDisabled(m: Entries, provider: string, names: seq<string>): Entries {
    if Blank(provider) then m
    else m[provider := EntryOf(m, provider).(disabled := DisabledSet(names))]
  }

  ghost predicate NoBlankNames(m: Entries) {
    forall name :: name in m ==> !Blank(name)
  }

  class Registry {
    var byProvider: Entries

    constructor ()
      ensures byProvider == map[]
    {
      byProvider := map[];
    }

    method SetCore(provider: string, strategy: Strategy, cands: seq<string>)
      modifies this
      ensures byProvider == WithCore(old(byProvider), provider, strategy, cands)
    {
      if Blank(provider) { return; }
      var was := EntryOf(byProvider, provider);
      var core := Dedupe(cands);
      var kept := KeepHealth(core, was.health);
      byProvider := byProvider[provider := was.(strategy := Some(strategy), core := core, health := kept)];
    }

    method Remove(provider: string)
      modifies this
      ensures byProvider == old(byProvider) - {provider}
    {
      byProvider := byProvider - {provider};
    }

    method SetDisabled(provider: string, names: seq<string>)
      modifies this
      ensures byProvider == WithDisabled(old(byProvider), provider, names)
    {
      if Blank(provider) { return; }
      var next := TrimmedNames(names);
      byProvider := byProvider[provider := EntryOf(byProvider, provider).(disabled := next)];
    }
  }

  method KeepHealth(core: seq<string>, health: map<string, Health>) returns (kept: map<string, Health>)
    ensures kept == HealthOf(core, health)
  {
    kept := map[];
    for i := 0 to |core|
      invariant kept == HealthOf(core[..i], health)
    {
      assert core[..i + 1] == core[..i] + [core[i]];
      if core[i] in health { kept := kept[core[i] := health[core[i]]]; }
    }
    assert core[..|core|] == core;
  }

  method TrimmedNames(names: seq<string>) returns (next: set<string>)
    ensures next == DisabledSet(names)
  {
    next := {};
    for i := 0 to |names|
      invariant next == DisabledSet(names[..i])
    {
      assert names[..i + 1] == names[..i] + [names[i]];
      var n := Trim(names[i]);
      if n != "" { next := next + {n}; }
    }
    assert names[..|names|] == names;
  }

  /** Entries of visited providers are final; the others are still as they were. */
  ghost predicate Visited(
      now: Entries, before: Entries,
      raws: map<string, RawProvider>, rest: set<string>, parse: Parser)
  {
    forall name ::
      && (name in raws && name !in rest && !Blank(name) ==>
            name in now && now[name] == ExitsOf(raws[name], parse, EntryOf(before, name)))
      && (name !in raws || name in rest ==>
            (name in now <==> name in before) && (name in now ==> now[name] == before[name]))
  }

  lemma RegisterNone(m: Entries, name: string, disabled: seq<string>)
    requires Blank(name) ==> name !in m
    ensures WithDisabled(m - {name}, name, disabled) == Registered(m, name, NoExits().(disabled := DisabledSet(disabled)))
  {
    var exits := NoExits().(disabled := DisabledSet(disabled));
    if Blank(name) {
      assert m - {name} == m;
    } else {
      assert (m - {name})[name := exits] == m[name := exits];
    }
  }

  lemma RegisterCore(m: Entries, name: string, strategy: Strategy, cands: seq<string>, disabled: seq<string>)
    ensures WithDisabled(WithCore(m, name, strategy, cands), name, disabled)
         == Registered(m, name, EntryOf(m, name).(strategy := Some(strategy), core := Dedup(cands),
              disabled := DisabledSet(disabled), health := HealthOf(Dedup(cands), EntryOf(m, name).health)))
  {
  }

  class App {
    const registry: Registry
    const sidecar: SidecarBindProxies

    constructor (registry: Registry, sidecar: SidecarBindProxies)
      ensures this.registry == registry && this.sidecar == sidecar
    {
      this.registry := registry;
      this.sidecar := sidecar;
    }

    /** Registers one provider's exits. */
    method SyncProvider(name: string, raw: RawProvider) returns (cands: seq<string>)
      requires NoBlankNames(registry.byProvider)
      modifies registry
      ensures cands == Candidates(raw, sidecar.w.parse)
      ensures var before := old(registry.byProvider);
              registry.byProvider == Registered(before, name, ExitsOf(raw, sidecar.w.parse, EntryOf(before, name)))
    {
      cands := KeepAddresses([raw.bindIp] + raw.bindIps, sidecar.w.parse);
      if |cands| == 0 {
        RegisterNone(registry.byProvider, name, raw.disabled);
        registry.Remove(name);
      } else {
        KeptSpec([raw.bindIp] + raw.bindIps, sidecar.w.parse);
        DedupSpec(cands);
        RegisterCore(registry.byProvider, name, ParseStrategy(raw.strategy), cands, raw.disabled);
        registry.SetCore(name, ParseStrategy(raw.strategy), cands);
      }
      registry.SetDisabled(name, raw.disabled);
    }

    /** Visits every provider, in any order, and gathers their addresses. */
    method SyncProviders(raws: map<string, RawProvider>) returns (sourceIps: seq<string>)
      requires NoBlankNames(registry.byProvider)
      modifies registry
      ensures NoBlankNames(registry.byProvider)
      ensures Visited(registry.byProvider, old(registry.byProvider), raws, {}, sidecar.w.parse)
      ensures Elements(sourceIps) == AllAddresses(raws, sidecar.w.parse)
    {
      ghost var before, parse := registry.byProvider, sidecar.w.parse;
      sourceIps := [];
      var rest := raws.Keys;
      assert raws - rest == map[];
      while rest != {}
        invariant rest <= raws.Keys && NoBlankNames(registry.byProvider)
        invariant Visited(registry.byProvider, before, raws, rest, parse)
        invariant Elements(sourceIps) == AllAddresses(raws - rest, parse)
        decreases rest
      {
        var name :| name in rest;
        VisitStep(registry.byProvider, before, raws, rest, name, parse);
        var cands := SyncProvider(name, raws[name]);
        AddressesGrow(raws, rest, name, parse, sourceIps);
        sourceIps := sourceIps + cands;
        rest := rest - {name};
      }
      assert raws - rest == raws;
    }

    /** Drops the state of providers that no longer exist. */
    method DropVanished(names: set<string>)
      modifies registry
      ensures registry.byProvider == Restrict(old(registry.byProvider), names)
    {
      ghost var before := registry.byProvider;
      var rest := registry.byProvider.Keys;
      assert Restrict(before, names + rest) == before;
      while rest != {}
        invariant registry.byProvider == Restrict(before, names + rest)
        decreases rest
      {
        var name :| name in rest;
        ghost var was := names + rest;
        rest := rest - {name};
        if name !in names {
          assert names + rest == was - {name};
          assert Restrict(before, was - {name}) == Restrict(before, was) - {name};
          registry.Remove(name);
        } else {
          assert names + rest == was;
        }
      }
      assert names + rest == names;
    }

    method SyncEgress(raws: map<string, RawProvider>, enabled: bool, listen: string -> Option<nat>, writeOk: bool)
      returns (sourceIps: seq<string>)
      requires NoBlankNames(registry.byProvider) && Inv(sidecar.View(), sidecar.w.env)
      modifies registry, sidecar
      ensures registry.byProvider == RegistryFor(raws, sidecar.w.parse, old(registry.byProvider))
      ensures Inv(sidecar.View(), sidecar.w.env)
      ensures Elements(sourceIps) == AllAddresses(raws, sidecar.w.parse)
      ensures sidecar.View() == Synced(old(sidecar.View()), sidecar.w, Call(sourceIps, enabled, listen, writeOk))
    {
      ghost var before := registry.byProvider;
      sourceIps := SyncProviders(raws);
      FinalRegistry(registry.byProvider, before, raws, sidecar.w.parse);
      DropVanished(raws.Keys);
      sidecar.Sync(Call(sourceIps, enabled, listen, writeOk));
    }
  }

  function Registered(m: Entries, name: string, exits: Exits): Entries {
    if Blank(name) then m else m[name := exits]
  }

  lemma VisitStep(
      now: Entries, before: Entries, raws: map<string, RawProvider>, rest: set<string>, name: string, parse: Parser)
    requires Visited(now, before, raws, rest, parse) && name in rest && rest <= raws.Keys && NoBlankNames(before)
    ensures EntryOf(now, name) == EntryOf(before, name)
    ensures var now' := Registered(now, name, ExitsOf(raws[name], parse, EntryOf(before, name)));
            Visited(now', before, raws, rest - {name}, parse) && (NoBlankNames(now) ==> NoBlankNames(now'))
  {
    var now' := Registered(now, name, ExitsOf(raws[name], parse, EntryOf(before, name)));
    assert forall n :: n != name ==> (n in now' <==> n in now) && (n in now ==> now'[n] == now[n]);
  }

  lemma FinalRegistry(now: Entries, before: Entries, raws: map<string, RawProvider>, parse: Parser)
    requires Visited(now, before, raws, {}, parse) && NoBlankNames(now)
    ensures Restrict(now, raws.Keys) == RegistryFor(raws, parse, before)
  {
    var r := Restrict(now, raws.Keys);
    forall name | name in r ensures r[name] == ExitsOf(raws[name], parse, EntryOf(before, name)) {
      assert name in raws && !Blank(name);
    }
    forall name ensures name in r <==> name in raws && !Blank(name) {
      if name in raws && !Blank(name) { assert name in now; }
    }
    SameRegistry(raws, parse, before, r);
  }

  lemma AddressesGrow(
      raws: map<string, RawProvider>, rest: set<string>, name: string, parse: Parser, sourceIps: seq<string>)
    requires name in rest && rest <= raws.Keys && Elements(sourceIps) == AllAddresses(raws - rest, parse)
    ensures Elements(sourceIps + Candidates(raws[name], parse)) == AllAddresses(raws - (rest - {name}), parse)
  {
    AddressesAdd(raws, rest, name, parse);
    assert Elements(sourceIps + Candidates(raws[name], parse)) == Elements(sourceIps) + Elements(Candidates(raws[name], parse));
  }

  lemma AddressesAdd(raws: map<string, RawProvider>, rest: set<string>, name: string, parse: Parser)
    requires name in rest && rest <= raws.Keys
    ensures AllAddresses(raws - (rest - {name}), parse)
         == AllAddresses(raws - rest, parse) + Elements(Candidates(raws[name], parse))
  {
    var a, b := raws - rest, raws - (rest - {name});
    assert b == a[name := raws[name]];
    forall x | x in AllAddresses(b, parse)
      ensures x in AllAddresses(a, parse) || x in Candidates(raws[name], parse)
    {
      var n :| n in b && x in Candidates(b[n], parse);
      if n != name { assert n in a && a[n] == b[n]; }
    }
    forall x | x in AllAddresses(a, parse) ensures x in AllAddresses(b, parse) {
      var n :| n in a && x in Candidates(a[n], parse);
      assert b[n] == a[n];
    }
    forall x | x in Candidates(raws[name], parse) ensures x in AllAddresses(b, parse) {
      assert b[name] == raws[name];
    }
  }

  /** Which text means which strategy: the three names in any case, and round robin for all others. */
  lemma StrategyMeans(s: string)
    ensures ParseStrategy(s) == Random <==> EqualFold(Trim(s), "random")
    ensures ParseStrategy(s) == Weighted <==> EqualFold(Trim(s), "weighted")
    ensures ParseStrategy(s) == First <==> EqualFold(Trim(s), "first")
    ensures ParseStrategy(s) == RoundRobin <==>
              !EqualFold(Trim(s), "random") && !EqualFold(Trim(s), "weighted") && !EqualFold(Trim(s), "first")
  {
    assert ToLower("random") == "random" && ToLower("weighted") == "weighted" && ToLower("first") == "first";
  }

  /**
   What a rebuild registers for a provider with addresses: they in the order of their first
   mention, the single one first; its strategy; and as turned off the names it lists, trimmed.
   */
  lemma RegistersAsConfigured(raws: map<string, RawProvider>, parse: Parser, before: Entries, name: string, x: string)
    requires name in raws && !AllBlank(name)
    ensures var raw, e := raws[name], RegistryFor(raws, parse, before);
            && name in e
            && (x in e[name].core <==> exists a :: a in [raw.bindIp] + raw.bindIps && !AllBlank(a) && parse(Trim(a)) == Some(x))
            && (x in e[name].disabled <==> x != "" && exists d :: d in raw.disabled && Trim(d) == x)
            && (e[name].core == [] ==> e[name].strategy == None && e[name].health == map[])
            && (e[name].core != [] ==>
                  && e[name].strategy == Some(ParseStrategy(raw.strategy))
                  && e[name].rotation == EntryOf(before, name).rotation
                  && e[name].limitedTiers == EntryOf(before, name).limitedTiers)
  {
    var raw := raws[name];
    BlankTrims(name);
    KeptSpec([raw.bindIp] + raw.bindIps, parse);
    AddressesAreParsed([raw.bindIp] + raw.bindIps, parse, x);
    assert x in Candidates(raw, parse) <==> x in Elements(Candidates(raw, parse));
  }

  /** A provider's own address, where it has one, is its first exit. */
  lemma SingleAddressFirst(raw: RawProvider, parse: Parser)
    requires !AllBlank(raw.bindIp) && parse(Trim(raw.bindIp)).Some?
    ensures Candidates(raw, parse) != [] && Some(Candidates(raw, parse)[0]) == parse(Trim(raw.bindIp))
  {
    ParsedOne(raw.bindIp, parse);
    ParsedPrefix([raw.bindIp], raw.bindIps, parse);
    var first, all := Parsed([raw.bindIp], parse), Parsed([raw.bindIp] + raw.bindIps, parse);
    DedupPrefix(first, all[1..]);
    DedupSpec(first);
    assert first + all[1..] == all;
  }

  lemma ParsedOne(raw: string, parse: Parser)
    requires !AllBlank(raw) && parse(Trim(raw)).Some?
    ensures Parsed([raw], parse) == [parse(Trim(raw)).value]
  {
    BlankTrims(raw);
    assert [raw][..0] == [];
  }

  lemma {:induction false} ParsedPrefix(xs: seq<string>, ys: seq<string>, parse: Parser)
    ensures Parsed(xs, parse) <= Parsed(xs + ys, parse)
  {
    if ys == [] {
      assert xs + ys == xs;
    } else {
      ParsedPrefix(xs, ys[..|ys| - 1], parse);
      assert (xs + ys)[..|xs + ys| - 1] == xs + ys[..|ys| - 1];
    }
  }

  /** The registry after a run of rebuilds. */
  function Rebuilt(rebuilds: seq<map<string, RawProvider>>, parse: Parser, before: Entries): Entries {
    if rebuilds == [] then before
    else
      var n := |rebuilds| - 1;
      RegistryFor(rebuilds[n], parse, Rebuilt(rebuilds[..n], parse, before))
  }

  /** A provider keeps an exit in all these rebuilds. */
  ghost predicate Keeps(rebuilds: seq<map<string, RawProvider>>, parse: Parser, name: string, exit: string) {
    forall raws :: raws in rebuilds ==> name in raws && exit in Candidates(raws[name], parse)
  }

  /**
   A cool-down outlives any run of rebuilds in which the provider keeps the exit, whatever else
   changes; an exit a rebuild drops is forgotten, also when it comes back.
   */
  lemma {:induction false} HealthOutlivesRebuilds(
      rebuilds: seq<map<string, RawProvider>>, parse: Parser, before: Entries, name: string, exit: string)
    requires !Blank(name) && Keeps(rebuilds, parse, name, exit)
    ensures var was, now := EntryOf(before, name).health, EntryOf(Rebuilt(rebuilds, parse, before), name).health;
            (exit in now <==> exit in was) && (exit in was ==> now[exit] == was[exit])
  {
    if rebuilds != [] {
      var n := |rebuilds| - 1;
      assert rebuilds[n] in rebuilds;
      assert forall raws :: raws in rebuilds[..n] ==> raws in rebuilds;
      HealthOutlivesRebuilds(rebuilds[..n], parse, before, name, exit);
    }
  }

  lemma DroppedIsForgotten(raws: map<string, RawProvider>, parse: Parser, before: Entries, name: string, exit: string)
    requires name in raws ==> exit !in Candidates(raws[name], parse)
    ensures exit !in EntryOf(RegistryFor(raws, parse, before), name).health
  {
  }

  lemma ExitsSettle(raw: RawProvider, parse: Parser, before: Exits)
    ensures ExitsOf(raw, parse, ExitsOf(raw, parse, before)) == ExitsOf(raw, parse, before)
  {
    var cands := Candidates(raw, parse);
    assert HealthOf(cands, HealthOf(cands, before.health)) == HealthOf(cands, before.health);
  }

  lemma SameRegistry(raws: map<string, RawProvider>, parse: Parser, before: Entries, r: Entries)
    requires forall name :: name in r <==> name in raws && !Blank(name)
    requires forall name :: name in r ==> ExitsOf(raws[name], parse, EntryOf(before, name)) == r[name]
    ensures RegistryFor(raws, parse, before) == r
  {
  }

  /** A second rebuild over the same providers leaves the registry as it is. */
  lemma RebuildSettles(raws: map<string, RawProvider>, parse: Parser, before: Entries)
    ensures RegistryFor(raws, parse, RegistryFor(raws, parse, before)) == RegistryFor(raws, parse, before)
  {
    var once := RegistryFor(raws, parse, before);
    forall name | name in once ensures ExitsOf(raws[name], parse, EntryOf(once, name)) == once[name] {
      assert EntryOf(once, name) == ExitsOf(raws[name], parse, EntryOf(before, name));
      ExitsSettle(raws[name], parse, EntryOf(before, name));
    }
    SameRegistry(raws, parse, once, once);
  }

  lemma CandidatesCanonical(raw: RawProvider, parse: Parser, a: string)
    requires CanonicalParser(parse) && a in Candidates(raw, parse)
    ensures Canonical(a, parse) == Some(a)
  {
    KeptSpec([raw.bindIp] + raw.bindIps, parse);
    assert a in Elements(Candidates(raw, parse));
  }

  /**
   Absent listen failures the file lists exactly the canonical addresses over all providers,
   sorted and without repetitions, whatever order the provider map was visited in.
   */
  lemma EgressPublishesAll(
      raws: map<string, RawProvider>, ips: seq<string>, s: State, w: World,
      listen: string -> Option<nat>, writeOk: bool)
    requires CanonicalParser(w.parse) && Inv(s, w.env) && Elements(ips) == AllAddresses(raws, w.parse)
    requires NoListenFails(s, w, Call(ips, true, listen, writeOk))
    ensures var published := Ips(Payload(s, w, Call(ips, true, listen, writeOk)));
            Sorted(published, StrLe) && Distinct(published) && Elements(published) == AllAddresses(raws, w.parse)
  {
    PublishesDesired(s, w, Call(ips, true, listen, writeOk));
    NormalisedSpec(ips, w.parse);
    AddressSetOfCanonical(raws, ips, w.parse);
  }

  lemma AddressSetOfCanonical(raws: map<string, RawProvider>, ips: seq<string>, parse: Parser)
    requires CanonicalParser(parse) && Elements(ips) == AllAddresses(raws, parse)
    ensures AddressSet(ips, parse) == AllAddresses(raws, parse)
  {
    forall a | a in ips ensures Canonical(a, parse) == Some(a) {
      assert a in Elements(ips);
      var name :| name in raws && a in Candidates(raws[name], parse);
      CandidatesCanonical(raws[name], parse, a);
    }
    FixedAddresses(ips, parse);
  }

  lemma FixedAddresses(ips: seq<string>, parse: Parser)
    requires forall a :: a in ips ==> Canonical(a, parse) == Some(a)
    ensures AddressSet(ips, parse) == Elements(ips)
  {
  }

  /**
   Running syncEgress again over the same providers opens, closes and writes nothing once
   the first run has written, even if the provider map is visited in another order.
   */
  lemma EgressRepeatDoesNothing(
      raws: map<string, RawProvider>, first: Call, again: Call, s: State, w: World)
    requires CanonicalParser(w.parse) && Inv(s, w.env)
    requires Elements(first.ips) == AllAddresses(raws, w.parse) == Elements(again.ips)
    requires first.enabled == again.enabled && first.writeOk && NoListenFails(s, w, first)
    ensures Synced(Synced(s, w, first), w, again) == Synced(s, w, first)
  {
    AddressSetOfCanonical(raws, first.ips, w.parse);
    AddressSetOfCanonical(raws, again.ips, w.parse);
    WriteSettles(s, w, first);
    RepeatDoesNothing(s, w, first, again);
  }
}
