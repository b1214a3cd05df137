/**
 Which providers run: the static configuration, the merge of the override file at startup
 and its undoing, and the dashboard's override store on top.
 */
module Providers {
  import opened Common

  /** `other` stands for the fields that are copied through unread. */
  datatype RawProvider = RawProvider(
    kind: string,
    apiKey: string,
    baseUrl: string,
    apiVersion: string,
    bindIp: string,
    userAgent: string,
    authMethod: string,
    disableApiKey: bool,
    other: string)

  datatype Override = Override(
    name: string,
    kind: string,
    apiKey: string,
    baseUrl: string,
    apiVersion: string,
    bindIp: string,
    userAgent: string,
    authMethod: string,
    disableApiKey: Option<bool>,
    enabled: Option<bool>,
    other: string)
  {
    /** Overrides written before the field existed count as enabled. */
    predicate IsEnabled() {
      enabled.None? || enabled.value
    }
  }

  type RawProviders = map<string, RawProvider>
  type Overrides = map<string, Override>

  // ------------------------------------------------------------ startup merge

  function Created(o: Override): RawProvider {
    RawProvider(Trim(o.kind), Trim(o.apiKey), Trim(o.baseUrl), Trim(o.apiVersion), "", "", "", false, "")
  }

  /** The four fields the merge patches. */
  function Patched(p: RawProvider, o: Override): RawProvider {
    p.(authMethod := if o.authMethod != "" then o.authMethod else p.authMethod,
       disableApiKey := if o.disableApiKey.Some? then o.disableApiKey.value else p.disableApiKey,
       bindIp := if o.bindIp != "" then o.bindIp else p.bindIp,
       userAgent := if o.userAgent != "" then o.userAgent else p.userAgent)
  }

  datatype Loaded = Loaded(raws: RawProviders, merged: seq<string>)

  function MergeOne(l: Loaded, o: Override): Loaded {
    var name := Trim(o.name);
    if name == "" then l
    else if name in l.raws then l.(raws := l.raws[name := Patched(l.raws[name], o)])
    else Loaded(l.raws[name := Patched(Created(o), o)], l.merged + [name])
  }

  function MergeAll(l: Loaded, file: seq<Override>): Loaded {
    if file == [] then l else MergeOne(MergeAll(l, file[..|file| - 1]), file[|file| - 1])
  }

  /** Apart from the four patched fields, p and q are the same configuration. */
  ghost predicate SameBase(p: RawProvider, q: RawProvider) {
    p == q.(authMethod := p.authMethod, disableApiKey := p.disableApiKey,
            bindIp := p.bindIp, userAgent := p.userAgent)
  }

  class LoadResult {
    var rawProviders: RawProviders
    var merged: seq<string>

    ghost function View(): Loaded
      reads this
    {
      Loaded(rawProviders, merged)
    }

    constructor (raws: RawProviders)
      ensures View() == Loaded(raws, [])
    {
      rawProviders, merged := raws, [];
    }

    /** None stands for a missing or malformed override file. */
    method MergeOverrides(file: Option<seq<Override>>)
      modifies this
      ensures View() == if file.None? then old(View()) else MergeAll(old(View()), file.value)
    {
      if file.None? { return; }
      var overrides := file.value;
      for i := 0 to |overrides|
        invariant View() == MergeAll(old(View()), overrides[..i])
      {
        var o := overrides[i];
        assert overrides[..i + 1][..i] == overrides[..i];
        var name := Trim(o.name);
        if name != "" {
          var existing: RawProvider;
          if name in rawProviders {
            existing := rawProviders[name];
          } else {
            existing := Created(o);
            merged := merged + [name];
          }
          if o.authMethod != "" { existing := existing.(authMethod := o.authMethod); }
          if o.disableApiKey.Some? { existing := existing.(disableApiKey := o.disableApiKey.value); }
          if o.bindIp != "" { existing := existing.(bindIp := o.bindIp); }
          if o.userAgent != "" { existing := existing.(userAgent := o.userAgent); }
          rawProviders := rawProviders[name := existing];
        }
      }
      assert overrides[..|overrides|] == overrides;
    }
  }

  /** The merge only adds recorded names and keeps every static entry but for the patch. */
  ghost predicate MergeOk(raws: RawProviders, l: Loaded) {
    && l.raws.Keys == raws.Keys + Elements(l.merged)
    && raws.Keys !! Elements(l.merged)
    && (forall n :: n in l.merged ==> n != "" && Trim(n) == n)
    && (forall n :: n in raws ==> SameBase(l.raws[n], raws[n]))
  }

  lemma MergeExisting(raws: RawProviders, l: Loaded, name: string, o: Override)
    requires MergeOk(raws, l) && name in l.raws
    ensures MergeOk(raws, l.(raws := l.raws[name := Patched(l.raws[name], o)]))
  {
    assert SameBase(Patched(l.raws[name], o), l.raws[name]);
  }

  lemma MergeNew(raws: RawProviders, l: Loaded, name: string, p: RawProvider)
    requires MergeOk(raws, l) && name !in l.raws && name != "" && Trim(name) == name
    ensures MergeOk(raws, Loaded(l.raws[name := p], l.merged + [name]))
  {
    assert Elements(l.merged + [name]) == Elements(l.merged) + {name};
  }

  lemma MergeOneKeeps(raws: RawProviders, l: Loaded, o: Override)
    requires MergeOk(raws, l)
    ensures MergeOk(raws, MergeOne(l, o))
  {
    TrimFixed(o.name);
    var name := Trim(o.name);
    if name != "" {
      if name in l.raws {
        MergeExisting(raws, l, name, o);
      } else {
        MergeNew(raws, l, name, Patched(Created(o), o));
      }
    }
  }

  lemma {:induction false} MergeSpec(raws: RawProviders, file: seq<Override>)
    ensures MergeOk(raws, MergeAll(Loaded(raws, []), file))
  {
    if file == [] {
      assert Elements(Loaded(raws, []).merged) == {};
    } else {
      MergeSpec(raws, file[..|file| - 1]);
      MergeOneKeeps(raws, MergeAll(Loaded(raws, []), file[..|file| - 1]), file[|file| - 1]);
    }
  }

  function Drop(raws: RawProviders, names: seq<string>): RawProviders {
    if names == [] then raws
    else
      var rest := Drop(raws, names[..|names| - 1]);
      var trimmed := Trim(names[|names| - 1]);
      if trimmed != "" then rest - {trimmed} else rest
  }

  lemma {:induction false} DropSpec(raws: RawProviders, names: seq<string>)
    requires forall n :: n in names ==> n != "" && Trim(n) == n
    ensures Drop(raws, names).Keys == raws.Keys - Elements(names)
    ensures forall n :: n in Drop(raws, names) ==> Drop(raws, names)[n] == raws[n]
  {
    if names != [] {
      var init := names[..|names| - 1];
      assert names == init + [names[|names| - 1]];
      forall n | n in init ensures n != "" && Trim(n) == n {
        assert n in names;
      }
      DropSpec(raws, init);
    }
  }

  /**
   Merge at startup, then drop the recorded names: exactly the static names are left,
   whatever the override file holds, and each static entry only differs in patched fields.
   */
  lemma MergeThenDropRestoresNames(raws: RawProviders, file: seq<Override>)
    ensures var l := MergeAll(Loaded(raws, []), file);
            var base := Drop(l.raws, l.merged);
            base.Keys == raws.Keys && forall n :: n in raws ==> SameBase(base[n], raws[n])
  {
    MergeSpec(raws, file);
    var l := MergeAll(Loaded(raws, []), file);
    DropSpec(l.raws, l.merged);
  }

  // ------------------------------------------------------------ the override store

  /** An override is stored under its own name. */
  ghost predicate Keyed(m: Overrides) {
    forall k :: k in m ==> m[k].name == k
  }

  function ConfigOf(o: Override): RawProvider {
    RawProvider(Trim(o.kind), Trim(o.apiKey), Trim(o.baseUrl), Trim(o.apiVersion), Trim(o.bindIp),
                Trim(o.userAgent), Trim(o.authMethod), o.disableApiKey.Some? && o.disableApiKey.value, o.other)
  }

  ghost predicate HasEnabled(m: Overrides, name: string) {
    name != "" && exists k :: k in m && m[k].IsEnabled() && Trim(m[k].name) == name
  }

  ghost predicate HasDisabled(m: Overrides, name: string) {
    exists k :: k in m && !m[k].IsEnabled() && Trim(m[k].name) == name
  }

  /** The runtime is built with a provider called name. */
  ghost predicate Running(base: set<string>, m: Overrides, name: string) {
    (name in base || HasEnabled(m, name)) && !HasDisabled(m, name)
  }

  class ProviderOverrideStore {
    var overrides: Overrides

    constructor (file: seq<Override>)
      ensures overrides == LoadedOverrides(file) && Keyed(overrides)
    {
      overrides := map[];
      new;
      for i := 0 to |file|
        invariant overrides == LoadedOverrides(file[..i]) && Keyed(overrides)
      {
        assert file[..i + 1][..i] == file[..i];
        if file[i].name != "" {
          overrides := overrides[file[i].name := file[i]];
        }
      }
      assert file[..|file|] == file;
    }

    method Upsert(v: Override)
      modifies this
      ensures overrides == old(overrides)[v.name := v]
    {
      overrides := overrides[v.name := v];
    }

    method Remove(name: string)
      modifies this
      ensures overrides == old(overrides) - {name}
    {
      overrides := overrides - {name};
    }

    /** All overrides, sorted by name. */
    method List() returns (out: seq<Override>)
      ensures Listed(out, overrides)
    {
      var names := SortedKeys(overrides);
      var m := overrides;
      out := seq(|names|, i requires 0 <= i < |names| => m[names[i]]);
      ListedFrom(names, out, m);
    }

    method RawConfigs() returns (out: RawProviders)
      ensures forall n :: n in out <==> HasEnabled(overrides, n)
      ensures forall n :: n in out ==> SuppliedBy(overrides, n, out[n])
    {
      var list := List();
      out := map[];
      for i := 0 to |list|
        invariant forall n :: n in out ==> HasEnabled(overrides, n) && SuppliedBy(overrides, n, out[n])
        invariant forall j :: 0 <= j < i && list[j].IsEnabled() && Trim(list[j].name) != "" ==> Trim(list[j].name) in out
      {
        var o := list[i];
        ListedMember(list, overrides, i);
        if !o.IsEnabled() { continue; }
        var name := Trim(o.name);
        if name == "" { continue; }
        out := out[name := ConfigOf(o)];
      }
      forall n | HasEnabled(overrides, n) ensures n in out {
        var k :| k in overrides && overrides[k].IsEnabled() && Trim(overrides[k].name) == n;
        assert overrides[k] in list;
      }
    }

    method DisabledNames() returns (out: seq<string>)
      ensures forall n :: n in out <==> HasDisabled(overrides, n)
    {
      var list := List();
      out := [];
      for i := 0 to |list|
        invariant forall n :: n in out ==> HasDisabled(overrides, n)
        invariant forall j :: 0 <= j < i && !list[j].IsEnabled() ==> Trim(list[j].name) in out
      {
        ListedMember(list, overrides, i);
        if !list[i].IsEnabled() {
          out := out + [Trim(list[i].name)];
        }
      }
      forall n | HasDisabled(overrides, n) ensures n in out {
        var k :| k in overrides && !overrides[k].IsEnabled() && Trim(overrides[k].name) == n;
        assert overrides[k] in list;
      }
    }
  }

  function LoadedOverrides(file: seq<Override>): Overrides {
    if file == [] then map[]
    else
      var m := LoadedOverrides(file[..|file| - 1]);
      var o := file[|file| - 1];
      if o.name != "" then m[o.name := o] else m
  }

  /** out holds exactly the stored overrides. */
  ghost predicate Listed(out: seq<Override>, m: Overrides) {
    && (forall o :: o in out ==> exists k :: k in m && m[k] == o)
    && (forall k :: k in m ==> m[k] in out)
  }

  lemma ListedFrom(keys: seq<string>, out: seq<Override>, m: Overrides)
    requires |out| == |keys| && Elements(keys) == m.Keys
    requires forall i :: 0 <= i < |keys| ==> keys[i] in m && out[i] == m[keys[i]]
    ensures Listed(out, m)
  {
    forall k | k in m ensures m[k] in out {
      assert k in Elements(keys);
      var i :| 0 <= i < |keys| && keys[i] == k;
      assert out[i] == m[k];
    }
  }

  lemma ListedMember(out: seq<Override>, m: Overrides, i: nat)
    requires Listed(out, m) && i < |out|
    ensures exists k :: k in m && m[k] == out[i]
  {
    assert out[i] in out;
  }

  /** config is what some enabled override for this name asks for. */
  ghost predicate SuppliedBy(m: Overrides, name: string, config: RawProvider) {
    exists k :: k in m && m[k].IsEnabled() && Trim(m[k].name) == name && config == ConfigOf(m[k])
  }

  /** out holds the providers to run, overrides supplying configurations where there are any. */
  ghost predicate IsRuntimeView(out: RawProviders, base: RawProviders, m: Overrides) {
    && (forall n :: n in out <==> Running(base.Keys, m, n))
    && (forall n :: n in out ==>
          if HasEnabled(m, n) then SuppliedBy(m, n, out[n]) else n in base && out[n] == base[n])
  }

  class App {
    var rawProviders: RawProviders
    const store: ProviderOverrideStore

    constructor (raws: RawProviders, store: ProviderOverrideStore)
      ensures rawProviders == raws && this.store == store
    {
      rawProviders := raws;
      this.store := store;
    }

    method DropStartupMergedOverrides(names: seq<string>)
      modifies this`rawProviders
      ensures rawProviders == Drop(old(rawProviders), names)
    {
      for i := 0 to |names|
        invariant rawProviders == Drop(old(rawProviders), names[..i])
      {
        assert names[..i + 1][..i] == names[..i];
        var trimmed := Trim(names[i]);
        if trimmed != "" {
          rawProviders := rawProviders - {trimmed};
        }
      }
      assert names[..|names|] == names;
    }

    /** The provider map of the next rebuild. */
    method RuntimeRawProviders() returns (out: RawProviders)
      ensures IsRuntimeView(out, rawProviders, store.overrides)
    {
      var configs := store.RawConfigs();
      var disabled := store.DisabledNames();
      out := Without(rawProviders + configs, disabled);
    }
  }

  method Without(m: RawProviders, names: seq<string>) returns (out: RawProviders)
    ensures forall n :: n in out <==> n in m && n !in names
    ensures forall n :: n in out ==> out[n] == m[n]
  {
    out := m;
    for i := 0 to |names|
      invariant forall n :: n in out <==> n in m && n !in names[..i]
      invariant forall n :: n in out ==> out[n] == m[n]
    {
      assert names[..i + 1] == names[..i] + [names[i]];
      out := out - {names[i]};
    }
    assert names[..|names|] == names;
  }

  // ------------------------------------------------------------ runs of edits

  datatype Edit = Upsert(o: Override) | Remove(name: string)

  function Edited(m: Overrides, edits: seq<Edit>): Overrides {
    if edits == [] then m
    else
      var before := Edited(m, edits[..|edits| - 1]);
      match edits[|edits| - 1]
      case Upsert(o) => before[o.name := o]
      case Remove(n) => before - {n}
  }

  /** No edit creates or re-creates a provider called name. */
  ghost predicate NeverCreates(edits: seq<Edit>, name: string) {
    forall e :: e in edits && e.Upsert? && e.o.IsEnabled() ==> Trim(e.o.name) != name
  }

  lemma {:induction false} EditsKeepAbsence(m: Overrides, edits: seq<Edit>, name: string)
    requires Keyed(m) && !HasEnabled(m, name) && NeverCreates(edits, name)
    ensures Keyed(Edited(m, edits))
    ensures !HasEnabled(Edited(m, edits), name)
  {
    if edits != [] {
      EditsKeepAbsence(m, edits[..|edits| - 1], name);
      assert edits[|edits| - 1] in edits;
    }
  }

  /** The name is also stored in a spelling that differs by blanks, enabled or disabled. */
  ghost predicate OtherSpelling(m: Overrides, name: string, enabled: bool) {
    exists k :: k in m && k != name && m[k].IsEnabled() == enabled && Trim(m[k].name) == name
  }

  /**
   Deleting a dashboard-only provider takes it out of the runtime exactly when no other
   stored spelling of the name is enabled, unless yet another one is disabled.
   */
  lemma DeleteTakesEffect(base: set<string>, m: Overrides, name: string)
    requires name !in base && name != ""
    ensures !Running(base, m - {name}, name) <==>
            (OtherSpelling(m, name, true) ==> OtherSpelling(m, name, false))
  {
    var m' := m - {name};
    assert forall k :: k in m && k != name ==> k in m' && m'[k] == m[k];
  }

  /** A file entry spelt with blanks keeps serving after its plain spelling is deleted. */
  lemma DeleteMissesOtherSpelling(m: Overrides, name: string, spelling: string)
    requires name != "" && spelling != name && Trim(spelling) == name
    requires m.Keys == {name, spelling} && Keyed(m) && m[spelling].IsEnabled()
    ensures Running({}, m - {name}, name)
  {
    var m' := m - {name};
    assert m'.Keys == {spelling} && m'[spelling] == m[spelling];
  }

  /**
   What a handler of the dashboard stores or removes when it does not create name: names it
   takes from a request are trimmed, and a stored entry it rewrites stays enabled or disabled.
   */
  ghost predicate HandlerEdit(m: Overrides, e: Edit, name: string) {
    match e
    case Upsert(o) =>
      || (Trim(o.name) == o.name && (o.IsEnabled() ==> o.name != name))
      || (o.name in m && o.IsEnabled() == m[o.name].IsEnabled())
    case Remove(n) => Trim(n) == n
  }

  ghost predicate ByHandlers(m: Overrides, edits: seq<Edit>, name: string) {
    edits == [] ||
    (var n := |edits| - 1;
     ByHandlers(m, edits[..n], name) && HandlerEdit(Edited(m, edits[..n]), edits[n], name))
  }

  /** No handler switches an entry stored under a name with blanks around it, or removes one. */
  lemma {:induction false} HandlersKeepSpellings(m: Overrides, edits: seq<Edit>, name: string)
    requires Keyed(m) && name !in m && Trim(name) == name && ByHandlers(m, edits, name)
    ensures var m' := Edited(m, edits);
            && Keyed(m') && (name in m' ==> !m'[name].IsEnabled())
            && (forall b :: OtherSpelling(m', name, b) <==> OtherSpelling(m, name, b))
  {
    if edits != [] {
      var n := |edits| - 1;
      HandlersKeepSpellings(m, edits[..n], name);
      HandlerKeepsSpellings(Edited(m, edits[..n]), edits[n], name);
    }
  }

  lemma SameSpellings(m: Overrides, name: string)
    ensures forall b :: OtherSpelling(m - {name}, name, b) <==> OtherSpelling(m, name, b)
  {
    var m' := m - {name};
    forall b | OtherSpelling(m, name, b) ensures OtherSpelling(m', name, b) {
      var k :| k in m && k != name && m[k].IsEnabled() == b && Trim(m[k].name) == name;
      assert k in m' && m'[k] == m[k];
    }
  }

  /** With name itself deleted or disabled, only its other spellings decide. */
  lemma SpellingsDecide(base: set<string>, m: Overrides, name: string)
    requires Keyed(m) && name !in base && (name in m ==> !m[name].IsEnabled())
    requires OtherSpelling(m, name, true) ==> OtherSpelling(m, name, false)
    ensures !Running(base, m, name)
  {
    if HasEnabled(m, name) {
      var k :| k in m && m[k].IsEnabled() && Trim(m[k].name) == name;
      assert k != name && OtherSpelling(m, name, true);
    }
  }

  lemma HandlerKeepsSpellings(m: Overrides, e: Edit, name: string)
    requires Keyed(m) && (name in m ==> !m[name].IsEnabled()) && Trim(name) == name && HandlerEdit(m, e, name)
    ensures var m' := if e.Upsert? then m[e.o.name := e.o] else m - {e.name};
            && Keyed(m') && (name in m' ==> !m'[name].IsEnabled())
            && (forall b :: OtherSpelling(m', name, b) <==> OtherSpelling(m, name, b))
  {
    var m' := if e.Upsert? then m[e.o.name := e.o] else m - {e.name};
    forall k | k != name && Trim(k) == name
      ensures k in m' <==> k in m
      ensures k in m ==> m'[k].IsEnabled() == m[k].IsEnabled()
    {
    }
  }

  /** No run of the handlers' edits brings name back without creating it. */
  ghost predicate StaysGone(base: set<string>, m: Overrides, name: string) {
    forall edits :: ByHandlers(m, edits, name) ==> !Running(base, Edited(m, edits), name)
  }

  lemma GoneStaysGone(base: set<string>, m: Overrides, name: string)
    requires Keyed(m) && name !in base && name !in m && Trim(name) == name
    requires OtherSpelling(m, name, true) ==> OtherSpelling(m, name, false)
    ensures StaysGone(base, m, name)
  {
    forall edits | ByHandlers(m, edits, name) ensures !Running(base, Edited(m, edits), name) {
      HandlersKeepSpellings(m, edits, name);
      SpellingsDecide(base, Edited(m, edits), name);
    }
  }

  /**
   Over every run of edits the handlers can make without creating it again, a deleted
   dashboard-only provider stays gone if and only if no other stored spelling of the name is
   enabled, unless yet another one is disabled.
   */
  lemma DeletedStaysDeleted(base: set<string>, m: Overrides, name: string)
    requires name !in base && name != "" && Trim(name) == name && Keyed(m)
    ensures StaysGone(base, m - {name}, name) <==> (OtherSpelling(m, name, true) ==> OtherSpelling(m, name, false))
  {
    var m' := m - {name};
    SameSpellings(m, name);
    DeleteTakesEffect(base, m, name);
    if OtherSpelling(m, name, true) ==> OtherSpelling(m, name, false) {
      GoneStaysGone(base, m', name);
    } else {
      assert ByHandlers(m', [], name) && Edited(m', []) == m';
    }
  }

  lemma {:induction false} CanRemove(m: Overrides, keys: set<string>) returns (edits: seq<Edit>)
    ensures forall e :: e in edits ==> e.Remove?
    ensures Edited(m, edits) == m - keys
  {
    edits := [];
    if keys != {} {
      var k :| k in keys;
      var before := CanRemove(m, keys - {k});
      edits := before + [Remove(k)];
      assert edits[..|edits| - 1] == before;
      assert m - keys == (m - (keys - {k})) - {k};
    }
  }

  /**
   Over every run of edits to the store, of spellings the handlers never name too, that does
   not create it again, it stays gone if and only if no other spelling of it is enabled.
   */
  lemma DeletedForGood(base: set<string>, m: Overrides, name: string)
    requires name !in base && name != "" && Keyed(m)
    ensures (forall edits :: NeverCreates(edits, name) ==> !Running(base, Edited(m - {name}, edits), name))
       <==> !OtherSpelling(m, name, true)
  {
    var m' := m - {name};
    if OtherSpelling(m, name, true) {
      var off := set k | k in m' && !m'[k].IsEnabled();
      var edits := CanRemove(m', off);
      var left := Edited(m', edits);
      var k :| k in m && k != name && m[k].IsEnabled() && Trim(m[k].name) == name;
      assert k in left && left[k] == m[k];
      assert NeverCreates(edits, name) && Running(base, left, name);
    } else {
      assert !HasEnabled(m', name);
      forall edits | NeverCreates(edits, name) ensures !Running(base, Edited(m', edits), name) {
        EditsKeepAbsence(m', edits, name);
      }
    }
  }

  // ------------------------------------------------------------ rename

  /** What a rename of name does to the overrides: `updated` is the edited entry. */
  function Renamed(m: Overrides, updated: Override, name: string, newName: string): Overrides {
    m[newName := updated.(name := newName)][name := Disabled(updated, name)]
  }

  function Disabled(updated: Override, name: string): Override {
    Override(name, updated.kind, "", "", "", "", "", "", None, Some(false), "")
  }

  /** A rename leaves every other name alone. */
  lemma RenameElsewhere(m: Overrides, updated: Override, name: string, newName: string, n: string)
    requires Keyed(m) && Trim(name) == name && Trim(newName) == newName && n != name && n != newName
    ensures HasEnabled(Renamed(m, updated, name, newName), n) <==> HasEnabled(m, n)
    ensures HasDisabled(Renamed(m, updated, name, newName), n) <==> HasDisabled(m, n)
  {
    var m' := Renamed(m, updated, name, newName);
    forall k | k in m && Trim(m[k].name) == n ensures k in m' && m'[k] == m[k] {
      assert k != name && k != newName;
    }
    forall k | k in m' && Trim(m'[k].name) == n ensures k in m && m'[k] == m[k] {
      assert k != name && k != newName;
    }
  }

  /** At run time exactly name has been replaced by newName. */
  ghost predicate Swapped(base: set<string>, m: Overrides, m': Overrides, name: string, newName: string) {
    forall n :: Running(base, m', n) <==> n == newName || (n != name && Running(base, m, n))
  }

  /**
   A rename swaps exactly that name at run time if and only if the names differ, the entry
   is enabled, and no other stored spelling of the new name is disabled.
   */
  lemma RenameSwapsName(base: set<string>, m: Overrides, updated: Override, name: string, newName: string)
    requires Keyed(m) && Trim(name) == name && Trim(newName) == newName && newName != ""
    ensures Swapped(base, m, Renamed(m, updated, name, newName), name, newName) <==>
            name != newName && updated.IsEnabled() && !OtherSpelling(m, newName, false)
  {
    var m' := Renamed(m, updated, name, newName);
    assert !m'[name].IsEnabled() && Trim(m'[name].name) == name;
    assert !Running(base, m', name);
    if name != newName {
      NewNameRuns(base, m, updated, name, newName);
      forall n | n != name && n != newName ensures Running(base, m', n) <==> Running(base, m, n) {
        RenameElsewhere(m, updated, name, newName, n);
      }
    }
  }

  lemma NewNameRuns(base: set<string>, m: Overrides, updated: Override, name: string, newName: string)
    requires Keyed(m) && Trim(name) == name && Trim(newName) == newName != "" && name != newName
    ensures Running(base, Renamed(m, updated, name, newName), newName) <==>
            updated.IsEnabled() && !OtherSpelling(m, newName, false)
  {
    var m' := Renamed(m, updated, name, newName);
    assert m'[newName] == updated.(name := newName);
    assert forall k :: k != newName && k != name ==> (k in m' <==> k in m) && (k in m ==> m'[k] == m[k]);
    if HasDisabled(m', newName) && updated.IsEnabled() {
      var k :| k in m' && !m'[k].IsEnabled() && Trim(m'[k].name) == newName;
      assert k in m && k != newName && m[k] == m'[k];
    }
  }
}
