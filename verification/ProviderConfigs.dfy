/**
 What configuration a provider runs with: which override supplies it, field by field, and what
 the merge at startup makes of the file.
 */
module ProviderConfigs {
  import opened Common
  import opened Providers

  // ------------------------------------------------------------ the runtime view

  /** Every text of the configuration is trimmed, as the ones at run time are. */
  predicate TrimmedConfig(c: RawProvider) {
    && Trimmed(c.kind) && Trimmed(c.apiKey) && Trimmed(c.baseUrl) && Trimmed(c.apiVersion)
    && Trimmed(c.bindIp) && Trimmed(c.userAgent) && Trimmed(c.authMethod)
  }

  /** The enabled override that spells out a configuration. */
  function Spelled(name: string, c: RawProvider): Override {
    Override(name := name, kind := c.kind, apiKey := c.apiKey, baseUrl := c.baseUrl, apiVersion := c.apiVersion,
             bindIp := c.bindIp, userAgent := c.userAgent, authMethod := c.authMethod,
             disableApiKey := Some(c.disableApiKey), enabled := Some(true), other := c.other)
  }

  /**
   Storing the override that spells out a configuration makes exactly that configuration run, if
   the name is stored in no other spelling.
   */
  lemma SpelledRuns(out: RawProviders, base: RawProviders, m: Overrides, name: string, c: RawProvider)
    requires Keyed(m) && name != "" && Trim(name) == name && TrimmedConfig(c)
    requires forall b :: !OtherSpelling(m, name, b)
    requires IsRuntimeView(out, base, m[name := Spelled(name, c)])
    ensures name in out && out[name] == c
  {
    var m' := m[name := Spelled(name, c)];
    forall k | k in m' && k != name ensures Trim(m'[k].name) != name {
      assert !OtherSpelling(m, name, m[k].IsEnabled());
    }
    assert m'[name].IsEnabled() && HasEnabled(m', name);
    TrimsToItself(c);
  }

  lemma TrimsToItself(c: RawProvider)
    requires TrimmedConfig(c)
    ensures Trim(c.kind) == c.kind && Trim(c.apiKey) == c.apiKey && Trim(c.baseUrl) == c.baseUrl
    ensures Trim(c.apiVersion) == c.apiVersion && Trim(c.bindIp) == c.bindIp
    ensures Trim(c.userAgent) == c.userAgent && Trim(c.authMethod) == c.authMethod
  {
    TrimFixed(c.kind);
    TrimFixed(c.apiKey);
    TrimFixed(c.baseUrl);
    TrimFixed(c.apiVersion);
    TrimFixed(c.bindIp);
    TrimFixed(c.userAgent);
    TrimFixed(c.authMethod);
  }

  /** c is what the fields of o say without the blanks around them; an absent flag is off. */
  predicate FieldsOf(o: Override, c: RawProvider) {
    && c.kind == Trim(o.kind) && c.apiKey == Trim(o.apiKey) && c.baseUrl == Trim(o.baseUrl)
    && c.apiVersion == Trim(o.apiVersion) && c.bindIp == Trim(o.bindIp) && c.userAgent == Trim(o.userAgent)
    && c.authMethod == Trim(o.authMethod) && (c.disableApiKey <==> o.disableApiKey == Some(true)) && c.other == o.other
  }

  /** Some override for the name says it is off, or some does not. */
  ghost predicate Flagged(m: Overrides, name: string, off: bool) {
    exists k :: k in m && Trim(m[k].name) == name && (m[k].enabled == Some(false)) == off
  }

  /** A provider runs when it is configured or has an override, and none of its overrides says it is off. */
  lemma RunsIff(out: RawProviders, base: RawProviders, m: Overrides, name: string)
    requires IsRuntimeView(out, base, m)
    ensures name in out <==> (name in base || (name != "" && Flagged(m, name, false))) && !Flagged(m, name, true)
  {
    assert forall k :: k in m ==> (m[k].IsEnabled() <==> m[k].enabled != Some(false));
  }

  /** Every provider runs with the fields of one of its overrides that is not off, or as it is configured. */
  lemma RunsWithFields(out: RawProviders, base: RawProviders, m: Overrides, name: string)
    requires IsRuntimeView(out, base, m) && name in out
    ensures || (name in base && out[name] == base[name] && !HasEnabled(m, name))
            || exists k :: k in m && m[k].enabled != Some(false) && Trim(m[k].name) == name && FieldsOf(m[k], out[name])
  {
    if HasEnabled(m, name) {
      var k :| k in m && m[k].IsEnabled() && Trim(m[k].name) == name && out[name] == ConfigOf(m[k]);
      assert FieldsOf(m[k], out[name]);
    }
  }

  lemma OnlySpelling(m: Overrides, updated: Override, name: string, newName: string)
    requires Keyed(m) && Trim(newName) == newName && Trim(name) == name != newName
    requires forall b :: !OtherSpelling(m, newName, b)
    ensures var m' := Renamed(m, updated, name, newName);
            forall k :: k in m' && Trim(m'[k].name) == newName ==> k == newName
  {
    var m' := Renamed(m, updated, name, newName);
    forall k | k in m' && k != newName ensures Trim(m'[k].name) != newName {
      assert k != name ==> !OtherSpelling(m, newName, m[k].IsEnabled());
    }
  }

  /** A rename hands the configuration over: the new name runs with the fields of the edited entry. */
  lemma RenameKeepsConfig(
      out: RawProviders, base: RawProviders, m: Overrides, updated: Override, name: string, newName: string)
    requires Keyed(m) && updated.IsEnabled() && Trim(newName) == newName != "" && Trim(name) == name != newName
    requires forall b :: !OtherSpelling(m, newName, b)
    requires IsRuntimeView(out, base, Renamed(m, updated, name, newName))
    ensures newName in out && FieldsOf(updated, out[newName])
  {
    OnlySpelling(m, updated, name, newName);
    var m' := Renamed(m, updated, name, newName);
    assert m'[newName] == updated.(name := newName);
    RunsOnlyEntry(out, base, m', newName, newName);
  }

  /** An enabled entry that is the only one for its name runs with its fields. */
  lemma RunsOnlyEntry(out: RawProviders, base: RawProviders, m: Overrides, name: string, key: string)
    requires IsRuntimeView(out, base, m) && name != "" && key in m && m[key].IsEnabled() && Trim(m[key].name) == name
    requires forall k :: k in m && Trim(m[k].name) == name ==> k == key
    ensures name in out && FieldsOf(m[key], out[name])
  {
    assert HasEnabled(m, name) && !HasDisabled(m, name);
    RunsWithFields(out, base, m, name);
  }

  // ------------------------------------------------------------ the stored file

  predicate LastNamed(file: seq<Override>, name: string, i: nat)
    requires i < |file|
  {
    file[i].name == name != "" && forall j :: i < j < |file| ==> file[j].name != name
  }

  /** Of the entries of the file with that name the last is stored; nameless ones are not. */
  lemma {:induction false} LastEntryIsStored(file: seq<Override>, name: string)
    ensures name in LoadedOverrides(file) <==> name != "" && exists i :: 0 <= i < |file| && file[i].name == name
    ensures forall i :: 0 <= i < |file| && LastNamed(file, name, i) ==>
              name in LoadedOverrides(file) && LoadedOverrides(file)[name] == file[i]
  {
    if file != [] {
      var n := |file| - 1;
      LastEntryIsStored(file[..n], name);
      assert file == file[..n] + [file[n]];
    }
  }

  // ------------------------------------------------------------ the merge at startup

  /** Dropping names takes out exactly the entries they mean once trimmed, and changes no other. */
  lemma {:induction false} DroppedIff(raws: RawProviders, names: seq<string>, n: string)
    ensures n in Drop(raws, names) <==> n in raws && (n == "" || forall name :: name in names ==> Trim(name) != n)
    ensures n in Drop(raws, names) ==> Drop(raws, names)[n] == raws[n]
  {
    if names != [] {
      DroppedIff(raws, names[..|names| - 1], n);
      assert names == names[..|names| - 1] + [names[|names| - 1]];
    }
  }

  /** A field of an override that patches a configuration: what it says, if anything, and where it goes. */
  datatype Patch<T> = Patch(says: Override -> Option<T>, field: RawProvider -> T)

  function NonEmpty(s: string): Option<string> {
    if s == "" then None else Some(s)
  }

  function AuthMethod(): Patch<string> { Patch((o: Override) => NonEmpty(o.authMethod), (c: RawProvider) => c.authMethod) }
  function BindIp(): Patch<string> { Patch((o: Override) => NonEmpty(o.bindIp), (c: RawProvider) => c.bindIp) }
  function UserAgent(): Patch<string> { Patch((o: Override) => NonEmpty(o.userAgent), (c: RawProvider) => c.userAgent) }
  function DisableApiKey(): Patch<bool> { Patch((o: Override) => o.disableApiKey, (c: RawProvider) => c.disableApiKey) }

  /** The last thing the file says about a field of the provider, or what is there without the file. */
  function LastSaid<T>(file: seq<Override>, name: string, says: Override -> Option<T>, before: T): T {
    if file == [] then before
    else
      var n := |file| - 1;
      if Trim(file[n].name) == name && says(file[n]).Some? then says(file[n]).value
      else LastSaid(file[..n], name, says, before)
  }

  /** Patching a configuration takes what the override says for the field, or leaves it. */
  ghost predicate Patches<T(!new)>(p: Patch<T>) {
    forall c: RawProvider, o: Override :: p.field(Patched(c, o)) == if p.says(o).Some? then p.says(o).value else p.field(c)
  }

  lemma FourFields()
    ensures Patches(AuthMethod()) && Patches(BindIp()) && Patches(UserAgent()) && Patches(DisableApiKey())
  {
  }

  function Merged(raws: RawProviders, file: seq<Override>): RawProviders {
    MergeAll(Loaded(raws, []), file).raws
  }

  /** One more override reaches the entry of its name and no other. */
  lemma MergedStep(raws: RawProviders, file: seq<Override>, name: string)
    requires file != [] && name != ""
    ensures var m, m', o := Merged(raws, file[..|file| - 1]), Merged(raws, file), file[|file| - 1];
            if Trim(o.name) == name then name in m' && m'[name] == Patched(if name in m then m[name] else Created(o), o)
            else (name in m' <==> name in m) && (name in m ==> m'[name] == m[name])
  {
  }

  /**
   In a static entry each of the four fields is what the last override of its name says that says
   anything, or what the static configuration says.
   */
  lemma {:induction false} MergedField<T(!new)>(raws: RawProviders, file: seq<Override>, name: string, p: Patch<T>)
    requires name in raws && name != "" && Patches(p)
    ensures name in Merged(raws, file)
    ensures p.field(Merged(raws, file)[name]) == LastSaid(file, name, p.says, p.field(raws[name]))
  {
    if file != [] {
      MergedField(raws, file[..|file| - 1], name, p);
      MergedStep(raws, file, name);
    }
  }

  /** The first override of that name in the file, if there is one. */
  function FirstNamed(file: seq<Override>, name: string): Option<Override> {
    if file == [] then None
    else if FirstNamed(file[..|file| - 1], name).Some? then FirstNamed(file[..|file| - 1], name)
    else if Trim(file[|file| - 1].name) == name then Some(file[|file| - 1])
    else None
  }

  predicate CreatedFrom(c: RawProvider, o: Override) {
    c.kind == Trim(o.kind) && c.apiKey == Trim(o.apiKey) && c.baseUrl == Trim(o.baseUrl) && c.apiVersion == Trim(o.apiVersion)
  }

  /**
   A name the static configuration does not have is there if and only if the file has it, with
   kind, key, address and version of its first override, trimmed.
   */
  lemma {:induction false} MergedFromFirst(raws: RawProviders, file: seq<Override>, name: string)
    requires name !in raws && name != ""
    ensures match FirstNamed(file, name)
            case None => name !in Merged(raws, file)
            case Some(o) => name in Merged(raws, file) && CreatedFrom(Merged(raws, file)[name], o)
  {
    if file != [] {
      MergedFromFirst(raws, file[..|file| - 1], name);
      MergedStep(raws, file, name);
    }
  }

  /** Each of the four fields then is what the last override of the name says that says anything. */
  lemma {:induction false} MergedNewField<T(!new)>(
      raws: RawProviders, file: seq<Override>, name: string, p: Patch<T>, none: T)
    requires name !in raws && name != "" && Patches(p) && forall o :: p.field(Created(o)) == none
    ensures if name in Merged(raws, file) then p.field(Merged(raws, file)[name]) == LastSaid(file, name, p.says, none)
            else LastSaid(file, name, p.says, none) == none
  {
    if file != [] {
      MergedNewField(raws, file[..|file| - 1], name, p, none);
      MergedStep(raws, file, name);
    }
  }

  lemma NothingCreated(o: Override)
    ensures AuthMethod().field(Created(o)) == BindIp().field(Created(o)) == UserAgent().field(Created(o)) == ""
    ensures !DisableApiKey().field(Created(o))
  {
  }
}
