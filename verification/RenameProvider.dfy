/**
 The rename branch of the provider update: the override store gets the entry under its new
 name and a disabled entry under the old one, and managed pools follow.
 */
module RenameProvider {
  import opened Common
  import P = Providers
  import Q = Pools

  datatype RenameError = EmptyName | NameTaken | PoolNameTaken

  /** The provider names the dashboard knows: the static inventory and the enabled overrides. */
  ghost predicate Known(configured: seq<string>, m: P.Overrides, name: string) {
    name != "" && ((exists c :: c in configured && Trim(c) == name) || P.HasEnabled(m, name))
  }

  class Handler {
    const providers: P.ProviderOverrideStore
    const pools: Q.PoolOverrideStore
    const configured: seq<string>
    const livePools: set<string>

    constructor (
        providers: P.ProviderOverrideStore, pools: Q.PoolOverrideStore,
        configured: seq<string>, livePools: set<string>)
      ensures this.providers == providers && this.pools == pools
      ensures this.configured == configured && this.livePools == livePools
    {
      this.providers := providers;
      this.pools := pools;
      this.configured := configured;
      this.livePools := livePools;
    }

    method ProviderNames() returns (names: set<string>)
      ensures forall n :: n in names <==> Known(configured, providers.overrides, n)
    {
      names := {};
      for i := 0 to |configured|
        invariant forall n :: n in names <==> n != "" && exists c :: c in configured[..i] && Trim(c) == n
      {
        assert configured[..i + 1] == configured[..i] + [configured[i]];
        var n := Trim(configured[i]);
        if n != "" { names := names + {n}; }
      }
      assert configured[..|configured|] == configured;
      var configs := providers.RawConfigs();
      names := names + configs.Keys;
    }

    method Validate(oldName: string, newName: string) returns (e: Option<RenameError>)
      ensures e == if newName != oldName && Known(configured, providers.overrides, newName) then Some(NameTaken)
                   else if newName in livePools then Some(PoolNameTaken) else None
    {
      var names := ProviderNames();
      var rest := names;
      while rest != {}
        invariant rest <= names
        invariant newName != oldName && newName in names ==> newName in rest
        decreases rest
      {
        var name :| name in rest;
        rest := rest - {name};
        if name == oldName { continue; }
        if name == newName { return Some(NameTaken); }
      }
      if newName in livePools { return Some(PoolNameTaken); }
      e := None;
    }

    /** A refused rename changes nothing. */
    method Rename(updated: P.Override, name: string, rawNewName: string) returns (e: Option<RenameError>)
      requires updated.name == name
      modifies providers, pools
      ensures e == if Trim(rawNewName) == "" then Some(EmptyName)
                   else if Trim(rawNewName) != name && Known(configured, old(providers.overrides), Trim(rawNewName))
                   then Some(NameTaken)
                   else if Trim(rawNewName) in livePools then Some(PoolNameTaken) else None
      ensures e.Some? ==> providers.overrides == old(providers.overrides) && pools.View() == old(pools.View())
      ensures e.None? ==>
        && providers.overrides == P.Renamed(old(providers.overrides), updated, name, Trim(rawNewName))
        && pools.pools == Q.RenameAll(old(pools.pools), name, Trim(rawNewName))
        && pools.deleted == old(pools.deleted)
    {
      var newName := Trim(rawNewName);
      if newName == "" { return Some(EmptyName); }
      e := Validate(name, newName);
      if e.Some? { return; }
      providers.Upsert(updated.(name := newName));
      providers.Upsert(P.Disabled(updated, name));
      pools.RenameMembers(name, newName);
    }
  }

  /**
   With an inventory that lists the static providers, a new name the validation accepts is not
   running; and it takes the place of the old one, and nothing else changes, if and only if the
   entry is enabled and no disabled entry is stored under another spelling of the new name.
   */
  lemma AcceptedRenameSwaps(
      base: set<string>, configured: seq<string>, m: P.Overrides, updated: P.Override, name: string, newName: string)
    requires P.Keyed(m) && forall b :: b in base ==> b in configured
    requires Trim(name) == name && Trim(newName) == newName && newName != "" && name != newName
    requires !Known(configured, m, newName)
    ensures !P.Running(base, m, newName)
    ensures P.Swapped(base, m, P.Renamed(m, updated, name, newName), name, newName) <==>
            updated.IsEnabled() && !P.OtherSpelling(m, newName, false)
  {
    P.RenameSwapsName(base, m, updated, name, newName);
  }

  /**
   The validation does not see a switched-off entry stored with blanks around the new name:
   it accepts the rename, and then neither name is running.
   */
  lemma AcceptedRenameMayStop(m: P.Overrides, updated: P.Override, name: string, newName: string, spelling: string)
    requires Trim(name) == name && Trim(spelling) == newName && spelling != newName && newName != "" && name != newName
    requires updated.name == name != "" && updated.IsEnabled()
    requires m == map[name := updated, spelling := P.Disabled(updated, spelling)]
    ensures P.Running({}, m, name) && !Known([], m, newName)
    ensures var m' := P.Renamed(m, updated, name, newName);
            !P.Running({}, m', name) && !P.Running({}, m', newName)
  {
    var m' := P.Renamed(m, updated, name, newName);
    assert m.Keys == {name, spelling} && m[name] == updated && m[spelling] == P.Disabled(updated, spelling);
    assert P.HasEnabled(m, name);
    assert m'[name] == P.Disabled(updated, name) && m'[spelling] == m[spelling];
    assert P.HasDisabled(m', name) && P.HasDisabled(m', newName);
  }

  /**
   In every managed pool the new name is fresh in, the rename keeps count, order,
   distinctness and total weight, forgets the old name, and is undone by renaming back.
   */
  lemma RenameKeepsPools(pools: Q.PoolMap, name: string, newName: string, pool: string)
    requires pool in pools && name != newName && Q.FreshMember(pools[pool], newName)
    ensures var p, r := pools[pool], Q.RenameAll(pools, name, newName)[pool];
            && |r.members| == |p.members|
            && (forall i :: 0 <= i < |p.members| ==>
                  r.members[i] == if p.members[i] == name then newName else p.members[i])
            && name !in r.members && name !in r.weights
            && (Distinct(p.members) ==> Distinct(r.members))
            && Q.TotalWeight(r.weights) == Q.TotalWeight(p.weights)
            && Q.RenameAll(Q.RenameAll(pools, name, newName), newName, name)[pool] == p
  {
    var p := pools[pool];
    Q.RenameForgetsOld(p, name, newName);
    if Distinct(p.members) { Q.RenameKeepsDistinct(p, name, newName); }
    Q.RenameKeepsTotal(p, name, newName);
    Q.RenameBackRestores(p, name, newName);
  }

  /**
   The validation does not look at pools' members: it accepts the name of a switched-off
   provider that is still a member, and the pool then lists the name twice.
   */
  lemma AcceptedRenameMayRepeatMember(m: P.Overrides, updated: P.Override, name: string, newName: string, p: Q.Pool)
    requires name != newName && newName != ""
    requires m == map[name := updated, newName := P.Disabled(updated, newName)]
    requires updated.name == name && Trim(name) == name && Trim(newName) == newName
    requires p.members == [name, newName]
    ensures !Known([], m, newName)
    ensures Distinct(p.members)
    ensures !Distinct(Q.RenamePool(p, name, newName).members)
  {
    Q.RenameKeepsDistinct(p, name, newName);
  }
}
