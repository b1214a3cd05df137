/**
 Dashboard-managed load-balancing pools over the static ones: creating, deleting,
 persisting, merging into the runtime, and following a provider through a rename.
 */
module Pools {
  import opened Common

  /** autofetch_filter is not carried: the source's own clone drops it. */
  datatype Pool = Pool(
    members: seq<string>,
    strategy: string,
    weights: map<string, int>,
    healthAware: Option<bool>,
    userAgent: string,
    autoFetchModels: Option<bool>)

  type PoolMap = map<string, Pool>

  datatype Store = Store(pools: PoolMap, deleted: set<string>)

  // ------------------------------------------------------------ members

  /** Trimmed, non-blank, first appearance kept. */
  function Members(raws: seq<string>): seq<string> {
    Dedup(NonBlank(raws))
  }

  lemma MembersSpec(raws: seq<string>)
    ensures Distinct(Members(raws))
    ensures forall m :: m in Members(raws) <==> m != "" && exists r :: r in raws && Trim(r) == m
  {
    DedupSpec(NonBlank(raws));
    forall m ensures m in Members(raws) <==> m != "" && exists r :: r in raws && Trim(r) == m {
      NonBlankMembers(raws, m);
      assert m in Members(raws) <==> m in Elements(Members(raws));
    }
  }

  method NormalizeMembers(raws: seq<string>) returns (out: seq<string>)
    ensures out == Members(raws)
  {
    var seen: set<string> := {};
    out := [];
    for i := 0 to |raws|
      invariant out == Members(raws[..i]) && seen == Elements(out)
    {
      assert raws[..i + 1][..i] == raws[..i];
      var m := Trim(raws[i]);
      ghost var before := NonBlank(raws[..i]);
      assert before + [] == before && (before + [m])[..|before|] == before;
      if m != "" && m !in seen {
        assert Elements(out + [m]) == Elements(out) + {m};
        seen := seen + {m};
        out := out + [m];
      }
    }
    assert raws[..|raws|] == raws;
  }

  // ------------------------------------------------------------ renaming a member

  function RenameIn(members: seq<string>, oldName: string, newName: string): (r: seq<string>)
    ensures |r| == |members|
    ensures forall i :: 0 <= i < |r| ==> r[i] == if members[i] == oldName then newName else members[i]
  {
    seq(|members|, i requires 0 <= i < |members| => if members[i] == oldName then newName else members[i])
  }

  function MoveWeight(weights: map<string, int>, oldName: string, newName: string): map<string, int> {
    if oldName in weights then (weights - {oldName})[newName := weights[oldName]] else weights
  }

  function RenamePool(p: Pool, oldName: string, newName: string): Pool {
    p.(members := RenameIn(p.members, oldName, newName), weights := MoveWeight(p.weights, oldName, newName))
  }

  function RenameAll(pools: PoolMap, oldName: string, newName: string): PoolMap {
    map name | name in pools :: RenamePool(pools[name], oldName, newName)
  }

  ghost function TotalWeight(weights: map<string, int>): int {
    SumOf(weights, Weight)
  }

  function Weight(w: int): int { w }

  lemma TotalWithout(weights: map<string, int>, k: string)
    requires k in weights
    ensures TotalWeight(weights) == weights[k] + TotalWeight(weights - {k})
  {
    SumWithout(weights, Weight, k);
  }

  /** The new name is used neither as a member nor as a weight key. */
  ghost predicate FreshMember(p: Pool, name: string) {
    name !in p.members && name !in p.weights
  }

  /** The old name is gone; every member keeps its place; the new one stands where it stood. */
  lemma RenameForgetsOld(p: Pool, oldName: string, newName: string)
    requires oldName != newName
    ensures var r := RenamePool(p, oldName, newName);
            && |r.members| == |p.members|
            && oldName !in r.members && oldName !in r.weights
            && (forall i :: 0 <= i < |p.members| && p.members[i] != oldName ==> r.members[i] == p.members[i])
            && (forall i :: 0 <= i < |p.members| && p.members[i] == oldName ==> r.members[i] == newName)
  {
  }

  /** A rename keeps the members distinct exactly when it does not merge two of them. */
  lemma RenameKeepsDistinct(p: Pool, oldName: string, newName: string)
    requires Distinct(p.members) && oldName != newName
    ensures Distinct(RenamePool(p, oldName, newName).members) <==> !(oldName in p.members && newName in p.members)
  {
    var r := RenameIn(p.members, oldName, newName);
    if oldName in p.members && newName in p.members {
      var i :| 0 <= i < |p.members| && p.members[i] == oldName;
      var j :| 0 <= j < |p.members| && p.members[j] == newName;
      assert r[i] == r[j];
    }
  }

  /** A rename keeps the total weight exactly when no non-zero weight is overwritten. */
  lemma RenameKeepsTotal(p: Pool, oldName: string, newName: string)
    requires oldName != newName
    ensures TotalWeight(RenamePool(p, oldName, newName).weights) == TotalWeight(p.weights) <==>
            !(oldName in p.weights && newName in p.weights && p.weights[newName] != 0)
  {
    var w := p.weights;
    if oldName in w {
      var rest := w - {oldName};
      var w' := MoveWeight(w, oldName, newName);
      TotalWithout(w, oldName);
      TotalWithout(w', newName);
      if newName in w {
        TotalWithout(rest, newName);
        assert w' - {newName} == rest - {newName};
      } else {
        assert w' - {newName} == rest;
      }
    }
  }

  /** Renaming there and back restores a pool exactly when the new name was fresh in it. */
  lemma RenameBackRestores(p: Pool, oldName: string, newName: string)
    requires oldName != newName
    ensures RenamePool(RenamePool(p, oldName, newName), newName, oldName) == p <==> FreshMember(p, newName)
  {
    var r := RenamePool(p, oldName, newName);
    var b := RenamePool(r, newName, oldName);
    if newName in p.members {
      var i :| 0 <= i < |p.members| && p.members[i] == newName;
      assert b.members[i] == oldName;
    } else {
      assert b.members == p.members;
    }
    if newName in p.weights {
      assert newName !in b.weights;
    } else {
      assert b.weights == p.weights;
    }
  }

  // ------------------------------------------------------------ the store

  function Upserted(s: Store, name: string, p: Pool): Store {
    Store(s.pools[Trim(name) := p], s.deleted - {Trim(name)})
  }

  function Deleted(s: Store, name: string): Store {
    Store(s.pools - {Trim(name)}, s.deleted + {Trim(name)})
  }

  /** The runtime pools: static minus deleted, overridden by the managed ones. */
  function Applied(s: Store, base: PoolMap): PoolMap {
    (base - s.deleted) + s.pools
  }

  /** The persisted document. */
  datatype Document = Document(pools: PoolMap, deleted: seq<string>)

  function LoadedDeleted(names: seq<string>): set<string> {
    set n | n in names && Trim(n) != "" :: Trim(n)
  }

  class PoolOverrideStore {
    var pools: PoolMap
    var deleted: set<string>

    ghost function View(): Store
      reads this
    {
      Store(pools, deleted)
    }

    /** None stands for a missing or malformed document. */
    constructor (file: Option<Document>)
      ensures View() == match file case None => Store(map[], {}) case Some(d) => Store(d.pools, LoadedDeleted(d.deleted))
    {
      pools, deleted := map[], {};
      new;
      if file.Some? {
        pools := file.value.pools;
        var names := file.value.deleted;
        for i := 0 to |names|
          invariant pools == file.value.pools && deleted == LoadedDeleted(names[..i])
        {
          assert names[..i + 1] == names[..i] + [names[i]];
          var n := Trim(names[i]);
          if n != "" { deleted := deleted + {n}; }
        }
        assert names[..|names|] == names;
      }
    }

    method Save() returns (d: Document)
      ensures d.pools == pools && Elements(d.deleted) == deleted && Distinct(d.deleted) && Sorted(d.deleted, StrLe)
    {
      var flags: map<string, bool> := map n | n in deleted :: true;
      var names := SortedKeys(flags);
      d := Document(pools, names);
    }

    method Has(name: string) returns (managed: bool)
      ensures managed <==> Trim(name) in pools && Trim(name) !in deleted
    {
      if Trim(name) in deleted { return false; }
      managed := Trim(name) in pools;
    }

    method Upsert(name: string, p: Pool)
      modifies this
      ensures View() == Upserted(old(View()), name, p)
    {
      deleted := deleted - {Trim(name)};
      pools := pools[Trim(name) := p];
    }

    method Delete(name: string)
      modifies this
      ensures View() == Deleted(old(View()), name)
    {
      pools := pools - {Trim(name)};
      deleted := deleted + {Trim(name)};
    }

    method RenameMembers(oldName: string, newName: string)
      modifies this`pools
      ensures pools == RenameAll(old(pools), oldName, newName)
    {
      var rest := pools.Keys;
      while rest != {}
        invariant rest <= old(pools).Keys && pools.Keys == old(pools).Keys
        invariant forall n :: n in pools ==>
          pools[n] == if n in rest then old(pools)[n] else RenamePool(old(pools)[n], oldName, newName)
        decreases rest
      {
        var name :| name in rest;
        var raw := RenameOne(pools[name], oldName, newName);
        pools := pools[name := raw];
        rest := rest - {name};
      }
    }

    method ApplyToRawPools(base: PoolMap) returns (out: PoolMap)
      ensures out == Applied(View(), base)
    {
      out := base;
      var gone := deleted;
      while gone != {}
        invariant gone <= deleted && out == base - (deleted - gone)
        decreases gone
      {
        var name :| name in gone;
        out := out - {name};
        gone := gone - {name};
      }
      assert deleted - gone == deleted;
      ghost var left := out;
      var rest := pools.Keys;
      while rest != {}
        invariant rest <= pools.Keys
        invariant out.Keys == left.Keys + (pools.Keys - rest)
        invariant forall n :: n in out ==> out[n] == if n in pools && n !in rest then pools[n] else left[n]
        decreases rest
      {
        var name :| name in rest;
        out := out[name := pools[name]];
        rest := rest - {name};
      }
    }
  }

  /** One pool through the member loop and the weight move. */
  method RenameOne(raw: Pool, oldName: string, newName: string) returns (r: Pool)
    ensures r == RenamePool(raw, oldName, newName)
  {
    var changed := false;
    var members: seq<string> := [];
    for i := 0 to |raw.members|
      invariant members == RenameIn(raw.members[..i], oldName, newName)
      invariant !changed ==> members == raw.members[..i]
    {
      var m := raw.members[i];
      if m == oldName {
        members := members + [newName];
        changed := true;
      } else {
        members := members + [m];
      }
    }
    assert raw.members[..|raw.members|] == raw.members;
    var weights := raw.weights;
    if oldName in weights {
      var w := weights[oldName];
      weights := weights - {oldName};
      weights := weights[newName := w];
      changed := true;
    }
    r := if changed then raw.(members := members, weights := weights) else raw;
  }

  /** Trimmed, non-blank names: what every handler passes to Delete. */
  ghost predicate Plain(names: set<string>) {
    forall n :: n in names ==> n != "" && Trim(n) == n
  }

  /** Loading what Save wrote gives the same store exactly when the deleted names are plain. */
  lemma SaveLoadRestores(s: Store, d: Document)
    requires d.pools == s.pools && Elements(d.deleted) == s.deleted
    ensures Store(d.pools, LoadedDeleted(d.deleted)) == s <==> Plain(s.deleted)
  {
    forall n | n in s.deleted ensures n in d.deleted {
      assert n in Elements(d.deleted);
    }
    forall n | n in d.deleted ensures n in s.deleted {
      assert n in Elements(d.deleted);
    }
    if LoadedDeleted(d.deleted) == s.deleted {
      forall n | n in s.deleted ensures n != "" && Trim(n) == n {
        var raw :| raw in d.deleted && Trim(raw) != "" && Trim(raw) == n;
        TrimFixed(raw);
      }
    }
  }

  // ------------------------------------------------------------ runs

  datatype Op = Upsert(name: string, pool: Pool) | Delete(name: string) | Rename(oldName: string, newName: string)

  function Do(s: Store, op: Op): Store {
    match op
    case Upsert(n, p) => Upserted(s, n, p)
    case Delete(n) => Deleted(s, n)
    case Rename(o, n) => s.(pools := RenameAll(s.pools, o, n))
  }

  function Run(s: Store, ops: seq<Op>): Store {
    if ops == [] then s else Do(Run(s, ops[..|ops| - 1]), ops[|ops| - 1])
  }

  /**
   From a disjoint store, over every run of edits: deleted and managed names stay disjoint,
   the runtime pools are the static ones minus the deleted ones plus the managed ones, and
   managed definitions win.
   */
  lemma {:induction false} RunsStayDisjoint(s: Store, ops: seq<Op>, base: PoolMap)
    requires s.pools.Keys !! s.deleted
    ensures var t := Run(s, ops);
            && t.pools.Keys !! t.deleted
            && Applied(t, base).Keys == (base.Keys - t.deleted) + t.pools.Keys
            && (forall n :: n in t.pools ==> Applied(t, base)[n] == t.pools[n])
            && (forall n :: n in base && n !in t.deleted && n !in t.pools ==> Applied(t, base)[n] == base[n])
            && (forall n :: n in t.deleted ==> n !in Applied(t, base))
  {
    if ops != [] {
      RunsStayDisjoint(s, ops[..|ops| - 1], base);
    }
  }

  /** An edited pool runs as it was edited, a deleted one not at all, and the others as they did. */
  lemma EditsTakeEffect(s: Store, base: PoolMap, name: string, p: Pool, other: string)
    requires other != Trim(name)
    ensures var now, up, down := Applied(s, base), Applied(Upserted(s, name, p), base), Applied(Deleted(s, name), base);
            && Trim(name) in up && up[Trim(name)] == p
            && Trim(name) !in down
            && (other in up <==> other in now) && (other in down <==> other in now)
            && (other in now ==> up[other] == now[other] && down[other] == now[other])
  {
  }

  /** Runs whose Delete names are non-blank keep the deleted names plain, hence persistable. */
  lemma {:induction false} RunsStayPlain(s: Store, ops: seq<Op>)
    requires Plain(s.deleted) && forall op :: op in ops && op.Delete? ==> Trim(op.name) != ""
    ensures Plain(Run(s, ops).deleted)
  {
    if ops != [] {
      var init, last := ops[..|ops| - 1], ops[|ops| - 1];
      assert ops == init + [last];
      forall op | op in init && op.Delete? ensures Trim(op.name) != "" { assert op in ops; }
      RunsStayPlain(s, init);
      if last.Delete? {
        assert last in ops;
        TrimFixed(last.name);
      }
    }
  }
}
