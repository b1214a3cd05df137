/**
 The store of imported extensions: what each change does to the stored list, the order the
 operator sets, and what survives a re-import.
 */
module ExtensionStore {
  import opened Common

  /** The fields the store reads or writes; manifest stands for all the others. */
  datatype Extension = Extension(
    id: string,
    name: string,
    kind: string,
    order: int,
    config: map<string, string>,
    applied: bool,
    builtin: bool,
    source: string,
    manifest: nat)

  predicate UniqueIds(xs: seq<Extension>) {
    forall i, j :: 0 <= i < j < |xs| ==> xs[i].id != xs[j].id
  }

  function IdsOf(xs: seq<Extension>): (ids: seq<string>)
    ensures |ids| == |xs|
    ensures forall i :: 0 <= i < |xs| ==> ids[i] == xs[i].id
  {
    seq(|xs|, i requires 0 <= i < |xs| => xs[i].id)
  }

  predicate Stored(xs: seq<Extension>, id: string) {
    exists i :: 0 <= i < |xs| && xs[i].id == id
  }

  /** The position of the first record with that id, |xs| when there is none. */
  function IndexOf(xs: seq<Extension>, id: string): (n: nat)
    ensures n <= |xs|
    ensures n < |xs| ==> xs[n].id == id
    ensures forall i :: 0 <= i < n ==> xs[i].id != id
  {
    if xs == [] || xs[0].id == id then 0 else 1 + IndexOf(xs[1..], id)
  }

  // ------------------------------------------------------------ what each change means

  /** Incoming keys win. */
  function MergeConfig(existing: map<string, string>, incoming: map<string, string>): (m: map<string, string>)
    ensures m.Keys == existing.Keys + incoming.Keys
    ensures forall k :: k in m ==> m[k] == if k in incoming then incoming[k] else existing[k]
  {
    if |existing| == 0 then incoming else if |incoming| == 0 then existing else existing + incoming
  }

  /** An import over an existing record: the operator's state is kept. */
  function Reimported(e: Extension, ext: Extension): Extension {
    ext.(builtin := false,
         name := e.name,
         applied := e.applied,
         order := if ext.order == 0 then e.order else ext.order,
         config := MergeConfig(ext.config, e.config),
         source := if ext.source == "" then e.source else ext.source)
  }

  function Imported(xs: seq<Extension>, ext: Extension): seq<Extension> {
    var n := IndexOf(xs, ext.id);
    if n < |xs| then xs[n := Reimported(xs[n], ext)] else xs + [ext.(builtin := false)]
  }

  function Upserted(xs: seq<Extension>, ext: Extension): seq<Extension> {
    var n := IndexOf(xs, ext.id);
    if n < |xs| then xs[n := ext.(builtin := false, config := MergeConfig(xs[n].config, ext.config))]
    else xs + [ext.(builtin := false)]
  }

  function WithoutConfig(xs: seq<Extension>, id: string): seq<Extension> {
    var n := IndexOf(xs, id);
    if n < |xs| then xs[n := xs[n].(config := map[])] else xs
  }

  function Deleted(xs: seq<Extension>, id: string): seq<Extension> {
    var n := IndexOf(xs, id);
    if n < |xs| then xs[..n] + xs[n + 1..] else xs
  }

  function OtherThemesOff(xs: seq<Extension>, id: string): (r: seq<Extension>)
    ensures |r| == |xs|
    ensures forall i :: 0 <= i < |xs| ==> r[i] == ThemeOff(xs[i], id)
  {
    seq(|xs|, i requires 0 <= i < |xs| => ThemeOff(xs[i], id))
  }

  function ThemeOff(e: Extension, id: string): Extension {
    if e.applied && e.kind == "theme" && e.id != id then e.(applied := false) else e
  }

  datatype OrderError = Duplicate(id: string) | NotFound(id: string)

  /** The first id of the list that is a repeat or is not stored. */
  function FirstBad(xs: seq<Extension>, ids: seq<string>): (r: Option<OrderError>)
    ensures r.None? <==> Distinct(ids) && forall id :: id in ids ==> Stored(xs, id)
    ensures r.Some? && r.value.Duplicate? ==> !Distinct(ids)
    ensures r.Some? && r.value.NotFound? ==> r.value.id in ids && !Stored(xs, r.value.id)
  {
    if ids == [] then None
    else
      var n := |ids| - 1;
      assert ids == ids[..n] + [ids[n]];
      assert forall id :: id in ids[..n] ==> id in ids;
      if FirstBad(xs, ids[..n]).Some? then FirstBad(xs, ids[..n])
      else if ids[n] in ids[..n] then Some(Duplicate(ids[n]))
      else if !Stored(xs, ids[n]) then assert ids[n] in ids; Some(NotFound(ids[n]))
      else None
  }

  function Position(ids: seq<string>, id: string): (n: nat)
    ensures n <= |ids|
    ensures n < |ids| ==> ids[n] == id
    ensures id in ids ==> n < |ids|
  {
    if ids == [] || ids[0] == id then 0 else 1 + Position(ids[1..], id)
  }

  function NewOrder(xs: seq<Extension>, ids: seq<string>, i: nat): nat
    requires i < |xs|
  {
    if xs[i].id in ids then Position(ids, xs[i].id) else |ids| + i
  }

  function Reordered(xs: seq<Extension>, ids: seq<string>): (r: seq<Extension>)
    ensures |r| == |xs|
    ensures forall i :: 0 <= i < |xs| ==> r[i] == xs[i].(order := NewOrder(xs, ids, i))
  {
    seq(|xs|, i requires 0 <= i < |xs| => xs[i].(order := NewOrder(xs, ids, i)))
  }

  // ------------------------------------------------------------ the store

  class Store {
    var imported: seq<Extension>

    constructor (loaded: seq<Extension>)
      ensures |imported| == |loaded|
      ensures forall i :: 0 <= i < |loaded| ==> imported[i] == loaded[i].(builtin := false)
    {
      imported := seq(|loaded|, i requires 0 <= i < |loaded| => loaded[i].(builtin := false));
    }

    method Get(id: string) returns (r: Option<Extension>)
      ensures r == var n := IndexOf(imported, id); if n < |imported| then Some(imported[n]) else None
    {
      for i := 0 to |imported|
        invariant forall j :: 0 <= j < i ==> imported[j].id != id
      {
        if imported[i].id == id { return Some(imported[i]); }
      }
      r := None;
    }

    method Upsert(ext: Extension)
      modifies this
      ensures imported == Upserted(old(imported), ext)
    {
      var e := ext.(builtin := false);
      for i := 0 to |imported|
        invariant imported == old(imported)
        invariant forall j :: 0 <= j < i ==> imported[j].id != ext.id
      {
        if imported[i].id == ext.id {
          assert IndexOf(imported, ext.id) == i;
          e := e.(config := MergeConfig(imported[i].config, e.config));
          imported := imported[i := e];
          return;
        }
      }
      assert IndexOf(imported, ext.id) == |imported|;
      imported := imported + [e];
    }

    method Import(ext: Extension)
      modifies this
      ensures imported == Imported(old(imported), ext)
    {
      var e := ext.(builtin := false);
      for i := 0 to |imported|
        invariant imported == old(imported)
        invariant forall j :: 0 <= j < i ==> imported[j].id != ext.id
      {
        var was := imported[i];
        if was.id == ext.id {
          assert IndexOf(imported, ext.id) == i;
          e := e.(name := was.name, applied := was.applied);
          if e.order == 0 { e := e.(order := was.order); }
          e := e.(config := MergeConfig(e.config, was.config));
          if e.source == "" { e := e.(source := was.source); }
          imported := imported[i := e];
          return;
        }
      }
      assert IndexOf(imported, ext.id) == |imported|;
      imported := imported + [e];
    }

    method ResetConfig(id: string) returns (found: bool)
      modifies this
      ensures found <==> Stored(old(imported), id)
      ensures imported == WithoutConfig(old(imported), id)
    {
      for i := 0 to |imported|
        invariant imported == old(imported)
        invariant forall j :: 0 <= j < i ==> imported[j].id != id
      {
        if imported[i].id == id {
          assert IndexOf(imported, id) == i;
          imported := imported[i := imported[i].(config := map[])];
          return true;
        }
      }
      found := false;
    }

    method Delete(id: string) returns (found: bool)
      modifies this
      ensures found <==> Stored(old(imported), id)
      ensures imported == Deleted(old(imported), id)
    {
      for i := 0 to |imported|
        invariant imported == old(imported)
        invariant forall j :: 0 <= j < i ==> imported[j].id != id
      {
        if imported[i].id == id {
          assert IndexOf(imported, id) == i;
          imported := imported[..i] + imported[i + 1..];
          return true;
        }
      }
      found := false;
    }

    /** The checking loop: where each listed id is to go, or the first id that cannot be. */
    method Positions(ids: seq<string>) returns (pos: map<string, nat>, error: Option<OrderError>)
      ensures error == FirstBad(imported, ids)
      ensures error.None? ==> pos.Keys == Elements(ids) && forall id :: id in pos ==> pos[id] == Position(ids, id)
    {
      pos := map[];
      for i := 0 to |ids|
        invariant FirstBad(imported, ids[..i]).None?
        invariant pos.Keys == Elements(ids[..i])
        invariant forall id :: id in pos ==> pos[id] == Position(ids, id)
      {
        var id := ids[i];
        NextId(imported, ids, i);
        if id in pos {
          return pos, Some(Duplicate(id));
        }
        var n := 0;
        while n < |imported| && imported[n].id != id
          invariant n <= |imported| && forall j :: 0 <= j < n ==> imported[j].id != id
        {
          n := n + 1;
        }
        if n == |imported| {
          return pos, Some(NotFound(id));
        }
        pos := pos[id := i];
      }
      assert ids[..|ids|] == ids;
      error := None;
    }

    /** A list with a repeat or an unknown id changes nothing. */
    method Reorder(ids: seq<string>) returns (r: Result<(), OrderError>)
      modifies this
      ensures match FirstBad(old(imported), ids)
              case Some(e) => r == Err(e) && imported == old(imported)
              case None => r == Ok(()) && imported == Reordered(old(imported), ids)
    {
      var pos, error := Positions(ids);
      if error.Some? { return Err(error.value); }
      for i := 0 to |imported|
        invariant |imported| == |old(imported)|
        invariant forall j :: 0 <= j < i ==> imported[j] == old(imported)[j].(order := NewOrder(old(imported), ids, j))
        invariant forall j :: i <= j < |imported| ==> imported[j] == old(imported)[j]
      {
        var id := imported[i].id;
        imported := imported[i := imported[i].(order := if id in pos then pos[id] else |ids| + i)];
      }
      r := Ok(());
    }

    method UnapplyThemesExcept(id: string)
      modifies this
      ensures imported == OtherThemesOff(old(imported), id)
    {
      for i := 0 to |imported|
        invariant |imported| == |old(imported)|
        invariant forall j :: 0 <= j < i ==> imported[j] == ThemeOff(old(imported)[j], id)
        invariant forall j :: i <= j < |imported| ==> imported[j] == old(imported)[j]
      {
        var e := imported[i];
        if e.applied && e.kind == "theme" && e.id != id {
          imported := imported[i := e.(applied := false)];
        }
      }
    }
  }

  /** A refusal names the first id of the list that repeats an earlier one or is not stored. */
  lemma FirstBadIs(xs: seq<Extension>, ids: seq<string>, i: nat)
    requires i < |ids| && Distinct(ids[..i]) && forall id :: id in ids[..i] ==> Stored(xs, id)
    ensures ids[i] in ids[..i] ==> FirstBad(xs, ids) == Some(Duplicate(ids[i]))
    ensures ids[i] !in ids[..i] && !Stored(xs, ids[i]) ==> FirstBad(xs, ids) == Some(NotFound(ids[i]))
  {
    NextId(xs, ids, i);
  }

  lemma {:induction false} BadStays(xs: seq<Extension>, ids: seq<string>, k: nat)
    requires k <= |ids| && FirstBad(xs, ids[..k]).Some?
    ensures FirstBad(xs, ids) == FirstBad(xs, ids[..k])
    decreases |ids| - k
  {
    if k == |ids| {
      assert ids[..k] == ids;
    } else {
      assert ids[..k + 1][..k] == ids[..k];
      BadStays(xs, ids, k + 1);
    }
  }

  /** What one turn of the checking loop decides. */
  lemma NextId(xs: seq<Extension>, ids: seq<string>, i: nat)
    requires i < |ids| && FirstBad(xs, ids[..i]).None?
    ensures Elements(ids[..i + 1]) == Elements(ids[..i]) + {ids[i]}
    ensures ids[i] in ids[..i] ==> FirstBad(xs, ids) == Some(Duplicate(ids[i]))
    ensures ids[i] !in ids[..i] ==> Position(ids, ids[i]) == i
    ensures ids[i] !in ids[..i] && !Stored(xs, ids[i]) ==> FirstBad(xs, ids) == Some(NotFound(ids[i]))
    ensures ids[i] !in ids[..i] && Stored(xs, ids[i]) ==> FirstBad(xs, ids[..i + 1]).None?
  {
    assert ids[..i + 1] == ids[..i] + [ids[i]];
    assert ids[..i + 1][..i] == ids[..i];
    if FirstBad(xs, ids[..i + 1]).Some? { BadStays(xs, ids, i + 1); }
    if ids[i] !in ids[..i] { PositionAt(ids, i); }
  }

  /** Position is the first occurrence. */
  lemma {:induction false} PositionAt(ids: seq<string>, i: nat)
    requires i < |ids| && ids[i] !in ids[..i]
    ensures Position(ids, ids[i]) == i
  {
    if i > 0 {
      assert ids[0] in ids[..i];
      assert ids[1..][..i - 1] == ids[..i][1..];
      PositionAt(ids[1..], i - 1);
    }
  }

  // ------------------------------------------------------------ ids over runs

  datatype Change =
    | Upsert(ext: Extension)
    | Import(ext: Extension)
    | ResetConfig(id: string)
    | Delete(id: string)
    | Reorder(ids: seq<string>)
    | UnapplyThemesExcept(id: string)

  function Apply(xs: seq<Extension>, c: Change): seq<Extension> {
    match c
    case Upsert(ext) => Upserted(xs, ext)
    case Import(ext) => Imported(xs, ext)
    case ResetConfig(id) => WithoutConfig(xs, id)
    case Delete(id) => Deleted(xs, id)
    case Reorder(ids) => if FirstBad(xs, ids).None? then Reordered(xs, ids) else xs
    case UnapplyThemesExcept(id) => OtherThemesOff(xs, id)
  }

  function Run(xs: seq<Extension>, changes: seq<Change>): seq<Extension> {
    if changes == [] then xs
    else Apply(Run(xs, changes[..|changes| - 1]), changes[|changes| - 1])
  }

  /** Whether an id is stored after a run: the last import or deletion of it decides. */
  predicate StoredAfter(xs: seq<Extension>, changes: seq<Change>, id: string) {
    if changes == [] then Stored(xs, id)
    else
      var c := changes[|changes| - 1];
      if (c.Upsert? || c.Import?) && c.ext.id == id then true
      else if c.Delete? && c.id == id then false
      else StoredAfter(xs, changes[..|changes| - 1], id)
  }

  lemma StoredIsIndex(xs: seq<Extension>, id: string)
    ensures Stored(xs, id) <==> IndexOf(xs, id) < |xs|
  {
  }

  lemma SameIds(xs: seq<Extension>, ys: seq<Extension>)
    requires IdsOf(xs) == IdsOf(ys)
    ensures UniqueIds(xs) ==> UniqueIds(ys)
    ensures forall id :: Stored(xs, id) <==> Stored(ys, id)
  {
    assert forall i :: 0 <= i < |xs| ==> xs[i].id == IdsOf(xs)[i] == IdsOf(ys)[i] == ys[i].id;
  }

  lemma AppendUnique(xs: seq<Extension>, e: Extension)
    requires UniqueIds(xs) && !Stored(xs, e.id)
    ensures UniqueIds(xs + [e])
    ensures forall id :: Stored(xs + [e], id) <==> Stored(xs, id) || id == e.id
  {
    var ys := xs + [e];
    assert ys[|xs|] == e;
    forall id | Stored(xs, id) ensures Stored(ys, id) {
      var i :| 0 <= i < |xs| && xs[i].id == id;
      assert ys[i].id == id;
    }
  }

  lemma DeleteUnique(xs: seq<Extension>, id: string)
    requires UniqueIds(xs)
    ensures UniqueIds(Deleted(xs, id))
    ensures !Stored(Deleted(xs, id), id)
    ensures forall x :: x != id ==> (Stored(Deleted(xs, id), x) <==> Stored(xs, x))
  {
    var n, ys := IndexOf(xs, id), Deleted(xs, id);
    if n < |xs| {
      forall i | 0 <= i < |ys| ensures ys[i] == xs[if i < n then i else i + 1] {}
      forall x | x != id && Stored(xs, x) ensures Stored(ys, x) {
        var i :| 0 <= i < |xs| && xs[i].id == x;
        assert ys[if i < n then i else i - 1].id == x;
      }
    }
  }

  lemma ApplyKeeps(xs: seq<Extension>, c: Change, id: string)
    requires UniqueIds(xs)
    ensures UniqueIds(Apply(xs, c))
    ensures Stored(Apply(xs, c), id) <==>
              if (c.Upsert? || c.Import?) && c.ext.id == id then true
              else if c.Delete? && c.id == id then false
              else Stored(xs, id)
  {
    var ys := Apply(xs, c);
    if c.Delete? {
      DeleteUnique(xs, c.id);
    } else if (c.Upsert? || c.Import?) && !Stored(xs, c.ext.id) {
      StoredIsIndex(xs, c.ext.id);
      AppendUnique(xs, c.ext.(builtin := false));
    } else {
      if c.Upsert? || c.Import? { StoredIsIndex(xs, c.ext.id); }
      assert IdsOf(ys) == IdsOf(xs);
      SameIds(xs, ys);
    }
  }

  /** From a duplicate-free store ids stay unique, and what is stored is what was last asked for. */
  lemma {:induction false} RunKeepsUnique(xs: seq<Extension>, changes: seq<Change>, id: string)
    requires UniqueIds(xs)
    ensures UniqueIds(Run(xs, changes))
    ensures Stored(Run(xs, changes), id) <==> StoredAfter(xs, changes, id)
  {
    if changes != [] {
      var n := |changes| - 1;
      RunKeepsUnique(xs, changes[..n], id);
      ApplyKeeps(Run(xs, changes[..n]), changes[n], id);
    }
  }

  // ------------------------------------------------------------ re-import

  lemma ReimportedAgain(e: Extension, ext: Extension)
    ensures Reimported(Reimported(e, ext), ext) == Reimported(e, ext)
    ensures Reimported(ext.(builtin := false), ext) == ext.(builtin := false)
  {
    var c := MergeConfig(ext.config, e.config);
    assert MergeConfig(ext.config, c) == c;
    assert MergeConfig(ext.config, ext.config) == ext.config;
  }

  /** Importing the same document again changes nothing. */
  lemma ImportIdempotent(xs: seq<Extension>, ext: Extension)
    ensures Imported(Imported(xs, ext), ext) == Imported(xs, ext)
  {
    var n, ys := IndexOf(xs, ext.id), Imported(xs, ext);
    ReimportedAgain(if n < |xs| then xs[n] else ext, ext);
    assert ys[n].id == ext.id && forall j :: 0 <= j < n ==> ys[j] == xs[j];
    assert IndexOf(ys, ext.id) == n;
  }

  /** A re-import keeps the operator's name, applied flag and saved values; other records stay. */
  lemma ImportKeepsOperatorState(xs: seq<Extension>, ext: Extension, i: nat)
    requires UniqueIds(xs) && i < |xs|
    ensures var e, f := xs[i], Imported(xs, ext)[i];
            && f.id == e.id && f.name == e.name && f.applied == e.applied
            && (forall k :: k in e.config ==> k in f.config && f.config[k] == e.config[k])
            && (ext.id != e.id ==> f == e)
            && (ext.id == e.id ==>
                  && (forall k :: k in f.config ==> k in e.config || (k in ext.config && f.config[k] == ext.config[k]))
                  && f.order == (if ext.order == 0 then e.order else ext.order)
                  && f.source == (if ext.source == "" then e.source else ext.source)
                  && f.kind == ext.kind && f.manifest == ext.manifest && !f.builtin)
  {
  }

  // ------------------------------------------------------------ upsert, reset and deletion

  /** Apart from its saved values and the flag of a shipped record, f is the record e. */
  ghost predicate SameButConfig(f: Extension, e: Extension) {
    f == e.(builtin := f.builtin, config := f.config)
  }

  /**
   An upsert puts the new record in the place of the stored one: values it brings win, the saved
   ones it does not mention stay; the other records stay as they are.
   */
  lemma UpsertReplaces(xs: seq<Extension>, ext: Extension, i: nat)
    requires UniqueIds(xs) && i < |xs|
    ensures |Upserted(xs, ext)| == |xs| + if Stored(xs, ext.id) then 0 else 1
    ensures var e, f := xs[i], Upserted(xs, ext)[i];
            if e.id != ext.id then f == e
            else
              && SameButConfig(f, ext) && !f.builtin
              && f.config.Keys == e.config.Keys + ext.config.Keys
              && (forall k :: k in ext.config ==> f.config[k] == ext.config[k])
              && (forall k :: k in e.config && k !in ext.config ==> f.config[k] == e.config[k])
  {
    StoredIsIndex(xs, ext.id);
  }

  /** A record that is not stored is added at the end, as it is but for the flag. */
  lemma NewIsAppended(xs: seq<Extension>, ext: Extension)
    requires !Stored(xs, ext.id)
    ensures Upserted(xs, ext) == Imported(xs, ext)
    ensures |Upserted(xs, ext)| == |xs| + 1 && Upserted(xs, ext)[..|xs|] == xs
    ensures var f := Upserted(xs, ext)[|xs|]; SameButConfig(f, ext) && f.config == ext.config && !f.builtin
  {
    StoredIsIndex(xs, ext.id);
  }

  /** A reset forgets the saved values of one record, so that an import brings the shipped ones. */
  lemma ResetThenImport(xs: seq<Extension>, ext: Extension, i: nat)
    requires UniqueIds(xs) && i < |xs|
    ensures var ys := WithoutConfig(xs, ext.id);
            && |ys| == |xs|
            && ys[i] == (if xs[i].id == ext.id then xs[i].(config := map[]) else xs[i])
            && (xs[i].id == ext.id ==> Imported(ys, ext)[i].config == ext.config)
  {
    var ys := WithoutConfig(xs, ext.id);
    assert IdsOf(ys) == IdsOf(xs);
    SameIds(xs, ys);
    if xs[i].id == ext.id {
      ImportKeepsOperatorState(ys, ext, i);
      StoredIsIndex(xs, ext.id);
      assert IndexOf(ys, ext.id) == i;
    }
  }

  /** A deletion takes the one record out and leaves the others in their order. */
  lemma DeletionLeavesOthers(xs: seq<Extension>, i: nat)
    requires UniqueIds(xs) && i < |xs|
    ensures Deleted(xs, xs[i].id) == xs[..i] + xs[i + 1..]
    ensures forall id :: !Stored(xs, id) ==> Deleted(xs, id) == xs
  {
    forall id | !Stored(xs, id) ensures Deleted(xs, id) == xs { StoredIsIndex(xs, id); }
    assert IndexOf(xs, xs[i].id) == i;
  }

  // ------------------------------------------------------------ themes

  /** Afterwards at most one theme is applied, and it is the one named. */
  lemma OneThemeLeft(xs: seq<Extension>, id: string)
    requires UniqueIds(xs)
    ensures var ys := OtherThemesOff(xs, id);
            && (forall i :: 0 <= i < |ys| && ys[i].applied && ys[i].kind == "theme" ==> ys[i].id == id)
            && (forall i, j :: 0 <= i < j < |ys| && ys[i].applied && ys[j].applied ==>
                  ys[i].kind != "theme" || ys[j].kind != "theme")
            && |ys| == |xs|
            && (forall i :: 0 <= i < |ys| ==> ys[i] == xs[i].(applied := ys[i].applied))
            && (forall i :: 0 <= i < |ys| && (xs[i].kind != "theme" || xs[i].id == id) ==> ys[i] == xs[i])
  {
    var ys := OtherThemesOff(xs, id);
    forall i | 0 <= i < |ys| ensures ys[i].id == xs[i].id {}
  }

  // ------------------------------------------------------------ order

  predicate OrderLe(a: Extension, b: Extension) {
    a.order <= b.order
  }

  /** The records not listed, in stored order. */
  function Rest(xs: seq<Extension>, ids: seq<string>): (r: seq<Extension>)
    ensures forall e :: e in r <==> e in xs && e.id !in ids
  {
    if xs == [] then []
    else
      var n := |xs| - 1;
      assert xs == xs[..n] + [xs[n]];
      Rest(xs[..n], ids) + if xs[n].id in ids then [] else [xs[n]]
  }

  lemma RestStep(xs: seq<Extension>, ids: seq<string>, k: nat)
    requires 0 < k <= |xs|
    ensures Rest(xs[..k], ids) == Rest(xs[..k - 1], ids) + if xs[k - 1].id in ids then [] else [xs[k - 1]]
  {
    assert xs[..k][..k - 1] == xs[..k - 1];
  }

  /** The ids not listed, in stored order. */
  function Others(stored: seq<string>, ids: seq<string>): seq<string> {
    if stored == [] then []
    else
      var n := |stored| - 1;
      Others(stored[..n], ids) + if stored[n] in ids then [] else [stored[n]]
  }

  lemma {:induction false} RestIds(xs: seq<Extension>, ids: seq<string>)
    ensures IdsOf(Rest(xs, ids)) == Others(IdsOf(xs), ids)
  {
    if xs != [] {
      var n := |xs| - 1;
      RestIds(xs[..n], ids);
      assert IdsOf(xs)[..n] == IdsOf(xs[..n]);
      if xs[n].id !in ids {
        IdsConcat(Rest(xs[..n], ids), [xs[n]]);
        assert IdsOf([xs[n]]) == [xs[n].id];
      }
    }
  }

  lemma IdsConcat(xs: seq<Extension>, ys: seq<Extension>)
    ensures IdsOf(xs + ys) == IdsOf(xs) + IdsOf(ys)
  {
  }

  predicate Increasing(xs: seq<Extension>) {
    forall i, j :: 0 <= i < j < |xs| ==> xs[i].order < xs[j].order
  }

  lemma {:induction false} RestIncreasing(xs: seq<Extension>, ids: seq<string>, k: nat)
    requires k <= |xs|
    ensures var r := Rest(Reordered(xs, ids)[..k], ids);
            Increasing(r) && forall e :: e in r ==> |ids| <= e.order < |ids| + k
  {
    if k > 0 {
      RestIncreasing(xs, ids, k - 1);
      RestStep(Reordered(xs, ids), ids, k);
    }
  }

  function Find(xs: seq<Extension>, id: string): (e: Extension)
    requires Stored(xs, id)
    ensures e in xs && e.id == id
  {
    StoredIsIndex(xs, id);
    xs[IndexOf(xs, id)]
  }

  /** The listed records, in the order of the list. */
  function Listed(xs: seq<Extension>, ids: seq<string>): (r: seq<Extension>)
    requires forall id :: id in ids ==> Stored(xs, id)
    ensures |r| == |ids|
    ensures forall p :: 0 <= p < |ids| ==> r[p] in xs && r[p].id == ids[p]
  {
    seq(|ids|, p requires 0 <= p < |ids| => Find(xs, ids[p]))
  }

  lemma ListedOrders(xs: seq<Extension>, ids: seq<string>)
    requires UniqueIds(xs) && Distinct(ids) && forall id :: id in ids ==> Stored(Reordered(xs, ids), id)
    ensures var l := Listed(Reordered(xs, ids), ids);
            && (forall p :: 0 <= p < |ids| ==> l[p].order == p)
            && (forall e :: e in Reordered(xs, ids) && e.id in ids ==> e in l)
  {
    var rs := Reordered(xs, ids);
    var l := Listed(rs, ids);
    forall i | 0 <= i < |rs| ensures rs[i].id == xs[i].id {}
    forall p | 0 <= p < |ids| ensures l[p].order == p {
      var i :| 0 <= i < |rs| && rs[i] == l[p];
      assert xs[i].id == ids[p];
      assert ids[Position(ids, ids[p])] == ids[p];
    }
    forall e | e in rs && e.id in ids ensures e in l {
      var i :| 0 <= i < |rs| && rs[i] == e;
      var p := Position(ids, e.id);
      var j :| 0 <= j < |rs| && rs[j] == l[p];
      assert xs[i].id == xs[j].id;
    }
  }

  lemma IncreasingConcat(xs: seq<Extension>, ys: seq<Extension>, n: nat)
    requires Increasing(ys) && forall p :: 0 <= p < |xs| ==> xs[p].order == p < n
    requires forall e :: e in ys ==> n <= e.order
    ensures Increasing(xs + ys)
  {
  }

  /** zs is the reordered records, written down in their new order. */
  ghost predicate InOrder(zs: seq<Extension>, xs: seq<Extension>, ids: seq<string>) {
    && Increasing(zs) && IdsOf(zs) == ids + Others(IdsOf(xs), ids)
    && forall e :: e in zs <==> e in Reordered(xs, ids)
  }

  lemma SomeInOrder(xs: seq<Extension>, ids: seq<string>)
    requires UniqueIds(xs) && Distinct(ids) && forall id :: id in ids ==> Stored(Reordered(xs, ids), id)
    ensures exists zs :: InOrder(zs, xs, ids)
  {
    var rs := Reordered(xs, ids);
    ListedOrders(xs, ids);
    RestIncreasing(xs, ids, |xs|);
    RestIds(rs, ids);
    assert rs[..|xs|] == rs;
    assert IdsOf(rs) == IdsOf(xs);
    var listed, rest := Listed(rs, ids), Rest(rs, ids);
    var zs := listed + rest;
    assert Increasing(zs) by { IncreasingConcat(listed, rest, |ids|); }
    IdsConcat(listed, rest);
    assert IdsOf(listed) == ids;
    assert forall e :: e in listed ==> e in rs;
    assert InOrder(zs, xs, ids);
  }

  /**
   After a reorder all orders differ, and listing the records by order gives the listed ids
   first and then the others as they were stored: a listed record's order is its place in the
   list, any other's is its stored place after all of them.
   */
  lemma ReorderGivesOrder(xs: seq<Extension>, ids: seq<string>, ys: seq<Extension>)
    requires UniqueIds(xs) && FirstBad(xs, ids).None?
    requires multiset(ys) == multiset(Reordered(xs, ids)) && Sorted(ys, OrderLe)
    ensures IdsOf(ys) == ids + Others(IdsOf(xs), ids)
    ensures Increasing(ys)
    ensures forall i :: 0 <= i < |xs| ==> xs[i].(order := Reordered(xs, ids)[i].order) == Reordered(xs, ids)[i]
    ensures forall i, k :: 0 <= i < |xs| && 0 <= k < |ids| && xs[i].id == ids[k] ==> Reordered(xs, ids)[i].order == k
    ensures forall i :: 0 <= i < |xs| && xs[i].id !in ids ==> Reordered(xs, ids)[i].order == |ids| + i
  {
    var rs := Reordered(xs, ids);
    assert IdsOf(rs) == IdsOf(xs);
    SameIds(xs, rs);
    SomeInOrder(xs, ids);
    var zs :| InOrder(zs, xs, ids);
    IncreasingDistinct(zs);
    assert Elements(zs) == Elements(rs);
    DistinctIsMultiset(zs);
    DistinctIsMultiset(rs);
    MultisetMembers(zs, ys);
    SortedUnique(zs, ys, OrderLe);
  }

  lemma IncreasingDistinct(xs: seq<Extension>)
    requires Increasing(xs)
    ensures Distinct(xs) && Sorted(xs, OrderLe)
    ensures forall x, y :: x in xs && y in xs && OrderLe(x, y) && OrderLe(y, x) ==> x == y
  {
  }
}
