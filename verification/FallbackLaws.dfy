/**
 What the editor keeps of a submitted list, what the older forms of the rules file mean, where the
 dashboard and the loader disagree about a file, and what the modes are.
 */
module FallbackLaws {
  import opened Common
  import opened Json
  import opened Fallback

  // ------------------------------------------------------------ what the editor keeps

  /** The rule names a model and a target, blanks apart. */
  predicate Names(r: Rule) {
    Trim(r.source) != "" && NonBlank(r.targets) != []
  }

  /** Of the submitted rules that name anything the i-th is the first for its model. */
  ghost predicate FirstFor(rules: seq<Rule>, i: nat)
    requires i < |rules|
  {
    Names(rules[i]) && forall j :: 0 <= j < i && Names(rules[j]) ==> Trim(rules[j].source) != Trim(rules[i].source)
  }

  lemma {:induction false} FirstOnesHold(cs: seq<Rule>, k: nat, i: nat)
    requires k <= |cs| && i < k && First(cs, i)
    ensures cs[i] in FirstOnes(cs, k)
  {
    if i < k - 1 { FirstOnesHold(cs, k - 1, i); }
  }

  /**
   The editor keeps exactly the first rule of every model, with blanks around its texts and blank
   targets dropped, and enabled or not as it was.
   */
  lemma NormalizedKeeps(rules: seq<Rule>, r: Rule)
    ensures r in Normalized(rules) <==>
            exists i: nat :: i < |rules| && FirstFor(rules, i) &&
              r == Rule(Trim(rules[i].source), NonBlank(rules[i].targets), rules[i].enabled)
  {
    var cs := Cleaned(rules);
    forall i: nat | i < |rules| ensures First(cs, i) <==> FirstFor(rules, i) {
      forall j: nat | j < |rules| ensures Usable(cs[j]) <==> Names(rules[j]) {}
    }
    if r in Normalized(rules) {
      var k: nat :| k < |Normalized(rules)| && Normalized(rules)[k] == r;
      FirstOnesFrom(cs, |rules|, k);
      var i: nat :| i < |rules| && First(cs, i) && cs[i] == r;
      assert FirstFor(rules, i);
    }
    if i: nat :| i < |rules| && FirstFor(rules, i) && r == Rule(Trim(rules[i].source), NonBlank(rules[i].targets), rules[i].enabled) {
      FirstOnesHold(cs, |rules|, i);
    }
  }

  lemma {:induction false} FirstOnesPrefix(cs: seq<Rule>, ds: seq<Rule>, k: nat)
    requires cs <= ds && k <= |cs|
    ensures FirstOnes(cs, k) == FirstOnes(ds, k)
  {
    if k > 0 { FirstOnesPrefix(cs, ds, k - 1); }
  }

  lemma {:induction false} FirstOnesGrow(cs: seq<Rule>, k: nat, n: nat)
    requires k <= n <= |cs|
    ensures FirstOnes(cs, k) <= FirstOnes(cs, n)
  {
    if k < n { FirstOnesGrow(cs, k, n - 1); }
  }

  /** It keeps them in the order submitted: rules that come later are put after those kept so far. */
  lemma NormalizedInOrder(rules: seq<Rule>, more: seq<Rule>)
    ensures Normalized(rules) <= Normalized(rules + more)
  {
    var cs, ds := Cleaned(rules), Cleaned(rules + more);
    assert cs <= ds;
    FirstOnesPrefix(cs, ds, |rules|);
    FirstOnesGrow(ds, |rules|, |rules + more|);
  }

  // ------------------------------------------------------------ what the reader shows of a list

  lemma {:induction false} UsableIff(es: seq<Option<Rule>>, k: nat, r: Rule)
    requires k <= |es|
    ensures r in UsableOnes(es, k) <==> Usable(r) && exists i :: 0 <= i < k && es[i] == Some(r)
  {
    if k > 0 { UsableIff(es, k - 1, r); }
  }

  lemma {:induction false} UsableGrow(es: seq<Option<Rule>>, k: nat, n: nat)
    requires k <= n <= |es|
    ensures UsableOnes(es, k) <= UsableOnes(es, n)
  {
    if k < n { UsableGrow(es, k, n - 1); }
  }

  /** The entry comes to r: it names a model and a target, blanks apart, and r is it trimmed, with its flag. */
  predicate ComesTo(e: Rule, r: Rule) {
    Names(e) && r == Rule(Trim(e.source), NonBlank(e.targets), e.enabled)
  }

  lemma EntriesKept(rules: seq<Rule>, r: Rule)
    ensures r in UsableOnes(ArrayEntries(rules), |rules|) <==> exists i :: 0 <= i < |rules| && ComesTo(rules[i], r)
  {
    var es := ArrayEntries(rules);
    UsableIff(es, |es|, r);
    forall i | 0 <= i < |rules| ensures ComesTo(rules[i], r) <==> Usable(r) && es[i] == Some(r) {}
  }

  /** Of the entries of a list the reader shows exactly what those come to that name anything. */
  lemma ReadKeeps(env: Env, text: string, items: seq<Json>, rules: seq<Rule>, r: Rule)
    requires Walks(env) && Trim(text) != "" && Trim(text)[0] == '['
    requires env.parse(Trim(text)) == Some(Arr(items)) && DecodeAll(items, DecodeRule) == Some(rules)
    ensures Read(env, text).Some?
    ensures r in Read(env, text).value <==> exists i :: 0 <= i < |rules| && ComesTo(rules[i], r)
  {
    EntriesKept(rules, r);
    assert Read(env, text) == Collected(ArrayEntries(rules));
  }

  // ------------------------------------------------------------ the older object form

  /** A rule in the older form: an object with targets and flag. */
  function LegacyValue(r: Rule): Json {
    Obj([Member("targets", Texts(r.targets)), Member("enabled", Bool(r.enabled))])
  }

  /** data holds the rules in the older form; an enabled one may lack the flag, or be just the list. */
  ghost predicate LegacyOf(data: map<string, Json>, rules: seq<Rule>) {
    && (forall k :: k in data <==> exists i :: 0 <= i < |rules| && rules[i].source == k)
    && (forall i :: 0 <= i < |rules| ==> rules[i].source in data && IsLegacy(data[rules[i].source], rules[i]))
  }

  predicate IsLegacy(j: Json, r: Rule) {
    || j == LegacyValue(r)
    || (r.enabled && (j == Texts(r.targets) || j == Obj([Member("targets", Texts(r.targets))])))
  }

  lemma LegacyFields(r: Rule)
    ensures var ms := LegacyValue(r).members;
            TextsField(ms, "targets") == Some(r.targets) && FlagField(ms, "enabled") == Some(Some(r.enabled))
    ensures var ms := [Member("targets", Texts(r.targets))];
            TextsField(ms, "targets") == Some(r.targets) && FlagField(ms, "enabled") == Some(None)
  {
    FieldNames();
    TextsRoundTrip(r.targets);
    var m1, m2 := Member("targets", Texts(r.targets)), Member("enabled", Bool(r.enabled));
    var ms := LegacyValue(r).members;
    assert ms[..1] == [m1] && [m1][..0] == [];
    assert TextsField([m1], "targets") == Some(r.targets);
    assert FlagField([m1], "enabled") == Some(None);
  }

  lemma LegacyDecodes(j: Json, r: Rule)
    requires IsLegacy(j, r)
    ensures DecodeValue(j) == Some(Targets(r.targets, r.enabled)) && !j.Null?
  {
    LegacyFields(r);
    TextsRoundTrip(r.targets);
  }

  /** What the loader makes of a clean rule. */
  function LiveRow(r: Rule): Row<seq<string>> {
    Row(r.source, if r.enabled then On(r.targets) else Off)
  }

  lemma LegacyRule(j: Json, r: Rule)
    requires IsLegacy(j, r) && IsClean(r) && Usable(r)
    ensures LegacyRow(r.source, j) == LiveRow(r)
    ensures LegacyEntry(r.source, j) == Some(r)
  {
    LegacyDecodes(j, r);
    assert r == CleanRule(r);
  }

  /** Position n of the walk holds the i-th rule. */
  predicate Meets(order: seq<string>, rules: seq<Rule>, n: int, i: int) {
    0 <= n < |order| && 0 <= i < |rules| && order[n] == rules[i].source
  }

  ghost predicate OfRule(order: seq<string>, rules: seq<Rule>, n: int) {
    exists i :: Meets(order, rules, n, i)
  }

  ghost predicate OnWalk(order: seq<string>, rules: seq<Rule>, i: int) {
    exists n :: Meets(order, rules, n, i)
  }

  lemma WalkMeetsRules(rules: seq<Rule>, data: map<string, Json>, order: seq<string>)
    requires LegacyOf(data, rules) && IsWalk(order, data.Keys)
    ensures forall n :: 0 <= n < |order| ==> order[n] in data && OfRule(order, rules, n)
    ensures forall i :: 0 <= i < |rules| ==> OnWalk(order, rules, i)
  {
    forall n | 0 <= n < |order| ensures order[n] in data && OfRule(order, rules, n) {
      assert order[n] in Elements(order);
      var i :| 0 <= i < |rules| && rules[i].source == order[n];
      assert Meets(order, rules, n, i);
    }
    forall i | 0 <= i < |rules| ensures OnWalk(order, rules, i) {
      assert rules[i].source in Elements(order);
      var n :| 0 <= n < |order| && order[n] == rules[i].source;
      assert Meets(order, rules, n, i);
    }
  }

  lemma MetRow(rules: seq<Rule>, data: map<string, Json>, order: seq<string>, n: int, i: int)
    requires Normal(rules) && LegacyOf(data, rules) && IsWalk(order, data.Keys) && Meets(order, rules, n, i)
    ensures LegacyRows(data, order)[n] == LiveRow(rules[i])
    ensures LegacyEntries(data, order)[n] == Some(rules[i])
    ensures Usable(rules[i])
  {
    assert IsClean(rules[i]) && Usable(rules[i]) && IsLegacy(data[rules[i].source], rules[i]);
    LegacyRule(data[order[n]], rules[i]);
  }

  lemma LegacyRowsLoad(rules: seq<Rule>, order: seq<string>, rows: seq<Row<seq<string>>>)
    requires Distinct(order) && |rows| == |order|
    requires forall n, i :: Meets(order, rules, n, i) ==> rows[n] == LiveRow(rules[i]) && Usable(rules[i])
    requires forall n :: 0 <= n < |order| ==> OfRule(order, rules, n)
    requires forall i :: 0 <= i < |rules| ==> OnWalk(order, rules, i)
    ensures Live(rows, |rows|).Some?
    ensures LiveRules(rules, Live(rows, |rows|).value)
  {
    LiveIff(rows, |rows|);
    forall n | 0 <= n < |rows| ensures rows[n].key == order[n] != "" && !rows[n].use.Bad? {
      assert OfRule(order, rules, n);
      var i :| Meets(order, rules, n, i);
    }
    var m := Live(rows, |rows|).value;
    forall i | 0 <= i < |rules| && rules[i].enabled ensures rules[i].source in m && m[rules[i].source] == rules[i].targets {
      assert OnWalk(order, rules, i);
      var n :| Meets(order, rules, n, i);
      assert rows[n].use.On?;
    }
    forall key | key in m ensures exists i :: 0 <= i < |rules| && rules[i].enabled && rules[i].source == key {
      var n :| 0 <= n < |rows| && rows[n].use.On? && rows[n].key == key;
      assert OfRule(order, rules, n);
      var i :| Meets(order, rules, n, i);
      assert rules[i].enabled;
    }
  }

  /** Rules in the older form load, in whatever order the keys are walked, and the enabled ones go live. */
  lemma LegacyLoads(rules: seq<Rule>, data: map<string, Json>, order: seq<string>)
    requires Normal(rules) && LegacyOf(data, rules) && IsWalk(order, data.Keys)
    ensures Live(LegacyRows(data, order), |order|).Some?
    ensures LiveRules(rules, Live(LegacyRows(data, order), |order|).value)
  {
    WalkMeetsRules(rules, data, order);
    forall n, i | Meets(order, rules, n, i)
      ensures LegacyRows(data, order)[n] == LiveRow(rules[i]) && Usable(rules[i])
    {
      MetRow(rules, data, order, n, i);
    }
    LegacyRowsLoad(rules, order, LegacyRows(data, order));
  }

  lemma CollectsRules(rules: seq<Rule>, order: seq<string>, es: seq<Option<Rule>>)
    requires |es| == |order|
    requires forall n, i :: Meets(order, rules, n, i) ==> es[n] == Some(rules[i]) && Usable(rules[i])
    requires forall n :: 0 <= n < |order| ==> OfRule(order, rules, n)
    requires forall i :: 0 <= i < |rules| ==> OnWalk(order, rules, i)
    ensures Collected(es).Some?
    ensures forall r :: r in Collected(es).value <==> r in rules
  {
    forall n | 0 <= n < |es| ensures es[n].Some? && es[n].value in rules && Usable(es[n].value) {
      assert OfRule(order, rules, n);
      var i :| Meets(order, rules, n, i);
    }
    UsableAreAll(es, |es|);
    forall r | r in rules ensures r in UsableOnes(es, |es|) {
      var i :| 0 <= i < |rules| && rules[i] == r;
      assert OnWalk(order, rules, i);
      var n :| Meets(order, rules, n, i);
      assert es[n] == Some(r);
    }
  }

  /** And the dashboard shows exactly them. */
  lemma LegacyReadsBack(rules: seq<Rule>, data: map<string, Json>, order: seq<string>)
    requires Normal(rules) && LegacyOf(data, rules) && IsWalk(order, data.Keys)
    ensures Collected(LegacyEntries(data, order)).Some?
    ensures forall r :: r in Collected(LegacyEntries(data, order)).value <==> r in rules
  {
    WalkMeetsRules(rules, data, order);
    forall n, i | Meets(order, rules, n, i)
      ensures LegacyEntries(data, order)[n] == Some(rules[i]) && Usable(rules[i])
    {
      MetRow(rules, data, order, n, i);
    }
    CollectsRules(rules, order, LegacyEntries(data, order));
  }

  lemma {:induction false} UsableAreAll(es: seq<Option<Rule>>, k: nat)
    requires k <= |es| && forall i :: 0 <= i < k ==> es[i].Some? && Usable(es[i].value)
    ensures forall r :: r in UsableOnes(es, k) <==> exists i :: 0 <= i < k && es[i] == Some(r)
  {
    if k > 0 { UsableAreAll(es, k - 1); }
  }

  // ------------------------------------------------------------ what other values come to

  /** A value is a list of texts, an object, or null; anything else is refused. */
  lemma ValueIff(j: Json)
    ensures DecodeValue(j).Some? <==>
            || j.Null?
            || (j.Arr? && forall i :: 0 <= i < |j.items| ==> TextOrNull(j.items[i]))
            || (j.Obj? && TextsField(j.members, "targets").Some? && FlagField(j.members, "enabled").Some?)
  {
  }

  /** An entry of the file is skipped exactly when its flag is off, and refused without targets to read. */
  lemma EntryUse(e: ArrayEntry)
    ensures ArrayRow(e).key == Trim(e.source)
    ensures ArrayRow(e).use.Off? <==> e.enabled == Some(false)
    ensures ArrayRow(e).use.Bad? <==> e.enabled != Some(false) && (e.targets.None? || DecodeValue(e.targets.value).None?)
    ensures ArrayRow(e).use.On? ==> ArrayRow(e).use.value == NonBlank(DecodeValue(e.targets.value).value.models)
  {
  }

  /** A value of the older form is refused when it is null or does not decode, skipped when its flag is off. */
  lemma LegacyUse(key: string, raw: Json)
    ensures var row, v := LegacyRow(key, raw), DecodeValue(raw);
            && row.key == Trim(key)
            && (row.use.Bad? <==> raw.Null? || v.None?)
            && (row.use.Off? <==> !raw.Null? && v.Some? && !v.value.enabled)
            && (row.use.On? ==> row.use.value == NonBlank(v.value.models))
  {
  }

  /** The value decodes and r is what it comes to under that key. */
  predicate Shows(key: string, raw: Json, r: Rule) {
    && !AllBlank(key) && DecodeValue(raw).Some? && Usable(r)
    && r == Rule(Trim(key), NonBlank(DecodeValue(raw).value.models), DecodeValue(raw).value.enabled)
  }

  lemma LegacyEntryIs(key: string, raw: Json, r: Rule)
    ensures LegacyEntry(key, raw).None? <==> !AllBlank(key) && DecodeValue(raw).None?
    ensures LegacyEntry(key, raw) == Some(r) && Usable(r) <==> Shows(key, raw, r)
  {
    BlankTrims(key);
  }

  /**
   The reader fails on an object exactly when a value that does not decode stands under a key that
   is not blank; otherwise it shows exactly what the values under such keys come to.
   */
  lemma LegacyReadIff(data: map<string, Json>, order: seq<string>, r: Rule)
    requires IsWalk(order, data.Keys)
    ensures var c := Collected(LegacyEntries(data, order));
            && (c.None? <==> exists k :: k in data && !AllBlank(k) && DecodeValue(data[k]).None?)
            && (c.Some? ==> (r in c.value <==> exists k :: k in data && Shows(k, data[k], r)))
  {
    var es := LegacyEntries(data, order);
    UsableIff(es, |es|, r);
    forall i | 0 <= i < |order|
      ensures es[i].None? <==> !AllBlank(order[i]) && DecodeValue(data[order[i]]).None?
      ensures es[i] == Some(r) && Usable(r) <==> Shows(order[i], data[order[i]], r)
    {
      LegacyEntryIs(order[i], data[order[i]], r);
    }
    forall k | k in data ensures exists i :: 0 <= i < |order| && order[i] == k { assert k in Elements(order); }
  }

  /** What an entry of the list says: its fields, or nothing when it is null. */
  lemma RuleMeans(j: Json)
    ensures DecodeRule(j).Some? <==>
            || j.Null?
            || (j.Obj? && TextField(j.members, "source").Some? && TextsField(j.members, "targets").Some? && BoolField(j.members, "enabled").Some?)
    ensures j.Obj? && DecodeRule(j).Some? ==>
              var r := DecodeRule(j).value;
              && TextField(j.members, "source") == Some(r.source)
              && TextsField(j.members, "targets") == Some(r.targets) && BoolField(j.members, "enabled") == Some(r.enabled)
    ensures j.Null? ==> !Names(DecodeRule(j).value)
  {
    BlankTrims("");
  }

  lemma EntryMeans(j: Json)
    ensures DecodeEntry(j).Some? <==>
            j.Null? || (j.Obj? && TextField(j.members, "source").Some? && FlagField(j.members, "enabled").Some?)
    ensures j.Obj? && DecodeEntry(j).Some? ==>
              var e := DecodeEntry(j).value;
              && TextField(j.members, "source") == Some(e.source)
              && RawField(j.members, "targets") == e.targets && FlagField(j.members, "enabled") == Some(e.enabled)
    ensures j.Null? ==> DecodeEntry(j).Some? && ArrayRow(DecodeEntry(j).value).key == ""
  {
    BlankTrims("");
  }

  /** So a null in the list is passed over by the dashboard and keeps the whole list from loading. */
  lemma NullEntryDisagrees(rows: seq<Row<seq<string>>>, i: nat)
    requires i < |rows| && rows[i] == ArrayRow(DecodeEntry(Null).value)
    ensures Live(rows, |rows|).None?
    ensures DecodeRule(Null).Some? && !Names(DecodeRule(Null).value)
  {
    EntryMeans(Null);
    RuleMeans(Null);
    LiveIff(rows, |rows|);
  }

  /** A text that is neither blank nor begins a list, and what it parses to. */
  predicate ParsesTo(env: Env, text: string, j: Option<Json>) {
    Trim(text) != "" && Trim(text)[0] != '[' && env.parse(Trim(text)) == j
  }

  predicate NoRules(j: Option<Json>) {
    j.None? || !(j.value.Arr? || j.value.Obj? || j.value.Null?)
  }

  /** To the reader blank text and null are no rules, and what is no object an error. */
  lemma OtherTextsRead(env: Env, text: string, j: Option<Json>)
    requires Walks(env)
    ensures AllBlank(text) ==> Read(env, text) == Some([])
    ensures ParsesTo(env, text, Some(Null)) ==> Read(env, text) == Some([])
    ensures ParsesTo(env, text, j) && NoRules(j) ==> Read(env, text) == None
  {
    BlankTrims(text);
  }

  /** So they are to the loader, once variables are expanded; blank text leaves no rules at all. */
  lemma OtherTextsLoad(env: Env, text: string, j: Option<Json>)
    requires Walks(env)
    ensures AllBlank(env.expand(text)) ==> Loaded(env, text) == Some(None)
    ensures ParsesTo(env, env.expand(text), Some(Null)) ==> Loaded(env, text) == Some(Some(map[]))
    ensures ParsesTo(env, env.expand(text), j) && NoRules(j) ==> Loaded(env, text) == None
  {
    BlankTrims(env.expand(text));
  }

  // ------------------------------------------------------------ what is shown and what is live

  /**
   The dashboard and the loader agree whether an entry of the list is enabled exactly when it says
   so: its last flag is not null, or the last flag that is not null is on.
   */
  lemma ShownAsLiveIff(ms: seq<Member>)
    requires DecodeRule(Obj(ms)).Some? && DecodeEntry(Obj(ms)).Some?
    ensures var flags := Given(ms, "enabled");
            (DecodeRule(Obj(ms)).value.enabled <==> !ArrayRow(DecodeEntry(Obj(ms)).value).use.Off?) <==>
            (flags != [] && !flags[|flags| - 1].Null?) || LastOf(flags) == Some(Bool(true))
  {
    FlagsSay(ms);
  }

  /** What the two kinds of flag make of the values given. */
  lemma FlagsSay(ms: seq<Member>)
    ensures var vs, b, f := Given(ms, "enabled"), BoolField(ms, "enabled"), FlagField(ms, "enabled");
            && (b.Some? <==> f.Some?)
            && (b.Some? ==> (b.value <==> LastOf(vs) == Some(Bool(true))))
            && (f.Some? ==> (f.value == Some(false) <==> vs != [] && vs[|vs| - 1] == Bool(false)))
            && (f.Some? && vs != [] && !vs[|vs| - 1].Null? ==> vs[|vs| - 1].Bool? && LastOf(vs) == Some(vs[|vs| - 1]))
  {
    BoolFieldMeans(ms, "enabled");
    FlagFieldMeans(ms, "enabled");
    var vs := Given(ms, "enabled");
    if vs != [] { assert vs[|vs| - 1] in vs; }
    if BoolField(ms, "enabled").Some? { assert forall v :: v in vs ==> BoolOrNull(v); }
  }

  /** An entry of the list without a flag. */
  function Unflagged(source: string, targets: seq<string>): seq<Member> {
    [Member("source", Str(source)), Member("targets", Texts(targets))]
  }

  lemma UnflaggedFields(source: string, targets: seq<string>)
    ensures var ms := Unflagged(source, targets);
            && TextField(ms, "source") == Some(source) && TextsField(ms, "targets") == Some(targets)
            && RawField(ms, "targets") == Some(Texts(targets))
            && BoolField(ms, "enabled") == Some(false) && FlagField(ms, "enabled") == Some(None)
  {
    FieldNames();
    TextsRoundTrip(targets);
    var ms := Unflagged(source, targets);
    assert ms[..1] == [ms[0]] && [ms[0]][..0] == [];
    assert TextField([ms[0]], "source") == Some(source) && TextsField([ms[0]], "targets") == Some([]);
    assert BoolField([ms[0]], "enabled") == Some(false) && FlagField([ms[0]], "enabled") == Some(None);
  }

  lemma DecodesAs(ms: seq<Member>, source: string, targets: seq<string>)
    requires TextField(ms, "source") == Some(source) && TextsField(ms, "targets") == Some(targets)
    requires RawField(ms, "targets") == Some(Texts(targets))
    requires BoolField(ms, "enabled") == Some(false) && FlagField(ms, "enabled") == Some(None)
    ensures DecodeRule(Obj(ms)) == Some(Rule(source, targets, false))
    ensures DecodeEntry(Obj(ms)) == Some(ArrayEntry(source, Some(Texts(targets)), None))
  {
  }

  /** So an entry without a flag is shown as switched off, and is live. */
  lemma MissingFlagIsLive(source: string, targets: seq<string>)
    ensures DecodeRule(Obj(Unflagged(source, targets))) == Some(Rule(source, targets, false))
    ensures var e := DecodeEntry(Obj(Unflagged(source, targets)));
            e.Some? && ArrayRow(e.value) == Row(Trim(source), On(NonBlank(targets)))
  {
    UnflaggedFields(source, targets);
    DecodesAs(Unflagged(source, targets), source, targets);
    TextsRoundTrip(targets);
  }

  // ------------------------------------------------------------ modes

  /** The text names one of the three modes, whatever its case and the blanks around it. */
  predicate NamesMode(text: string, mode: string) {
    EqualFold(Trim(text), mode)
  }

  predicate NamesSomeMode(text: string) {
    NamesMode(text, "off") || NamesMode(text, "manual") || NamesMode(text, "auto")
  }

  lemma LowerKeepsTrimmed(t: string)
    requires Trimmed(t)
    ensures Trim(ToLower(t)) == ToLower(t)
  {
    if t != "" { assert ToLower(t)[0] == ToLowerChar(t[0]) && ToLower(t)[|t| - 1] == ToLowerChar(t[|t| - 1]); }
    TrimFixed(ToLower(t));
  }

  lemma NormalModeFixed(mode: string)
    ensures NormalMode(NormalMode(mode)) == NormalMode(mode)
    ensures NormalMode(mode) == "" <==> AllBlank(mode)
  {
    BlankTrims(mode);
    LowerKeepsTrimmed(Trim(mode));
    assert ToLower(ToLower(Trim(mode))) == ToLower(Trim(mode));
    assert |NormalMode(mode)| == |Trim(mode)|;
  }

  lemma ValidIff(mode: string)
    ensures ValidMode(mode) <==> NamesSomeMode(mode)
  {
    assert ToLower("off") == "off" && ToLower("manual") == "manual" && ToLower("auto") == "auto";
  }

  /** The default mode is what is given, in lower case; manual where nothing is; and one of the three, or refused. */
  lemma DefaultModeIff(mode: string)
    ensures AllBlank(mode) ==> DefaultMode(mode) == "manual" && ValidMode(DefaultMode(mode))
    ensures !AllBlank(mode) ==> DefaultMode(mode) == ToLower(Trim(mode))
    ensures !AllBlank(mode) ==> (ValidMode(DefaultMode(mode)) <==> NamesSomeMode(mode))
  {
    NormalModeFixed(mode);
    ValidIff(mode);
    TrimFixed("manual");
    assert ToLower("manual") == "manual";
  }

  /**
   The overrides settle exactly when no key is blank, no two are the same but for blanks and every
   one names a mode; then each key, trimmed, has its mode in lower case.
   */
  lemma OverridesSettleIff(overrides: map<string, string>, order: seq<string>)
    requires IsWalk(order, overrides.Keys)
    ensures Live(OverrideRows(overrides, order), |order|).Some? <==>
            && (forall k :: k in overrides ==>
                  !AllBlank(k) && NamesSomeMode(overrides[k]))
            && (forall k1, k2 :: k1 in overrides && k2 in overrides && k1 != k2 ==> Trim(k1) != Trim(k2))
    ensures Live(OverrideRows(overrides, order), |order|).Some? ==>
            var m := Live(OverrideRows(overrides, order), |order|).value;
            && (forall k :: k in overrides ==> Trim(k) in m && m[Trim(k)] == ToLower(Trim(overrides[k])))
            && (forall t :: t in m ==> exists k :: k in overrides && Trim(k) == t)
  {
    var rows := OverrideRows(overrides, order);
    LiveIff(rows, |order|);
    forall i | 0 <= i < |order| ensures OverrideUse(order[i], overrides[order[i]], rows[i]) {
      OverrideRowUse(order[i], overrides[order[i]]);
    }
    forall k | k in overrides ensures exists i :: 0 <= i < |order| && order[i] == k { assert k in Elements(order); }
  }

  /** What one override comes to. */
  predicate OverrideUse(key: string, mode: string, row: Row<string>) {
    && row.key == Trim(key) && (row.key == "" <==> AllBlank(key)) && !row.use.Off?
    && (row.use.On? <==> NamesSomeMode(mode))
    && (row.use.On? ==> row.use.value == ToLower(Trim(mode)))
  }

  lemma OverrideRowUse(key: string, mode: string)
    ensures OverrideUse(key, mode, OverrideRow(key, mode))
  {
    BlankTrims(key);
    NormalModeFixed(mode);
    ValidIff(NormalMode(mode));
    ValidIff(mode);
  }

  // ------------------------------------------------------------ the rules of a path

  /** No path, no rules; a file that is missing or does not load is an error; otherwise its rules. */
  lemma ManualCases(env: Env, files: map<string, string>, path: string)
    requires Walks(env)
    ensures AllBlank(path) ==> ManualAt(env, files, path) == Ok(None)
    ensures !AllBlank(path) && Trim(path) !in files ==> ManualAt(env, files, path) == Err(CannotRead)
    ensures !AllBlank(path) && Trim(path) in files ==>
              match Loaded(env, files[Trim(path)])
              case None => ManualAt(env, files, path) == Err(BadRules)
              case Some(m) => ManualAt(env, files, path) == Ok(m)
  {
    BlankTrims(path);
  }
}
