/**
 Manual fallback rules: the dashboard editor that writes the rules file, the reader that
 shows it, and the loader that makes it live.
 */
module Fallback {
  import opened Common
  import opened Json

  datatype Rule = Rule(source: string, targets: seq<string>, enabled: bool)

  /**
   The text of JSON documents, the expansion of $-references, and the order in which a Go
   map is walked.
   */
  datatype Env = Env(
    parse: string -> Option<Json>,
    render: Json -> string,
    expand: string -> string,
    walk: set<string> -> seq<string>)

  ghost predicate Faithful(env: Env) {
    && (forall j: Json :: env.parse(env.render(j)) == Some(j))
    && (forall j: Json :: j.Arr? ==> Trimmed(env.render(j)) && env.render(j) != "" && env.render(j)[0] == '[')
    && (forall j: Json :: Plain(j) ==> '$' !in env.render(j))
    && (forall s: string :: '$' !in s ==> env.expand(s) == s)
  }

  predicate IsWalk(order: seq<string>, keys: set<string>) {
    Distinct(order) && Elements(order) == keys
  }

  /** Walking a map visits every key once. */
  ghost predicate Walks(env: Env) {
    forall keys: set<string> :: IsWalk(env.walk(keys), keys)
  }

  /** No text of the document holds a dollar sign. */
  predicate Plain(j: Json) {
    match j
    case Str(s) => '$' !in s
    case Arr(items) => forall i :: 0 <= i < |items| ==> Plain(items[i])
    case Obj(ms) => forall i :: 0 <= i < |ms| ==> '$' !in ms[i].key && Plain(ms[i].value)
    case _ => true
  }

  // ------------------------------------------------------------ the editor

  predicate CleanText(t: string) {
    t != "" && Trim(t) == t
  }

  method SanitizeTargets(targets: seq<string>) returns (out: seq<string>)
    ensures out == NonBlank(targets)
  {
    out := [];
    for i := 0 to |targets|
      invariant out == NonBlank(targets[..i])
    {
      assert targets[..i + 1][..i] == targets[..i];
      var t := Trim(targets[i]);
      if t != "" { out := out + [t]; }
    }
    assert targets[..|targets|] == targets;
  }

  lemma CleanStep(targets: seq<string>)
    requires targets != [] && CleanText(targets[|targets| - 1])
    ensures NonBlank(targets) == NonBlank(targets[..|targets| - 1]) + [targets[|targets| - 1]]
  {
  }

  lemma {:induction false} CleanFixed(targets: seq<string>)
    requires forall i :: 0 <= i < |targets| ==> CleanText(targets[i])
    ensures NonBlank(targets) == targets
  {
    if targets != [] {
      var n := |targets| - 1;
      assert CleanText(targets[n]);
      CleanStep(targets);
      CleanFixed(targets[..n]);
      assert targets == targets[..n] + [targets[n]];
    }
  }

  function CleanRule(r: Rule): Rule {
    Rule(Trim(r.source), NonBlank(r.targets), r.enabled)
  }

  predicate IsClean(r: Rule) {
    CleanRule(r) == r
  }

  function Cleaned(rules: seq<Rule>): (cs: seq<Rule>)
    ensures |cs| == |rules|
    ensures forall i :: 0 <= i < |rules| ==> cs[i] == CleanRule(rules[i])
  {
    seq(|rules|, i requires 0 <= i < |rules| => CleanRule(rules[i]))
  }

  predicate Usable(r: Rule) {
    r.source != "" && r.targets != []
  }

  /** The first usable rule of its source. */
  predicate First(cs: seq<Rule>, i: nat)
    requires i < |cs|
  {
    Usable(cs[i]) && forall j :: 0 <= j < i && Usable(cs[j]) ==> cs[j].source != cs[i].source
  }

  function FirstOnes(cs: seq<Rule>, k: nat): seq<Rule>
    requires k <= |cs|
  {
    if k == 0 then [] else FirstOnes(cs, k - 1) + if First(cs, k - 1) then [cs[k - 1]] else []
  }

  /** In submitted order, trimmed: the first usable rule of every source. */
  function Normalized(rules: seq<Rule>): seq<Rule> {
    FirstOnes(Cleaned(rules), |rules|)
  }

  /** cs holds the cleaned rules, position by position. */
  ghost predicate IsCleaned(cs: seq<Rule>, rules: seq<Rule>) {
    |cs| == |rules| && forall i {:trigger CleanRule(rules[i])} :: 0 <= i < |rules| ==> cs[i] == CleanRule(rules[i])
  }

  method CleanOne(rules: seq<Rule>, i: nat, ghost cs: seq<Rule>) returns (r: Rule)
    requires i < |rules| && IsCleaned(cs, rules)
    ensures r == cs[i]
  {
    var targets := SanitizeTargets(rules[i].targets);
    r := Rule(Trim(rules[i].source), targets, rules[i].enabled);
    assert r == CleanRule(rules[i]);
  }

  /** The editor's loop. */
  method KeepFirst(rules: seq<Rule>, ghost cs: seq<Rule>) returns (normalized: seq<Rule>)
    requires IsCleaned(cs, rules)
    ensures normalized == FirstOnes(cs, |cs|)
  {
    normalized := [];
    var seen: set<string> := {};
    for i := 0 to |rules|
      invariant normalized == FirstOnes(cs, i)
      invariant forall j :: 0 <= j < i && Usable(cs[j]) ==> cs[j].source in seen
      invariant forall s :: s in seen ==> exists j :: 0 <= j < i && Usable(cs[j]) && cs[j].source == s
    {
      var r := CleanOne(rules, i, cs);
      if r.source != "" && |r.targets| != 0 && r.source !in seen {
        seen := seen + {r.source};
        normalized := normalized + [r];
      }
    }
  }

  method Normalize(rules: seq<Rule>) returns (normalized: seq<Rule>)
    ensures normalized == Normalized(rules)
  {
    normalized := KeepFirst(rules, Cleaned(rules));
  }

  /** What the editor writes: trimmed usable rules with different sources. */
  predicate Normal(rules: seq<Rule>) {
    && (forall i :: 0 <= i < |rules| ==> Usable(rules[i]))
    && (forall i :: 0 <= i < |rules| ==> IsClean(rules[i]))
    && (forall i, j :: 0 <= i < j < |rules| ==> rules[i].source != rules[j].source)
  }

  lemma CleanRuleFixed(r: Rule)
    ensures IsClean(CleanRule(r))
  {
    TrimFixed(r.source);
    CleanFixed(NonBlank(r.targets));
  }

  lemma {:induction false} FirstOnesFrom(cs: seq<Rule>, k: nat, i: nat)
    requires k <= |cs| && i < |FirstOnes(cs, k)|
    ensures exists j: nat :: j < k && First(cs, j) && cs[j] == FirstOnes(cs, k)[i]
  {
    if i < |FirstOnes(cs, k - 1)| {
      FirstOnesFrom(cs, k - 1, i);
    } else {
      assert First(cs, k - 1);
    }
  }

  lemma {:induction false} FirstOnesDiffer(cs: seq<Rule>, k: nat, i: nat, j: nat)
    requires k <= |cs| && i < j < |FirstOnes(cs, k)|
    ensures FirstOnes(cs, k)[i].source != FirstOnes(cs, k)[j].source
  {
    if j < |FirstOnes(cs, k - 1)| {
      FirstOnesDiffer(cs, k - 1, i, j);
    } else {
      FirstOnesFrom(cs, k - 1, i);
    }
  }

  lemma {:induction false} NormalStays(rules: seq<Rule>, k: nat)
    requires k <= |rules| && forall i :: 0 <= i < |rules| ==> Usable(rules[i])
    requires forall i, j :: 0 <= i < j < |rules| ==> rules[i].source != rules[j].source
    ensures FirstOnes(rules, k) == rules[..k]
  {
    if k > 0 {
      NormalStays(rules, k - 1);
      assert rules[..k] == rules[..k - 1] + [rules[k - 1]];
    }
  }

  lemma NormalizedIsNormal(rules: seq<Rule>)
    ensures Normal(Normalized(rules))
  {
    var cs, ns := Cleaned(rules), Normalized(rules);
    forall i | 0 <= i < |ns| ensures Usable(ns[i]) && IsClean(ns[i]) {
      FirstOnesFrom(cs, |rules|, i);
      var j: nat :| j < |rules| && First(cs, j) && cs[j] == ns[i];
      CleanRuleFixed(rules[j]);
    }
    forall i, j | 0 <= i < j < |ns| ensures ns[i].source != ns[j].source {
      FirstOnesDiffer(cs, |rules|, i, j);
    }
  }

  lemma CleanedFixed(rules: seq<Rule>)
    requires forall i :: 0 <= i < |rules| ==> IsClean(rules[i])
    ensures Cleaned(rules) == rules
  {
    assert forall i :: 0 <= i < |rules| ==> IsClean(rules[i]) && Cleaned(rules)[i] == rules[i];
  }

  /** Normal lists are exactly the lists that normalising leaves alone. */
  lemma NormalIsFixed(rules: seq<Rule>)
    ensures Normalized(rules) == rules <==> Normal(rules)
  {
    NormalizedIsNormal(rules);
    if Normal(rules) {
      CleanedFixed(rules);
      NormalStays(rules, |rules|);
    }
  }

  // ------------------------------------------------------------ the file

  /** One entry of the file; an empty source would be omitted. */
  function RuleDoc(r: Rule): Json {
    Obj((if r.source == "" then [] else [Member("source", Str(r.source))]) +
        [Member("targets", Texts(r.targets)), Member("enabled", Bool(r.enabled))])
  }

  function Doc(rules: seq<Rule>): Json {
    Arr(seq(|rules|, i requires 0 <= i < |rules| => RuleDoc(rules[i])))
  }

  datatype Targets = Targets(models: seq<string>, enabled: bool)

  /** An array of targets, or an object with targets and an enabled flag. */
  function DecodeValue(j: Json): Option<Targets> {
    match j
    case Null => Some(Targets([], true))
    case Arr(items) =>
      (match TextsOf(items)
       case None => None
       case Some(models) => Some(Targets(models, true)))
    case Obj(ms) =>
      (match (TextsField(ms, "targets"), FlagField(ms, "enabled"))
       case (Some(models), Some(enabled)) => Some(Targets(models, enabled != Some(false)))
       case _ => None)
    case _ => None
  }

  // ------------------------------------------------------------ the reader

  function DecodeRule(j: Json): Option<Rule> {
    match j
    case Null => Some(Rule("", [], false))
    case Obj(ms) =>
      (match (TextField(ms, "source"), TextsField(ms, "targets"), BoolField(ms, "enabled"))
       case (Some(source), Some(targets), Some(enabled)) => Some(Rule(source, targets, enabled))
       case _ => None)
    case _ => None
  }

  /** A list whose entries may fail to decode keeps its usable ones, or fails. */
  function UsableOnes(es: seq<Option<Rule>>, k: nat): seq<Rule>
    requires k <= |es|
  {
    if k == 0 then []
    else
      var e := es[k - 1];
      UsableOnes(es, k - 1) + if e.Some? && Usable(e.value) then [e.value] else []
  }

  function Collected(es: seq<Option<Rule>>): Option<seq<Rule>> {
    if forall i :: 0 <= i < |es| ==> es[i].Some? then Some(UsableOnes(es, |es|)) else None
  }

  function ArrayEntries(rules: seq<Rule>): (es: seq<Option<Rule>>)
    ensures |es| == |rules|
    ensures forall i :: 0 <= i < |rules| ==> es[i] == Some(CleanRule(rules[i]))
  {
    seq(|rules|, i requires 0 <= i < |rules| => Some(CleanRule(rules[i])))
  }

  /** A blank key is skipped before its value is looked at. */
  function LegacyEntry(key: string, raw: Json): Option<Rule> {
    if Trim(key) == "" then Some(Rule("", [], false))
    else
      match DecodeValue(raw)
      case None => None
      case Some(t) => Some(CleanRule(Rule(key, t.models, t.enabled)))
  }

  function LegacyEntries(data: map<string, Json>, order: seq<string>): (es: seq<Option<Rule>>)
    requires Elements(order) == data.Keys
    ensures |es| == |order|
    ensures forall i :: 0 <= i < |order| ==> order[i] in data && es[i] == LegacyEntry(order[i], data[order[i]])
  {
    assert forall i :: 0 <= i < |order| ==> order[i] in Elements(order);
    seq(|order|, i requires 0 <= i < |order| => LegacyEntry(order[i], data[order[i]]))
  }

  /** What the reader makes of the file's text; None is an error. */
  function Read(env: Env, text: string): Option<seq<Rule>>
    requires Walks(env)
  {
    var trimmed := Trim(text);
    if trimmed == "" then Some([])
    else if trimmed[0] == '[' then
      match env.parse(trimmed)
      case Some(Arr(items)) =>
        (match DecodeAll(items, DecodeRule)
         case None => None
         case Some(rules) => Collected(ArrayEntries(rules)))
      case _ => None
    else
      match env.parse(trimmed)
      case Some(Null) => Some([])
      case Some(Obj(ms)) => Collected(LegacyEntries(RawMap(ms), env.walk(RawMap(ms).Keys)))
      case _ => None
  }

  method ReadArray(rules: seq<Rule>, ghost cs: seq<Rule>, ghost es: seq<Option<Rule>>) returns (out: seq<Rule>)
    requires IsCleaned(cs, rules) && |es| == |cs| && forall i :: 0 <= i < |cs| ==> es[i] == Some(cs[i])
    ensures Some(out) == Collected(es)
  {
    out := [];
    for i := 0 to |rules|
      invariant out == UsableOnes(es, i)
    {
      var r := CleanOne(rules, i, cs);
      if r.source != "" && |r.targets| != 0 { out := out + [r]; }
    }
  }

  ghost predicate AreLegacy(es: seq<Option<Rule>>, data: map<string, Json>, order: seq<string>) {
    && |es| == |order|
    && (forall i :: 0 <= i < |order| ==> order[i] in data)
    && forall i {:trigger data[order[i]]} :: 0 <= i < |order| ==> es[i] == LegacyEntry(order[i], data[order[i]])
  }

  method LegacyOne(data: map<string, Json>, order: seq<string>, i: nat, ghost es: seq<Option<Rule>>) returns (e: Option<Rule>)
    requires i < |order| && AreLegacy(es, data, order)
    ensures e == es[i]
  {
    var raw := data[order[i]];
    var source := Trim(order[i]);
    if source == "" { return Some(Rule("", [], false)); }
    var value := DecodeValue(raw);
    if value.None? { return None; }
    var targets := SanitizeTargets(value.value.models);
    e := Some(Rule(source, targets, value.value.enabled));
  }

  method ReadLegacy(data: map<string, Json>, order: seq<string>, ghost es: seq<Option<Rule>>) returns (r: Option<seq<Rule>>)
    requires AreLegacy(es, data, order)
    ensures r == Collected(es)
  {
    var out: seq<Rule> := [];
    for i := 0 to |order|
      invariant out == UsableOnes(es, i)
      invariant forall j :: 0 <= j < i ==> es[j].Some?
    {
      var e := LegacyOne(data, order, i, es);
      if e.None? { return None; }
      if e.value.source != "" && |e.value.targets| != 0 { out := out + [e.value]; }
    }
    r := Some(out);
  }

  method ReadFallbackRules(env: Env, text: string) returns (r: Option<seq<Rule>>)
    requires Walks(env)
    ensures r == Read(env, text)
  {
    var trimmed := Trim(text);
    if trimmed == "" { return Some([]); }
    var doc := env.parse(trimmed);
    if trimmed[0] == '[' {
      if doc.None? || !doc.value.Arr? { return None; }
      var rules := DecodeAll(doc.value.items, DecodeRule);
      if rules.None? { return None; }
      var out := ReadArray(rules.value, Cleaned(rules.value), ArrayEntries(rules.value));
      return Some(out);
    }
    if doc.None? { return None; }
    if doc.value.Null? { return Some([]); }
    if !doc.value.Obj? { return None; }
    var data := RawMap(doc.value.members);
    var order := env.walk(data.Keys);
    r := ReadLegacy(data, order, LegacyEntries(data, order));
  }

  lemma {:induction false} UsableStay(es: seq<Option<Rule>>, rules: seq<Rule>, k: nat)
    requires k <= |rules| == |es|
    requires forall i :: 0 <= i < |rules| ==> es[i] == Some(rules[i]) && Usable(rules[i])
    ensures UsableOnes(es, k) == rules[..k]
  {
    if k > 0 {
      UsableStay(es, rules, k - 1);
      assert rules[..k] == rules[..k - 1] + [rules[k - 1]];
    }
  }

  lemma FieldNames()
    ensures !EqualFold("source", "targets")
    ensures !EqualFold("source", "enabled")
    ensures !EqualFold("targets", "source")
    ensures !EqualFold("targets", "enabled")
    ensures !EqualFold("enabled", "source")
    ensures !EqualFold("enabled", "targets")
    ensures EqualFold("source", "source")
    ensures EqualFold("targets", "targets")
    ensures EqualFold("enabled", "enabled")
  {
    assert |ToLower("source")| == 6;
    assert ToLower("targets")[0] == 't' && ToLower("enabled")[0] == 'e';
  }

  lemma RuleDocFields(r: Rule)
    requires r.source != ""
    ensures var ms := RuleDoc(r).members;
            && TextField(ms, "source") == Some(r.source)
            && TextsField(ms, "targets") == Some(r.targets)
            && BoolField(ms, "enabled") == Some(r.enabled)
            && RawField(ms, "targets") == Some(Texts(r.targets))
            && FlagField(ms, "enabled") == Some(Some(r.enabled))
  {
    FieldNames();
    TextsRoundTrip(r.targets);
    var m0, m1, m2 := Member("source", Str(r.source)), Member("targets", Texts(r.targets)), Member("enabled", Bool(r.enabled));
    var ms := RuleDoc(r).members;
    assert ms == [m0, m1, m2];
    assert ms[..2] == [m0, m1] && [m0, m1][..1] == [m0] && [m0][..0] == [];
    assert TextsField([m0], "targets") == Some([]);
    assert TextField([m0], "source") == Some(r.source);
    assert TextField([m0, m1], "source") == Some(r.source);
    assert TextsField([m0, m1], "targets") == Some(r.targets);
    assert RawField([m0, m1], "targets") == Some(Texts(r.targets));
    assert BoolField([m0], "enabled") == Some(false);
    assert BoolField([m0, m1], "enabled") == Some(false);
    assert FlagField([m0], "enabled") == Some(None);
    assert FlagField([m0, m1], "enabled") == Some(None);
  }

  lemma DocDecodes(rules: seq<Rule>)
    requires forall i :: 0 <= i < |rules| ==> Usable(rules[i])
    ensures DecodeAll(Doc(rules).items, DecodeRule) == Some(rules)
  {
    var items := Doc(rules).items;
    forall i | 0 <= i < |items| ensures DecodeRule(items[i]) == Some(rules[i]) {
      assert Usable(rules[i]);
      RuleDocFields(rules[i]);
    }
    assert DecodeAll(items, DecodeRule).value == rules;
  }

  lemma NormalCollected(rules: seq<Rule>)
    requires Normal(rules)
    ensures Collected(ArrayEntries(rules)) == Some(rules)
  {
    assert forall i :: 0 <= i < |rules| ==> IsClean(rules[i]) && ArrayEntries(rules)[i] == Some(rules[i]);
    UsableStay(ArrayEntries(rules), rules, |rules|);
    assert rules[..|rules|] == rules;
  }

  /** The file the editor writes reads back as exactly the list it was written from. */
  lemma WrittenReadsBack(env: Env, rules: seq<Rule>)
    requires Faithful(env) && Walks(env) && Normal(rules)
    ensures Read(env, env.render(Doc(rules))) == Some(rules)
  {
    TrimFixed(env.render(Doc(rules)));
    DocDecodes(rules);
    NormalCollected(rules);
  }

  // ------------------------------------------------------------ the loader

  /** What a rule of the file comes to: an error, nothing, or a list of models. */
  datatype Use<V> = Bad | Off | On(value: V)
  datatype Row<V> = Row(key: string, use: Use<V>)

  type Models = seq<string>
  type Manual = map<string, Models>

  /** The first k rows in order; None is a blank key, a repeated one, or a bad value. */
  function Live<V>(rows: seq<Row<V>>, k: nat): Option<map<string, V>>
    requires k <= |rows|
  {
    if k == 0 then Some(map[])
    else
      var before, row := Live(rows, k - 1), rows[k - 1];
      if before.None? || row.key == "" || row.key in before.value || row.use.Bad? then None
      else if row.use.Off? then before
      else Some(before.value[row.key := row.use.value])
  }

  /** The rows load when every one is usable and no key is seen again after it was enabled. */
  predicate Loadable<V>(rows: seq<Row<V>>, k: nat)
    requires k <= |rows|
  {
    && (forall i :: 0 <= i < k ==> rows[i].key != "" && !rows[i].use.Bad?)
    && (forall i, j :: 0 <= i < j < k && rows[i].use.On? ==> rows[i].key != rows[j].key)
  }

  predicate LiveMap<V(==)>(rows: seq<Row<V>>, k: nat, m: map<string, V>)
    requires k <= |rows|
  {
    && (forall i :: 0 <= i < k && rows[i].use.On? ==> rows[i].key in m && m[rows[i].key] == rows[i].use.value)
    && (forall key :: key in m ==> exists i :: 0 <= i < k && rows[i].use.On? && rows[i].key == key)
  }

  /**
   Exactly when rows load, and what becomes live: the enabled rows and nothing else. A
   disabled row does not clash with an earlier disabled one, but does with an enabled one.
   */
  lemma {:induction false} LiveIff<V>(rows: seq<Row<V>>, k: nat)
    requires k <= |rows|
    ensures Live(rows, k).Some? <==> Loadable(rows, k)
    ensures Live(rows, k).Some? ==> LiveMap(rows, k, Live(rows, k).value)
  {
    if k > 0 { LiveIff(rows, k - 1); }
  }

  datatype ArrayEntry = ArrayEntry(source: string, targets: Option<Json>, enabled: Option<bool>)

  function DecodeEntry(j: Json): Option<ArrayEntry> {
    match j
    case Null => Some(ArrayEntry("", None, None))
    case Obj(ms) =>
      (match (TextField(ms, "source"), FlagField(ms, "enabled"))
       case (Some(source), Some(enabled)) => Some(ArrayEntry(source, RawField(ms, "targets"), enabled))
       case _ => None)
    case _ => None
  }

  /** A disabled entry's targets are not looked at; missing ones are an error otherwise. */
  function ArrayRow(e: ArrayEntry): Row<Models> {
    Row(Trim(e.source),
        if e.enabled == Some(false) then Off
        else if e.targets.None? then Bad
        else
          match DecodeValue(e.targets.value)
          case None => Bad
          case Some(t) => On(NonBlank(t.models)))
  }

  function LegacyRow(key: string, raw: Json): Row<Models> {
    Row(Trim(key),
        if raw.Null? then Bad
        else
          match DecodeValue(raw)
          case None => Bad
          case Some(t) => if t.enabled then On(NonBlank(t.models)) else Off)
  }

  function ArrayRows(entries: seq<ArrayEntry>): (rows: seq<Row<Models>>)
    ensures |rows| == |entries|
    ensures forall i :: 0 <= i < |entries| ==> rows[i] == ArrayRow(entries[i])
  {
    seq(|entries|, i requires 0 <= i < |entries| => ArrayRow(entries[i]))
  }

  function LegacyRows(data: map<string, Json>, order: seq<string>): (rows: seq<Row<Models>>)
    requires Elements(order) == data.Keys
    ensures |rows| == |order|
    ensures forall i :: 0 <= i < |order| ==> order[i] in data && rows[i] == LegacyRow(order[i], data[order[i]])
  {
    assert forall i :: 0 <= i < |order| ==> order[i] in Elements(order);
    seq(|order|, i requires 0 <= i < |order| => LegacyRow(order[i], data[order[i]]))
  }

  /** What the file's text makes live: None is an error, Some(None) no rules at all. */
  function Loaded(env: Env, text: string): Option<Option<Manual>>
    requires Walks(env)
  {
    var trimmed := Trim(env.expand(text));
    if trimmed == "" then Some(None)
    else if trimmed[0] == '[' then
      match env.parse(trimmed)
      case Some(Arr(items)) =>
        (match DecodeAll(items, DecodeEntry)
         case None => None
         case Some(entries) => Checked(Live(ArrayRows(entries), |entries|)))
      case _ => None
    else
      match env.parse(trimmed)
      case Some(Null) => Some(Some(map[]))
      case Some(Obj(ms)) =>
        var order := env.walk(RawMap(ms).Keys);
        Checked(Live(LegacyRows(RawMap(ms), order), |order|))
      case _ => None
  }

  function Checked(m: Option<Manual>): Option<Option<Manual>> {
    if m.None? then None else Some(m)
  }

  ghost predicate AreArrayRows(rows: seq<Row<Models>>, entries: seq<ArrayEntry>) {
    |rows| == |entries| && forall i {:trigger ArrayRow(entries[i])} :: 0 <= i < |rows| ==> rows[i] == ArrayRow(entries[i])
  }

  ghost predicate AreLegacyRows(rows: seq<Row<Models>>, data: map<string, Json>, order: seq<string>) {
    && |rows| == |order|
    && (forall i :: 0 <= i < |order| ==> order[i] in data)
    && forall i {:trigger data[order[i]]} :: 0 <= i < |order| ==> rows[i] == LegacyRow(order[i], data[order[i]])
  }

  method ArrayRowAt(entries: seq<ArrayEntry>, i: nat, ghost rows: seq<Row<Models>>) returns (row: Row<Models>)
    requires i < |entries| && AreArrayRows(rows, entries)
    ensures row == rows[i]
  {
    var e := entries[i];
    var key := Trim(e.source);
    if e.enabled == Some(false) {
      row := Row(key, Off);
    } else if e.targets.None? || DecodeValue(e.targets.value).None? {
      row := Row(key, Bad);
    } else {
      var models := SanitizeTargets(DecodeValue(e.targets.value).value.models);
      row := Row(key, On(models));
    }
    assert row == ArrayRow(entries[i]);
  }

  method LegacyRowAt(data: map<string, Json>, order: seq<string>, i: nat, ghost rows: seq<Row<Models>>) returns (row: Row<Models>)
    requires i < |order| && AreLegacyRows(rows, data, order)
    ensures row == rows[i]
  {
    var raw := data[order[i]];
    var key := Trim(order[i]);
    var value := DecodeValue(raw);
    if raw.Null? || value.None? {
      row := Row(key, Bad);
    } else if !value.value.enabled {
      row := Row(key, Off);
    } else {
      var models := SanitizeTargets(value.value.models);
      row := Row(key, On(models));
    }
  }

  lemma {:induction false} LiveStops<V>(rows: seq<Row<V>>, k: nat)
    requires k <= |rows| && Live(rows, k).None?
    ensures Live(rows, |rows|).None?
    decreases |rows| - k
  {
    if k < |rows| { LiveStops(rows, k + 1); }
  }

  method LoadArray(entries: seq<ArrayEntry>, ghost rows: seq<Row<Models>>) returns (r: Option<Manual>)
    requires AreArrayRows(rows, entries)
    ensures r == Live(rows, |rows|)
  {
    var decoded: Manual := map[];
    for i := 0 to |entries|
      invariant Live(rows, i) == Some(decoded)
    {
      var row := ArrayRowAt(entries, i, rows);
      if row.key == "" || row.key in decoded || row.use.Bad? {
        LiveStops(rows, i + 1);
        return None;
      }
      if row.use.On? { decoded := decoded[row.key := row.use.value]; }
    }
    r := Some(decoded);
  }

  method LoadLegacy(data: map<string, Json>, order: seq<string>, ghost rows: seq<Row<Models>>) returns (r: Option<Manual>)
    requires AreLegacyRows(rows, data, order)
    ensures r == Live(rows, |rows|)
  {
    var decoded: Manual := map[];
    for i := 0 to |order|
      invariant Live(rows, i) == Some(decoded)
    {
      var row := LegacyRowAt(data, order, i, rows);
      if row.key == "" || row.key in decoded || row.use.Bad? {
        LiveStops(rows, i + 1);
        return None;
      }
      if row.use.On? { decoded := decoded[row.key := row.use.value]; }
    }
    r := Some(decoded);
  }

  method LoadText(env: Env, text: string) returns (r: Option<Option<Manual>>)
    requires Walks(env)
    ensures r == Loaded(env, text)
  {
    var trimmed := Trim(env.expand(text));
    if trimmed == "" { return Some(None); }
    var doc := env.parse(trimmed);
    var manual;
    if trimmed[0] == '[' {
      if doc.None? || !doc.value.Arr? { return None; }
      var entries := DecodeAll(doc.value.items, DecodeEntry);
      if entries.None? { return None; }
      manual := LoadArray(entries.value, ArrayRows(entries.value));
    } else {
      if doc.None? { return None; }
      if doc.value.Null? { return Some(Some(map[])); }
      if !doc.value.Obj? { return None; }
      var data := RawMap(doc.value.members);
      var order := env.walk(data.Keys);
      manual := LoadLegacy(data, order, LegacyRows(data, order));
    }
    r := Checked(manual);
  }

  // ------------------------------------------------------------ what the editor wrote, loaded

  predicate NoDollar(rules: seq<Rule>) {
    forall i :: 0 <= i < |rules| ==>
      && '$' !in rules[i].source
      && forall j :: 0 <= j < |rules[i].targets| ==> '$' !in rules[i].targets[j]
  }

  /** m holds exactly the enabled rules. */
  predicate LiveRules(rules: seq<Rule>, m: Manual) {
    && (forall i :: 0 <= i < |rules| && rules[i].enabled ==>
          rules[i].source in m && m[rules[i].source] == rules[i].targets)
    && (forall key :: key in m ==> exists i :: 0 <= i < |rules| && rules[i].enabled && rules[i].source == key)
  }

  lemma PlainDoc(rules: seq<Rule>)
    requires NoDollar(rules)
    ensures Plain(Doc(rules))
  {
    var items := Doc(rules).items;
    forall i | 0 <= i < |items| ensures Plain(items[i]) {
      var ms := RuleDoc(rules[i]).members;
      assert Plain(Texts(rules[i].targets));
      forall k | 0 <= k < |ms| ensures '$' !in ms[k].key && Plain(ms[k].value) {
      }
    }
  }

  function RuleEntry(r: Rule): ArrayEntry {
    ArrayEntry(r.source, Some(Texts(r.targets)), Some(r.enabled))
  }

  lemma DocEntries(rules: seq<Rule>)
    requires forall i :: 0 <= i < |rules| ==> Usable(rules[i])
    ensures var entries := DecodeAll(Doc(rules).items, DecodeEntry);
            && entries.Some? && |entries.value| == |rules|
            && forall i :: 0 <= i < |rules| ==> entries.value[i] == RuleEntry(rules[i])
  {
    var items := Doc(rules).items;
    forall i | 0 <= i < |items| ensures DecodeEntry(items[i]) == Some(RuleEntry(rules[i])) {
      assert Usable(rules[i]);
      RuleDocFields(rules[i]);
    }
  }

  lemma RowOfRule(r: Rule)
    requires IsClean(r)
    ensures ArrayRow(RuleEntry(r)) == Row(r.source, if r.enabled then On(r.targets) else Off)
  {
    TextsRoundTrip(r.targets);
  }

  /**
   The file the editor writes always loads, and the live map is exactly its enabled rules,
   as long as no text holds a dollar sign.
   */
  lemma WrittenLoads(env: Env, rules: seq<Rule>)
    requires Faithful(env) && Walks(env) && Normal(rules) && NoDollar(rules)
    ensures var m := Loaded(env, env.render(Doc(rules)));
            m.Some? && m.value.Some? && LiveRules(rules, m.value.value)
  {
    PlainDoc(rules);
    TrimFixed(env.render(Doc(rules)));
    DocEntries(rules);
    var rows := ArrayRows(DecodeAll(Doc(rules).items, DecodeEntry).value);
    forall i | 0 <= i < |rules| ensures rows[i] == Row(rules[i].source, if rules[i].enabled then On(rules[i].targets) else Off) {
      assert IsClean(rules[i]);
      RowOfRule(rules[i]);
    }
    NormalRowsLoad(rules, rows);
  }

  lemma NormalRowsLoad(rules: seq<Rule>, rows: seq<Row<Models>>)
    requires |rows| == |rules|
    requires forall i :: 0 <= i < |rules| ==> Usable(rules[i])
    requires forall i, j :: 0 <= i < j < |rules| ==> rules[i].source != rules[j].source
    requires forall i :: 0 <= i < |rules| ==>
               rows[i] == Row(rules[i].source, if rules[i].enabled then On(rules[i].targets) else Off)
    ensures Live(rows, |rows|).Some?
    ensures LiveRules(rules, Live(rows, |rows|).value)
  {
    LiveIff(rows, |rows|);
  }

  // ------------------------------------------------------------ the order of an object's keys

  function RowsInOrder<V>(rowOf: string -> Row<V>, order: seq<string>): (rows: seq<Row<V>>)
    ensures |rows| == |order|
    ensures forall i :: 0 <= i < |order| ==> rows[i] == rowOf(order[i])
  {
    seq(|order|, i requires 0 <= i < |order| => rowOf(order[i]))
  }

  predicate Clash<V>(rowOf: string -> Row<V>, k1: string, k2: string) {
    k1 != k2 && rowOf(k1).key == rowOf(k2).key && rowOf(k1).use.On?
  }

  /** All rows well-formed, and no enabled one equal in name to another one. */
  predicate ClashFree<V>(rowOf: string -> Row<V>, keys: set<string>) {
    && (forall k :: k in keys ==> rowOf(k).key != "" && !rowOf(k).use.Bad?)
    && (forall k1, k2 :: k1 in keys && k2 in keys ==> !Clash(rowOf, k1, k2))
  }

  lemma ClashFreeLoads<V>(rowOf: string -> Row<V>, keys: set<string>, order: seq<string>)
    requires ClashFree(rowOf, keys) && IsWalk(order, keys)
    ensures Live(RowsInOrder(rowOf, order), |order|).Some?
  {
    var rows := RowsInOrder(rowOf, order);
    forall i | 0 <= i < |rows| ensures rows[i].key != "" && !rows[i].use.Bad? {
      assert order[i] in Elements(order);
    }
    forall i, j | 0 <= i < j < |rows| && rows[i].use.On? ensures rows[i].key != rows[j].key {
      assert order[i] in Elements(order) && order[j] in Elements(order);
      assert !Clash(rowOf, order[i], order[j]);
    }
    LiveIff(rows, |order|);
  }

  /** Some walk over the keys meets an error. */
  ghost predicate CanFail<V>(rowOf: string -> Row<V>, keys: set<string>) {
    exists order :: IsWalk(order, keys) && Live(RowsInOrder(rowOf, order), |order|).None?
  }

  lemma BadRowFails<V>(rowOf: string -> Row<V>, keys: set<string>, k: string)
    requires k in keys && (rowOf(k).key == "" || rowOf(k).use.Bad?)
    ensures CanFail(rowOf, keys)
  {
    var order := KeysInOrder(keys);
    assert k in Elements(order);
    var i :| 0 <= i < |order| && order[i] == k;
    LiveIff(RowsInOrder(rowOf, order), |order|);
  }

  lemma ClashFails<V>(rowOf: string -> Row<V>, keys: set<string>, k1: string, k2: string)
    requires k1 in keys && k2 in keys && Clash(rowOf, k1, k2)
    ensures CanFail(rowOf, keys)
  {
    var rest := KeysInOrder(keys - {k1, k2});
    forall x | x in rest ensures x != k1 && x != k2 { assert x in Elements(rest); }
    var order := [k1, k2] + rest;
    assert Elements(order) == {k1, k2} + Elements(rest);
    var rows := RowsInOrder(rowOf, order);
    assert rows[0].key == rows[1].key;
    LiveIff(rows, |order|);
  }

  lemma LiveAt<V>(rowOf: string -> Row<V>, order: seq<string>, k: string)
    requires k in order && rowOf(k).use.On? && Live(RowsInOrder(rowOf, order), |order|).Some?
    ensures var m := Live(RowsInOrder(rowOf, order), |order|).value;
            rowOf(k).key in m && m[rowOf(k).key] == rowOf(k).use.value
  {
    var rows := RowsInOrder(rowOf, order);
    LiveIff(rows, |order|);
    var i :| 0 <= i < |order| && order[i] == k;
    assert rows[i] == rowOf(k);
  }

  lemma LiveFrom<V>(rowOf: string -> Row<V>, order: seq<string>, key: string)
    requires Live(RowsInOrder(rowOf, order), |order|).Some?
    requires key in Live(RowsInOrder(rowOf, order), |order|).value
    ensures exists k :: k in order && rowOf(k).use.On? && rowOf(k).key == key
  {
    var rows := RowsInOrder(rowOf, order);
    LiveIff(rows, |order|);
    var i :| 0 <= i < |order| && rows[i].use.On? && rows[i].key == key;
    assert order[i] in order;
  }

  /** Orders that load make the same rules live. */
  lemma LoadedAlike<V>(rowOf: string -> Row<V>, keys: set<string>, o1: seq<string>, o2: seq<string>)
    requires IsWalk(o1, keys) && IsWalk(o2, keys)
    requires Live(RowsInOrder(rowOf, o1), |o1|).Some? && Live(RowsInOrder(rowOf, o2), |o2|).Some?
    ensures Live(RowsInOrder(rowOf, o1), |o1|) == Live(RowsInOrder(rowOf, o2), |o2|)
  {
    var m1, m2 := Live(RowsInOrder(rowOf, o1), |o1|).value, Live(RowsInOrder(rowOf, o2), |o2|).value;
    LiveIncluded(rowOf, keys, o1, o2);
    LiveIncluded(rowOf, keys, o2, o1);
    assert m1 == m2;
  }

  lemma LiveIncluded<V>(rowOf: string -> Row<V>, keys: set<string>, o1: seq<string>, o2: seq<string>)
    requires IsWalk(o1, keys) && IsWalk(o2, keys)
    requires Live(RowsInOrder(rowOf, o1), |o1|).Some? && Live(RowsInOrder(rowOf, o2), |o2|).Some?
    ensures var m1, m2 := Live(RowsInOrder(rowOf, o1), |o1|).value, Live(RowsInOrder(rowOf, o2), |o2|).value;
            forall key :: key in m1 ==> key in m2 && m2[key] == m1[key]
  {
    var m1, m2 := Live(RowsInOrder(rowOf, o1), |o1|).value, Live(RowsInOrder(rowOf, o2), |o2|).value;
    forall key | key in m1 ensures key in m2 && m2[key] == m1[key] {
      LiveFrom(rowOf, o1, key);
      var k :| k in o1 && rowOf(k).use.On? && rowOf(k).key == key;
      assert k in Elements(o1) && k in Elements(o2);
      LiveAt(rowOf, o1, k);
      LiveAt(rowOf, o2, k);
    }
  }

  lemma LoadsClashFree<V>(rowOf: string -> Row<V>, keys: set<string>, order: seq<string>)
    requires IsWalk(order, keys) && Live(RowsInOrder(rowOf, order), |order|).Some?
    requires forall k :: k in keys ==> !rowOf(k).use.Off?
    ensures ClashFree(rowOf, keys)
  {
    var rows := RowsInOrder(rowOf, order);
    LiveIff(rows, |order|);
    forall k | k in keys ensures exists i :: 0 <= i < |order| && order[i] == k { assert k in Elements(order); }
    forall k | k in keys ensures rowOf(k).key != "" && !rowOf(k).use.Bad? {
      var i :| 0 <= i < |order| && order[i] == k;
      assert rows[i] == rowOf(k);
    }
    forall k1, k2 | k1 in keys && k2 in keys ensures !Clash(rowOf, k1, k2) {
      var i :| 0 <= i < |order| && order[i] == k1;
      var j :| 0 <= j < |order| && order[j] == k2;
      assert rows[i] == rowOf(k1) && rows[j] == rowOf(k2);
    }
  }

  lemma KeysInOrder(keys: set<string>) returns (order: seq<string>)
    ensures IsWalk(order, keys)
  {
    if keys == {} {
      order := [];
    } else {
      var k :| k in keys;
      var rest := KeysInOrder(keys - {k});
      forall x | x in rest ensures x != k { assert x in Elements(rest); }
      order := rest + [k];
      assert Elements(order) == Elements(rest) + {k};
    }
  }

  function RowOf(data: map<string, Json>): string -> Row<Models> {
    (k: string) => if k in data then LegacyRow(k, data[k]) else Row("", Bad)
  }

  /**
   An object loads however its keys are walked exactly when all its rules are well-formed
   and no enabled key equals another one after trimming.
   */
  lemma LegacyAlwaysLoadsIff(data: map<string, Json>)
    ensures (forall order :: IsWalk(order, data.Keys) ==> Live(LegacyRows(data, order), |order|).Some?) <==>
              ClashFree(RowOf(data), data.Keys)
  {
    var rowOf := RowOf(data);
    forall order | IsWalk(order, data.Keys) ensures LegacyRows(data, order) == RowsInOrder(rowOf, order) {
      assert |LegacyRows(data, order)| == |RowsInOrder(rowOf, order)|;
    }
    if ClashFree(rowOf, data.Keys) {
      forall order | IsWalk(order, data.Keys) ensures Live(LegacyRows(data, order), |order|).Some? {
        ClashFreeLoads(rowOf, data.Keys, order);
      }
    } else if k :| k in data.Keys && (rowOf(k).key == "" || rowOf(k).use.Bad?) {
      BadRowFails(rowOf, data.Keys, k);
    } else {
      var k1, k2 :| k1 in data.Keys && k2 in data.Keys && Clash(rowOf, k1, k2);
      ClashFails(rowOf, data.Keys, k1, k2);
    }
  }

  lemma SampleOn()
    ensures LegacyRow("a", Arr([Str("x")])) == Row("a", On(["x"]))
  {
    TrimOfTrimmed("a");
    TrimOfTrimmed("x");
    CleanStep(["x"]);
    assert ["x"][..0] == [];
    assert TextsOf([Str("x")]).value == ["x"];
  }

  lemma SampleOff()
    ensures LegacyRow(" a", Obj([Member("enabled", Bool(false))])) == Row("a", Off)
  {
    assert SkipBlanks(" a", 0) == SkipBlanks(" a", 1) == 1 && DropBlanks(" a", 1, 2) == 2;
    assert Trim(" a") == " a"[1..2] == "a";
    FieldNames();
    assert [Member("enabled", Bool(false))][..0] == [];
  }

  lemma TwoOrders(rowOf: string -> Row<Models>, k1: string, k2: string)
    requires k1 != k2 && rowOf(k1).key == rowOf(k2).key != "" && rowOf(k1).use.On? && rowOf(k2).use.Off?
    ensures IsWalk([k1, k2], {k1, k2})
    ensures IsWalk([k2, k1], {k1, k2})
    ensures Live(RowsInOrder(rowOf, [k1, k2]), 2).None?
    ensures Live(RowsInOrder(rowOf, [k2, k1]), 2).Some?
  {
    assert Elements([k1, k2]) == {k1, k2} == Elements([k2, k1]);
    LiveIff(RowsInOrder(rowOf, [k1, k2]), 2);
    LiveIff(RowsInOrder(rowOf, [k2, k1]), 2);
  }

  /** An enabled key and a disabled one like it. */
  function TwoSpellings(): map<string, Json> {
    map["a" := Arr([Str("x")]), " a" := Obj([Member("enabled", Bool(false))])]
  }

  lemma TwoSpellingsRows()
    ensures RowOf(TwoSpellings())("a") == Row("a", On(["x"]))
    ensures RowOf(TwoSpellings())(" a") == Row("a", Off)
  {
    SampleOn();
    SampleOff();
  }

  /** Whether an object loads can depend on the order. */
  lemma LegacyOrderMatters()
    ensures TwoSpellings().Keys == {"a", " a"}
    ensures IsWalk(["a", " a"], {"a", " a"}) && Live(RowsInOrder(RowOf(TwoSpellings()), ["a", " a"]), 2).None?
    ensures IsWalk([" a", "a"], {"a", " a"}) && Live(RowsInOrder(RowOf(TwoSpellings()), [" a", "a"]), 2).Some?
  {
    TwoSpellingsRows();
    TwoOrders(RowOf(TwoSpellings()), "a", " a");
  }

  // ------------------------------------------------------------ the configuration

  function NormalMode(mode: string): string {
    ToLower(Trim(mode))
  }

  function DefaultMode(mode: string): string {
    if NormalMode(mode) == "" then "manual" else NormalMode(mode)
  }

  predicate ValidMode(mode: string) {
    NormalMode(mode) == "off" || NormalMode(mode) == "manual" || NormalMode(mode) == "auto"
  }

  function OverrideRow(key: string, mode: string): Row<string> {
    Row(Trim(key), if NormalMode(mode) == "" || !ValidMode(NormalMode(mode)) then Bad else On(NormalMode(mode)))
  }

  function OverrideRows(overrides: map<string, string>, order: seq<string>): (rows: seq<Row<string>>)
    requires Elements(order) == overrides.Keys
    ensures |rows| == |order|
    ensures forall i :: 0 <= i < |order| ==> order[i] in overrides && rows[i] == OverrideRow(order[i], overrides[order[i]])
  {
    assert forall i :: 0 <= i < |order| ==> order[i] in Elements(order);
    seq(|order|, i requires 0 <= i < |order| => OverrideRow(order[i], overrides[order[i]]))
  }

  /** The loop over the overrides, in the order of a walk. */
  method NormalizeOverrides(rows: seq<Row<string>>) returns (r: Option<map<string, string>>)
    ensures r == Live(rows, |rows|)
  {
    var normalized: map<string, string> := map[];
    for i := 0 to |rows|
      invariant Live(rows, i) == Some(normalized)
    {
      var row := rows[i];
      if row.key == "" || row.key in normalized || row.use.Bad? {
        LiveStops(rows, i + 1);
        return None;
      }
      if row.use.On? { normalized := normalized[row.key := row.use.value]; }
    }
    r := Some(normalized);
  }

  /** The overrides after normalisation; None when one of them is refused. */
  function Settled(env: Env, overrides: map<string, string>): Option<map<string, string>>
    requires Walks(env)
  {
    var order := env.walk(overrides.Keys);
    Live(OverrideRows(overrides, order), |order|)
  }

  lemma SettledEmpty(env: Env)
    requires Walks(env)
    ensures Settled(env, map[]) == Some(map[])
  {
    var order := env.walk({});
    assert IsWalk(order, {});
    assert forall i :: 0 <= i < |order| ==> order[i] in Elements(order);
    var none: map<string, string> := map[];
    assert none.Keys == {};
  }

  method SettleOverrides(env: Env, overrides: map<string, string>) returns (r: Option<map<string, string>>)
    requires Walks(env)
    ensures r == Settled(env, overrides)
  {
    var order := env.walk(overrides.Keys);
    r := NormalizeOverrides(OverrideRows(overrides, order));
  }

  function OverrideOf(overrides: map<string, string>): string -> Row<string> {
    (k: string) => if k in overrides then OverrideRow(k, overrides[k]) else Row("", Bad)
  }

  lemma OverrideRowsInOrder(overrides: map<string, string>, order: seq<string>)
    requires IsWalk(order, overrides.Keys)
    ensures OverrideRows(overrides, order) == RowsInOrder(OverrideOf(overrides), order)
  {
    assert |OverrideRows(overrides, order)| == |RowsInOrder(OverrideOf(overrides), order)|;
  }

  lemma OverridesAreNeverOff(overrides: map<string, string>, k: string)
    ensures !OverrideOf(overrides)(k).use.Off?
  {
  }

  /** What the overrides settle to does not depend on the order they are walked in. */
  lemma SettledWhateverOrder(overrides: map<string, string>, o1: seq<string>, o2: seq<string>)
    requires IsWalk(o1, overrides.Keys) && IsWalk(o2, overrides.Keys)
    ensures Live(OverrideRows(overrides, o1), |o1|) == Live(OverrideRows(overrides, o2), |o2|)
  {
    OverrideRowsInOrder(overrides, o1);
    OverrideRowsInOrder(overrides, o2);
    SettledInOrder(overrides, o1, o2);
  }

  lemma SettledInOrder(overrides: map<string, string>, o1: seq<string>, o2: seq<string>)
    requires IsWalk(o1, overrides.Keys) && IsWalk(o2, overrides.Keys)
    ensures var rowOf := OverrideOf(overrides);
            Live(RowsInOrder(rowOf, o1), |o1|) == Live(RowsInOrder(rowOf, o2), |o2|)
  {
    forall k | k in overrides.Keys ensures !OverrideOf(overrides)(k).use.Off? {
      OverridesAreNeverOff(overrides, k);
    }
    OrderIrrelevant(OverrideOf(overrides), overrides.Keys, o1, o2);
  }

  lemma OrderIrrelevant<V>(rowOf: string -> Row<V>, keys: set<string>, o1: seq<string>, o2: seq<string>)
    requires IsWalk(o1, keys) && IsWalk(o2, keys) && forall k :: k in keys ==> !rowOf(k).use.Off?
    ensures Live(RowsInOrder(rowOf, o1), |o1|) == Live(RowsInOrder(rowOf, o2), |o2|)
  {
    if Live(RowsInOrder(rowOf, o1), |o1|).Some? {
      LoadsClashFree(rowOf, keys, o1);
      ClashFreeLoads(rowOf, keys, o2);
      LoadedAlike(rowOf, keys, o1, o2);
    } else if Live(RowsInOrder(rowOf, o2), |o2|).Some? {
      LoadsClashFree(rowOf, keys, o2);
      ClashFreeLoads(rowOf, keys, o1);
    }
  }

  datatype LoadError = BadMode | BadOverrides | CannotRead | BadRules

  /** The manual rules of a path: none, those of the file, or an error. */
  function ManualAt(env: Env, files: map<string, string>, path: string): Result<Option<Manual>, LoadError>
    requires Walks(env)
  {
    var trimmed := Trim(path);
    if trimmed == "" then Ok(None)
    else if trimmed !in files then Err(CannotRead)
    else if Loaded(env, files[trimmed]).None? then Err(BadRules)
    else Ok(Loaded(env, files[trimmed]).value)
  }

  method ReadManual(env: Env, files: map<string, string>, path: string) returns (r: Result<Option<Manual>, LoadError>)
    requires Walks(env)
    ensures r == ManualAt(env, files, path)
  {
    var trimmed := Trim(path);
    if trimmed == "" { return Ok(None); }
    if trimmed !in files { return Err(CannotRead); }
    var m := LoadText(env, files[trimmed]);
    if m.None? { return Err(BadRules); }
    r := Ok(m.value);
  }

  class FallbackConfig {
    var defaultMode: string
    var manualRulesPath: string
    var overrides: map<string, string>
    var manual: Option<Manual>

    constructor (defaultMode: string, path: string, overrides: map<string, string>)
      ensures this.defaultMode == defaultMode && manualRulesPath == path && this.overrides == overrides
      ensures manual == None
    {
      this.defaultMode, manualRulesPath, this.overrides, manual := defaultMode, path, overrides, None;
    }

    method Settle(env: Env) returns (error: Option<LoadError>)
      requires Walks(env)
      modifies this`defaultMode, this`overrides
      ensures defaultMode == DefaultMode(old(defaultMode))
      ensures var o := Settled(env, old(overrides));
              if !ValidMode(defaultMode) then error == Some(BadMode) && overrides == old(overrides)
              else if o.None? then error == Some(BadOverrides) && overrides == old(overrides)
              else error == None && overrides == o.value
    {
      defaultMode := DefaultMode(defaultMode);
      if !ValidMode(defaultMode) { return Some(BadMode); }
      if |overrides| > 0 {
        var normalized := SettleOverrides(env, overrides);
        if normalized.None? { return Some(BadOverrides); }
        overrides := normalized.value;
      } else {
        assert overrides == map[];
        SettledEmpty(env);
      }
      error := None;
    }

    /**
     The mode and the overrides are replaced as soon as they are known to be valid; the
     manual rules only when everything is. A failed load keeps the manual rules.
     */
    method Load(env: Env, files: map<string, string>) returns (r: Result<(), LoadError>)
      requires Walks(env)
      modifies this
      ensures manualRulesPath == old(manualRulesPath)
      ensures defaultMode == DefaultMode(old(defaultMode))
      ensures if !ValidMode(defaultMode) then r == Err(BadMode) && overrides == old(overrides)
              else
                match Settled(env, old(overrides))
                case None => r == Err(BadOverrides) && overrides == old(overrides)
                case Some(o) =>
                  && overrides == o
                  && match ManualAt(env, files, manualRulesPath)
                     case Err(e) => r == Err(e)
                     case Ok(m) => r == Ok(()) && manual == m
      ensures r.Err? ==> manual == old(manual)
    {
      var error := Settle(env);
      if error.Some? { return Err(error.value); }
      var m := ReadManual(env, files, manualRulesPath);
      if m.Err? { return Err(m.error); }
      manual := m.value;
      r := Ok(());
    }
  }

  // ------------------------------------------------------------ saving from the dashboard

  datatype UpdateError = CannotWrite | CannotReload(error: LoadError)

  class Dashboard {
    var files: map<string, string>
    const config: FallbackConfig
    const reloads: bool               // a reloader is attached

    constructor (files: map<string, string>, config: FallbackConfig, reloads: bool)
      ensures this.files == files && this.config == config && this.reloads == reloads
    {
      this.files, this.config, this.reloads := files, config, reloads;
    }

    /** Writes the normalised rules, reloads, and answers with what the file now says. */
    method Update(env: Env, path: string, submitted: seq<Rule>, writable: bool) returns (r: Result<seq<Rule>, UpdateError>)
      requires Walks(env)
      modifies this`files, config
      ensures !writable ==> r == Err(CannotWrite) && files == old(files) && config.manual == old(config.manual)
      ensures writable ==> files == old(files)[path := env.render(Doc(Normalized(submitted)))]
      ensures r.Err? || !reloads ==> config.manual == old(config.manual)
      ensures r.Ok? ==> var rules := Read(env, files[path]); r.value == if rules.Some? then rules.value else []
      ensures writable && reloads ==>
                match r
                case Err(e) => e.CannotReload?
                case Ok(_) => ManualAt(env, files, config.manualRulesPath) == Ok(config.manual)
      ensures (&& writable && reloads && ValidMode(DefaultMode(old(config.defaultMode)))
               && Settled(env, old(config.overrides)).Some?
               && ManualAt(env, files, config.manualRulesPath).Ok?) ==> r.Ok?
    {
      var normalized := Normalize(submitted);
      if !writable { return Err(CannotWrite); }
      files := files[path := env.render(Doc(normalized))];
      if reloads {
        var loaded := config.Load(env, files);
        if loaded.Err? { return Err(CannotReload(loaded.error)); }
      }
      var rules := ReadFallbackRules(env, files[path]);
      r := Ok(if rules.Some? then rules.value else []);
    }
  }

  /**
   What a save comes to, for every submitted list without dollar signs: the file reads back
   as the normalised list, and the rules made live are exactly its enabled ones.
   */
  lemma SavedRulesGoLive(env: Env, path: string, submitted: seq<Rule>, files: map<string, string>)
    requires Faithful(env) && Walks(env) && NoDollar(submitted)
    requires Trim(path) == path != "" && path in files && files[path] == env.render(Doc(Normalized(submitted)))
    ensures Read(env, files[path]) == Some(Normalized(submitted))
    ensures var m := ManualAt(env, files, path);
            m.Ok? && m.value.Some? && LiveRules(Normalized(submitted), m.value.value)
  {
    NormalizedIsNormal(submitted);
    NormalizedNoDollar(submitted);
    WrittenReadsBack(env, Normalized(submitted));
    WrittenLoads(env, Normalized(submitted));
  }

  lemma NormalizedNoDollar(rules: seq<Rule>)
    requires NoDollar(rules)
    ensures NoDollar(Normalized(rules))
  {
    var cs, ns := Cleaned(rules), Normalized(rules);
    forall i | 0 <= i < |ns|
      ensures '$' !in ns[i].source && forall j :: 0 <= j < |ns[i].targets| ==> '$' !in ns[i].targets[j]
    {
      FirstOnesFrom(cs, |rules|, i);
      var j: nat :| j < |rules| && First(cs, j) && cs[j] == ns[i];
      CleanNoDollar(rules[j].targets);
    }
  }

  lemma {:induction false} CleanNoDollar(targets: seq<string>)
    requires forall j :: 0 <= j < |targets| ==> '$' !in targets[j]
    ensures forall j :: 0 <= j < |NonBlank(targets)| ==> '$' !in NonBlank(targets)[j]
  {
    if targets != [] {
      var n := |targets| - 1;
      CleanNoDollar(targets[..n]);
      assert '$' !in targets[n];
    }
  }
}
