/**
 Environment overrides of a configuration tree. A struct type is a list of fields, each
 with its name, its `env` tag ("" when absent) and its kind; a struct value lists the
 field values in the same order.
 */
module EnvOverrides {
  import opened Common

  datatype Kind =
    | Text
    | Flag
    | Texts                          // []string
    | Int
    | Int64
    | Duration
    | Float
    | Map
    | Unsupported                    // any other kind, slices of other elements included
    | Struct(fields: seq<Field>)
    | Section(fields: seq<Field>)    // pointer to a struct
    | Pointer                        // pointer to anything else

  datatype Field = Field(name: string, env: string, kind: Kind)

  datatype Value =
    | TextV(text: string)
    | FlagV(flag: bool)
    | TextsV(items: Option<seq<string>>)   // None is the nil slice
    | IntV(n: int)
    | FloatV(r: real)
    | Opaque(id: nat)                      // maps, unsupported kinds, other pointers
    | StructV(fields: seq<Value>)
    | SectionV(section: Option<seq<Value>>)

  /** The process environment and Go's number parsers. */
  datatype Env = Env(
    get: string -> string,
    atoi: string -> Option<int>,
    parseInt: string -> Option<int>,
    parseDuration: string -> Option<int>,
    parseFloat: string -> Option<real>)

  // ------------------------------------------------------------ types and zero values

  predicate TypedValue(k: Kind, v: Value)
    decreases k
  {
    match k
    case Text => v.TextV?
    case Flag => v.FlagV?
    case Texts => v.TextsV?
    case Int => v.IntV?
    case Int64 => v.IntV?
    case Duration => v.IntV?
    case Float => v.FloatV?
    case Map => v.Opaque?
    case Unsupported => v.Opaque?
    case Struct(fs) => v.StructV? && Typed(fs, v.fields)
    case Section(fs) => v.SectionV? && (v.section.Some? ==> Typed(fs, v.section.value))
    case Pointer => v.Opaque?
  }

  predicate Typed(fs: seq<Field>, vs: seq<Value>)
    decreases fs
  {
    |fs| == |vs| && forall i :: 0 <= i < |fs| ==> TypedValue(fs[i].kind, vs[i])
  }

  function ZeroValue(k: Kind): (v: Value)
    ensures TypedValue(k, v)
    decreases k
  {
    match k
    case Text => TextV("")
    case Flag => FlagV(false)
    case Texts => TextsV(None)
    case Int => IntV(0)
    case Int64 => IntV(0)
    case Duration => IntV(0)
    case Float => FloatV(0.0)
    case Map => Opaque(0)
    case Unsupported => Opaque(0)
    case Struct(fs) => StructV(Zeros(fs))
    case Section(fs) => SectionV(None)
    case Pointer => Opaque(0)
  }

  function Zeros(fs: seq<Field>): (vs: seq<Value>)
    ensures Typed(fs, vs)
    ensures forall i :: 0 <= i < |fs| ==> vs[i] == ZeroValue(fs[i].kind)
    decreases fs
  {
    seq(|fs|, i requires 0 <= i < |fs| => ZeroValue(fs[i].kind))
  }

  // ------------------------------------------------------------ one leaf

  predicate ParseBool(s: string) {
    EqualFold(s, "true") || s == "1"
  }

  predicate Supported(k: Kind) {
    k.Text? || k.Flag? || k.Texts? || k.Int? || k.Int64? || k.Duration? || k.Float?
  }

  /** What the text of a variable means for a kind; None is a parse error. */
  function Parsed(k: Kind, s: string, env: Env): (r: Option<Value>)
    requires Supported(k)
    ensures r.Some? ==> TypedValue(k, r.value)
  {
    match k
    case Text => Some(TextV(s))
    case Flag => Some(FlagV(ParseBool(s)))
    case Texts => Some(TextsV(Some(NonBlank(Split(s, ',')))))
    case Int => (match env.atoi(s) case None => None case Some(n) => Some(IntV(n)))
    case Int64 => (match env.parseInt(s) case None => None case Some(n) => Some(IntV(n)))
    case Duration => (match env.parseDuration(s) case None => None case Some(n) => Some(IntV(n)))
    case Float => (match env.parseFloat(s) case None => None case Some(r) => Some(FloatV(r)))
  }

  /** The field is overridden by a variable that is set. */
  predicate Applies(f: Field, env: Env) {
    Supported(f.kind) && f.env != "" && env.get(f.env) != ""
  }

  /** A leaf after the walk: the parsed variable, or what it was. None is a parse error. */
  function Expected(f: Field, v: Value, env: Env): Option<Value> {
    if Applies(f, env) then Parsed(f.kind, env.get(f.env), env) else Some(v)
  }

  // ------------------------------------------------------------ the walk

  /** Some field at any depth carries a tag. */
  predicate HasEnvDescendants(fs: seq<Field>)
    decreases fs
  {
    exists i :: 0 <= i < |fs| &&
      (fs[i].env != "" ||
       (fs[i].kind.Struct? && HasEnvDescendants(fs[i].kind.fields)) ||
       (fs[i].kind.Section? && HasEnvDescendants(fs[i].kind.fields)))
  }

  /** The values reached when the walk ends, and the field it failed at, if any. */
  datatype Outcome = Outcome(values: seq<Value>, error: Option<string>)
  datatype FieldOutcome = FieldOutcome(value: Value, error: Option<string>)

  function WalkField(f: Field, v: Value, env: Env, prune: bool): (o: FieldOutcome)
    requires TypedValue(f.kind, v)
    ensures TypedValue(f.kind, o.value)
    decreases f
  {
    match f.kind
    case Struct(fs) =>
      var o := Walk(fs, v.fields, env, prune);
      FieldOutcome(StructV(o.values), o.error)
    case Section(fs) =>
      if v.section.Some? then
        var o := Walk(fs, v.section.value, env, prune);
        FieldOutcome(SectionV(Some(o.values)), o.error)
      else if prune && !HasEnvDescendants(fs) then FieldOutcome(v, None)
      else
        var o := Walk(fs, Zeros(fs), env, prune);
        if o.error.Some? then FieldOutcome(v, o.error)
        else if o.values != Zeros(fs) then FieldOutcome(SectionV(Some(o.values)), None)
        else FieldOutcome(v, None)
    case _ =>
      match Expected(f, v, env)
      case Some(w) => FieldOutcome(w, None)
      case None => FieldOutcome(v, Some(f.name))
  }

  /** The first i fields, in order and in place, up to the first error. */
  function WalkTo(fs: seq<Field>, vs: seq<Value>, env: Env, prune: bool, i: nat): (o: Outcome)
    requires Typed(fs, vs) && i <= |fs|
    ensures Typed(fs, o.values)
    ensures forall j :: i <= j < |fs| ==> o.values[j] == vs[j]
    decreases fs, i
  {
    if i == 0 then Outcome(vs, None)
    else
      var before := WalkTo(fs, vs, env, prune, i - 1);
      if before.error.Some? then before
      else
        var o := WalkField(fs[i - 1], vs[i - 1], env, prune);
        Outcome(before.values[i - 1 := o.value], o.error)
  }

  function Walk(fs: seq<Field>, vs: seq<Value>, env: Env, prune: bool): (o: Outcome)
    requires Typed(fs, vs)
    ensures Typed(fs, o.values)
    decreases fs, |fs| + 1
  {
    WalkTo(fs, vs, env, prune, |fs|)
  }

  /** The first error ends the walk. */
  lemma {:induction false} WalkStops(fs: seq<Field>, vs: seq<Value>, env: Env, prune: bool, i: nat, k: nat)
    requires Typed(fs, vs) && i <= k <= |fs| && WalkTo(fs, vs, env, prune, i).error.Some?
    ensures WalkTo(fs, vs, env, prune, k) == WalkTo(fs, vs, env, prune, i)
    decreases k
  {
    if i < k { WalkStops(fs, vs, env, prune, i, k - 1); }
  }

  /** The loop of the source over one struct, with pruning, recursing into sub-structs. */
  method ApplyEnvOverrides(fs: seq<Field>, vs: seq<Value>, env: Env) returns (out: seq<Value>, error: Option<string>)
    requires Typed(fs, vs)
    ensures Outcome(out, error) == Walk(fs, vs, env, true)
    decreases fs
  {
    out := vs;
    for i := 0 to |fs|
      invariant Outcome(out, None) == WalkTo(fs, vs, env, true, i)
    {
      var v: Value;
      v, error := ApplyField(fs[i], out[i], env);
      out := out[i := v];
      if error.Some? {
        WalkStops(fs, vs, env, true, i + 1, |fs|);
        return;
      }
    }
    error := None;
  }

  method ApplyField(f: Field, v: Value, env: Env) returns (w: Value, error: Option<string>)
    requires TypedValue(f.kind, v)
    ensures FieldOutcome(w, error) == WalkField(f, v, env, true)
    decreases f
  {
    w, error := v, None;
    if f.kind.Struct? {
      var inner;
      inner, error := ApplyEnvOverrides(f.kind.fields, v.fields, env);
      w := StructV(inner);
    } else if f.kind.Section? {
      if v.section.None? {
        if !HasEnvDescendants(f.kind.fields) { return; }
        var zeros := Zeros(f.kind.fields);
        var inner;
        inner, error := ApplyEnvOverrides(f.kind.fields, zeros, env);
        if error.None? && inner != zeros { w := SectionV(Some(inner)); }
      } else {
        var inner;
        inner, error := ApplyEnvOverrides(f.kind.fields, v.section.value, env);
        w := SectionV(Some(inner));
      }
    } else if Applies(f, env) {
      match Parsed(f.kind, env.get(f.env), env)
      case Some(p) => w := p;
      case None => error := Some(f.name);
    }
  }

  // ------------------------------------------------------------ pruning changes nothing

  lemma {:induction false} UntaggedUnchanged(fs: seq<Field>, vs: seq<Value>, env: Env, i: nat)
    requires Typed(fs, vs) && i <= |fs| && !HasEnvDescendants(fs)
    ensures WalkTo(fs, vs, env, false, i) == Outcome(vs, None)
    decreases fs, i
  {
    if i > 0 {
      UntaggedUnchanged(fs, vs, env, i - 1);
      UntaggedField(fs[i - 1], vs[i - 1], env);
    }
  }

  lemma {:induction false} UntaggedField(f: Field, v: Value, env: Env)
    requires TypedValue(f.kind, v) && f.env == ""
    requires f.kind.Struct? || f.kind.Section? ==> !HasEnvDescendants(f.kind.fields)
    ensures WalkField(f, v, env, false) == FieldOutcome(v, None)
    decreases f
  {
    match f.kind
    case Struct(fs) => UntaggedUnchanged(fs, v.fields, env, |fs|);
    case Section(fs) =>
      if v.section.Some? { UntaggedUnchanged(fs, v.section.value, env, |fs|); }
      else { UntaggedUnchanged(fs, Zeros(fs), env, |fs|); }
    case _ =>
  }

  lemma {:induction false} PruningFieldIrrelevant(f: Field, v: Value, env: Env)
    requires TypedValue(f.kind, v)
    ensures WalkField(f, v, env, true) == WalkField(f, v, env, false)
    decreases f
  {
    match f.kind
    case Struct(fs) => PruningIrrelevant(fs, v.fields, env);
    case Section(fs) =>
      if v.section.Some? {
        PruningIrrelevant(fs, v.section.value, env);
      } else {
        PruningIrrelevant(fs, Zeros(fs), env);
        if !HasEnvDescendants(fs) { UntaggedUnchanged(fs, Zeros(fs), env, |fs|); }
      }
    case _ =>
  }

  /** Skipping absent sections without tagged fields never changes the result. */
  lemma {:induction false} PruningIrrelevant(fs: seq<Field>, vs: seq<Value>, env: Env)
    requires Typed(fs, vs)
    ensures Walk(fs, vs, env, true) == Walk(fs, vs, env, false)
    decreases fs, |fs| + 1
  {
    PruningIrrelevantTo(fs, vs, env, |fs|);
  }

  lemma {:induction false} PruningIrrelevantTo(fs: seq<Field>, vs: seq<Value>, env: Env, i: nat)
    requires Typed(fs, vs) && i <= |fs|
    ensures WalkTo(fs, vs, env, true, i) == WalkTo(fs, vs, env, false, i)
    decreases fs, i
  {
    if i > 0 {
      PruningIrrelevantTo(fs, vs, env, i - 1);
      PruningFieldIrrelevant(fs[i - 1], vs[i - 1], env);
    }
  }

  // ------------------------------------------------------------ idempotence

  lemma {:induction false} FieldIdempotent(f: Field, v: Value, env: Env)
    requires TypedValue(f.kind, v) && WalkField(f, v, env, false).error.None?
    ensures var w := WalkField(f, v, env, false).value; WalkField(f, w, env, false) == FieldOutcome(w, None)
    decreases f
  {
    match f.kind
    case Struct(fs) => WalkIdempotent(fs, v.fields, env);
    case Section(fs) =>
      if v.section.Some? { WalkIdempotent(fs, v.section.value, env); }
      else { WalkIdempotent(fs, Zeros(fs), env); }
    case _ =>
  }

  /** A walk that succeeded changes nothing when repeated. */
  lemma {:induction false} WalkIdempotent(fs: seq<Field>, vs: seq<Value>, env: Env)
    requires Typed(fs, vs) && Walk(fs, vs, env, false).error.None?
    ensures var o := Walk(fs, vs, env, false); Walk(fs, o.values, env, false) == o
    decreases fs, |fs| + 1
  {
    WalkAgain(fs, vs, env, |fs|);
  }

  lemma {:induction false} WalkAgain(fs: seq<Field>, vs: seq<Value>, env: Env, i: nat)
    requires Typed(fs, vs) && i <= |fs| && Walk(fs, vs, env, false).error.None?
    ensures var o := Walk(fs, vs, env, false); WalkTo(fs, o.values, env, false, i) == o
    decreases fs, i
  {
    if i > 0 {
      WalkAgain(fs, vs, env, i - 1);
      WalkAt(fs, vs, env, i - 1, |fs|);
      FieldIdempotent(fs[i - 1], vs[i - 1], env);
    }
  }

  /** Each field is treated by itself. */
  lemma {:induction false} WalkAt(fs: seq<Field>, vs: seq<Value>, env: Env, i: nat, k: nat)
    requires Typed(fs, vs) && i < k <= |fs| && WalkTo(fs, vs, env, false, k).error.None?
    ensures FieldOutcome(WalkTo(fs, vs, env, false, k).values[i], None) == WalkField(fs[i], vs[i], env, false)
    decreases k
  {
    if i < k - 1 {
      WalkAt(fs, vs, env, i, k - 1);
    }
  }

  // ------------------------------------------------------------ leaf by leaf

  datatype Leaf = Leaf(field: Field, value: Value)

  /**
   The leaf a path of field positions leads to, reading an absent section as its zero
   values; None when the path does not end at a leaf.
   */
  function LeafAt(fs: seq<Field>, vs: seq<Value>, path: seq<nat>): (l: Option<Leaf>)
    requires Typed(fs, vs)
    decreases |path|
  {
    if path == [] || path[0] >= |fs| then None
    else
      var f, v := fs[path[0]], vs[path[0]];
      assert TypedValue(f.kind, v);
      match f.kind
      case Struct(inner) => LeafAt(inner, v.fields, path[1..])
      case Section(inner) =>
        LeafAt(inner, if v.section.Some? then v.section.value else Zeros(inner), path[1..])
      case _ => if |path| == 1 then Some(Leaf(f, v)) else None
  }

  /**
   After a successful walk every leaf of the tree, wherever it sits, holds the parsed value
   of its variable when it is tagged, supported and the variable is set, and its old value
   otherwise. (An absent section reads as zero values before and after.)
   */
  lemma {:induction false} EveryLeafAsExpected(fs: seq<Field>, vs: seq<Value>, env: Env, path: seq<nat>)
    requires Typed(fs, vs) && Walk(fs, vs, env, false).error.None?
    ensures var after := LeafAt(fs, Walk(fs, vs, env, false).values, path);
            match LeafAt(fs, vs, path)
            case None => after.None?
            case Some(l) => after.Some? && after.value.field == l.field &&
                            Expected(l.field, l.value, env) == Some(after.value.value)
    decreases |path|
  {
    if path != [] && path[0] < |fs| {
      var i := path[0];
      var f, v := fs[i], vs[i];
      WalkAt(fs, vs, env, i, |fs|);
      match f.kind
      case Struct(inner) => EveryLeafAsExpected(inner, v.fields, env, path[1..]);
      case Section(inner) =>
        EveryLeafAsExpected(inner, if v.section.Some? then v.section.value else Zeros(inner), env, path[1..]);
      case _ =>
    }
  }

  /** The texts that switch a flag on; every other text that is not empty switches it off. */
  predicate SwitchesOn(s: string) {
    s == "1" || (|s| == 4 && s[0] in "tT" && s[1] in "rR" && s[2] in "uU" && s[3] in "eE")
  }

  lemma ParseBoolIff(s: string)
    ensures ParseBool(s) <==> SwitchesOn(s)
  {
    FoldIff(s, "true");
    if |s| == 4 {
      forall i | 0 <= i < 4 ensures SameLetter(s[i], "true"[i]) <==> s[i] in ["tT", "rR", "uU", "eE"][i] {}
    }
  }

  /** v is what the text of a variable means for a leaf of that kind. */
  predicate Means(k: Kind, s: string, env: Env, v: Value) {
    match k
    case Text => v == TextV(s)
    case Flag => v == FlagV(SwitchesOn(s))
    case Texts => v == TextsV(Some(NonBlank(Split(s, ','))))
    case Int => v.IntV? && env.atoi(s) == Some(v.n)
    case Int64 => v.IntV? && env.parseInt(s) == Some(v.n)
    case Duration => v.IntV? && env.parseDuration(s) == Some(v.n)
    case Float => v.FloatV? && env.parseFloat(s) == Some(v.r)
    case _ => false
  }

  predicate NeverSet(k: Kind) {
    k.Map? || k.Unsupported? || k.Pointer?
  }

  /**
   After a successful walk a leaf without a tag, with an unset variable or of a kind that cannot be
   set is as it was, and every other one holds what the text of its variable means: the text
   itself, on or off, the pieces between commas, or the number read by the parser of its kind.
   */
  lemma EveryLeafReads(fs: seq<Field>, vs: seq<Value>, env: Env, path: seq<nat>, l: Leaf)
    requires Typed(fs, vs) && Walk(fs, vs, env, false).error.None? && LeafAt(fs, vs, path) == Some(l)
    ensures var after := LeafAt(fs, Walk(fs, vs, env, false).values, path);
            && after.Some? && after.value.field == l.field
            && if l.field.env == "" || env.get(l.field.env) == "" || NeverSet(l.field.kind) then after.value.value == l.value
               else Means(l.field.kind, env.get(l.field.env), env, after.value.value)
  {
    EveryLeafAsExpected(fs, vs, env, path);
    LeafIsNoStruct(fs, vs, path);
    ParseBoolIff(env.get(l.field.env));
  }

  lemma {:induction false} LeafIsNoStruct(fs: seq<Field>, vs: seq<Value>, path: seq<nat>)
    requires Typed(fs, vs)
    ensures match LeafAt(fs, vs, path) case None => true case Some(l) => !l.field.kind.Struct? && !l.field.kind.Section?
    decreases |path|
  {
    if path != [] && path[0] < |fs| {
      var f, v := fs[path[0]], vs[path[0]];
      assert TypedValue(f.kind, v);
      match f.kind
      case Struct(inner) => LeafIsNoStruct(inner, v.fields, path[1..]);
      case Section(inner) => LeafIsNoStruct(inner, if v.section.Some? then v.section.value else Zeros(inner), path[1..]);
      case _ =>
    }
  }

  /** What an absent section reads as: empty text, off, no list, zero, and sections of its own absent. */
  lemma {:induction false} ZerosRead(fs: seq<Field>, path: seq<nat>)
    ensures match LeafAt(fs, Zeros(fs), path)
            case None => true
            case Some(l) => l.value in {TextV(""), FlagV(false), TextsV(None), IntV(0), FloatV(0.0), Opaque(0)}
    decreases |path|
  {
    if path != [] && path[0] < |fs| {
      match fs[path[0]].kind
      case Struct(inner) => ZerosRead(inner, path[1..]);
      case Section(inner) => ZerosRead(inner, path[1..]);
      case _ =>
    }
  }

  /** A present section stays; an absent one appears only holding something non-zero. */
  lemma SectionPresence(f: Field, v: Value, env: Env)
    requires TypedValue(f.kind, v) && f.kind.Section?
    ensures var w := WalkField(f, v, env, false).value;
            && (v.section.Some? ==> w.section.Some?)
            && (v.section.None? && w.section.Some? ==> w.section.value != Zeros(f.kind.fields))
  {
  }

  /** Some leaf's variable does not parse. */
  ghost predicate BadLeaf(fs: seq<Field>, vs: seq<Value>, env: Env, path: seq<nat>)
    requires Typed(fs, vs)
  {
    var l := LeafAt(fs, vs, path);
    l.Some? && Expected(l.value.field, l.value.value, env).None?
  }

  lemma {:induction false} FailureHasLeaf(fs: seq<Field>, vs: seq<Value>, env: Env, i: nat) returns (path: seq<nat>)
    requires Typed(fs, vs) && i <= |fs| && WalkTo(fs, vs, env, false, i).error.Some?
    ensures BadLeaf(fs, vs, env, path)
    ensures LeafAt(fs, vs, path).value.field.name == WalkTo(fs, vs, env, false, i).error.value
    decreases fs, i
  {
    if WalkTo(fs, vs, env, false, i - 1).error.Some? {
      path := FailureHasLeaf(fs, vs, env, i - 1);
    } else {
      var f, v := fs[i - 1], vs[i - 1];
      assert WalkField(f, v, env, false).error.Some?;
      var rest := [];
      if f.kind.Struct? {
        assert Walk(f.kind.fields, v.fields, env, false).error.Some?;
        rest := FailureHasLeaf(f.kind.fields, v.fields, env, |f.kind.fields|);
      } else if f.kind.Section? {
        var inner := f.kind.fields;
        var ws := if v.section.Some? then v.section.value else Zeros(inner);
        assert Walk(inner, ws, env, false).error.Some?;
        rest := FailureHasLeaf(inner, ws, env, |inner|);
      }
      path := [i - 1] + rest;
      assert path[1..] == rest;
    }
  }

  /** Under a field whose walk succeeds every variable parses. */
  lemma FieldLeavesParse(fs: seq<Field>, vs: seq<Value>, env: Env, i: nat, path: seq<nat>)
    requires Typed(fs, vs) && i < |fs| && WalkField(fs[i], vs[i], env, false).error.None?
    requires path != [] && path[0] == i
    ensures !BadLeaf(fs, vs, env, path)
  {
    var f, v := fs[i], vs[i];
    match f.kind
    case Struct(inner) => EveryLeafAsExpected(inner, v.fields, env, path[1..]);
    case Section(inner) => EveryLeafAsExpected(inner, if v.section.Some? then v.section.value else Zeros(inner), env, path[1..]);
    case _ =>
  }

  /** q comes before p in the order of the fields. */
  predicate ComesBefore(q: seq<nat>, p: seq<nat>) {
    q != [] && p != [] && (q[0] < p[0] || (q[0] == p[0] && ComesBefore(q[1..], p[1..])))
  }

  /** The leaf a failed walk stops at is the first one whose variable does not parse. */
  lemma {:induction false} FailureIsFirst(fs: seq<Field>, vs: seq<Value>, env: Env) returns (path: seq<nat>)
    requires Typed(fs, vs) && Walk(fs, vs, env, false).error.Some?
    ensures BadLeaf(fs, vs, env, path)
    ensures LeafAt(fs, vs, path).value.field.name == Walk(fs, vs, env, false).error.value
    ensures forall q :: ComesBefore(q, path) ==> !BadLeaf(fs, vs, env, q)
    decreases fs
  {
    var i := FirstToFail(fs, vs, env, |fs|);
    var rest := FirstInField(fs[i], vs[i], env);
    path := [i] + rest;
    assert path[1..] == rest;
    forall q | ComesBefore(q, path) ensures !BadLeaf(fs, vs, env, q) {
      if q[0] < i {
        FieldLeavesParse(fs, vs, env, q[0], q);
      } else {
        assert ComesBefore(q[1..], rest);
        BadInside(fs, vs, env, q);
      }
    }
  }

  lemma BadInside(fs: seq<Field>, vs: seq<Value>, env: Env, q: seq<nat>)
    requires Typed(fs, vs) && q != [] && q[0] < |fs| && TypedValue(fs[q[0]].kind, vs[q[0]])
    ensures match fs[q[0]].kind
            case Struct(inner) => BadLeaf(fs, vs, env, q) <==> BadLeaf(inner, vs[q[0]].fields, env, q[1..])
            case Section(inner) =>
              var v := vs[q[0]];
              BadLeaf(fs, vs, env, q) <==> BadLeaf(inner, if v.section.Some? then v.section.value else Zeros(inner), env, q[1..])
            case _ => true
  {
  }

  /** The first field whose walk fails; its error is the error. */
  lemma {:induction false} FirstToFail(fs: seq<Field>, vs: seq<Value>, env: Env, k: nat) returns (i: nat)
    requires Typed(fs, vs) && k <= |fs| && WalkTo(fs, vs, env, false, k).error.Some?
    ensures i < k && WalkField(fs[i], vs[i], env, false).error == WalkTo(fs, vs, env, false, k).error
    ensures forall j :: 0 <= j < i ==> WalkField(fs[j], vs[j], env, false).error.None?
    decreases k
  {
    if WalkTo(fs, vs, env, false, k - 1).error.Some? {
      i := FirstToFail(fs, vs, env, k - 1);
    } else {
      i := k - 1;
      forall j | 0 <= j < i ensures WalkField(fs[j], vs[j], env, false).error.None? { WalkAt(fs, vs, env, j, k - 1); }
    }
  }

  lemma {:induction false} FirstInField(f: Field, v: Value, env: Env) returns (rest: seq<nat>)
    requires TypedValue(f.kind, v) && WalkField(f, v, env, false).error.Some?
    ensures match f.kind
            case Struct(inner) =>
              && BadLeaf(inner, v.fields, env, rest)
              && LeafAt(inner, v.fields, rest).value.field.name == WalkField(f, v, env, false).error.value
              && forall q :: ComesBefore(q, rest) ==> !BadLeaf(inner, v.fields, env, q)
            case Section(inner) =>
              var ws := if v.section.Some? then v.section.value else Zeros(inner);
              && BadLeaf(inner, ws, env, rest)
              && LeafAt(inner, ws, rest).value.field.name == WalkField(f, v, env, false).error.value
              && forall q :: ComesBefore(q, rest) ==> !BadLeaf(inner, ws, env, q)
            case _ => rest == []
    decreases f
  {
    match f.kind
    case Struct(inner) => rest := FailureIsFirst(inner, v.fields, env);
    case Section(inner) => rest := FailureIsFirst(inner, if v.section.Some? then v.section.value else Zeros(inner), env);
    case _ => rest := [];
  }

  /** The walk succeeds exactly when every set variable of a supported leaf parses. */
  lemma WalkSucceedsIff(fs: seq<Field>, vs: seq<Value>, env: Env)
    requires Typed(fs, vs)
    ensures Walk(fs, vs, env, false).error.None? <==> forall path: seq<nat> :: !BadLeaf(fs, vs, env, path)
  {
    if Walk(fs, vs, env, false).error.Some? {
      var path := FailureHasLeaf(fs, vs, env, |fs|);
      assert BadLeaf(fs, vs, env, path);
    } else {
      forall path: seq<nat> ensures !BadLeaf(fs, vs, env, path) {
        EveryLeafAsExpected(fs, vs, env, path);
      }
    }
  }
}
