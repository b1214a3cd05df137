/**
 JSON values and how Go's encoding/json fills the fields of a struct from an object: keys
 match without regard to case, a later key overrides an earlier one, null leaves a plain
 field as it is, and a value of the wrong type fails the whole decoding (None).
 */
module Json {
  import opened Common

  datatype Json =
    | Null
    | Bool(b: bool)
    | Num(n: int)
    | Str(s: string)
    | Arr(items: seq<Json>)
    | Obj(members: seq<Member>)

  datatype Member = Member(key: string, value: Json)

  predicate TextOrNull(j: Json) {
    j.Str? || j.Null?
  }

  /** []string from an array; null elements are empty strings. */
  function TextsOf(items: seq<Json>): (r: Option<seq<string>>)
    ensures r.Some? <==> forall i :: 0 <= i < |items| ==> TextOrNull(items[i])
    ensures r.Some? ==> |r.value| == |items|
    ensures r.Some? ==> forall i :: 0 <= i < |items| ==> r.value[i] == if items[i].Str? then items[i].s else ""
  {
    if items == [] then Some([])
    else
      var n := |items| - 1;
      var before := TextsOf(items[..n]);
      if before.None? || !TextOrNull(items[n]) then None
      else Some(before.value + [if items[n].Str? then items[n].s else ""])
  }

  /** A slice decoded element by element. */
  function DecodeAll<T>(items: seq<Json>, f: Json -> Option<T>): (r: Option<seq<T>>)
    ensures r.Some? <==> forall i :: 0 <= i < |items| ==> f(items[i]).Some?
    ensures r.Some? ==> |r.value| == |items|
    ensures r.Some? ==> forall i :: 0 <= i < |items| ==> f(items[i]) == Some(r.value[i])
  {
    if items == [] then Some([])
    else
      var n := |items| - 1;
      var before := DecodeAll(items[..n], f);
      if before.None? || f(items[n]).None? then None else Some(before.value + [f(items[n]).value])
  }

  function DecodeTexts(j: Json): Option<seq<string>> {
    match j
    case Null => Some([])
    case Arr(items) => TextsOf(items)
    case _ => None
  }

  function Texts(ts: seq<string>): (j: Json) {
    Arr(seq(|ts|, i requires 0 <= i < |ts| => Str(ts[i])))
  }

  lemma TextsRoundTrip(ts: seq<string>)
    ensures DecodeTexts(Texts(ts)) == Some(ts)
  {
    var items := Texts(ts).items;
    assert forall i :: 0 <= i < |items| ==> TextOrNull(items[i]);
    assert TextsOf(items).value == ts;
  }

  // ------------------------------------------------------------ fields of a struct

  function TextField(ms: seq<Member>, name: string): Option<string> {
    if ms == [] then Some("")
    else
      var last := ms[|ms| - 1];
      match TextField(ms[..|ms| - 1], name)
      case None => None
      case Some(s) =>
        if !EqualFold(last.key, name) || last.value.Null? then Some(s)
        else if last.value.Str? then Some(last.value.s)
        else None
  }

  /** A bool field. */
  function BoolField(ms: seq<Member>, name: string): Option<bool> {
    if ms == [] then Some(false)
    else
      var last := ms[|ms| - 1];
      match BoolField(ms[..|ms| - 1], name)
      case None => None
      case Some(b) =>
        if !EqualFold(last.key, name) || last.value.Null? then Some(b)
        else if last.value.Bool? then Some(last.value.b)
        else None
  }

  /** A *bool field: null resets it. */
  function FlagField(ms: seq<Member>, name: string): Option<Option<bool>> {
    if ms == [] then Some(None)
    else
      var last := ms[|ms| - 1];
      match FlagField(ms[..|ms| - 1], name)
      case None => None
      case Some(b) =>
        if !EqualFold(last.key, name) then Some(b)
        else if last.value.Null? then Some(None)
        else if last.value.Bool? then Some(Some(last.value.b))
        else None
  }

  /** A []string field. */
  function TextsField(ms: seq<Member>, name: string): Option<seq<string>> {
    if ms == [] then Some([])
    else
      var last := ms[|ms| - 1];
      match TextsField(ms[..|ms| - 1], name)
      case None => None
      case Some(ts) => if EqualFold(last.key, name) then DecodeTexts(last.value) else Some(ts)
  }

  /** A json.RawMessage field: None when no key names it; null is kept as a value. */
  function RawField(ms: seq<Member>, name: string): Option<Json> {
    if ms == [] then None
    else
      var last := ms[|ms| - 1];
      if EqualFold(last.key, name) then Some(last.value) else RawField(ms[..|ms| - 1], name)
  }

  /** map[string]json.RawMessage from an object: the last of equal keys wins. */
  function RawMap(ms: seq<Member>): (m: map<string, Json>)
    ensures forall k :: k in m <==> exists i :: 0 <= i < |ms| && ms[i].key == k
  {
    if ms == [] then map[]
    else
      var n := |ms| - 1;
      assert ms == ms[..n] + [ms[n]];
      RawMap(ms[..n])[ms[n].key := ms[n].value]
  }

  // ------------------------------------------------------------ which member decides

  /** The values of the members called that, in whatever case, as they come. */
  function Given(ms: seq<Member>, name: string): seq<Json> {
    if ms == [] then []
    else Given(ms[..|ms| - 1], name) + if EqualFold(ms[|ms| - 1].key, name) then [ms[|ms| - 1].value] else []
  }

  /** The last of them that is not null. */
  function LastOf(vs: seq<Json>): (r: Option<Json>)
    ensures r.Some? ==> r.value in vs && !r.value.Null?
  {
    if vs == [] then None
    else if vs[|vs| - 1].Null? then LastOf(vs[..|vs| - 1])
    else Some(vs[|vs| - 1])
  }

  lemma GivenStep(ms: seq<Member>, name: string)
    requires ms != []
    ensures var n := |ms| - 1;
            if EqualFold(ms[n].key, name)
            then
              && Given(ms, name) == Given(ms[..n], name) + [ms[n].value]
              && Given(ms, name)[..|Given(ms[..n], name)|] == Given(ms[..n], name)
              && forall v :: v in Given(ms, name) <==> v in Given(ms[..n], name) || v == ms[n].value
            else Given(ms, name) == Given(ms[..n], name)
  {
  }

  /** A text is the last one given; nulls do not count, and anything else among them fails. */
  lemma {:induction false} TextFieldMeans(ms: seq<Member>, name: string)
    ensures var vs := Given(ms, name);
            TextField(ms, name) ==
            if exists v :: v in vs && !TextOrNull(v) then None
            else match LastOf(vs) case Some(Str(t)) => Some(t) case _ => Some("")
  {
    if ms != [] {
      TextFieldMeans(ms[..|ms| - 1], name);
      GivenStep(ms, name);
    }
  }

  predicate BoolOrNull(j: Json) {
    j.Bool? || j.Null?
  }

  /** So is a flag, off when none is given ... */
  lemma {:induction false} BoolFieldMeans(ms: seq<Member>, name: string)
    ensures var vs := Given(ms, name);
            BoolField(ms, name) ==
            if exists v :: v in vs && !BoolOrNull(v) then None
            else match LastOf(vs) case Some(Bool(b)) => Some(b) case _ => Some(false)
  {
    if ms != [] {
      BoolFieldMeans(ms[..|ms| - 1], name);
      GivenStep(ms, name);
    }
  }

  /** ... but where a flag may be absent, a null given last makes it so. */
  lemma {:induction false} FlagFieldMeans(ms: seq<Member>, name: string)
    ensures var vs := Given(ms, name);
            FlagField(ms, name) ==
            if exists v :: v in vs && !BoolOrNull(v) then None
            else if vs == [] then Some(None)
            else match vs[|vs| - 1] case Bool(b) => Some(Some(b)) case _ => Some(None)
  {
    if ms != [] {
      FlagFieldMeans(ms[..|ms| - 1], name);
      GivenStep(ms, name);
      var vs, v := Given(ms[..|ms| - 1], name), ms[|ms| - 1].value;
      if EqualFold(ms[|ms| - 1].key, name) {
        assert Given(ms, name)[|vs|] == v;
        assert (exists u :: u in Given(ms, name) && !BoolOrNull(u)) <==> (exists u :: u in vs && !BoolOrNull(u)) || !BoolOrNull(v);
      }
    }
  }

  /** Of lists of texts the last one given stands, none when it is null. */
  lemma {:induction false} TextsFieldMeans(ms: seq<Member>, name: string)
    ensures var vs := Given(ms, name);
            TextsField(ms, name) ==
            if exists v :: v in vs && DecodeTexts(v).None? then None
            else if vs == [] then Some([])
            else DecodeTexts(vs[|vs| - 1])
  {
    if ms != [] {
      TextsFieldMeans(ms[..|ms| - 1], name);
      GivenStep(ms, name);
    }
  }

  /** A raw value is the last one given, null or not. */
  lemma {:induction false} RawFieldMeans(ms: seq<Member>, name: string)
    ensures var vs := Given(ms, name); RawField(ms, name) == if vs == [] then None else Some(vs[|vs| - 1])
  {
    if ms != [] {
      RawFieldMeans(ms[..|ms| - 1], name);
      GivenStep(ms, name);
    }
  }

  /** In a map of raw values each key has the last value given for exactly that key. */
  lemma {:induction false} RawMapMeans(ms: seq<Member>, i: nat)
    requires i < |ms| && forall j :: i < j < |ms| ==> ms[j].key != ms[i].key
    ensures ms[i].key in RawMap(ms)
    ensures RawMap(ms)[ms[i].key] == ms[i].value
  {
    var n := |ms| - 1;
    if i < n { RawMapMeans(ms[..n], i); }
  }
}
