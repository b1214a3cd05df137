/**
 The JSON form of an extension's files. A file is text, an array of lines, or an object
 that refers to a separate file and may carry its content.
 */
module ExtensionFiles {
  import opened Common
  import opened Json

  datatype File = File(ref: string, content: string)

  // ------------------------------------------------------------ lines

  /** strings.Join with newlines. */
  function Join(lines: seq<string>): string {
    if lines == [] then ""
    else if |lines| == 1 then lines[0]
    else lines[0] + "\n" + Join(lines[1..])
  }

  lemma {:induction false} JoinSplit(s: string)
    ensures Join(Split(s, '\n')) == s
  {
    if s != "" {
      JoinSplit(s[1..]);
      var rest := Split(s[1..], '\n');
      var lines := Split(s, '\n');
      if s[0] == '\n' {
        assert lines[1..] == rest;
        assert Join(lines) == "" + "\n" + Join(rest);
      } else {
        assert lines[1..] == rest[1..];
        if |rest| > 1 {
          assert Join(rest) == rest[0] + "\n" + Join(rest[1..]);
          assert Join(lines) == [s[0]] + Join(rest);
        }
      }
    }
  }

  predicate OneLine(s: string) {
    '\n' !in s
  }

  predicate Lines(lines: seq<string>) {
    lines != [] && forall l :: l in lines ==> OneLine(l)
  }

  lemma {:induction false} SplitIsLines(s: string)
    ensures Lines(Split(s, '\n'))
    ensures |Split(s, '\n')| == 1 <==> OneLine(s)
  {
    if s != "" {
      SplitIsLines(s[1..]);
      var rest := Split(s[1..], '\n');
      assert s == [s[0]] + s[1..];
      assert rest[0] in rest;
      assert forall l :: l in rest[1..] ==> l in rest;
    }
  }

  lemma {:induction false} SplitPrefix(l: string, s: string)
    requires OneLine(l)
    ensures Split(l + "\n" + s, '\n') == [l] + Split(s, '\n')
    ensures Split(l, '\n') == [l]
  {
    if l == "" {
      assert (l + "\n" + s)[1..] == s;
      assert l + "\n" + s == "\n" + s;
    } else {
      SplitPrefix(l[1..], s);
      assert (l + "\n" + s)[1..] == l[1..] + "\n" + s;
      assert (l + "\n" + s)[0] == l[0];
      assert [l[0]] + l[1..] == l;
    }
  }

  /** Splitting undoes joining exactly for one or more lines that hold no newline. */
  lemma {:induction false} SplitJoin(lines: seq<string>)
    ensures Split(Join(lines), '\n') == lines <==> Lines(lines)
  {
    if Lines(lines) {
      SplitJoinLines(lines);
    } else {
      SplitIsLines(Join(lines));
    }
  }

  lemma {:induction false} SplitJoinLines(lines: seq<string>)
    requires Lines(lines)
    ensures Split(Join(lines), '\n') == lines
  {
    assert OneLine(lines[0]) by { assert lines[0] in lines; }
    if |lines| == 1 {
      SplitPrefix(lines[0], "");
    } else {
      assert forall l :: l in lines[1..] ==> l in lines;
      SplitJoinLines(lines[1..]);
      SplitPrefix(lines[0], Join(lines[1..]));
    }
  }

  // ------------------------------------------------------------ one file

  /** A string or an array of lines. */
  function DecodeContent(j: Json): Option<string> {
    match j
    case Str(s) => Some(s)
    case Arr(items) =>
      (match TextsOf(items)
       case None => None
       case Some(lines) => Some(Join(lines)))
    case _ => None
  }

  function DecodeFile(j: Json): Option<File> {
    match j
    case Null => Some(File("", ""))
    case Obj(ms) =>
      (match TextField(ms, "ref")
       case None => None
       case Some(ref) =>
         match RawField(ms, "content")
         case None => Some(File(ref, ""))
         case Some(Null) => Some(File(ref, ""))
         case Some(raw) =>
           match DecodeContent(raw)
           case None => None
           case Some(content) => Some(File(ref, content)))
    case _ =>
      match DecodeContent(j)
      case None => None
      case Some(content) => Some(File("", content))
  }

  function EncodeContent(content: string): Json {
    if '\n' in content then Texts(Split(content, '\n')) else Str(content)
  }

  /** Object keys come out in sorted order. */
  function EncodeFile(f: File): Json {
    if f.ref == "" then EncodeContent(f.content)
    else
      Obj((if f.content != "" then [Member("content", EncodeContent(f.content))] else []) +
          [Member("ref", Str(f.ref))])
  }

  lemma ContentRoundTrip(content: string)
    ensures DecodeContent(EncodeContent(content)) == Some(content)
    ensures !EncodeContent(content).Null?
    ensures !EncodeContent(content).Obj?
  {
    JoinSplit(content);
    TextsRoundTrip(Split(content, '\n'));
  }

  lemma NamesDiffer()
    ensures !EqualFold("content", "ref")
    ensures !EqualFold("ref", "content")
    ensures EqualFold("content", "content")
    ensures EqualFold("ref", "ref")
  {
    assert |ToLower("content")| == 7 && |ToLower("ref")| == 3;
  }

  lemma FieldsOfPair(content: Json, ref: string)
    ensures var ms := [Member("content", content), Member("ref", Str(ref))];
            TextField(ms, "ref") == Some(ref) && RawField(ms, "content") == Some(content)
  {
    NamesDiffer();
    var one := [Member("content", content)];
    var ms := [Member("content", content), Member("ref", Str(ref))];
    assert ms[..1] == one && one[..0] == [];
    assert TextField(one, "ref") == Some("");
    assert RawField(one, "content") == Some(content);
  }

  lemma FieldsOfRef(ref: string)
    ensures var ms := [Member("ref", Str(ref))];
            TextField(ms, "ref") == Some(ref) && RawField(ms, "content") == None
  {
    NamesDiffer();
    var ms := [Member("ref", Str(ref))];
    assert ms[..0] == [];
  }

  /** An encoded file decodes to the same reference and content, whatever the text. */
  lemma FileRoundTrip(f: File)
    ensures DecodeFile(EncodeFile(f)) == Some(f)
  {
    ContentRoundTrip(f.content);
    if f.ref != "" {
      FieldsOfRef(f.ref);
      FieldsOfPair(EncodeContent(f.content), f.ref);
      var ms := EncodeFile(f).members;
      if f.content != "" {
        assert ms == [Member("content", EncodeContent(f.content)), Member("ref", Str(f.ref))];
      } else {
        assert ms == [Member("ref", Str(f.ref))];
      }
    }
  }

  /** The shapes of content: text, or a list of lines among which a null is an empty one. */
  predicate IsContent(j: Json) {
    j.Str? || (j.Arr? && forall i :: 0 <= i < |j.items| ==> TextOrNull(j.items[i]))
  }

  /** Exactly these documents are a file: null, content, or an object with a text for reference and content or none. */
  lemma DecodesIff(j: Json)
    ensures DecodeFile(j).Some? <==>
            || j.Null? || IsContent(j)
            || (j.Obj? && TextField(j.members, "ref").Some? &&
                match RawField(j.members, "content") case None => true case Some(c) => c.Null? || IsContent(c))
  {
  }

  /** What they mean: the text, the lines joined, and where an object has it the reference. */
  lemma DecodeMeans(j: Json)
    ensures j.Str? ==> DecodeFile(j) == Some(File("", j.s))
    ensures j.Arr? && IsContent(j) ==>
              exists lines :: DecodeFile(j) == Some(File("", Join(lines))) && |lines| == |j.items| &&
                forall i :: 0 <= i < |lines| ==> lines[i] == if j.items[i].Str? then j.items[i].s else ""
    ensures j.Obj? && DecodeFile(j).Some? ==>
              var f := DecodeFile(j).value;
              && TextField(j.members, "ref") == Some(f.ref)
              && match RawField(j.members, "content")
                 case None => f.content == ""
                 case Some(c) => if c.Null? then f.content == "" else DecodeFile(c) == Some(File("", f.content))
  {
    if j.Arr? && IsContent(j) {
      var lines := TextsOf(j.items).value;
      assert DecodeFile(j) == Some(File("", Join(lines)));
    }
  }

  // ------------------------------------------------------------ normal form of a file

  /** A one-line string, or two or more lines as an array. */
  predicate NormalContent(j: Json) {
    || (j.Str? && OneLine(j.s))
    || (j.Arr? && |j.items| >= 2 && forall i :: 0 <= i < |j.items| ==> j.items[i].Str? && OneLine(j.items[i].s))
  }

  predicate NormalRef(m: Member) {
    m.key == "ref" && m.value.Str? && m.value.s != ""
  }

  /** The shapes the encoder produces. */
  predicate NormalFile(j: Json) {
    || NormalContent(j)
    || (j.Obj? && |j.members| == 1 && NormalRef(j.members[0]))
    || (j.Obj? && |j.members| == 2 && NormalRef(j.members[1]) && j.members[0].key == "content" &&
        NormalContent(j.members[0].value) && j.members[0].value != Str(""))
  }

  lemma EncodedContentIsNormal(content: string)
    ensures NormalContent(EncodeContent(content))
    ensures EncodeContent(content) == Str("") <==> content == ""
  {
    SplitIsLines(content);
    if '\n' in content {
      var lines := Split(content, '\n');
      forall i | 0 <= i < |lines| ensures OneLine(lines[i]) { assert lines[i] in lines; }
    }
  }

  lemma NormalContentIsEncoded(j: Json) returns (content: string)
    requires NormalContent(j)
    ensures EncodeContent(content) == j
  {
    if j.Str? { return j.s; }
    var lines := TextsOf(j.items).value;
    forall l | l in lines ensures OneLine(l) {
      var i :| 0 <= i < |lines| && lines[i] == l;
      assert j.items[i].Str?;
    }
    content := Join(lines);
    SplitJoinLines(lines);
    SplitIsLines(content);
    assert Texts(lines).items == j.items;
  }

  /** The encoder produces exactly the normal shapes. */
  lemma NormalIffEncoded(j: Json)
    ensures NormalFile(j) <==> exists f :: EncodeFile(f) == j
  {
    if NormalFile(j) {
      var f: File;
      if NormalContent(j) {
        var content := NormalContentIsEncoded(j);
        f := File("", content);
      } else if |j.members| == 1 {
        f := File(j.members[0].value.s, "");
        assert j.members == [Member("ref", Str(f.ref))];
      } else {
        var content := NormalContentIsEncoded(j.members[0].value);
        EncodedContentIsNormal(content);
        f := File(j.members[1].value.s, content);
        assert j.members == [Member("content", EncodeContent(content)), Member("ref", Str(f.ref))];
      }
      assert EncodeFile(f) == j;
    }
    if f :| EncodeFile(f) == j {
      EncodedContentIsNormal(f.content);
      if f.ref != "" && f.content != "" {
        assert j == Obj([Member("content", EncodeContent(f.content)), Member("ref", Str(f.ref))]);
      }
    }
  }

  /** What decoding and encoding again makes of a document; None when it does not decode. */
  function Rewrite(j: Json): Option<Json> {
    match DecodeFile(j)
    case None => None
    case Some(f) => Some(EncodeFile(f))
  }

  /** Rewriting keeps the meaning, settles at once, and changes exactly what is not normal. */
  lemma RewriteSettles(j: Json)
    requires Rewrite(j).Some?
    ensures DecodeFile(Rewrite(j).value) == DecodeFile(j)
    ensures Rewrite(Rewrite(j).value) == Rewrite(j)
    ensures Rewrite(j) == Some(j) <==> NormalFile(j)
  {
    var f := DecodeFile(j).value;
    FileRoundTrip(f);
    NormalIffEncoded(j);
    if NormalFile(j) {
      var g :| EncodeFile(g) == j;
      FileRoundTrip(g);
    }
  }

  // ------------------------------------------------------------ the map of files

  type Files = Option<map<string, File>>   // None is the nil map

  /** The loop over the entries of the map, in any order: one that does not decode fails them all. */
  method CollectFiles(entries: map<string, Option<File>>) returns (r: Option<map<string, File>>)
    ensures r.Some? <==> forall k :: k in entries ==> entries[k].Some?
    ensures r.Some? ==> r.value.Keys == entries.Keys && forall k :: k in entries ==> entries[k] == Some(r.value[k])
  {
    var out: map<string, File>, rest := map[], entries.Keys;
    while rest != {}
      invariant rest <= entries.Keys && out.Keys == entries.Keys - rest
      invariant forall k :: k in out ==> entries[k] == Some(out[k])
      decreases |rest|
    {
      var key :| key in rest;
      if entries[key].None? { return None; }
      out, rest := out[key := entries[key].value], rest - {key};
    }
    r := Some(out);
  }

  /** On a failure the target is left as it was. */
  method DecodeFiles(j: Json) returns (r: Option<Files>)
    ensures r == FilesOf(j)
  {
    if j.Null? { return Some(None); }
    if !j.Obj? { return None; }
    var raw := RawMap(j.members);
    var entries := map k | k in raw :: DecodeFile(raw[k]);
    var out := CollectFiles(entries);
    if out.None? { return None; }
    AllDecoded(j, out.value);
    r := Some(out);
  }

  function FilesOf(j: Json): Option<Files> {
    match j
    case Null => Some(None)
    case Obj(ms) =>
      var raw := RawMap(ms);
      if forall k :: k in raw ==> DecodeFile(raw[k]).Some?
      then Some(Some(map k | k in raw :: DecodeFile(raw[k]).value))
      else None
    case _ => None
  }

  lemma AllDecoded(j: Json, out: map<string, File>)
    requires j.Obj? && out.Keys == RawMap(j.members).Keys
    requires forall k :: k in out ==> DecodeFile(RawMap(j.members)[k]) == Some(out[k])
    ensures FilesOf(j) == Some(Some(out))
  {
    var raw := RawMap(j.members);
    assert forall k :: k in raw ==> k in out && DecodeFile(raw[k]).Some?;
    assert FilesOf(j).value.value == out;
  }

  function MembersOf(m: map<string, File>, keys: seq<string>): (ms: seq<Member>)
    requires forall k :: k in keys ==> k in m
    ensures |ms| == |keys|
    ensures forall i :: 0 <= i < |keys| ==> ms[i] == Member(keys[i], EncodeFile(m[keys[i]]))
  {
    seq(|keys|, i requires 0 <= i < |keys| => Member(keys[i], EncodeFile(m[keys[i]])))
  }

  /** keys is the sorted list of the map's keys. */
  predicate SortedKeysOf(keys: seq<string>, m: map<string, File>) {
    Distinct(keys) && Sorted(keys, StrLe) && Elements(keys) == m.Keys
  }

  predicate EncodedAs(files: Files, keys: seq<string>, j: Json) {
    match files
    case None => j.Null?
    case Some(m) => SortedKeysOf(keys, m) && j == Obj(MembersOf(m, keys))
  }

  lemma {:induction false} RawMapOfDistinct(ms: seq<Member>, i: nat)
    requires i < |ms| && forall a, b :: 0 <= a < b < |ms| ==> ms[a].key != ms[b].key
    ensures ms[i].key in RawMap(ms)
    ensures RawMap(ms)[ms[i].key] == ms[i].value
  {
    var n := |ms| - 1;
    if i < n {
      RawMapOfDistinct(ms[..n], i);
      assert ms[i].key != ms[n].key;
    }
  }

  lemma RawMapOfMembers(m: map<string, File>, keys: seq<string>)
    requires SortedKeysOf(keys, m)
    ensures var raw := RawMap(MembersOf(m, keys));
            raw.Keys == m.Keys && forall k :: k in m ==> raw[k] == EncodeFile(m[k])
  {
    var ms := MembersOf(m, keys);
    var raw := RawMap(ms);
    forall k | k in m ensures k in raw && raw[k] == EncodeFile(m[k]) {
      assert k in Elements(keys);
      var i :| 0 <= i < |keys| && keys[i] == k;
      RawMapOfDistinct(ms, i);
    }
    forall k | k in raw ensures k in m {
      var i :| 0 <= i < |ms| && ms[i].key == k;
      assert keys[i] in Elements(keys);
    }
  }

  /** Every file map survives encoding and decoding; nil stays nil. */
  lemma FilesRoundTrip(files: Files, keys: seq<string>, j: Json)
    requires EncodedAs(files, keys, j)
    ensures FilesOf(j) == Some(files)
  {
    if files.Some? {
      var m, raw := files.value, RawMap(j.members);
      RawMapOfMembers(m, keys);
      forall k | k in m ensures DecodeFile(raw[k]) == Some(m[k]) {
        FileRoundTrip(m[k]);
      }
      assert FilesOf(j).value.value == m;
    }
  }

  /** Encoding is a function of the map: the order of map iteration cannot show. */
  lemma EncodingUnique(files: Files, keys: seq<string>, j: Json, keys2: seq<string>, j2: Json)
    requires EncodedAs(files, keys, j) && EncodedAs(files, keys2, j2)
    ensures j == j2
  {
    if files.Some? {
      DistinctIsMultiset(keys);
      DistinctIsMultiset(keys2);
      forall x: string, y: string | StrLe(x, y) && StrLe(y, x) ensures x == y { StrLeTotal(x, y); }
      SortedUnique(keys, keys2, StrLe);
    }
  }
}
