/**
 A text form of JSON values that reads back: it shows that the laws `Fallback` asks of the JSON
 package, of the expansion of variables and of the walk over a map can be met together. Values
 are written with a mark in front and, where they have parts, one at the end; nothing in between
 can be taken for such a mark, so two written values never agree, whatever follows them.
 */
module JsonText {
  import opened Common
  import opened Json
  import opened Fallback

  // ------------------------------------------------------------ writing

  function Ones(n: nat): string {
    if n == 0 then "." else "1" + Ones(n - 1)
  }

  /** Every character is marked, so that the end is recognised. */
  function WriteText(s: string): string {
    if s == "" then "." else ['c', s[0]] + WriteText(s[1..])
  }

  function Write(j: Json): string
    decreases j, 1, 0
  {
    match j
    case Null => "n"
    case Bool(b) => if b then "t" else "f"
    case Num(n) => if n < 0 then "-" + Ones(-n) else "+" + Ones(n)
    case Str(s) => "s" + WriteText(s)
    case Arr(items) => "[" + WriteItems(j, 0)
    case Obj(_) => "{" + WriteMembers(j, 0)
  }

  function WriteItems(j: Json, i: nat): string
    requires j.Arr? && i <= |j.items|
    decreases j, 0, |j.items| - i
  {
    if i == |j.items| then "]" else "," + Write(j.items[i]) + WriteItems(j, i + 1)
  }

  function WriteMembers(j: Json, i: nat): string
    requires j.Obj? && i <= |j.members|
    decreases j, 0, |j.members| - i
  {
    if i == |j.members| then "}"
    else "," + WriteText(j.members[i].key) + Write(j.members[i].value) + WriteMembers(j, i + 1)
  }

  // ------------------------------------------------------------ what is written can be told apart

  lemma {:induction false} OnesUnique(m: nat, n: nat, x: string, y: string)
    requires Ones(m) + x == Ones(n) + y
    ensures m == n && x == y
  {
    assert (Ones(m) + x)[0] == (if m == 0 then '.' else '1') && (Ones(n) + y)[0] == (if n == 0 then '.' else '1');
    if m == 0 {
      assert (Ones(m) + x)[1..] == x && (Ones(n) + y)[1..] == y;
    } else {
      assert (Ones(m) + x)[1..] == Ones(m - 1) + x && (Ones(n) + y)[1..] == Ones(n - 1) + y;
      OnesUnique(m - 1, n - 1, x, y);
    }
  }

  lemma {:induction false} TextUnique(s: string, t: string, x: string, y: string)
    requires WriteText(s) + x == WriteText(t) + y
    ensures s == t && x == y
  {
    assert (WriteText(s) + x)[0] == (if s == "" then '.' else 'c') && (WriteText(t) + y)[0] == (if t == "" then '.' else 'c');
    if s == "" {
      assert (WriteText(s) + x)[1..] == x && (WriteText(t) + y)[1..] == y;
    } else {
      assert (WriteText(s) + x)[1] == s[0] && (WriteText(t) + y)[1] == t[0];
      assert (WriteText(s) + x)[2..] == WriteText(s[1..]) + x && (WriteText(t) + y)[2..] == WriteText(t[1..]) + y;
      TextUnique(s[1..], t[1..], x, y);
    }
  }

  /** The first character tells the kind of value. */
  function Mark(j: Json): char {
    match j
    case Null => 'n'
    case Bool(b) => if b then 't' else 'f'
    case Num(n) => if n < 0 then '-' else '+'
    case Str(_) => 's'
    case Arr(_) => '['
    case Obj(_) => '{'
  }

  function Rest(j: Json): string {
    match j
    case Num(n) => Ones(if n < 0 then -n else n)
    case Str(s) => WriteText(s)
    case Arr(_) => WriteItems(j, 0)
    case Obj(_) => WriteMembers(j, 0)
    case _ => ""
  }

  lemma MarkAndRest(j: Json, x: string)
    ensures Write(j) + x == [Mark(j)] + (Rest(j) + x)
  {
    assert Write(j) == [Mark(j)] + Rest(j);
  }

  /** Written values can be told apart, and from what follows them. */
  lemma {:induction false} WriteUnique(a: Json, b: Json, x: string, y: string)
    requires Write(a) + x == Write(b) + y
    ensures a == b && x == y
    decreases a, 1, 0
  {
    MarkAndRest(a, x);
    MarkAndRest(b, y);
    assert Mark(a) == Mark(b) by { assert (Write(a) + x)[0] == Mark(a) && (Write(b) + y)[0] == Mark(b); }
    assert Rest(a) + x == Rest(b) + y by {
      assert (Write(a) + x)[1..] == Rest(a) + x && (Write(b) + y)[1..] == Rest(b) + y;
    }
    match a
    case Num(n) => OnesUnique(if n < 0 then -n else n, if b.n < 0 then -b.n else b.n, x, y);
    case Str(s) => TextUnique(s, b.s, x, y);
    case Arr(_) => ItemsUnique(a, b, 0, x, y);
    case Obj(_) => MembersUnique(a, b, 0, x, y);
    case _ =>
  }

  /** What follows the first character of the items from i on and of x. */
  function AfterMark(j: Json, i: nat, x: string): string
    requires j.Arr? && i <= |j.items|
  {
    if i == |j.items| then x else Write(j.items[i]) + (WriteItems(j, i + 1) + x)
  }

  lemma ItemsSplit(j: Json, i: nat, x: string)
    requires j.Arr? && i <= |j.items|
    ensures WriteItems(j, i) + x == [if i == |j.items| then ']' else ','] + AfterMark(j, i, x)
  {
    if i < |j.items| {
      var w, r := Write(j.items[i]), WriteItems(j, i + 1);
      assert WriteItems(j, i) == "," + w + r;
      assert ("," + w + r) + x == "," + (w + (r + x));
    }
  }

  lemma SameMark(m: char, n: char, x: string, y: string)
    requires [m] + x == [n] + y
    ensures m == n && x == y
  {
    assert ([m] + x)[0] == m && ([n] + y)[0] == n;
    assert ([m] + x)[1..] == x && ([n] + y)[1..] == y;
  }

  lemma PrefixGrows<T>(xs: seq<T>, ys: seq<T>, i: nat)
    requires i < |xs| && i < |ys| && xs[..i] == ys[..i] && xs[i] == ys[i]
    ensures xs[..i + 1] == ys[..i + 1]
  {
    assert xs[..i + 1] == xs[..i] + [xs[i]] && ys[..i + 1] == ys[..i] + [ys[i]];
  }

  lemma {:induction false} ItemsUnique(a: Json, b: Json, i: nat, x: string, y: string)
    requires a.Arr? && b.Arr? && i <= |a.items| && i <= |b.items| && a.items[..i] == b.items[..i]
    requires WriteItems(a, i) + x == WriteItems(b, i) + y
    ensures a == b && x == y
    decreases a, 0, |a.items| - i
  {
    ItemsSplit(a, i, x);
    ItemsSplit(b, i, y);
    SameMark(if i == |a.items| then ']' else ',', if i == |b.items| then ']' else ',', AfterMark(a, i, x), AfterMark(b, i, y));
    if i == |a.items| {
      assert a.items == a.items[..i] && b.items == b.items[..i];
    } else {
      WriteUnique(a.items[i], b.items[i], WriteItems(a, i + 1) + x, WriteItems(b, i + 1) + y);
      PrefixGrows(a.items, b.items, i);
      ItemsUnique(a, b, i + 1, x, y);
    }
  }

  function AfterComma(j: Json, i: nat, x: string): string
    requires j.Obj? && i <= |j.members|
  {
    if i == |j.members| then x
    else WriteText(j.members[i].key) + (Write(j.members[i].value) + (WriteMembers(j, i + 1) + x))
  }

  lemma MembersSplit(j: Json, i: nat, x: string)
    requires j.Obj? && i <= |j.members|
    ensures WriteMembers(j, i) + x == [if i == |j.members| then '}' else ','] + AfterComma(j, i, x)
  {
    if i < |j.members| {
      var k, w, r := WriteText(j.members[i].key), Write(j.members[i].value), WriteMembers(j, i + 1);
      assert WriteMembers(j, i) == "," + k + w + r;
      assert ("," + k + w + r) + x == "," + (k + (w + (r + x)));
    }
  }

  lemma {:induction false} MembersUnique(a: Json, b: Json, i: nat, x: string, y: string)
    requires a.Obj? && b.Obj? && i <= |a.members| && i <= |b.members| && a.members[..i] == b.members[..i]
    requires WriteMembers(a, i) + x == WriteMembers(b, i) + y
    ensures a == b && x == y
    decreases a, 0, |a.members| - i
  {
    MembersSplit(a, i, x);
    MembersSplit(b, i, y);
    SameMark(if i == |a.members| then '}' else ',', if i == |b.members| then '}' else ',', AfterComma(a, i, x), AfterComma(b, i, y));
    if i == |a.members| {
      assert a.members == a.members[..i] && b.members == b.members[..i];
    } else {
      var p, q := a.members[i], b.members[i];
      var restA, restB := WriteMembers(a, i + 1) + x, WriteMembers(b, i + 1) + y;
      TextUnique(p.key, q.key, Write(p.value) + restA, Write(q.value) + restB);
      WriteUnique(p.value, q.value, restA, restB);
      PrefixGrows(a.members, b.members, i);
      MembersUnique(a, b, i + 1, x, y);
    }
  }

  // ------------------------------------------------------------ the laws

  lemma {:induction false} OnesPlain(n: nat)
    ensures '$' !in Ones(n)
  {
    if n > 0 { OnesPlain(n - 1); }
  }

  lemma {:induction false} TextPlain(s: string)
    requires '$' !in s
    ensures '$' !in WriteText(s)
  {
    if s != "" { TextPlain(s[1..]); }
  }

  lemma {:induction false} WritePlain(j: Json)
    requires Plain(j)
    ensures '$' !in Write(j)
    decreases j, 1, 0
  {
    match j
    case Num(n) => OnesPlain(if n < 0 then -n else n);
    case Str(s) => TextPlain(s);
    case Arr(_) => ItemsPlain(j, 0);
    case Obj(_) => MembersPlain(j, 0);
    case _ =>
  }

  lemma {:induction false} ItemsPlain(j: Json, i: nat)
    requires j.Arr? && i <= |j.items| && Plain(j)
    ensures '$' !in WriteItems(j, i)
    decreases j, 0, |j.items| - i
  {
    if i < |j.items| {
      WritePlain(j.items[i]);
      ItemsPlain(j, i + 1);
    }
  }

  lemma {:induction false} MembersPlain(j: Json, i: nat)
    requires j.Obj? && i <= |j.members| && Plain(j)
    ensures '$' !in WriteMembers(j, i)
    decreases j, 0, |j.members| - i
  {
    if i < |j.members| {
      TextPlain(j.members[i].key);
      WritePlain(j.members[i].value);
      MembersPlain(j, i + 1);
    }
  }

  lemma {:induction false} ItemsEnd(j: Json, i: nat)
    requires j.Arr? && i <= |j.items|
    ensures WriteItems(j, i) != ""
    ensures WriteItems(j, i)[|WriteItems(j, i)| - 1] == ']'
    decreases |j.items| - i
  {
    if i < |j.items| { ItemsEnd(j, i + 1); }
  }

  ghost function Read(t: string): Option<Json> {
    if j :| Write(j) == t then Some(j) else None
  }

  lemma ReadWrite(j: Json)
    ensures Read(Write(j)) == Some(j)
  {
    var k := Read(Write(j)).value;
    assert Write(k) == Write(j);
    assert Write(k) + "" == Write(j) + "";
    WriteUnique(k, j, "", "");
  }

  ghost function SomeWalk(keys: set<string>): (order: seq<string>)
    ensures IsWalk(order, keys)
  {
    assert exists order :: IsWalk(order, keys) by { var order := KeysInOrder(keys); }
    var order :| IsWalk(order, keys);
    order
  }

  /** All the laws can hold at once. */
  lemma LawsCanHold() returns (env: Fallback.Env)
    ensures Faithful(env)
    ensures Walks(env)
  {
    env := Env(t => Read(t), j => Write(j), s => s, keys => SomeWalk(keys));
    forall j: Json ensures env.parse(env.render(j)) == Some(j) { ReadWrite(j); }
    forall j: Json | j.Arr? ensures Trimmed(env.render(j)) && env.render(j) != "" && env.render(j)[0] == '[' {
      ItemsEnd(j, 0);
    }
    forall j: Json | Plain(j) ensures '$' !in env.render(j) { WritePlain(j); }
  }
}
