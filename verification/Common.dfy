/**
 Shared vocabulary: optional values and outcomes; the text helpers the gateway takes from Go's
 `strings` and `strconv` packages (trimming white space, splitting, lower case, comparison
 without regard to case, decimal numerals); lists without duplicates and their sets and
 multisets; sorting by a total preorder, and when a sorted list is the only one with its
 elements; sums over a map.
 */
module Common {

  datatype Option<+T> = None | Some(value: T)

  datatype Result<+T, +E> = Ok(value: T) | Err(error: E)

  // ---------------------------------------------------------------- text

  /** Go's unicode.IsSpace, the class strings.TrimSpace strips. */
  predicate IsSpace(c: char) {
    || '\t' <= c <= '\r'
    || c == ' '
    || c == '\U{0085}' || c == '\U{00A0}' || c == '\U{1680}'
    || '\U{2000}' <= c <= '\U{200A}'
    || c == '\U{2028}' || c == '\U{2029}' || c == '\U{202F}'
    || c == '\U{205F}' || c == '\U{3000}'
  }

  /** The blank characters one by one: tab to carriage return, the spaces, and the line separators. */
  lemma BlankIff(c: char)
    ensures IsSpace(c) <==>
            c in "\t\n\U{000B}\U{000C}\r \U{0085}\U{00A0}\U{1680}\U{2028}\U{2029}\U{202F}\U{205F}\U{3000}" ||
            c in "\U{2000}\U{2001}\U{2002}\U{2003}\U{2004}\U{2005}\U{2006}\U{2007}\U{2008}\U{2009}\U{200A}"
  {
  }

  /** The first position from i on that holds no blank. */
  function SkipBlanks(s: string, i: nat): (r: nat)
    requires i <= |s|
    ensures i <= r <= |s|
    ensures r < |s| ==> !IsSpace(s[r])
    decreases |s| - i
  {
    if i < |s| && IsSpace(s[i]) then SkipBlanks(s, i + 1) else i
  }

  /** The end of s[lo..hi] once blanks at its end are dropped. */
  function DropBlanks(s: string, lo: nat, hi: nat): (r: nat)
    requires lo <= hi <= |s|
    ensures lo <= r <= hi
    ensures lo < r ==> !IsSpace(s[r - 1])
    decreases hi
  {
    if lo < hi && IsSpace(s[hi - 1]) then DropBlanks(s, lo, hi - 1) else hi
  }

  /** strings.TrimSpace: nothing blank is left at either end. */
  function Trim(s: string): (r: string)
    ensures Trimmed(r)
  {
    var lo := SkipBlanks(s, 0);
    s[lo..DropBlanks(s, lo, |s|)]
  }

  predicate Trimmed(s: string) {
    s != "" ==> !IsSpace(s[0]) && !IsSpace(s[|s| - 1])
  }

  /** Trimming is the identity exactly on text with no blank at either end. */
  lemma TrimFixed(s: string)
    ensures Trim(s) == s <==> Trimmed(s)
    ensures Trim(Trim(s)) == Trim(s)
  {
    TrimOfTrimmed(Trim(s));
    if Trimmed(s) { TrimOfTrimmed(s); }
  }

  lemma TrimOfTrimmed(s: string)
    requires Trimmed(s)
    ensures Trim(s) == s
  {
  }

  predicate AllBlank(s: string) {
    forall c :: c in s ==> IsSpace(c)
  }

  lemma {:induction false} SkipsBlanks(s: string, i: nat)
    requires i <= |s|
    ensures AllBlank(s[i..SkipBlanks(s, i)])
    decreases |s| - i
  {
    if i < |s| && IsSpace(s[i]) {
      SkipsBlanks(s, i + 1);
      assert s[i..SkipBlanks(s, i)] == [s[i]] + s[i + 1..SkipBlanks(s, i)];
    }
  }

  lemma {:induction false} DropsBlanks(s: string, lo: nat, hi: nat)
    requires lo <= hi <= |s|
    ensures AllBlank(s[DropBlanks(s, lo, hi)..hi])
    decreases hi
  {
    if lo < hi && IsSpace(s[hi - 1]) {
      DropsBlanks(s, lo, hi - 1);
      assert s[DropBlanks(s, lo, hi)..hi] == s[DropBlanks(s, lo, hi)..hi - 1] + [s[hi - 1]];
    }
  }

  /** Trimming takes blanks off both ends and nothing else. */
  lemma TrimStrips(s: string) returns (before: string, after: string)
    ensures s == before + Trim(s) + after
    ensures AllBlank(before + after)
  {
    var lo := SkipBlanks(s, 0);
    var hi := DropBlanks(s, lo, |s|);
    SkipsBlanks(s, 0);
    DropsBlanks(s, lo, |s|);
    before, after := s[..lo], s[hi..];
    assert s[0..lo] == before && s[hi..|s|] == after;
  }

  lemma BlankTrims(s: string)
    ensures AllBlank(s) <==> Trim(s) == ""
  {
    var before, after := TrimStrips(s);
    assert Trim(s) != "" ==> Trim(s)[0] in s;
    assert Trim(s) == "" ==> s == before + after;
  }

  function ToLowerChar(c: char): char {
    if 'A' <= c <= 'Z' then c + 32 as char else c
  }

  /** strings.ToLower on ASCII text. */
  function ToLower(s: string): (r: string)
    ensures |r| == |s|
    ensures forall i :: 0 <= i < |s| ==> r[i] == ToLowerChar(s[i])
  {
    seq(|s|, i requires 0 <= i < |s| => ToLowerChar(s[i]))
  }

  predicate EqualFold(a: string, b: string) {
    ToLower(a) == ToLower(b)
  }

  /** c and d are the same character, or the two cases of one letter. */
  predicate SameLetter(c: char, d: char) {
    || c == d
    || ('A' <= c <= 'Z' && d as int == c as int + 32)
    || ('A' <= d <= 'Z' && c as int == d as int + 32)
  }

  /** Text folds alike exactly when it differs in case only, and lower case holds no capital. */
  lemma FoldIff(a: string, b: string)
    ensures EqualFold(a, b) <==> |a| == |b| && forall i :: 0 <= i < |a| ==> SameLetter(a[i], b[i])
    ensures EqualFold(a, ToLower(a)) && forall c :: c in ToLower(a) ==> !('A' <= c <= 'Z')
  {
    var x, y := ToLower(a), ToLower(b);
    if |a| == |b| {
      forall i | 0 <= i < |a| ensures x[i] == y[i] <==> SameLetter(a[i], b[i]) {}
      if forall i :: 0 <= i < |a| ==> SameLetter(a[i], b[i]) { assert x == y; }
    }
    assert ToLower(x) == x;
  }

  /** strings.Split on a separator of one character. */
  function Split(s: string, sep: char): (parts: seq<string>)
    ensures parts != []
  {
    if s == "" then [""]
    else
      var rest := Split(s[1..], sep);
      if s[0] == sep then [""] + rest else [[s[0]] + rest[0]] + rest[1..]
  }

  /** The texts that are not blank, trimmed. */
  function NonBlank(ts: seq<string>): (r: seq<string>)
    ensures forall i :: 0 <= i < |r| ==> r[i] != "" && Trim(r[i]) == r[i]
  {
    if ts == [] then []
    else
      var n := |ts| - 1;
      TrimFixed(ts[n]);
      NonBlank(ts[..n]) + if Trim(ts[n]) == "" then [] else [Trim(ts[n])]
  }

  lemma {:induction false} NonBlankMembers(ts: seq<string>, x: string)
    ensures x in NonBlank(ts) <==> x != "" && exists t :: t in ts && Trim(t) == x
  {
    if ts != [] {
      var n := |ts| - 1;
      NonBlankMembers(ts[..n], x);
      assert ts == ts[..n] + [ts[n]];
    }
  }

  /** A text alone is kept trimmed unless it is blank ... */
  lemma NonBlankOne(x: string)
    ensures NonBlank([x]) == if AllBlank(x) then [] else [Trim(x)]
  {
    BlankTrims(x);
    assert [x][..0] == [];
  }

  /** ... and one more text comes last, if it is kept. */
  lemma NonBlankMore(ts: seq<string>, x: string)
    ensures NonBlank(ts + [x]) == NonBlank(ts) + NonBlank([x])
  {
    assert (ts + [x])[..|ts|] == ts && [x][..0] == [];
  }

  // ---------------------------------------------------------------- decimals

  function Digit(d: nat): char
    requires d < 10
  {
    '0' + d as char
  }

  /** fmt.Sprintf("%d", n) for n >= 0. */
  function Decimal(n: nat): (s: string)
    ensures s != ""
  {
    if n < 10 then [Digit(n)] else Decimal(n / 10) + [Digit(n % 10)]
  }

  function DecimalValue(s: string): int {
    if s == "" then 0 else 10 * DecimalValue(s[..|s| - 1]) + (s[|s| - 1] as int - '0' as int)
  }

  lemma {:induction false} DecimalRoundTrip(n: nat)
    ensures DecimalValue(Decimal(n)) == n
  {
    if n >= 10 {
      DecimalRoundTrip(n / 10);
      var s := Decimal(n);
      assert s[..|s| - 1] == Decimal(n / 10);
    } else {
      assert Decimal(n)[..0] == "";
    }
  }

  predicate Digits(s: string) {
    forall c :: c in s ==> '0' <= c <= '9'
  }

  /** A numeral is written with digits, without a leading zero, and means its number. */
  lemma {:induction false} DecimalMeans(n: nat)
    ensures Digits(Decimal(n)) && DecimalValue(Decimal(n)) == n
    ensures Decimal(n)[0] == '0' ==> Decimal(n) == "0"
  {
    DecimalRoundTrip(n);
    if n >= 10 { DecimalMeans(n / 10); }
  }

  lemma DecimalInjective(m: nat, n: nat)
    requires Decimal(m) == Decimal(n)
    ensures m == n
  {
    DecimalRoundTrip(m);
    DecimalRoundTrip(n);
  }

  // ---------------------------------------------------------------- sequences

  predicate Distinct<T(==)>(xs: seq<T>) {
    forall i, j :: 0 <= i < j < |xs| ==> xs[i] != xs[j]
  }

  function Elements<T>(xs: seq<T>): set<T> {
    set x | x in xs
  }

  lemma DistinctAppend<T>(xs: seq<T>, x: T)
    requires Distinct(xs) && x !in xs
    ensures Distinct(xs + [x])
  {
  }

  lemma Reassociate<T>(a: seq<T>, b: seq<T>, c: seq<T>)
    ensures (a + b) + c == a + (b + c)
  {
  }

  /** The first appearance of every element. */
  function Dedup<T(==)>(xs: seq<T>): seq<T> {
    if xs == [] then []
    else
      var out, x := Dedup(xs[..|xs| - 1]), xs[|xs| - 1];
      if x in out then out else out + [x]
  }

  /** Nothing is lost or repeated; a list stays as it is exactly when nothing repeats in it. */
  lemma {:induction false} DedupSpec<T>(xs: seq<T>)
    ensures Distinct(Dedup(xs))
    ensures Elements(Dedup(xs)) == Elements(xs)
    ensures Dedup(xs) == xs <==> Distinct(xs)
    ensures |Dedup(xs)| <= |xs|
  {
    if xs != [] {
      var n := |xs| - 1;
      DedupSpec(xs[..n]);
      assert xs == xs[..n] + [xs[n]];
      assert Elements(xs) == Elements(xs[..n]) + {xs[n]};
      assert xs[n] in Dedup(xs[..n]) <==> xs[n] in Elements(Dedup(xs[..n]));
      if xs[n] !in Dedup(xs[..n]) {
        DistinctAppend(Dedup(xs[..n]), xs[n]);
        assert Elements(Dedup(xs[..n]) + [xs[n]]) == Elements(Dedup(xs[..n])) + {xs[n]};
      }
    }
  }

  /** What comes later never changes what was kept so far: first appearances stay, in order. */
  lemma {:induction false} DedupPrefix<T>(xs: seq<T>, ys: seq<T>)
    ensures Dedup(xs) <= Dedup(xs + ys)
  {
    if ys == [] {
      assert xs + ys == xs;
    } else {
      var n := |ys| - 1;
      DedupPrefix(xs, ys[..n]);
      assert (xs + ys)[..|xs + ys| - 1] == xs + ys[..n];
    }
  }

  // ---------------------------------------------------------------- sorting

  ghost predicate Preorder<T(!new)>(le: (T, T) -> bool) {
    && (forall x, y :: le(x, y) || le(y, x))
    && (forall x, y, z :: le(x, y) && le(y, z) ==> le(x, z))
  }

  predicate Sorted<T>(xs: seq<T>, le: (T, T) -> bool) {
    forall i, j :: 0 <= i < j < |xs| ==> le(xs[i], xs[j])
  }

  function Insert<T>(x: T, xs: seq<T>, le: (T, T) -> bool): (r: seq<T>)
    ensures multiset(r) == multiset(xs) + multiset{x}
  {
    if xs == [] then [x]
    else if le(x, xs[0]) then [x] + xs
    else
      assert xs == [xs[0]] + xs[1..];
      [xs[0]] + Insert(x, xs[1..], le)
  }

  /** What sort.Slice and sort.Strings promise: a permutation in ascending order. */
  function Sort<T>(xs: seq<T>, le: (T, T) -> bool): (r: seq<T>)
    ensures multiset(r) == multiset(xs)
  {
    if xs == [] then []
    else
      assert xs == [xs[0]] + xs[1..];
      Insert(xs[0], Sort(xs[1..], le), le)
  }

  lemma MultisetMembers<T>(xs: seq<T>, ys: seq<T>)
    requires multiset(xs) == multiset(ys)
    ensures |xs| == |ys|
    ensures forall x :: x in xs <==> x in ys
  {
    assert |multiset(xs)| == |xs| && |multiset(ys)| == |ys|;
    forall x ensures x in xs <==> x in ys {
      assert x in xs <==> x in multiset(xs);
      assert x in ys <==> x in multiset(ys);
    }
  }

  lemma {:induction false} InsertSorted<T(!new)>(x: T, xs: seq<T>, le: (T, T) -> bool)
    requires Preorder(le) && Sorted(xs, le)
    ensures Sorted(Insert(x, xs, le), le)
  {
    if xs != [] {
      if le(x, xs[0]) {
        forall j | 0 <= j < |xs| ensures le(x, xs[j]) {
          assert j == 0 || le(xs[0], xs[j]);
        }
      } else {
        InsertSorted(x, xs[1..], le);
        var rest := Insert(x, xs[1..], le);
        assert xs == [xs[0]] + xs[1..];
        forall y | y in rest ensures le(xs[0], y) {
          assert y in multiset(rest);
          assert y == x || y in xs[1..];
        }
      }
    }
  }

  lemma {:induction false} SortSorted<T(!new)>(xs: seq<T>, le: (T, T) -> bool)
    requires Preorder(le)
    ensures Sorted(Sort(xs, le), le)
  {
    if xs != [] {
      SortSorted(xs[1..], le);
      InsertSorted(xs[0], Sort(xs[1..], le), le);
    }
  }

  lemma SortedHead<T>(xs: seq<T>, ys: seq<T>, le: (T, T) -> bool)
    requires xs != [] && ys != [] && Sorted(xs, le) && Sorted(ys, le)
    requires xs[0] in ys && ys[0] in xs
    ensures xs[0] == ys[0] || (le(xs[0], ys[0]) && le(ys[0], xs[0]))
  {
    var i :| 0 <= i < |xs| && xs[i] == ys[0];
    var j :| 0 <= j < |ys| && ys[j] == xs[0];
  }

  lemma SplitHead<T>(xs: seq<T>)
    requires xs != []
    ensures multiset(xs[1..]) == multiset(xs) - multiset{xs[0]}
  {
    assert xs == [xs[0]] + xs[1..];
  }

  /** A sorted sequence is determined by its elements when ties are equal. */
  lemma {:induction false} SortedUnique<T>(xs: seq<T>, ys: seq<T>, le: (T, T) -> bool)
    requires Sorted(xs, le) && Sorted(ys, le)
    requires multiset(xs) == multiset(ys)
    requires forall x, y :: x in xs && y in xs && le(x, y) && le(y, x) ==> x == y
    ensures xs == ys
  {
    MultisetMembers(xs, ys);
    if xs != [] {
      assert xs[0] == ys[0] by { SortedHead(xs, ys, le); }
      SplitHead(xs);
      SplitHead(ys);
      assert forall x :: x in xs[1..] ==> x in xs;
      SortedUnique(xs[1..], ys[1..], le);
    }
  }

  /** Go's order on strings. */
  predicate StrLe(a: string, b: string) {
    if a == "" then true
    else if b == "" then false
    else if a[0] != b[0] then a[0] < b[0]
    else StrLe(a[1..], b[1..])
  }

  /** a is at or before b in the dictionary: a prefix of it, or smaller where they first differ. */
  ghost predicate InDictionaryOrder(a: string, b: string) {
    exists k :: DiffersAt(a, b, k)
  }

  predicate DiffersAt(a: string, b: string, k: int) {
    0 <= k <= |a| && k <= |b| && a[..k] == b[..k] && (k == |a| || (k < |b| && a[k] < b[k]))
  }

  lemma {:induction false} StrLeIff(a: string, b: string)
    ensures StrLe(a, b) <==> InDictionaryOrder(a, b)
  {
    if a == "" {
      assert DiffersAt(a, b, 0);
    } else if b != "" && a[0] == b[0] {
      StrLeIff(a[1..], b[1..]);
      if StrLe(a, b) {
        var k :| DiffersAt(a[1..], b[1..], k);
        assert a[..k + 1] == [a[0]] + a[1..][..k] && b[..k + 1] == [b[0]] + b[1..][..k];
        assert DiffersAt(a, b, k + 1);
      }
      if k :| DiffersAt(a, b, k) {
        assert k > 0;
        assert a[1..][..k - 1] == a[..k][1..] && b[1..][..k - 1] == b[..k][1..];
        assert DiffersAt(a[1..], b[1..], k - 1);
      }
    } else if b != "" {
      if StrLe(a, b) { assert DiffersAt(a, b, 0); }
      if k :| DiffersAt(a, b, k) { assert k > 0 ==> a[..k][0] == b[..k][0]; }
    }
  }

  lemma {:induction false} StrLeTotal(a: string, b: string)
    ensures StrLe(a, b) || StrLe(b, a)
    ensures StrLe(a, b) && StrLe(b, a) ==> a == b
  {
    if a != "" && b != "" && a[0] == b[0] {
      StrLeTotal(a[1..], b[1..]);
      assert a == [a[0]] + a[1..] && b == [b[0]] + b[1..];
    }
  }

  lemma {:induction false} StrLeTransitive(a: string, b: string, c: string)
    requires StrLe(a, b) && StrLe(b, c)
    ensures StrLe(a, c)
  {
    if a != "" && b != "" && c != "" && a[0] == b[0] == c[0] {
      StrLeTransitive(a[1..], b[1..], c[1..]);
    }
  }

  lemma StrLePreorder()
    ensures Preorder(StrLe)
  {
    forall x: string, y: string ensures StrLe(x, y) || StrLe(y, x) { StrLeTotal(x, y); }
    forall x: string, y: string, z: string | StrLe(x, y) && StrLe(y, z) ensures StrLe(x, z) {
      StrLeTransitive(x, y, z);
    }
  }

  function SortStrings(xs: seq<string>): (r: seq<string>)
    ensures multiset(r) == multiset(xs)
  {
    Sort(xs, StrLe)
  }

  lemma DistinctIsMultiset<T>(xs: seq<T>)
    requires Distinct(xs)
    ensures multiset(xs) == multiset(Elements(xs))
  {
    forall x ensures multiset(xs)[x] == multiset(Elements(xs))[x] {
      if x in xs {
        DistinctCount(xs, x);
      } else {
        assert x !in multiset(xs);
      }
    }
  }

  lemma {:induction false} DistinctCount<T>(xs: seq<T>, x: T)
    requires Distinct(xs) && x in xs
    ensures multiset(xs)[x] == 1
  {
    assert xs == [xs[0]] + xs[1..];
    if x == xs[0] {
      assert x !in xs[1..];
      assert x !in multiset(xs[1..]);
    } else {
      DistinctCount(xs[1..], x);
    }
  }

  lemma RepeatCount<T>(xs: seq<T>, i: nat, j: nat)
    requires i < j < |xs| && xs[i] == xs[j]
    ensures multiset(xs)[xs[i]] >= 2
  {
    assert xs == xs[..j] + [xs[j]] + xs[j + 1..];
    assert xs[i] in xs[..j];
    assert xs[i] in multiset(xs[..j]);
  }

  lemma MultisetDistinct<T>(xs: seq<T>, ys: seq<T>)
    requires Distinct(xs) && multiset(xs) == multiset(ys)
    ensures Distinct(ys)
  {
    MultisetMembers(xs, ys);
    forall i, j | 0 <= i < j < |ys| ensures ys[i] != ys[j] {
      DistinctCount(xs, ys[i]);
      if ys[i] == ys[j] {
        RepeatCount(ys, i, j);
      }
    }
  }

  /** Sorting two duplicate-free lists of the same strings gives one list. */
  lemma SortStringsBySet(xs: seq<string>, ys: seq<string>)
    requires Distinct(xs) && Distinct(ys) && Elements(xs) == Elements(ys)
    ensures SortStrings(xs) == SortStrings(ys)
    ensures Sorted(SortStrings(xs), StrLe)
    ensures Distinct(SortStrings(xs))
    ensures Elements(SortStrings(xs)) == Elements(xs)
  {
    StrLePreorder();
    SortSorted(xs, StrLe);
    SortSorted(ys, StrLe);
    DistinctIsMultiset(xs);
    DistinctIsMultiset(ys);
    forall x: string, y: string | StrLe(x, y) && StrLe(y, x) ensures x == y { StrLeTotal(x, y); }
    SortedUnique(SortStrings(xs), SortStrings(ys), StrLe);
    MultisetDistinct(xs, SortStrings(xs));
    MultisetMembers(xs, SortStrings(xs));
  }

  /** The keys of a map, visited in any order and then sorted. */
  method SortedKeys<V>(m: map<string, V>) returns (keys: seq<string>)
    ensures Elements(keys) == m.Keys && Distinct(keys) && Sorted(keys, StrLe)
    ensures forall i :: 0 <= i < |keys| ==> keys[i] in m
  {
    var names: seq<string> := [];
    var rest := m.Keys;
    while rest != {}
      invariant rest <= m.Keys && Distinct(names)
      invariant Elements(names) == m.Keys - rest
      decreases rest
    {
      var k :| k in rest;
      assert k !in Elements(names);
      DistinctAppend(names, k);
      assert Elements(names + [k]) == Elements(names) + {k};
      names := names + [k];
      rest := rest - {k};
    }
    SortStringsBySet(names, names);
    keys := SortStrings(names);
    forall i | 0 <= i < |keys| ensures keys[i] in m {
      assert keys[i] in Elements(keys);
    }
  }

  // ---------------------------------------------------------------- sums over maps

  ghost function SumOf<K(!new), V>(m: map<K, V>, w: V -> int): int {
    if m == map[] then 0
    else
      var k :| k in m;
      w(m[k]) + SumOf(m - {k}, w)
  }

  lemma {:induction false} SumWithout<K(!new), V>(m: map<K, V>, w: V -> int, k: K)
    requires k in m
    ensures SumOf(m, w) == w(m[k]) + SumOf(m - {k}, w)
    decreases |m|
  {
    var j :| j in m && SumOf(m, w) == w(m[j]) + SumOf(m - {j}, w);
    if j != k {
      SumWithout(m - {j}, w, k);
      SumWithout(m - {k}, w, j);
      assert m - {j} - {k} == m - {k} - {j};
    }
  }

  /** Changing one entry changes the sum by the difference. */
  lemma SumUpdate<K(!new), V>(m: map<K, V>, w: V -> int, k: K, v: V)
    ensures SumOf(m[k := v], w) == w(v) + SumOf(m - {k}, w)
    ensures k in m ==> SumOf(m[k := v], w) == SumOf(m, w) - w(m[k]) + w(v)
    ensures k !in m ==> SumOf(m[k := v], w) == SumOf(m, w) + w(v)
  {
    SumWithout(m[k := v], w, k);
    assert m[k := v] - {k} == m - {k};
    if k in m { SumWithout(m, w, k); } else { assert m - {k} == m; }
  }

  lemma {:induction false} SumNotNegative<K(!new), V>(m: map<K, V>, w: V -> int)
    requires forall k :: k in m ==> w(m[k]) >= 0
    ensures SumOf(m, w) >= 0
    decreases |m|
  {
    if m != map[] {
      var k :| k in m;
      SumWithout(m, w, k);
      SumNotNegative(m - {k}, w);
    }
  }
}
