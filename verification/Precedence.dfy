/**
 Whose text is shown: which codes are offered and picked, and for every text the stored record it
 comes from, told on the store's records themselves.
 */
module Precedence {
  import opened Common
  import opened Translation
  import opened Localization

  // ------------------------------------------------------------ codes

  /** The two characters stand for the same one in a locale code. */
  predicate SameInCode(c: char, d: char) {
    SameLetter(c, d) || (c in "_-" && d in "_-")
  }

  /** Codes normalise alike exactly when they differ in blanks around them, case and separator only. */
  lemma NormalAlikeIff(a: string, b: string)
    ensures NormalizeLocale(a) == NormalizeLocale(b) <==>
            |Trim(a)| == |Trim(b)| && forall i :: 0 <= i < |Trim(a)| ==> SameInCode(Trim(a)[i], Trim(b)[i])
  {
    var s, t := Trim(a), Trim(b);
    var x, y := NormalizeLocale(a), NormalizeLocale(b);
    if |s| == |t| {
      forall i | 0 <= i < |s| ensures x[i] == y[i] <==> SameInCode(s[i], t[i]) {}
      if forall i :: 0 <= i < |s| ==> SameInCode(s[i], t[i]) { assert x == y; }
    }
  }

  /** The normal codes are the trimmed ones in lower case with hyphens. */
  lemma NormalCodeIff(code: string)
    ensures NormalizeLocale(code) == code <==> Trimmed(code) && forall c :: c in code ==> c != '_' && !('A' <= c <= 'Z')
  {
    TrimFixed(code);
    if NormalizeLocale(code) == code {
      LocaleCharsStable(Trim(code));
    }
    if Trimmed(code) && forall c :: c in code ==> c != '_' && !('A' <= c <= 'Z') {
      forall i | 0 <= i < |code| ensures LocaleChar(code[i]) == code[i] { assert code[i] in code; }
      assert LocaleChars(code) == code;
    }
  }

  /** x is a language pack of that code with texts for the extension. */
  predicate Offers(x: Extension, id: string, code: string) {
    x.kind == "localization" && NormalizeLocale(x.locale) == code && id in x.catalog
  }

  /** x is that extension and carries a translation whose key means the code. */
  ghost predicate Embeds(x: Extension, id: string, code: string) {
    x.id == id && exists raw :: raw in x.locales && NormalizeLocale(raw) == code
  }

  lemma PackOfferedIff(list: seq<Extension>, id: string, code: string)
    ensures code in PackCodes(PacksOf(list), id) <==> code != "" && exists x :: x in list && Offers(x, id, code)
  {
    PacksSpec(list);
    if code in PackCodes(PacksOf(list), id) {
      var p :| p in PacksOf(list) && p.locale != "" && id in p.catalog && p.locale == code;
      var x :| x in list && IsPack(x) && p == PackOf(x);
      assert Offers(x, id, code);
    }
    if x :| x in list && Offers(x, id, code) {
      assert IsPack(x) && PackOf(x) in PacksOf(list);
    }
  }

  lemma SortedSame(list: seq<Extension>, p: Pack)
    ensures p in Sort(PacksOf(list), PackLe) <==> p in PacksOf(list)
  {
    MultisetMembers(Sort(PacksOf(list), PackLe), PacksOf(list));
  }

  lemma EmbeddedOfferedIff(list: seq<Extension>, locale: string, id: string, code: string)
    requires UniqueIds(list) && NormalizeLocale(locale) != ""
    ensures code in EmbeddedCodes(Localize(list, locale).value, id) <==> exists x :: x in list && Embeds(x, id, code)
  {
    var l := Localize(list, locale).value;
    ByIdSpec(list);
    if code in EmbeddedCodes(l, id) {
      var raw :| raw in l.byId[id].locales && NormalizeLocale(raw) == code;
      assert Embeds(l.byId[id], id, code);
    }
    if x :| x in list && Embeds(x, id, code) {
      assert l.byId[id] == x;
    }
  }

  /** The store has a translation for the extension into the code. */
  ghost predicate Carries(list: seq<Extension>, id: string, code: string) {
    exists x :: x in list && (Embeds(x, id, code) || (code != "" && Offers(x, id, code)))
  }

  lemma OfferedForIff(list: seq<Extension>, locale: string, id: string, code: string)
    requires UniqueIds(list) && NormalizeLocale(locale) != ""
    ensures var l := Localize(list, locale).value;
            code in EmbeddedCodes(l, id) + PackCodes(l.packs, id) <==> Carries(list, id, code)
  {
    var l := Localize(list, locale).value;
    EmbeddedOfferedIff(list, locale, id, code);
    PackOfferedIff(list, id, code);
    SortedPackCodes(list, id);
    assert code in EmbeddedCodes(l, id) + PackCodes(l.packs, id) <==>
           code in EmbeddedCodes(l, id) || code in PackCodes(PacksOf(list), id);
  }

  lemma SortedPackCodes(list: seq<Extension>, id: string)
    ensures PackCodes(Sort(PacksOf(list), PackLe), id) == PackCodes(PacksOf(list), id)
  {
    forall p ensures p in Sort(PacksOf(list), PackLe) <==> p in PacksOf(list) { SortedSame(list, p); }
  }

  /** The codes offered for some ids are those their records embed and those of packs that name one of them. */
  lemma OfferedIff(list: seq<Extension>, locale: string, ids: seq<string>, code: string)
    requires UniqueIds(list) && NormalizeLocale(locale) != ""
    ensures code in AvailableCodes(Localize(list, locale).value, ids) <==> exists id :: id in ids && Carries(list, id, code)
  {
    OfferedForSome(Localize(list, locale).value, ids, code);
    forall id | id in ids
      ensures code in CodesFor(Localize(list, locale).value, id) <==> Carries(list, id, code)
    {
      OfferedForIff(list, locale, id, code);
    }
  }

  ghost function CodesFor(l: Localizer, id: string): set<string> {
    EmbeddedCodes(l, id) + PackCodes(l.packs, id)
  }

  lemma {:induction false} OfferedForSome(l: Localizer, ids: seq<string>, code: string)
    ensures code in AvailableCodes(l, ids) <==> exists id :: id in ids && code in CodesFor(l, id)
  {
    if ids != [] {
      var n := |ids| - 1;
      OfferedForSome(l, ids[..n], code);
      assert ids == ids[..n] + [ids[n]];
      assert code in AvailableCodes(l, ids) <==> code in AvailableCodes(l, ids[..n]) || code in CodesFor(l, ids[n]);
      if id :| id in ids && code in CodesFor(l, id) { assert id in ids[..n] || id == ids[n]; }
      if id :| id in ids[..n] && code in CodesFor(l, id) { assert id in ids; }
    }
  }

  /** The code is of the language wanted. */
  predicate SameLanguage(want: string, code: string) {
    LocaleBase(NormalizeLocale(want)) == LocaleBase(code)
  }

  /**
   The code wanted is picked if it is offered. Otherwise the bare language, otherwise zh-cn for
   Chinese, otherwise the only code of the language; and nothing where there are several.
   */
  lemma PickedIff(want: string, offered: set<string>, code: string)
    requires code != ""
    ensures var w := NormalizeLocale(want);
            PickLocale(want, offered) == code <==>
              w != "" && code in offered && SameLanguage(want, code) &&
              (|| code == w
               || (w !in offered &&
                   (|| code == LocaleBase(w)
                    || (LocaleBase(w) !in offered &&
                        (|| (code == "zh-cn" && LocaleBase(w) == "zh")
                         || forall other :: other in offered && SameLanguage(want, other) ==> other == code)))))
  {
    var w := NormalizeLocale(want);
    var base := LocaleBase(w);
    var cands := Candidates(base, offered);
    BaseOfBase(w);
    PickIsAvailable(want, offered);
    assert LocaleBase("zh-cn") == "zh" by { assert "zh-cn"[1..] == "h-cn" && "h-cn"[1..] == "-cn"; }
    forall other ensures other in cands <==> other in offered && SameLanguage(want, other) {}
    if code in cands { OnlyOne(cands, code); }
    if w in offered {
    } else if base in offered {
      assert base in cands;
    } else if base == "zh" && "zh-cn" in offered {
      assert "zh-cn" in cands;
    }
  }

  lemma OnlyOne(s: set<string>, c: string)
    requires c in s
    ensures |s| == 1 <==> forall d :: d in s ==> d == c
  {
    if |s| == 1 { SoleElement(s, c); }
    if forall d :: d in s ==> d == c { assert s == {c}; }
  }

  lemma BaseOfBase(w: string)
    ensures LocaleBase(LocaleBase(w)) == LocaleBase(w)
  {
    var b := LocaleBase(w);
    assert forall i :: 0 <= i < |b| ==> b[i] != '-';
  }

  // ------------------------------------------------------------ the order of packs

  /** p is laid over before q. */
  ghost predicate Earlier(order: int, id: string, order': int, id': string) {
    order < order' || (order == order' && id != id' && InDictionaryOrder(id, id'))
  }

  /** A localizer's packs go by Order, and by id among equal ones. */
  lemma PacksInOrder(list: seq<Extension>, locale: string, i: nat, j: nat)
    requires NormalizeLocale(locale) != "" && i < j < |Localize(list, locale).value.packs|
    ensures var p, q := Localize(list, locale).value.packs[i], Localize(list, locale).value.packs[j];
            p.id != q.id ==> Earlier(p.order, p.id, q.order, q.id)
    ensures var p, q := Localize(list, locale).value.packs[i], Localize(list, locale).value.packs[j];
            p.order <= q.order && (UniqueIds(list) ==> p.id != q.id)
  {
    var packs := Localize(list, locale).value.packs;
    PackLeOrder();
    SortSorted(PacksOf(list), PackLe);
    StrLeIff(packs[i].id, packs[j].id);
    if UniqueIds(list) && packs[i].id == packs[j].id {
      PacksSpec(list);
      MultisetDistinct(PacksOf(list), packs);
      SortedSame(list, packs[i]);
      SortedSame(list, packs[j]);
      PacksDecidedById(list, packs[i], packs[j]);
      assert false;
    }
  }

  /** Should an id be stored twice, the last record of it is the one that counts. */
  lemma {:induction false} LastRecordCounts(list: seq<Extension>, i: nat)
    requires i < |list| && forall j :: i < j < |list| ==> list[j].id != list[i].id
    ensures list[i].id in ById(list)
    ensures ById(list)[list[i].id] == list[i]
  {
    if i < |list| - 1 { LastRecordCounts(list[..|list| - 1], i); }
  }

  // ------------------------------------------------------------ whose text wins

  /** What the layers say, where `say` reads one text of a translation. */
  function Said(layers: seq<Tr>, say: Tr -> string): (r: seq<string>)
    ensures |r| == |layers| && forall i :: 0 <= i < |r| ==> r[i] == say(layers[i])
  {
    seq(|layers|, i requires 0 <= i < |layers| => say(layers[i]))
  }

  /** Among the packs of the code that say something, x is the last one by Order and id. */
  ghost predicate LastToSay(list: seq<Extension>, id: string, code: string, say: Tr -> string, x: Extension) {
    && x in list && Offers(x, id, code) && say(x.catalog[id]) != ""
    && forall y :: y in list && y.id != x.id && Offers(y, id, code) && say(y.catalog[id]) != "" ==>
         Earlier(y.order, y.id, x.order, x.id)
  }

  lemma OneMoreSays(layers: seq<Tr>, t: Tr, say: Tr -> string, fallback: string)
    ensures LastNonEmpty(Said(layers + [t], say), fallback) ==
            if say(t) != "" then say(t) else LastNonEmpty(Said(layers, say), fallback)
  {
    assert Said(layers + [t], say)[..|layers|] == Said(layers, say);
  }

  /** The last pack of a list adds its layer, or nothing. */
  lemma OneMorePack(below: seq<Tr>, packs: seq<Pack>, id: string, code: string)
    requires packs != []
    ensures var n := |packs| - 1;
            below + PackLayers(packs, id, code) ==
            if packs[n].locale == code && id in packs[n].catalog
            then (below + PackLayers(packs[..n], id, code)) + [packs[n].catalog[id]]
            else below + PackLayers(packs[..n], id, code)
  {
  }

  /** The pack is of the code and says something for the extension. */
  predicate Says(p: Pack, id: string, code: string, say: Tr -> string) {
    p.locale == code && id in p.catalog && say(p.catalog[id]) != ""
  }

  /** What is heard above the layers below. */
  function Heard(below: seq<Tr>, packs: seq<Pack>, id: string, code: string, say: Tr -> string, fallback: string): string {
    LastNonEmpty(Said(below + PackLayers(packs, id, code), say), fallback)
  }

  lemma HeardStep(below: seq<Tr>, packs: seq<Pack>, id: string, code: string, say: Tr -> string, fallback: string)
    requires packs != []
    ensures var n := |packs| - 1;
            Heard(below, packs, id, code, say, fallback) ==
            if Says(packs[n], id, code, say) then say(packs[n].catalog[id]) else Heard(below, packs[..n], id, code, say, fallback)
  {
    var n := |packs| - 1;
    OneMorePack(below, packs, id, code);
    if packs[n].locale == code && id in packs[n].catalog {
      OneMoreSays(below + PackLayers(packs[..n], id, code), packs[n].catalog[id], say, fallback);
    }
  }

  lemma {:induction false} LastPackSays(
      below: seq<Tr>, packs: seq<Pack>, id: string, code: string, say: Tr -> string, fallback: string, i: nat)
    requires i < |packs| && Says(packs[i], id, code, say)
    requires forall j :: i < j < |packs| ==> !Says(packs[j], id, code, say)
    ensures Heard(below, packs, id, code, say, fallback) == say(packs[i].catalog[id])
  {
    HeardStep(below, packs, id, code, say, fallback);
    if i < |packs| - 1 { LastPackSays(below, packs[..|packs| - 1], id, code, say, fallback, i); }
  }

  lemma {:induction false} NoPackSays(
      below: seq<Tr>, packs: seq<Pack>, id: string, code: string, say: Tr -> string, fallback: string)
    requires forall p :: p in packs ==> !Says(p, id, code, say)
    ensures Heard(below, packs, id, code, say, fallback) == LastNonEmpty(Said(below, say), fallback)
  {
    if packs == [] {
      assert below + [] == below;
    } else {
      HeardStep(below, packs, id, code, say, fallback);
      assert packs[|packs| - 1] in packs;
      NoPackSays(below, packs[..|packs| - 1], id, code, say, fallback);
    }
  }

  lemma PackIsOffer(list: seq<Extension>, locale: string, p: Pack) returns (x: Extension)
    requires NormalizeLocale(locale) != "" && p in Localize(list, locale).value.packs
    ensures x in list && IsPack(x) && p == PackOf(x)
  {
    SortedSame(list, p);
    PacksSpec(list);
    x :| x in list && IsPack(x) && p == PackOf(x);
  }

  /** The last pack to say something is heard ... */
  lemma LastPackIsHeard(
      list: seq<Extension>, locale: string, id: string, code: string, say: Tr -> string, x: Extension, fallback: string)
    requires UniqueIds(list) && NormalizeLocale(locale) != "" && LastToSay(list, id, code, say, x)
    ensures LastNonEmpty(Said(Layers(Localize(list, locale).value, id, code), say), fallback) == say(x.catalog[id])
  {
    var l := Localize(list, locale).value;
    PacksSpec(list);
    SortedSame(list, PackOf(x));
    var i :| 0 <= i < |l.packs| && l.packs[i] == PackOf(x);
    forall j | i < j < |l.packs| ensures !Says(l.packs[j], id, code, say) {
      PacksInOrder(list, locale, i, j);
      var y := PackIsOffer(list, locale, l.packs[j]);
      if Says(l.packs[j], id, code, say) {
        assert Earlier(y.order, y.id, x.order, x.id) && Earlier(x.order, x.id, y.order, y.id);
        StrLeIff(x.id, y.id);
        StrLeIff(y.id, x.id);
        StrLeTotal(x.id, y.id);
      }
    }
    LastPackSays(Embedded(l, id, code), l.packs, id, code, say, fallback, i);
  }

  /** ... and where no pack says anything, the translation the record embeds under that very code, or the source. */
  lemma EmbeddedIsHeard(
      list: seq<Extension>, locale: string, id: string, code: string, say: Tr -> string, e: Extension, fallback: string)
    requires UniqueIds(list) && NormalizeLocale(locale) != "" && e in list && e.id == id
    requires forall y :: y in list && Offers(y, id, code) ==> say(y.catalog[id]) == ""
    ensures LastNonEmpty(Said(Layers(Localize(list, locale).value, id, code), say), fallback) ==
            if code in e.locales && say(e.locales[code]) != "" then say(e.locales[code]) else fallback
  {
    var l := Localize(list, locale).value;
    ByIdSpec(list);
    forall p | p in l.packs ensures !Says(p, id, code, say) {
      var y := PackIsOffer(list, locale, p);
      assert p.locale == code && id in p.catalog ==> Offers(y, id, code);
    }
    var below := Embedded(l, id, code);
    NoPackSays(below, l.packs, id, code, say, fallback);
    if code in e.locales {
      assert below == [e.locales[code]];
      assert Said(below, say)[..0] == [];
    }
  }

  /** The code an extension of the store is shown in. */
  ghost function Code(list: seq<Extension>, locale: string, id: string): string
    requires NormalizeLocale(locale) != ""
  {
    var l := Localize(list, locale).value;
    PickLocale(l.locale, AvailableCodes(l, [id]))
  }

  /** The texts of an extension that can be translated. */
  datatype Text = Name | Tagline | Description | At(place: Place)

  predicate InExtension(e: Extension, text: Text) {
    text.At? ==> InUI(e.ui, text.place)
  }

  function TextOf(e: Extension, text: Text): string
    requires InExtension(e, text)
  {
    match text
    case Name => e.name
    case Tagline => e.tagline
    case Description => e.description
    case At(p) => TextAt(e.ui, p)
  }

  /** What a translation says for that text of e; "" when it says nothing. */
  function SayingOf(e: Extension, text: Text): (say: Tr -> string)
    requires InExtension(e, text)
    ensures text.At? ==> forall t :: say(t) == match t.ui case None => "" case Some(u) => SaysAt(e.ui, u, text.place)
  {
    match text
    case Name => (t: Tr) => t.name
    case Tagline => (t: Tr) => t.tagline
    case Description => (t: Tr) => t.description
    case At(p) => (t: Tr) => match t.ui case None => "" case Some(u) => SaysAt(e.ui, u, p)
  }

  lemma TextIsLastSaid(l: Localizer, e: Extension, text: Text)
    requires InExtension(e, text)
    ensures var code := PickLocale(l.locale, AvailableCodes(l, [e.id]));
            code != "" ==>
              && InExtension(Localized(l, e), text)
              && TextOf(Localized(l, e), text) ==
                   LastNonEmpty(Said(Layers(l, e.id, code), SayingOf(e, text)), TextOf(e, text))
  {
    var code := PickLocale(l.locale, AvailableCodes(l, [e.id]));
    var layers := Layers(l, e.id, code);
    match text
    case Name => assert NamesSaid(layers) == Said(layers, SayingOf(e, text));
    case Tagline => assert TaglinesSaid(layers) == Said(layers, SayingOf(e, text));
    case Description => assert DescriptionsSaid(layers) == Said(layers, SayingOf(e, text));
    case At(p) =>
      LayeredTextIsLast(e.ui, layers, p);
      assert SaidAt(e.ui, layers, p) == Said(layers, SayingOf(e, text));
  }

  /**
   With unique ids, every text of a localized extension is that of the last language pack, by
   Order and then id, that has the code and says something there.
   */
  lemma ShownFromPack(list: seq<Extension>, locale: string, e: Extension, text: Text, x: Extension)
    requires UniqueIds(list) && NormalizeLocale(locale) != "" && Code(list, locale, e.id) != ""
    requires InExtension(e, text) && LastToSay(list, e.id, Code(list, locale, e.id), SayingOf(e, text), x)
    ensures var shown := Localized(Localize(list, locale).value, e);
            InExtension(shown, text) && TextOf(shown, text) == SayingOf(e, text)(x.catalog[e.id])
  {
    var l, code := Localize(list, locale).value, Code(list, locale, e.id);
    TextIsLastSaid(l, e, text);
    LastPackIsHeard(list, locale, e.id, code, SayingOf(e, text), x, TextOf(e, text));
  }

  /** Where no such pack says anything, it is what the record embeds under the code, or its own text. */
  lemma ShownFromRecord(list: seq<Extension>, locale: string, e: Extension, text: Text)
    requires UniqueIds(list) && NormalizeLocale(locale) != "" && Code(list, locale, e.id) != "" && e in list
    requires InExtension(e, text)
    requires forall y :: y in list && Offers(y, e.id, Code(list, locale, e.id)) ==> SayingOf(e, text)(y.catalog[e.id]) == ""
    ensures var code, say, shown := Code(list, locale, e.id), SayingOf(e, text), Localized(Localize(list, locale).value, e);
            && InExtension(shown, text)
            && TextOf(shown, text) ==
                 if code in e.locales && say(e.locales[code]) != "" then say(e.locales[code]) else TextOf(e, text)
  {
    var l, code := Localize(list, locale).value, Code(list, locale, e.id);
    TextIsLastSaid(l, e, text);
    EmbeddedIsHeard(list, locale, e.id, code, SayingOf(e, text), e, TextOf(e, text));
  }

  /** Where nothing fits the request, an extension is shown as it is stored. */
  lemma ShownAsStored(list: seq<Extension>, locale: string, e: Extension)
    requires NormalizeLocale(locale) != "" && Code(list, locale, e.id) == ""
    ensures Localized(Localize(list, locale).value, e) == e
  {
  }

  lemma LastOfTwo(
      list: seq<Extension>, e: Extension, a: Extension, b: Extension, code: string, say: Tr -> string, x: Extension)
    requires list == [e, a, b] && e.kind != "localization" && a.order < b.order
    requires Offers(a, e.id, code) && Offers(b, e.id, code) && say(a.catalog[e.id]) != ""
    requires x == if say(b.catalog[e.id]) != "" then b else a
    ensures LastToSay(list, e.id, code, say, x)
  {
    forall y | y in list ensures y == e || y == a || y == b {}
  }

  /** Two packs at work: the later one is heard, the earlier one only where the later is silent. */
  lemma LaterPackWins(list: seq<Extension>, locale: string, e: Extension, a: Extension, b: Extension)
    requires list == [e, a, b] && UniqueIds(list) && NormalizeLocale(locale) != ""
    requires e.kind != "localization" && Code(list, locale, e.id) != ""
    requires Offers(a, e.id, Code(list, locale, e.id)) && Offers(b, e.id, Code(list, locale, e.id))
    requires a.order < b.order && a.catalog[e.id].name != ""
    ensures Localized(Localize(list, locale).value, e).name ==
            if b.catalog[e.id].name != "" then b.catalog[e.id].name else a.catalog[e.id].name
  {
    var say, code := SayingOf(e, Name), Code(list, locale, e.id);
    var x := if b.catalog[e.id].name != "" then b else a;
    assert a == list[1] && b == list[2] && e == list[0];
    LastOfTwo(list, e, a, b, code, say, x);
    ShownFromPack(list, locale, e, Name, x);
  }

  // ------------------------------------------------------------ contributions

  /**
   A contribution shows what is said for its own id, else what is said for the extension that
   ships it, else its own text; the code is picked among those offered for either.
   */
  lemma OwnTextWins(l: Localizer, c: Contribution, owner: string, p: Place)
    requires InUI(c.ui, p) && owner != "" && owner != c.id
    ensures var code := PickLocale(l.locale, AvailableCodes(l, [owner, c.id]));
            var shown := LocalizedContribution(l, c, owner);
            if code == "" then shown == c
            else
              && InUI(shown.ui, p)
              && TextAt(shown.ui, p) ==
                   LastNonEmpty(SaidAt(c.ui, Layers(l, c.id, code), p),
                                LastNonEmpty(SaidAt(c.ui, Layers(l, owner, code), p), TextAt(c.ui, p)))
              && shown.name == (if c.id in l.byId then LastNonEmpty(NamesSaid(Layers(l, c.id, code)), c.name) else c.name)
              && shown.id == c.id
  {
    var code := PickLocale(l.locale, AvailableCodes(l, [owner, c.id]));
    assert OwnerFirst(c.id, owner) == [owner, c.id];
    if code != "" {
      TwoLayered(l, c.ui, owner, c.id, code);
      LayeredTextIsLast(c.ui, Layers(l, owner, code), p);
      var below := ApplyLayers(c.ui, Layers(l, owner, code));
      LayeredTextIsLast(below, Layers(l, c.id, code), p);
      SaidAboveSame(c.ui, Layers(l, owner, code), Layers(l, c.id, code), p);
    }
  }

  lemma TwoLayered(l: Localizer, ui: UI, owner: string, id: string, code: string)
    ensures ApplyLayers(ui, ContributionLayers(l, [owner, id], code)) ==
            ApplyLayers(ApplyLayers(ui, Layers(l, owner, code)), Layers(l, id, code))
  {
    assert [owner, id][..1] == [owner] && [owner][..0] == [];
    assert ContributionLayers(l, [owner], code) == Layers(l, owner, code);
    ApplyLayersConcat(ui, Layers(l, owner, code), Layers(l, id, code));
  }

  lemma SaidAboveSame(ui: UI, below: seq<Tr>, layers: seq<Tr>, p: Place)
    requires InUI(ui, p)
    ensures SaidAt(ApplyLayers(ui, below), layers, p) == SaidAt(ui, layers, p)
  {
    forall i | 0 <= i < |layers| ensures SaidAt(ApplyLayers(ui, below), layers, p)[i] == SaidAt(ui, layers, p)[i] {
      match layers[i].ui
      case None =>
      case Some(t) => LayersKeepPlaces(ui, below, t, p);
    }
  }

  /** What an extension itself contributes is localized for its one id. */
  lemma OwnContribution(l: Localizer, c: Contribution, owner: string, p: Place)
    requires InUI(c.ui, p) && (owner == "" || owner == c.id)
    ensures var code := PickLocale(l.locale, AvailableCodes(l, [c.id]));
            var shown := LocalizedContribution(l, c, owner);
            if code == "" then shown == c
            else
              && InUI(shown.ui, p)
              && TextAt(shown.ui, p) == LastNonEmpty(SaidAt(c.ui, Layers(l, c.id, code), p), TextAt(c.ui, p))
              && shown.name == (if c.id in l.byId then LastNonEmpty(NamesSaid(Layers(l, c.id, code)), c.name) else c.name)
              && shown.id == c.id
  {
    var code := PickLocale(l.locale, AvailableCodes(l, [c.id]));
    assert OwnerFirst(c.id, owner) == [c.id] && [c.id][..0] == [];
    if code != "" {
      assert ContributionLayers(l, [c.id], code) == Layers(l, c.id, code);
      LayeredTextIsLast(c.ui, Layers(l, c.id, code), p);
    }
  }
}
