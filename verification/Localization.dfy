/**
 Localizing installed extensions: choosing the locale an extension is shown in, and
 layering its embedded translation and every matching language pack over it.
 */
module Localization {
  import opened Common
  import opened Translation

  datatype Tr = Tr(name: string, tagline: string, description: string, ui: Option<UITr>)

  /** The parts of an installed extension localization reads or changes. */
  datatype Extension = Extension(
    id: string,
    name: string,
    tagline: string,
    description: string,
    kind: string,
    order: int,
    ui: UI,
    locales: map<string, Tr>,   // i18n.locales; no i18n section is the empty map
    locale: string,
    catalog: map<string, Tr>,
    other: string)

  datatype Pack = Pack(id: string, order: int, locale: string, catalog: map<string, Tr>)

  datatype Localizer = Localizer(locale: string, packs: seq<Pack>, byId: map<string, Extension>)

  // ------------------------------------------------------------ locale codes

  function LocaleChar(c: char): char {
    ToLowerChar(if c == '_' then '-' else c)
  }

  function LocaleChars(t: string): (r: string)
    ensures |r| == |t| && forall i :: 0 <= i < |r| ==> r[i] == LocaleChar(t[i])
  {
    seq(|t|, i requires 0 <= i < |t| => LocaleChar(t[i]))
  }

  /** strings.ToLower(strings.ReplaceAll(strings.TrimSpace(code), "_", "-")). */
  function NormalizeLocale(code: string): string {
    LocaleChars(Trim(code))
  }

  lemma LocaleCharStable(c: char)
    ensures LocaleChar(LocaleChar(c)) == LocaleChar(c)
    ensures !IsSpace(c) ==> !IsSpace(LocaleChar(c))
  {
  }

  lemma LocaleCharsStable(t: string)
    requires Trimmed(t)
    ensures Trimmed(LocaleChars(t))
    ensures LocaleChars(LocaleChars(t)) == LocaleChars(t)
  {
    forall i | 0 <= i < |t| ensures LocaleChar(LocaleChar(t[i])) == LocaleChar(t[i]) {
      LocaleCharStable(t[i]);
    }
    if t != "" {
      LocaleCharStable(t[0]);
      LocaleCharStable(t[|t| - 1]);
    }
  }

  /** A normalised code is a fixed point: it can be stored, re-read and compared. */
  lemma NormalizeIdempotent(code: string)
    ensures NormalizeLocale(NormalizeLocale(code)) == NormalizeLocale(code)
  {
    LocaleCharsStable(Trim(code));
    TrimFixed(LocaleChars(Trim(code)));
  }

  /** The primary language subtag: the text before the first '-'. */
  function LocaleBase(code: string): (b: string)
    ensures b <= code && '-' !in b
    ensures b == code || code[|b|] == '-'
  {
    if code == "" || code[0] == '-' then "" else [code[0]] + LocaleBase(code[1..])
  }

  ghost function Candidates(base: string, available: set<string>): set<string> {
    set c | c in available && LocaleBase(c) == base
  }

  /** The locale shown for a request, stated on the set of available codes alone. */
  ghost function PickLocale(want: string, available: set<string>): string {
    var code := NormalizeLocale(want);
    var base := LocaleBase(code);
    var cands := Candidates(base, available);
    if code == "" then ""
    else if code in available then code
    else if cands == {} then ""
    else if base in cands then base
    else if base == "zh" && "zh-cn" in cands then "zh-cn"
    else if |cands| == 1 then var c :| c in cands; c
    else ""
  }

  /** Whatever is picked is available and speaks the requested language. */
  lemma PickIsAvailable(want: string, available: set<string>)
    ensures var r := PickLocale(want, available);
            r != "" ==> r in available && LocaleBase(r) == LocaleBase(NormalizeLocale(want))
    ensures var code := NormalizeLocale(want);
            code != "" && code in available ==> PickLocale(want, available) == code
  {
    var code := NormalizeLocale(want);
    var r := PickLocale(want, available);
    if r != "" && code !in available {
      assert r in Candidates(LocaleBase(code), available);
    }
  }

  lemma SoleElement(s: set<string>, c: string)
    requires |s| == 1 && c in s
    ensures s == {c}
  {
    assert |s - {c}| == 0;
  }

  method GatherCandidates(base: string, available: set<string>) returns (candidates: seq<string>)
    ensures Distinct(candidates) && Elements(candidates) == Candidates(base, available)
  {
    candidates := [];
    var rest := available;
    while rest != {}
      invariant rest <= available && Distinct(candidates)
      invariant Elements(candidates) == Candidates(base, available - rest)
      decreases rest
    {
      var c :| c in rest;
      assert available - (rest - {c}) == (available - rest) + {c};
      if LocaleBase(c) == base {
        assert c !in Elements(candidates);
        DistinctAppend(candidates, c);
        assert Elements(candidates + [c]) == Elements(candidates) + {c};
        candidates := candidates + [c];
      }
      rest := rest - {c};
    }
    assert available - rest == available;
  }

  /** The source's scan: candidates gathered in any iteration order, sorted, then searched. */
  method PickLocaleByScan(want: string, available: set<string>) returns (r: string)
    ensures r == PickLocale(want, available)
  {
    var code := NormalizeLocale(want);
    if code == "" { return ""; }
    if code in available { return code; }
    var base := LocaleBase(code);
    var candidates := GatherCandidates(base, available);
    ghost var found := Candidates(base, available);
    DistinctCardinality(candidates);
    if |candidates| == 0 { return ""; }
    SortStringsBySet(candidates, candidates);
    candidates := SortStrings(candidates);
    DistinctCardinality(candidates);
    assert forall c :: c in candidates <==> c in found;
    assert candidates[0] in found;
    if base in candidates { return base; }
    if base == "zh" && "zh-cn" in candidates { return "zh-cn"; }
    if |candidates| == 1 {
      SoleElement(found, candidates[0]);
      return candidates[0];
    }
    return "";
  }

  lemma {:induction false} DistinctCardinality(xs: seq<string>)
    requires Distinct(xs)
    ensures |Elements(xs)| == |xs|
  {
    if xs != [] {
      DistinctCardinality(xs[1..]);
      assert Elements(xs) == Elements(xs[1..]) + {xs[0]};
    } else {
      assert Elements(xs) == {};
    }
  }

  // ------------------------------------------------------------ building the localizer

  predicate IsPack(e: Extension) {
    e.kind == "localization" && e.catalog != map[]
  }

  function PackOf(e: Extension): Pack {
    Pack(e.id, e.order, NormalizeLocale(e.locale), e.catalog)
  }

  function PacksOf(list: seq<Extension>): seq<Pack> {
    if list == [] then []
    else PacksOf(list[..|list| - 1]) + if IsPack(list[|list| - 1]) then [PackOf(list[|list| - 1])] else []
  }

  function ById(list: seq<Extension>): map<string, Extension> {
    if list == [] then map[]
    else ById(list[..|list| - 1])[list[|list| - 1].id := list[|list| - 1]]
  }

  /** Order ascending, then id ascending. */
  predicate PackLe(p: Pack, q: Pack) {
    p.order < q.order || (p.order == q.order && StrLe(p.id, q.id))
  }

  function Localize(list: seq<Extension>, locale: string): Option<Localizer> {
    if NormalizeLocale(locale) == "" then None
    else Some(Localizer(NormalizeLocale(locale), Sort(PacksOf(list), PackLe), ById(list)))
  }

  method NewLocalizer(list: seq<Extension>, locale: string) returns (l: Option<Localizer>)
    ensures l == Localize(list, locale)
  {
    var code := NormalizeLocale(locale);
    if code == "" { return None; }
    var packs: seq<Pack> := [];
    var byId: map<string, Extension> := map[];
    for i := 0 to |list|
      invariant packs == PacksOf(list[..i]) && byId == ById(list[..i])
    {
      assert list[..i + 1][..i] == list[..i];
      var e := list[i];
      byId := byId[e.id := e];
      if e.kind == "localization" && |e.catalog| > 0 {
        packs := packs + [Pack(e.id, e.order, NormalizeLocale(e.locale), e.catalog)];
      }
    }
    assert list[..|list|] == list;
    l := Some(Localizer(code, Sort(packs, PackLe), byId));
  }

  ghost predicate UniqueIds(list: seq<Extension>) {
    forall i, j :: 0 <= i < j < |list| ==> list[i].id != list[j].id
  }

  lemma {:induction false} ByIdSpec(list: seq<Extension>)
    requires UniqueIds(list)
    ensures forall e :: e in list ==> e.id in ById(list) && ById(list)[e.id] == e
    ensures forall id :: id in ById(list) ==> ById(list)[id] in list && ById(list)[id].id == id
  {
    if list != [] {
      var init, last := list[..|list| - 1], list[|list| - 1];
      ByIdSpec(init);
      assert list == init + [last];
    }
  }

  lemma {:induction false} PacksSpec(list: seq<Extension>)
    ensures forall p :: p in PacksOf(list) <==> exists e :: e in list && IsPack(e) && p == PackOf(e)
    ensures UniqueIds(list) ==> Distinct(PacksOf(list))
  {
    if list != [] {
      var init, last := list[..|list| - 1], list[|list| - 1];
      PacksSpec(init);
      assert list == init + [last];
      if UniqueIds(list) && IsPack(last) {
        assert PackOf(last) !in PacksOf(init);
        DistinctAppend(PacksOf(init), PackOf(last));
      }
    }
  }

  lemma PackLeOrder()
    ensures Preorder(PackLe)
  {
    forall p: Pack, q: Pack ensures PackLe(p, q) || PackLe(q, p) { StrLeTotal(p.id, q.id); }
    forall p: Pack, q: Pack, r: Pack | PackLe(p, q) && PackLe(q, r) ensures PackLe(p, r) {
      if StrLe(p.id, q.id) && StrLe(q.id, r.id) { StrLeTransitive(p.id, q.id, r.id); }
    }
  }

  lemma PacksDecidedById(list: seq<Extension>, p: Pack, q: Pack)
    requires UniqueIds(list) && p in PacksOf(list) && q in PacksOf(list) && p.id == q.id
    ensures p == q
  {
    PacksSpec(list);
  }

  lemma SamePacks(list: seq<Extension>, list': seq<Extension>)
    requires UniqueIds(list) && UniqueIds(list') && multiset(list) == multiset(list')
    ensures Sort(PacksOf(list), PackLe) == Sort(PacksOf(list'), PackLe)
  {
    var ps, ps' := PacksOf(list), PacksOf(list');
    MultisetMembers(list, list');
    PacksSpec(list);
    PacksSpec(list');
    assert Elements(ps) == Elements(ps');
    DistinctIsMultiset(ps);
    DistinctIsMultiset(ps');
    PackLeOrder();
    SortSorted(ps, PackLe);
    SortSorted(ps', PackLe);
    var sorted := Sort(ps, PackLe);
    MultisetMembers(sorted, ps);
    forall p, q | p in sorted && q in sorted && PackLe(p, q) && PackLe(q, p) ensures p == q {
      StrLeTotal(p.id, q.id);
      PacksDecidedById(list, p, q);
    }
    SortedUnique(sorted, Sort(ps', PackLe), PackLe);
  }

  lemma SameById(list: seq<Extension>, list': seq<Extension>)
    requires UniqueIds(list) && UniqueIds(list') && multiset(list) == multiset(list')
    ensures ById(list) == ById(list')
  {
    ByIdSpec(list);
    ByIdSpec(list');
    MultisetMembers(list, list');
    forall id | id in ById(list) ensures id in ById(list') && ById(list')[id] == ById(list)[id] {
      assert ById(list)[id] in list';
    }
    forall id | id in ById(list') ensures id in ById(list) {
      assert ById(list')[id] in list;
    }
  }

  /** The localizer does not depend on the order the store lists its extensions in. */
  lemma StoreOrderIrrelevant(list: seq<Extension>, list': seq<Extension>, locale: string)
    requires UniqueIds(list) && UniqueIds(list') && multiset(list) == multiset(list')
    ensures Localize(list, locale) == Localize(list', locale)
  {
    SamePacks(list, list');
    SameById(list, list');
  }

  // ------------------------------------------------------------ available codes

  ghost function EmbeddedCodes(l: Localizer, id: string): set<string> {
    if id in l.byId then set raw | raw in l.byId[id].locales :: NormalizeLocale(raw) else {}
  }

  ghost function PackCodes(packs: seq<Pack>, id: string): set<string> {
    set p | p in packs && p.locale != "" && id in p.catalog :: p.locale
  }

  ghost function AvailableCodes(l: Localizer, ids: seq<string>): set<string> {
    if ids == [] then {}
    else
      var id := ids[|ids| - 1];
      AvailableCodes(l, ids[..|ids| - 1]) + EmbeddedCodes(l, id) + PackCodes(l.packs, id)
  }

  method EmbeddedCodesOf(l: Localizer, id: string) returns (avail: set<string>)
    ensures avail == EmbeddedCodes(l, id)
  {
    avail := {};
    if id in l.byId {
      var raws := l.byId[id].locales.Keys;
      ghost var all := raws;
      while raws != {}
        invariant raws <= all
        invariant avail == set raw | raw in all - raws :: NormalizeLocale(raw)
        decreases raws
      {
        var raw :| raw in raws;
        assert all - (raws - {raw}) == (all - raws) + {raw};
        raws := raws - {raw};
        avail := avail + {NormalizeLocale(raw)};
      }
      assert all - raws == all;
    }
  }

  method PackCodesOf(packs: seq<Pack>, id: string) returns (avail: set<string>)
    ensures avail == PackCodes(packs, id)
  {
    avail := {};
    for i := 0 to |packs|
      invariant avail == PackCodes(packs[..i], id)
    {
      var p := packs[i];
      assert packs[..i + 1] == packs[..i] + [p];
      if p.locale == "" { continue; }
      if id in p.catalog {
        avail := avail + {p.locale};
      }
    }
    assert packs[..|packs|] == packs;
  }

  method GatherAvailable(l: Localizer, ids: seq<string>) returns (avail: set<string>)
    ensures avail == AvailableCodes(l, ids)
  {
    avail := {};
    for i := 0 to |ids|
      invariant avail == AvailableCodes(l, ids[..i])
    {
      assert ids[..i + 1][..i] == ids[..i];
      var embedded := EmbeddedCodesOf(l, ids[i]);
      var packed := PackCodesOf(l.packs, ids[i]);
      avail := avail + embedded + packed;
    }
    assert ids[..|ids|] == ids;
  }

  // ------------------------------------------------------------ layers

  function PackLayers(packs: seq<Pack>, id: string, code: string): seq<Tr> {
    if packs == [] then []
    else
      var p := packs[|packs| - 1];
      PackLayers(packs[..|packs| - 1], id, code) +
      if p.locale == code && id in p.catalog then [p.catalog[id]] else []
  }

  /** The embedded translation first, then the matching packs in (Order, id) order. */
  function Layers(l: Localizer, id: string, code: string): seq<Tr> {
    Embedded(l, id, code) + PackLayers(l.packs, id, code)
  }

  /** The last non-empty text, or the fallback. */
  function LastNonEmpty(texts: seq<string>, fallback: string): string {
    if texts == [] then fallback
    else if texts[|texts| - 1] != "" then texts[|texts| - 1]
    else LastNonEmpty(texts[..|texts| - 1], fallback)
  }

  datatype Names = Names(name: string, tagline: string, description: string)

  function LayNames(n: Names, t: Tr): Names {
    Names(Pick(t.name, n.name), Pick(t.tagline, n.tagline), Pick(t.description, n.description))
  }

  function ApplyNames(n: Names, layers: seq<Tr>): Names {
    if layers == [] then n
    else LayNames(ApplyNames(n, layers[..|layers| - 1]), layers[|layers| - 1])
  }

  function NamesSaid(layers: seq<Tr>): (r: seq<string>)
    ensures |r| == |layers|
  {
    seq(|layers|, i requires 0 <= i < |layers| => layers[i].name)
  }

  function TaglinesSaid(layers: seq<Tr>): (r: seq<string>)
    ensures |r| == |layers|
  {
    seq(|layers|, i requires 0 <= i < |layers| => layers[i].tagline)
  }

  function DescriptionsSaid(layers: seq<Tr>): (r: seq<string>)
    ensures |r| == |layers|
  {
    seq(|layers|, i requires 0 <= i < |layers| => layers[i].description)
  }

  /** Name, tagline and description are each the last non-empty text the layers give. */
  lemma {:induction false} LayeredNamesAreLast(n: Names, layers: seq<Tr>)
    ensures ApplyNames(n, layers).name == LastNonEmpty(NamesSaid(layers), n.name)
    ensures ApplyNames(n, layers).tagline == LastNonEmpty(TaglinesSaid(layers), n.tagline)
    ensures ApplyNames(n, layers).description == LastNonEmpty(DescriptionsSaid(layers), n.description)
  {
    if layers != [] {
      var k := |layers| - 1;
      LayeredNamesAreLast(n, layers[..k]);
      assert NamesSaid(layers)[..k] == NamesSaid(layers[..k]);
      assert TaglinesSaid(layers)[..k] == TaglinesSaid(layers[..k]);
      assert DescriptionsSaid(layers)[..k] == DescriptionsSaid(layers[..k]);
    }
  }

  /** One layer of interface texts; a layer may carry none. */
  function LayUI(below: UI, t: Tr): UI {
    match t.ui case None => below case Some(u) => ApplyUI(below, u)
  }

  /** Every layer laid over ui one after the other. */
  function ApplyLayers(ui: UI, layers: seq<Tr>): (r: UI)
    ensures forall p :: InUI(ui, p) ==> InUI(r, p)
  {
    if layers == [] then ui
    else LayUI(ApplyLayers(ui, layers[..|layers| - 1]), layers[|layers| - 1])
  }

  lemma NextLayer(packs: seq<Pack>, i: nat, id: string, code: string, below: seq<Tr>)
    requires i < |packs|
    ensures var p := packs[i];
            below + PackLayers(packs[..i + 1], id, code) ==
            if p.locale == code && id in p.catalog
            then (below + PackLayers(packs[..i], id, code)) + [p.catalog[id]]
            else below + PackLayers(packs[..i], id, code)
  {
    assert packs[..i + 1][..i] == packs[..i];
  }

  lemma NamesStep(n: Names, layers: seq<Tr>, t: Tr)
    ensures ApplyNames(n, layers + [t]) == LayNames(ApplyNames(n, layers), t)
  {
    assert (layers + [t])[..|layers|] == layers;
  }

  lemma LayersStep(ui: UI, layers: seq<Tr>, t: Tr)
    ensures ApplyLayers(ui, layers + [t]) == LayUI(ApplyLayers(ui, layers), t)
  {
    assert (layers + [t])[..|layers|] == layers;
  }

  function Embedded(l: Localizer, id: string, code: string): seq<Tr> {
    if id in l.byId && code in l.byId[id].locales then [l.byId[id].locales[code]] else []
  }

  /** The three name texts after every matching layer. */
  method ApplyName(l: Localizer, id: string, code: string, source: Names) returns (n: Names)
    ensures n == ApplyNames(source, Layers(l, id, code))
  {
    n := source;
    ghost var below := Embedded(l, id, code);
    if id in l.byId && code in l.byId[id].locales {
      n := LayerNames(l.byId[id].locales[code], n);
    }
    for i := 0 to |l.packs|
      invariant n == ApplyNames(source, below + PackLayers(l.packs[..i], id, code))
    {
      var p := l.packs[i];
      NextLayer(l.packs, i, id, code, below);
      if p.locale == code && id in p.catalog {
        n := LayerNames(p.catalog[id], n);
        NamesStep(source, below + PackLayers(l.packs[..i], id, code), p.catalog[id]);
      }
    }
    assert l.packs[..|l.packs|] == l.packs;
  }

  method LayerNames(tr: Tr, below: Names) returns (n: Names)
    ensures n == LayNames(below, tr)
  {
    n := below;
    if tr.name != "" { n := n.(name := tr.name); }
    if tr.tagline != "" { n := n.(tagline := tr.tagline); }
    if tr.description != "" { n := n.(description := tr.description); }
  }

  /** The interface after every matching layer; the stored one reads as before. */
  method ApplyUIFor(l: Localizer, id: string, code: string, ui: StoredUI) returns (r: StoredUI)
    ensures View(r) == ApplyLayers(old(View(ui)), Layers(l, id, code))
    ensures View(ui) == old(View(ui))
  {
    r := ui;
    if id in l.byId && code in l.byId[id].locales {
      r := LayerNext(l.byId[id].locales[code], r, View(ui), [], ui);
    }
    r := ApplyPacks(l.packs, id, code, r, old(View(ui)), Embedded(l, id, code), ui);
  }

  /** The loop over the packs, above the layers already there. */
  method ApplyPacks(
      packs: seq<Pack>, id: string, code: string, base: StoredUI,
      ghost source: UI, ghost below: seq<Tr>, ghost stored: StoredUI) returns (r: StoredUI)
    requires View(base) == ApplyLayers(source, below)
    ensures View(r) == ApplyLayers(source, below + PackLayers(packs, id, code))
    ensures View(stored) == old(View(stored))
  {
    r := base;
    ghost var kept := View(stored);
    assert packs[..0] == [] && below + PackLayers([], id, code) == below;
    for i := 0 to |packs|
      invariant View(r) == ApplyLayers(source, below + PackLayers(packs[..i], id, code)) && View(stored) == kept
    {
      var p := packs[i];
      NextLayer(packs, i, id, code, below);
      if p.locale == code && id in p.catalog {
        r := LayerNext(p.catalog[id], r, source, below + PackLayers(packs[..i], id, code), stored);
      }
    }
    assert packs[..|packs|] == packs;
  }

  /** One more layer over what the layers so far made of the source. */
  method LayerNext(tr: Tr, below: StoredUI, ghost source: UI, ghost layers: seq<Tr>, ghost stored: StoredUI) returns (r: StoredUI)
    requires View(below) == ApplyLayers(source, layers)
    ensures View(r) == ApplyLayers(source, layers + [tr])
    ensures View(stored) == old(View(stored))
  {
    LayersStep(source, layers, tr);
    r := LayerUI(tr, below);
    ViewKept(stored);
  }

  method LayerUI(tr: Tr, below: StoredUI) returns (r: StoredUI)
    ensures View(r) == LayUI(old(View(below)), tr)
    ensures View(below) == old(View(below))
  {
    r := below;
    if tr.ui.Some? { r := ApplyUITranslation(below, tr.ui.value); }
  }

  // ------------------------------------------------------------ localized results

  /** The localized copy of an extension, stated on its layers. */
  ghost function Localized(l: Localizer, e: Extension): Extension {
    var code := PickLocale(l.locale, AvailableCodes(l, [e.id]));
    var layers := Layers(l, e.id, code);
    if code == "" then e
    else
      e.(name := LastNonEmpty(NamesSaid(layers), e.name),
         tagline := LastNonEmpty(TaglinesSaid(layers), e.tagline),
         description := LastNonEmpty(DescriptionsSaid(layers), e.description),
         ui := ApplyLayers(e.ui, layers))
  }

  /** The code an extension is shown in, and its names then. */
  method LocalizedNames(l: Localizer, e: Extension) returns (code: string, n: Names)
    ensures code == PickLocale(l.locale, AvailableCodes(l, [e.id]))
    ensures var ui := if code == "" then e.ui else ApplyLayers(e.ui, Layers(l, e.id, code));
            Localized(l, e) == WithTexts(e, n, ui)
  {
    n := Names(e.name, e.tagline, e.description);
    var avail := GatherAvailable(l, [e.id]);
    code := PickLocaleByScan(l.locale, avail);
    if code == "" { return; }
    LayeredNamesAreLast(n, Layers(l, e.id, code));
    n := ApplyName(l, e.id, code, n);
  }

  function WithTexts(e: Extension, n: Names, ui: UI): Extension {
    e.(name := n.name, tagline := n.tagline, description := n.description, ui := ui)
  }

  /** The names and the interface of the localized copy; the stored record stays as it is. */
  method LocalizeExtension(l: Localizer, e: Extension, stored: StoredUI) returns (n: Names, ui: StoredUI)
    requires View(stored) == e.ui
    ensures WithTexts(e, n, View(ui)) == Localized(l, e)
    ensures View(stored) == e.ui
  {
    var code;
    code, n := LocalizedNames(l, e);
    ViewKept(stored);
    if code == "" {
      ui := stored;
    } else {
      ui := ApplyUIFor(l, e.id, code, stored);
    }
  }

  datatype Contribution = Contribution(id: string, name: string, ui: UI)

  function OwnerFirst(id: string, owner: string): seq<string> {
    (if owner != "" && owner != id then [owner] else []) + [id]
  }

  ghost function LocalizedContribution(l: Localizer, c: Contribution, owner: string): Contribution {
    var ids := OwnerFirst(c.id, owner);
    var code := PickLocale(l.locale, AvailableCodes(l, ids));
    if code == "" then c
    else
      c.(name := if c.id in l.byId then LastNonEmpty(NamesSaid(Layers(l, c.id, code)), c.name) else c.name,
         ui := ApplyLayers(c.ui, ContributionLayers(l, ids, code)))
  }

  /** Owner's layers first, so that a key for the contribution itself wins. */
  function ContributionLayers(l: Localizer, ids: seq<string>, code: string): seq<Tr> {
    if ids == [] then []
    else ContributionLayers(l, ids[..|ids| - 1], code) + Layers(l, ids[|ids| - 1], code)
  }

  lemma {:induction false} ApplyLayersConcat(ui: UI, a: seq<Tr>, b: seq<Tr>)
    ensures ApplyLayers(ui, a + b) == ApplyLayers(ApplyLayers(ui, a), b)
  {
    if b == [] {
      assert a + b == a;
    } else {
      assert (a + b)[..|a + b| - 1] == a + b[..|b| - 1];
      ApplyLayersConcat(ui, a, b[..|b| - 1]);
    }
  }

  /** The code a contribution is shown in; its name only follows its own id. */
  method LocalizedName(l: Localizer, c: Contribution, owner: string) returns (code: string, name: string)
    ensures var ids := OwnerFirst(c.id, owner);
            && code == PickLocale(l.locale, AvailableCodes(l, ids))
            && LocalizedContribution(l, c, owner) ==
                 c.(name := name, ui := if code == "" then c.ui else ApplyLayers(c.ui, ContributionLayers(l, ids, code)))
  {
    name := c.name;
    var avail := GatherAvailable(l, OwnerFirst(c.id, owner));
    code := PickLocaleByScan(l.locale, avail);
    if code != "" && c.id in l.byId {
      LayeredNamesAreLast(Names(name, "", ""), Layers(l, c.id, code));
      var n := ApplyName(l, c.id, code, Names(name, "", ""));
      name := n.name;
    }
  }

  /** The layers of all the ids over a stored interface, in order. */
  method LayerIds(l: Localizer, ids: seq<string>, code: string, stored: StoredUI) returns (ui: StoredUI)
    ensures View(ui) == ApplyLayers(old(View(stored)), ContributionLayers(l, ids, code))
    ensures View(stored) == old(View(stored))
  {
    ui := stored;
    ghost var source := View(stored);
    for i := 0 to |ids|
      invariant View(ui) == ApplyLayers(source, ContributionLayers(l, ids[..i], code)) && View(stored) == source
    {
      assert ids[..i + 1][..i] == ids[..i];
      ui := ApplyUIFor(l, ids[i], code, ui);
      ViewKept(stored);
      ApplyLayersConcat(source, ContributionLayers(l, ids[..i], code), Layers(l, ids[i], code));
    }
    assert ids[..|ids|] == ids;
  }

  method LocalizeContribution(l: Localizer, c: Contribution, owner: string, stored: StoredUI) returns (name: string, ui: StoredUI)
    requires View(stored) == c.ui
    ensures c.(name := name, ui := View(ui)) == LocalizedContribution(l, c, owner)
    ensures View(stored) == c.ui
  {
    var code;
    code, name := LocalizedName(l, c, owner);
    ViewKept(stored);
    if code == "" {
      ui := stored;
    } else {
      ui := LayerIds(l, OwnerFirst(c.id, owner), code, stored);
    }
  }

  // ------------------------------------------------------------ theorems about the result

  /** What the layers say at a place, bottom to top; a layer without interface texts says "". */
  function SaidAt(ui: UI, layers: seq<Tr>, p: Place): (r: seq<string>)
    requires InUI(ui, p)
    ensures |r| == |layers|
  {
    seq(|layers|, i requires 0 <= i < |layers| =>
      match layers[i].ui case None => "" case Some(t) => SaysAt(ui, t, p))
  }

  lemma {:induction false} LayersKeepPlaces(ui: UI, layers: seq<Tr>, t: UITr, p: Place)
    requires InUI(ui, p)
    ensures SaysAt(ApplyLayers(ui, layers), t, p) == SaysAt(ui, t, p)
  {
    if layers != [] {
      var below := layers[..|layers| - 1];
      LayersKeepPlaces(ui, below, t, p);
      match layers[|layers| - 1].ui
      case None =>
      case Some(u) => SaysAtKept(ApplyLayers(ui, below), u, t, p);
    }
  }

  lemma SaidBelow(ui: UI, layers: seq<Tr>, p: Place)
    requires InUI(ui, p) && layers != []
    ensures SaidAt(ui, layers, p)[..|layers| - 1] == SaidAt(ui, layers[..|layers| - 1], p)
  {
  }

  /** One more layer shows its text where it says something, else what was there. */
  lemma LayerAtPlace(ui: UI, t: Tr, p: Place)
    requires InUI(ui, p)
    ensures InUI(LayUI(ui, t), p)
    ensures TextAt(LayUI(ui, t), p) == Pick(if t.ui.Some? then SaysAt(ui, t.ui.value, p) else "", TextAt(ui, p))
  {
    if t.ui.Some? { ApplyAtPlace(ui, t.ui.value, p); }
  }

  /**
   Every translatable text of the layered interface is the last non-empty text its layers
   give for that place, else the source text.
   */
  lemma {:induction false} LayeredTextIsLast(ui: UI, layers: seq<Tr>, p: Place)
    requires InUI(ui, p)
    ensures TextAt(ApplyLayers(ui, layers), p) == LastNonEmpty(SaidAt(ui, layers, p), TextAt(ui, p))
  {
    if layers != [] {
      var below, top := layers[..|layers| - 1], layers[|layers| - 1];
      LayeredTextIsLast(ui, below, p);
      SaidBelow(ui, layers, p);
      LayerAtPlace(ApplyLayers(ui, below), top, p);
      if top.ui.Some? { LayersKeepPlaces(ui, below, top.ui.value, p); }
    }
  }

  /** All layers together amount to one translation, whatever interface they are laid over. */
  function Combined(layers: seq<Tr>): UITr {
    if layers == [] then UITr("", "", map[], map[], map[], map[], map[], map[])
    else
      var below := Combined(layers[..|layers| - 1]);
      match layers[|layers| - 1].ui case None => below case Some(t) => Overlay(below, t)
  }

  lemma {:induction false} LayersCombine(ui: UI, layers: seq<Tr>)
    ensures ApplyLayers(ui, layers) == ApplyUI(ui, Combined(layers))
  {
    if layers == [] {
      assert ApplyUI(ui, Combined([])) == ui by { ApplyNothing(ui); }
    } else {
      var below := layers[..|layers| - 1];
      LayersCombine(ui, below);
      match layers[|layers| - 1].ui
      case None =>
      case Some(t) => ApplyComposes(ui, Combined(below), t);
    }
  }

  lemma ApplyNothing(ui: UI)
    ensures ApplyUI(ui, UITr("", "", map[], map[], map[], map[], map[], map[])) == ui
  {
    assert TrAll(ui.fields, map[], TrField) == ui.fields;
    assert TrAll(ui.nav, map[], TrNav) == ui.nav;
    assert TrAll(ui.banners, map[], TrBanner) == ui.banners;
    assert TrAll(ui.widgets, map[], TrWidget) == ui.widgets;
    assert TrAll(ui.pages, map[], TrPage) == ui.pages;
    assert TrAll(ui.tabs, map[], TrTab) == ui.tabs;
  }

  /**
   Every text a localized extension shows is the last non-empty one among the matching
   packs in (Order, id) order, else the embedded one, else the source text; ids, list
   lengths, list orders and untranslated fields stay.
   */
  lemma LocalizedTexts(l: Localizer, e: Extension, p: Place)
    requires InUI(e.ui, p)
    ensures var code := PickLocale(l.locale, AvailableCodes(l, [e.id]));
            var layers := if code == "" then [] else Layers(l, e.id, code);
            var r := Localized(l, e);
            && r.name == LastNonEmpty(NamesSaid(layers), e.name)
            && r.tagline == LastNonEmpty(TaglinesSaid(layers), e.tagline)
            && r.description == LastNonEmpty(DescriptionsSaid(layers), e.description)
            && InUI(r.ui, p)
            && TextAt(r.ui, p) == LastNonEmpty(SaidAt(e.ui, layers, p), TextAt(e.ui, p))
            && SameShape(r.ui, e.ui)
            && r == e.(name := r.name, tagline := r.tagline, description := r.description, ui := r.ui)
  {
    var code := PickLocale(l.locale, AvailableCodes(l, [e.id]));
    var layers := if code == "" then [] else Layers(l, e.id, code);
    LayeredTextIsLast(e.ui, layers, p);
    LayersCombine(e.ui, layers);
    ApplyKeepsShape(e.ui, Combined(layers));
  }

  /** With unique ids, what an extension is shown as does not depend on store order. */
  lemma LocalizedIgnoresStoreOrder(list: seq<Extension>, list': seq<Extension>, locale: string, e: Extension)
    requires UniqueIds(list) && UniqueIds(list') && multiset(list) == multiset(list')
    requires NormalizeLocale(locale) != ""
    ensures Localized(Localize(list, locale).value, e) == Localized(Localize(list', locale).value, e)
  {
    StoreOrderIrrelevant(list, list', locale);
  }

  // ------------------------------------------------------------ embedded keys

  /** The packs of a localizer carry normalised locales. */
  ghost predicate NormalPacks(l: Localizer) {
    forall p :: p in l.packs ==> NormalizeLocale(p.locale) == p.locale
  }

  lemma LocalizeNormalPacks(list: seq<Extension>, locale: string)
    requires NormalizeLocale(locale) != ""
    ensures NormalPacks(Localize(list, locale).value)
  {
    var packs := PacksOf(list);
    MultisetMembers(Sort(packs, PackLe), packs);
    PacksSpec(list);
    forall p | p in packs ensures NormalizeLocale(p.locale) == p.locale {
      var e :| e in list && IsPack(e) && p == PackOf(e);
      NormalizeIdempotent(e.locale);
    }
  }

  lemma OfferedFor(l: Localizer, id: string)
    ensures AvailableCodes(l, [id]) == EmbeddedCodes(l, id) + PackCodes(l.packs, id)
  {
    assert [id][..0] == [];
    assert AvailableCodes(l, []) == {};
  }

  lemma OfferedIsNormal(l: Localizer, id: string, code: string)
    requires NormalPacks(l) && code in AvailableCodes(l, [id])
    ensures NormalizeLocale(code) == code
  {
    OfferedFor(l, id);
    if code in EmbeddedCodes(l, id) {
      var raw :| raw in l.byId[id].locales && NormalizeLocale(raw) == code;
      NormalizeIdempotent(raw);
    }
  }

  /** Some requested locale makes the lookup use exactly this embedded key. */
  ghost predicate KeyRead(l: Localizer, id: string, raw: string) {
    exists want :: Reads(l, id, raw, want)
  }

  ghost predicate Reads(l: Localizer, id: string, raw: string, want: string) {
    PickLocale(want, AvailableCodes(l, [id])) == raw
  }

  /** Whatever is requested, an embedded key is read if and only if it is in normalised form. */
  lemma KeyReadIff(l: Localizer, id: string, raw: string)
    requires NormalPacks(l) && id in l.byId && raw in l.byId[id].locales && raw != ""
    ensures KeyRead(l, id, raw) <==> NormalizeLocale(raw) == raw
  {
    var avail := AvailableCodes(l, [id]);
    if want :| Reads(l, id, raw, want) {
      PickIsAvailable(want, avail);
      OfferedIsNormal(l, id, raw);
    }
    if NormalizeLocale(raw) == raw {
      OfferedCodes(l, id, raw);
      PickIsAvailable(raw, avail);
      assert Reads(l, id, raw, raw);
    }
  }

  /** The localizer with another translation under one embedded key. */
  function WithTranslation(l: Localizer, id: string, raw: string, tr: Tr): Localizer
    requires id in l.byId
  {
    l.(byId := l.byId[id := l.byId[id].(locales := l.byId[id].locales[raw := tr])])
  }

  lemma SameOffers(l: Localizer, id: string, raw: string, tr: Tr, other: string)
    requires id in l.byId && raw in l.byId[id].locales
    ensures AvailableCodes(WithTranslation(l, id, raw, tr), [other]) == AvailableCodes(l, [other])
  {
    var l' := WithTranslation(l, id, raw, tr);
    assert l'.byId[id].locales.Keys == l.byId[id].locales.Keys;
    OfferedFor(l, other);
    OfferedFor(l', other);
    assert EmbeddedCodes(l', other) == EmbeddedCodes(l, other);
  }

  lemma PickedIsNormal(l: Localizer, id: string, want: string)
    requires NormalPacks(l)
    ensures var code := PickLocale(want, AvailableCodes(l, [id])); code != "" ==> NormalizeLocale(code) == code
  {
    var avail := AvailableCodes(l, [id]);
    PickIsAvailable(want, avail);
    if PickLocale(want, avail) != "" { OfferedIsNormal(l, id, PickLocale(want, avail)); }
  }

  lemma OtherKeysSame(l: Localizer, id: string, raw: string, tr: Tr, other: string, code: string)
    requires id in l.byId && code != raw
    ensures Layers(WithTranslation(l, id, raw, tr), other, code) == Layers(l, other, code)
  {
    assert Embedded(WithTranslation(l, id, raw, tr), other, code) == Embedded(l, other, code);
  }

  lemma LocalizedByLayers(l: Localizer, l': Localizer, e: Extension)
    requires l.locale == l'.locale && AvailableCodes(l, [e.id]) == AvailableCodes(l', [e.id])
    requires var code := PickLocale(l.locale, AvailableCodes(l, [e.id]));
             code != "" ==> Layers(l, e.id, code) == Layers(l', e.id, code)
    ensures Localized(l, e) == Localized(l', e)
  {
  }

  /**
   A translation under a key that is not in normalised form is never shown: whatever it
   says, whatever is requested and whatever packs there are, every extension looks the same.
   */
  lemma UnnormalisedKeyNeverShows(l: Localizer, id: string, raw: string, tr: Tr, e: Extension)
    requires NormalPacks(l) && id in l.byId && raw in l.byId[id].locales && NormalizeLocale(raw) != raw
    ensures Localized(WithTranslation(l, id, raw, tr), e) == Localized(l, e)
  {
    var l' := WithTranslation(l, id, raw, tr);
    SameOffers(l, id, raw, tr, e.id);
    PickedIsNormal(l, e.id, l.locale);
    var code := PickLocale(l.locale, AvailableCodes(l, [e.id]));
    if code != "" { OtherKeysSame(l, id, raw, tr, e.id, code); }
    LocalizedByLayers(l, l', e);
  }

  /** The translation under an embedded key is the bottom layer at the key's own code. */
  ghost predicate BottomAtOwnCode(l: Localizer, id: string, raw: string)
    requires id in l.byId && raw in l.byId[id].locales
  {
    var layers := Layers(l, id, NormalizeLocale(raw));
    layers != [] && layers[0] == l.byId[id].locales[raw]
  }

  ghost predicate AllAtTheBottom(l: Localizer, id: string)
    requires id in l.byId
  {
    forall raw :: raw in l.byId[id].locales && NormalizeLocale(raw) != "" ==> BottomAtOwnCode(l, id, raw)
  }

  ghost predicate NormalKeys(keys: set<string>) {
    forall raw :: raw in keys && NormalizeLocale(raw) != "" ==> NormalizeLocale(raw) == raw
  }

  lemma NormalKeyIsBottom(l: Localizer, id: string, raw: string)
    requires id in l.byId && raw in l.byId[id].locales && NormalizeLocale(raw) == raw
    ensures BottomAtOwnCode(l, id, raw)
  {
    assert Embedded(l, id, raw) == [l.byId[id].locales[raw]];
  }

  /** Translations that tell their keys apart. */
  function NamedTranslations(keys: set<string>): map<string, Tr> {
    map raw | raw in keys :: Tr(raw, "", "", None)
  }

  /** A store of one extension with these embedded keys and no packs. */
  function KeysOnly(keys: set<string>): Localizer {
    var ui := UI("", "", [], [], [], [], [], [], "");
    Localizer("", [], map["x" := Extension("x", "", "", "", "", 0, ui, NamedTranslations(keys), "", map[], "")])
  }

  lemma UnnormalisedIsNotBottom(l: Localizer, id: string, raw: string)
    requires id in l.byId && raw in l.byId[id].locales && NormalizeLocale(raw) != raw && l.packs == []
    requires l.byId[id].locales == NamedTranslations(l.byId[id].locales.Keys)
    ensures !BottomAtOwnCode(l, id, raw)
  {
  }

  /**
   With these embedded keys every translation is the bottom layer at its own code, whatever
   the translations say and whatever packs there are, if and only if each of the keys is in
   normalised form already.
   */
  lemma EmbeddedShownIff(keys: set<string>)
    ensures (forall l: Localizer, id: string :: id in l.byId && l.byId[id].locales.Keys == keys ==> AllAtTheBottom(l, id))
       <==> NormalKeys(keys)
  {
    if NormalKeys(keys) {
      forall l: Localizer, id: string | id in l.byId && l.byId[id].locales.Keys == keys ensures AllAtTheBottom(l, id) {
        forall raw | raw in l.byId[id].locales && NormalizeLocale(raw) != "" ensures BottomAtOwnCode(l, id, raw) {
          assert raw in keys;
          NormalKeyIsBottom(l, id, raw);
        }
      }
    } else {
      var raw :| raw in keys && NormalizeLocale(raw) != "" && NormalizeLocale(raw) != raw;
      var l := KeysOnly(keys);
      assert l.byId["x"].locales.Keys == keys;
      UnnormalisedIsNotBottom(l, "x", raw);
      assert !AllAtTheBottom(l, "x");
    }
  }

  lemma {:induction false} PackCodesServed(packs: seq<Pack>, id: string, code: string)
    requires code != ""
    ensures PackLayers(packs, id, code) != [] <==> code in PackCodes(packs, id)
  {
    if packs != [] {
      var init := packs[..|packs| - 1];
      PackCodesServed(init, id, code);
      assert packs == init + [packs[|packs| - 1]];
    }
  }

  /**
   Every code offered for an extension carries some translation, not necessarily the one
   the code was offered for, exactly when each embedded
   key, once normalised, is itself an embedded key or the locale of a pack for the
   extension (the lookup uses the normalised code against the raw keys).
   */
  lemma OfferedMeansTranslated(l: Localizer, id: string)
    ensures (forall code :: code in AvailableCodes(l, [id]) && code != "" ==> Layers(l, id, code) != [])
       <==> (id in l.byId ==>
              forall raw :: raw in l.byId[id].locales && NormalizeLocale(raw) != "" ==>
                NormalizeLocale(raw) in l.byId[id].locales || NormalizeLocale(raw) in PackCodes(l.packs, id))
  {
    OfferedFor(l, id);
    forall code | code in AvailableCodes(l, [id]) && code != ""
      ensures Layers(l, id, code) != [] <==>
              (id in l.byId && code in l.byId[id].locales) || code in PackCodes(l.packs, id)
    {
      PackCodesServed(l.packs, id, code);
    }
    if id in l.byId {
      forall raw | raw in l.byId[id].locales ensures NormalizeLocale(raw) in AvailableCodes(l, [id]) {
        assert NormalizeLocale(raw) in EmbeddedCodes(l, id);
      }
    }
  }

  lemma NoLayersNoChange(l: Localizer, e: Extension)
    requires Layers(l, e.id, PickLocale(l.locale, AvailableCodes(l, [e.id]))) == []
    ensures Localized(l, e) == e
  {
  }

  lemma OfferedCodes(l: Localizer, id: string, raw: string)
    requires id in l.byId && raw in l.byId[id].locales
    ensures NormalizeLocale(raw) in AvailableCodes(l, [id])
  {
    assert NormalizeLocale(raw) in EmbeddedCodes(l, id);
  }

  lemma SoleKeyUnlayered(l: Localizer, id: string, raw: string, code: string)
    requires id in l.byId && l.byId[id].locales.Keys == {raw} && l.packs == [] && code != raw
    ensures Layers(l, id, code) == []
  {
  }

  /**
   An extension whose only embedded key is not in normalised form is offered in that
   key's locale, and yet shown untranslated when that locale is requested.
   */
  lemma UnnormalisedKeyIsLost(l: Localizer, e: Extension, raw: string, code: string)
    requires code == NormalizeLocale(raw) && code != raw && code != ""
    requires e.id in l.byId && l.byId[e.id] == e && l.packs == [] && l.locale == code
    requires e.locales.Keys == {raw}
    ensures code in AvailableCodes(l, [e.id])
    ensures PickLocale(l.locale, AvailableCodes(l, [e.id])) == code
    ensures Localized(l, e) == e
  {
    var avail := AvailableCodes(l, [e.id]);
    assert code in avail by { OfferedCodes(l, e.id, raw); }
    assert PickLocale(code, avail) == code by {
      NormalizeIdempotent(raw);
      PickIsAvailable(code, avail);
    }
    SoleKeyUnlayered(l, e.id, raw, code);
    NoLayersNoChange(l, e);
  }

  /** "pt_BR" is such a key: no text with an underscore is in normalised form. */
  lemma UnderscoreIsUnnormalised(code: string)
    requires '_' in code
    ensures NormalizeLocale(code) != code
  {
    assert forall c :: c in NormalizeLocale(code) ==> c != '_';
  }

  /**
   So it is in every localizer built from a store: a key such as "pt_BR" is not looked up for
   any request, and what is translated under it never shows.
   */
  lemma UnderscoreKeyNeverShows(list: seq<Extension>, locale: string, id: string, raw: string, tr: Tr, e: Extension)
    requires NormalizeLocale(locale) != "" && '_' in raw
    requires var l := Localize(list, locale).value; id in l.byId && raw in l.byId[id].locales
    ensures var l := Localize(list, locale).value;
            !KeyRead(l, id, raw) && Localized(WithTranslation(l, id, raw, tr), e) == Localized(l, e)
  {
    var l := Localize(list, locale).value;
    LocalizeNormalPacks(list, locale);
    UnderscoreIsUnnormalised(raw);
    KeyReadIff(l, id, raw);
    UnnormalisedKeyNeverShows(l, id, raw, tr, e);
  }
}
