/**
 Layering one translation over the interface an extension contributes: what
 applyUITranslation computes, how two translations combine into one, and the text found
 at every translatable place afterwards.
 */
module Translation {
  import opened Common

  // ------------------------------------------------------------ manifest texts
  // `other` stands for the fields of a record no translation touches.

  datatype Field = Field(key: string, caption: string, description: string, other: string)
  datatype NavEntry = NavEntry(id: string, caption: string, other: string)
  datatype Banner = Banner(id: string, message: string, linkLabel: string, other: string)
  datatype Widget = Widget(id: string, title: string, body: string, other: string)
  datatype Block = Block(text: string, items: seq<string>, other: string)
  datatype Page = Page(id: string, title: string, summary: string, blocks: seq<Block>, other: string)
  datatype SettingsTab = SettingsTab(id: string, caption: string, blocks: seq<Block>, other: string)

  datatype UI = UI(
    help: string,
    logoText: string,
    fields: seq<Field>,
    nav: seq<NavEntry>,
    banners: seq<Banner>,
    widgets: seq<Widget>,
    pages: seq<Page>,
    tabs: seq<SettingsTab>,
    other: string)

  // ------------------------------------------------------------ translations

  datatype FieldTr = FieldTr(caption: string, description: string)
  datatype BannerTr = BannerTr(message: string, linkLabel: string)
  datatype WidgetTr = WidgetTr(title: string, body: string)
  datatype BlockTr = BlockTr(text: string, items: seq<string>)
  datatype PageTr = PageTr(title: string, summary: string, blocks: map<string, BlockTr>)
  datatype TabTr = TabTr(caption: string, blocks: map<string, BlockTr>)

  datatype UITr = UITr(
    help: string,
    logoText: string,
    fields: map<string, FieldTr>,
    nav: map<string, string>,
    banners: map<string, BannerTr>,
    widgets: map<string, WidgetTr>,
    pages: map<string, PageTr>,
    tabs: map<string, TabTr>)

  /** An empty translation leaves what it is laid over. */
  function Pick<T(==)>(translated: seq<T>, source: seq<T>): seq<T> {
    if translated != [] then translated else source
  }

  // ------------------------------------------------------------ one element at a time

  function TrField(f: Field, m: map<string, FieldTr>): Field {
    if f.key in m
    then f.(caption := Pick(m[f.key].caption, f.caption), description := Pick(m[f.key].description, f.description))
    else f
  }

  function TrNav(e: NavEntry, m: map<string, string>): NavEntry {
    if e.id in m then e.(caption := Pick(m[e.id], e.caption)) else e
  }

  function TrBanner(b: Banner, m: map<string, BannerTr>): Banner {
    if b.id in m
    then b.(message := Pick(m[b.id].message, b.message), linkLabel := Pick(m[b.id].linkLabel, b.linkLabel))
    else b
  }

  function TrWidget(w: Widget, m: map<string, WidgetTr>): Widget {
    if w.id in m
    then w.(title := Pick(m[w.id].title, w.title), body := Pick(m[w.id].body, w.body))
    else w
  }

  /** A block is addressed by its decimal position in the source manifest. */
  function TrBlock(b: Block, i: nat, m: map<string, BlockTr>): Block {
    if Decimal(i) in m
    then b.(text := Pick(m[Decimal(i)].text, b.text), items := Pick(m[Decimal(i)].items, b.items))
    else b
  }

  function TrBlocks(bs: seq<Block>, m: map<string, BlockTr>): (r: seq<Block>)
    ensures |r| == |bs|
    ensures forall i :: 0 <= i < |bs| ==> r[i] == TrBlock(bs[i], i, m)
  {
    seq(|bs|, i requires 0 <= i < |bs| => TrBlock(bs[i], i, m))
  }

  function TrPage(p: Page, m: map<string, PageTr>): Page {
    if p.id in m
    then p.(title := Pick(m[p.id].title, p.title), summary := Pick(m[p.id].summary, p.summary),
            blocks := TrBlocks(p.blocks, m[p.id].blocks))
    else p
  }

  function TrTab(t: SettingsTab, m: map<string, TabTr>): SettingsTab {
    if t.id in m
    then t.(caption := Pick(m[t.id].caption, t.caption), blocks := TrBlocks(t.blocks, m[t.id].blocks))
    else t
  }

  function TrAll<X, M>(xs: seq<X>, m: M, f: (X, M) -> X): (r: seq<X>)
    ensures |r| == |xs|
    ensures forall i :: 0 <= i < |xs| ==> r[i] == f(xs[i], m)
  {
    seq(|xs|, i requires 0 <= i < |xs| => f(xs[i], m))
  }

  /** The interface with one translation laid over it. */
  function ApplyUI(ui: UI, t: UITr): UI {
    UI(Pick(t.help, ui.help),
       Pick(t.logoText, ui.logoText),
       TrAll(ui.fields, t.fields, TrField),
       TrAll(ui.nav, t.nav, TrNav),
       TrAll(ui.banners, t.banners, TrBanner),
       TrAll(ui.widgets, t.widgets, TrWidget),
       TrAll(ui.pages, t.pages, TrPage),
       TrAll(ui.tabs, t.tabs, TrTab),
       ui.other)
  }

  // ------------------------------------------------------------ interfaces in memory
  // A stored interface holds its lists, and each page and tab its blocks, as arrays that
  // copies of it may share.

  datatype StoredPage = StoredPage(id: string, title: string, summary: string, blocks: array<Block>, other: string)
  datatype StoredTab = StoredTab(id: string, caption: string, blocks: array<Block>, other: string)

  datatype StoredUI = StoredUI(
    help: string,
    logoText: string,
    fields: array<Field>,
    nav: array<NavEntry>,
    banners: array<Banner>,
    widgets: array<Widget>,
    pages: array<StoredPage>,
    tabs: array<StoredTab>,
    other: string)

  ghost function PageView(p: StoredPage): Page
    reads p.blocks
  {
    Page(p.id, p.title, p.summary, p.blocks[..], p.other)
  }

  ghost function TabView(t: StoredTab): SettingsTab
    reads t.blocks
  {
    SettingsTab(t.id, t.caption, t.blocks[..], t.other)
  }

  ghost function PagesView(ps: seq<StoredPage>): (r: seq<Page>)
    reads set p | p in ps :: p.blocks
    ensures |r| == |ps| && forall i :: 0 <= i < |ps| ==> r[i] == PageView(ps[i])
  {
    if ps == [] then [] else PagesView(ps[..|ps| - 1]) + [PageView(ps[|ps| - 1])]
  }

  ghost function TabsView(ts: seq<StoredTab>): (r: seq<SettingsTab>)
    reads set t | t in ts :: t.blocks
    ensures |r| == |ts| && forall i :: 0 <= i < |ts| ==> r[i] == TabView(ts[i])
  {
    if ts == [] then [] else TabsView(ts[..|ts| - 1]) + [TabView(ts[|ts| - 1])]
  }

  /** The interface a stored one stands for. */
  ghost function View(ui: StoredUI): UI
    reads ui.fields, ui.nav, ui.banners, ui.widgets, ui.pages, ui.tabs
    reads set p | p in ui.pages[..] :: p.blocks
    reads set t | t in ui.tabs[..] :: t.blocks
  {
    UI(ui.help, ui.logoText, ui.fields[..], ui.nav[..], ui.banners[..], ui.widgets[..],
       PagesView(ui.pages[..]), TabsView(ui.tabs[..]), ui.other)
  }

  // ------------------------------------------------------------ the loops of the source

  /** Overwrites a freshly copied slice of blocks in place. */
  method ApplyBlockTexts(blocks: array<Block>, texts: map<string, BlockTr>)
    modifies blocks
    ensures blocks[..] == TrBlocks(old(blocks[..]), texts)
  {
    for i := 0 to blocks.Length
      invariant forall k :: 0 <= k < i ==> blocks[k] == TrBlock(old(blocks[k]), k, texts)
      invariant forall k :: i <= k < blocks.Length ==> blocks[k] == old(blocks[k])
    {
      var key := Decimal(i);
      if key in texts {
        var tr := texts[key];
        if tr.text != "" { blocks[i] := blocks[i].(text := tr.text); }
        if |tr.items| > 0 { blocks[i] := blocks[i].(items := tr.items); }
      }
    }
  }

  method Copied<T>(xs: array<T>) returns (a: array<T>)
    ensures fresh(a) && a[..] == xs[..]
  {
    a := new T[xs.Length](i requires 0 <= i < xs.Length reads xs => xs[i]);
  }

  method TranslateFields(xs: array<Field>, m: map<string, FieldTr>) returns (a: array<Field>)
    ensures a[..] == TrAll(xs[..], m, TrField)
    ensures if |m| == 0 then a == xs else fresh(a)
  {
    if |m| == 0 {
      return xs;
    }
    a := Copied(xs);
    for i := 0 to a.Length
      invariant fresh(a) && a.Length == xs.Length
      invariant forall k :: 0 <= k < i ==> a[k] == TrField(xs[k], m)
      invariant forall k :: i <= k < a.Length ==> a[k] == xs[k]
    {
      if a[i].key in m {
        var tr := m[a[i].key];
        if tr.caption != "" { a[i] := a[i].(caption := tr.caption); }
        if tr.description != "" { a[i] := a[i].(description := tr.description); }
      }
    }
  }

  method TranslateNav(xs: array<NavEntry>, m: map<string, string>) returns (a: array<NavEntry>)
    ensures a[..] == TrAll(xs[..], m, TrNav)
    ensures if |m| == 0 then a == xs else fresh(a)
  {
    if |m| == 0 {
      return xs;
    }
    a := Copied(xs);
    for i := 0 to a.Length
      invariant fresh(a) && a.Length == xs.Length
      invariant forall k :: 0 <= k < i ==> a[k] == TrNav(xs[k], m)
      invariant forall k :: i <= k < a.Length ==> a[k] == xs[k]
    {
      var caption := if a[i].id in m then m[a[i].id] else "";
      if caption != "" { a[i] := a[i].(caption := caption); }
    }
  }

  method TranslateBanners(xs: array<Banner>, m: map<string, BannerTr>) returns (a: array<Banner>)
    ensures a[..] == TrAll(xs[..], m, TrBanner)
    ensures if |m| == 0 then a == xs else fresh(a)
  {
    if |m| == 0 {
      return xs;
    }
    a := Copied(xs);
    for i := 0 to a.Length
      invariant fresh(a) && a.Length == xs.Length
      invariant forall k :: 0 <= k < i ==> a[k] == TrBanner(xs[k], m)
      invariant forall k :: i <= k < a.Length ==> a[k] == xs[k]
    {
      if a[i].id in m {
        var tr := m[a[i].id];
        if tr.message != "" { a[i] := a[i].(message := tr.message); }
        if tr.linkLabel != "" { a[i] := a[i].(linkLabel := tr.linkLabel); }
      }
    }
  }

  method TranslateWidgets(xs: array<Widget>, m: map<string, WidgetTr>) returns (a: array<Widget>)
    ensures a[..] == TrAll(xs[..], m, TrWidget)
    ensures if |m| == 0 then a == xs else fresh(a)
  {
    if |m| == 0 {
      return xs;
    }
    a := Copied(xs);
    for i := 0 to a.Length
      invariant fresh(a) && a.Length == xs.Length
      invariant forall k :: 0 <= k < i ==> a[k] == TrWidget(xs[k], m)
      invariant forall k :: i <= k < a.Length ==> a[k] == xs[k]
    {
      if a[i].id in m {
        var tr := m[a[i].id];
        if tr.title != "" { a[i] := a[i].(title := tr.title); }
        if tr.body != "" { a[i] := a[i].(body := tr.body); }
      }
    }
  }

  /** f is what the translation makes of a page. */
  ghost predicate PageByPage(f: Page -> Page, m: map<string, PageTr>) {
    forall p: Page {:trigger TrPage(p, m)} :: f(p) == TrPage(p, m)
  }

  method TranslatePage(p: StoredPage, m: map<string, PageTr>, ghost f: Page -> Page) returns (q: StoredPage)
    requires PageByPage(f, m)
    ensures PageView(q) == f(PageView(p))
    ensures if p.id in m then fresh(q.blocks) else q == p
  {
    assert TrPage(PageView(p), m) == f(PageView(p));
    q := p;
    if p.id !in m { return; }
    var tr := m[p.id];
    if tr.title != "" { q := q.(title := tr.title); }
    if tr.summary != "" { q := q.(summary := tr.summary); }
    var blocks := Copied(p.blocks);
    ApplyBlockTexts(blocks, tr.blocks);
    q := q.(blocks := blocks);
  }

  method TranslateEachPage(xs: array<StoredPage>, m: map<string, PageTr>, ghost f: Page -> Page) returns (a: array<StoredPage>)
    requires PageByPage(f, m)
    ensures fresh(a) && a.Length == xs.Length
    ensures forall k :: 0 <= k < a.Length ==> PageView(a[k]) == f(PageView(xs[k]))
    ensures forall k :: 0 <= k < a.Length ==>
              if xs[k].id in m then fresh(a[k].blocks) else a[k].blocks == xs[k].blocks
  {
    a := Copied(xs);
    for i := 0 to a.Length
      invariant fresh(a) && a.Length == xs.Length
      invariant forall k :: 0 <= k < i ==> PageView(a[k]) == f(PageView(xs[k]))
      invariant forall k :: 0 <= k < i ==>
                  if xs[k].id in m then fresh(a[k].blocks) else a[k].blocks == xs[k].blocks
      invariant forall k :: i <= k < a.Length ==> a[k] == xs[k]
    {
      a[i] := TranslatePage(a[i], m, f);
    }
  }

  method TranslatePages(xs: array<StoredPage>, m: map<string, PageTr>) returns (a: array<StoredPage>)
    ensures PagesView(a[..]) == TrAll(PagesView(xs[..]), m, TrPage)
    ensures if |m| == 0 then a == xs
            else
              && fresh(a) && a.Length == xs.Length
              && forall k :: 0 <= k < a.Length ==>
                   if xs[k].id in m then fresh(a[k].blocks) else a[k].blocks == xs[k].blocks
  {
    if |m| == 0 {
      assert PagesView(xs[..]) == TrAll(PagesView(xs[..]), m, TrPage);
      return xs;
    }
    a := TranslateEachPage(xs, m, p => TrPage(p, m));
    assert PagesView(a[..]) == TrAll(PagesView(xs[..]), m, TrPage);
  }

  /** f is what the translation makes of a tab. */
  ghost predicate TabByTab(f: SettingsTab -> SettingsTab, m: map<string, TabTr>) {
    forall p: SettingsTab {:trigger TrTab(p, m)} :: f(p) == TrTab(p, m)
  }

  method TranslateTab(p: StoredTab, m: map<string, TabTr>, ghost f: SettingsTab -> SettingsTab) returns (q: StoredTab)
    requires TabByTab(f, m)
    ensures TabView(q) == f(TabView(p))
    ensures if p.id in m then fresh(q.blocks) else q == p
  {
    assert TrTab(TabView(p), m) == f(TabView(p));
    q := p;
    if p.id !in m { return; }
    var tr := m[p.id];
    if tr.caption != "" { q := q.(caption := tr.caption); }
    var blocks := Copied(p.blocks);
    ApplyBlockTexts(blocks, tr.blocks);
    q := q.(blocks := blocks);
  }

  method TranslateEachTab(xs: array<StoredTab>, m: map<string, TabTr>, ghost f: SettingsTab -> SettingsTab) returns (a: array<StoredTab>)
    requires TabByTab(f, m)
    ensures fresh(a) && a.Length == xs.Length
    ensures forall k :: 0 <= k < a.Length ==> TabView(a[k]) == f(TabView(xs[k]))
    ensures forall k :: 0 <= k < a.Length ==>
              if xs[k].id in m then fresh(a[k].blocks) else a[k].blocks == xs[k].blocks
  {
    a := Copied(xs);
    for i := 0 to a.Length
      invariant fresh(a) && a.Length == xs.Length
      invariant forall k :: 0 <= k < i ==> TabView(a[k]) == f(TabView(xs[k]))
      invariant forall k :: 0 <= k < i ==>
                  if xs[k].id in m then fresh(a[k].blocks) else a[k].blocks == xs[k].blocks
      invariant forall k :: i <= k < a.Length ==> a[k] == xs[k]
    {
      a[i] := TranslateTab(a[i], m, f);
    }
  }

  method TranslateTabs(xs: array<StoredTab>, m: map<string, TabTr>) returns (a: array<StoredTab>)
    ensures TabsView(a[..]) == TrAll(TabsView(xs[..]), m, TrTab)
    ensures if |m| == 0 then a == xs
            else
              && fresh(a) && a.Length == xs.Length
              && forall k :: 0 <= k < a.Length ==>
                   if xs[k].id in m then fresh(a[k].blocks) else a[k].blocks == xs[k].blocks
  {
    if |m| == 0 {
      assert TabsView(xs[..]) == TrAll(TabsView(xs[..]), m, TrTab);
      return xs;
    }
    a := TranslateEachTab(xs, m, p => TrTab(p, m));
    assert TabsView(a[..]) == TrAll(TabsView(xs[..]), m, TrTab);
  }

  /**
   Copy-on-write. The stored interface reads as before and nothing stored is written; the
   result has lists of its own where the translation has entries for that list, blocks of its
   own in the pages and tabs the translation names, and shares all the others.
   */
  method ApplyUITranslation(ui: StoredUI, t: UITr) returns (r: StoredUI)
    ensures View(r) == ApplyUI(old(View(ui)), t)
    ensures View(ui) == old(View(ui))
    ensures if |t.fields| == 0 then r.fields == ui.fields else fresh(r.fields)
    ensures if |t.nav| == 0 then r.nav == ui.nav else fresh(r.nav)
    ensures if |t.banners| == 0 then r.banners == ui.banners else fresh(r.banners)
    ensures if |t.widgets| == 0 then r.widgets == ui.widgets else fresh(r.widgets)
    ensures if |t.pages| == 0 then r.pages == ui.pages
            else
              && fresh(r.pages) && r.pages.Length == ui.pages.Length
              && forall k :: 0 <= k < r.pages.Length ==>
                   if ui.pages[k].id in t.pages then fresh(r.pages[k].blocks)
                   else r.pages[k].blocks == ui.pages[k].blocks
    ensures if |t.tabs| == 0 then r.tabs == ui.tabs
            else
              && fresh(r.tabs) && r.tabs.Length == ui.tabs.Length
              && forall k :: 0 <= k < r.tabs.Length ==>
                   if ui.tabs[k].id in t.tabs then fresh(r.tabs[k].blocks)
                   else r.tabs[k].blocks == ui.tabs[k].blocks
  {
    ghost var before := View(ui);
    r := TranslateLists(ui, t);
    PagesKept(ui.pages[..]);
    TabsKept(ui.tabs[..]);
    assert View(ui) == before;
    var pages, tabs := TranslateDeep(ui, t);
    assert View(r.(pages := pages, tabs := tabs)) == ApplyUI(before, t);
    r := r.(pages := pages, tabs := tabs);
  }

  /** Pages read the same while their blocks do. */
  twostate lemma PagesKept(ps: seq<StoredPage>)
    requires forall p :: p in ps ==> unchanged(p.blocks)
    ensures PagesView(ps) == old(PagesView(ps))
  {
    assert forall i :: 0 <= i < |ps| ==> PageView(ps[i]) == old(PageView(ps[i]));
  }

  twostate lemma TabsKept(ts: seq<StoredTab>)
    requires forall t :: t in ts ==> unchanged(t.blocks)
    ensures TabsView(ts) == old(TabsView(ts))
  {
    assert forall i :: 0 <= i < |ts| ==> TabView(ts[i]) == old(TabView(ts[i]));
  }

  /** A stored interface reads the same while nothing it holds is written. */
  twostate lemma ViewKept(ui: StoredUI)
    requires unchanged(ui.fields, ui.nav, ui.banners, ui.widgets, ui.pages, ui.tabs)
    requires forall p :: p in ui.pages[..] ==> unchanged(p.blocks)
    requires forall t :: t in ui.tabs[..] ==> unchanged(t.blocks)
    ensures View(ui) == old(View(ui))
  {
    PagesKept(ui.pages[..]);
    TabsKept(ui.tabs[..]);
    assert ui.pages[..] == old(ui.pages[..]) && ui.tabs[..] == old(ui.tabs[..]);
  }

  /** The lists with blocks; pages and tabs never share theirs with another list. */
  method TranslateDeep(ui: StoredUI, t: UITr) returns (pages: array<StoredPage>, tabs: array<StoredTab>)
    ensures PagesView(pages[..]) == TrAll(PagesView(ui.pages[..]), t.pages, TrPage)
    ensures TabsView(tabs[..]) == TrAll(TabsView(ui.tabs[..]), t.tabs, TrTab)
    ensures if |t.pages| == 0 then pages == ui.pages
            else
              && fresh(pages) && pages.Length == ui.pages.Length
              && forall k :: 0 <= k < pages.Length ==>
                   if ui.pages[k].id in t.pages then fresh(pages[k].blocks)
                   else pages[k].blocks == ui.pages[k].blocks
    ensures if |t.tabs| == 0 then tabs == ui.tabs
            else
              && fresh(tabs) && tabs.Length == ui.tabs.Length
              && forall k :: 0 <= k < tabs.Length ==>
                   if ui.tabs[k].id in t.tabs then fresh(tabs[k].blocks)
                   else tabs[k].blocks == ui.tabs[k].blocks
  {
    pages := TranslatePages(ui.pages, t.pages);
    TabsKept(ui.tabs[..]);
    ghost var translated := PagesView(pages[..]);
    assert TabsView(ui.tabs[..]) == old(TabsView(ui.tabs[..]));
    label paged:
    tabs := TranslateTabs(ui.tabs, t.tabs);
    PagesKept@paged(pages[..]);
    assert PagesView(pages[..]) == translated;
  }

  /** The texts and the lists without blocks. */
  method TranslateLists(ui: StoredUI, t: UITr) returns (r: StoredUI)
    ensures r == ui.(help := Pick(t.help, ui.help), logoText := Pick(t.logoText, ui.logoText),
                     fields := r.fields, nav := r.nav, banners := r.banners, widgets := r.widgets)
    ensures r.fields[..] == TrAll(ui.fields[..], t.fields, TrField)
    ensures r.nav[..] == TrAll(ui.nav[..], t.nav, TrNav)
    ensures r.banners[..] == TrAll(ui.banners[..], t.banners, TrBanner)
    ensures r.widgets[..] == TrAll(ui.widgets[..], t.widgets, TrWidget)
    ensures if |t.fields| == 0 then r.fields == ui.fields else fresh(r.fields)
    ensures if |t.nav| == 0 then r.nav == ui.nav else fresh(r.nav)
    ensures if |t.banners| == 0 then r.banners == ui.banners else fresh(r.banners)
    ensures if |t.widgets| == 0 then r.widgets == ui.widgets else fresh(r.widgets)
  {
    r := ui;
    if t.help != "" { r := r.(help := t.help); }
    if t.logoText != "" { r := r.(logoText := t.logoText); }
    var fields, nav := TranslateEntries(ui, t);
    assert ui.banners[..] == old(ui.banners[..]) && ui.widgets[..] == old(ui.widgets[..]);
    var banners, widgets := TranslateCards(ui, t);
    r := r.(fields := fields, nav := nav, banners := banners, widgets := widgets);
  }

  method TranslateEntries(ui: StoredUI, t: UITr) returns (fields: array<Field>, nav: array<NavEntry>)
    ensures fields[..] == TrAll(ui.fields[..], t.fields, TrField)
    ensures nav[..] == TrAll(ui.nav[..], t.nav, TrNav)
    ensures if |t.fields| == 0 then fields == ui.fields else fresh(fields)
    ensures if |t.nav| == 0 then nav == ui.nav else fresh(nav)
  {
    fields := TranslateFields(ui.fields, t.fields);
    nav := TranslateNav(ui.nav, t.nav);
  }

  method TranslateCards(ui: StoredUI, t: UITr) returns (banners: array<Banner>, widgets: array<Widget>)
    ensures banners[..] == TrAll(ui.banners[..], t.banners, TrBanner)
    ensures widgets[..] == TrAll(ui.widgets[..], t.widgets, TrWidget)
    ensures if |t.banners| == 0 then banners == ui.banners else fresh(banners)
    ensures if |t.widgets| == 0 then widgets == ui.widgets else fresh(widgets)
  {
    banners := TranslateBanners(ui.banners, t.banners);
    widgets := TranslateWidgets(ui.widgets, t.widgets);
  }

  // ------------------------------------------------------------ overlay of translations

  /** Key by key; where both maps have a key, their entries are combined by f. */
  function OverlayMap<V>(m1: map<string, V>, m2: map<string, V>, f: (V, V) -> V): (m: map<string, V>)
    ensures m.Keys == m1.Keys + m2.Keys
    ensures forall k :: k in m ==>
      m[k] == if k in m1 && k in m2 then f(m1[k], m2[k]) else if k in m2 then m2[k] else m1[k]
  {
    map k | k in m1.Keys + m2.Keys ::
      if k in m1 && k in m2 then f(m1[k], m2[k]) else if k in m2 then m2[k] else m1[k]
  }

  function OverlayText(a: string, b: string): string { Pick(b, a) }
  function OverlayField(a: FieldTr, b: FieldTr): FieldTr {
    FieldTr(Pick(b.caption, a.caption), Pick(b.description, a.description))
  }

  function OverlayBanner(a: BannerTr, b: BannerTr): BannerTr {
    BannerTr(Pick(b.message, a.message), Pick(b.linkLabel, a.linkLabel))
  }

  function OverlayWidget(a: WidgetTr, b: WidgetTr): WidgetTr {
    WidgetTr(Pick(b.title, a.title), Pick(b.body, a.body))
  }

  function OverlayBlock(a: BlockTr, b: BlockTr): BlockTr {
    BlockTr(Pick(b.text, a.text), Pick(b.items, a.items))
  }

  function OverlayPage(a: PageTr, b: PageTr): PageTr {
    PageTr(Pick(b.title, a.title), Pick(b.summary, a.summary), OverlayMap(a.blocks, b.blocks, OverlayBlock))
  }

  function OverlayTab(a: TabTr, b: TabTr): TabTr {
    TabTr(Pick(b.caption, a.caption), OverlayMap(a.blocks, b.blocks, OverlayBlock))
  }

  /** t2 laid over t1: one translation worth both. */
  function Overlay(t1: UITr, t2: UITr): UITr {
    UITr(Pick(t2.help, t1.help),
         Pick(t2.logoText, t1.logoText),
         OverlayMap(t1.fields, t2.fields, OverlayField),
         OverlayMap(t1.nav, t2.nav, OverlayText),
         OverlayMap(t1.banners, t2.banners, OverlayBanner),
         OverlayMap(t1.widgets, t2.widgets, OverlayWidget),
         OverlayMap(t1.pages, t2.pages, OverlayPage),
         OverlayMap(t1.tabs, t2.tabs, OverlayTab))
  }

  lemma BlocksCompose(bs: seq<Block>, m1: map<string, BlockTr>, m2: map<string, BlockTr>)
    ensures TrBlocks(TrBlocks(bs, m1), m2) == TrBlocks(bs, OverlayMap(m1, m2, OverlayBlock))
  {
    var m := OverlayMap(m1, m2, OverlayBlock);
    forall i | 0 <= i < |bs| ensures TrBlocks(TrBlocks(bs, m1), m2)[i] == TrBlocks(bs, m)[i] {
      assert TrBlock(TrBlock(bs[i], i, m1), i, m2) == TrBlock(bs[i], i, m);
    }
  }

  lemma PageComposes(p: Page, m1: map<string, PageTr>, m2: map<string, PageTr>)
    ensures TrPage(TrPage(p, m1), m2) == TrPage(p, OverlayMap(m1, m2, OverlayPage))
  {
    if p.id in m1 && p.id in m2 {
      BlocksCompose(p.blocks, m1[p.id].blocks, m2[p.id].blocks);
    }
  }

  lemma TabComposes(t: SettingsTab, m1: map<string, TabTr>, m2: map<string, TabTr>)
    ensures TrTab(TrTab(t, m1), m2) == TrTab(t, OverlayMap(m1, m2, OverlayTab))
  {
    if t.id in m1 && t.id in m2 {
      BlocksCompose(t.blocks, m1[t.id].blocks, m2[t.id].blocks);
    }
  }

  lemma FieldsCompose(xs: seq<Field>, m1: map<string, FieldTr>, m2: map<string, FieldTr>)
    ensures TrAll(TrAll(xs, m1, TrField), m2, TrField) == TrAll(xs, OverlayMap(m1, m2, OverlayField), TrField)
  {
  }

  lemma NavCompose(xs: seq<NavEntry>, m1: map<string, string>, m2: map<string, string>)
    ensures TrAll(TrAll(xs, m1, TrNav), m2, TrNav) == TrAll(xs, OverlayMap(m1, m2, OverlayText), TrNav)
  {
  }

  lemma BannersCompose(xs: seq<Banner>, m1: map<string, BannerTr>, m2: map<string, BannerTr>)
    ensures TrAll(TrAll(xs, m1, TrBanner), m2, TrBanner) == TrAll(xs, OverlayMap(m1, m2, OverlayBanner), TrBanner)
  {
  }

  lemma WidgetsCompose(xs: seq<Widget>, m1: map<string, WidgetTr>, m2: map<string, WidgetTr>)
    ensures TrAll(TrAll(xs, m1, TrWidget), m2, TrWidget) == TrAll(xs, OverlayMap(m1, m2, OverlayWidget), TrWidget)
  {
  }

  lemma PagesCompose(xs: seq<Page>, m1: map<string, PageTr>, m2: map<string, PageTr>)
    ensures TrAll(TrAll(xs, m1, TrPage), m2, TrPage) == TrAll(xs, OverlayMap(m1, m2, OverlayPage), TrPage)
  {
    forall p | p in xs ensures TrPage(TrPage(p, m1), m2) == TrPage(p, OverlayMap(m1, m2, OverlayPage)) {
      PageComposes(p, m1, m2);
    }
  }

  lemma TabsCompose(xs: seq<SettingsTab>, m1: map<string, TabTr>, m2: map<string, TabTr>)
    ensures TrAll(TrAll(xs, m1, TrTab), m2, TrTab) == TrAll(xs, OverlayMap(m1, m2, OverlayTab), TrTab)
  {
    forall t | t in xs ensures TrTab(TrTab(t, m1), m2) == TrTab(t, OverlayMap(m1, m2, OverlayTab)) {
      TabComposes(t, m1, m2);
    }
  }

  /** Applying t1 and then t2 is applying their overlay once. */
  lemma ApplyComposes(ui: UI, t1: UITr, t2: UITr)
    ensures ApplyUI(ApplyUI(ui, t1), t2) == ApplyUI(ui, Overlay(t1, t2))
  {
    FieldsCompose(ui.fields, t1.fields, t2.fields);
    NavCompose(ui.nav, t1.nav, t2.nav);
    BannersCompose(ui.banners, t1.banners, t2.banners);
    WidgetsCompose(ui.widgets, t1.widgets, t2.widgets);
    PagesCompose(ui.pages, t1.pages, t2.pages);
    TabsCompose(ui.tabs, t1.tabs, t2.tabs);
  }

  lemma OverlayMapSelf<V>(m: map<string, V>, f: (V, V) -> V)
    requires forall k :: k in m ==> f(m[k], m[k]) == m[k]
    ensures OverlayMap(m, m, f) == m
  {
  }

  lemma OverlaySelf(t: UITr)
    ensures Overlay(t, t) == t
  {
    OverlayMapSelf(t.fields, OverlayField);
    OverlayMapSelf(t.nav, OverlayText);
    OverlayMapSelf(t.banners, OverlayBanner);
    OverlayMapSelf(t.widgets, OverlayWidget);
    forall k | k in t.pages ensures OverlayPage(t.pages[k], t.pages[k]) == t.pages[k] {
      OverlayMapSelf(t.pages[k].blocks, OverlayBlock);
    }
    OverlayMapSelf(t.pages, OverlayPage);
    forall k | k in t.tabs ensures OverlayTab(t.tabs[k], t.tabs[k]) == t.tabs[k] {
      OverlayMapSelf(t.tabs[k].blocks, OverlayBlock);
    }
    OverlayMapSelf(t.tabs, OverlayTab);
  }

  /** Applying a translation twice is applying it once. */
  lemma ApplyIdempotent(ui: UI, t: UITr)
    ensures ApplyUI(ApplyUI(ui, t), t) == ApplyUI(ui, t)
  {
    ApplyComposes(ui, t, t);
    OverlaySelf(t);
  }

  // ------------------------------------------------------------ text by place

  /** Every translatable place of an interface. */
  datatype Place =
    | Help
    | Logo
    | FieldLabel(i: nat)
    | FieldDescription(i: nat)
    | NavLabel(i: nat)
    | BannerMessage(i: nat)
    | BannerLink(i: nat)
    | WidgetTitle(i: nat)
    | WidgetBody(i: nat)
    | PageTitle(i: nat)
    | PageSummary(i: nat)
    | PageText(i: nat, b: nat)
    | TabLabel(i: nat)
    | TabText(i: nat, b: nat)

  predicate InUI(ui: UI, p: Place) {
    match p
    case Help => true
    case Logo => true
    case FieldLabel(i) => i < |ui.fields|
    case FieldDescription(i) => i < |ui.fields|
    case NavLabel(i) => i < |ui.nav|
    case BannerMessage(i) => i < |ui.banners|
    case BannerLink(i) => i < |ui.banners|
    case WidgetTitle(i) => i < |ui.widgets|
    case WidgetBody(i) => i < |ui.widgets|
    case PageTitle(i) => i < |ui.pages|
    case PageSummary(i) => i < |ui.pages|
    case PageText(i, b) => i < |ui.pages| && b < |ui.pages[i].blocks|
    case TabLabel(i) => i < |ui.tabs|
    case TabText(i, b) => i < |ui.tabs| && b < |ui.tabs[i].blocks|
  }

  function TextAt(ui: UI, p: Place): string
    requires InUI(ui, p)
  {
    match p
    case Help => ui.help
    case Logo => ui.logoText
    case FieldLabel(i) => ui.fields[i].caption
    case FieldDescription(i) => ui.fields[i].description
    case NavLabel(i) => ui.nav[i].caption
    case BannerMessage(i) => ui.banners[i].message
    case BannerLink(i) => ui.banners[i].linkLabel
    case WidgetTitle(i) => ui.widgets[i].title
    case WidgetBody(i) => ui.widgets[i].body
    case PageTitle(i) => ui.pages[i].title
    case PageSummary(i) => ui.pages[i].summary
    case PageText(i, b) => ui.pages[i].blocks[b].text
    case TabLabel(i) => ui.tabs[i].caption
    case TabText(i, b) => ui.tabs[i].blocks[b].text
  }

  function Lookup<V>(m: map<string, V>, k: string, none: V): V {
    if k in m then m[k] else none
  }

  /** What a translation says about a block of a page or tab. */
  function BlockSaid(ui: UI, t: UITr, p: Place): BlockTr
    requires InUI(ui, p) && (p.PageText? || p.TabText?)
  {
    match p
    case PageText(i, b) =>
      Lookup(Lookup(t.pages, ui.pages[i].id, PageTr("", "", map[])).blocks, Decimal(b), BlockTr("", []))
    case TabText(i, b) =>
      Lookup(Lookup(t.tabs, ui.tabs[i].id, TabTr("", map[])).blocks, Decimal(b), BlockTr("", []))
  }

  function ItemsAt(ui: UI, p: Place): seq<string>
    requires InUI(ui, p) && (p.PageText? || p.TabText?)
  {
    match p
    case PageText(i, b) => ui.pages[i].blocks[b].items
    case TabText(i, b) => ui.tabs[i].blocks[b].items
  }

  /** What a translation says at a place of ui; "" when it says nothing. */
  function SaysAt(ui: UI, t: UITr, p: Place): string
    requires InUI(ui, p)
  {
    match p
    case Help => t.help
    case Logo => t.logoText
    case FieldLabel(i) => Lookup(t.fields, ui.fields[i].key, FieldTr("", "")).caption
    case FieldDescription(i) => Lookup(t.fields, ui.fields[i].key, FieldTr("", "")).description
    case NavLabel(i) => Lookup(t.nav, ui.nav[i].id, "")
    case BannerMessage(i) => Lookup(t.banners, ui.banners[i].id, BannerTr("", "")).message
    case BannerLink(i) => Lookup(t.banners, ui.banners[i].id, BannerTr("", "")).linkLabel
    case WidgetTitle(i) => Lookup(t.widgets, ui.widgets[i].id, WidgetTr("", "")).title
    case WidgetBody(i) => Lookup(t.widgets, ui.widgets[i].id, WidgetTr("", "")).body
    case PageTitle(i) => Lookup(t.pages, ui.pages[i].id, PageTr("", "", map[])).title
    case PageSummary(i) => Lookup(t.pages, ui.pages[i].id, PageTr("", "", map[])).summary
    case PageText(_, _) => BlockSaid(ui, t, p).text
    case TabLabel(i) => Lookup(t.tabs, ui.tabs[i].id, TabTr("", map[])).caption
    case TabText(_, _) => BlockSaid(ui, t, p).text
  }

  /** Same places, same ids, same untranslated fields. */
  ghost predicate SameShape(a: UI, b: UI) {
    && a.other == b.other
    && |a.fields| == |b.fields| && |a.nav| == |b.nav| && |a.banners| == |b.banners|
    && |a.widgets| == |b.widgets| && |a.pages| == |b.pages| && |a.tabs| == |b.tabs|
    && (forall i :: 0 <= i < |a.fields| ==> a.fields[i].key == b.fields[i].key && a.fields[i].other == b.fields[i].other)
    && (forall i :: 0 <= i < |a.nav| ==> a.nav[i].id == b.nav[i].id && a.nav[i].other == b.nav[i].other)
    && (forall i :: 0 <= i < |a.banners| ==> a.banners[i].id == b.banners[i].id && a.banners[i].other == b.banners[i].other)
    && (forall i :: 0 <= i < |a.widgets| ==> a.widgets[i].id == b.widgets[i].id && a.widgets[i].other == b.widgets[i].other)
    && (forall i :: 0 <= i < |a.pages| ==>
          a.pages[i].id == b.pages[i].id && a.pages[i].other == b.pages[i].other &&
          SameBlocks(a.pages[i].blocks, b.pages[i].blocks))
    && (forall i :: 0 <= i < |a.tabs| ==>
          a.tabs[i].id == b.tabs[i].id && a.tabs[i].other == b.tabs[i].other &&
          SameBlocks(a.tabs[i].blocks, b.tabs[i].blocks))
  }

  ghost predicate SameBlocks(a: seq<Block>, b: seq<Block>) {
    |a| == |b| && forall i :: 0 <= i < |a| ==> a[i].other == b[i].other
  }

  lemma ApplyKeepsShape(ui: UI, t: UITr)
    ensures SameShape(ApplyUI(ui, t), ui)
  {
  }

  /** Translations address what they translate by ids, which no translation changes. */
  lemma SaysAtKept(ui: UI, t: UITr, t': UITr, p: Place)
    requires InUI(ui, p)
    ensures InUI(ApplyUI(ui, t), p)
    ensures SaysAt(ApplyUI(ui, t), t', p) == SaysAt(ui, t', p)
  {
  }

  /**
   At every place the translated interface shows what the translation says there, or the
   source text when it says nothing.
   */
  lemma ApplyAtPlace(ui: UI, t: UITr, p: Place)
    requires InUI(ui, p)
    ensures InUI(ApplyUI(ui, t), p)
    ensures TextAt(ApplyUI(ui, t), p) == Pick(SaysAt(ui, t, p), TextAt(ui, p))
  {
    if p.PageText? || p.TabText? { ApplyAtBlock(ui, t, p); }
  }

  lemma ApplyAtBlock(ui: UI, t: UITr, p: Place)
    requires InUI(ui, p) && (p.PageText? || p.TabText?)
    ensures InUI(ApplyUI(ui, t), p)
    ensures TextAt(ApplyUI(ui, t), p) == Pick(BlockSaid(ui, t, p).text, TextAt(ui, p))
  {
    match p
    case PageText(i, b) => assert ApplyUI(ui, t).pages[i] == TrPage(ui.pages[i], t.pages);
    case TabText(i, b) => assert ApplyUI(ui, t).tabs[i] == TrTab(ui.tabs[i], t.tabs);
  }

  /** A translated list block shows the translated list whole, else the source list. */
  lemma ApplyItemsAtPlace(ui: UI, t: UITr, p: Place)
    requires InUI(ui, p) && (p.PageText? || p.TabText?)
    ensures InUI(ApplyUI(ui, t), p)
    ensures ItemsAt(ApplyUI(ui, t), p) == Pick(BlockSaid(ui, t, p).items, ItemsAt(ui, p))
  {
  }
}
