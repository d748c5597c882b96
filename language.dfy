/** The English/Amharic switcher of js/language-switcher.js. Switching
    records the language, marks the matching `.language-btn` buttons,
    rewrites every `[data-en]` element, the placeholders of labelled form
    fields and the nav-panel labels, updates the page title and meta
    description, and stores the choice. At start-up a stored "en" or "am"
    is applied, and "en" otherwise.

    `Page` is the part of the document the switcher reads and writes;
    `SwitchedPage` is what one switch does to it, and `Switcher` is the
    imperative controller, whose `SwitchLanguage` is proved to perform it. */
module Language {
  import opened Dom

  /** The page assumed when the URL path ends in `/`. */
  const DefaultPage := "index.html"

  /** `menuTranslations`: for each language, the label shown for each
      English menu label. */
  const MenuTranslations: map<string, map<string, string>> := map[
    "en" := map[
      "Home" := "Home",
      "About" := "About",
      "Education & Experience" := "Education & Experience",
      "Projects" := "Projects",
      "Skills" := "Skills",
      "Contact" := "Contact"],
    "am" := map[
      "Home" := "መነሻ",
      "About" := "ስለ እኔ",
      "Education & Experience" := "ትምህርት እና ልምድ",
      "Projects" := "ፕሮጀክቶች",
      "Skills" := "ችሎታዎች",
      "Contact" := "አግኙኝ"]]

  /** `pageTitles`: for each language, the document title of each page. */
  const PageTitles: map<string, map<string, string>> := map[
    "en" := map[
      "index.html" := "Ashenafi Sentayehu | Full Stack Developer Portfolio",
      "about.html" := "About Me - Ashenafi Sentayehu",
      "education.html" := "Education & Experience - Ashenafi Sentayehu",
      "projects.html" := "Projects - Ashenafi Sentayehu",
      "skills.html" := "Skills - Ashenafi Sentayehu",
      "contact.html" := "Contact Me - Ashenafi Sentayehu"],
    "am" := map[
      "index.html" := "አሸናፊ ሰንታየሁ | ፉል ስታክ አበልጻጊ ፖርትፎሊዮ",
      "about.html" := "ስለ እኔ - አሸናፊ ሰንታየሁ",
      "education.html" := "ትምህርት እና ልምድ - አሸናፊ ሰንታየሁ",
      "projects.html" := "ፕሮጀክቶች - አሸናፊ ሰንታየሁ",
      "skills.html" := "ችሎታዎች - አሸናፊ ሰንታየሁ",
      "contact.html" := "ያግኙኝ - አሸናፊ ሰንታየሁ"]]

  /** `descriptions`: the meta description in each language. */
  const Descriptions: map<string, string> := map[
    "en" := "Professional portfolio of Ashenafi Sentayehu - Full Stack Web Developer, Software Engineer, and Graphic Designer specializing in modern web technologies",
    "am" := "የአሸናፊ ሰንታየሁ ሙያዊ ፖርትፎሊዮ - ፉል ስታክ ዌብ አበልጻጊ፣ ሶፍትዌር ምህንድስና እና ግራፊክ ዲዛይነር በዘመናዊ ዌብ ቴክኖሎጂዎች"]

  /** `table[a] && table[a][b]` used as a condition before reading the entry:
      present only when both keys are there and the entry is not empty. */
  function Lookup(table: map<string, map<string, string>>, a: string, b: string): (r: Option<string>)
    ensures r.Some? <==> a in table && b in table[a] && table[a][b] != ""
    ensures r.Some? ==> r.value == table[a][b]
  {
    if a in table && b in table[a] && table[a][b] != "" then Some(table[a][b]) else None
  }

  // ---------------------------------------------------------------------
  // The elements the switcher touches

  /** A `.language-btn` with its `data-lang` and whether it has `active`. */
  datatype LangButton = LangButton(dataLang: string, active: bool)

  /** The element just before a form field, with its locale attributes. */
  datatype Label = Label(dataEn: Option<string>, dataAm: Option<string>)

  /** An `input` or `textarea`, its placeholder and its previous sibling. */
  datatype FormField = FormField(placeholder: string, sibling: Option<Label>)

  /** A `.nav-links a`: its text and its `data-original-text`, if any. */
  datatype MenuLink = MenuLink(text: string, originalText: Option<string>)

  datatype Page = Page(
    currentLang: string,
    buttons: seq<LangButton>,
    nodes: seq<TransNode>,
    fields: seq<FormField>,
    links: seq<MenuLink>,
    title: string,
    metaDescription: Option<string>,   // None: no `meta[name="description"]`
    // `localStorage.getItem('preferredLanguage')`; the switcher uses no
    // other key, so the store is the value under this one
    saved: Option<string>)

  // ---------------------------------------------------------------------
  // Buttons

  function ButtonFor(b: LangButton, lang: string): (r: LangButton)
    ensures r.dataLang == b.dataLang
    ensures r.active <==> b.dataLang == lang
  {
    b.(active := b.dataLang == lang)
  }

  // ---------------------------------------------------------------------
  // Form placeholders

  /** `label && label.dataset.en`: the previous sibling exists and has a
      non-empty `data-en`. */
  predicate HasLabel(f: FormField)
  {
    f.sibling.Some? && f.sibling.value.dataEn.Some? && f.sibling.value.dataEn.value != ""
  }

  /** What `placeholder` becomes when assigned a `dataset` entry that may be
      missing: a missing one is the string "undefined". */
  function PlaceholderText(a: Option<string>): string
  {
    if a.Some? then a.value else "undefined"
  }

  /** A labelled field takes its label's text in the chosen language as its
      placeholder; unlabelled fields and other languages change nothing. */
  function FieldFor(f: FormField, lang: string): (r: FormField)
    ensures r.sibling == f.sibling
    ensures HasLabel(f) && lang == "en" ==> r.placeholder == f.sibling.value.dataEn.value
    ensures HasLabel(f) && lang == "am" ==> r.placeholder == PlaceholderText(f.sibling.value.dataAm)
    ensures !HasLabel(f) || (lang != "en" && lang != "am") ==> r == f
  {
    if !HasLabel(f) then f
    else if lang == "en" then f.(placeholder := f.sibling.value.dataEn.value)
    else if lang == "am" then f.(placeholder := PlaceholderText(f.sibling.value.dataAm))
    else f
  }

  // ---------------------------------------------------------------------
  // Navigation labels

  /** The six labels of the menu table, in English. */
  predicate IsMenuKey(s: string)
  {
    s == "Home" || s == "About" || s == "Education & Experience" ||
    s == "Projects" || s == "Skills" || s == "Contact"
  }

  /** Both menu tables have exactly the six English labels as keys, the
      English one maps each to itself, and no entry is empty. */
  lemma MenuTableShape()
    ensures MenuTranslations.Keys == {"en", "am"}
    ensures forall key :: key in MenuTranslations["en"] <==> IsMenuKey(key)
    ensures forall key :: key in MenuTranslations["am"] <==> IsMenuKey(key)
    ensures forall key :: key in MenuTranslations["en"] ==> MenuTranslations["en"][key] == key
    ensures forall key :: key in MenuTranslations["am"] ==> MenuTranslations["am"][key] != ""
  {
  }

  /** `menuTranslations[lang][original]`, absent for any other language or
      label. The English table maps each label to itself. */
  function MenuTranslation(lang: string, original: string): (r: Option<string>)
    ensures r.Some? <==> (lang == "en" || lang == "am") && IsMenuKey(original)
    ensures lang == "en" && r.Some? ==> r.value == original
  {
    MenuTableShape();
    Lookup(MenuTranslations, lang, original)
  }

  /** Whether the link already carries a usable `data-original-text`. */
  predicate HasOriginal(l: MenuLink)
  {
    l.originalText.Some? && l.originalText.value != ""
  }

  /** `getAttribute('data-original-text') || textContent.trim()`: the
      label the link is translated from. */
  function OriginalText(l: MenuLink): string
  {
    if HasOriginal(l) then l.originalText.value else Trim(l.text)
  }

  /** One link after a switch: its original text is cached on it, and its
      label becomes the table entry for that text when there is one. */
  function LinkFor(l: MenuLink, lang: string): MenuLink
  {
    var original := OriginalText(l);
    var cached := if HasOriginal(l) then l else l.(originalText := Some(original));
    var t := MenuTranslation(lang, original);
    if t.Some? then cached.(text := t.value) else cached
  }

  /** The original text is written once: a switch caches it, and a cached
      non-empty value is never replaced. */
  lemma LinkForKeepsOriginal(l: MenuLink, lang: string)
    ensures LinkFor(l, lang).originalText == Some(OriginalText(l))
    ensures OriginalText(LinkFor(l, lang)) == OriginalText(l)
    ensures HasOriginal(l) ==> LinkFor(l, lang).originalText == l.originalText
  {
    if !HasOriginal(l) && OriginalText(l) == "" {
      assert !IsMenuKey("");
    }
  }

  /** A link shows the table entry for its original text, or keeps its
      label when the table has none. */
  lemma LinkForLabel(l: MenuLink, lang: string)
    ensures MenuTranslation(lang, OriginalText(l)).Some? ==>
              LinkFor(l, lang).text == MenuTranslation(lang, OriginalText(l)).value
    ensures MenuTranslation(lang, OriginalText(l)).None? ==> LinkFor(l, lang).text == l.text
  {
  }

  // ---------------------------------------------------------------------
  // Title and meta description

  /** `location.pathname.split('/').pop()`: what follows the last `/`. */
  function LastSegment(path: string): string
  {
    if path == [] || path[|path| - 1] == '/' then []
    else LastSegment(path[..|path| - 1]) + [path[|path| - 1]]
  }

  /** The segment is a `/`-free suffix of the path, preceded by a `/` unless
      it is the whole path. */
  lemma {:induction false} LastSegmentIsSuffix(path: string)
    ensures '/' !in LastSegment(path)
    ensures |LastSegment(path)| <= |path|
    ensures path == path[..|path| - |LastSegment(path)|] + LastSegment(path)
    ensures |LastSegment(path)| < |path| ==> path[|path| - |LastSegment(path)| - 1] == '/'
  {
    if path != [] && path[|path| - 1] != '/' {
      var init := path[..|path| - 1];
      LastSegmentIsSuffix(init);
      var s := LastSegment(init);
      assert init == init[..|init| - |s|] + s;
      assert path == init + [path[|path| - 1]];
      assert path[..|path| - |s| - 1] == init[..|init| - |s|];
    }
  }

  /** The page the title table is looked up with: the last path segment, or
      `index.html` when there is none. */
  function PageKey(path: string): string
  {
    var s := LastSegment(path);
    if s == "" then DefaultPage else s
  }

  /** `index.html` when the path is empty or ends in `/`; otherwise the
      `/`-free tail of the path after its last `/`, which may itself be
      `index.html`. */
  lemma PageKeyOfPath(path: string)
    ensures PageKey(path) != "" && '/' !in PageKey(path)
    ensures path == [] || path[|path| - 1] == '/' ==> PageKey(path) == DefaultPage
    ensures !(path == [] || path[|path| - 1] == '/') ==>
              var key := PageKey(path);
              |key| <= |path| && path == path[..|path| - |key|] + key &&
              (|key| == |path| || path[|path| - |key| - 1] == '/')
  {
    LastSegmentIsSuffix(path);
    if path == [] || path[|path| - 1] == '/' {
      assert LastSegment(path) == [];
      assert DefaultPage == ['i', 'n', 'd', 'e', 'x', '.', 'h', 't', 'm', 'l'];
    } else {
      assert LastSegment(path) == LastSegment(path[..|path| - 1]) + [path[|path| - 1]];
    }
  }

  predicate IsKnownPage(page: string)
  {
    page == "index.html" || page == "about.html" || page == "education.html" ||
    page == "projects.html" || page == "skills.html" || page == "contact.html"
  }

  /** Both title tables have exactly the six pages as keys, and no title is
      empty. */
  lemma TitleTableShape()
    ensures PageTitles.Keys == {"en", "am"}
    ensures forall page :: page in PageTitles["en"] <==> IsKnownPage(page)
    ensures forall page :: page in PageTitles["am"] <==> IsKnownPage(page)
    ensures forall page :: page in PageTitles["en"] ==> PageTitles["en"][page] != ""
    ensures forall page :: page in PageTitles["am"] ==> PageTitles["am"][page] != ""
  {
  }

  /** `pageTitles[lang][page]`: defined for the six pages in either language. */
  function PageTitle(lang: string, page: string): (r: Option<string>)
    ensures r.Some? <==> (lang == "en" || lang == "am") && IsKnownPage(page)
  {
    TitleTableShape();
    Lookup(PageTitles, lang, page)
  }

  /** `descriptions[lang]`: defined for either language. */
  function MetaDescription(lang: string): (r: Option<string>)
    ensures r.Some? <==> lang == "en" || lang == "am"
  {
    if lang in Descriptions && Descriptions[lang] != "" then Some(Descriptions[lang]) else None
  }

  /** The title after `updatePageMetadata`. */
  function TitleFor(title: string, path: string, lang: string): (r: string)
    ensures PageTitle(lang, PageKey(path)).Some? ==> r == PageTitle(lang, PageKey(path)).value
    ensures PageTitle(lang, PageKey(path)).None? ==> r == title
  {
    var t := PageTitle(lang, PageKey(path));
    if t.Some? then t.value else title
  }

  /** The meta description after `updatePageMetadata`: overwritten only when
      the element exists and the language has a description. */
  function DescriptionFor(meta: Option<string>, lang: string): (r: Option<string>)
    ensures r.Some? <==> meta.Some?
    ensures meta.Some? && (lang == "en" || lang == "am") ==> r == MetaDescription(lang)
    ensures !(lang == "en" || lang == "am") ==> r == meta
  {
    if meta.Some? && MetaDescription(lang).Some? then MetaDescription(lang) else meta
  }

  // ---------------------------------------------------------------------
  // Start-up

  /** `initializeLanguage`'s choice: a stored "en" or "am", else "en". */
  function InitialLanguage(saved: Option<string>): (lang: string)
    ensures lang == "en" || lang == "am"
    ensures lang == "am" <==> saved == Some("am")
  {
    if saved.Some? && (saved.value == "en" || saved.value == "am") then saved.value else "en"
  }

  // ---------------------------------------------------------------------
  // One switch, as a function of the page

  function ButtonsFor(bs: seq<LangButton>, lang: string): (r: seq<LangButton>)
    ensures |r| == |bs| && forall k :: 0 <= k < |bs| ==> r[k] == ButtonFor(bs[k], lang)
  {
    seq(|bs|, k requires 0 <= k < |bs| => ButtonFor(bs[k], lang))
  }

  function NodesFor(ns: seq<TransNode>, lang: string): (r: seq<TransNode>)
    ensures |r| == |ns| && forall k :: 0 <= k < |ns| ==> r[k] == TranslateNode(ns[k], lang)
  {
    seq(|ns|, k requires 0 <= k < |ns| => TranslateNode(ns[k], lang))
  }

  function FieldsFor(fs: seq<FormField>, lang: string): (r: seq<FormField>)
    ensures |r| == |fs| && forall k :: 0 <= k < |fs| ==> r[k] == FieldFor(fs[k], lang)
  {
    seq(|fs|, k requires 0 <= k < |fs| => FieldFor(fs[k], lang))
  }

  function LinksFor(ls: seq<MenuLink>, lang: string): (r: seq<MenuLink>)
    ensures |r| == |ls| && forall k :: 0 <= k < |ls| ==> r[k] == LinkFor(ls[k], lang)
  {
    seq(|ls|, k requires 0 <= k < |ls| => LinkFor(ls[k], lang))
  }

  /** The page after `switchLanguage(lang)` on the page at `path`. */
  function SwitchedPage(p: Page, path: string, lang: string): Page
  {
    Page(lang,
         ButtonsFor(p.buttons, lang),
         NodesFor(p.nodes, lang),
         FieldsFor(p.fields, lang),
         LinksFor(p.links, lang),
         TitleFor(p.title, path, lang),
         DescriptionFor(p.metaDescription, lang),
         Some(lang))
  }

  // ---------------------------------------------------------------------
  // Properties of a switch

  lemma LinkForIdempotent(l: MenuLink, lang: string)
    ensures LinkFor(LinkFor(l, lang), lang) == LinkFor(l, lang)
  {
    LinkForKeepsOriginal(l, lang);
    var r := LinkFor(l, lang);
    if !HasOriginal(r) {
      assert r.originalText == Some("");
    }
  }

  /** For a supported target, the link after two switches is the link after
      the last one alone: both tables have the same six keys. */
  lemma LinkForLastWins(l: MenuLink, first: string, lang: string)
    requires lang == "en" || lang == "am"
    ensures LinkFor(LinkFor(l, first), lang) == LinkFor(l, lang)
  {
    LinkForKeepsOriginal(l, first);
    var r := LinkFor(l, first);
    if !HasOriginal(r) {
      assert r.originalText == Some("");
    }
  }

  lemma LinksForIdempotent(ls: seq<MenuLink>, lang: string)
    ensures LinksFor(LinksFor(ls, lang), lang) == LinksFor(ls, lang)
  {
    forall k | 0 <= k < |ls|
      ensures LinksFor(LinksFor(ls, lang), lang)[k] == LinksFor(ls, lang)[k]
    {
      LinkForIdempotent(ls[k], lang);
    }
  }

  lemma LinksForLastWins(ls: seq<MenuLink>, first: string, lang: string)
    requires lang == "en" || lang == "am"
    ensures LinksFor(LinksFor(ls, first), lang) == LinksFor(ls, lang)
  {
    forall k | 0 <= k < |ls|
      ensures LinksFor(LinksFor(ls, first), lang)[k] == LinksFor(ls, lang)[k]
    {
      LinkForLastWins(ls[k], first, lang);
    }
  }

  lemma NodesForLastWins(ns: seq<TransNode>, first: string, lang: string)
    ensures NodesFor(NodesFor(ns, lang), lang) == NodesFor(ns, lang)
    ensures lang == "en" || lang == "am" ==> NodesFor(NodesFor(ns, first), lang) == NodesFor(ns, lang)
  {
    forall k | 0 <= k < |ns|
      ensures NodesFor(NodesFor(ns, lang), lang)[k] == NodesFor(ns, lang)[k]
      ensures lang == "en" || lang == "am" ==> NodesFor(NodesFor(ns, first), lang)[k] == NodesFor(ns, lang)[k]
    {
      TranslateNodeLastWins(ns[k], first, lang);
    }
  }

  /** Switching twice to the same language is switching once. */
  lemma SwitchIdempotent(p: Page, path: string, lang: string)
    ensures SwitchedPage(SwitchedPage(p, path, lang), path, lang) == SwitchedPage(p, path, lang)
  {
    LinksForIdempotent(p.links, lang);
    NodesForLastWins(p.nodes, lang, lang);
    assert ButtonsFor(ButtonsFor(p.buttons, lang), lang) == ButtonsFor(p.buttons, lang);
    assert FieldsFor(FieldsFor(p.fields, lang), lang) == FieldsFor(p.fields, lang);
  }

  /** After a switch to "en" or "am", the page no longer depends on the
      language it showed before. */
  lemma LastSwitchWins(p: Page, path: string, first: string, lang: string)
    requires lang == "en" || lang == "am"
    ensures SwitchedPage(SwitchedPage(p, path, first), path, lang) == SwitchedPage(p, path, lang)
  {
    LinksForLastWins(p.links, first, lang);
    NodesForLastWins(p.nodes, first, lang);
    assert ButtonsFor(ButtonsFor(p.buttons, first), lang) == ButtonsFor(p.buttons, lang);
    assert FieldsFor(FieldsFor(p.fields, first), lang) == FieldsFor(p.fields, lang);
  }

  /** Going en, am, then en again shows exactly the English page. */
  lemma EnglishAmharicEnglish(p: Page, path: string)
    ensures SwitchedPage(SwitchedPage(SwitchedPage(p, path, "en"), path, "am"), path, "en")
            == SwitchedPage(p, path, "en")
  {
    LastSwitchWins(SwitchedPage(p, path, "en"), path, "am", "en");
    SwitchIdempotent(p, path, "en");
  }

  /** On the English page, every menu link whose original text is in the
      table shows that original text again; the other links keep theirs. */
  lemma EnglishRestoresMenuLabels(p: Page, path: string)
    ensures forall k :: 0 <= k < |p.links| && IsMenuKey(OriginalText(p.links[k])) ==>
              SwitchedPage(p, path, "en").links[k].text == OriginalText(p.links[k])
    ensures forall k :: 0 <= k < |p.links| && !IsMenuKey(OriginalText(p.links[k])) ==>
              SwitchedPage(p, path, "en").links[k].text == p.links[k].text
  {
  }

  /** A switch to a language other than en and am rewrites no text: only
      the button marks, the current language, the stored value and the
      cached original labels change. */
  lemma UnsupportedLanguageKeepsText(p: Page, path: string, lang: string)
    requires lang != "en" && lang != "am"
    ensures var q := SwitchedPage(p, path, lang);
            q.nodes == p.nodes && q.fields == p.fields && q.title == p.title &&
            q.metaDescription == p.metaDescription && |q.links| == |p.links| &&
            (forall k :: 0 <= k < |p.links| ==> q.links[k].text == p.links[k].text)
  {
    assert NodesFor(p.nodes, lang) == p.nodes;
    assert FieldsFor(p.fields, lang) == p.fields;
  }

  /** A heading with English text "Hello" and Amharic text "ሰላም" reads
      "ሰላም" after a switch to am, and "Hello" again after switching back. */
  lemma HelloHeading(p: Page, path: string, text: string)
    requires p.nodes == [TransNode(text, "Hello", Some("ሰላም"))]
    ensures SwitchedPage(p, path, "am").nodes[0].text == "ሰላም"
    ensures SwitchedPage(SwitchedPage(p, path, "am"), path, "en").nodes[0].text == "Hello"
  {
  }

  // ---------------------------------------------------------------------
  // The three element loops of `switchLanguage`

  /** Puts `active` on the buttons whose `data-lang` is `lang` and takes it
      off the others. */
  method MarkButtons(bs: seq<LangButton>, lang: string) returns (r: seq<LangButton>)
    ensures |r| == |bs|
    ensures forall k :: 0 <= k < |bs| ==> r[k].dataLang == bs[k].dataLang
    ensures forall k :: 0 <= k < |bs| ==> (r[k].active <==> bs[k].dataLang == lang)
    ensures r == ButtonsFor(bs, lang)
  {
    r := bs;
    var i := 0;
    while i < |r|
      invariant 0 <= i <= |r| == |bs|
      invariant forall k :: 0 <= k < i ==> r[k] == ButtonFor(bs[k], lang)
      invariant forall k :: i <= k < |r| ==> r[k] == bs[k]
    {
      r := r[i := ButtonFor(r[i], lang)];
      i := i + 1;
    }
  }

  /** Rewrites the text of every `[data-en]` element. */
  method TranslateNodes(ns: seq<TransNode>, lang: string) returns (r: seq<TransNode>)
    ensures |r| == |ns|
    ensures forall k :: 0 <= k < |ns| ==> r[k] == TranslateNode(ns[k], lang)
    ensures r == NodesFor(ns, lang)
  {
    r := ns;
    var i := 0;
    while i < |r|
      invariant 0 <= i <= |r| == |ns|
      invariant forall k :: 0 <= k < i ==> r[k] == TranslateNode(ns[k], lang)
      invariant forall k :: i <= k < |r| ==> r[k] == ns[k]
    {
      r := r[i := TranslateNode(r[i], lang)];
      i := i + 1;
    }
  }

  /** Rewrites the placeholder of every labelled `input` and `textarea`. */
  method UpdatePlaceholders(fs: seq<FormField>, lang: string) returns (r: seq<FormField>)
    ensures |r| == |fs|
    ensures forall k :: 0 <= k < |fs| ==> r[k] == FieldFor(fs[k], lang)
    ensures r == FieldsFor(fs, lang)
  {
    r := fs;
    var i := 0;
    while i < |r|
      invariant 0 <= i <= |r| == |fs|
      invariant forall k :: 0 <= k < i ==> r[k] == FieldFor(fs[k], lang)
      invariant forall k :: i <= k < |r| ==> r[k] == fs[k]
    {
      r := r[i := FieldFor(r[i], lang)];
      i := i + 1;
    }
  }

  /** `updateNavigationMenu(lang)`: caches the original label of every
      `.nav-links a` and shows its translation when the table has one. */
  method UpdateNavigationMenu(ls: seq<MenuLink>, lang: string) returns (r: seq<MenuLink>)
    ensures r == LinksFor(ls, lang)
  {
    r := ls;
    var i := 0;
    while i < |r|
      invariant 0 <= i <= |r| == |ls|
      invariant forall k :: 0 <= k < i ==> r[k] == LinkFor(ls[k], lang)
      invariant forall k :: i <= k < |r| ==> r[k] == ls[k]
    {
      var link := r[i];
      var original := if HasOriginal(link) then link.originalText.value else Trim(link.text);
      if !HasOriginal(link) {
        link := link.(originalText := Some(original));
      }
      var t := MenuTranslation(lang, original);
      if t.Some? {
        link := link.(text := t.value);
      }
      r := r[i := link];
      i := i + 1;
    }
  }

  /** `updatePageMetadata(lang)` on the page at `path`: the new title and
      meta description. */
  method UpdatePageMetadata(path: string, title: string, meta: Option<string>, lang: string)
    returns (newTitle: string, newMeta: Option<string>)
    ensures newTitle == TitleFor(title, path, lang)
    ensures newMeta == DescriptionFor(meta, lang)
  {
    newTitle, newMeta := title, meta;
    var page := LastSegment(path);
    if page == "" {
      page := DefaultPage;
    }
    var t := PageTitle(lang, page);
    if t.Some? {
      newTitle := t.value;
    }
    if newMeta.Some? {
      var d := MetaDescription(lang);
      if d.Some? {
        newMeta := d;
      }
    }
  }

  // ---------------------------------------------------------------------
  // The controller

  class Switcher {
    /** `window.location.pathname` of the page. */
    const path: string

    var currentLang: string
    var buttons: seq<LangButton>
    var nodes: seq<TransNode>
    var fields: seq<FormField>
    var links: seq<MenuLink>
    var title: string
    var metaDescription: Option<string>
    var saved: Option<string>

    ghost function View(): Page
      reads this
    {
      Page(currentLang, buttons, nodes, fields, links, title, metaDescription, saved)
    }

    /** Script load (`currentLang` is "en") followed by
        `initLanguageSwitcher`, which does nothing on a page without
        language buttons and otherwise applies the stored preference. */
    constructor (path: string, buttons: seq<LangButton>, nodes: seq<TransNode>, fields: seq<FormField>,
                 links: seq<MenuLink>, title: string, metaDescription: Option<string>,
                 saved: Option<string>)
      ensures this.path == path
      ensures var loaded := Page("en", buttons, nodes, fields, links, title, metaDescription, saved);
              View() == if |buttons| > 0
                        then SwitchedPage(loaded, path, InitialLanguage(saved))
                        else loaded
    {
      this.path := path;
      currentLang := "en";
      this.buttons := buttons;
      this.nodes := nodes;
      this.fields := fields;
      this.links := links;
      this.title := title;
      this.metaDescription := metaDescription;
      this.saved := saved;
      new;
      if |this.buttons| > 0 {
        InitializeLanguage();
      }
    }

    method GetCurrentLanguage() returns (lang: string)
      ensures lang == currentLang
    {
      lang := currentLang;
    }

    /** `initializeLanguage`. */
    method InitializeLanguage()
      modifies this
      ensures View() == SwitchedPage(old(View()), path, InitialLanguage(old(saved)))
      ensures currentLang == "en" || currentLang == "am"
    {
      var savedLang := saved;
      if savedLang.Some? && (savedLang.value == "en" || savedLang.value == "am") {
        SwitchLanguage(savedLang.value);
      } else {
        SwitchLanguage("en");
      }
    }

    /** A click on language button `k` switches to its `data-lang`. */
    method OnButtonClick(k: nat)
      requires k < |buttons|
      modifies this
      ensures View() == SwitchedPage(old(View()), path, old(buttons[k].dataLang))
      ensures buttons[k].active
    {
      SwitchLanguage(buttons[k].dataLang);
    }

    /** `switchLanguage(lang)`: every element list, the title, the meta
        description and the stored preference are recomputed, then written
        back. */
    method SwitchLanguage(lang: string)
      modifies this
      ensures View() == SwitchedPage(old(View()), path, lang)
    {
      var newButtons := MarkButtons(buttons, lang);
      var newNodes := TranslateNodes(nodes, lang);
      var newFields := UpdatePlaceholders(fields, lang);
      var newLinks := UpdateNavigationMenu(links, lang);
      var newTitle, newMeta := UpdatePageMetadata(path, title, metaDescription, lang);
      currentLang, buttons, nodes, fields, links := lang, newButtons, newNodes, newFields, newLinks;
      title, metaDescription, saved := newTitle, newMeta, Some(lang);
    }
  }
}
