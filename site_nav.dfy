/** The navigation controller of js/navigation.js: the mobile menu (panel,
    hamburger button and the `menu-open` marks on body and html), the
    language dropdowns and language buttons, the header's scroll effects,
    the body scroll lock, the in-page anchor filter, the active-link
    highlight and the swipe-to-close gesture.

    Each event listener is a method named after its event; what the
    browser supplies with the event (the window width, the key, the touch
    position, whether the click landed inside the menu) is a parameter. A
    listener the script never installs, because its element is missing,
    is a method that changes nothing. */
module SiteNav {
  import opened Dom

  /** Widest viewport, in CSS pixels, that counts as the mobile layout. */
  const MenuBreakpoint := 992
  /** Widest viewport that gets the body class `is-mobile`. */
  const MobileBreakpoint := 768
  /** Horizontal travel, in pixels, beyond which a rightward swipe closes. */
  const SwipeThreshold := 50
  /** Scroll offset beyond which the header carries `scrolled`. */
  const ScrolledOffset := 50

  /** `titleMap[lang]` of `updatePageTitle`. */
  function TitleFor(lang: string): (r: Option<string>)
    ensures r.Some? <==> lang == "en" || lang == "am"
    ensures r.Some? ==> r.value != ""
  {
    if lang == "en" then Some("Ashenafi Sentayehu | Full Stack Developer Portfolio")
    else if lang == "am" then Some("አሸናፊ ሰንታየሁ | ፉል ስታክ አበልጻጊ ፖርትፎሊዮ")
    else None
  }

  /** The anchor filter of `initSmoothScrolling`: the default is prevented
      for an href of the form `#` plus something other than `!`. What
      follows (the scroll and the menu close) depends on the target
      lookup, see `Navigation.OnAnchorClick`. */
  predicate HandlesAnchor(href: string)
  {
    !(href == "#" || href == "#!") && |href| > 0 && href[0] == '#' && |href| > 1
  }

  /** For `#id`, the filter prevents the default exactly when `id` is
      neither empty nor `!`; an href without a leading `#` never passes. */
  lemma HandlesAnchorExactly(id: string, href: string)
    ensures HandlesAnchor("#" + id) <==> id != "" && id != "!"
    ensures (href == [] || href[0] != '#') ==> !HandlesAnchor(href)
  {
    assert ("#" + id)[1..] == id;
    assert "#" + "!" == "#!";
  }

  /** `handleSwipe`'s rule: `startX - endX < -50`, a rightward swipe. */
  predicate SwipeCloses(startX: int, endX: int)
  {
    startX - endX < -SwipeThreshold
  }

  /** `initLanguageSwitcher` applies the saved language when it is present
      and non-empty; it does not check that it is a supported one. */
  predicate AppliesSaved(saved: Option<string>)
  {
    saved.Some? && saved.value != ""
  }

  /** The language the controller starts with. */
  function StartLanguage(saved: Option<string>): (lang: string)
    ensures AppliesSaved(saved) ==> lang == saved.value
    ensures !AppliesSaved(saved) ==> lang == "en"
  {
    if AppliesSaved(saved) then saved.value else "en"
  }

  /** At most one language dropdown carries `active`. */
  predicate AtMostOneOpen(dropdowns: seq<bool>)
  {
    forall i, j :: 0 <= i < |dropdowns| && 0 <= j < |dropdowns| && dropdowns[i] && dropdowns[j] ==> i == j
  }

  /** Every dropdown of `before` is still there and none is active. */
  predicate AllClosed(dropdowns: seq<bool>, before: seq<bool>)
  {
    |dropdowns| == |before| && forall k :: 0 <= k < |dropdowns| ==> !dropdowns[k]
  }

  class Navigation {
    /** Both `.hamburger` and `.nav-links` exist, so `initMobileMenu`
        installed the menu listeners and the scroll-lock observer. */
    const menuWired: bool
    /** A `header` element exists, so `initHeaderEffects` installed its
        scroll listener. */
    const headerPresent: bool

    var isMenuOpen: bool
    var currentLanguage: string

    // class marks of the menu
    var panelActive: bool       // `.nav-links` has `active`
    var hamburgerActive: bool   // `.hamburger` has `active`
    var bodyMenuOpen: bool      // body has `menu-open`
    var htmlMenuOpen: bool      // html has `menu-open`
    var bodyIsMobile: bool      // body has `is-mobile`

    var dropdowns: seq<bool>    // `active` of each `.lang-dropdown`
    var langLabels: seq<string> // text of each `.lang-btn span`
    var nodes: seq<TransNode>   // every `[data-en]` element
    var links: seq<NavLink>     // every link of the nav panel
    /** `localStorage.getItem('preferred-language')`: the controller reads
        and writes no other key, so the store is the value under this one. */
    var saved: Option<string>
    var title: string

    // header effects
    var headerScrolled: bool    // header has `scrolled`
    var headerHidden: bool      // header translated out of view
    var lastScrollY: int

    // window scroll offset (`scrollY`, `pageYOffset`)
    var scrollY: int

    // scroll lock
    var scrollPosition: int     // offset recorded when the body was fixed
    var bodyLocked: bool        // body overflow hidden, position fixed
    var bodyTop: Option<int>    // body `top` style, cleared when None
    var pendingUnlocks: nat     // unlock timers scheduled, not yet fired

    var touchStartX: int

    /** The menu flags move together, the menu can only be open when its
        elements exist, and a locked body is offset by the recorded
        scroll position. */
    ghost predicate Valid()
      reads this
    {
      (!menuWired ==> !isMenuOpen) &&
      panelActive == isMenuOpen && hamburgerActive == isMenuOpen &&
      bodyMenuOpen == isMenuOpen && htmlMenuOpen == isMenuOpen &&
      bodyTop == (if bodyLocked then Some(-scrollPosition) else None)
    }

    /** The language buttons show `lang` in capitals and the page text and
        title are those `setLanguage(lang)` derives from `labels0`, `nodes0`
        and `title0`. */
    ghost predicate ShowsLanguage(lang: string, labels0: seq<string>, nodes0: seq<TransNode>, title0: string)
      reads this`langLabels, this`nodes, this`title
    {
      |langLabels| == |labels0| && (forall k :: 0 <= k < |langLabels| ==> langLabels[k] == ToUpper(lang)) &&
      |nodes| == |nodes0| && (forall k :: 0 <= k < |nodes| ==> nodes[k] == TranslateNode(nodes0[k], lang)) &&
      title == (if TitleFor(lang).Some? then TitleFor(lang).value else title0)
    }

    /** `new Navigation()` on a page in the given state, followed by the
        `is-mobile` check of the page-load handler. A saved language that
        is present and non-empty is applied, whatever its value. */
    constructor (menuWired: bool, headerPresent: bool, width: int, scrollY: int, headerHeight: int,
                 dropdowns: seq<bool>, langLabels: seq<string>, nodes: seq<TransNode>,
                 links: seq<NavLink>, saved: Option<string>, title: string)
      ensures Valid()
      ensures this.menuWired == menuWired && this.headerPresent == headerPresent
      ensures !isMenuOpen && !bodyLocked && pendingUnlocks == 0
      ensures this.scrollY == scrollY && this.dropdowns == dropdowns && this.links == links
      ensures bodyIsMobile == (width <= MobileBreakpoint)
      ensures currentLanguage == StartLanguage(saved) && this.saved == saved
      ensures AppliesSaved(saved) ==> ShowsLanguage(currentLanguage, langLabels, nodes, title)
      ensures !AppliesSaved(saved) ==> this.langLabels == langLabels && this.nodes == nodes && this.title == title
      ensures headerPresent ==> headerScrolled == (scrollY > ScrolledOffset) && !headerHidden
      ensures lastScrollY == scrollY
    {
      this.menuWired := menuWired;
      this.headerPresent := headerPresent;
      isMenuOpen := false;
      currentLanguage := "en";
      panelActive, hamburgerActive, bodyMenuOpen, htmlMenuOpen := false, false, false, false;
      // the page-load handler's `is-mobile` check; nothing during start-up reads it
      bodyIsMobile := width <= MobileBreakpoint;
      this.dropdowns := dropdowns;
      this.langLabels := langLabels;
      this.nodes := nodes;
      this.links := links;
      this.saved := saved;
      this.title := title;
      headerScrolled, headerHidden := false, false;
      lastScrollY := scrollY;
      this.scrollY := scrollY;
      scrollPosition, bodyLocked, bodyTop, pendingUnlocks := 0, false, None, 0;
      touchStartX := 0;
      new;
      InitLanguageSwitcher();
      // initHeaderEffects: the initial update
      if headerPresent {
        UpdateHeader(headerHeight);
      }
    }

    /** The start-up part of `initLanguageSwitcher`: a saved language that
        is present and non-empty becomes the current one and is applied. */
    method InitLanguageSwitcher()
      requires Valid()
      modifies this`currentLanguage, this`saved, this`langLabels, this`nodes, this`title
      ensures Valid()
      ensures currentLanguage == (if AppliesSaved(saved) then saved.value else old(currentLanguage))
      ensures saved == old(saved)
      ensures AppliesSaved(saved) ==> ShowsLanguage(currentLanguage, old(langLabels), old(nodes), old(title))
      ensures !AppliesSaved(saved) ==> langLabels == old(langLabels) && nodes == old(nodes) && title == old(title)
    {
      var savedLang := saved;
      if savedLang.Some? && savedLang.value != "" {
        currentLanguage := savedLang.value;
        SetLanguage(currentLanguage);
      }
    }

    // -------------------------------------------------------------------
    // Menu state

    method OpenMenu()
      requires Valid() && menuWired
      modifies this`isMenuOpen, this`panelActive, this`hamburgerActive, this`bodyMenuOpen, this`htmlMenuOpen
      ensures Valid()
      ensures isMenuOpen && panelActive && hamburgerActive && bodyMenuOpen && htmlMenuOpen
    {
      panelActive := true;
      hamburgerActive := true;
      isMenuOpen := true;
      bodyMenuOpen := true;
      htmlMenuOpen := true;
    }

    /** Clears every menu mark and closes every language dropdown. */
    method CloseMenu()
      requires Valid() && menuWired
      modifies this`isMenuOpen, this`panelActive, this`hamburgerActive, this`bodyMenuOpen,
               this`htmlMenuOpen, this`dropdowns
      ensures Valid()
      ensures !isMenuOpen && !panelActive && !hamburgerActive && !bodyMenuOpen && !htmlMenuOpen
      ensures AllClosed(dropdowns, old(dropdowns))
    {
      panelActive := false;
      hamburgerActive := false;
      isMenuOpen := false;
      bodyMenuOpen := false;
      htmlMenuOpen := false;
      CloseAllLanguageDropdowns();
    }

    method ToggleMenu()
      requires Valid() && menuWired
      modifies this`isMenuOpen, this`panelActive, this`hamburgerActive, this`bodyMenuOpen,
               this`htmlMenuOpen, this`dropdowns
      ensures Valid()
      ensures isMenuOpen == !old(isMenuOpen)
      ensures !old(isMenuOpen) ==> dropdowns == old(dropdowns)
      ensures old(isMenuOpen) ==> AllClosed(dropdowns, old(dropdowns))
    {
      if isMenuOpen {
        CloseMenu();
      } else {
        OpenMenu();
      }
    }

    method IsOpen() returns (open: bool)
      ensures open == isMenuOpen
    {
      open := isMenuOpen;
    }

    method GetCurrentLanguage() returns (lang: string)
      ensures lang == currentLanguage
    {
      lang := currentLanguage;
    }

    // -------------------------------------------------------------------
    // Menu triggers

    /** A click on the hamburger (it does not reach the document). */
    method OnHamburgerClick()
      requires Valid()
      modifies this`isMenuOpen, this`panelActive, this`hamburgerActive, this`bodyMenuOpen,
               this`htmlMenuOpen, this`dropdowns
      ensures Valid()
      ensures menuWired ==> isMenuOpen == !old(isMenuOpen)
      ensures menuWired && !old(isMenuOpen) ==> dropdowns == old(dropdowns)
      ensures menuWired && old(isMenuOpen) ==> AllClosed(dropdowns, old(dropdowns))
      ensures !menuWired ==> !isMenuOpen && dropdowns == old(dropdowns)
    {
      if menuWired {
        ToggleMenu();
      }
    }

    /** A click on a panel link other than a language button: closes the
        menu on the mobile layout only, whether or not it was open. */
    method OnNavLinkClick(width: int)
      requires Valid()
      modifies this`isMenuOpen, this`panelActive, this`hamburgerActive, this`bodyMenuOpen,
               this`htmlMenuOpen, this`dropdowns
      ensures Valid()
      ensures isMenuOpen == (old(isMenuOpen) && width > MenuBreakpoint)
      ensures menuWired && width <= MenuBreakpoint ==> AllClosed(dropdowns, old(dropdowns))
      ensures !(menuWired && width <= MenuBreakpoint) ==> dropdowns == old(dropdowns)
    {
      if menuWired && width <= MenuBreakpoint {
        CloseMenu();
      }
    }

    /** A click that reaches the document. The first listener closes an
        open menu when the click landed outside the panel and the
        hamburger; the second closes every language dropdown. */
    method OnDocumentClick(insidePanel: bool, insideHamburger: bool)
      requires Valid()
      modifies this`isMenuOpen, this`panelActive, this`hamburgerActive, this`bodyMenuOpen,
               this`htmlMenuOpen, this`dropdowns
      ensures Valid()
      ensures isMenuOpen == (old(isMenuOpen) && (insidePanel || insideHamburger))
      ensures AllClosed(dropdowns, old(dropdowns))
    {
      if isMenuOpen && !insidePanel && !insideHamburger {
        CloseMenu();
      }
      CloseAllLanguageDropdowns();
    }

    /** A key press: Escape closes an open menu; nothing else changes. */
    method OnKeyDown(key: string)
      requires Valid()
      modifies this`isMenuOpen, this`panelActive, this`hamburgerActive, this`bodyMenuOpen,
               this`htmlMenuOpen, this`dropdowns
      ensures Valid()
      ensures isMenuOpen == (old(isMenuOpen) && key != "Escape")
      ensures old(isMenuOpen) && key == "Escape" ==> AllClosed(dropdowns, old(dropdowns))
      ensures !(old(isMenuOpen) && key == "Escape") ==> dropdowns == old(dropdowns)
    {
      if key == "Escape" && isMenuOpen {
        CloseMenu();
      }
    }

    /** A window resize: widening past the breakpoint closes an open menu,
        and the body's `is-mobile` mark follows the width. */
    method OnResize(width: int)
      requires Valid()
      modifies this`isMenuOpen, this`panelActive, this`hamburgerActive, this`bodyMenuOpen,
               this`htmlMenuOpen, this`dropdowns, this`bodyIsMobile
      ensures Valid()
      ensures isMenuOpen == (old(isMenuOpen) && width <= MenuBreakpoint)
      ensures old(isMenuOpen) && width > MenuBreakpoint ==> AllClosed(dropdowns, old(dropdowns))
      ensures !(old(isMenuOpen) && width > MenuBreakpoint) ==> dropdowns == old(dropdowns)
      ensures bodyIsMobile == (width <= MobileBreakpoint)
    {
      if width > MenuBreakpoint && isMenuOpen {
        CloseMenu();
      }
      bodyIsMobile := width <= MobileBreakpoint;
    }

    /** `handleSwipe`: a rightward swipe of more than 50 pixels closes an
        open menu; any other gesture changes nothing. */
    method HandleSwipe(startX: int, endX: int)
      requires Valid()
      modifies this`isMenuOpen, this`panelActive, this`hamburgerActive, this`bodyMenuOpen,
               this`htmlMenuOpen, this`dropdowns
      ensures Valid()
      ensures isMenuOpen == (old(isMenuOpen) && endX - startX <= SwipeThreshold)
      ensures old(isMenuOpen) && endX - startX > SwipeThreshold ==> AllClosed(dropdowns, old(dropdowns))
      ensures !(old(isMenuOpen) && endX - startX > SwipeThreshold) ==> dropdowns == old(dropdowns)
    {
      if SwipeCloses(startX, endX) && isMenuOpen {
        CloseMenu();
      }
    }

    method OnTouchStart(x: int)
      modifies this`touchStartX
      ensures touchStartX == x
    {
      touchStartX := x;
    }

    method OnTouchEnd(x: int)
      requires Valid()
      modifies this`isMenuOpen, this`panelActive, this`hamburgerActive, this`bodyMenuOpen,
               this`htmlMenuOpen, this`dropdowns
      ensures Valid()
      ensures isMenuOpen == (old(isMenuOpen) && x - touchStartX <= SwipeThreshold)
      ensures old(isMenuOpen) && x - touchStartX > SwipeThreshold ==> AllClosed(dropdowns, old(dropdowns))
      ensures !(old(isMenuOpen) && x - touchStartX > SwipeThreshold) ==> dropdowns == old(dropdowns)
    {
      HandleSwipe(touchStartX, x);
    }

    // -------------------------------------------------------------------
    // Language dropdowns and language

    method CloseAllLanguageDropdowns()
      modifies this`dropdowns
      ensures AllClosed(dropdowns, old(dropdowns))
    {
      var i := 0;
      while i < |dropdowns|
        invariant 0 <= i <= |dropdowns| == |old(dropdowns)|
        invariant forall k :: 0 <= k < i ==> !dropdowns[k]
      {
        dropdowns := dropdowns[i := false];
        i := i + 1;
      }
    }

    /** A click on the language button whose next sibling is dropdown `d`:
        every dropdown closes, and `d` opens if it was closed. */
    method ToggleLanguageDropdown(d: nat)
      requires d < |dropdowns|
      modifies this`dropdowns
      ensures |dropdowns| == |old(dropdowns)|
      ensures dropdowns[d] == !old(dropdowns)[d]
      ensures forall k :: 0 <= k < |dropdowns| && k != d ==> !dropdowns[k]
      ensures AtMostOneOpen(dropdowns)
    {
      var wasActive := dropdowns[d];
      CloseAllLanguageDropdowns();
      if !wasActive {
        dropdowns := dropdowns[d := true];
      }
    }

    /** `setLanguage`: records and stores the language, writes it in
        capitals on every language button, and rewrites the page text. */
    method SetLanguage(lang: string)
      requires Valid()
      modifies this`currentLanguage, this`saved, this`langLabels, this`nodes, this`title
      ensures Valid()
      ensures currentLanguage == lang
      ensures saved == Some(lang)
      ensures ShowsLanguage(lang, old(langLabels), old(nodes), old(title))
    {
      currentLanguage := lang;
      saved := Some(lang);
      var upper := ToUpper(lang);
      var i := 0;
      while i < |langLabels|
        invariant 0 <= i <= |langLabels| == |old(langLabels)|
        invariant forall k :: 0 <= k < i ==> langLabels[k] == upper
        modifies this`langLabels
      {
        langLabels := langLabels[i := upper];
        i := i + 1;
      }
      UpdatePageContent(lang);
    }

    /** Every `[data-en]` element takes the text of the chosen language
        (untouched for a language other than en and am), then the title. */
    method UpdatePageContent(lang: string)
      modifies this`nodes, this`title
      ensures |nodes| == |old(nodes)|
      ensures forall k :: 0 <= k < |nodes| ==> nodes[k] == TranslateNode(old(nodes)[k], lang)
      ensures title == if TitleFor(lang).Some? then TitleFor(lang).value else old(title)
    {
      var i := 0;
      while i < |nodes|
        invariant 0 <= i <= |nodes| == |old(nodes)|
        invariant forall k :: 0 <= k < i ==> nodes[k] == TranslateNode(old(nodes)[k], lang)
        invariant forall k :: i <= k < |nodes| ==> nodes[k] == old(nodes)[k]
        modifies this`nodes
      {
        nodes := nodes[i := TranslateNode(nodes[i], lang)];
        i := i + 1;
      }
      UpdatePageTitle(lang);
    }

    /** The title changes only for a language the title map knows. */
    method UpdatePageTitle(lang: string)
      modifies this`title
      ensures lang == "en" || lang == "am" ==> title == TitleFor(lang).value
      ensures !(lang == "en" || lang == "am") ==> title == old(title)
    {
      var t := TitleFor(lang);
      if t.Some? {
        title := t.value;
      }
    }

    /** A click on a `.lang-option`: applies its language, closes every
        dropdown, and on the mobile layout closes an open menu. */
    method OnLanguageOptionClick(lang: string, width: int)
      requires Valid()
      modifies this`currentLanguage, this`saved, this`langLabels, this`nodes, this`title,
               this`isMenuOpen, this`panelActive, this`hamburgerActive, this`bodyMenuOpen,
               this`htmlMenuOpen, this`dropdowns
      ensures Valid()
      ensures currentLanguage == lang && saved == Some(lang)
      ensures ShowsLanguage(lang, old(langLabels), old(nodes), old(title))
      ensures AllClosed(dropdowns, old(dropdowns))
      ensures isMenuOpen == (old(isMenuOpen) && width > MenuBreakpoint)
    {
      SetLanguage(lang);
      CloseAllLanguageDropdowns();
      if isMenuOpen && width <= MenuBreakpoint {
        CloseMenu();
      }
    }

    // -------------------------------------------------------------------
    // Header effects

    /** `updateHeader`: `scrolled` past 50 pixels; hidden while scrolling
        down below the header's own height, unless the menu is open. */
    method UpdateHeader(headerHeight: int)
      requires Valid() && headerPresent
      modifies this`headerScrolled, this`headerHidden, this`lastScrollY
      ensures Valid()
      ensures headerScrolled == (scrollY > ScrolledOffset)
      ensures headerHidden == (scrollY > old(lastScrollY) && scrollY > headerHeight && !isMenuOpen)
      ensures lastScrollY == scrollY
    {
      headerScrolled := scrollY > ScrolledOffset;
      headerHidden := scrollY > lastScrollY && scrollY > headerHeight && !isMenuOpen;
      lastScrollY := scrollY;
    }

    /** The window scrolled to `y` and the header update ran for it. */
    method OnScroll(y: int, headerHeight: int)
      requires Valid()
      modifies this`scrollY, this`headerScrolled, this`headerHidden, this`lastScrollY
      ensures Valid()
      ensures scrollY == y
      ensures headerPresent ==> headerScrolled == (y > ScrolledOffset) && lastScrollY == y &&
                                headerHidden == (y > old(lastScrollY) && y > headerHeight && !isMenuOpen)
      ensures !headerPresent ==> headerScrolled == old(headerScrolled) && headerHidden == old(headerHidden) &&
                                 lastScrollY == old(lastScrollY)
    {
      scrollY := y;
      if headerPresent {
        UpdateHeader(headerHeight);
      }
    }

    // -------------------------------------------------------------------
    // Scroll lock

    /** `disableBodyScroll`: records the scroll offset and fixes the body
        at minus that offset. */
    method DisableBodyScroll()
      requires Valid()
      modifies this`scrollPosition, this`bodyLocked, this`bodyTop
      ensures Valid()
      ensures scrollPosition == scrollY && bodyLocked && bodyTop == Some(-scrollY)
    {
      scrollPosition := scrollY;
      bodyLocked := true;
      bodyTop := Some(-scrollPosition);
    }

    /** `enableBodyScroll`: clears the body styles and scrolls back to the
        recorded offset. */
    method EnableBodyScroll()
      requires Valid()
      modifies this`bodyLocked, this`bodyTop, this`scrollY
      ensures Valid()
      ensures !bodyLocked && bodyTop == None && scrollY == scrollPosition
    {
      bodyLocked := false;
      bodyTop := None;
      scrollY := scrollPosition;
    }

    /** The observer's callback for a `class` change on the panel: lock at
        once when the panel is active, otherwise schedule an unlock 50 ms
        later. */
    method OnPanelClassMutation()
      requires Valid()
      modifies this`scrollPosition, this`bodyLocked, this`bodyTop, this`pendingUnlocks
      ensures Valid()
      ensures menuWired && panelActive ==> bodyLocked && scrollPosition == scrollY && pendingUnlocks == old(pendingUnlocks)
      ensures menuWired && !panelActive ==> pendingUnlocks == old(pendingUnlocks) + 1 &&
                                            bodyLocked == old(bodyLocked) && scrollPosition == old(scrollPosition)
      ensures !menuWired ==> pendingUnlocks == old(pendingUnlocks) && bodyLocked == old(bodyLocked) &&
                             scrollPosition == old(scrollPosition)
    {
      if menuWired {
        if panelActive {
          DisableBodyScroll();
        } else {
          pendingUnlocks := pendingUnlocks + 1;
        }
      }
    }

    /** One scheduled unlock fires. */
    method OnUnlockTimer()
      requires Valid() && pendingUnlocks > 0
      modifies this`bodyLocked, this`bodyTop, this`scrollY, this`pendingUnlocks
      ensures Valid()
      ensures pendingUnlocks == old(pendingUnlocks) - 1
      ensures !bodyLocked && scrollY == scrollPosition
    {
      pendingUnlocks := pendingUnlocks - 1;
      EnableBodyScroll();
    }

    /** Opening the menu, the observer's lock, any scroll offset `y` the
        window reports while the body is fixed, closing the menu, the
        observer's callback and its unlock timer leave the page where it
        was before the menu opened. */
    method MenuRoundTripRestoresScroll(y: int, headerHeight: int)
      requires Valid() && menuWired && !isMenuOpen
      modifies this
      ensures Valid()
      ensures scrollY == old(scrollY) && !isMenuOpen && !bodyLocked
    {
      OpenMenu();
      OnPanelClassMutation();
      OnScroll(y, headerHeight);
      CloseMenu();
      OnPanelClassMutation();
      OnUnlockTimer();
    }

    /** The unlock scheduled by a close fires whatever the menu's state:
        closing and reopening the menu within 50 ms leaves it open with
        the body free to scroll. */
    method StaleUnlockAfterReopen()
      requires Valid() && menuWired && !isMenuOpen
      modifies this
      ensures Valid()
      ensures isMenuOpen && panelActive && !bodyLocked && bodyTop == None
      ensures pendingUnlocks == old(pendingUnlocks)
    {
      OpenMenu();
      OnPanelClassMutation();
      CloseMenu();
      OnPanelClassMutation();
      OpenMenu();
      OnPanelClassMutation();
      OnUnlockTimer();
    }

    // -------------------------------------------------------------------
    // Anchors and the active link

    /** A click on an `a[href^="#"]`, where `lookup` is what
        `document.querySelector(href)` does on this page. When the filter
        passes, the default is prevented and the target is looked up: a
        lookup that throws ends the listener there, with the menu left as
        it was; otherwise an open menu closes, and the page scrolls when
        the target exists. */
    method OnAnchorClick(href: string, lookup: Query) returns (prevented: bool, scrolled: bool)
      requires Valid() && ConsistentLookup(href, lookup)
      modifies this`isMenuOpen, this`panelActive, this`hamburgerActive, this`bodyMenuOpen,
               this`htmlMenuOpen, this`dropdowns
      ensures Valid()
      ensures prevented == HandlesAnchor(href)
      ensures scrolled == (prevented && lookup == Match)
      ensures isMenuOpen == (old(isMenuOpen) && !(prevented && lookup != Throws))
      ensures old(isMenuOpen) && prevented && lookup != Throws ==> AllClosed(dropdowns, old(dropdowns))
      ensures !(old(isMenuOpen) && prevented && lookup != Throws) ==> dropdowns == old(dropdowns)
      ensures prevented && RejectedIdSelector(href) ==> !scrolled && isMenuOpen == old(isMenuOpen)
    {
      if href == "#" || href == "#!" {
        return false, false;
      }
      prevented := |href| > 0 && href[0] == '#' && |href| > 1;
      scrolled := false;
      if prevented {
        if lookup == Throws {
          return;
        }
        scrolled := lookup == Match;
        if isMenuOpen {
          CloseMenu();
        }
      }
    }

    /** `setActiveNavLink(id)`: of the panel's hash links, exactly those
        pointing at `#id` are active; other links keep their state. */
    method SetActiveNavLink(sectionId: string)
      modifies this`links
      ensures |links| == |old(links)|
      ensures forall k :: 0 <= k < |links| ==> links[k] == ActivateLink(old(links)[k], sectionId)
    {
      var i := 0;
      while i < |links|
        invariant 0 <= i <= |links| == |old(links)|
        invariant forall k :: 0 <= k < i ==> links[k] == ActivateLink(old(links)[k], sectionId)
        invariant forall k :: i <= k < |links| ==> links[k] == old(links)[k]
      {
        var link := links[i];
        if IsHashLink(link.href) {
          link := link.(active := false);
          if link.href == "#" + sectionId {
            link := link.(active := true);
          }
        }
        links := links[i := link];
        i := i + 1;
      }
    }
  }
}
