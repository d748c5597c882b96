/** The navigation controller of navigation.js, the root-level variant of the
    site's menu script: panel, hamburger and body `menu-open` marks, the
    header's scroll effects with a fixed hide threshold, an immediate
    body scroll lock, the anchor filter that needs the target lookup to
    find an element,
    the active-link highlight with its scroll-based fallback, and
    swipe-to-close while the finger moves.

    As in `SiteNav`, each event listener is a method, the event's data are
    parameters. A listener installed only under a condition requires that
    condition of its caller (the scroll fallback exists only on a page with
    at least one `section[id]`). */
module RootNav {
  import opened Dom

  /** Widest viewport, in CSS pixels, that counts as the mobile layout. */
  const MenuBreakpoint := 992
  /** Horizontal travel beyond which a rightward swipe closes the menu. */
  const SwipeThreshold := 50
  /** Scroll offset beyond which the header carries `scrolled`. */
  const ScrolledOffset := 50
  /** Scroll offset beyond which the header may hide. */
  const HideOffset := 100
  /** How far above a section's top the fallback already counts it. */
  const SectionLead := 100

  /** The anchor filter: an href of the form `#` plus something has its
      default prevented; the click is taken over (scroll, menu closed)
      only when `document.querySelector(href)`, whose outcome is `lookup`,
      returns an element. */
  predicate HandlesAnchor(href: string, lookup: Query)
  {
    href != "#" && |href| > 0 && href[0] == '#' && |href| > 1 && lookup == Match
  }

  /** `#id` is taken over exactly when `id` is non-empty and the lookup
      finds an element. The filter lets `#!` and `#` plus a digit through,
      but their lookup throws, so they are never taken over. */
  lemma HandlesAnchorExactly(id: string, lookup: Query)
    requires ConsistentLookup("#" + id, lookup)
    ensures HandlesAnchor("#" + id, lookup) <==> id != "" && lookup == Match
    ensures id == "!" ==> !HandlesAnchor("#" + id, lookup)
    ensures id != "" && '0' <= id[0] <= '9' ==> !HandlesAnchor("#" + id, lookup)
  {
    assert ("#" + id)[1..] == id;
    if id != "" {
      assert ("#" + id)[1] == id[0];
    }
  }

  // ---------------------------------------------------------------------
  // Scroll-based fallback of the active-link highlight

  /** A `section[id]` and its `offsetTop`. */
  datatype Section = Section(id: string, offsetTop: int)

  /** The fallback counts a section as reached once the window has
      scrolled to within the header's height plus 100 pixels of it. */
  predicate Reached(s: Section, scrollY: int, headerHeight: int)
  {
    scrollY >= s.offsetTop - headerHeight - SectionLead
  }

  /** The position of the last reached section in document order, or -1
      when none is reached. */
  function LastReached(sections: seq<Section>, scrollY: int, headerHeight: int): (k: int)
    ensures -1 <= k < |sections|
    ensures k >= 0 ==> Reached(sections[k], scrollY, headerHeight)
    ensures forall j :: k < j < |sections| ==> !Reached(sections[j], scrollY, headerHeight)
  {
    if sections == [] then -1
    else if Reached(sections[|sections| - 1], scrollY, headerHeight) then |sections| - 1
    else LastReached(sections[..|sections| - 1], scrollY, headerHeight)
  }

  /** The id the fallback highlights: that of the last reached section, or
      the empty string when no section is reached. */
  function ReachedId(sections: seq<Section>, scrollY: int, headerHeight: int): string
  {
    var k := LastReached(sections, scrollY, headerHeight);
    if k < 0 then "" else sections[k].id
  }

  /** The loop of `updateActiveNav`, which overwrites `currentSection` with
      every section it finds reached. */
  method CurrentSection(sections: seq<Section>, scrollY: int, headerHeight: int) returns (id: string)
    ensures id == ReachedId(sections, scrollY, headerHeight)
  {
    id := "";
    ghost var last := -1;
    var i := 0;
    while i < |sections|
      invariant 0 <= i <= |sections|
      invariant last == LastReached(sections[..i], scrollY, headerHeight)
      invariant id == if last < 0 then "" else sections[last].id
    {
      assert sections[..i + 1][..i] == sections[..i];
      if scrollY >= sections[i].offsetTop - headerHeight - SectionLead {
        id := sections[i].id;
        last := i;
      }
      i := i + 1;
    }
    assert sections[..i] == sections;
  }

  /** Scrolling further down never moves the highlight to an earlier
      section. */
  lemma {:induction false} LastReachedMonotone(sections: seq<Section>, y1: int, y2: int, headerHeight: int)
    requires y1 <= y2
    ensures LastReached(sections, y1, headerHeight) <= LastReached(sections, y2, headerHeight)
  {
    if sections != [] && !Reached(sections[|sections| - 1], y2, headerHeight) {
      LastReachedMonotone(sections[..|sections| - 1], y1, y2, headerHeight);
    }
  }

  class Navigation {
    /** Both `.hamburger` and `.nav-links` exist. */
    const menuWired: bool
    /** A `header` element exists. */
    const headerPresent: bool

    var isMenuOpen: bool
    var panelActive: bool       // `.nav-links` has `active`
    var hamburgerActive: bool   // `.hamburger` has `active`
    var bodyMenuOpen: bool      // body has `menu-open`

    var links: seq<NavLink>     // every link of the nav panel

    var headerScrolled: bool
    var headerHidden: bool
    var lastScrollY: int

    var scrollY: int            // window scroll offset

    var scrollPosition: int
    var bodyLocked: bool
    var bodyTop: Option<int>

    var touchStartX: int

    ghost predicate Valid()
      reads this
    {
      (!menuWired ==> !isMenuOpen) &&
      panelActive == isMenuOpen && hamburgerActive == isMenuOpen && bodyMenuOpen == isMenuOpen &&
      bodyTop == (if bodyLocked then Some(-scrollPosition) else None)
    }

    /** `new Navigation()`. The header update runs once at start-up; the
        fallback's first `updateActiveNav` is `UpdateActiveNav`. */
    constructor (menuWired: bool, headerPresent: bool, scrollY: int, headerHeight: int, links: seq<NavLink>)
      ensures Valid()
      ensures this.menuWired == menuWired && this.headerPresent == headerPresent
      ensures !isMenuOpen && !bodyLocked
      ensures this.scrollY == scrollY && this.links == links && lastScrollY == scrollY
      ensures headerPresent ==> headerScrolled == (scrollY > ScrolledOffset) && !headerHidden
    {
      this.menuWired := menuWired;
      this.headerPresent := headerPresent;
      isMenuOpen := false;
      panelActive, hamburgerActive, bodyMenuOpen := false, false, false;
      this.links := links;
      headerScrolled, headerHidden := false, false;
      lastScrollY := scrollY;
      this.scrollY := scrollY;
      scrollPosition, bodyLocked, bodyTop := 0, false, None;
      touchStartX := 0;
      new;
      if headerPresent {
        UpdateHeader();
      }
    }

    // -------------------------------------------------------------------
    // Menu state

    method OpenMenu()
      requires Valid() && menuWired
      modifies this`isMenuOpen, this`panelActive, this`hamburgerActive, this`bodyMenuOpen
      ensures Valid()
      ensures isMenuOpen && panelActive && hamburgerActive && bodyMenuOpen
    {
      panelActive := true;
      hamburgerActive := true;
      isMenuOpen := true;
      bodyMenuOpen := true;
    }

    method CloseMenu()
      requires Valid() && menuWired
      modifies this`isMenuOpen, this`panelActive, this`hamburgerActive, this`bodyMenuOpen
      ensures Valid()
      ensures !isMenuOpen && !panelActive && !hamburgerActive && !bodyMenuOpen
    {
      panelActive := false;
      hamburgerActive := false;
      isMenuOpen := false;
      bodyMenuOpen := false;
    }

    method ToggleMenu()
      requires Valid() && menuWired
      modifies this`isMenuOpen, this`panelActive, this`hamburgerActive, this`bodyMenuOpen
      ensures Valid()
      ensures isMenuOpen == !old(isMenuOpen)
    {
      if isMenuOpen {
        CloseMenu();
      } else {
        OpenMenu();
      }
    }

    method IsOpen() returns (open: bool)
      ensures open == isMenuOpen
    {
      open := isMenuOpen;
    }

    // -------------------------------------------------------------------
    // Menu triggers

    method OnHamburgerClick()
      requires Valid()
      modifies this`isMenuOpen, this`panelActive, this`hamburgerActive, this`bodyMenuOpen
      ensures Valid()
      ensures menuWired ==> isMenuOpen == !old(isMenuOpen)
      ensures !menuWired ==> !isMenuOpen
    {
      if menuWired {
        ToggleMenu();
      }
    }

    /** A click on any link of the panel closes the menu, at any width. */
    method OnNavLinkClick()
      requires Valid()
      modifies this`isMenuOpen, this`panelActive, this`hamburgerActive, this`bodyMenuOpen
      ensures Valid()
      ensures !isMenuOpen
    {
      if menuWired {
        CloseMenu();
      }
    }

    /** A click that reaches the document closes an open menu when it
        landed outside the panel and the hamburger. */
    method OnDocumentClick(insidePanel: bool, insideHamburger: bool)
      requires Valid()
      modifies this`isMenuOpen, this`panelActive, this`hamburgerActive, this`bodyMenuOpen
      ensures Valid()
      ensures isMenuOpen == (old(isMenuOpen) && (insidePanel || insideHamburger))
    {
      if isMenuOpen && !insidePanel && !insideHamburger {
        CloseMenu();
      }
    }

    method OnKeyDown(key: string)
      requires Valid()
      modifies this`isMenuOpen, this`panelActive, this`hamburgerActive, this`bodyMenuOpen
      ensures Valid()
      ensures isMenuOpen == (old(isMenuOpen) && key != "Escape")
    {
      if key == "Escape" && isMenuOpen {
        CloseMenu();
      }
    }

    method OnResize(width: int)
      requires Valid()
      modifies this`isMenuOpen, this`panelActive, this`hamburgerActive, this`bodyMenuOpen
      ensures Valid()
      ensures isMenuOpen == (old(isMenuOpen) && width <= MenuBreakpoint)
    {
      if width > MenuBreakpoint && isMenuOpen {
        CloseMenu();
      }
    }

    method OnTouchStart(x: int)
      modifies this`touchStartX
      ensures touchStartX == x
    {
      touchStartX := x;
    }

    /** `onTouchMove`: while the menu is open, a finger more than 50 pixels
        right of where it started closes it. */
    method OnTouchMove(x: int)
      requires Valid()
      modifies this`isMenuOpen, this`panelActive, this`hamburgerActive, this`bodyMenuOpen
      ensures Valid()
      ensures isMenuOpen == (old(isMenuOpen) && x - touchStartX <= SwipeThreshold)
    {
      if !isMenuOpen {
        return;
      }
      var diff := touchStartX - x;
      if diff < -SwipeThreshold {
        CloseMenu();
      }
    }

    // -------------------------------------------------------------------
    // Header effects

    /** `updateHeader`: `scrolled` past 50 pixels; hidden while scrolling
        down past 100 pixels, unless the menu is open. */
    method UpdateHeader()
      requires Valid() && headerPresent
      modifies this`headerScrolled, this`headerHidden, this`lastScrollY
      ensures Valid()
      ensures headerScrolled == (scrollY > ScrolledOffset)
      ensures headerHidden == (scrollY > old(lastScrollY) && scrollY > HideOffset && !isMenuOpen)
      ensures lastScrollY == scrollY
      ensures headerHidden ==> headerScrolled
    {
      headerScrolled := scrollY > ScrolledOffset;
      headerHidden := scrollY > lastScrollY && scrollY > HideOffset && !isMenuOpen;
      lastScrollY := scrollY;
    }

    method OnScroll(y: int)
      requires Valid()
      modifies this`scrollY, this`headerScrolled, this`headerHidden, this`lastScrollY
      ensures Valid()
      ensures scrollY == y
      ensures headerPresent ==> headerScrolled == (y > ScrolledOffset) && lastScrollY == y &&
                                headerHidden == (y > old(lastScrollY) && y > HideOffset && !isMenuOpen)
      ensures !headerPresent ==> headerScrolled == old(headerScrolled) && headerHidden == old(headerHidden) &&
                                 lastScrollY == old(lastScrollY)
    {
      scrollY := y;
      if headerPresent {
        UpdateHeader();
      }
    }

    // -------------------------------------------------------------------
    // Scroll lock

    method DisableBodyScroll()
      requires Valid()
      modifies this`scrollPosition, this`bodyLocked, this`bodyTop
      ensures Valid()
      ensures scrollPosition == scrollY && bodyLocked && bodyTop == Some(-scrollY)
    {
      scrollPosition := scrollY;
      bodyLocked := true;
      bodyTop := Some(-scrollPosition);
    }

    method EnableBodyScroll()
      requires Valid()
      modifies this`bodyLocked, this`bodyTop, this`scrollY
      ensures Valid()
      ensures !bodyLocked && bodyTop == None && scrollY == scrollPosition
    {
      bodyLocked := false;
      bodyTop := None;
      scrollY := scrollPosition;
    }

    /** The observer's callback for a `class` change on the panel: lock
        while the panel is active, unlock at once otherwise. */
    method OnPanelClassMutation()
      requires Valid()
      modifies this`scrollPosition, this`bodyLocked, this`bodyTop, this`scrollY
      ensures Valid()
      ensures menuWired && panelActive ==> bodyLocked && scrollPosition == old(scrollY) && scrollY == old(scrollY)
      ensures menuWired && !panelActive ==> !bodyLocked && scrollY == scrollPosition == old(scrollPosition)
      ensures !menuWired ==> bodyLocked == old(bodyLocked) && scrollY == old(scrollY) &&
                             scrollPosition == old(scrollPosition)
    {
      if menuWired {
        if panelActive {
          DisableBodyScroll();
        } else {
          EnableBodyScroll();
        }
      }
    }

    /** Opening the menu, the observer's lock, any scroll offset `y` the
        window reports while the body is fixed, closing the menu and the
        observer's unlock leave the page where it was before the menu
        opened. */
    method MenuRoundTripRestoresScroll(y: int)
      requires Valid() && menuWired && !isMenuOpen
      modifies this
      ensures Valid()
      ensures scrollY == old(scrollY) && !isMenuOpen && !bodyLocked
    {
      OpenMenu();
      OnPanelClassMutation();
      OnScroll(y);
      CloseMenu();
      OnPanelClassMutation();
    }

    // -------------------------------------------------------------------
    // Anchors and the active link

    /** A click on an `a[href^="#"]`, where `lookup` is what
        `document.querySelector(href)` does on this page: returns whether
        the default was prevented and whether the script took the click
        over; when it did, an open menu closes. A lookup that finds
        nothing or throws leaves the default prevented but does nothing
        else. */
    method OnAnchorClick(href: string, lookup: Query) returns (prevented: bool, handled: bool)
      requires Valid() && ConsistentLookup(href, lookup)
      modifies this`isMenuOpen, this`panelActive, this`hamburgerActive, this`bodyMenuOpen
      ensures Valid()
      ensures prevented == (href != "#" && |href| > 1 && href[0] == '#')
      ensures handled == HandlesAnchor(href, lookup)
      ensures isMenuOpen == (old(isMenuOpen) && !handled)
    {
      if href == "#" {
        return false, false;
      }
      prevented := |href| > 0 && href[0] == '#' && |href| > 1;
      handled := prevented && lookup == Match;
      if handled && isMenuOpen {
        CloseMenu();
      }
    }

    /** `setActiveNavLink(id)`: of the panel's hash links, exactly those
        pointing at `#id` are active; other links keep their state. */
    method SetActiveNavLink(sectionId: string)
      modifies this`links
      ensures |links| == |old(links)|
      ensures forall k :: 0 <= k < |links| ==> links[k] == ActivateLink(old(links)[k], sectionId)
    {
      var i := 0;
      while i < |links|
        invariant 0 <= i <= |links| == |old(links)|
        invariant forall k :: 0 <= k < i ==> links[k] == ActivateLink(old(links)[k], sectionId)
        invariant forall k :: i <= k < |links| ==> links[k] == old(links)[k]
      {
        var link := links[i];
        if IsHashLink(link.href) {
          link := link.(active := false);
          if link.href == "#" + sectionId {
            link := link.(active := true);
          }
        }
        links := links[i := link];
        i := i + 1;
      }
    }

    /** `updateActiveNav`, the fallback used without IntersectionObserver:
        highlights the last section reached at the current scroll offset,
        measuring from the header's height (0 without a header). With no
        section reached only links to a bare `#` are active. The listener
        is installed only after `initActiveNavigation` has found at least
        one section, so a call always has one. */
    method UpdateActiveNav(sections: seq<Section>, headerHeight: int)
      requires |sections| > 0
      modifies this`links
      ensures |links| == |old(links)|
      ensures var h := if headerPresent then headerHeight else 0;
              forall k :: 0 <= k < |links| ==>
                links[k] == ActivateLink(old(links)[k], ReachedId(sections, scrollY, h))
      ensures var h := if headerPresent then headerHeight else 0;
              LastReached(sections, scrollY, h) < 0 ==>
                forall k :: 0 <= k < |links| && IsHashLink(links[k].href) ==> (links[k].active <==> links[k].href == "#")
    {
      var h := if headerPresent then headerHeight else 0;
      var id := CurrentSection(sections, scrollY, h);
      SetActiveNavLink(id);
      assert "#" + "" == "#";
    }
  }
}
