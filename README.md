# Portfolio site scripts: a verified model

This project models the client-side logic of a personal portfolio site in
Dafny: the two navigation controllers, the English/Amharic language switcher
and the project-card image carousel. Each script's DOM state is abstracted
into plain fields:

- class lists become booleans or sequences of booleans;
- element texts and attributes become records;
- the browser's local store, of which each script uses one key, becomes the
  optional value held under that key.

Every event listener is a method that runs when its event occurs. The data
the browser supplies with the event are parameters: the window width, the
key pressed, the touch position, the scroll offset and whether a click
landed inside the menu.

- `dom.dfy` (module `Dom`) holds what the scripts share:
  - `Option`;
  - the ASCII part of `toUpperCase` and the `trim` of menu labels;
  - the `[data-en]` text update used by both language-aware scripts;
  - the active-link rule of `setActiveNavLink`, common to both navigation
    variants.
- `site_nav.dfy` (module `SiteNav`) models `js/navigation.js`:
  - the mobile menu, with its panel, hamburger, and body and html
    `menu-open` marks;
  - the language dropdowns and `setLanguage`;
  - the header's `scrolled` and hide rule;
  - the scroll lock, whose unlock is delayed by a 50 ms timer;
  - the `#`/`#!` anchor filter, the swipe-to-close gesture and the
    `is-mobile` body mark.
- `root_nav.dfy` (module `RootNav`) models the root-level `navigation.js`:
  - the same menu without the html mark;
  - an unconditional close on link click;
  - a fixed 100-pixel hide threshold and an immediate unlock;
  - an anchor filter that needs the target lookup to find an element;
  - swipe-to-close while the finger moves;
  - the scroll-based fallback of the active-link highlight, which picks the
    last section reached.
- `language.dfy` (module `Language`) models `js/language-switcher.js`:
  - `SwitchedPage` is what one `switchLanguage` does to the page, as a
    function. The translation tables are constants with the strings of the
    script.
  - `Switcher` is the imperative controller. Its loops are proved to compute
    `SwitchedPage`.
  - Lemmas prove, among other things, that a switch is idempotent, that the
    last switch to en or am alone decides the page, and that en → am → en
    restores the English page.
- `slider.dfy` (module `Slider`) models `js/slider.js`:
  - one `Carousel` per project card;
  - modular next and prev steps, next being undone by prev;
  - the full cycle back to the start;
  - exactly one active slide;
  - the buttons and the 4-second timer, which are wired only for two or more
    slides.

Some behaviours of the scripts worth knowing:

- A `[data-en]` element without `data-am` has its text cleared by a switch
  to Amharic: assigning a missing attribute to `textContent` empties it. It
  is not left unchanged.
- The placeholder of an input comes from the `data-en`/`data-am` of its
  previous sibling. When that sibling has no `data-am`, the placeholder
  becomes the string "undefined".
- No image alternative text is rewritten.
- `js/navigation.js` applies any non-empty stored language without checking
  it. Only `js/language-switcher.js` falls back to "en" for other values.
- The scroll lock is driven by the class-change observer on the panel, not
  by `open()` itself. In `js/navigation.js` the unlock happens 50 ms after
  the panel loses `active`. That unlock has no guard: closing and reopening
  the menu within those 50 ms leaves it open with the body unlocked.
- `setActiveNavLink` only visits links whose href starts with `#`. Other
  links keep whatever `active` mark they had.

## Model

| member | source | states |
|---|---|---|
| Dom.ToUpper | js/navigation.js:133-135 | the label written on each language button has the length of the code, each letter upper-cased, and no lower-case ASCII letter left |
| Dom.Trim | js/language-switcher.js:75 | `trim` returns the input with a leading and a trailing run of white space removed, and starts and ends with a non-space |
| Dom.TrimFixesTrimmed | js/language-switcher.js:75 | trimming text that already has no surrounding white space changes nothing |
| Dom.TranslateNode | js/navigation.js:146-152 | a `[data-en]` element gets its `data-en` text for en and its `data-am` text for am (empty when `data-am` is missing), and is unchanged for any other code; its attributes never change |
| Dom.TranslateNodeLastWins | js/language-switcher.js:20-26 | translating an element twice to one code is translating once, and after a translation to en or am the earlier translation no longer matters |
| Dom.ActivateLink | js/navigation.js:397-403 | a hash link is active exactly when its href is `#` followed by the section id; other links are not touched |
| Dom.ActivateLinkDistinct | navigation.js:308-318 | two different section ids never both activate the same link, and the empty id activates only a bare `#` link |
| Dom.RejectedIdSelector | js/navigation.js:337 | the hrefs for which `querySelector` certainly throws: `#` alone, or `#` followed by a character that cannot start a CSS identifier (NUL can, being read as U+FFFD); `ConsistentLookup` ties the browser's reported lookup to it |
| Slider.Next | js/slider.js:15 | the next index stays below the slide count, and wraps from the last slide to 0 |
| Slider.Prev | js/slider.js:22 | the previous index stays below the slide count, and wraps from 0 to the last slide |
| Slider.PrevUndoesNext | js/slider.js:13-25 | prev undoes next and next undoes prev, for every index in range |
| Slider.AdvanceIsAddition | js/slider.js:28-33 | `k` steps of next (clicks or timer ticks) move the index to `(i + k) % n` |
| Slider.FullCycle | js/slider.js:15 | as many next steps as there are slides come back to the starting index; from index 2 of 3 slides, next gives 0 |
| Slider.OnlyOneActive | js/slider.js:9-11 | when exactly the slide at `i` is marked, the count of active slides is 1 |
| Slider.Carousel.constructor | js/slider.js:3-38 | a card starts at index 0 with its own prev/next buttons recorded; with at least one image, slide 0 is the one active slide |
| Slider.Carousel.ShowSlide | js/slider.js:9-11 | after `showSlide(i)` slide `k` is active exactly when `k == i`: one active slide for `i` in range, none otherwise |
| Slider.Carousel.StepForward | js/slider.js:13-18 | the shared next step sets the index to `Next(index, n)` and keeps the one-active-slide invariant |
| Slider.Carousel.OnNextClick | js/slider.js:13-18 | a next click advances only when the card has the button and at least two slides; otherwise nothing changes |
| Slider.Carousel.OnPrevClick | js/slider.js:20-25 | a prev click steps back only when the card has the button and at least two slides; otherwise nothing changes |
| Slider.Carousel.OnTick | js/slider.js:28-33 | the 4-second timer makes the same step as next whenever there are at least two slides, buttons or not |
| Slider.NextThenPrevRestores | js/slider.js:13-25 | next followed by prev leaves the index and every slide mark as they were |
| SiteNav.TitleFor | js/navigation.js:158-167 | the title map has a non-empty entry exactly for en and am |
| SiteNav.HandlesAnchor | js/navigation.js:320-322 | the filter: `#` plus at least one character, other than `#!`; characterised by `HandlesAnchorExactly` |
| SiteNav.HandlesAnchorExactly | js/navigation.js:320-322 | the filter prevents the default of `#id` exactly when `id` is neither empty nor `!`; an href without a leading `#` never passes |
| SiteNav.SwipeCloses | js/navigation.js:422-427 | the swipe rule `startX - endX < -50`; `HandleSwipe` states its effect |
| SiteNav.StartLanguage | js/navigation.js:72-76 | a stored non-empty language, whatever its value, becomes the starting one; otherwise the start is en |
| SiteNav.Navigation.constructor | js/navigation.js:3-20 | a new controller has a closed menu and an unlocked body, starts with the stored language applied (any non-empty one) or en, shows the header's initial state, and marks the body `is-mobile` for widths up to 768 |
| SiteNav.Navigation.InitLanguageSwitcher | js/navigation.js:70-76 | a stored non-empty language becomes current and is applied to labels, text and title; otherwise nothing changes |
| SiteNav.Navigation.OpenMenu | js/navigation.js:177-189 | the menu is open and all four marks are set (panel, hamburger, body, html) |
| SiteNav.Navigation.CloseMenu | js/navigation.js:191-206 | the menu is closed, all four marks are cleared, and every language dropdown is inactive |
| SiteNav.Navigation.ToggleMenu | js/navigation.js:169-175 | the open state flips; closing also closes every dropdown, opening leaves them alone |
| SiteNav.Navigation.IsOpen | js/navigation.js:453-455 | returns whether the menu is open |
| SiteNav.Navigation.GetCurrentLanguage | js/navigation.js:457-459 | returns the current language |
| SiteNav.Navigation.OnHamburgerClick | js/navigation.js:29-32 | a hamburger click flips the menu when the menu is wired: opening keeps the dropdowns, closing closes every dropdown; unwired, nothing changes |
| SiteNav.Navigation.OnNavLinkClick | js/navigation.js:35-41 | for widths up to 992 a non-language panel link closes the menu and every dropdown; on wider windows menu and dropdowns stay as they were |
| SiteNav.Navigation.OnDocumentClick | js/navigation.js:44-50 | a click outside the panel and the hamburger closes an open menu; every document click also closes all dropdowns (lines 102-104) |
| SiteNav.Navigation.OnKeyDown | js/navigation.js:53-57 | Escape closes an open menu and every dropdown; any other key, or a closed menu, changes nothing |
| SiteNav.Navigation.OnResize | js/navigation.js:60-64 | widening past 992 closes an open menu and every dropdown; narrower widths keep both; the `is-mobile` mark follows the 768 breakpoint (lines 471-477) |
| SiteNav.Navigation.HandleSwipe | js/navigation.js:422-430 | the menu and every dropdown close exactly when the menu is open and the swipe goes more than 50 pixels right; otherwise nothing changes |
| SiteNav.Navigation.OnTouchStart | js/navigation.js:412-414 | the touch start position is recorded |
| SiteNav.Navigation.OnTouchEnd | js/navigation.js:416-419 | the end of a touch applies the swipe rule to the recorded start position: a close also closes every dropdown, and otherwise the dropdowns are unchanged |
| SiteNav.Navigation.CloseAllLanguageDropdowns | js/navigation.js:120-124 | every dropdown is inactive and their number is unchanged |
| SiteNav.Navigation.ToggleLanguageDropdown | js/navigation.js:107-118 | the chosen dropdown flips, every other one is inactive, and at most one is active |
| SiteNav.Navigation.SetLanguage | js/navigation.js:126-142 | the language becomes current and stored; every language button shows it in capitals; every `[data-en]` element is translated; the title changes only for en and am |
| SiteNav.Navigation.UpdatePageContent | js/navigation.js:144-156 | every `[data-en]` element is translated to the language, then the title is updated |
| SiteNav.Navigation.UpdatePageTitle | js/navigation.js:158-167 | the title becomes the map's entry for en and am and is unchanged for any other code |
| SiteNav.Navigation.OnLanguageOptionClick | js/navigation.js:87-99 | the option's language is applied and stored, every dropdown closes, and an open menu closes only for widths up to 992 |
| SiteNav.Navigation.UpdateHeader | js/navigation.js:278-300 | `scrolled` holds exactly past 50 pixels; the header hides exactly when scrolling down past its own height with the menu closed; the last offset is updated |
| SiteNav.Navigation.OnScroll | js/navigation.js:302-309 | a scroll records the offset and applies the header rule when there is a header; without one the header state is unchanged |
| SiteNav.Navigation.DisableBodyScroll | js/navigation.js:247-254 | the current offset is recorded and the body is fixed at minus that offset |
| SiteNav.Navigation.EnableBodyScroll | js/navigation.js:238-245 | the body styles are cleared and the window returns to the recorded offset |
| SiteNav.Navigation.OnPanelClassMutation | js/navigation.js:257-269 | a class change on an active panel locks at once; on an inactive panel an unlock is scheduled |
| SiteNav.Navigation.OnUnlockTimer | js/navigation.js:263 | a scheduled unlock fires, unlocking the body and restoring the recorded offset |
| SiteNav.Navigation.MenuRoundTripRestoresScroll | js/navigation.js:235-270 | opening the menu, the observer's lock, any scroll offset reported while the body is fixed, closing, and the delayed unlock bring the offset back to its value before opening |
| SiteNav.Navigation.StaleUnlockAfterReopen | js/navigation.js:235-270 | the 50 ms unlock scheduled by a close fires after a reopen too, leaving the menu open and the body unlocked |
| SiteNav.Navigation.OnAnchorClick | js/navigation.js:315-344 | the default is prevented exactly by the anchor filter; then a target lookup that throws (always so for `#` plus a digit) leaves the menu as it was, and otherwise an open menu and every dropdown close, with a scroll when the target exists |
| SiteNav.Navigation.SetActiveNavLink | js/navigation.js:394-404 | each panel link becomes `ActivateLink` of its old state: hash links are active exactly for `#id` |
| RootNav.HandlesAnchorExactly | navigation.js:205-211 | `#id` is taken over exactly when `id` is non-empty and the target lookup finds an element; `#!` and `#` plus a digit pass the filter but are never taken over, since their lookup throws |
| RootNav.HandlesAnchor | navigation.js:205-211 | the filter plus the lookup: `#` plus at least one character, other than a bare `#`, whose lookup finds an element; characterised by `HandlesAnchorExactly` |
| RootNav.LastReached | navigation.js:285-291 | the chosen position is a reached section with no reached section after it, or -1 when none is reached |
| RootNav.CurrentSection | navigation.js:281-291 | the loop returns the id of the last section in document order whose top minus header height minus 100 is at or above the scroll offset, or "" |
| RootNav.ReachedId | navigation.js:282-291 | the id of the section `LastReached` chooses, or "" when none is reached; `CurrentSection` is proved to compute it |
| RootNav.LastReachedMonotone | navigation.js:285-291 | scrolling further down never moves the highlight to an earlier section |
| RootNav.Navigation.constructor | navigation.js:3-18 | a new controller has a closed menu and an unlocked body and shows the header's initial state |
| RootNav.Navigation.OpenMenu | navigation.js:72-83 | the menu is open and the panel, hamburger and body marks are set |
| RootNav.Navigation.CloseMenu | navigation.js:85-96 | the menu is closed and the three marks are cleared |
| RootNav.Navigation.ToggleMenu | navigation.js:64-70 | the open state flips, with the marks following |
| RootNav.Navigation.IsOpen | navigation.js:365-367 | returns whether the menu is open |
| RootNav.Navigation.OnHamburgerClick | navigation.js:27-30 | a hamburger click flips the menu when the menu is wired |
| RootNav.Navigation.OnNavLinkClick | navigation.js:33-37 | any panel link click closes the menu, at every width |
| RootNav.Navigation.OnDocumentClick | navigation.js:40-44 | a click outside the panel and the hamburger closes an open menu |
| RootNav.Navigation.OnKeyDown | navigation.js:47-51 | Escape closes an open menu; any other key changes nothing |
| RootNav.Navigation.OnResize | navigation.js:54-58 | widening past 992 closes an open menu; narrower widths keep it |
| RootNav.Navigation.OnTouchStart | navigation.js:326-328 | the touch start position is recorded |
| RootNav.Navigation.OnTouchMove | navigation.js:330-340 | while the menu is open, a finger more than 50 pixels right of its start closes it; otherwise nothing changes |
| RootNav.Navigation.UpdateHeader | navigation.js:166-185 | `scrolled` holds exactly past 50 pixels; the header hides exactly when scrolling down past 100 with the menu closed, and is then also `scrolled` |
| RootNav.Navigation.OnScroll | navigation.js:187-194 | a scroll records the offset and applies the header rule when there is a header |
| RootNav.Navigation.DisableBodyScroll | navigation.js:136-142 | the current offset is recorded and the body is fixed at minus that offset |
| RootNav.Navigation.EnableBodyScroll | navigation.js:128-134 | the body styles are cleared and the window returns to the recorded offset |
| RootNav.Navigation.OnPanelClassMutation | navigation.js:145-157 | a class change locks the body while the panel is active and unlocks it at once, back to the recorded offset, otherwise |
| RootNav.Navigation.MenuRoundTripRestoresScroll | navigation.js:124-158 | opening the menu, the observer's lock, any scroll offset reported while the body is fixed, closing, and the observer's unlock restore the offset from before opening |
| RootNav.Navigation.OnAnchorClick | navigation.js:200-226 | the default is prevented for every `#x` other than `#`; the click is taken over, closing an open menu, only when the target lookup finds an element (never for a lookup that throws or finds nothing) |
| RootNav.Navigation.SetActiveNavLink | navigation.js:308-318 | each panel link becomes `ActivateLink` of its old state: hash links are active exactly for `#id` |
| RootNav.Navigation.UpdateActiveNav | navigation.js:259-295 | the links are activated for the last reached section, measured from the header's height or 0; with none reached only bare `#` links are active; it requires a non-empty section list, as the fallback is installed only after line 259 finds a section |
| Language.Lookup | js/language-switcher.js:81 | a table entry is used exactly when both keys are present and the entry is non-empty |
| Language.ButtonFor | js/language-switcher.js:11-17 | a language button is active exactly when its `data-lang` is the chosen code |
| Language.FieldFor | js/language-switcher.js:29-38 | an input whose previous sibling has a non-empty `data-en` takes that sibling's en or am text (missing am gives "undefined"); other inputs and codes are untouched |
| Language.MenuTableShape | js/language-switcher.js:55-72 | both menu tables map exactly the six English labels, the English table to themselves, and no entry is empty |
| Language.MenuTranslation | js/language-switcher.js:81-83 | a translation exists exactly for en or am and one of the six labels; in English it is the label itself |
| Language.LinkForKeepsOriginal | js/language-switcher.js:75-79 | a switch caches the original label on the link, and a cached non-empty original is never replaced |
| Language.LinkForLabel | js/language-switcher.js:81-83 | a link shows the table entry for its original label, or keeps its text when there is none |
| Language.LinkFor | js/language-switcher.js:74-84 | one link after a switch; `LinkForKeepsOriginal`, `LinkForLabel`, `LinkForIdempotent` and `LinkForLastWins` state what it does |
| Language.LastSegmentIsSuffix | js/language-switcher.js:108 | the last path segment is a `/`-free suffix of the path, preceded by `/` unless it is the whole path |
| Language.LastSegment | js/language-switcher.js:108 | `split('/').pop()`; `LastSegmentIsSuffix` proves it is the `/`-free tail after the last `/` |
| Language.PageKeyOfPath | js/language-switcher.js:108 | the page key is never empty and holds no `/`; it is `index.html` when the path is empty or ends in `/`, and otherwise the `/`-free tail after the last `/`, which may itself be `index.html` |
| Language.PageKey | js/language-switcher.js:108 | the last segment or `index.html`; `PageKeyOfPath` characterises it |
| Language.TitleTableShape | js/language-switcher.js:89-106 | both title tables map exactly the six pages, and no title is empty |
| Language.PageTitle | js/language-switcher.js:110-112 | a title exists exactly for en or am and one of the six pages |
| Language.MetaDescription | js/language-switcher.js:117-123 | a description exists exactly for en and am |
| Language.TitleFor | js/language-switcher.js:110-112 | the title becomes the table's entry for the page key and is otherwise kept |
| Language.DescriptionFor | js/language-switcher.js:115-124 | the meta description exists after the switch exactly when it existed before, and is overwritten only for en and am |
| Language.InitialLanguage | js/language-switcher.js:128-135 | the starting language is en or am, and it is am exactly when am is stored |
| Language.LinkForIdempotent | js/language-switcher.js:74-84 | translating a menu link twice to one code is translating once |
| Language.LinkForLastWins | js/language-switcher.js:74-84 | after a translation to en or am, the link no longer depends on the earlier translation |
| Language.LinksForIdempotent | js/language-switcher.js:74-84 | the whole menu translated twice to one code is the menu translated once |
| Language.LinksForLastWins | js/language-switcher.js:74-84 | after a menu translation to en or am, the earlier translation no longer matters |
| Language.NodesForLastWins | js/language-switcher.js:20-26 | rewriting every `[data-en]` element twice to one code is once; after en or am the earlier rewrite no longer matters |
| Language.SwitchIdempotent | js/language-switcher.js:7-48 | switching twice to the same language leaves the page as switching once |
| Language.LastSwitchWins | js/language-switcher.js:7-48 | after a switch to en or am the page does not depend on the language shown before |
| Language.EnglishAmharicEnglish | js/language-switcher.js:7-48 | switching en, then am, then en again gives exactly the English page |
| Language.EnglishRestoresMenuLabels | js/language-switcher.js:74-84 | after a switch to en, each menu link whose original label is in the table shows that label again, and the others keep their text |
| Language.UnsupportedLanguageKeepsText | js/language-switcher.js:7-48 | a switch to a code other than en and am rewrites no element text, placeholder, menu label, title or description |
| Language.SwitchedPage | js/language-switcher.js:7-48 | the page after one switch; `SwitchLanguage` is proved to perform it, and `SwitchIdempotent`, `LastSwitchWins`, `EnglishAmharicEnglish` and `UnsupportedLanguageKeepsText` state its properties |
| Language.HelloHeading | js/language-switcher.js:20-26 | a heading with `data-en` "Hello" and `data-am` "ሰላም" reads "ሰላም" after a switch to am and "Hello" after switching back |
| Language.MarkButtons | js/language-switcher.js:11-17 | the button loop keeps each `data-lang` and marks exactly the buttons whose `data-lang` is the code |
| Language.TranslateNodes | js/language-switcher.js:20-26 | the element loop translates every `[data-en]` element and keeps their number |
| Language.UpdatePlaceholders | js/language-switcher.js:29-38 | the input loop gives every field the placeholder `FieldFor` prescribes |
| Language.UpdateNavigationMenu | js/language-switcher.js:51-85 | the menu loop caches each original label and shows its translation, as `LinksFor` prescribes |
| Language.UpdatePageMetadata | js/language-switcher.js:88-125 | the new title and description are those `TitleFor` and `DescriptionFor` prescribe for the page's path |
| Language.Switcher.constructor | js/language-switcher.js:138-147 | on a page with language buttons, start-up applies the validated stored language; on a page without any, nothing changes |
| Language.Switcher.GetCurrentLanguage | js/language-switcher.js:151-153 | returns the current language |
| Language.Switcher.InitializeLanguage | js/language-switcher.js:128-135 | start-up performs one switch to the validated stored language, leaving en or am current |
| Language.Switcher.OnButtonClick | js/language-switcher.js:139-143 | a click on a language button switches to its `data-lang`, and that button is then active |
| Language.Switcher.SwitchLanguage | js/language-switcher.js:7-48 | the page after the switch is `SwitchedPage` of the page before, with the choice under `preferredLanguage` |

## Left out

- Menu animations: the staggered entry and exit (`animateMenuItems`) are style-only timers.
- `CustomEvent` notifications (`dispatchEvent`): nothing on the site listens to them. In js/navigation.js their detail holds the controller, a timestamp, an `isMobile` flag for widths up to 992 and the caller's fields (`language` for `languageChange`); in navigation.js it holds only the controller and a timestamp.
- Scroll offsets (`scrollY`, `pageYOffset`) and touch coordinates (`screenX`, `clientX`) are doubles in the DOM; the model takes them as whole pixels (`int`), so fractional offsets such as a swipe ending 50.5 pixels to the right are outside its domain. Element offsets, heights and window widths are integers in the DOM as well as in the model.
- Smooth scrolling: `scrollToSection`, `smoothScrollTo`, `easeOutCubic` and `easeInOutCubic` are floating point and frame timed. The model keeps only which clicks are taken over and the menu closing.
- The IntersectionObserver path of the active-link highlight: the browser decides when a section intersects. Its callback is `SetActiveNavLink`, which is modelled.
- Frame throttling with `requestAnimationFrame` and the `ticking` flags: `OnScroll` is the frame callback running after the scroll.
- Listener registration, element queries and the composition of several listeners on one click: each listener is its own method. For example, on a `.lang-option` inside the panel, the option listener and the link listener can both run.
- SiteNav.Navigation.ToggleLanguageDropdown: requires the clicked button's next sibling to be one of the `.lang-dropdown`s. With no sibling the script throws a TypeError, and a sibling of another kind would get an `active` mark that `closeAllLanguageDropdowns` never clears; neither case is represented.
- The panel's class-change observer is the separate method `OnPanelClassMutation`, which the caller invokes after a class change. The model does not sequence it automatically. Per the DOM's rules, `classList.remove` re-sets the `class` attribute even when nothing is removed, so `closeMenu` on a closed menu (for example every panel link click in the root-level variant) is also followed by the observer's unlock and its `scrollTo`.
- The first `updateActiveNav()` that the root-level constructor runs on the scroll fallback, when IntersectionObserver is missing: the constructor leaves the links as given, and `UpdateActiveNav` is that call for the caller to make.
- The outcome of `document.querySelector(href)` in both anchor handlers is a parameter (`Query`). The model states only that it throws for the hrefs `RejectedIdSelector` names. Which other hrefs parse as selectors, and which of them match an element, depends on the page and on CSS syntax that is not modelled.
- `open()` and `close()` of either controller when the menu elements are missing: the script then fails with a TypeError. The model requires the elements (`menuWired`).
- A `.lang-option` or `.language-btn` without `data-lang`: the language is then null or undefined. The model takes the code as a string.
- Case mapping and trimming are modelled for ASCII letters and the common white-space characters only.
- The `console.error` report when the menu elements are missing: the menu is then simply not wired.
- Overlapping element groups: elements matched by more than one of the switcher's selectors, such as a nav link that also carries `data-en`, are modelled as separate.
- JavaScript prototype keys such as `constructor` in the lookup tables: lookups consider only the table's own entries.
- The scripts under js/ for animations, the contact form and main wiring are not part of this model: they hold observer and timer animation, network I/O and initialiser wiring only.
- Browser storage persistence: each script's store is the value under its one key, `preferred-language` for js/navigation.js and `preferredLanguage` for js/language-switcher.js. Neither script touches another key.
