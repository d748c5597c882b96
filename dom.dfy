/** Vocabulary shared by the page scripts: optional values, the two string
    operations the scripts call (`toUpperCase`, `trim`), and the element
    records that more than one script rewrites. The DOM itself is not
    modelled; each element is a record of the attributes a script reads
    and the properties it writes. */
module Dom {

  datatype Option<T> = None | Some(value: T)

  /** `reference == null ? "" : reference`: what `textContent` becomes when it
      is assigned an attribute value that may be missing (null and
      undefined both clear the text). */
  function AttrText(a: Option<string>): string
  {
    if a.Some? then a.value else ""
  }

  // ---------------------------------------------------------------------
  // String.prototype.toUpperCase, restricted to ASCII letters

  function UpperChar(c: char): char
  {
    if 'a' <= c <= 'z' then (c as int - 32) as char else c
  }

  function ToUpper(s: string): (r: string)
    ensures |r| == |s|
    ensures forall k :: 0 <= k < |s| ==> r[k] == UpperChar(s[k])
    ensures forall k :: 0 <= k < |s| ==> !('a' <= r[k] <= 'z')
  {
    seq(|s|, k requires 0 <= k < |s| => UpperChar(s[k]))
  }

  // ---------------------------------------------------------------------
  // String.prototype.trim

  /** The white-space characters `trim` removes that a menu label can
      plausibly carry (ASCII white space, no-break space, byte-order mark). */
  predicate IsSpace(c: char)
  {
    c == ' ' || c == '\t' || c == '\n' || c == '\r' ||
    c == '\U{000B}' || c == '\U{000C}' || c == '\U{00A0}' || c == '\U{FEFF}'
  }

  function TrimStart(s: string): (r: string)
    ensures |r| <= |s| && r == s[|s| - |r|..]
    ensures forall k :: 0 <= k < |s| - |r| ==> IsSpace(s[k])
    ensures r == [] || !IsSpace(r[0])
  {
    if s != [] && IsSpace(s[0]) then TrimStart(s[1..]) else s
  }

  function TrimEnd(s: string): (r: string)
    ensures |r| <= |s| && r == s[..|r|]
    ensures forall k :: |r| <= k < |s| ==> IsSpace(s[k])
    ensures r == [] || !IsSpace(r[|r| - 1])
  {
    if s != [] && IsSpace(s[|s| - 1]) then TrimEnd(s[..|s| - 1]) else s
  }

  /** `s.trim()`: `s` without its leading and trailing white space. */
  function Trim(s: string): (r: string)
    ensures |r| <= |s|
    ensures r == [] || (!IsSpace(r[0]) && !IsSpace(r[|r| - 1]))
    ensures exists lo ::
              0 <= lo <= |s| - |r| && r == s[lo..][..|r|] &&
              (forall k :: 0 <= k < lo ==> IsSpace(s[k])) &&
              (forall k :: lo + |r| <= k < |s| ==> IsSpace(s[k]))
  {
    var t := TrimStart(s);
    var r := TrimEnd(t);
    var lo := |s| - |t|;
    assert r == s[lo..][..|r|];
    r
  }

  lemma TrimFixesTrimmed(s: string)
    requires s == [] || (!IsSpace(s[0]) && !IsSpace(s[|s| - 1]))
    ensures Trim(s) == s
  {
  }

  // ---------------------------------------------------------------------
  // Translatable text nodes: elements selected by `[data-en]`

  /** An element carrying `data-en` (always present: it is how the element is
      selected) and `data-am` (possibly missing), and its current text. */
  datatype TransNode = TransNode(text: string, dataEn: string, dataAm: Option<string>)

  /** The text update both scripts apply to a `[data-en]` element when the
      language becomes `lang`: English text for "en", Amharic text for "am"
      (cleared when the element has no `data-am`), no change otherwise. */
  function TranslateNode(n: TransNode, lang: string): (r: TransNode)
    ensures r.dataEn == n.dataEn && r.dataAm == n.dataAm
    ensures lang == "en" ==> r.text == n.dataEn
    ensures lang == "am" ==> r.text == AttrText(n.dataAm)
    ensures lang != "en" && lang != "am" ==> r == n
  {
    if lang == "en" then n.(text := n.dataEn)
    else if lang == "am" then n.(text := AttrText(n.dataAm))
    else n
  }

  /** Translating twice to the same language is translating once, and for a
      supported target the last translation alone decides the text. */
  lemma TranslateNodeLastWins(n: TransNode, first: string, lang: string)
    ensures TranslateNode(TranslateNode(n, lang), lang) == TranslateNode(n, lang)
    ensures lang == "en" || lang == "am" ==>
      TranslateNode(TranslateNode(n, first), lang) == TranslateNode(n, lang)
  {
  }

  // ---------------------------------------------------------------------
  // document.querySelector on an anchor's href

  /** What `document.querySelector(selector)` does: throw a SyntaxError for
      text that is not a selector, or return no element, or an element. */
  datatype Query = Throws | NoMatch | Match

  /** A character that can begin a CSS identifier (or an escape, or the
      `-` of one); anything else cannot follow the `#` of an id selector.
      NUL counts, since CSS input preprocessing replaces it by U+FFFD. */
  predicate IdentStart(c: char)
  {
    'a' <= c <= 'z' || 'A' <= c <= 'Z' || c == '_' || c == '-' || c == '\\' ||
    c == '\0' || c as int >= 0x80
  }

  /** Hrefs that cannot be parsed as a selector beginning with an id: `#`
      alone, or `#` followed by a character that cannot start an
      identifier, such as a digit or `!`. For these, `querySelector`
      always throws; for any other href its outcome depends on the page. */
  predicate RejectedIdSelector(href: string)
  {
    |href| > 0 && href[0] == '#' && (|href| == 1 || !IdentStart(href[1]))
  }

  /** The lookup a browser can report for `href`: a rejected selector
      throws. */
  predicate ConsistentLookup(href: string, q: Query)
  {
    RejectedIdSelector(href) ==> q == Throws
  }

  // ---------------------------------------------------------------------
  // Navigation links and the active-section highlight

  datatype NavLink = NavLink(href: string, active: bool)

  /** The links `setActiveNavLink` visits: those matching `a[href^="#"]`. */
  predicate IsHashLink(href: string)
  {
    |href| > 0 && href[0] == '#'
  }

  /** The effect of `setActiveNavLink(sectionId)` on one link of the nav
      panel: a hash link is active exactly when its href is `#sectionId`;
      any other link is not visited and keeps its state. */
  function ActivateLink(l: NavLink, sectionId: string): (r: NavLink)
    ensures r.href == l.href
    ensures IsHashLink(l.href) ==> (r.active <==> l.href == "#" + sectionId)
    ensures !IsHashLink(l.href) ==> r == l
  {
    if IsHashLink(l.href) then l.(active := l.href == "#" + sectionId) else l
  }

  /** Two sections with different ids never highlight the same hash link,
      and the empty id (nothing found) highlights only bare `#` links. */
  lemma ActivateLinkDistinct(l: NavLink, id1: string, id2: string)
    requires IsHashLink(l.href) && id1 != id2
    ensures !(ActivateLink(l, id1).active && ActivateLink(l, id2).active)
    ensures ActivateLink(l, "").active <==> l.href == "#"
  {
    assert ("#" + id1)[1..] == id1 && ("#" + id2)[1..] == id2;
    assert "#" + "" == "#";
  }
}
