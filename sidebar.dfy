/**
 * The navigation drawer (app/src/components/Sidebar.tsx): its two lists of
 * links and the decision `handleItemClick` makes when one of them is clicked.
 *
 * Every click first closes the menu. A link to a section of the home page
 * (an href starting with "/#", or the home route with a section id) is
 * intercepted: away from the home page it navigates to "/#<id>"; on the home
 * page it scrolls to the element with that id, if there is one. Any other link
 * is left to the router.
 */
module Sidebar {
  import opened Common
  import Home

  /** An entry of the drawer; `sectionId` is the optional property of the source's item objects. */
  datatype MenuItem = MenuItem(name: string, href: string, sectionId: Option<string>)

  /** The main entries. */
  const MenuItems: seq<MenuItem> := [
    MenuItem("OUR STORY", "/", Some("our-story")),
    MenuItem("THE BEGINNING", "/beginning", None),
    MenuItem("THE JOURNEY", "/journey", None),
    MenuItem("THE PROMISE", "/promises", None),
    MenuItem("FOREVER", "/forever", None)
  ]

  /** The secondary ("EXPLORE") entries. */
  const SecondaryItems: seq<MenuItem> := [
    MenuItem("GALLERY", "/gallery", None),
    MenuItem("MOMENTS", "/moments", None),
    MenuItem("CONTACT", "/#contact", None)
  ]

  /** What the click ends up doing besides closing the menu. */
  datatype Action =
    | FollowLink(to: string)   // the default: the router follows the link's href
    | Navigate(to: string)     // `navigate(path)`
    | ScrollTo(id: string)     // `scrollIntoView` on the element with that id
    | Nothing                  // intercepted, but no element with that id exists

  /** The effects of one click. */
  datatype ClickEffect = ClickEffect(closesMenu: bool, preventsDefault: bool, action: Action)

  /** `item.href.startsWith('/#') || (item.href === '/' && item.sectionId)`. */
  predicate Intercepts(item: MenuItem) {
    "/#" <= item.href || (item.href == "/" && Truthy(item.sectionId))
  }

  /** The index of the first '#' in `s` (`s.indexOf('#')`), or `|s|` when there is none. */
  function HashIndex(s: string): (k: nat)
    ensures k <= |s|
    ensures k < |s| ==> s[k] == '#'
    ensures forall i :: 0 <= i < k ==> s[i] != '#'
  {
    if s == [] then 0 else if s[0] == '#' then 0 else 1 + HashIndex(s[1..])
  }

  /** `s.split('#')[1]`: the text between the first and the second '#'. */
  function SecondHashField(s: string): (r: string)
    requires '#' in s
    ensures '#' !in r
  {
    var k := HashIndex(s);
    var tail := s[k + 1..];
    tail[..HashIndex(tail)]
  }

  /** `item.sectionId || item.href.split('#')[1]`; only evaluated for intercepted items. */
  function SectionIdOf(item: MenuItem): string
    requires Intercepts(item)
  {
    if Truthy(item.sectionId) then item.sectionId.value
    else
      assert item.href[1] == '#';
      SecondHashField(item.href)
  }

  /** `'/' + (sectionId ? '#' + sectionId : '')`. */
  function SectionPath(id: string): (r: string)
    ensures |r| >= 1 && r[0] == '/'
    ensures id == "" <==> r == "/"
  {
    "/" + (if id != "" then "#" + id else "")
  }

  /** `document.getElementById(id)` found something: ids are non-empty, and the page is a parameter. */
  predicate OnPage(id: string, pageIds: set<string>) {
    id != "" && id in pageIds
  }

  /**
   * `handleItemClick(e, item)` with the router at `pathname` and a page whose
   * elements carry the ids `pageIds`.
   */
  function HandleItemClick(item: MenuItem, pathname: string, pageIds: set<string>): (r: ClickEffect)
    ensures r.closesMenu
    ensures r.preventsDefault <==> Intercepts(item)
    ensures r.action.FollowLink? <==> !Intercepts(item)
    ensures r.action.FollowLink? ==> r.action.to == item.href
    ensures r.action.Navigate? <==> Intercepts(item) && pathname != "/"
    ensures r.action.Navigate? ==> r.action.to == SectionPath(SectionIdOf(item))
    ensures r.action.ScrollTo? <==> Intercepts(item) && pathname == "/" && OnPage(SectionIdOf(item), pageIds)
    ensures r.action.ScrollTo? ==> r.action.id == SectionIdOf(item)
  {
    if !Intercepts(item) then ClickEffect(true, false, FollowLink(item.href))
    else
      var id := SectionIdOf(item);
      if pathname != "/" then ClickEffect(true, true, Navigate(SectionPath(id)))
      else if OnPage(id, pageIds) then ClickEffect(true, true, ScrollTo(id))
      else ClickEffect(true, true, Nothing)
  }

  /** The section a "/#…" path points at, read back the way the browser reads a URL's fragment. */
  function FragmentOf(path: string): string {
    var k := HashIndex(path);
    if k < |path| then path[k + 1..] else ""
  }

  /** Navigating to a section's path lands on the home route with that section as the fragment. */
  lemma SectionPathRoundTrip(id: string)
    ensures FragmentOf(SectionPath(id)) == id
    ensures SectionPath(id)[..HashIndex(SectionPath(id))] == "/"
  {
    var p := SectionPath(id);
    if id == "" {
      assert p == "/";
    } else {
      assert p == "/#" + id;
      assert p[0] == '/' && p[1] == '#';
      assert HashIndex(p[1..]) == 0;
      assert HashIndex(p) == 1;
      assert p[2..] == id;
    }
  }

  /** The text after a leading "/#" is read as the section id, up to any further '#'. */
  lemma HashFieldOfSectionHref(id: string)
    requires '#' !in id
    ensures SecondHashField("/#" + id) == id
  {
    var s := "/#" + id;
    assert s[0] == '/' && s[1] == '#';
    assert HashIndex(s[1..]) == 0;
    assert HashIndex(s) == 1;
    assert s[2..] == id;
    HashIndexNone(id);
  }

  /** The first '#' of `p + t`, for a `p` without '#', is the first '#' of `t`, shifted. */
  lemma {:induction false} HashIndexAppend(p: string, t: string)
    requires '#' !in p
    ensures HashIndex(p + t) == |p| + HashIndex(t)
    decreases |p|
  {
    if p == [] {
      assert p + t == t;
    } else {
      assert (p + t)[0] == p[0] && (p + t)[1..] == p[1..] + t;
      HashIndexAppend(p[1..], t);
    }
  }

  /** `split('#')[1]` is the text between the first and the second '#' (or the end). */
  lemma SecondHashFieldIsBetweenHashes(p: string, id: string, rest: string)
    requires '#' !in p && '#' !in id
    requires rest == [] || rest[0] == '#'
    ensures SecondHashField(p + ("#" + (id + rest))) == id
  {
    var s := p + ("#" + (id + rest));
    HashIndexAppend(p, "#" + (id + rest));
    assert HashIndex("#" + (id + rest)) == 0;
    assert s[|p| + 1..] == id + rest;
    HashIndexAppend(id, rest);
    assert HashIndex(rest) == 0;
    assert (id + rest)[..|id|] == id;
  }

  /** Without a '#', the first '#' is "at the end". */
  lemma HashIndexNone(s: string)
    requires '#' !in s
    ensures HashIndex(s) == |s|
  {
  }

  /** "OUR STORY": away from home it navigates to "/#our-story"; at home it scrolls to that section. */
  lemma OurStoryClick(pathname: string)
    ensures var r := HandleItemClick(MenuItems[0], pathname, Home.SectionIds);
      r.preventsDefault &&
      r.action == (if pathname == "/" then ScrollTo("our-story") else Navigate("/#our-story"))
  {
  }

  /** The route entries are left to the router and name no section. */
  lemma RouteItemsFollowLinks(pathname: string, pageIds: set<string>)
    ensures forall i :: 1 <= i < |MenuItems| ==>
      HandleItemClick(MenuItems[i], pathname, pageIds) == ClickEffect(true, false, FollowLink(MenuItems[i].href))
    ensures forall i :: 0 <= i < 2 ==>
      HandleItemClick(SecondaryItems[i], pathname, pageIds) == ClickEffect(true, false, FollowLink(SecondaryItems[i].href))
  {
    forall i | 1 <= i < |MenuItems|
      ensures !Intercepts(MenuItems[i])
    {
      assert MenuItems[i].href[1] != '#';
    }
    forall i | 0 <= i < 2
      ensures !Intercepts(SecondaryItems[i])
    {
      assert SecondaryItems[i].href[1] != '#';
    }
  }

  /** "CONTACT" resolves to the section id "contact". */
  lemma ContactSectionId()
    ensures Intercepts(SecondaryItems[2]) && SectionIdOf(SecondaryItems[2]) == "contact"
  {
    assert SecondaryItems[2].href == "/#" + "contact";
    HashFieldOfSectionHref("contact");
  }

  /**
   * Away from home "CONTACT" navigates to "/#contact"; on the home page, which
   * has no section with that id, the click is intercepted and nothing else happens.
   */
  lemma ContactClick(pathname: string)
    ensures var r := HandleItemClick(SecondaryItems[2], pathname, Home.SectionIds);
      r.preventsDefault &&
      r.action == (if pathname == "/" then Nothing else Navigate("/#contact"))
  {
    ContactSectionId();
    ContactNotAHomeSection();
    assert SectionPath("contact") == "/#contact";
  }

  /** None of the home page's sections has the id "contact". */
  lemma ContactNotAHomeSection()
    ensures "contact" !in Home.SectionIds
  {
    var c := "contact";
    assert c != "gallery" by { assert c[0] != "gallery"[0]; }
    assert c != "forever" by { assert c[0] != "forever"[0]; }
    assert |c| != |"our-story"| && |c| != |"the-beginning"| && |c| != |"the-journey"| && |c| != |"the-promise"|;
  }
}
