/**
 * The site header's navigation state: the "scrolled" flag, the section
 * highlighted in the navigation, and the mobile menu.
 */
module Header {
  import opened Wrappers

  /** Past this many pixels of vertical scroll the header is drawn elevated. */
  const ScrollThreshold := 50

  /** The line, in pixels from the top of the viewport, a section must straddle to be active. */
  const ReferenceLine := 100

  /** The section identifiers the scroll handler tries, in this order. */
  const Sections: seq<string> := ["home", "about", "projects", "skills", "contact"]

  datatype NavLink = NavLink(name: string, section: string)

  const NavLinks: seq<NavLink> := [
    NavLink("Home", "home"),
    NavLink("About", "about"),
    NavLink("Projects", "projects"),
    NavLink("Skills", "skills"),
    NavLink("Contact", "contact")
  ]

  /** The targets of a list of navigation links, in order. */
  function Targets(links: seq<NavLink>): (r: seq<string>)
    ensures |r| == |links|
    ensures forall i :: 0 <= i < |links| ==> r[i] == links[i].section
  {
    if links == [] then [] else [links[0].section] + Targets(links[1..])
  }

  /** A section's box, in whole pixels relative to the viewport. */
  datatype Rect = Rect(top: int, bottom: int)

  /** The page as the scroll handler sees it: the identifiers that resolve to an element, with their boxes. */
  type Page = map<string, Rect>

  predicate IsScrolled(scrollY: int)
  {
    scrollY > ScrollThreshold
  }

  predicate Straddles(r: Rect)
    ensures Straddles(r) ==> r.top <= r.bottom
  {
    r.top <= ReferenceLine && r.bottom >= ReferenceLine
  }

  /** Section `id` is on the page and its box straddles the reference line. */
  predicate Hit(page: Page, id: string)
  {
    id in page && Straddles(page[id])
  }

  /** The position of the first identifier in `ids` that is a hit, if any. */
  function FirstHit(ids: seq<string>, page: Page): (r: Option<nat>)
    ensures r.Some? ==> r.value < |ids| && Hit(page, ids[r.value])
    ensures r.Some? ==> forall j :: 0 <= j < r.value ==> !Hit(page, ids[j])
    ensures r.None? <==> forall j :: 0 <= j < |ids| ==> !Hit(page, ids[j])
  {
    if ids == [] then None
    else if Hit(page, ids[0]) then Some(0)
    else match FirstHit(ids[1..], page)
      case Some(i) => Some(i + 1)
      case None => None
  }

  /** The active section a scroll event leaves behind, given the one before it. */
  function ActiveAfterScroll(page: Page, previous: string): (r: string)
    ensures r in Sections || r == previous
    ensures forall j :: 0 <= j < |Sections| && Hit(page, Sections[j]) ==>
      exists i :: 0 <= i <= j && r == Sections[i] && Hit(page, Sections[i])
        && forall k :: 0 <= k < i ==> !Hit(page, Sections[k])
    ensures (forall j :: 0 <= j < |Sections| ==> !Hit(page, Sections[j])) ==> r == previous
  {
    match FirstHit(Sections, page)
    case Some(i) => Sections[i]
    case None => previous
  }

  /** The navigation links point at exactly the sections the scroll handler tries, in the same order. */
  lemma NavTargetsAreSections()
    ensures Targets(NavLinks) == Sections
  {
  }

  /**
   * When "about" straddles the line and "home" does not, a scroll event makes
   * "about" active whatever was active before.
   */
  lemma AboutBecomesActive(page: Page, previous: string)
    requires Hit(page, "about") && !Hit(page, "home")
    ensures ActiveAfterScroll(page, previous) == "about"
  {
    assert Sections[1] == "about" && Sections[0] == "home";
  }

  /** Without any straddling section the active section stays what it was. */
  lemma NoHitKeepsActive(page: Page, previous: string)
    requires forall j :: 0 <= j < |Sections| ==> !Hit(page, Sections[j])
    ensures ActiveAfterScroll(page, previous) == previous
  {
  }

  /** The component's state: `isOpen`, `scrolled`, `activeSection`. */
  class NavHeader {
    var isOpen: bool
    var scrolled: bool
    var activeSection: string

    /** The active section is always one of the five identifiers. */
    ghost predicate Valid()
      reads this
    {
      activeSection in Sections
    }

    constructor ()
      ensures Valid()
      ensures !isOpen && !scrolled && activeSection == "home"
    {
      isOpen := false;
      scrolled := false;
      activeSection := "home";
    }

    /**
     * `handleScroll`: sets `scrolled` from the offset, then walks the
     * sections in order and makes the first one that straddles the reference
     * line active; if none does, the active section is kept. The menu is
     * left alone.
     */
    method HandleScroll(scrollY: int, page: Page)
      requires Valid()
      modifies this`scrolled, this`activeSection
      ensures Valid()
      ensures scrolled == IsScrolled(scrollY)
      ensures activeSection == ActiveAfterScroll(page, old(activeSection))
      ensures isOpen == old(isOpen)
    {
      scrolled := scrollY > ScrollThreshold;
      var sections := Sections;
      for i := 0 to |sections|
        invariant activeSection == old(activeSection)
        invariant forall j :: 0 <= j < i ==> !Hit(page, sections[j])
      {
        var section := sections[i];
        if section in page {
          var rect := page[section];
          if rect.top <= ReferenceLine && rect.bottom >= ReferenceLine {
            activeSection := section;
            assert FirstHit(Sections, page) == Some(i);
            break;
          }
        }
      }
    }

    /** `handleNavClick`: closes the menu and makes the clicked link's section active. */
    method HandleNavClick(section: string)
      requires Valid()
      requires section in Targets(NavLinks)
      modifies this`isOpen, this`activeSection
      ensures Valid()
      ensures !isOpen && activeSection == section
      ensures scrolled == old(scrolled)
    {
      NavTargetsAreSections();
      isOpen := false;
      activeSection := section;
    }

    /** The menu button: flips `isOpen` and nothing else. */
    method ToggleMenu()
      requires Valid()
      modifies this`isOpen
      ensures Valid()
      ensures isOpen == !old(isOpen)
      ensures scrolled == old(scrolled) && activeSection == old(activeSection)
    {
      isOpen := !isOpen;
    }
  }
}
