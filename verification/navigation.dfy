/** The navigation bar: which section is highlighted as the page scrolls, and
    the open/closed state of the mobile menu. The document is given as a map
    from element id to the element's bounding rectangle; an id that is not a
    key has no element. */
module Navigation {
  import opened Wrappers

  /** The section ids, in page order. */
  const Sections: seq<string> := ["hero", "tech-stack", "experience", "learning", "qa", "projects", "contact"]

  /** The viewport line, in pixels from the top, that marks the active section. */
  const ActivationLine := 100

  /** The vertical extent of an element's bounding rectangle. */
  datatype Rect = Rect(top: int, bottom: int)

  predicate Straddles(r: Rect)
  {
    r.top <= ActivationLine && r.bottom >= ActivationLine
  }

  /** The element with this id exists and straddles the activation line. */
  predicate Hit(dom: map<string, Rect>, id: string): (hit: bool)
    ensures hit <==> id in dom && dom[id].top <= ActivationLine <= dom[id].bottom
  {
    id in dom && Straddles(dom[id])
  }

  /** Position of the first id, in list order, that is a hit. */
  function FirstHit(ids: seq<string>, dom: map<string, Rect>): (r: Option<nat>)
    ensures r.Some? ==> r.value < |ids| && Hit(dom, ids[r.value])
    ensures r.Some? ==> forall j :: 0 <= j < r.value ==> !Hit(dom, ids[j])
    ensures r.None? <==> forall j :: 0 <= j < |ids| ==> !Hit(dom, ids[j])
  {
    if ids == [] then None
    else if Hit(dom, ids[0]) then Some(0)
    else match FirstHit(ids[1..], dom)
      case None => None
      case Some(k) => Some(k + 1)
  }

  /** Only the sections up to and including the first hit matter: any page
      that agrees with `dom` on those gives the same answer. */
  lemma FirstHitIgnoresLaterSections(ids: seq<string>, dom: map<string, Rect>, dom': map<string, Rect>, i: nat)
    requires FirstHit(ids, dom) == Some(i)
    requires forall j :: 0 <= j <= i ==> Hit(dom, ids[j]) == Hit(dom', ids[j])
    ensures FirstHit(ids, dom') == Some(i)
  {
  }

  class Navigation {
    var isOpen: bool
    var activeSection: string

    ghost predicate Valid()
      reads this
    {
      activeSection in Sections
    }

    /** The home section is active and the mobile menu is closed. */
    constructor ()
      ensures Valid()
      ensures activeSection == "hero" && !isOpen
    {
      isOpen := false;
      activeSection := "hero";
    }

    /** The scroll handler: the first section, in list order, whose element
        exists and straddles the line becomes active; when none does, the
        active section stays as it was. */
    method HandleScroll(dom: map<string, Rect>)
      requires Valid()
      modifies this`activeSection
      ensures Valid()
      ensures match FirstHit(Sections, dom)
              case Some(i) => activeSection == Sections[i]
              case None => activeSection == old(activeSection)
    {
      var index := 0;
      while index < |Sections|
        invariant 0 <= index <= |Sections|
        invariant forall j :: 0 <= j < index ==> !Hit(dom, Sections[j])
        invariant activeSection == old(activeSection)
      {
        var id := Sections[index];
        if id in dom {
          var rect := dom[id];
          if rect.top <= ActivationLine && rect.bottom >= ActivationLine {
            activeSection := id;
            break;
          }
        }
        index := index + 1;
      }
    }

    /** A menu entry or the logo: scroll to the section and close the menu,
        but only when its element exists. */
    method ScrollToSection(id: string, dom: map<string, Rect>)
      modifies this`isOpen
      ensures isOpen == if id in dom then false else old(isOpen)
    {
      if id in dom {
        isOpen := false;
      }
    }

    /** The mobile menu button. */
    method ToggleMenu()
      modifies this`isOpen
      ensures isOpen == !old(isOpen)
    {
      isOpen := !isOpen;
    }
  }
}
