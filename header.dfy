/**
 * The site header (src/app/components/Header.tsx): the scroll handler that
 * slides the header out of view while the page scrolls down and back in when it
 * scrolls up or nears the top, and the open/closed state of the mobile menu.
 *
 * The animation library's `y` offset is kept as a number (`offsetY`), the scroll
 * position arrives as the event's argument, and `scrollIntoView` and the resume
 * download are the outside world: `ScrollToSection` returns the section to
 * bring into view and the Resume buttons return the file to download.
 */
module Header {

  /** Above this scroll position the header may hide. */
  const RevealZone: int := 100
  /** The header's `y` while hidden and while shown. */
  const HiddenOffset: int := -100
  const ShownOffset: int := 0

  /** What one scroll event does to the header. */
  datatype ScrollAction = Hide | Show | Keep

  /**
   * The branch `handleScroll` takes: hide when the page moved down and is past
   * the reveal zone; show when it moved up or is inside the zone; otherwise
   * (same position, past the zone) leave the header as it is.
   */
  function ScrollDecision(last: int, current: int): (action: ScrollAction)
    ensures action == Hide <==> current > last && current > RevealZone
    ensures action == Show <==> current < last || current <= RevealZone
    ensures action == Keep <==> current == last && current > RevealZone
  {
    if current > last && current > RevealZone then Hide
    else if current < last || current <= RevealZone then Show
    else Keep
  }

  /** The offset after an action. */
  function OffsetAfter(action: ScrollAction, offset: int): int {
    match action
    case Hide => HiddenOffset
    case Show => ShownOffset
    case Keep => offset
  }

  predicate IsHiddenOrShown(offset: int) {
    offset == HiddenOffset || offset == ShownOffset
  }

  /** What the header remembers between scroll events. */
  datatype ScrollState = ScrollState(lastScrollY: int, offsetY: int)

  /** One scroll event at position `current`. */
  function Scroll(s: ScrollState, current: int): ScrollState {
    ScrollState(current, OffsetAfter(ScrollDecision(s.lastScrollY, current), s.offsetY))
  }

  /** A run of scroll events, in order. */
  function ScrollThrough(s: ScrollState, positions: seq<int>): ScrollState {
    if positions == [] then s
    else Scroll(ScrollThrough(s, positions[..|positions| - 1]), positions[|positions| - 1])
  }

  /** After any run of events the header remembers the last position it saw. */
  lemma RemembersLastPosition(s: ScrollState, positions: seq<int>)
    requires positions != []
    ensures ScrollThrough(s, positions).lastScrollY == positions[|positions| - 1]
  {
  }

  /** The header is only ever fully hidden or fully shown. */
  lemma {:induction false} StaysHiddenOrShown(s: ScrollState, positions: seq<int>)
    requires IsHiddenOrShown(s.offsetY)
    ensures IsHiddenOrShown(ScrollThrough(s, positions).offsetY)
  {
    if positions != [] {
      StaysHiddenOrShown(s, positions[..|positions| - 1]);
    }
  }

  /**
   * The last event decides whenever it moves the page or lands in the reveal
   * zone: down past the zone hides, up or into the zone shows, whatever came
   * before.
   */
  lemma LastMoveDecides(s: ScrollState, positions: seq<int>)
    requires |positions| >= 2
    ensures var previous, current := positions[|positions| - 2], positions[|positions| - 1];
            var offset := ScrollThrough(s, positions).offsetY;
            && (current > previous && current > RevealZone ==> offset == HiddenOffset)
            && (current < previous || current <= RevealZone ==> offset == ShownOffset)
  {
    var n := |positions|;
    assert positions[..n - 1][..n - 2] == positions[..n - 2];
    RemembersLastPosition(s, positions[..n - 1]);
  }

  /**
   * Repeated events at the position already seen, past the reveal zone, leave
   * the header as it was.
   */
  lemma {:induction false} HoveringKeepsHeader(s: ScrollState, positions: seq<int>)
    requires s.lastScrollY > RevealZone
    requires forall i :: 0 <= i < |positions| ==> positions[i] == s.lastScrollY
    ensures ScrollThrough(s, positions) == s
  {
    if positions != [] {
      HoveringKeepsHeader(s, positions[..|positions| - 1]);
    }
  }

  /** The parts of the page the navigation links scroll to. */
  datatype Section = Home | About | TechStack | Projects | Contact

  /** What the Resume buttons download. */
  datatype Download = Download(href: string, fileName: string)

  const Resume := Download("/resume.pdf", "Ayushmaan_Resume.pdf")

  /** The header's state: the scroll position it last saw, its offset and the mobile menu flag. */
  class Header {
    var lastScrollY: int
    var offsetY: int
    var isMenuOpen: bool

    constructor()
      ensures lastScrollY == 0 && offsetY == ShownOffset && !isMenuOpen
    {
      lastScrollY := 0;
      offsetY := ShownOffset;
      isMenuOpen := false;
    }

    /** The scroll state as a value. */
    function State(): ScrollState
      reads this
    {
      ScrollState(lastScrollY, offsetY)
    }

    /** `handleScroll`: hide, show or keep the header, then remember `currentScrollY`. */
    method HandleScroll(currentScrollY: int)
      modifies this
      ensures State() == Scroll(old(State()), currentScrollY)
      ensures isMenuOpen == old(isMenuOpen)
    {
      if currentScrollY > lastScrollY && currentScrollY > RevealZone {
        offsetY := HiddenOffset;
      } else if currentScrollY < lastScrollY || currentScrollY <= RevealZone {
        offsetY := ShownOffset;
      }
      lastScrollY := currentScrollY;
    }

    /** The hamburger button. */
    method ToggleMenu()
      modifies this
      ensures isMenuOpen == !old(isMenuOpen)
      ensures State() == old(State())
    {
      isMenuOpen := !isMenuOpen;
    }

    /** `scrollToSection`: bring `section` into view and close the menu. */
    method ScrollToSection(section: Section) returns (target: Section)
      modifies this
      ensures target == section && !isMenuOpen
      ensures State() == old(State())
    {
      target := section;
      isMenuOpen := false;
    }

    /** The Resume button of the mobile menu: download, then close the menu. */
    method MobileResumeClick() returns (download: Download)
      modifies this
      ensures download == Resume && !isMenuOpen
      ensures State() == old(State())
    {
      download := Resume;
      isMenuOpen := false;
    }

    /** The Resume button of the desktop bar: download only; the menu flag is untouched. */
    method DesktopResumeClick() returns (download: Download)
      ensures download == Resume
    {
      download := Resume;
    }
  }
}
