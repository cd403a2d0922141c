/** The two header toggles: the mobile menu and the desktop search overlay. Each mirrors its open
    state into the `aria-expanded` attribute of its button. The handlers are wired only when the
    page has the button and the element it opens; the classes model a page that has both. */
module PageChrome {

  /** The mobile menu: `is-active` on `#mainNav` and `aria-expanded` on `#menuToggle`. */
  class MobileMenu {
    var navActive: bool
    var ariaExpanded: bool

    /** The state the page's markup starts in. */
    constructor (navActive: bool, ariaExpanded: bool)
      ensures this.navActive == navActive && this.ariaExpanded == ariaExpanded
    {
      this.navActive := navActive;
      this.ariaExpanded := ariaExpanded;
    }

    /** The button and the attribute agree. */
    predicate Synced()
      reads this
    {
      ariaExpanded == navActive
    }

    /** A click on the menu button flips `is-active` and announces the new state. */
    method Click()
      modifies this
      ensures navActive == !old(navActive)
      ensures ariaExpanded == navActive && Synced()
    {
      navActive := !navActive;
      ariaExpanded := navActive;
    }
  }

  /** Where a click lands, as far as the overlay's handlers are concerned: the search button
      and the overlay stop the click from reaching the document. */
  datatype ClickTarget = SearchButton | InsideOverlay | Elsewhere

  /** The search overlay: `is-active` on `#searchOverlay` and `aria-expanded` on its button. */
  class SearchOverlay {
    var active: bool
    var ariaExpanded: bool

    constructor (active: bool, ariaExpanded: bool)
      ensures this.active == active && this.ariaExpanded == ariaExpanded
    {
      this.active := active;
      this.ariaExpanded := ariaExpanded;
    }

    predicate Synced()
      reads this
    {
      ariaExpanded == active
    }

    /** `closeSearch`. */
    method Close()
      modifies this
      ensures !active && !ariaExpanded && Synced()
    {
      active := false;
      ariaExpanded := false;
    }

    /** A click: on the button it toggles the overlay; inside the overlay it does nothing; anywhere
        else it closes an open overlay and leaves a closed one alone. */
    method Click(target: ClickTarget)
      modifies this
      ensures target == SearchButton ==> active == !old(active) && ariaExpanded == active
      ensures target == InsideOverlay ==> active == old(active) && ariaExpanded == old(ariaExpanded)
      ensures target == Elsewhere && old(active) ==> !active && !ariaExpanded
      ensures target == Elsewhere && !old(active) ==>
        active == old(active) && ariaExpanded == old(ariaExpanded)
      ensures old(Synced()) ==> Synced()
    {
      match target
      case SearchButton =>
        active := !active;
        ariaExpanded := active;
      case InsideOverlay =>
      case Elsewhere =>
        if active {
          Close();
        }
    }

    /** A key press: Escape closes an open overlay; every other key, and Escape on a closed
        overlay, changes nothing. */
    method KeyDown(key: string)
      modifies this
      ensures key == "Escape" && old(active) ==> !active && !ariaExpanded
      ensures !(key == "Escape" && old(active)) ==>
        active == old(active) && ariaExpanded == old(ariaExpanded)
      ensures old(Synced()) ==> Synced()
    {
      if key == "Escape" && active {
        Close();
      }
    }
  }

  /** Two clicks on the menu button bring the menu back to where it was. */
  method MenuClickTwice(menu: MobileMenu)
    modifies menu
    ensures menu.navActive == old(menu.navActive) && menu.Synced()
  {
    menu.Click();
    menu.Click();
  }
}
