/**
 * The hamburger menu of small screens (src/components/mobile-menu.tsx): a button that
 * opens and closes the category panel, which also closes when the page changes or
 * when the search box opens.
 */
module MobileMenu {
  import opened Wrappers
  import opened Json

  /** The accessibility attributes and interactivity the component renders. */
  datatype View = View(
    ariaExpanded: bool,     // the button's `aria-expanded`
    ariaLabel: string,      // the button's `aria-label`
    panelHidden: bool,      // the panel's `aria-hidden`
    panelInteractive: bool, // the panel receives clicks
    buttonInteractive: bool // the button receives clicks
  )

  class MobileMenuView {
    /** The `hideWhenSearchOpen` prop. */
    const hideWhenSearchOpen: bool
    var isOpen: bool
    /** The path the pathname effect last ran for. */
    var pathname: string

    constructor(hideWhenSearchOpen: bool, pathname: string)
      ensures this.hideWhenSearchOpen == hideWhenSearchOpen && this.pathname == pathname && !isOpen
    {
      this.hideWhenSearchOpen := hideWhenSearchOpen;
      this.pathname := pathname;
      isOpen := false;
    }

    /** `toggleMenu`: the button flips the menu. */
    method Toggle()
      modifies this
      ensures isOpen == !old(isOpen) && pathname == old(pathname)
    {
      isOpen := !isOpen;
    }

    /** The router reports a path: a new path closes the menu, the same path changes nothing. */
    method OnPathname(p: string)
      modifies this
      ensures pathname == p
      ensures p != old(pathname) ==> !isOpen
      ensures p == old(pathname) ==> isOpen == old(isOpen)
    {
      if p != pathname {
        if isOpen {
          isOpen := false;
        }
        pathname := p;
      }
    }

    /**
     * The `jjs_nav_search_toggle` listener: the menu closes when the event's detail says
     * the search is open, and is left alone otherwise (a missing or `null` detail included).
     */
    method OnSearchToggle(detail: Option<Json>)
      modifies this
      ensures OptTruthy(OptMember(detail, "open")) ==> !isOpen
      ensures !OptTruthy(OptMember(detail, "open")) ==> isOpen == old(isOpen)
      ensures pathname == old(pathname)
    {
      if OptTruthy(OptMember(detail, "open")) {
        isOpen := false;
      }
    }

    function Render(): (v: View)
      reads this
      ensures v.ariaExpanded == isOpen && v.panelHidden == !isOpen && v.panelInteractive == isOpen
      ensures v.ariaLabel == (if isOpen then "Tutup menu" else "Buka menu")
      ensures v.buttonInteractive == !hideWhenSearchOpen
    {
      View(isOpen, if isOpen then "Tutup menu" else "Buka menu", !isOpen, isOpen, !hideWhenSearchOpen)
    }
  }

  /**
   * What assistive technology is told always agrees: the button reports the panel as
   * expanded exactly when the panel is not hidden, and then offers to close it.
   */
  lemma ViewConsistent(m: MobileMenuView)
    ensures m.Render().ariaExpanded == !m.Render().panelHidden
    ensures m.Render().ariaExpanded <==> m.Render().ariaLabel == "Tutup menu"
    ensures m.Render().panelInteractive <==> !m.Render().panelHidden
  {
  }
}
