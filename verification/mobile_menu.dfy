/** The mobile menu: the hamburger button and the navigation each carry an
    `active` class; the button mirrors its own state in `aria-expanded` and
    the body's overflow is locked while it is active. */
module MobileMenu {

  datatype Menu = Menu(
    hamburgerActive: bool,
    navActive: bool,
    ariaExpanded: bool,
    bodyOverflow: string)

  /** `toggleMobileMenu`: flips both classes independently, then derives the
      ARIA state and the body lock from the button. */
  function ToggleMobileMenu(m: Menu): (r: Menu)
    ensures r.hamburgerActive == !m.hamburgerActive && r.navActive == !m.navActive
    ensures r.ariaExpanded == r.hamburgerActive
    ensures r.bodyOverflow == "hidden" <==> r.hamburgerActive
    ensures r.bodyOverflow == "" <==> !r.hamburgerActive
  {
    var expanded := !m.hamburgerActive;
    Menu(expanded, !m.navActive, expanded, if expanded then "hidden" else "")
  }

  /** A navigation-link click or the Escape key: toggles only while the
      navigation is open. */
  function CloseIfOpen(m: Menu): (r: Menu)
    ensures !m.navActive ==> r == m
    ensures m.navActive ==> !r.navActive
    ensures m.navActive ==> r == ToggleMobileMenu(m)
    ensures m.navActive ==>
      && r.hamburgerActive == !m.hamburgerActive
      && r.ariaExpanded == r.hamburgerActive
      && r.bodyOverflow == (if r.hamburgerActive then "hidden" else "")
  {
    if m.navActive then ToggleMobileMenu(m) else m
  }

  /** Button, navigation, ARIA state and body lock all agree. */
  predicate Consistent(m: Menu) {
    && m.hamburgerActive == m.navActive
    && m.ariaExpanded == m.hamburgerActive
    && m.bodyOverflow == (if m.hamburgerActive then "hidden" else "")
  }

  /** Toggling and closing keep a consistent menu consistent, and closing
      leaves it closed with the body unlocked. */
  lemma MenuStaysConsistent(m: Menu)
    requires Consistent(m)
    ensures Consistent(ToggleMobileMenu(m)) && Consistent(CloseIfOpen(m))
    ensures !CloseIfOpen(m).hamburgerActive && CloseIfOpen(m).bodyOverflow == ""
  {
  }

  /** Two toggles restore a consistent menu. */
  lemma ToggleTwiceRestores(m: Menu)
    requires Consistent(m)
    ensures ToggleMobileMenu(ToggleMobileMenu(m)) == m
  {
  }
}
