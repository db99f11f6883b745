/** The full-screen mobile menu of js/option-c.js (`initMobileMenu`): a
    toggle button that opens and closes it, a close button, its links and
    the Escape key. */
module OptionCMobileMenu {
  import opened Browser

  /** The menu's `aria-hidden`, the toggle's `aria-expanded` and the body's
      `overflow` style; None is an attribute the markup did not set. */
  datatype MenuState = MenuState(menuHidden: Option<string>, toggleExpanded: Option<string>, bodyOverflow: string)

  /** `openMenu()` */
  const Opened := MenuState(Some("false"), Some("true"), "hidden")
  /** `closeMenu()` */
  const Closed := MenuState(Some("true"), Some("false"), "")

  /** What the handlers test: the toggle's `aria-expanded` is "true". */
  predicate IsOpen(s: MenuState)
  {
    s.toggleExpanded == Some("true")
  }

  /** The toggle click handler. */
  function Toggle(s: MenuState): (r: MenuState)
    ensures r == Opened || r == Closed
  {
    if IsOpen(s) then Closed else Opened
  }

  /** The document keydown handler. */
  function EscapeKey(s: MenuState, key: string): (r: MenuState)
    ensures r == s || r == Closed
  {
    if key == "Escape" && IsOpen(s) then Closed else s
  }

  /** A toggle click flips the menu between open and closed; from either
      settled state two clicks come back; Escape and link clicks only ever
      close it, and Escape leaves a closed menu alone. */
  lemma ToggleFlips(s: MenuState, key: string)
    ensures IsOpen(Toggle(s)) <==> !IsOpen(s)
    ensures Toggle(s) == Opened <==> !IsOpen(s)
    ensures Toggle(Toggle(Opened)) == Opened && Toggle(Toggle(Closed)) == Closed
    ensures key == "Escape" ==> !IsOpen(EscapeKey(s, key))
    ensures !IsOpen(s) ==> EscapeKey(s, key) == s
  {
  }

  /** What `initMobileMenu` leaves behind. */
  datatype InitOutcome = Installed | NotOnPage | TypeError

  /** `initMobileMenu` as written: the menu's links are looked up before
      the guard, so a page without `.fullscreen-menu` throws instead of
      returning. The exception leaves `init()` before the desktop nav,
      counters, timeline, carousel and later features are set up. */
  function InitAsWritten(hasToggle: bool, hasMenu: bool): InitOutcome
  {
    if !hasMenu then TypeError
    else if !hasToggle then NotOnPage
    else Installed
  }

  /** `initMobileMenu` with the guard before the first use of the menu. */
  function InitGuarded(hasToggle: bool, hasMenu: bool): (r: InitOutcome)
    ensures r != TypeError
    ensures r == Installed <==> hasToggle && hasMenu
  {
    if !hasToggle || !hasMenu then NotOnPage else Installed
  }

  /** A page with no full-screen menu (with or without a toggle) makes the
      written code throw, where the guard meant it to return quietly; on
      every page with the menu the two agree. */
  lemma MissingMenuThrows(hasToggle: bool, hasMenu: bool)
    ensures !hasMenu ==> InitAsWritten(hasToggle, hasMenu) == TypeError != InitGuarded(hasToggle, hasMenu)
    ensures hasMenu ==> InitAsWritten(hasToggle, hasMenu) == InitGuarded(hasToggle, hasMenu)
  {
  }

  class MobileMenu {
    /** Whether the page has a `.menu-close` button. */
    const hasClose: bool
    var menuHidden: Option<string>
    var toggleExpanded: Option<string>
    var bodyOverflow: string

    function State(): MenuState
      reads this
    {
      MenuState(menuHidden, toggleExpanded, bodyOverflow)
    }

    /** The markup's attributes; set-up changes none of them. */
    constructor (hasClose: bool, initial: MenuState)
      ensures this.hasClose == hasClose && State() == initial
    {
      this.hasClose := hasClose;
      menuHidden := initial.menuHidden;
      toggleExpanded := initial.toggleExpanded;
      bodyOverflow := initial.bodyOverflow;
    }

    method OpenMenu()
      modifies this
      ensures State() == Opened
    {
      menuHidden := Some("false");
      toggleExpanded := Some("true");
      bodyOverflow := "hidden";
    }

    method CloseMenu()
      modifies this
      ensures State() == Closed
    {
      menuHidden := Some("true");
      toggleExpanded := Some("false");
      bodyOverflow := "";
    }

    method OnToggleClick()
      modifies this
      ensures State() == Toggle(old(State()))
    {
      var isOpen := toggleExpanded == Some("true");
      if isOpen {
        CloseMenu();
      } else {
        OpenMenu();
      }
    }

    /** A click on `.menu-close` (no handler when it is missing). */
    method OnCloseClick()
      modifies this
      ensures State() == if hasClose then Closed else old(State())
    {
      if hasClose {
        CloseMenu();
      }
    }

    method OnLinkClick()
      modifies this
      ensures State() == Closed
    {
      CloseMenu();
    }

    method OnKeyDown(key: string)
      modifies this
      ensures State() == EscapeKey(old(State()), key)
    {
      if key == "Escape" && toggleExpanded == Some("true") {
        CloseMenu();
      }
    }
  }

  /** `initMobileMenu` with the guard first: handlers only when both the
      toggle and the menu are on the page. */
  method InitMobileMenu(hasToggle: bool, hasMenu: bool, hasClose: bool, initial: MenuState)
    returns (outcome: InitOutcome, menu: MobileMenu?)
    ensures outcome == InitGuarded(hasToggle, hasMenu)
    ensures menu == null <==> outcome == NotOnPage
    ensures menu != null ==> fresh(menu) && menu.hasClose == hasClose && menu.State() == initial
  {
    if !hasToggle || !hasMenu {
      return NotOnPage, null;
    }
    menu := new MobileMenu(hasClose, initial);
    outcome := Installed;
  }
}
