/** The desktop navigation dropdowns of js/option-c.js (`initDesktopNav`):
    nav items with a toggle button and a dropdown panel, the tracked
    `openDropdown`, and the click, keyboard, outside-click and focus-out
    handlers that open and close them. */
module OptionCDesktopNav {
  import opened Browser

  /** One `.desktop-nav .nav-item.has-dropdown`: whether it holds a
      `button.nav-link` and a `.dropdown-menu`, and how many links that
      panel has. Handlers are attached only to items with both. */
  datatype Item = Item(hasButton: bool, hasDropdown: bool, linkCount: nat)

  predicate Wired(item: Item)
  {
    item.hasButton && item.hasDropdown
  }

  /** The `open` class of each item, the `aria-expanded` value of each
      item's button (true for "true"), and the tracked `openDropdown`. */
  datatype NavState = NavState(open: seq<bool>, expanded: seq<bool>, openDropdown: Option<nat>)

  predicate Fits(items: seq<Item>, s: NavState)
  {
    |s.open| == |items| && |s.expanded| == |items|
  }

  /** What the script keeps true: only the tracked item is open, it has a
      button and a panel, and every button's `aria-expanded` says whether
      its item is open. */
  predicate Consistent(items: seq<Item>, s: NavState)
  {
    Fits(items, s)
    && (s.openDropdown.Some? ==> s.openDropdown.value < |items| && s.open[s.openDropdown.value])
    && (forall i :: 0 <= i < |items| && s.open[i] ==> s.openDropdown == Some(i) && Wired(items[i]))
    && (forall i :: 0 <= i < |items| && items[i].hasButton ==> s.expanded[i] == s.open[i])
  }

  function OpenCount(open: seq<bool>): (c: nat)
    ensures c <= |open|
  {
    if open == [] then 0 else OpenCount(open[..|open| - 1]) + (if open[|open| - 1] then 1 else 0)
  }

  /** In a consistent state at most one dropdown is open. */
  lemma {:induction false} AtMostOneOpen(items: seq<Item>, s: NavState)
    requires Consistent(items, s)
    ensures OpenCount(s.open) <= 1
    ensures OpenCount(s.open) == 0 <==> s.openDropdown.None?
  {
    OpenCountAtMostOne(s.open, s.openDropdown);
  }

  lemma {:induction false} OpenCountAtMostOne(open: seq<bool>, tracked: Option<nat>)
    requires forall i :: 0 <= i < |open| && open[i] ==> tracked == Some(i)
    requires tracked.Some? && tracked.value < |open| ==> open[tracked.value]
    ensures OpenCount(open) <= 1
    ensures OpenCount(open) == 1 <==> tracked.Some? && tracked.value < |open|
  {
    if open != [] {
      var last := |open| - 1;
      OpenCountAtMostOne(open[..last], if tracked == Some(last) then None else tracked);
    }
  }

  /** `closeAllDropdowns()` */
  function CloseAll(items: seq<Item>, s: NavState): (r: NavState)
    requires Fits(items, s)
    ensures Fits(items, r) && r.openDropdown.None?
    ensures forall i :: 0 <= i < |items| ==> !r.open[i]
    ensures forall i :: 0 <= i < |items| ==> r.expanded[i] == (s.expanded[i] && !items[i].hasButton)
  {
    NavState(seq(|items|, _ => false),
             seq(|items|, i requires 0 <= i < |items| => s.expanded[i] && !items[i].hasButton),
             None)
  }

  /** `openDropdownMenu(item, button)` */
  function OpenItem(items: seq<Item>, s: NavState, i: nat): (r: NavState)
    requires Fits(items, s) && i < |items|
    ensures Fits(items, r)
  {
    NavState(s.open[i := true], s.expanded[i := true], Some(i))
  }

  /** The button click handler: close everything, then open the item if
      it was closed. */
  function ButtonClick(items: seq<Item>, s: NavState, i: nat): (r: NavState)
    requires Fits(items, s) && i < |items|
    ensures Fits(items, r)
  {
    if s.open[i] then CloseAll(items, s) else OpenItem(items, CloseAll(items, s), i)
  }

  /** The button keydown handler as written: Enter, Space and ArrowDown
      open the item without closing the others. */
  function ButtonKeyAsWritten(items: seq<Item>, s: NavState, i: nat, key: string): (r: NavState)
    requires Fits(items, s) && i < |items|
    ensures Fits(items, r)
  {
    if key == "Enter" || key == " " then
      (if s.open[i] then CloseAll(items, s) else OpenItem(items, s, i))
    else if key == "ArrowDown" then
      (if s.open[i] then s else OpenItem(items, s, i))
    else if key == "Escape" then
      (if s.open[i] then CloseAll(items, s) else s)
    else s
  }

  /** The button keydown handler with the keyboard opening closing the
      other dropdowns first, as the click handler does. */
  function ButtonKey(items: seq<Item>, s: NavState, i: nat, key: string): (r: NavState)
    requires Fits(items, s) && i < |items|
    ensures Fits(items, r)
  {
    if key == "Enter" || key == " " then
      (if s.open[i] then CloseAll(items, s) else OpenItem(items, CloseAll(items, s), i))
    else if key == "ArrowDown" then
      (if s.open[i] then s else OpenItem(items, CloseAll(items, s), i))
    else if key == "Escape" then
      (if s.open[i] then CloseAll(items, s) else s)
    else s
  }

  /** The keydown handler of link `index` in a panel of `count` links:
      Escape closes everything, and so does Tab out of the last link or
      Shift+Tab out of the first. */
  function LinkKey(items: seq<Item>, s: NavState, index: nat, count: nat, key: string, shift: bool): (r: NavState)
    requires Fits(items, s) && index < count
    ensures Fits(items, r)
  {
    if key == "Escape" then CloseAll(items, s)
    else if key == "Tab" && ((!shift && index == count - 1) || (shift && index == 0)) then CloseAll(items, s)
    else s
  }

  /** Where focus goes from link `index` of an item's panel. */
  datatype Focus = ItemButton | PanelLink(index: nat)

  function LinkFocus(index: nat, count: nat, key: string): (r: Option<Focus>)
    requires index < count
    ensures r.Some? && r.value.PanelLink? ==> r.value.index < count
    ensures key == "ArrowUp" || key == "Escape" ==> r.Some?
  {
    if key == "ArrowDown" then (if index + 1 < count then Some(PanelLink(index + 1)) else None)
    else if key == "ArrowUp" then (if index == 0 then Some(ItemButton) else Some(PanelLink(index - 1)))
    else if key == "Escape" then Some(ItemButton)
    else None
  }

  /** The document click handler: a click outside the open item closes it. */
  function DocumentClick(items: seq<Item>, s: NavState, insideOpenItem: bool): (r: NavState)
    requires Fits(items, s)
    ensures Fits(items, r)
  {
    if s.openDropdown.Some? && !insideOpenItem then CloseAll(items, s) else s
  }

  /** The document keydown handler: Escape closes an open dropdown. */
  function DocumentKey(items: seq<Item>, s: NavState, key: string): (r: NavState)
    requires Fits(items, s)
    ensures Fits(items, r)
  {
    if key == "Escape" && s.openDropdown.Some? then CloseAll(items, s) else s
  }

  /** The focusout handler, once focus has settled outside the nav. */
  function FocusLeft(items: seq<Item>, s: NavState, focusInsideNav: bool): (r: NavState)
    requires Fits(items, s)
    ensures Fits(items, r)
  {
    if focusInsideNav then s else CloseAll(items, s)
  }

  /** The user events the nav reacts to. A click on a button does not reach
      the document handler (its propagation is stopped); a keydown on a
      button or a link bubbles on to the document handler. */
  datatype NavEvent =
    | ClickButton(item: nat)
    | KeyOnButton(item: nat, key: string)
    | KeyOnLink(item: nat, link: nat, key: string, shift: bool)
    | ClickElsewhere(insideOpenItem: bool)
    | KeyElsewhere(key: string)
    | FocusOut(focusInsideNav: bool)

  /** Whether the event reaches a handler that exists: button and link
      handlers are attached only to wired items. */
  predicate Targets(items: seq<Item>, e: NavEvent)
  {
    match e
    case ClickButton(i) => i < |items| && Wired(items[i])
    case KeyOnButton(i, _) => i < |items| && Wired(items[i])
    case KeyOnLink(i, k, _, _) => i < |items| && Wired(items[i]) && k < items[i].linkCount
    case _ => true
  }

  function Dispatch(items: seq<Item>, s: NavState, e: NavEvent): (r: NavState)
    requires Fits(items, s) && Targets(items, e)
    ensures Fits(items, r)
  {
    match e
    case ClickButton(i) => ButtonClick(items, s, i)
    case KeyOnButton(i, key) => DocumentKey(items, ButtonKey(items, s, i, key), key)
    case KeyOnLink(i, k, key, shift) =>
      DocumentKey(items, LinkKey(items, s, k, items[i].linkCount, key, shift), key)
    case ClickElsewhere(inside) => DocumentClick(items, s, inside)
    case KeyElsewhere(key) => DocumentKey(items, s, key)
    case FocusOut(inside) => FocusLeft(items, s, inside)
  }

  /** The same dispatch with the button keydown handler as written. */
  function DispatchAsWritten(items: seq<Item>, s: NavState, e: NavEvent): (r: NavState)
    requires Fits(items, s) && Targets(items, e)
    ensures Fits(items, r)
  {
    match e
    case KeyOnButton(i, key) => DocumentKey(items, ButtonKeyAsWritten(items, s, i, key), key)
    case _ => Dispatch(items, s, e)
  }

  lemma CloseAllConsistent(items: seq<Item>, s: NavState)
    requires Fits(items, s)
    ensures Consistent(items, CloseAll(items, s))
  {
  }

  lemma OpenAfterCloseAllConsistent(items: seq<Item>, s: NavState, i: nat)
    requires Fits(items, s) && i < |items| && Wired(items[i])
    ensures Consistent(items, OpenItem(items, CloseAll(items, s), i))
    ensures OpenItem(items, CloseAll(items, s), i).open == seq(|items|, j => j == i)
  {
  }

  /** Every handler keeps the nav consistent, so at most one dropdown is
      ever open. */
  lemma DispatchKeepsConsistent(items: seq<Item>, s: NavState, e: NavEvent)
    requires Consistent(items, s) && Targets(items, e)
    ensures Consistent(items, Dispatch(items, s, e))
  {
    CloseAllConsistent(items, s);
    match e
    case ClickButton(i) =>
      OpenAfterCloseAllConsistent(items, s, i);
    case KeyOnButton(i, key) =>
      OpenAfterCloseAllConsistent(items, s, i);
      var t := ButtonKey(items, s, i, key);
      CloseAllConsistent(items, t);
    case KeyOnLink(i, k, key, shift) =>
      var t := LinkKey(items, s, k, items[i].linkCount, key, shift);
      CloseAllConsistent(items, t);
    case _ =>
  }

  /** The nav after a sequence of events. */
  function Run(items: seq<Item>, s: NavState, events: seq<NavEvent>): (r: NavState)
    requires Fits(items, s) && forall e :: e in events ==> Targets(items, e)
    ensures Fits(items, r)
  {
    if events == [] then s
    else Dispatch(items, Run(items, s, events[..|events| - 1]), events[|events| - 1])
  }

  /** Starting from markup with every dropdown closed and every button's
      `aria-expanded` "false", no sequence of events opens two dropdowns. */
  lemma {:induction false} RunKeepsOneOpen(items: seq<Item>, events: seq<NavEvent>)
    requires forall e :: e in events ==> Targets(items, e)
    ensures var s0 := NavState(seq(|items|, _ => false), seq(|items|, _ => false), None);
            Consistent(items, Run(items, s0, events)) && OpenCount(Run(items, s0, events).open) <= 1
  {
    var s0 := NavState(seq(|items|, _ => false), seq(|items|, _ => false), None);
    if events != [] {
      var prefix := events[..|events| - 1];
      assert forall e :: e in prefix ==> e in events;
      RunKeepsOneOpen(items, prefix);
      assert events[|events| - 1] in events;
      DispatchKeepsConsistent(items, Run(items, s0, prefix), events[|events| - 1]);
    }
    AtMostOneOpen(items, Run(items, s0, events));
  }

  /** Clicking the button of the open item closes it; clicking a closed
      item's button leaves that item the only one open. */
  lemma ButtonClickToggles(items: seq<Item>, s: NavState, i: nat)
    requires Consistent(items, s) && i < |items| && Wired(items[i])
    ensures s.open[i] ==> ButtonClick(items, s, i).openDropdown.None?
    ensures !s.open[i] ==> ButtonClick(items, s, i).open == seq(|items|, j => j == i)
    ensures !s.open[i] ==> ButtonClick(items, s, i).openDropdown == Some(i)
  {
    OpenAfterCloseAllConsistent(items, s, i);
  }

  /** `closeAllDropdowns` leaves every button's `aria-expanded` "false" and
      nothing tracked. */
  lemma CloseAllClears(items: seq<Item>, s: NavState)
    requires Fits(items, s)
    ensures forall i :: 0 <= i < |items| && items[i].hasButton ==> !CloseAll(items, s).expanded[i]
    ensures OpenCount(CloseAll(items, s).open) == 0
  {
    AtMostOneOpen(items, CloseAll(items, s));
  }

  /** As written, opening a second item from the keyboard leaves the first
      one open: after a click opens item 0, ArrowDown on item 1's button
      shows both panels. */
  lemma KeyboardOpenLeavesTwoOpen()
    ensures var items := [Item(true, true, 1), Item(true, true, 1)];
            var s0 := NavState([false, false], [false, false], None);
            var s1 := DispatchAsWritten(items, s0, ClickButton(0));
            var s2 := DispatchAsWritten(items, s1, KeyOnButton(1, "ArrowDown"));
            Consistent(items, s1) && s2.open == [true, true] && !Consistent(items, s2)
  {
    var items := [Item(true, true, 1), Item(true, true, 1)];
    var s0 := NavState([false, false], [false, false], None);
    var s1 := DispatchAsWritten(items, s0, ClickButton(0));
    assert s1.open == [true, false];
    var s2 := DispatchAsWritten(items, s1, KeyOnButton(1, "ArrowDown"));
    assert s2.open == [true, true] && s2.openDropdown == Some(1);
  }

  /** The nav once `initDesktopNav` has found at least one item. */
  class DesktopNav {
    const items: seq<Item>
    var open: seq<bool>
    var expanded: seq<bool>
    var openDropdown: Option<nat>

    function State(): NavState
      reads this
    {
      NavState(open, expanded, openDropdown)
    }

    /** The markup's classes and attributes; nothing is tracked yet. */
    constructor (items: seq<Item>, open: seq<bool>, expanded: seq<bool>)
      requires |open| == |items| && |expanded| == |items|
      ensures this.items == items && State() == NavState(open, expanded, None)
    {
      this.items := items;
      this.open := open;
      this.expanded := expanded;
      openDropdown := None;
    }

    /** `closeAllDropdowns()`, item by item. */
    method CloseAllDropdowns()
      requires Fits(items, State())
      modifies this
      ensures State() == CloseAll(items, old(State()))
    {
      for i := 0 to |items|
        invariant |open| == |items| && |expanded| == |items|
        invariant forall j :: 0 <= j < i ==> !open[j]
        invariant forall j :: 0 <= j < |items| ==>
          expanded[j] == (old(expanded)[j] && (j >= i || !items[j].hasButton))
      {
        open := open[i := false];
        if items[i].hasButton {
          expanded := expanded[i := false];
        }
      }
      openDropdown := None;
    }

    /** `openDropdownMenu(item, button)` */
    method OpenDropdownMenu(i: nat)
      requires Fits(items, State()) && i < |items|
      modifies this
      ensures State() == OpenItem(items, old(State()), i)
    {
      open := open[i := true];
      expanded := expanded[i := true];
      openDropdown := Some(i);
    }

    method OnButtonClick(i: nat)
      requires Fits(items, State()) && i < |items| && Wired(items[i])
      modifies this
      ensures State() == ButtonClick(items, old(State()), i)
    {
      var isOpen := open[i];
      CloseAllDropdowns();
      if !isOpen {
        OpenDropdownMenu(i);
      }
    }

    method OnButtonKeyDown(i: nat, key: string)
      requires Fits(items, State()) && i < |items| && Wired(items[i])
      modifies this
      ensures State() == ButtonKey(items, old(State()), i, key)
    {
      var isOpen := open[i];
      if key == "Enter" || key == " " {
        if isOpen {
          CloseAllDropdowns();
        } else {
          CloseAllDropdowns();
          OpenDropdownMenu(i);
        }
      } else if key == "ArrowDown" {
        if !isOpen {
          CloseAllDropdowns();
          OpenDropdownMenu(i);
        }
      } else if key == "Escape" {
        if isOpen {
          CloseAllDropdowns();
        }
      }
    }

    /** The keydown handler of link `index` of item `i`; returns where it
        moves focus. */
    method OnLinkKeyDown(i: nat, index: nat, key: string, shift: bool) returns (focus: Option<Focus>)
      requires Fits(items, State()) && i < |items| && Wired(items[i]) && index < items[i].linkCount
      modifies this
      ensures State() == LinkKey(items, old(State()), index, items[i].linkCount, key, shift)
      ensures focus == LinkFocus(index, items[i].linkCount, key)
    {
      var count := items[i].linkCount;
      focus := None;
      if key == "ArrowDown" {
        if index + 1 < count {
          focus := Some(PanelLink(index + 1));
        }
      } else if key == "ArrowUp" {
        focus := if index == 0 then Some(ItemButton) else Some(PanelLink(index - 1));
      } else if key == "Escape" {
        CloseAllDropdowns();
        focus := Some(ItemButton);
      } else if key == "Tab" {
        if !shift && index == count - 1 {
          CloseAllDropdowns();
        } else if shift && index == 0 {
          CloseAllDropdowns();
        }
      }
    }

    method OnDocumentClick(insideOpenItem: bool)
      requires Fits(items, State())
      modifies this
      ensures State() == DocumentClick(items, old(State()), insideOpenItem)
    {
      if openDropdown.Some? && !insideOpenItem {
        CloseAllDropdowns();
      }
    }

    method OnDocumentKeyDown(key: string)
      requires Fits(items, State())
      modifies this
      ensures State() == DocumentKey(items, old(State()), key)
    {
      if key == "Escape" && openDropdown.Some? {
        CloseAllDropdowns();
      }
    }

    method OnFocusOut(focusInsideNav: bool)
      requires Fits(items, State())
      modifies this
      ensures State() == FocusLeft(items, old(State()), focusInsideNav)
    {
      if !focusInsideNav {
        CloseAllDropdowns();
      }
    }
  }

  /** `initDesktopNav`: nothing is set up when the page has no items. */
  method InitDesktopNav(items: seq<Item>, open: seq<bool>, expanded: seq<bool>) returns (nav: DesktopNav?)
    requires |open| == |items| && |expanded| == |items|
    ensures nav == null <==> |items| == 0
    ensures nav != null ==> fresh(nav) && nav.items == items && nav.State() == NavState(open, expanded, None)
  {
    if |items| == 0 {
      return null;
    }
    nav := new DesktopNav(items, open, expanded);
  }
}
