/** The corrected-URL mobile run: first a probe of the homepage's
    fullscreen mobile menu, then a sweep over a page catalog that records,
    for each page, the HTTP status and whether it scrolls sideways (or the
    error that stopped it), and finally a tally of successes, failures and
    horizontal-scroll pages. */
module MobileQaCorrectUrls {
  import opened Browser

  // ---------------------------------------------------------------------
  // testMobileMenu
  // ---------------------------------------------------------------------

  /** What the in-page script sees of #fullscreen-menu: no such element
      (the script then yields null), or its aria-hidden attribute (None
      when the attribute is absent). */
  datatype MenuState = NoMenuElement | AriaHidden(value: Option<string>)

  /** The awaited calls of testMobileMenu, in the order it makes them. */
  datatype MenuProbe = MenuProbe(
    toggle: Step<bool>,          // page.$('.mobile-menu-toggle') found one
    visible: Step<bool>,         // isVisible() of the toggle
    openClick: Step<()>,         // click and wait
    menuQuery: Step<bool>,       // page.$('#fullscreen-menu') found one
    openState: Step<MenuState>,  // the open-check script
    screenshot: Step<()>,
    closeQuery: Step<bool>,      // page.$('.menu-close') found one
    closeClick: Step<()>,        // click and wait
    closedState: Step<MenuState>) // the closed-check script

  /** The results object. menuOpens and menuCloses start false; the
      in-page scripts can also store null in them, written None. */
  datatype MenuResults = MenuResults(
    hamburgerVisible: bool,
    menuOpens: Option<bool>,
    menuCloses: Option<bool>,
    linksClickable: bool,
    error: Option<string>)

  /** `menu && !menu.getAttribute('aria-hidden')`: open when the attribute
      is absent or empty, so "false" counts as not open. */
  function OpenVerdict(m: MenuState): Option<bool>
  {
    match m
    case NoMenuElement => None
    case AriaHidden(v) => Some(v.None? || v.value == "")
  }

  /** `menu && menu.getAttribute('aria-hidden') === 'true'` */
  function ClosedVerdict(m: MenuState): Option<bool>
  {
    match m
    case NoMenuElement => None
    case AriaHidden(v) => Some(v == Some("true"))
  }

  // How far testMobileMenu gets: each predicate says that every call up to
  // the named one returned and that the branch leading to it was taken.
  predicate ChecksVisibility(p: MenuProbe) { p.toggle.Done? && p.toggle.value && p.visible.Done? }
  predicate ToggleVisible(p: MenuProbe) { ChecksVisibility(p) && p.visible.value }
  predicate ChecksOpen(p: MenuProbe)
  {
    ToggleVisible(p) && p.openClick.Done? && p.menuQuery.Done? && p.menuQuery.value && p.openState.Done?
  }
  predicate ChecksClose(p: MenuProbe)
  {
    ChecksOpen(p) && p.screenshot.Done? && p.closeQuery.Done? && p.closeQuery.value &&
    p.closeClick.Done? && p.closedState.Done?
  }

  /** The message of the first awaited call that threw, if one did. */
  function MenuError(p: MenuProbe): Option<string>
  {
    if p.toggle.Threw? then Some(p.toggle.message)
    else if !p.toggle.value then None
    else if p.visible.Threw? then Some(p.visible.message)
    else if !p.visible.value then None
    else if p.openClick.Threw? then Some(p.openClick.message)
    else if p.menuQuery.Threw? then Some(p.menuQuery.message)
    else if !p.menuQuery.value then None
    else if p.openState.Threw? then Some(p.openState.message)
    else if p.screenshot.Threw? then Some(p.screenshot.message)
    else if p.closeQuery.Threw? then Some(p.closeQuery.message)
    else if !p.closeQuery.value then None
    else if p.closeClick.Threw? then Some(p.closeClick.message)
    else if p.closedState.Threw? then Some(p.closedState.message)
    else None
  }

  /** The results testMobileMenu returns, flag by flag. */
  function ExpectedMenuResults(p: MenuProbe): MenuResults
  {
    MenuResults(
      hamburgerVisible := ToggleVisible(p),
      menuOpens := if ChecksOpen(p) then OpenVerdict(p.openState.value) else Some(false),
      menuCloses := if ChecksClose(p) then ClosedVerdict(p.closedState.value) else Some(false),
      linksClickable := false,
      error := MenuError(p))
  }

  /** Probes the homepage's mobile menu; an exception ends the probe and is
      kept in error, with the flags set so far. */
  method TestMobileMenu(p: MenuProbe) returns (results: MenuResults)
    ensures results == ExpectedMenuResults(p)
  {
    results := MenuResults(false, Some(false), Some(false), false, None);
    label attempt: {
      if p.toggle.Threw? {
        results := results.(error := Some(p.toggle.message));
        break attempt;
      }
      if p.toggle.value {
        if p.visible.Threw? {
          results := results.(error := Some(p.visible.message));
          break attempt;
        }
        var isVisible := p.visible.value;
        results := results.(hamburgerVisible := isVisible);
        if isVisible {
          if p.openClick.Threw? {
            results := results.(error := Some(p.openClick.message));
            break attempt;
          }
          if p.menuQuery.Threw? {
            results := results.(error := Some(p.menuQuery.message));
            break attempt;
          }
          if p.menuQuery.value {
            if p.openState.Threw? {
              results := results.(error := Some(p.openState.message));
              break attempt;
            }
            results := results.(menuOpens := OpenVerdict(p.openState.value));
            if p.screenshot.Threw? {
              results := results.(error := Some(p.screenshot.message));
              break attempt;
            }
            if p.closeQuery.Threw? {
              results := results.(error := Some(p.closeQuery.message));
              break attempt;
            }
            if p.closeQuery.value {
              if p.closeClick.Threw? {
                results := results.(error := Some(p.closeClick.message));
                break attempt;
              }
              if p.closedState.Threw? {
                results := results.(error := Some(p.closedState.message));
                break attempt;
              }
              results := results.(menuCloses := ClosedVerdict(p.closedState.value));
            }
          }
        }
      }
    }
  }

  /** No toggle: all four flags keep their initial false and nothing threw. */
  lemma NoToggleAllFalse(p: MenuProbe)
    requires p.toggle.Done? && !p.toggle.value
    ensures ExpectedMenuResults(p) == MenuResults(false, Some(false), Some(false), false, None)
  {
  }

  /** menuOpens becomes true only when the toggle exists and is visible,
      #fullscreen-menu exists, and its aria-hidden is absent or empty. */
  lemma MenuOpensOnlyWhenShown(p: MenuProbe)
    ensures ExpectedMenuResults(p).menuOpens == Some(true) <==>
            ToggleVisible(p) && p.openClick.Done? && p.menuQuery.Done? && p.menuQuery.value &&
            p.openState.Done? && p.openState.value.AriaHidden? &&
            (p.openState.value.value == None || p.openState.value.value == Some(""))
    ensures ExpectedMenuResults(p).menuOpens == Some(true) ==> ExpectedMenuResults(p).hamburgerVisible
  {
  }

  /** aria-hidden="false" reads as a closed menu. */
  lemma AriaFalseIsNotOpen()
    ensures OpenVerdict(AriaHidden(Some("false"))) == Some(false)
  {
  }

  /** menuCloses is assigned only when .menu-close was found, and is then
      true iff aria-hidden is "true" after the click. */
  lemma MenuClosesIff(p: MenuProbe)
    ensures ExpectedMenuResults(p).menuCloses == Some(true) <==>
            ChecksOpen(p) && p.screenshot.Done? && p.closeQuery.Done? && p.closeQuery.value &&
            p.closeClick.Done? && p.closedState.Done? && p.closedState.value == AriaHidden(Some("true"))
    ensures ExpectedMenuResults(p).menuCloses != Some(false) ==> p.closeQuery.Done? && p.closeQuery.value
  {
  }

  /** An exception never escapes: error is set exactly when some awaited
      call the probe reached threw, and the flags set before it stay. */
  lemma MenuErrorKeepsFlags(p: MenuProbe)
    ensures ExpectedMenuResults(p).error.Some? <==>
            p.toggle.Threw? ||
            (p.toggle.value && p.visible.Threw?) ||
            (ChecksVisibility(p) && p.visible.value &&
             (p.openClick.Threw? || p.menuQuery.Threw? ||
              (p.menuQuery.value &&
               (p.openState.Threw? ||
                (p.openState.Done? && (p.screenshot.Threw? || p.closeQuery.Threw? ||
                 (p.closeQuery.value && (p.closeClick.Threw? || p.closedState.Threw?))))))))
    ensures ToggleVisible(p) ==> ExpectedMenuResults(p).hamburgerVisible
    ensures ChecksOpen(p) ==> ExpectedMenuResults(p).menuOpens == OpenVerdict(p.openState.value)
    ensures p.screenshot.Threw? && ChecksOpen(p) ==>
              ExpectedMenuResults(p).hamburgerVisible &&
              ExpectedMenuResults(p).menuOpens == OpenVerdict(p.openState.value) &&
              ExpectedMenuResults(p).menuCloses == Some(false)
  {
  }

  // ---------------------------------------------------------------------
  // The page sweep
  // ---------------------------------------------------------------------

  /** `response ? response.status() : 'no response'` */
  datatype Status = Http(code: int) | NoResponseStatus

  /** What one page visit does: navigation, then the scroll script. */
  datatype PageVisit = PageVisit(navigation: Step<Response>, scroll: Step<ScrollMetrics>)

  /** One entry of the results list. */
  datatype Entry =
    | Loaded(name: string, url: string, status: Status, hasHorizontalScroll: bool)
    | Errored(name: string, url: string, error: string)

  function StatusOf(r: Response): Status
  {
    match r
    case NoResponse => NoResponseStatus
    case Response(code) => Http(code)
  }

  /** The entry a visit yields: the status and the scroll verdict whatever
      the status, or the message of the call that threw. */
  function EntryFor(info: PageInfo, v: PageVisit): Entry
  {
    if v.navigation.Threw? then Errored(info.name, PageUrl(info), v.navigation.message)
    else if v.scroll.Threw? then Errored(info.name, PageUrl(info), v.scroll.message)
    else Loaded(info.name, PageUrl(info), StatusOf(v.navigation.value), HasHorizontalScroll(v.scroll.value))
  }

  /** Visits every catalog page in order, one entry per page. */
  method SweepPages(catalog: seq<PageInfo>, visits: seq<PageVisit>) returns (results: seq<Entry>)
    requires |visits| == |catalog|
    ensures |results| == |catalog|
    ensures forall k :: 0 <= k < |catalog| ==> results[k] == EntryFor(catalog[k], visits[k])
    ensures forall k :: 0 <= k < |results| ==> results[k].name == catalog[k].name
  {
    results := [];
    for i := 0 to |catalog|
      invariant |results| == i
      invariant forall k :: 0 <= k < i ==> results[k] == EntryFor(catalog[k], visits[k])
    {
      var info, v := catalog[i], visits[i];
      var entry: Entry;
      if v.navigation.Threw? {
        entry := Errored(info.name, PageUrl(info), v.navigation.message);
      } else {
        var status := if v.navigation.value.Response? then Http(v.navigation.value.status) else NoResponseStatus;
        if v.scroll.Threw? {
          entry := Errored(info.name, PageUrl(info), v.scroll.message);
        } else {
          var hasHorizontalScroll := v.scroll.value.scrollWidth > v.scroll.value.clientWidth;
          entry := Loaded(info.name, PageUrl(info), status, hasHorizontalScroll);
        }
      }
      results := results + [entry];
    }
  }

  // ---------------------------------------------------------------------
  // The tally
  // ---------------------------------------------------------------------

  /** `r.status !== 200 || r.error`: an errored entry has no status, so it
      always fails. */
  predicate IsFailure(e: Entry)
  {
    e.Errored? || e.status != Http(200)
  }

  /** `r.status === 200` */
  predicate IsSuccess(e: Entry)
  {
    e.Loaded? && e.status == Http(200)
  }

  /** `r.hasHorizontalScroll`: undefined, hence false, on errored entries. */
  predicate IsScrollIssue(e: Entry)
  {
    e.Loaded? && e.hasHorizontalScroll
  }

  datatype Tally = Tally(total: nat, successful: nat, failed: nat, horizontalScroll: nat)

  function TallyOf(results: seq<Entry>): Tally
  {
    Tally(|results|, Count(results, IsSuccess), Count(results, IsFailure), Count(results, IsScrollIssue))
  }

  /** Every entry is a success or a failure and never both. */
  lemma {:induction false} SuccessesAndFailuresPartition(results: seq<Entry>)
    ensures Count(results, IsSuccess) + Count(results, IsFailure) == |results|
  {
    if results != [] {
      SuccessesAndFailuresPartition(results[1..]);
    }
  }

  /** Only pages that loaded count as scroll issues, so scroll issues never
      outnumber the entries that are not errors. */
  lemma {:induction false} ScrollIssuesAreLoaded(results: seq<Entry>)
    ensures Count(results, IsScrollIssue) <= Count(results, (e: Entry) => e.Loaded?)
  {
    if results != [] {
      ScrollIssuesAreLoaded(results[1..]);
    }
  }

  /** The horizontal-scroll verdict is recorded whatever the status, a 404
      included. */
  lemma ScrollMeasuredOnAnyStatus(info: PageInfo, v: PageVisit)
    requires v.navigation.Done? && v.scroll.Done?
    ensures EntryFor(info, v).Loaded?
    ensures EntryFor(info, v).hasHorizontalScroll <==> v.scroll.value.scrollWidth > v.scroll.value.clientWidth
  {
  }

  /** The tally of a sweep: every page is counted once, and no page failed
      exactly when every visit returned a 200 response. */
  lemma SweepTally(catalog: seq<PageInfo>, visits: seq<PageVisit>, results: seq<Entry>)
    requires |visits| == |catalog| == |results|
    requires forall k :: 0 <= k < |catalog| ==> results[k] == EntryFor(catalog[k], visits[k])
    ensures TallyOf(results).successful + TallyOf(results).failed == TallyOf(results).total == |catalog|
    ensures TallyOf(results).failed == 0 <==>
            forall k :: 0 <= k < |visits| ==>
              visits[k].navigation.Done? && visits[k].scroll.Done? && visits[k].navigation.value == Response(200)
  {
    SuccessesAndFailuresPartition(results);
    CountZeroIffNone(results, IsFailure);
    forall k | 0 <= k < |visits|
      ensures !IsFailure(results[k]) <==>
              visits[k].navigation.Done? && visits[k].scroll.Done? && visits[k].navigation.value == Response(200)
    {
    }
  }

  // ---------------------------------------------------------------------
  // runTests
  // ---------------------------------------------------------------------

  datatype Run = Run(menuResults: MenuResults, pageResults: seq<Entry>, tally: Tally)

  /** The homepage navigation before the menu probe is outside any try: if
      it throws the run ends with nothing saved (None). */
  method RunCorrectedUrls(homepage: Step<Response>, menu: MenuProbe, catalog: seq<PageInfo>, visits: seq<PageVisit>)
    returns (run: Option<Run>)
    requires |visits| == |catalog|
    ensures run.None? <==> homepage.Threw?
    ensures run.Some? ==>
              run.value.menuResults == ExpectedMenuResults(menu) &&
              |run.value.pageResults| == |catalog| &&
              (forall k :: 0 <= k < |catalog| ==> run.value.pageResults[k] == EntryFor(catalog[k], visits[k])) &&
              run.value.tally == TallyOf(run.value.pageResults)
  {
    if homepage.Threw? {
      return None;
    }
    var menuResults := TestMobileMenu(menu);
    var results := SweepPages(catalog, visits);
    run := Some(Run(menuResults, results, TallyOf(results)));
  }
}
