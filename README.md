# nwestco-v3 front end: verified model of its scripted behaviour

This project models, in Dafny, the sequential logic of four scripts of the
nwestco-v3 web site and proves what each one promises.

- `mobile-qa-test.js` is the mobile QA runner. For each page of a fixed
  catalog, `testPage` turns what it observed in the browser into a result
  record. The record holds `tests` flags and a list of issues, each tagged
  CRITICAL, HIGH, MEDIUM or LOW. `runTests` gathers the pages into a report
  with per-severity counts.
- `mobile-qa-correct-urls.js` holds the menu probe `testMobileMenu` and the
  page sweep. The sweep records the HTTP status or the error of every page,
  and its summary counts successes, failures and horizontal-scroll issues.
- `js/option-c.js` contains the site's UI state machines:
  - the testimonial carousel;
  - the history timeline;
  - the desktop dropdown navigation;
  - the full-screen mobile menu;
  - the count-up statistics;
  - the built-in emergency banner with its 24-hour dismissal.
- `components/emergency-banner/emergency-banner.js` is the stand-alone
  `NwEmergencyBanner` controller. It keeps a dismissal in localStorage with a
  session-cookie fallback, shows and hides the banner, and moves the fixed
  header down by the banner's height.

Every browser call a script awaits becomes an input. `Browser.Step<T>` is
`Done(value)` or `Threw`, so an exception is an explicit outcome. The clock
is an integer parameter. localStorage is `Option<map<string, Stored>>`, where
`None` means every access throws. `document.cookie` is a sequence of cookies
that `WebStorage.CookieString` renders as the browser does. Objects whose
fields the scripts update in place are classes:
- `Carousel`, `Timeline`, `DesktopNav`, `MobileMenu`, `Counters` and `Banner`
  for option-c.js;
- `NwEmergencyBanner` for emergency-banner.js.

Each class method's `ensures` states every field it may change, either as a
pure transition function of the old state or field by field, and the lemmas
prove the script's promises about those functions.
The QA runners are imperative methods (`TestPage`, `TouchSpacing`,
`RunTests`, `TestMobileMenu`, `SweepPages`), each proved equal to a
reference function whose properties are proved as lemmas.

Where the written code and its accompanying description disagree, the model
follows the code:
- A failing screenshot in `testPage` is inside the outer `try`, so it ends the
  page's checks with a CRITICAL issue.
- A timeline click activates only the first detail whose `data-detail`
  matches, because it uses `querySelector`.
- `pageLoads` is JavaScript `null`, not `false`, when there is no response.
  The model records it as false, since every reader treats both as "did not
  load".

## Model

| member | source | states |
|---|---|---|
| Browser.PageUrl | mobile-qa-test.js:53 | the page URL is the base URL followed by the page path, nothing more |
| Browser.FilterExact | mobile-qa-test.js:167 | the elements a `filter` keeps are exactly those of the input that pass: every kept element is an input that passes, every passing input is kept, and the result is empty iff none passes |
| Browser.SampleEmptyIff | mobile-qa-test.js:192 | a sample cut to its first n > 0 elements is empty iff no element passes the test, and holds only passing elements |
| Browser.FilterLength | mobile-qa-test.js:411-414 | the length of a filtered list is the count of passing elements |
| Browser.CountZeroIffNone | mobile-qa-test.js:420 | a count is zero iff no element passes |
| MobileQaTest.SmallTextSample | mobile-qa-test.js:153-168 | at most 10 small-text samples are kept |
| MobileQaTest.SmallButtonSample | mobile-qa-test.js:179-193 | at most 5 small-button samples are kept |
| MobileQaTest.FooterLinkSample | mobile-qa-test.js:313-331 | at most 5 small footer links are kept |
| MobileQaTest.FindPartner | mobile-qa-test.js:355-365 | the inner loop with its `break` returns the first later element too close to element i, or none |
| MobileQaTest.CrowdedPairs | mobile-qa-test.js:354-366 | the outer loop, capped at 5 entries, records the first 5 entries of the one-entry-per-crowded-element list |
| MobileQaTest.TouchSpacing | mobile-qa-test.js:343-369 | the nested loop with its `break` and its cap of 5 yields the first 5 entries of the one-entry-per-crowded-element list over the rendered clickables |
| MobileQaTest.FirstPartner | mobile-qa-test.js:355-365 | a partner found for element i lies at or after j and is too close to i |
| MobileQaTest.FirstPartnerComplete | mobile-qa-test.js:355-365 | the inner loop finds no partner iff no later element is within 8 px horizontally and 10 px vertically |
| MobileQaTest.CrowdedCountsCloseElements | mobile-qa-test.js:354-366 | the crowded list has exactly one entry per element with a close later element |
| MobileQaTest.TouchFriendlyIff | mobile-qa-test.js:370 | `touchFriendlySpacing` holds iff fewer than 3 elements have a close later element; the cap of 5 does not change the verdict |
| MobileQaTest.ProbeMenu | mobile-qa-test.js:112-149 | the menu probe records true, false, "error" or nothing as the observed clicks and evaluation dictate, and fails exactly when a step throws |
| MobileQaTest.EarlyChecks | mobile-qa-test.js:84-150 | the horizontal-scroll, hamburger and menu checks set their flags and push their issues in order, and report the first fatal exception |
| MobileQaTest.SizeChecks | mobile-qa-test.js:152-248 | the text, button, hero and image checks set their flags and push their issues in order, and report the first fatal exception |
| MobileQaTest.LayoutChecks | mobile-qa-test.js:249-370 | the grid, form, footer and touch-spacing checks set their flags and push their issues in order, and report a fatal exception |
| MobileQaTest.TestPage | mobile-qa-test.js:50-381 | the page result carries the page name, its URL, and exactly the flags and issues of the reference check sequence |
| MobileQaTest.SmallTextIff | mobile-qa-test.js:158-169 | the text sample is empty iff no element has a font size under 14 px |
| MobileQaTest.SmallButtonIff | mobile-qa-test.js:183-194 | the button sample is empty iff no element is flagged as a small tap target |
| MobileQaTest.OversizedIff | mobile-qa-test.js:226-240 | no oversized image is listed iff no image is wider than the viewport |
| MobileQaTest.MisstackedIff | mobile-qa-test.js:250-271 | no grid is reported iff no grid shows its first two children side by side |
| MobileQaTest.FormsIff | mobile-qa-test.js:281-303 | `every` form having no small input is the negation of some form having one |
| MobileQaTest.FooterSampleIff | mobile-qa-test.js:323-333 | the capped footer sample reaches 3 iff at least 3 links are between 0 and 30 px high |
| MobileQaTest.IssueRaisedIff | mobile-qa-test.js:50-381 | an issue of a given check is in the result iff that check ran and failed (or, for the error issues, threw) |
| MobileQaTest.IssuesRanked | mobile-qa-test.js:84-378 | every issue is tagged with a check rank below 12 and the ranks rise through the list |
| MobileQaTest.IssuesInCheckOrder | mobile-qa-test.js:84-378 | issues appear in the fixed order in which the checks run, at most one per check |
| MobileQaTest.LoadFailureShortCircuits | mobile-qa-test.js:65-73 | a response that is missing or not 200 leaves only `pageLoads` false and exactly one CRITICAL issue |
| MobileQaTest.TestErrorIff | mobile-qa-test.js:372-378 | the error field is set iff an unisolated step threw, and then one CRITICAL page-error issue is added |
| MobileQaTest.HorizontalScrollCheck | mobile-qa-test.js:85-94 | `noHorizontalScroll` is `scrollWidth <= clientWidth`, and a CRITICAL issue is added iff `scrollWidth > clientWidth` |
| MobileQaTest.HamburgerCheck | mobile-qa-test.js:97-112 | `hamburgerExists` is the primary match or else the fallback match; a HIGH issue is added iff neither matches; the menu is probed only when one matches |
| MobileQaTest.MenuErrorRecorded | mobile-qa-test.js:143-149 | an exception during the menu interaction sets `menuOpens` to "error", adds the MEDIUM issue, and the later checks still run |
| MobileQaTest.MenuTestsIsolated | mobile-qa-test.js:112-150 | whatever the menu does, every other flag is the same |
| MobileQaTest.MenuIssuesIsolated | mobile-qa-test.js:112-150 | whatever the menu does, every other issue is the same |
| MobileQaTest.TapTargetBoundary | mobile-qa-test.js:186-188 | 43 by 50 is flagged, 44 by 44 is not, and a zero-width element is not |
| MobileQaTest.TapTargetCheck | mobile-qa-test.js:183-201 | `tappableButtons` holds iff no element is flagged; otherwise one MEDIUM issue with 1 to 5 samples is added |
| MobileQaTest.SamplesBounded | mobile-qa-test.js:167-336 | every issue's samples respect their check's cap (10 texts, 5 buttons, 5 footer links) |
| MobileQaTest.TextCheck | mobile-qa-test.js:153-176 | `textReadable` holds iff no text is under 14 px, and a MEDIUM issue is added iff one is |
| MobileQaTest.ImagesCheck | mobile-qa-test.js:226-247 | `imagesProperlyScaled` holds iff no image is wider than the viewport, and an issue is added iff one is |
| MobileQaTest.GridCheck | mobile-qa-test.js:250-278 | `cardsStackProperly` holds iff no grid is side by side, and an issue is added iff one is |
| MobileQaTest.FormsCheck | mobile-qa-test.js:281-310 | `formsUsable` holds iff no form has a small input, and an issue is added iff one has |
| MobileQaTest.FooterCheck | mobile-qa-test.js:313-340 | `footerNavigable` holds iff a footer exists with fewer than 3 small links; a LOW issue is added iff it has 3 or more; a missing footer is false without an issue |
| MobileQaTest.TouchSpacingCheck | mobile-qa-test.js:343-370 | `touchFriendlySpacing` is fewer than 3 crowded elements, and this last check adds no issue |
| MobileQaTest.SeverityPartition | mobile-qa-test.js:411-427 | the four severity counts add up to the number of issues |
| MobileQaTest.AllIssuesLength | mobile-qa-test.js:402-408 | the gathered issue list is as long as the sum of the pages' issue counts |
| MobileQaTest.IssueTotalZeroIff | mobile-qa-test.js:418-420 | there are no issues iff no page has one |
| MobileQaTest.IssuesComeFromTheirPage | mobile-qa-test.js:405-408 | every gathered issue is tagged with the name of a page that raised it |
| MobileQaTest.SummaryConsistent | mobile-qa-test.js:417-427 | critical + high + medium + low = total issues = the sum over pages, and pages with issues is zero iff there are no issues |
| MobileQaTest.RunTests | mobile-qa-test.js:383-427 | one result per catalog page in order, the issues tagged and gathered in page order, and a summary whose severity counts add up to the total |
| MobileQaCorrectUrls.TestMobileMenu | mobile-qa-correct-urls.js:40-94 | the flags are those of the reference decision tree over the observed steps |
| MobileQaCorrectUrls.NoToggleAllFalse | mobile-qa-correct-urls.js:41-51 | without a toggle every flag stays false and nothing else is recorded; `linksClickable` is never true |
| MobileQaCorrectUrls.MenuOpensOnlyWhenShown | mobile-qa-correct-urls.js:50-67 | `menuOpens` is true iff the toggle is visible, the click succeeds, `#fullscreen-menu` exists and its `aria-hidden` is absent or empty |
| MobileQaCorrectUrls.AriaFalseIsNotOpen | mobile-qa-correct-urls.js:63-66 | an `aria-hidden` of "false" reads as not open |
| MobileQaCorrectUrls.MenuClosesIff | mobile-qa-correct-urls.js:76-85 | `menuCloses` is true iff `.menu-close` exists and `aria-hidden` is "true" after its click, and is only ever set when the button exists |
| MobileQaCorrectUrls.MenuErrorKeepsFlags | mobile-qa-correct-urls.js:47-93 | an error is recorded iff a step throws; `hamburgerVisible` keeps its true once the toggle is seen visible, and `menuOpens` keeps its verdict once the open state is read, whatever later step throws |
| MobileQaCorrectUrls.SweepPages | mobile-qa-correct-urls.js:122-154 | one entry per catalog page, in order, each a status with a scroll flag or an error |
| MobileQaCorrectUrls.ScrollMeasuredOnAnyStatus | mobile-qa-correct-urls.js:131-134 | horizontal scroll is measured whatever the status, as `scrollWidth > clientWidth` |
| MobileQaCorrectUrls.SuccessesAndFailuresPartition | mobile-qa-correct-urls.js:163-168 | successes and failures add up to the number of entries |
| MobileQaCorrectUrls.ScrollIssuesAreLoaded | mobile-qa-correct-urls.js:164 | an entry with an error is never counted as a scroll issue |
| MobileQaCorrectUrls.SweepTally | mobile-qa-correct-urls.js:123-168 | successes + failures = total = catalog length, and there are no failures iff every page answered 200 without an error |
| MobileQaCorrectUrls.RunCorrectedUrls | mobile-qa-correct-urls.js:96-154 | a failing homepage load ends the run; otherwise the menu results, one entry per page and the tally of the entries |
| Cyclic.NextIndex | js/option-c.js:547-550 | `(i + 1) % n` stays in range and is i + 1, or 0 after the last index |
| Cyclic.PrevIndex | js/option-c.js:552-555 | `(i - 1 + n) % n` stays in range and is i - 1, or n - 1 before the first index |
| Cyclic.PrevUndoesNext | js/option-c.js:547-555 | previous undoes next and next undoes previous |
| Cyclic.AdvanceWrapsOnce | js/option-c.js:547-550 | k steps forward (k at most n) land on i + k, wrapped once past the end |
| Cyclic.FullCycle | js/option-c.js:547-550 | n steps forward come back to the start, and every index is reached from any start |
| OptionCTestimonials.OnlyAt | js/option-c.js:532-545 | exactly one flag is set, the one at the given index |
| OptionCTestimonials.Carousel.constructor | js/option-c.js:509-528 | one dot per slide, dot 0 active, the first slide is current |
| OptionCTestimonials.Carousel.GoToSlide | js/option-c.js:532-545 | the old slide and dot are deactivated, the new ones activated, and the single active dot is at the current slide |
| OptionCTestimonials.Carousel.NextSlide | js/option-c.js:547-550 | through `goToSlide`, the current slide becomes the next index mod n: the old slide loses `active` and the new one gains it, only the new dot is highlighted, and one dot stays active |
| OptionCTestimonials.Carousel.PrevSlide | js/option-c.js:552-555 | through `goToSlide`, the current slide becomes the previous index mod n: the old slide loses `active` and the new one gains it, only the new dot is highlighted, and one dot stays active |
| OptionCTestimonials.Carousel.KeyDown | js/option-c.js:583-592 | the arrow keys move the carousel only while it is in view, switching the slide classes and highlighting only the new dot; other keys, or a carousel out of view, change nothing |
| OptionCTestimonials.InitTestimonials | js/option-c.js:498-507 | no carousel is set up without slides; otherwise it starts at slide 0 |
| OptionCTimeline.FirstDetail | js/option-c.js:460-461 | the detail found is the first whose `data-detail` equals the point number, and none is found iff no detail matches |
| OptionCTimeline.KeyTarget | js/option-c.js:468-485 | a new index is chosen iff the key is one of the six navigation keys, and it is in range |
| OptionCTimeline.KeyTable | js/option-c.js:471-485 | ArrowRight and ArrowDown go to (i+1) mod n, ArrowLeft and ArrowUp to (i-1+n) mod n, Home to 0, End to n-1; left undoes right |
| OptionCTimeline.Timeline.Shown | js/option-c.js:459-464 | the detail shown for a dot carries the dot's point number |
| OptionCTimeline.Timeline.ShownFlags | js/option-c.js:453-464 | the details' active flags mark exactly the one detail shown |
| OptionCTimeline.Timeline.Click | js/option-c.js:451-465 | all dots and details are cleared, then only the clicked dot and its first matching detail are active; a dot outside a timeline point throws |
| OptionCTimeline.Timeline.KeyDown | js/option-c.js:468-489 | a navigation key acts as a click on the new dot; any other key changes nothing |
| OptionCTimeline.ClickShowsFirstMatch | js/option-c.js:459-464 | the detail shown is detail k iff k is the first detail whose key equals the point number |
| OptionCDesktopNav.OpenCount | js/option-c.js:228-237 | the number of open items is at most the number of items |
| OptionCDesktopNav.AtMostOneOpen | js/option-c.js:221-237 | in a consistent state at most one item is open, and none is open iff `openDropdown` is null |
| OptionCDesktopNav.CloseAll | js/option-c.js:228-237 | every item is closed, every button's `aria-expanded` is "false" and `openDropdown` is null |
| OptionCDesktopNav.CloseAllClears | js/option-c.js:228-237 | after closing all, no button is expanded and nothing is open |
| OptionCDesktopNav.CloseAllConsistent | js/option-c.js:228-237 | closing all yields a consistent state |
| OptionCDesktopNav.OpenAfterCloseAllConsistent | js/option-c.js:124-137 | opening one item after closing all leaves exactly that item open |
| OptionCDesktopNav.ButtonClickToggles | js/option-c.js:124-137 | a click on an open item's button closes it; on a closed one it opens that item alone |
| OptionCDesktopNav.LinkFocus | js/option-c.js:180-217 | the link keys move focus within the panel; ArrowUp and Escape always move it |
| OptionCDesktopNav.DispatchKeepsConsistent | js/option-c.js:124-268 | with the button key corrected, every event keeps at most one item open, tracked by `openDropdown` |
| OptionCDesktopNav.RunKeepsOneOpen | js/option-c.js:108-268 | from an all-closed page, any sequence of events leaves at most one dropdown open |
| OptionCDesktopNav.KeyboardOpenLeavesTwoOpen | js/option-c.js:140-157 | as written, ArrowDown on a second button opens it while the first stays open |
| OptionCDesktopNav.DesktopNav.CloseAllDropdowns | js/option-c.js:228-237 | the loop over the items yields the state `CloseAll` describes |
| OptionCDesktopNav.DesktopNav.OpenDropdownMenu | js/option-c.js:221-225 | the item is opened and becomes `openDropdown` |
| OptionCDesktopNav.DesktopNav.OnButtonClick | js/option-c.js:124-137 | the click handler's new state is `ButtonClick` of the old one |
| OptionCDesktopNav.DesktopNav.OnButtonKeyDown | js/option-c.js:140-177 | the button's key handler, with other dropdowns closed before one opens |
| OptionCDesktopNav.DesktopNav.OnLinkKeyDown | js/option-c.js:180-217 | the link key handler's new state and the element it focuses |
| OptionCDesktopNav.DesktopNav.OnDocumentClick | js/option-c.js:240-244 | a click outside every open item closes them all |
| OptionCDesktopNav.DesktopNav.OnDocumentKeyDown | js/option-c.js:247-255 | Escape anywhere closes the open dropdown |
| OptionCDesktopNav.DesktopNav.OnFocusOut | js/option-c.js:258-268 | focus leaving the navigation closes every dropdown |
| OptionCDesktopNav.InitDesktopNav | js/option-c.js:108-116 | no handlers without items; otherwise the markup's state with nothing tracked as open |
| OptionCMobileMenu.Toggle | js/option-c.js:75-82 | a toggle click always leaves the menu fully open or fully closed |
| OptionCMobileMenu.EscapeKey | js/option-c.js:96-100 | Escape either leaves the menu alone or closes it |
| OptionCMobileMenu.ToggleFlips | js/option-c.js:63-100 | a toggle click flips open and closed, two clicks come back, and Escape only ever closes |
| OptionCMobileMenu.InitGuarded | js/option-c.js:55-62 | with the guard first, set-up never throws and installs handlers iff both the toggle and the menu exist |
| OptionCMobileMenu.MissingMenuThrows | js/option-c.js:57-61 | as written, a page without the full-screen menu throws; with the menu the two versions agree |
| OptionCMobileMenu.MobileMenu.OpenMenu | js/option-c.js:63-67 | `aria-hidden` "false", `aria-expanded` "true", body overflow hidden |
| OptionCMobileMenu.MobileMenu.CloseMenu | js/option-c.js:69-73 | `aria-hidden` "true", `aria-expanded` "false", body overflow cleared |
| OptionCMobileMenu.MobileMenu.OnToggleClick | js/option-c.js:75-82 | the new state is the toggle of the old |
| OptionCMobileMenu.MobileMenu.OnCloseClick | js/option-c.js:84-86 | the close button closes the menu when it exists |
| OptionCMobileMenu.MobileMenu.OnLinkClick | js/option-c.js:89-93 | a link click closes the menu |
| OptionCMobileMenu.MobileMenu.OnKeyDown | js/option-c.js:96-100 | Escape closes an open menu; nothing else changes it |
| OptionCMobileMenu.InitMobileMenu | js/option-c.js:55-101 | handlers are installed iff both elements exist, without the early exception |
| OptionCCounters.ObserveStartsOnce | js/option-c.js:414-430 | a callback starts only stats not observed before, each at most once, with its parsed target and a delay of its index times 100; non-numeric targets are skipped; every intersecting stat becomes observed |
| OptionCCounters.StaysScheduled | js/option-c.js:414-430 | over successive callbacks no stat is ever animated twice |
| OptionCCounters.Counters.OnIntersect | js/option-c.js:416-430 | the callback's loop appends exactly the animations `Observe` describes and keeps every stat animated at most once |
| OptionCEmergencyBanner.HoursMatchMillis | js/option-c.js:820-823 | 24 or more hours on the real-valued hour count is 86400000 ms or more |
| OptionCEmergencyBanner.IsDismissed | js/option-c.js:814-830 | dismissed iff storage works and holds a timestamp under 24 hours old; a timestamp 24 hours old or more is removed |
| OptionCEmergencyBanner.DismissalLastsADay | js/option-c.js:814-848 | a dismissal saved at t hides the banner until just before t + 24 h and lapses from then on; missing, empty, unparsable or null entries show the banner |
| OptionCEmergencyBanner.LapsedStaysLapsed | js/option-c.js:822-825 | once a lapsed entry is removed, the banner shows at any later time |
| OptionCEmergencyBanner.Banner.Init | js/option-c.js:805-848 | a banner dismissed within the day is hidden; otherwise the close handler is attached |
| OptionCEmergencyBanner.Banner.OnCloseClick | js/option-c.js:840-847 | the close click hides the banner and stores the time, ignoring a storage that throws |
| OptionCEmergencyBanner.Banner.OnKeyDown | js/option-c.js:840-855 | Escape on the banner clicks its wired close button, which hides the banner and stores `{timestamp: now}` (nothing when storage throws); the wiring is kept, and any other key or a missing button changes nothing |
| OptionCEmergencyBanner.Banner.Dismiss | js/option-c.js:840-869 | the debug `dismiss` clicks the wired close button if there is one, hiding the banner and storing `{timestamp: now}`; the wiring is kept, and without the button nothing changes |
| OptionCEmergencyBanner.Banner.ClearDismissal | js/option-c.js:859-869 | the debug `clearDismissal` removes the key and shows the banner, or throws with storage unavailable; the close handler's wiring is never touched |
| WebStorage.SetCookie | components/emergency-banner/emergency-banner.js:154-156 | the cookie is set and every cookie of another name is kept |
| WebStorage.DeleteCookie | components/emergency-banner/emergency-banner.js:217 | the expired cookie is gone and every other cookie is kept |
| WebStorage.CookieStringShowsPair | components/emergency-banner/emergency-banner.js:161-163 | every cookie's `name=value` appears in `document.cookie` |
| WebStorage.CookieStringNeedle | components/emergency-banner/emergency-banner.js:161-163 | a marker without `;` or space appears in `document.cookie` only inside some cookie's `name=value` |
| EmergencyBanner.AfterCheck | components/emergency-banner/emergency-banner.js:127-149 | a check never makes storage appear or disappear and only removes keys |
| EmergencyBanner.SessionCookieIsSeen | components/emergency-banner/emergency-banner.js:154-163 | after the session cookie is set, `hasSessionCookie` is true |
| EmergencyBanner.SavedIsDismissed | components/emergency-banner/emergency-banner.js:110-149 | a dismissal saved at t counts as dismissed at any time from t to t + 86400000, whether it went to storage or to the cookie |
| EmergencyBanner.ExpiryIsStrict | components/emergency-banner/emergency-banner.js:136-145 | at `now == expires` it is still dismissed; one millisecond later it is not and the key is removed; an entry without `expires` counts as dismissed |
| EmergencyBanner.UnreadableFallsBackToCookie | components/emergency-banner/emergency-banner.js:127-149 | with nothing stored, an unparsable entry or storage that throws, the answer is the session cookie and storage is left alone |
| EmergencyBanner.ClearedIsNotDismissed | components/emergency-banner/emergency-banner.js:211-220 | once the key and the cookie are cleared, the banner is not dismissed |
| EmergencyBanner.TopOrFallback | components/emergency-banner/emergency-banner.js:180 | `parseInt(top) or 107` is the parsed top unless that is 0 or NaN |
| EmergencyBanner.AnnouncementTop | components/emergency-banner/emergency-banner.js:176-182 | the announcement's top is its stylesheet top (or 107) plus the banner height |
| EmergencyBanner.AdjustDrifts | components/emergency-banner/emergency-banner.js:176-182 | as written, a second adjustment adds the banner height again (147 then 187); on a fresh page both readings agree |
| EmergencyBanner.NwEmergencyBanner.constructor | components/emergency-banner/emergency-banner.js:20-25 | the page's elements, storage and cookies, with no offsets set |
| EmergencyBanner.NwEmergencyBanner.Hide | components/emergency-banner/emergency-banner.js:88-94 | adds the hidden class and sets `aria-hidden` "true", touching nothing else |
| EmergencyBanner.NwEmergencyBanner.Show | components/emergency-banner/emergency-banner.js:99-105 | removes the hidden class and sets `aria-hidden` "false", touching nothing else |
| EmergencyBanner.NwEmergencyBanner.SaveDismissal | components/emergency-banner/emergency-banner.js:110-122 | stores `expires = now + 86400000`, or sets the session cookie when storage throws |
| EmergencyBanner.NwEmergencyBanner.IsDismissed | components/emergency-banner/emergency-banner.js:127-149 | answers `Dismissed` of the storage and cookies, removing an expired key |
| EmergencyBanner.NwEmergencyBanner.AdjustHeaderPosition | components/emergency-banner/emergency-banner.js:169-191 | header top and skip-nav offset become the banner height and the announcement top its stylesheet top plus that height, when the banner and header exist |
| EmergencyBanner.NwEmergencyBanner.ResetHeaderPosition | components/emergency-banner/emergency-banner.js:196-206 | clears the header's and the announcement's inline top |
| EmergencyBanner.NwEmergencyBanner.Dismiss | components/emergency-banner/emergency-banner.js:79-83 | hides, saves and resets the offsets, and the banner then counts as dismissed for the next 24 hours |
| EmergencyBanner.NwEmergencyBanner.Init | components/emergency-banner/emergency-banner.js:35-52 | without a banner nothing happens; otherwise hidden iff dismissed, with `aria-hidden` to match; when shown with a header, the header top and skip-nav offset become the banner height and the announcement top its stylesheet top plus that height; when hidden, the offsets are unchanged |
| EmergencyBanner.NwEmergencyBanner.OnDismissEvent | components/emergency-banner/emergency-banner.js:57-74 | a close click or Escape (key or code 27) once bound runs `dismiss()`: the banner is hidden with `aria-hidden` "true", the dismissal is saved, and the header and announcement inline tops are cleared; anything else changes nothing |
| EmergencyBanner.NwEmergencyBanner.OnResize | components/emergency-banner/emergency-banner.js:241-249 | a resize removes an expired dismissal and, while the banner is not dismissed, sets the header top and skip-nav offset to the banner height and the announcement top to its stylesheet top plus that height; when dismissed, or without banner or header, the offsets are unchanged |
| EmergencyBanner.NwEmergencyBanner.ClearDismissal | components/emergency-banner/emergency-banner.js:211-220 | removes the key and the cookie, shows the banner (nothing without one) and readjusts the header top, skip-nav offset and announcement top as `adjustHeaderPosition` does (offsets unchanged without banner or header), after which it is not dismissed |

## Left out

- Playwright launch, navigation waits, `waitForTimeout`, clicks, screenshots, `browser.close`, `fs.writeFileSync` and the console report are not modelled. Their results enter as `Step` inputs, and the written report is I/O.
- Issue descriptions, `Math.round` gaps, `substring` snippets, the hero-section details and other evidence payloads are not modelled. No decision reads them; samples are kept as their counts or values.
- The two PAGES catalogs are opaque input sequences, since they are configuration.
- `setTimeout`, debounce, the carousel autoplay with its pause and resume, and the focus-out delay are not modelled. Each handler runs as one atomic step.
- `focus()` calls are modelled only as the element `OnLinkKeyDown` returns. Focus on the dropdown's first link after ArrowDown is not modelled.
- The IntersectionObserver itself and `animateCounter`'s floating-point count-up are not modelled. The model keeps the callback's decisions and the scheduled calls with their delays.
- JSON text is not modelled. A stored value is already classified as empty, unparsable, null or an object with optional numeric fields, and JavaScript's coercion of non-number timestamps is not modelled.
- The CSS selector strings are not modelled. Each query's result is an input.
- A browser's synthetic click for Enter or Space on a button is not modelled. Key and click events are separate inputs.
- The session-storage announcement banner and the remaining option-c.js features (scroll animations, lazy loading, forms, smooth scroll, accessibility styles, metrics) are not part of this model.
- OptionCTestimonials.InitTestimonials: the dots container is assumed present whenever there are slides.
- MobileQaTest.TestPage: `pageLoads` is recorded as false where the script leaves JavaScript `null` (no response).
- EmergencyBanner.ClearedIsNotDismissed: stated only when no other cookie's `name=value` contains `nw_emergency_banner_dismissed=1`. `hasSessionCookie` is a substring search, so such a cookie would keep the banner dismissed.
- EmergencyBanner.NwEmergencyBanner.AdjustHeaderPosition: models the corrected reading of the announcement's stylesheet top. The as-written reading is `AnnouncementTopAsWritten`; see Findings.
- EmergencyBanner.NwEmergencyBanner.Init: inherits the corrected announcement reading of `AdjustHeaderPosition`. On a first adjustment, with no inline top yet, it agrees with the as-written reading (`AdjustDrifts`).
- EmergencyBanner.NwEmergencyBanner.ClearDismissal: inherits the corrected announcement reading of `AdjustHeaderPosition`. As written, a `clearDismissal` after the banner was already adjusted adds the banner height again; see Findings.
- EmergencyBanner.NwEmergencyBanner.OnResize: inherits the corrected announcement reading of `AdjustHeaderPosition`. As written, each resize sets the announcement top to `AnnouncementTopAsWritten` of its previous inline top, which drifts; see Findings.
- Fractional CSS pixel values are not modelled. Font sizes, rectangles, image widths and viewport sizes are whole pixels, so a 13.5 px font or a 43.5 px wide button cannot be expressed, and the QA thresholds are decided only for integer values.
- OptionCDesktopNav.DesktopNav.OnButtonKeyDown: models the corrected handler that closes other dropdowns first. The as-written one is `ButtonKeyAsWritten`; see Findings.
- OptionCMobileMenu.InitMobileMenu: models the guard placed before the menu is used. The as-written order is `InitAsWritten`; see Findings.

## Findings

| source | as written | input that shows it | evidently intended | confidence | as-written member | corrected member |
|---|---|---|---|---|---|---|
| js/option-c.js:140-157 | Enter, Space or ArrowDown on a dropdown button opens that dropdown without closing the one already open | two dropdowns; click the first button, then press ArrowDown on the second: both are open, and `openDropdown` tracks only the second | at most one dropdown open, as the click handler ensures by closing all first | not executed | OptionCDesktopNav.KeyboardOpenLeavesTwoOpen | OptionCDesktopNav.RunKeepsOneOpen |
| js/option-c.js:57-61 | `fullscreenMenu.querySelectorAll` runs before the guard `if (!menuToggle \|\| !fullscreenMenu) return` | a page without `.fullscreen-menu`: a TypeError escapes and `init()` skips every later feature | return quietly when the menu is missing | not executed | OptionCMobileMenu.MissingMenuThrows | OptionCMobileMenu.InitGuarded |
| components/emergency-banner/emergency-banner.js:176-182 | the announcement's top is read from the computed style, which already includes the offset set by an earlier call | stylesheet top 107 px, banner 40 px: the first adjustment gives 147 px, a resize gives 187 px | the stylesheet top (107 px) plus the banner height on every call | not executed | EmergencyBanner.AdjustDrifts | EmergencyBanner.AnnouncementTop |
