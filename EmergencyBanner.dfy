/** The emergency spill-response banner controller of
    components/emergency-banner/emergency-banner.js (`NwEmergencyBanner`):
    a dismissal kept for 24 hours in localStorage, with a session cookie
    when storage throws, and the fixed header and announcement banner
    pushed down by the banner's height while it shows. */
module EmergencyBanner {
  import opened Browser
  import opened WebStorage

  const StorageKey := "nw_emergency_banner_dismissed"
  /** 24 hours in milliseconds. */
  const DismissDuration := 24 * 60 * 60 * 1000
  /** What `hasSessionCookie` looks for in `document.cookie`. */
  const SessionMarker := StorageKey + "=1"
  /** The announcement banner's top when its computed top parses to 0 or NaN. */
  const FallbackTop := 107

  /** What `saveDismissal` stores at time `now`. */
  function Dismissal(now: int): Stored
  {
    JsonValue(Some(now), Some(now + DismissDuration))
  }

  predicate HasSessionCookie(jar: seq<Cookie>)
  {
    Contains(CookieString(jar), SessionMarker)
  }

  /** Storage works and holds a JSON value under the key, so the stored
      expiry decides. Otherwise (storage throws, nothing or the empty
      string is stored, the text does not parse, or it is JSON null) the
      session cookie decides. */
  predicate Readable(storage: LocalStorage)
  {
    storage.Some? && StorageKey in storage.value && storage.value[StorageKey].JsonValue?
  }

  /** A readable entry whose `expires` is a number strictly before `now`.
      Without a numeric `expires` the comparison is false. */
  predicate Expired(storage: LocalStorage, now: int)
  {
    Readable(storage) && storage.value[StorageKey].expires.Some?
    && now > storage.value[StorageKey].expires.value
  }

  /** What `isDismissed` answers. */
  predicate Dismissed(storage: LocalStorage, jar: seq<Cookie>, now: int)
  {
    if Readable(storage) then !Expired(storage, now) else HasSessionCookie(jar)
  }

  /** The storage after `isDismissed`: an expired entry is removed. */
  function AfterCheck(storage: LocalStorage, now: int): (r: LocalStorage)
    ensures r.Some? == storage.Some?
    ensures r.Some? ==> r.value.Keys <= storage.value.Keys
  {
    if Expired(storage, now) then Some(storage.value - {StorageKey}) else storage
  }

  /** The storage and cookie jar after `saveDismissal` at `now`. */
  function Save(storage: LocalStorage, jar: seq<Cookie>, now: int): (LocalStorage, seq<Cookie>)
  {
    if storage.Some? then (Some(storage.value[StorageKey := Dismissal(now)]), jar)
    else (storage, SetCookie(jar, StorageKey, "1"))
  }

  /** The cookie `setSessionCookie` sets is the one `hasSessionCookie`
      finds. */
  lemma SessionCookieIsSeen(jar: seq<Cookie>)
    ensures HasSessionCookie(SetCookie(jar, StorageKey, "1"))
  {
    var r := SetCookie(jar, StorageKey, "1");
    CookieStringShowsPair(r, Cookie(StorageKey, "1"));
    assert Pair(Cookie(StorageKey, "1")) == SessionMarker;
  }

  /** A dismissal saved at `saved` is honoured from then until its expiry
      inclusive, whichever store took it. */
  lemma SavedIsDismissed(storage: LocalStorage, jar: seq<Cookie>, saved: int, now: int)
    requires saved <= now <= saved + DismissDuration
    ensures Dismissed(Save(storage, jar, saved).0, Save(storage, jar, saved).1, now)
  {
    if storage.None? {
      SessionCookieIsSeen(jar);
    }
  }

  /** Expiry is strict: at the expiry instant the entry still counts, one
      millisecond later it does not and is removed; an entry without a
      numeric `expires` never expires. */
  lemma ExpiryIsStrict(storage: map<string, Stored>, saved: int, jar: seq<Cookie>, now: int, t: Option<int>)
    ensures var s := Some(storage[StorageKey := Dismissal(saved)]);
      Dismissed(s, jar, saved + DismissDuration)
      && !Dismissed(s, jar, saved + DismissDuration + 1)
      && AfterCheck(s, saved + DismissDuration + 1) == Some(storage[StorageKey := Dismissal(saved)] - {StorageKey})
    ensures Dismissed(Some(storage[StorageKey := JsonValue(t, None)]), jar, now)
  {
  }

  /** Nothing readable in storage: the session cookie alone decides. */
  lemma UnreadableFallsBackToCookie(storage: LocalStorage, jar: seq<Cookie>, now: int)
    requires storage.None? || StorageKey !in storage.value || !storage.value[StorageKey].JsonValue?
    ensures Dismissed(storage, jar, now) <==> HasSessionCookie(jar)
    ensures AfterCheck(storage, now) == storage
  {
  }

  /** The marker cannot straddle two cookies of `document.cookie`. */
  lemma MarkerHasNoSeparator()
    ensures |SessionMarker| > 0 && ';' !in SessionMarker && ' ' !in SessionMarker
  {
    assert SessionMarker == "nw_emergency_banner_dismissed=1";
  }

  /** After `clearDismissal` with working storage, nothing is dismissed,
      provided no other cookie spells out the marker. */
  lemma ClearedIsNotDismissed(storage: map<string, Stored>, jar: seq<Cookie>, now: int)
    requires forall c :: c in jar && c.name != StorageKey ==> !Contains(Pair(c), SessionMarker)
    ensures !Dismissed(Some(storage - {StorageKey}), DeleteCookie(jar, StorageKey), now)
  {
    MarkerHasNoSeparator();
    CookieStringNeedle(DeleteCookie(jar, StorageKey), SessionMarker);
  }

  /** `parseInt(top) || 107`: None stands for NaN. */
  function TopOrFallback(top: Option<int>): (px: int)
    ensures px != 0
    ensures top.Some? && top.value != 0 ==> px == top.value
  {
    if top.None? || top.value == 0 then FallbackTop else top.value
  }

  /** The computed `top` of the announcement banner: its inline style when
      one is set, otherwise the stylesheet's. */
  function ComputedTop(inlineTop: Option<int>, cssTop: Option<int>): Option<int>
  {
    if inlineTop.Some? then inlineTop else cssTop
  }

  /** The announcement banner's new top as `adjustHeaderPosition` computes
      it: from the computed top, which includes any offset it set before. */
  function AnnouncementTopAsWritten(inlineTop: Option<int>, cssTop: Option<int>, bannerHeight: int): int
  {
    TopOrFallback(ComputedTop(inlineTop, cssTop)) + bannerHeight
  }

  /** The announcement banner's new top measured from the stylesheet's top,
      as the comment at that line intends ("should be 107px from CSS"). */
  function AnnouncementTop(cssTop: Option<int>, bannerHeight: int): (px: int)
    ensures cssTop.Some? && cssTop.value != 0 ==> px == cssTop.value + bannerHeight
    ensures cssTop.None? || cssTop.value == 0 ==> px == FallbackTop + bannerHeight
  {
    TopOrFallback(cssTop) + bannerHeight
  }

  /** As written, every adjustment after the first (a resize while the
      banner shows) adds the banner height again: with a 40px banner the
      announcement moves from 107px to 147px, then to 187px. On a first
      adjustment, with no inline top yet, the two agree. */
  lemma AdjustDrifts()
    ensures var first := AnnouncementTopAsWritten(None, Some(107), 40);
            var second := AnnouncementTopAsWritten(Some(first), Some(107), 40);
            first == 147 == AnnouncementTop(Some(107), 40) && second == 187
    ensures forall css, h :: AnnouncementTopAsWritten(None, css, h) == AnnouncementTop(css, h)
  {
  }

  class NwEmergencyBanner {
    const bannerPresent: bool
    const headerPresent: bool
    const announcementPresent: bool
    const skipNavPresent: bool
    const closeButtonPresent: bool
    /** The stylesheet's `top` for `#announcement-banner`, parsed. */
    const announcementCssTop: Option<int>

    /** The banner's hidden class and `aria-hidden` attribute. */
    var hidden: bool
    var ariaHidden: Option<string>
    var storage: LocalStorage
    var cookies: seq<Cookie>
    /** Inline `top` styles in px; None is the empty style. */
    var headerTop: Option<int>
    var announcementTop: Option<int>
    /** The skip link's `--banner-offset` in px. */
    var skipNavOffset: Option<int>
    /** Whether `bindEvents` has attached the close and Escape handlers. */
    var bound: bool

    constructor (bannerPresent: bool, headerPresent: bool, announcementPresent: bool,
                 skipNavPresent: bool, closeButtonPresent: bool, announcementCssTop: Option<int>,
                 hidden: bool, ariaHidden: Option<string>, storage: LocalStorage, cookies: seq<Cookie>)
      ensures this.bannerPresent == bannerPresent && this.headerPresent == headerPresent
      ensures this.announcementPresent == announcementPresent && this.skipNavPresent == skipNavPresent
      ensures this.closeButtonPresent == closeButtonPresent && this.announcementCssTop == announcementCssTop
      ensures this.hidden == hidden && this.ariaHidden == ariaHidden
      ensures this.storage == storage && this.cookies == cookies
      ensures headerTop.None? && announcementTop.None? && skipNavOffset.None? && !bound
    {
      this.bannerPresent := bannerPresent;
      this.headerPresent := headerPresent;
      this.announcementPresent := announcementPresent;
      this.skipNavPresent := skipNavPresent;
      this.closeButtonPresent := closeButtonPresent;
      this.announcementCssTop := announcementCssTop;
      this.hidden := hidden;
      this.ariaHidden := ariaHidden;
      this.storage := storage;
      this.cookies := cookies;
      headerTop := None;
      announcementTop := None;
      skipNavOffset := None;
      bound := false;
    }

    /** `hide()`: touches only the hidden class and `aria-hidden`; a second
        call changes nothing. */
    method Hide()
      modifies this`hidden, this`ariaHidden
      ensures bannerPresent ==> hidden && ariaHidden == Some("true")
      ensures !bannerPresent ==> hidden == old(hidden) && ariaHidden == old(ariaHidden)
    {
      if bannerPresent {
        hidden := true;
        ariaHidden := Some("true");
      }
    }

    /** `show()`: touches only the hidden class and `aria-hidden`; a second
        call changes nothing. */
    method Show()
      modifies this`hidden, this`ariaHidden
      ensures bannerPresent ==> !hidden && ariaHidden == Some("false")
      ensures !bannerPresent ==> hidden == old(hidden) && ariaHidden == old(ariaHidden)
    {
      if bannerPresent {
        hidden := false;
        ariaHidden := Some("false");
      }
    }

    /** `saveDismissal()` at time `now`. */
    method SaveDismissal(now: int)
      modifies this`storage, this`cookies
      ensures (storage, cookies) == Save(old(storage), old(cookies), now)
    {
      if storage.Some? {
        storage := Some(storage.value[StorageKey := Dismissal(now)]);
      } else {
        cookies := SetCookie(cookies, StorageKey, "1");
      }
    }

    /** `isDismissed()` at time `now`. */
    method IsDismissed(now: int) returns (dismissed: bool)
      modifies this`storage
      ensures dismissed == Dismissed(old(storage), cookies, now)
      ensures storage == AfterCheck(old(storage), now)
    {
      if storage.None? || StorageKey !in storage.value {
        return HasSessionCookie(cookies);
      }
      var stored := storage.value[StorageKey];
      match stored {
        case EmptyText => return HasSessionCookie(cookies);
        case Unparsable => return HasSessionCookie(cookies);
        case JsonNull => return HasSessionCookie(cookies);
        case JsonValue(_, expires) =>
          if expires.Some? && now > expires.value {
            storage := Some(storage.value - {StorageKey});
            return false;
          }
          return true;
      }
    }

    /** `adjustHeaderPosition()` given the banner's current `offsetHeight`,
        with the announcement offset measured from its stylesheet top. */
    method AdjustHeaderPosition(bannerHeight: int)
      modifies this`headerTop, this`announcementTop, this`skipNavOffset
      ensures bannerPresent && headerPresent ==> headerTop == Some(bannerHeight)
      ensures bannerPresent && headerPresent && announcementPresent ==>
        announcementTop == Some(AnnouncementTop(announcementCssTop, bannerHeight))
      ensures bannerPresent && headerPresent && skipNavPresent ==> skipNavOffset == Some(bannerHeight)
      ensures !(bannerPresent && headerPresent) ==> unchanged(this`headerTop, this`announcementTop, this`skipNavOffset)
      ensures !announcementPresent ==> announcementTop == old(announcementTop)
      ensures !skipNavPresent ==> skipNavOffset == old(skipNavOffset)
    {
      if bannerPresent && headerPresent {
        headerTop := Some(bannerHeight);
        if announcementPresent {
          announcementTop := Some(AnnouncementTop(announcementCssTop, bannerHeight));
        }
        if skipNavPresent {
          skipNavOffset := Some(bannerHeight);
        }
      }
    }

    /** `resetHeaderPosition()` */
    method ResetHeaderPosition()
      modifies this`headerTop, this`announcementTop
      ensures headerTop == if headerPresent then None else old(headerTop)
      ensures announcementTop == if announcementPresent then None else old(announcementTop)
    {
      if headerPresent {
        headerTop := None;
      }
      if announcementPresent {
        announcementTop := None;
      }
    }

    /** `dismiss()`: hide, remember for a day, and release the header. */
    method Dismiss(now: int)
      modifies this`hidden, this`ariaHidden, this`storage, this`cookies, this`headerTop, this`announcementTop
      ensures bannerPresent ==> hidden && ariaHidden == Some("true")
      ensures !bannerPresent ==> hidden == old(hidden) && ariaHidden == old(ariaHidden)
      ensures (storage, cookies) == Save(old(storage), old(cookies), now)
      ensures headerTop == if headerPresent then None else old(headerTop)
      ensures announcementTop == if announcementPresent then None else old(announcementTop)
      ensures forall t :: now <= t <= now + DismissDuration ==> Dismissed(storage, cookies, t)
    {
      Hide();
      SaveDismissal(now);
      ResetHeaderPosition();
      forall t | now <= t <= now + DismissDuration
        ensures Dismissed(storage, cookies, t)
      {
        SavedIsDismissed(old(storage), old(cookies), now, t);
      }
    }

    /** `init()`: nothing without the banner; otherwise hide it when it was
        dismissed, or show it and push the header down, and bind the
        handlers. */
    method Init(now: int, bannerHeight: int)
      modifies this`bound, this`storage, this`hidden, this`ariaHidden,
               this`headerTop, this`announcementTop, this`skipNavOffset
      ensures !bannerPresent ==> unchanged(this)
      ensures bannerPresent ==>
        bound && storage == AfterCheck(old(storage), now) && cookies == old(cookies)
        && (hidden <==> Dismissed(old(storage), old(cookies), now))
        && ariaHidden == Some(if hidden then "true" else "false")
      ensures bannerPresent && hidden ==>
        unchanged(this`headerTop, this`announcementTop, this`skipNavOffset)
      ensures bannerPresent && !hidden && headerPresent ==>
        headerTop == Some(bannerHeight)
        && (announcementPresent ==> announcementTop == Some(AnnouncementTop(announcementCssTop, bannerHeight)))
        && (skipNavPresent ==> skipNavOffset == Some(bannerHeight))
        && (!announcementPresent ==> announcementTop == old(announcementTop))
        && (!skipNavPresent ==> skipNavOffset == old(skipNavOffset))
      ensures !headerPresent ==> unchanged(this`headerTop, this`announcementTop, this`skipNavOffset)
    {
      if !bannerPresent {
        return;
      }
      var dismissed := IsDismissed(now);
      if dismissed {
        Hide();
      } else {
        Show();
        AdjustHeaderPosition(bannerHeight);
      }
      bound := true;
    }

    /** A click on the close button, or Escape (by `key` or `keyCode`) on
        the banner, once the handlers are bound. */
    method OnDismissEvent(closeClicked: bool, key: string, keyCode: int, now: int)
      modifies this`hidden, this`ariaHidden, this`storage, this`cookies, this`headerTop, this`announcementTop
      ensures var fires := bound && ((closeClicked && closeButtonPresent) || key == "Escape" || keyCode == 27);
        (fires ==>
          (bannerPresent ==> hidden && ariaHidden == Some("true"))
          && (!bannerPresent ==> hidden == old(hidden) && ariaHidden == old(ariaHidden))
          && (storage, cookies) == Save(old(storage), old(cookies), now)
          && headerTop == (if headerPresent then None else old(headerTop))
          && announcementTop == (if announcementPresent then None else old(announcementTop)))
        && (!fires ==> unchanged(this))
    {
      if bound && ((closeClicked && closeButtonPresent) || key == "Escape" || keyCode == 27) {
        Dismiss(now);
      }
    }

    /** The debounced resize handler: re-adjust while not dismissed. */
    method OnResize(now: int, bannerHeight: int)
      modifies this`storage, this`headerTop, this`announcementTop, this`skipNavOffset
      ensures storage == AfterCheck(old(storage), now)
      ensures Dismissed(old(storage), cookies, now) ==>
        unchanged(this`headerTop, this`announcementTop, this`skipNavOffset)
      ensures !Dismissed(old(storage), cookies, now) && bannerPresent && headerPresent ==>
        headerTop == Some(bannerHeight)
        && (announcementPresent ==> announcementTop == Some(AnnouncementTop(announcementCssTop, bannerHeight)))
        && (skipNavPresent ==> skipNavOffset == Some(bannerHeight))
        && (!announcementPresent ==> announcementTop == old(announcementTop))
        && (!skipNavPresent ==> skipNavOffset == old(skipNavOffset))
      ensures !(bannerPresent && headerPresent) ==>
        unchanged(this`headerTop, this`announcementTop, this`skipNavOffset)
    {
      var dismissed := IsDismissed(now);
      if !dismissed {
        AdjustHeaderPosition(bannerHeight);
      }
    }

    /** `clearDismissal()`: forget the dismissal in both stores, then show
        the banner and push the header down. */
    method ClearDismissal(now: int, bannerHeight: int)
      modifies this`storage, this`cookies, this`hidden, this`ariaHidden,
               this`headerTop, this`announcementTop, this`skipNavOffset
      ensures storage == if old(storage).Some? then Some(old(storage).value - {StorageKey}) else None
      ensures cookies == DeleteCookie(old(cookies), StorageKey)
      ensures bannerPresent ==> !hidden && ariaHidden == Some("false")
      ensures !bannerPresent ==> hidden == old(hidden) && ariaHidden == old(ariaHidden)
      ensures bannerPresent && headerPresent ==>
        headerTop == Some(bannerHeight)
        && (announcementPresent ==> announcementTop == Some(AnnouncementTop(announcementCssTop, bannerHeight)))
        && (skipNavPresent ==> skipNavOffset == Some(bannerHeight))
        && (!announcementPresent ==> announcementTop == old(announcementTop))
        && (!skipNavPresent ==> skipNavOffset == old(skipNavOffset))
      ensures !(bannerPresent && headerPresent) ==>
        unchanged(this`headerTop, this`announcementTop, this`skipNavOffset)
      ensures old(storage).Some? && (forall c :: c in old(cookies) && c.name != StorageKey ==>
                                       !Contains(Pair(c), SessionMarker))
              ==> !Dismissed(storage, cookies, now)
    {
      if storage.Some? {
        storage := Some(storage.value - {StorageKey});
      }
      cookies := DeleteCookie(cookies, StorageKey);
      Show();
      AdjustHeaderPosition(bannerHeight);
      if old(storage).Some? && (forall c :: c in old(cookies) && c.name != StorageKey ==>
                                  !Contains(Pair(c), SessionMarker)) {
        ClearedIsNotDismissed(old(storage).value, old(cookies), now);
      }
    }
  }
}
