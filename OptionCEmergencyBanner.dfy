/** The emergency banner handling built into js/option-c.js
    (`initEmergencyBanner` and the `window.NwEmergencyBanner` debug object):
    a dismissal stored as `{timestamp}` that lapses after 24 hours. */
module OptionCEmergencyBanner {
  import opened Browser
  import opened WebStorage

  const StorageKey := "emergencyBannerDismissed"
  const DismissHours := 24
  /** 24 hours in milliseconds, the span `hoursSince >= 24` measures. */
  const DismissMillis := 86400000

  /** The entry under the key, as `getItem` yields it (None for null). */
  function Entry(storage: map<string, Stored>): Option<Stored>
  {
    if StorageKey in storage then Some(storage[StorageKey]) else None
  }

  /** The stored dismissal is current: a readable timestamp less than 24
      hours old, or no numeric timestamp at all (NaN never compares as 24
      hours or more). */
  predicate Current(entry: Option<Stored>, now: int)
  {
    entry.Some? && entry.value.JsonValue?
    && (entry.value.timestamp.None? || now - entry.value.timestamp.value < DismissMillis)
  }

  /** The entry is a timestamp 24 hours old or more: `isDismissed` removes it. */
  predicate Lapsed(entry: Option<Stored>, now: int)
  {
    entry.Some? && entry.value.JsonValue? && entry.value.timestamp.Some?
    && now - entry.value.timestamp.value >= DismissMillis
  }

  /** `hoursSince >= DISMISS_HOURS` on the real-valued hour count is the
      same test as 24 hours' worth of milliseconds. */
  lemma HoursMatchMillis(elapsed: int)
    ensures (elapsed as real / 3600000.0 >= DismissHours as real) <==> elapsed >= DismissMillis
  {
  }

  /** `isDismissed()` on a storage that is None when every access throws:
      whether the banner stays hidden, and the storage afterwards. */
  method IsDismissed(storage: LocalStorage, now: int) returns (dismissed: bool, after: LocalStorage)
    ensures dismissed <==> storage.Some? && Current(Entry(storage.value), now)
    ensures after == if storage.Some? && Lapsed(Entry(storage.value), now)
                     then Some(storage.value - {StorageKey}) else storage
  {
    after := storage;
    if storage.None? {
      return false, after;
    }
    var data := Entry(storage.value);
    if data.None? || data.value.EmptyText? {
      return false, after;
    }
    match data.value {
      case Unparsable => return false, after;
      case JsonNull => return false, after;
      case JsonValue(timestamp, _) =>
        if timestamp.None? {
          return true, after;
        }
        var hoursSince := (now - timestamp.value) as real / 3600000.0;
        HoursMatchMillis(now - timestamp.value);
        if hoursSince >= DismissHours as real {
          after := Some(storage.value - {StorageKey});
          return false, after;
        }
        return true, after;
    }
  }

  /** What the close button's handler stores: `{timestamp: now}`. */
  function Dismissal(now: int): Stored
  {
    JsonValue(Some(now), None)
  }

  /** A dismissal saved at `saved` keeps the banner hidden for exactly the
      next 24 hours: at `saved + 86400000` it has lapsed and is removed. A
      missing, empty, unparsable or null entry, or a storage that throws,
      shows the banner. */
  lemma DismissalLastsADay(storage: map<string, Stored>, saved: int, now: int)
    ensures var s := storage[StorageKey := Dismissal(saved)];
      (Current(Entry(s), now) <==> now < saved + DismissMillis)
      && (Lapsed(Entry(s), now) <==> now >= saved + DismissMillis)
    ensures StorageKey !in storage ==> !Current(Entry(storage), now)
    ensures StorageKey in storage && !storage[StorageKey].JsonValue? ==> !Current(Entry(storage), now)
  {
  }

  /** A lapsed entry is removed, so the next check shows the banner too. */
  lemma LapsedStaysLapsed(storage: map<string, Stored>, now: int, later: int)
    requires Lapsed(Entry(storage), now)
    ensures !Current(Entry(storage - {StorageKey}), later)
    ensures !Lapsed(Entry(storage - {StorageKey}), later)
  {
  }

  /** The banner as `initEmergencyBanner` leaves it. */
  class Banner {
    /** Whether `#emergency-banner` is on the page. */
    const present: bool
    /** Whether it holds an `.emergency-banner__close` button. */
    const hasCloseButton: bool
    /** The banner's `hidden` class. */
    var hidden: bool
    var storage: LocalStorage
    /** Whether the close handler was attached. */
    var closeWired: bool

    constructor (present: bool, hasCloseButton: bool, hidden: bool, storage: LocalStorage)
      ensures this.present == present && this.hasCloseButton == hasCloseButton
      ensures this.hidden == hidden && this.storage == storage && !closeWired
    {
      this.present := present;
      this.hasCloseButton := hasCloseButton;
      this.hidden := hidden;
      this.storage := storage;
      closeWired := false;
    }

    /** `initEmergencyBanner()`: hide a banner dismissed within the last
        day, otherwise attach the close handler. */
    method Init(now: int)
      modifies this
      ensures !present ==> unchanged(this)
      ensures present ==> var current := old(storage).Some? && Current(Entry(old(storage).value), now);
        hidden == (old(hidden) || current)
        && closeWired == (old(closeWired) || (!current && hasCloseButton))
        && storage == if old(storage).Some? && Lapsed(Entry(old(storage).value), now)
                      then Some(old(storage).value - {StorageKey}) else old(storage)
    {
      if !present {
        return;
      }
      var dismissed;
      dismissed, storage := IsDismissed(storage, now);
      if dismissed {
        hidden := true;
        return;
      }
      if hasCloseButton {
        closeWired := true;
      }
    }

    /** A click on the close button: hide the banner and store the time;
        a storage that throws is ignored. */
    method OnCloseClick(now: int)
      modifies this
      ensures closeWired == old(closeWired)
      ensures closeWired ==> hidden && storage == (if old(storage).Some?
                                                   then Some(old(storage).value[StorageKey := Dismissal(now)])
                                                   else None)
      ensures !closeWired ==> unchanged(this)
    {
      if !closeWired {
        return;
      }
      hidden := true;
      if storage.Some? {
        storage := Some(storage.value[StorageKey := Dismissal(now)]);
      }
    }

    /** Escape on the banner clicks the close button, when there is one. */
    method OnKeyDown(key: string, now: int)
      modifies this
      ensures closeWired == old(closeWired)
      ensures key == "Escape" && hasCloseButton && old(closeWired) ==>
                hidden && storage == (if old(storage).Some?
                                      then Some(old(storage).value[StorageKey := Dismissal(now)])
                                      else None)
      ensures key != "Escape" || !hasCloseButton || !old(closeWired) ==> unchanged(this)
    {
      if key == "Escape" && hasCloseButton {
        OnCloseClick(now);
      }
    }

    /** `NwEmergencyBanner.dismiss()`: click the close button, if any. */
    method Dismiss(now: int)
      modifies this
      ensures closeWired == old(closeWired)
      ensures hasCloseButton && old(closeWired) ==>
                hidden && storage == (if old(storage).Some?
                                      then Some(old(storage).value[StorageKey := Dismissal(now)])
                                      else None)
      ensures !hasCloseButton || !old(closeWired) ==> unchanged(this)
    {
      if hasCloseButton {
        OnCloseClick(now);
      }
    }

    /** `NwEmergencyBanner.clearDismissal()`: remove the key and show the
        banner; with storage unavailable the call throws before showing. */
    method ClearDismissal() returns (threw: bool)
      modifies this
      ensures threw <==> old(storage).None?
      ensures closeWired == old(closeWired)
      ensures !threw ==> storage == Some(old(storage).value - {StorageKey}) && (hidden == (old(hidden) && !present))
      ensures threw ==> unchanged(this)
    {
      if storage.None? {
        return true;
      }
      storage := Some(storage.value - {StorageKey});
      if present {
        hidden := false;
      }
      return false;
    }
  }
}
