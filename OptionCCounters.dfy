/** The animated statistics counters of js/option-c.js (`initCounters`):
    the first time a `.stat-number[data-target]` element scrolls into view
    its count-up animation is scheduled, staggered by its position. */
module OptionCCounters {
  import opened Browser

  /** One IntersectionObserver entry: which stat element (its position in
      the page's list) and whether it is intersecting. */
  datatype Entry = Entry(stat: nat, isIntersecting: bool)

  /** A scheduled `animateCounter(element, target)` call and its delay in
      milliseconds. */
  datatype Animation = Animation(stat: nat, target: int, delay: nat)

  /** `entries.forEach(...)` over one observer callback, from the stats
      already observed: the stats observed afterwards and the animations
      scheduled, in order. `targets` holds each stat's
      `parseInt(data-target, 10)`, None for NaN. */
  function Observe(targets: seq<Option<int>>, observed: set<nat>, entries: seq<Entry>): (set<nat>, seq<Animation>)
    requires forall e :: e in entries ==> e.stat < |targets|
  {
    if entries == [] then (observed, [])
    else
      var (seen, started) := Observe(targets, observed, entries[..|entries| - 1]);
      var e := entries[|entries| - 1];
      if e.isIntersecting && e.stat !in seen then
        (seen + {e.stat},
         if targets[e.stat].Some? then started + [Animation(e.stat, targets[e.stat].value, e.stat * 100)] else started)
      else (seen, started)
  }

  /** One more entry, handled after the ones before it. */
  lemma ObserveStep(targets: seq<Option<int>>, observed: set<nat>, entries: seq<Entry>, e: Entry)
    requires forall x :: x in entries + [e] ==> x.stat < |targets|
    ensures forall x :: x in entries ==> x.stat < |targets|
    ensures var before := Observe(targets, observed, entries);
      Observe(targets, observed, entries + [e]) ==
        if e.isIntersecting && e.stat !in before.0 then
          (before.0 + {e.stat},
           if targets[e.stat].Some? then before.1 + [Animation(e.stat, targets[e.stat].value, e.stat * 100)]
           else before.1)
        else before
  {
    assert forall x :: x in entries ==> x in entries + [e];
    assert (entries + [e])[..|entries|] == entries;
  }

  /** The stats the entries report as intersecting. */
  function Intersecting(entries: seq<Entry>): set<nat>
  {
    set e | e in entries && e.isIntersecting :: e.stat
  }

  /** The animations are well formed: each one's target is its stat's
      number, its delay is the stat's position times 100, and no stat is
      animated twice. */
  predicate Scheduled(targets: seq<Option<int>>, observed: set<nat>, started: seq<Animation>)
  {
    (forall a :: a in started ==>
       a.stat in observed && a.stat < |targets| && targets[a.stat] == Some(a.target) && a.delay == a.stat * 100)
    && (forall i, j :: 0 <= i < j < |started| ==> started[i].stat != started[j].stat)
  }

  /** One callback starts only stats not observed before, at most once
      each, with the right target and delay, and skips a stat whose
      target is not a number; every intersecting stat ends up observed,
      and nothing else does. */
  lemma {:induction false} ObserveStartsOnce(targets: seq<Option<int>>, observed: set<nat>, entries: seq<Entry>)
    requires forall e :: e in entries ==> e.stat < |targets|
    ensures var (seen, started) := Observe(targets, observed, entries);
      Scheduled(targets, seen, started)
      && (forall a :: a in started ==> a.stat !in observed)
      && seen == observed + Intersecting(entries)
      && (forall s :: s in seen && s !in observed && targets[s].Some? ==>
            exists a :: a in started && a.stat == s)
  {
    if entries != [] {
      var prefix := entries[..|entries| - 1];
      var e := entries[|entries| - 1];
      assert forall x :: x in prefix ==> x in entries;
      ObserveStartsOnce(targets, observed, prefix);
      assert entries == prefix + [e];
      assert Intersecting(entries) == Intersecting(prefix) + (if e.isIntersecting then {e.stat} else {});
    }
  }

  /** The observer of one page's stats. */
  class Counters {
    /** `parseInt(data-target, 10)` of each stat; None for NaN. */
    const targets: seq<Option<int>>
    /** `observedStats` */
    var observed: set<nat>
    /** Every animation scheduled so far, in order. */
    var scheduled: seq<Animation>

    ghost predicate Valid()
      reads this
    {
      Scheduled(targets, observed, scheduled)
    }

    constructor (targets: seq<Option<int>>)
      ensures Valid() && this.targets == targets && observed == {} && scheduled == []
    {
      this.targets := targets;
      observed := {};
      scheduled := [];
    }

    /** The observer callback. */
    method OnIntersect(entries: seq<Entry>)
      requires Valid() && forall e :: e in entries ==> e.stat < |targets|
      modifies this
      ensures Valid()
      ensures |old(scheduled)| <= |scheduled| && scheduled[..|old(scheduled)|] == old(scheduled)
      ensures (observed, scheduled[|old(scheduled)|..]) == Observe(targets, old(observed), entries)
    {
      ghost var observed0 := observed;
      ghost var scheduled0 := scheduled;
      ghost var started: seq<Animation> := [];
      for k := 0 to |entries|
        invariant scheduled == scheduled0 + started
        invariant forall e :: e in entries[..k] ==> e in entries
        invariant (observed, started) == Observe(targets, observed0, entries[..k])
      {
        assert entries[..k + 1] == entries[..k] + [entries[k]];
        assert forall e :: e in entries[..k + 1] ==> e in entries;
        var entry := entries[k];
        ObserveStep(targets, observed0, entries[..k], entry);
        if entry.isIntersecting && entry.stat !in observed {
          observed := observed + {entry.stat};
          var target := targets[entry.stat];
          if target.Some? {
            scheduled := scheduled + [Animation(entry.stat, target.value, entry.stat * 100)];
            started := started + [Animation(entry.stat, target.value, entry.stat * 100)];
          }
        }
      }
      assert entries[..|entries|] == entries;
      assert scheduled[|scheduled0|..] == started;
      ObserveStartsOnce(targets, observed0, entries);
      StaysScheduled(targets, observed0, scheduled0, observed, started);
    }
  }

  /** Animations scheduled earlier and those of a later callback together
      still start each stat at most once. */
  lemma StaysScheduled(targets: seq<Option<int>>, observed0: set<nat>, earlier: seq<Animation>,
                       observed: set<nat>, later: seq<Animation>)
    requires Scheduled(targets, observed0, earlier) && Scheduled(targets, observed, later)
    requires observed0 <= observed
    requires forall a :: a in later ==> a.stat !in observed0
    ensures Scheduled(targets, observed, earlier + later)
  {
    var all := earlier + later;
    forall i, j | 0 <= i < j < |all|
      ensures all[i].stat != all[j].stat
    {
      if j >= |earlier| && i < |earlier| {
        assert all[i] in earlier && all[j] in later;
      } else if i >= |earlier| {
        assert all[i] == later[i - |earlier|] && all[j] == later[j - |earlier|];
      }
    }
  }
}
