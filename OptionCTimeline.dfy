/** The interactive timeline of js/option-c.js (`initTimeline`): clicking a
    dot makes it the only active dot and shows the detail panel that
    carries its point number; arrow, Home and End keys click another dot. */
module OptionCTimeline {
  import opened Browser
  import opened Cyclic
  import opened OptionCTestimonials

  /** The `.timeline-point` ancestor of a dot, if any, and its `data-point`
      attribute (None when the attribute is absent). */
  datatype DotPoint = NoTimelinePoint | DataPoint(attribute: Option<string>)

  /** The point number as the selector template spells it: a missing
      attribute is `getAttribute`'s null, which prints as "null". */
  function PointText(attribute: Option<string>): string
  {
    match attribute
    case None => "null"
    case Some(text) => text
  }

  /** `document.querySelector('.timeline-detail[data-detail="<text>"]')`:
      the first detail, in document order, whose `data-detail` is `text`. */
  function FirstDetail(detailKeys: seq<Option<string>>, text: string): (r: Option<nat>)
    ensures r.Some? ==> r.value < |detailKeys| && detailKeys[r.value] == Some(text)
    ensures r.Some? ==> forall j :: 0 <= j < r.value ==> detailKeys[j] != Some(text)
    ensures r.None? <==> forall j :: 0 <= j < |detailKeys| ==> detailKeys[j] != Some(text)
  {
    if detailKeys == [] then None
    else if detailKeys[0] == Some(text) then Some(0)
    else match FirstDetail(detailKeys[1..], text)
      case None => None
      case Some(k) => Some(k + 1)
  }

  /** The dot the keydown handler of dot `i` clicks: None for a key it
      ignores. */
  function KeyTarget(key: string, i: nat, n: nat): (r: Option<nat>)
    requires i < n
    ensures r.Some? ==> r.value < n
    ensures r.None? <==> key !in {"ArrowRight", "ArrowDown", "ArrowLeft", "ArrowUp", "Home", "End"}
  {
    if key == "ArrowRight" || key == "ArrowDown" then Some(NextIndex(i, n))
    else if key == "ArrowLeft" || key == "ArrowUp" then Some(PrevIndex(i, n))
    else if key == "Home" then Some(0)
    else if key == "End" then Some(n - 1)
    else None
  }

  /** The key table: forward keys wrap past the last dot, backward keys
      wrap before the first, Home and End jump to the ends, and a backward
      key undoes a forward one. */
  lemma KeyTable(i: nat, n: nat)
    requires i < n
    ensures KeyTarget("ArrowRight", i, n) == KeyTarget("ArrowDown", i, n)
            == Some(if i == n - 1 then 0 else i + 1)
    ensures KeyTarget("ArrowLeft", i, n) == KeyTarget("ArrowUp", i, n)
            == Some(if i == 0 then n - 1 else i - 1)
    ensures KeyTarget("Home", i, n) == Some(0) && KeyTarget("End", i, n) == Some(n - 1)
    ensures KeyTarget("ArrowLeft", KeyTarget("ArrowRight", i, n).value, n) == Some(i)
  {
    PrevUndoesNext(i, n);
  }

  /** The dots and detail panels of one timeline. */
  class Timeline {
    /** The point each dot belongs to. */
    const points: seq<DotPoint>
    /** The `data-detail` attribute of each `.timeline-detail`. */
    const detailKeys: seq<Option<string>>
    /** The `active` class of each dot. */
    var dotActive: seq<bool>
    /** The `active` class of each detail. */
    var detailActive: seq<bool>

    ghost predicate Valid()
      reads this
    {
      |dotActive| == |points| && |detailActive| == |detailKeys|
    }

    /** The timeline as the markup leaves it; the script sets nothing up
        front. */
    constructor (points: seq<DotPoint>, detailKeys: seq<Option<string>>,
                 dotActive: seq<bool>, detailActive: seq<bool>)
      requires |dotActive| == |points| && |detailActive| == |detailKeys|
      ensures Valid()
      ensures this.points == points && this.detailKeys == detailKeys
      ensures this.dotActive == dotActive && this.detailActive == detailActive
    {
      this.points := points;
      this.detailKeys := detailKeys;
      this.dotActive := dotActive;
      this.detailActive := detailActive;
    }

    /** The detail a click on dot `i` shows, if any. */
    function Shown(i: nat): (r: Option<nat>)
      requires i < |points|
      ensures r.Some? ==> r.value < |detailKeys| && points[i].DataPoint?
      ensures r.Some? ==> detailKeys[r.value] == Some(PointText(points[i].attribute))
    {
      match points[i]
      case NoTimelinePoint => None
      case DataPoint(attribute) => FirstDetail(detailKeys, PointText(attribute))
    }

    /** The detail classes after a click on dot `i`. */
    function ShownFlags(i: nat): (flags: seq<bool>)
      requires i < |points|
      ensures |flags| == |detailKeys|
      ensures forall k :: 0 <= k < |detailKeys| ==> (flags[k] <==> Shown(i) == Some(k))
    {
      match Shown(i)
      case None => seq(|detailKeys|, _ => false)
      case Some(k) => OnlyAt(|detailKeys|, k)
    }

    /** The click handler of dot `i`: every dot and detail loses `active`,
        dot `i` gains it, and then the detail carrying its point number
        does. A dot outside any `.timeline-point` makes the handler throw
        a TypeError after the dot is marked. */
    method Click(i: nat) returns (typeError: bool)
      requires Valid() && i < |points|
      modifies this
      ensures Valid()
      ensures dotActive == OnlyAt(|points|, i)
      ensures detailActive == ShownFlags(i)
      ensures typeError <==> points[i].NoTimelinePoint?
    {
      for d := 0 to |dotActive|
        invariant |dotActive| == |points| && |detailActive| == |detailKeys|
        invariant forall j :: 0 <= j < d ==> !dotActive[j]
      {
        dotActive := dotActive[d := false];
      }
      for d := 0 to |detailActive|
        invariant |dotActive| == |points| && |detailActive| == |detailKeys|
        invariant forall j :: 0 <= j < |points| ==> !dotActive[j]
        invariant forall j :: 0 <= j < d ==> !detailActive[j]
      {
        detailActive := detailActive[d := false];
      }
      dotActive := dotActive[i := true];
      match points[i] {
        case NoTimelinePoint =>
          return true;
        case DataPoint(attribute) =>
          var detail := FirstDetail(detailKeys, PointText(attribute));
          if detail.Some? {
            detailActive := detailActive[detail.value := true];
          }
          return false;
      }
    }

    /** The keydown handler of dot `i`: a navigation key clicks the dot
        it selects; any other key changes nothing. */
    method KeyDown(i: nat, key: string) returns (typeError: bool)
      requires Valid() && i < |points|
      modifies this
      ensures Valid()
      ensures KeyTarget(key, i, |points|).None? ==> unchanged(this) && !typeError
      ensures KeyTarget(key, i, |points|).Some? ==>
        var j := KeyTarget(key, i, |points|).value;
        dotActive == OnlyAt(|points|, j) && detailActive == ShownFlags(j)
        && (typeError <==> points[j].NoTimelinePoint?)
    {
      var target := KeyTarget(key, i, |points|);
      if target.None? {
        return false;
      }
      typeError := Click(target.value);
    }
  }

  /** A click shows a detail exactly when one carries the dot's point
      number, and then the first such detail in document order. */
  lemma ClickShowsFirstMatch(t: Timeline, i: nat, k: nat)
    requires i < |t.points| && t.points[i].DataPoint?
    ensures t.Shown(i) == Some(k) <==>
      k < |t.detailKeys| && t.detailKeys[k] == Some(PointText(t.points[i].attribute))
      && forall j :: 0 <= j < k ==> t.detailKeys[j] != Some(PointText(t.points[i].attribute))
  {
    var text := PointText(t.points[i].attribute);
    var r := FirstDetail(t.detailKeys, text);
    if r.Some? && r.value != k && k < |t.detailKeys| && t.detailKeys[k] == Some(text) {
      if k < r.value {
      } else {
        assert t.detailKeys[r.value] == Some(text);
      }
    }
  }
}
