/** What the QA scripts observe of a page through the browser-automation
    library. Every awaited browser call (navigation, element query, click,
    screenshot, script evaluation) is an input value: either the value it
    resolved to, or the exception it raised. Rectangles and sizes are whole
    pixels. */
module Browser {

  datatype Option<+T> = None | Some(value: T)

  /** The outcome of one awaited browser call. */
  datatype Step<+T> = Done(value: T) | Threw(message: string)

  /** An element's bounding client rectangle. */
  datatype Rect = Rect(left: int, top: int, width: int, height: int)
  {
    function Right(): int { left + width }
    function Bottom(): int { top + height }
  }

  /** document.documentElement's scroll and client widths. */
  datatype ScrollMetrics = ScrollMetrics(scrollWidth: int, clientWidth: int)

  /** The page overflows the viewport sideways: both QA scripts evaluate
      exactly this comparison (strict, so equal widths do not overflow). */
  predicate HasHorizontalScroll(m: ScrollMetrics)
  {
    m.scrollWidth > m.clientWidth
  }

  /** Both QA scripts test pages of one deployment. */
  const BaseUrl := "https://nwestco-v1-5.tandemtheory.com"

  /** A catalog entry: a page name and its path under BaseUrl. */
  datatype PageInfo = PageInfo(name: string, path: string)

  function PageUrl(info: PageInfo): (url: string)
    ensures |url| == |BaseUrl| + |info.path|
    ensures url[..|BaseUrl|] == BaseUrl && url[|BaseUrl|..] == info.path
  {
    BaseUrl + info.path
  }

  /** The response of page.goto: null, or a response with an HTTP status. */
  datatype Response = NoResponse | Response(status: int)

  /** A list filter, kept in order. */
  function Filter<T>(s: seq<T>, p: T -> bool): (r: seq<T>)
    ensures |r| <= |s|
  {
    if s == [] then []
    else (if p(s[0]) then [s[0]] else []) + Filter(s[1..], p)
  }

  /** Array.prototype.slice(0, n). */
  function Take<T>(s: seq<T>, n: nat): (r: seq<T>)
    ensures |r| == if |s| <= n then |s| else n
    ensures r <= s
  {
    if |s| <= n then s else s[..n]
  }

  /** The number of elements of s that satisfy p. */
  function Count<T>(s: seq<T>, p: T -> bool): (c: nat)
    ensures c <= |s|
  {
    if s == [] then 0
    else (if p(s[0]) then 1 else 0) + Count(s[1..], p)
  }

  /** Filter keeps exactly the elements that satisfy p: it is empty iff
      none does, and everything it keeps is an element that satisfies p. */
  lemma {:induction false} FilterExact<T>(s: seq<T>, p: T -> bool)
    ensures forall x :: x in Filter(s, p) ==> x in s && p(x)
    ensures forall k :: 0 <= k < |s| && p(s[k]) ==> s[k] in Filter(s, p)
    ensures Filter(s, p) == [] <==> forall k :: 0 <= k < |s| ==> !p(s[k])
  {
    if s != [] {
      FilterExact(s[1..], p);
      assert forall k :: 1 <= k < |s| ==> s[k] == s[1..][k - 1];
    }
  }

  /** A sample of at most n > 0 filtered elements is empty iff no element
      satisfies p. */
  lemma SampleEmptyIff<T>(s: seq<T>, p: T -> bool, n: nat)
    requires n > 0
    ensures Take(Filter(s, p), n) == [] <==> forall k :: 0 <= k < |s| ==> !p(s[k])
    ensures forall x :: x in Take(Filter(s, p), n) ==> x in s && p(x)
  {
    FilterExact(s, p);
  }

  lemma {:induction false} FilterLength<T>(s: seq<T>, p: T -> bool)
    ensures |Filter(s, p)| == Count(s, p)
  {
    if s != [] {
      FilterLength(s[1..], p);
    }
  }

  lemma {:induction false} CountZeroIffNone<T>(s: seq<T>, p: T -> bool)
    ensures Count(s, p) == 0 <==> forall k :: 0 <= k < |s| ==> !p(s[k])
  {
    if s != [] {
      CountZeroIffNone(s[1..], p);
      assert forall k :: 1 <= k < |s| ==> s[k] == s[1..][k - 1];
    }
  }
}
