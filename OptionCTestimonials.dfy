/** The testimonial carousel of js/option-c.js (`initTestimonials`): one dot
    button per slide, a current index moved by the dots, the previous/next
    buttons and the arrow keys, with exactly one dot marked active. */
module OptionCTestimonials {
  import opened Cyclic

  /** A class list over `n` elements where only element `k` has the class. */
  function OnlyAt(n: nat, k: nat): (flags: seq<bool>)
    ensures |flags| == n
    ensures forall i :: 0 <= i < n ==> (flags[i] <==> i == k)
  {
    seq(n, i => i == k)
  }

  /** The slide classes and dot state of a carousel of `count` slides. */
  class Carousel {
    /** `slides.length` */
    const count: nat
    /** `currentSlide` */
    var current: nat
    /** The `active` class of each slide. */
    var slideActive: seq<bool>
    /** The `active` class of each dot. */
    var dotActive: seq<bool>
    /** Whether each dot's background is the highlight colour
        (`var(--nwestco-blue)`) rather than the neutral one. */
    var dotHighlighted: seq<bool>

    /** Exactly one dot is active, the current one, and no other dot is
        highlighted. */
    ghost predicate Valid()
      reads this
    {
      0 < count && current < count
      && |slideActive| == count && |dotHighlighted| == count
      && dotActive == OnlyAt(count, current)
      && (forall i :: 0 <= i < count && dotHighlighted[i] ==> i == current)
    }

    /** The slides' own `active` classes follow the current index, as they
        do when the markup starts with only the first slide active. */
    ghost predicate SlidesInStep()
      reads this
    {
      slideActive == OnlyAt(count, current)
    }

    /** The set-up after the early return for a page without slides: the
        dots are created, only the first one active, all of them neutral;
        the slides keep the classes the markup gave them. */
    constructor (markup: seq<bool>)
      requires |markup| > 0
      ensures Valid()
      ensures count == |markup| && current == 0 && slideActive == markup
      ensures dotHighlighted == seq(|markup|, _ => false)
    {
      count := |markup|;
      current := 0;
      slideActive := markup;
      var dots: seq<bool> := [];
      var backgrounds: seq<bool> := [];
      for index := 0 to |markup|
        invariant dots == seq(index, i => i == 0)
        invariant backgrounds == seq(index, _ => false)
      {
        dots := dots + [index == 0];
        backgrounds := backgrounds + [false];
      }
      dotActive := dots;
      dotHighlighted := backgrounds;
    }

    /** `goToSlide(index)`: the current slide and dot lose their marks and
        slide and dot `index` gain them. */
    method GoToSlide(index: nat)
      requires Valid() && index < count
      modifies this
      ensures Valid() && current == index
      ensures slideActive == old(slideActive)[old(current) := false][index := true]
      ensures dotHighlighted == OnlyAt(count, index)
      ensures old(SlidesInStep()) ==> SlidesInStep()
    {
      slideActive := slideActive[current := false];
      dotActive := dotActive[current := false];
      dotHighlighted := dotHighlighted[current := false];
      current := index;
      slideActive := slideActive[current := true];
      dotActive := dotActive[current := true];
      dotHighlighted := dotHighlighted[current := true];
    }

    /** `nextSlide()` */
    method NextSlide()
      requires Valid()
      modifies this
      ensures Valid() && current == NextIndex(old(current), count)
      ensures slideActive == old(slideActive)[old(current) := false][current := true]
      ensures dotHighlighted == OnlyAt(count, current)
      ensures old(SlidesInStep()) ==> SlidesInStep()
    {
      GoToSlide(NextIndex(current, count));
    }

    /** `prevSlide()` */
    method PrevSlide()
      requires Valid()
      modifies this
      ensures Valid() && current == PrevIndex(old(current), count)
      ensures slideActive == old(slideActive)[old(current) := false][current := true]
      ensures dotHighlighted == OnlyAt(count, current)
      ensures old(SlidesInStep()) ==> SlidesInStep()
    {
      GoToSlide(PrevIndex(current, count));
    }

    /** The document keydown handler: arrows move the carousel only while
        it is on the page and in the viewport. */
    method KeyDown(key: string, carouselInView: bool)
      requires Valid()
      modifies this
      ensures Valid()
      ensures current == (if carouselInView && key == "ArrowLeft" then PrevIndex(old(current), count)
                          else if carouselInView && key == "ArrowRight" then NextIndex(old(current), count)
                          else old(current))
      ensures carouselInView && (key == "ArrowLeft" || key == "ArrowRight") ==>
                slideActive == old(slideActive)[old(current) := false][current := true]
                && dotHighlighted == OnlyAt(count, current)
      ensures old(SlidesInStep()) ==> SlidesInStep()
      ensures !carouselInView || (key != "ArrowLeft" && key != "ArrowRight") ==> unchanged(this)
    {
      if !carouselInView {
        return;
      }
      if key == "ArrowLeft" {
        PrevSlide();
      } else if key == "ArrowRight" {
        NextSlide();
      }
    }
  }

  /** `initTestimonials`: no carousel when the page has no slides. */
  method InitTestimonials(markup: seq<bool>) returns (c: Carousel?)
    ensures c == null <==> |markup| == 0
    ensures c != null ==> fresh(c) && c.Valid() && c.current == 0 && c.slideActive == markup
  {
    if |markup| == 0 {
      return null;
    }
    c := new Carousel(markup);
  }
}
