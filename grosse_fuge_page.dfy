/**
 * The Grosse Fuge project page: the same four visualisations in a carousel
 * of one item per slide, which loads the iframes of the current item and its
 * two neighbours only.
 */
module GrosseFugePage {

  const VisualizationCount: nat := 4

  /** `visualizations.length - 1`: one item per slide, so the slides
      `0..m` are exactly the items. */
  function MaxSlide(len: nat): (m: int)
    ensures m + 1 == len
  {
    len - 1
  }

  /** The slides `0..MaxSlide(len)` are exactly the items, and each item's
      iframe is loaded on its own slide. */
  lemma SlidesAreItems(len: nat, s: int)
    ensures 0 <= s <= MaxSlide(len) <==> 0 <= s < len
    ensures 0 <= s < len ==> s in LoadedItems(len, s)
  {
  }

  /** `Math.abs(i - currentSlide) <= 1`. */
  predicate IframeLoaded(i: int, slide: int) {
    -1 <= i - slide <= 1
  }

  /** The items whose iframe is loaded on a slide. */
  function LoadedItems(len: nat, slide: int): set<int> {
    set i | 0 <= i < len && IframeLoaded(i, slide)
  }

  /** On slide `s` the item shown and its two neighbours are loaded and
      nothing further away; at most three iframes are ever loaded. */
  lemma LoadedWindow(len: nat, s: int)
    requires 0 <= s < len
    ensures s in LoadedItems(len, s)
    ensures s > 0 ==> s - 1 in LoadedItems(len, s)
    ensures s + 1 < len ==> s + 1 in LoadedItems(len, s)
    ensures forall i :: i in LoadedItems(len, s) ==> s - 1 <= i <= s + 1
    ensures |LoadedItems(len, s)| <= 3
  {
    var window := {s - 1, s, s + 1};
    assert LoadedItems(len, s) <= window;
    assert |window| == 3;
    assert window == LoadedItems(len, s) + (window - LoadedItems(len, s));
  }

  /** The slide index of the carousel. */
  class Carousel {
    const maxSlide: int
    var currentSlide: int

    ghost predicate Valid()
      reads this
    {
      0 <= currentSlide <= maxSlide
    }

    constructor ()
      ensures Valid()
      ensures maxSlide == MaxSlide(VisualizationCount) && currentSlide == 0
    {
      maxSlide := MaxSlide(VisualizationCount);
      currentSlide := 0;
    }

    /** `disabled={currentSlide === 0}`. */
    predicate PrevDisabled()
      reads this
    {
      currentSlide == 0
    }

    /** `disabled={currentSlide === maxSlide}`. */
    predicate NextDisabled()
      reads this
    {
      currentSlide == maxSlide
    }

    /** `Math.max(0, prev - 1)`: one slide back, never before the first; it
        moves exactly when the button is enabled. */
    method Prev()
      requires Valid()
      modifies this
      ensures Valid()
      ensures currentSlide == if old(currentSlide) > 0 then old(currentSlide) - 1 else 0
      ensures currentSlide != old(currentSlide) <==> !old(PrevDisabled())
    {
      currentSlide := if currentSlide - 1 >= 0 then currentSlide - 1 else 0;
    }

    /** `Math.min(maxSlide, prev + 1)`: one slide on, never past the last;
        it moves exactly when the button is enabled. */
    method Next()
      requires Valid()
      modifies this
      ensures Valid()
      ensures currentSlide == if old(currentSlide) < maxSlide then old(currentSlide) + 1 else maxSlide
      ensures currentSlide != old(currentSlide) <==> !old(NextDisabled())
    {
      currentSlide := if currentSlide + 1 <= maxSlide then currentSlide + 1 else maxSlide;
    }

    /** A dot click: one dot is drawn per slide, `0..maxSlide`. */
    method GoTo(i: int)
      requires Valid() && 0 <= i <= maxSlide
      modifies this
      ensures Valid() && currentSlide == i
    {
      currentSlide := i;
    }
  }
}
