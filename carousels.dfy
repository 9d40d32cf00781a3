/**
 * The two slide carousels of the home page (initCarousel in
 * blog/static/blog/js/script.js): a strip of equally wide items shifted
 * left by the current index times the item width, previous and next
 * buttons that wrap around at either end, and one dot per item of which
 * the current one is active. The width is the layout's measure of the
 * first item at the moment a slide is shown, so it is a parameter.
 */
module Carousels {
  import opened Dom

  /** The index showSlide settles on for a requested `k`: before the first
      item it goes to the last, past the last it goes to the first. */
  function SlideIndex(k: int, length: nat): (i: nat)
    requires length > 0
    ensures i < length
    ensures 0 <= k < length ==> i == k
    ensures k < 0 ==> i == length - 1
    ensures k >= length ==> i == 0
  {
    if k < 0 then length - 1 else if k >= length then 0 else k
  }

  /** For the requests the buttons and a resize can make (one step either
      side of a valid index) the wrapping is arithmetic modulo the length. */
  lemma SlideIndexIsModular(k: int, length: nat)
    requires length > 0 && -1 <= k <= length
    ensures SlideIndex(k, length) == k % length
  {
    if k == length {
      assert k % length == 0;
    } else if k == -1 {
      assert (length - 1) % length == length - 1;
    }
  }

  /** Previous after next, and next after previous, come back to the start. */
  lemma NextThenPrev(i: nat, length: nat)
    requires i < length
    ensures SlideIndex(SlideIndex(i + 1, length) - 1, length) == i
    ensures SlideIndex(SlideIndex(i - 1, length) + 1, length) == i
  {
  }

  /** The index after `steps` clicks on the next button starting from `i`. */
  function Advance(i: nat, steps: nat, length: nat): (j: nat)
    requires i < length
    ensures j < length
  {
    if steps == 0 then i else SlideIndex(Advance(i, steps - 1, length) + 1, length)
  }

  /** `steps` clicks on the next button move `steps` places around the ring;
      in particular `length` clicks come back to the start. */
  lemma {:induction false} AdvanceIsRotation(i: nat, steps: nat, length: nat)
    requires i < length
    ensures Advance(i, steps, length) == (i + steps) % length
  {
    if steps > 0 {
      AdvanceIsRotation(i, steps - 1, length);
      var prev := Advance(i, steps - 1, length);
      SlideIndexIsModular(prev + 1, length);
      ModSucc(i + steps - 1, length);
    }
  }

  lemma MulAtLeast(length: nat, d: int)
    requires length > 0 && d >= 1
    ensures length * d >= length
  {
  }

  /** Euclidean remainders are unique. */
  lemma ModUnique(a: int, length: nat, q: int, r: int)
    requires length > 0 && 0 <= r < length && a == length * q + r
    ensures a % length == r
  {
    var d := q - a / length;
    assert length * d == a % length - r;
    if d >= 1 {
      MulAtLeast(length, d);
    } else if d <= -1 {
      MulAtLeast(length, -d);
    }
  }

  lemma ModSucc(n: nat, length: nat)
    requires length > 0
    ensures (n + 1) % length == (n % length + 1) % length
  {
    var q, r := n / length, n % length;
    if r + 1 < length {
      ModUnique(n + 1, length, q, r + 1);
      ModUnique(r + 1, length, 0, r + 1);
    } else {
      assert length * (q + 1) == length * q + length;
      ModUnique(n + 1, length, q + 1, 0);
      ModUnique(r + 1, length, 1, 0);
    }
  }

  lemma FullTurn(i: nat, length: nat)
    requires i < length
    ensures Advance(i, length, length) == i
  {
    AdvanceIsRotation(i, length, length);
    ModUnique(i + length, length, 1, i);
  }

  class Carousel {
    /** Number of items, and number of dots; the page gives them separately. */
    const length: nat
    const dotCount: nat

    var current: nat
    /** The strip's horizontal translation, in pixels. */
    var offset: int
    var dotActive: seq<bool>

    ghost predicate Valid()
      reads this
    {
      length > 0 && current < length && |dotActive| == dotCount
    }

    /** The carousel as the page renders it, before the first showSlide. */
    constructor (length: nat, dots: seq<bool>)
      requires length > 0
      ensures Valid()
      ensures this.length == length && dotCount == |dots| && dotActive == dots
      ensures current == 0 && offset == 0
    {
      this.length := length;
      dotCount := |dots|;
      current := 0;
      offset := 0;
      dotActive := dots;
    }

    /** showSlide: settle on SlideIndex(k), shift the strip to that item,
        and toggle every dot so that only the one with the current index is
        active (none when there are fewer dots than that). */
    method ShowSlide(k: int, width: int)
      requires Valid()
      modifies this
      ensures Valid()
      ensures current == SlideIndex(k, length)
      ensures offset == -(current * width)
      ensures dotActive == Marker(dotCount, current)
    {
      current := SlideIndex(k, length);
      offset := -(current * width);
      var d := 0;
      while d < dotCount
        invariant d <= dotCount && |dotActive| == dotCount
        invariant current == SlideIndex(k, length) && offset == -(current * width)
        invariant forall e | 0 <= e < d :: dotActive[e] == (e == current)
      {
        dotActive := dotActive[d := d == current];
        d := d + 1;
      }
    }

    /** The previous button. */
    method Prev(width: int)
      requires Valid()
      modifies this
      ensures Valid() && dotActive == Marker(dotCount, current) && offset == -(current * width)
      ensures current == (old(current) - 1) % length
    {
      SlideIndexIsModular(current - 1, length);
      ShowSlide(current - 1, width);
    }

    /** The next button. */
    method Next(width: int)
      requires Valid()
      modifies this
      ensures Valid() && dotActive == Marker(dotCount, current) && offset == -(current * width)
      ensures current == (old(current) + 1) % length
    {
      SlideIndexIsModular(current + 1, length);
      ShowSlide(current + 1, width);
    }

    /** A click on dot `d`; a dot beyond the last item goes to the first. */
    method DotClick(d: nat, width: int)
      requires Valid() && d < dotCount
      modifies this
      ensures Valid() && dotActive == Marker(dotCount, current) && offset == -(current * width)
      ensures current == (if d < length then d else 0)
    {
      ShowSlide(d, width);
    }

    /** A window resize re-shows the current item at the new width. */
    method Resize(width: int)
      requires Valid()
      modifies this
      ensures Valid() && dotActive == Marker(dotCount, current)
      ensures current == old(current) && offset == -(current * width)
    {
      ShowSlide(current, width);
    }
  }

  /** initCarousel: nothing is set up when the wrapper is missing or there
      is no item; otherwise the first item is shown at once. */
  method InitCarousel(hasWrapper: bool, itemCount: nat, dots: seq<bool>, width: int)
      returns (c: Carousel?)
    ensures c == null <==> !hasWrapper || itemCount == 0
    ensures c != null ==> fresh(c) && c.Valid() && c.length == itemCount && c.dotCount == |dots|
    ensures c != null ==> c.current == 0 && c.offset == 0 && c.dotActive == Marker(|dots|, 0)
  {
    if !hasWrapper || itemCount == 0 {
      return null;
    }
    c := new Carousel(itemCount, dots);
    c.ShowSlide(0, width);
  }
}
