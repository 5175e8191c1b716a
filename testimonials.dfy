/** The testimonial carousel (components/Testimonials.tsx): one index moved
    by the previous and next arrows, wrapping at both ends, and set directly
    by the dots. */
module Testimonials {

  /** The number of testimonials shown. */
  const SlideCount := 3

  /** The next arrow: the last slide wraps to the first. */
  function NextIndex(i: int): (r: int)
    ensures 0 <= i < SlideCount ==> 0 <= r < SlideCount && r == (i + 1) % SlideCount
  {
    if i == SlideCount - 1 then 0 else i + 1
  }

  /** The previous arrow: the first slide wraps to the last. */
  function PrevIndex(i: int): (r: int)
    ensures 0 <= i < SlideCount ==> 0 <= r < SlideCount && r == (i + SlideCount - 1) % SlideCount
  {
    if i == 0 then SlideCount - 1 else i - 1
  }

  /** Previous undoes next. */
  lemma PrevAfterNext(i: int)
    requires 0 <= i < SlideCount
    ensures PrevIndex(NextIndex(i)) == i
  {
  }

  /** Next undoes previous. */
  lemma NextAfterPrev(i: int)
    requires 0 <= i < SlideCount
    ensures NextIndex(PrevIndex(i)) == i
  {
  }

  /** The index after `k` presses of the next arrow. */
  function NextTimes(i: int, k: nat): int {
    if k == 0 then i else NextIndex(NextTimes(i, k - 1))
  }

  /** `k` presses of the next arrow move the index `k` places round. */
  lemma {:induction false} NextTimesRotates(i: int, k: nat)
    requires 0 <= i < SlideCount
    ensures NextTimes(i, k) == (i + k) % SlideCount
  {
    if k > 0 {
      NextTimesRotates(i, k - 1);
      var j := NextTimes(i, k - 1);
      assert NextIndex(j) == (j + 1) % SlideCount;
      assert ((i + k - 1) % SlideCount + 1) % SlideCount == (i + k) % SlideCount;
    }
  }

  /** A full round of next presses returns to the start. */
  lemma FullRoundReturns(i: int)
    requires 0 <= i < SlideCount
    ensures NextTimes(i, SlideCount) == i
  {
    NextTimesRotates(i, SlideCount);
  }

  class Carousel {
    var currentIndex: int

    ghost predicate Valid()
      reads this
    {
      0 <= currentIndex < SlideCount
    }

    constructor()
      ensures Valid() && currentIndex == 0
    {
      currentIndex := 0;
    }

    method PrevSlide()
      requires Valid()
      modifies this
      ensures Valid() && currentIndex == PrevIndex(old(currentIndex))
    {
      currentIndex := if currentIndex == 0 then SlideCount - 1 else currentIndex - 1;
    }

    method NextSlide()
      requires Valid()
      modifies this
      ensures Valid() && currentIndex == NextIndex(old(currentIndex))
    {
      currentIndex := if currentIndex == SlideCount - 1 then 0 else currentIndex + 1;
    }

    /** A dot: each dot passes its own index, so `slide` is in range; the
        slide at the new index is the one shown. */
    method GoToSlide(slide: int)
      requires 0 <= slide < SlideCount
      modifies this
      ensures Valid() && currentIndex == slide
    {
      currentIndex := slide;
    }
  }
}
