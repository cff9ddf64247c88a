/** The carousel controller: the state that the page-load callback keeps in its
    closure (the slide index, the interval handle) and the DOM it writes (the
    track's transform, the dots' active class), with one method per function or
    event handler of the source. */
module CarouselController {
  import opened CarouselSpec

  class Carousel {
    /** The number of slide images; fixed once the carousel is set up. */
    const n: nat
    /** The slide in view (currentIndex). */
    var currentIndex: int
    /** The track's horizontal translation, in percent (the translateX of its transform). */
    var offset: int
    /** One dot element per slide; an entry is true when the dot has the active class. */
    var dots: array<bool>
    /** The handle last returned by setInterval (slideInterval); 0 before the first call. */
    var slideInterval: nat
    /** The handles of the intervals that are armed, i.e. set and not yet cleared. */
    var armed: set<nat>
    /** The handle the next setInterval call returns; handles are positive and never reused. */
    var nextHandle: nat

    ghost predicate Valid()
      reads this, dots
    {
      n >= 1 &&
      dots.Length == n &&
      0 <= currentIndex < n &&
      offset == TrackOffset(currentIndex) &&
      dots[..] == DotsFor(n, currentIndex) &&
      armed <= {slideInterval} &&
      slideInterval < nextHandle
    }

    /** The setup sequence run when the track, the images and the dot container
        were all found: createDots, showSlide(0), startAutoSlide. */
    constructor (slideCount: nat)
      requires slideCount >= 1
      ensures Valid() && fresh(dots)
      ensures n == slideCount && currentIndex == 0 && offset == 0
      ensures dots[..] == DotsFor(n, 0)
      ensures armed == {slideInterval}
    {
      n := slideCount;
      currentIndex := 0;
      offset := 0;
      dots := new bool[0];
      slideInterval := 0;
      armed := {};
      nextHandle := 1;
      new;
      CreateDots();
      ShowSlide(0);
      StartAutoSlide();
    }

    /** createDots: replaces the dot container's contents by one dot per slide,
        only the first of them active. */
    method CreateDots()
      modifies this`dots
      ensures fresh(dots) && dots.Length == n
      ensures dots[..] == DotsFor(n, 0)
    {
      var created := new bool[n];
      for i := 0 to n
        invariant forall j :: 0 <= j < i ==> (created[j] <==> j == 0)
      {
        created[i] := i == 0;
      }
      dots := created;
    }

    /** updateDots: walks the dots and gives the active class to the dot of the
        current slide only. */
    method UpdateDots()
      requires dots.Length == n
      modifies dots
      ensures dots[..] == DotsFor(n, currentIndex)
    {
      for i := 0 to n
        invariant forall j :: 0 <= j < i ==> (dots[j] <==> j == currentIndex)
      {
        if i == currentIndex {
          dots[i] := true;
        } else {
          dots[i] := false;
        }
      }
    }

    /** showSlide: normalises `index` with the wrap rule, moves the track and
        refreshes the dots. The timers are not touched. */
    method ShowSlide(index: int)
      requires Valid()
      modifies this`currentIndex, this`offset, dots
      ensures Valid()
      ensures currentIndex == Normalize(index, n)
      ensures offset == TrackOffset(currentIndex)
      ensures forall j :: 0 <= j < n ==> (dots[j] <==> j == currentIndex)
      ensures CountActive(dots[..]) == 1
    {
      if index >= n {
        currentIndex := 0;
      } else if index < 0 {
        currentIndex := n - 1;
      } else {
        currentIndex := index;
      }
      offset := TrackOffset(currentIndex);
      UpdateDots();
      ExactlyOneDotActive(n, currentIndex);
    }

    /** nextSlide */
    method NextSlide()
      requires Valid()
      modifies this`currentIndex, this`offset, dots
      ensures Valid()
      ensures currentIndex == NextIndex(old(currentIndex), n)
    {
      ShowSlide(currentIndex + 1);
    }

    /** prevSlide */
    method PrevSlide()
      requires Valid()
      modifies this`currentIndex, this`offset, dots
      ensures Valid()
      ensures currentIndex == PrevIndex(old(currentIndex), n)
    {
      ShowSlide(currentIndex - 1);
    }

    /** clearInterval(slideInterval): disarms the interval the handle names, if it is armed. */
    method ClearInterval()
      requires Valid()
      modifies this`armed
      ensures Valid()
      ensures armed == old(armed) - {slideInterval} == {}
    {
      armed := armed - {slideInterval};
    }

    /** startAutoSlide: clears the current interval, then arms a new one under a
        fresh handle. Exactly one interval is armed afterwards, whatever was
        armed before, so repeated calls never accumulate timers. */
    method StartAutoSlide()
      requires Valid()
      modifies this`armed, this`slideInterval, this`nextHandle
      ensures Valid()
      ensures slideInterval == old(nextHandle) && slideInterval !in old(armed)
      ensures armed == {slideInterval} && |armed| == 1
    {
      ClearInterval();
      slideInterval := nextHandle;
      nextHandle := nextHandle + 1;
      armed := armed + {slideInterval};
    }

    /** A tick of the interval with handle `t`: an armed interval calls nextSlide;
        a cleared one never fires, so its tick changes nothing. */
    method Tick(t: nat)
      requires Valid()
      modifies this`currentIndex, this`offset, dots
      ensures Valid()
      ensures currentIndex == if t in armed then NextIndex(old(currentIndex), n) else old(currentIndex)
    {
      if t in armed {
        NextSlide();
      }
    }

    /** mouseenter on the track: stops auto-advancing. */
    method MouseEnter()
      requires Valid()
      modifies this`armed
      ensures Valid()
      ensures armed == {}
    {
      ClearInterval();
    }

    /** mouseleave on the track: auto-advancing starts again with a full interval. */
    method MouseLeave()
      requires Valid()
      modifies this`armed, this`slideInterval, this`nextHandle
      ensures Valid()
      ensures slideInterval == old(nextHandle) && slideInterval !in old(armed)
      ensures armed == {slideInterval}
    {
      StartAutoSlide();
    }

    /** A click on the next button: one slide forward, and the countdown restarts. */
    method NextButtonClick()
      requires Valid()
      modifies this, dots
      ensures Valid() && dots == old(dots)
      ensures currentIndex == NextIndex(old(currentIndex), n)
      ensures slideInterval == old(nextHandle) && slideInterval !in old(armed)
      ensures armed == {slideInterval}
    {
      NextSlide();
      StartAutoSlide();
    }

    /** A click on the previous button: one slide back, and the countdown restarts. */
    method PrevButtonClick()
      requires Valid()
      modifies this, dots
      ensures Valid() && dots == old(dots)
      ensures currentIndex == PrevIndex(old(currentIndex), n)
      ensures slideInterval == old(nextHandle) && slideInterval !in old(armed)
      ensures armed == {slideInterval}
    {
      PrevSlide();
      StartAutoSlide();
    }

    /** A click on dot `k` (one dot exists per slide): shows slide `k`, and the
        countdown restarts. */
    method DotClick(k: nat)
      requires Valid() && k < n
      modifies this, dots
      ensures Valid() && dots == old(dots)
      ensures currentIndex == k && dots[k]
      ensures slideInterval == old(nextHandle) && slideInterval !in old(armed)
      ensures armed == {slideInterval}
    {
      ShowSlide(k);
      StartAutoSlide();
    }
  }

  /** The page-load guard: without the track, without any slide image or without
      the dot container the carousel is not set up at all (no dots, no timer, no
      listeners); otherwise it is, with `imageCount` slides. */
  method Initialize(trackFound: bool, imageCount: nat, dotsContainerFound: bool) returns (c: Carousel?)
    ensures (c != null) <==> (trackFound && imageCount > 0 && dotsContainerFound)
    ensures c != null ==> fresh(c) && fresh(c.dots) && c.Valid()
    ensures c != null ==> c.n == imageCount && c.currentIndex == 0 && c.offset == 0
    ensures c != null ==> c.dots[0] && CountActive(c.dots[..]) == 1
    ensures c != null ==> |c.armed| == 1
  {
    if !trackFound || imageCount == 0 || !dotsContainerFound {
      c := null;
    } else {
      c := new Carousel(imageCount);
      ExactlyOneDotActive(c.n, 0);
    }
  }
}
