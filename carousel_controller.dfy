/**
 The category carousel as the page runs it: one controller whose fields are
 the closure variables of the page script (`cardsPerView`, `currentPosition`,
 `isScrollingForward`) plus what a render leaves behind (the active flag of
 each indicator and the horizontal offset of the track). Every input handler
 is a method whose effect on the three variables is the `Step` of
 CarouselLogic for its event, and which leaves the page rendered for the new
 state.
 */
module CarouselController {
  import opened CarouselLogic

  class Carousel {
    /** Number of category cards; fixed for the life of the page. */
    const cardCount: nat
    var cardsPerView: int
    var currentPosition: nat
    var isScrollingForward: bool

    /** Measured width of the first card, without the gap. */
    var cardWidth: int
    /** Active flag of each indicator element, in order. */
    var indicators: seq<bool>
    /** How far left the track is translated, in pixels. */
    var offset: int

    /** The controller's invariant: at least one card and a breakpoint value
        for `cardsPerView`. The position may lie beyond the last slide. */
    ghost predicate Valid()
      reads this
    {
      WellFormed(cardCount, Model())
    }

    /** The page shows the current state: one indicator per slide, the one
        at the position marked, and the track shifted to the position. */
    ghost predicate Rendered()
      reads this
      requires Valid()
    {
      && indicators == IndicatorFlags(SlideCount(cardCount, cardsPerView), currentPosition)
      && offset == TrackOffset(currentPosition, cardWidth, cardsPerView)
    }

    /** The three closure variables as a value. */
    ghost function Model(): State
      reads this
    {
      State(cardsPerView, currentPosition, isScrollingForward)
    }

    /** Page load: breakpoint, position 0, forward, indicators, first render. */
    constructor(cardCount: nat, innerWidth: int, offsetWidth: int)
      requires cardCount >= 1
      ensures this.cardCount == cardCount
      ensures Valid() && Rendered()
      ensures Model() == Initial(cardCount, innerWidth)
      ensures cardWidth == offsetWidth
    {
      this.cardCount := cardCount;
      cardsPerView := CardsPerView(innerWidth);
      currentPosition := 0;
      isScrollingForward := true;
      cardWidth := offsetWidth;
      indicators := [];
      offset := 0;
      new;
      CreateIndicators();
      UpdateTrackPosition();
    }

    /** Rebuilds the indicator row: one per slide, the first one active. */
    method CreateIndicators()
      requires Valid()
      modifies this`indicators
      ensures indicators == IndicatorFlags(SlideCount(cardCount, cardsPerView), 0)
    {
      indicators := [];
      var totalSlides := SlideCount(cardCount, cardsPerView);
      var i := 0;
      while i < totalSlides
        invariant 0 <= i <= totalSlides
        invariant |indicators| == i
        invariant forall j :: 0 <= j < i ==> indicators[j] == (j == 0)
      {
        indicators := indicators + [i == 0];
        i := i + 1;
      }
    }

    /** Shifts the track to the current position and marks the indicator
        whose index is the position, clearing all others. */
    method UpdateTrackPosition()
      modifies this`indicators, this`offset
      ensures offset == TrackOffset(currentPosition, cardWidth, cardsPerView)
      ensures indicators == IndicatorFlags(|old(indicators)|, currentPosition)
    {
      offset := TrackOffset(currentPosition, cardWidth, cardsPerView);
      var activeIndex := currentPosition;
      var i := 0;
      while i < |indicators|
        invariant 0 <= i <= |indicators| == |old(indicators)|
        invariant forall j :: 0 <= j < i ==> indicators[j] == (j == activeIndex)
        invariant offset == TrackOffset(currentPosition, cardWidth, cardsPerView)
      {
        indicators := indicators[i := i == activeIndex];
        i := i + 1;
      }
      assert indicators == IndicatorFlags(|indicators|, activeIndex);
    }

    /** `goToSlide`, run by an indicator click. */
    method GoToSlide(slideIndex: int)
      requires Valid() && Rendered()
      modifies this`currentPosition, this`indicators, this`offset
      ensures Valid() && Rendered()
      ensures Model() == Step(cardCount, old(Model()), GoTo(slideIndex))
    {
      var maxPosition := MaxPosition(cardCount, cardsPerView);
      currentPosition := Clamp(slideIndex, maxPosition);
      UpdateTrackPosition();
    }

    /** `scrollNext`; the wrap to the first slide renders twice. */
    method ScrollNext()
      requires Valid() && Rendered()
      modifies this`currentPosition, this`indicators, this`offset
      ensures Valid() && Rendered()
      ensures currentPosition == ScrolledForward(cardCount, old(Model()))
    {
      var maxPosition := MaxPosition(cardCount, cardsPerView);
      if currentPosition < maxPosition {
        currentPosition := currentPosition + 1;
      } else {
        currentPosition := 0;
        UpdateTrackPosition();
      }
      UpdateTrackPosition();
    }

    /** `scrollPrev`; the wrap to the last slide renders twice. */
    method ScrollPrev()
      requires Valid() && Rendered()
      modifies this`currentPosition, this`indicators, this`offset
      ensures Valid() && Rendered()
      ensures currentPosition == ScrolledBackward(cardCount, old(Model()))
    {
      var maxPosition := MaxPosition(cardCount, cardsPerView);
      if currentPosition > 0 {
        currentPosition := currentPosition - 1;
      } else {
        currentPosition := maxPosition;
        UpdateTrackPosition();
      }
      UpdateTrackPosition();
    }

    /** Click on the left arrow: back one slide, direction backward. */
    method ScrollLeftClicked()
      requires Valid() && Rendered()
      modifies this`currentPosition, this`isScrollingForward, this`indicators, this`offset
      ensures Valid() && Rendered()
      ensures Model() == Step(cardCount, old(Model()), ScrollLeftClick)
    {
      ScrollPrev();
      isScrollingForward := false;
    }

    /** Click on the right arrow: forward one slide, direction forward. */
    method ScrollRightClicked()
      requires Valid() && Rendered()
      modifies this`currentPosition, this`isScrollingForward, this`indicators, this`offset
      ensures Valid() && Rendered()
      ensures Model() == Step(cardCount, old(Model()), ScrollRightClick)
    {
      ScrollNext();
      isScrollingForward := true;
    }

    /** Body of the auto-scroll interval: one slide in the current direction. */
    method AutoScrollTicked()
      requires Valid() && Rendered()
      modifies this`currentPosition, this`indicators, this`offset
      ensures Valid() && Rendered()
      ensures Model() == Step(cardCount, old(Model()), AutoScrollTick)
    {
      if isScrollingForward {
        ScrollNext();
      } else {
        ScrollPrev();
      }
    }

    /** Body of the direction-change interval. */
    method DirectionTicked()
      requires Valid() && Rendered()
      modifies this`isScrollingForward
      ensures Valid() && Rendered()
      ensures Model() == Step(cardCount, old(Model()), DirectionTick)
    {
      isScrollingForward := !isScrollingForward;
    }

    /** `handleSwipe` for a touch that started at `touchStartX` and ended at
        `touchEndX` (screen coordinates). */
    method HandleSwipe(touchStartX: int, touchEndX: int)
      requires Valid() && Rendered()
      modifies this`currentPosition, this`isScrollingForward, this`indicators, this`offset
      ensures Valid() && Rendered()
      ensures Model() == Step(cardCount, old(Model()), Swipe(touchStartX, touchEndX))
    {
      var diff := touchStartX - touchEndX;
      if Abs(diff) > SwipeThreshold {
        if diff > 0 {
          ScrollNext();
          isScrollingForward := true;
        } else {
          ScrollPrev();
          isScrollingForward := false;
        }
      }
    }

    /** Window resize: new breakpoint, new indicator row, re-render at the
        unchanged position (which is not clamped to the new slide count). */
    method Resized(innerWidth: int, offsetWidth: int)
      requires Valid() && Rendered()
      modifies this`cardsPerView, this`cardWidth, this`indicators, this`offset
      ensures Valid() && Rendered()
      ensures Model() == Step(cardCount, old(Model()), Resize(innerWidth))
      ensures cardWidth == offsetWidth
    {
      cardsPerView := CardsPerView(innerWidth);
      cardWidth := offsetWidth;
      CreateIndicators();
      UpdateTrackPosition();
    }
  }

  /** The indicator row a controller shows marks exactly the current slide
      while the position is in range, and no indicator at all once a resize
      has left the position beyond the last slide. */
  lemma ShownIndicators(c: Carousel)
    requires c.Valid() && c.Rendered()
    ensures ActiveIndicators(c.indicators) ==
              if InRange(c.cardCount, c.Model()) then {c.currentPosition} else {}
  {
    ActiveIndicator(c.cardCount, c.Model());
  }
}
