# Category carousel: position state machine

This project models the category carousel of the Trendora landing page
(`JS/index.js`). The page shows `N` category cards, `cardsPerView` at a time.
`cardsPerView` is 1, 2 or 3, depending on the window width. The carousel keeps
three variables: `cardsPerView`, `currentPosition` (the slide index) and
`isScrollingForward` (the direction flag). They change when:

- an indicator is clicked (`goToSlide`);
- an arrow button is clicked;
- the 3-second auto-scroll timer fires;
- the 6-second direction-change timer fires;
- a touch swipe ends;
- the window is resized.

Every render moves the track and marks the active indicator.

The model is split into two modules:

- `CarouselLogic` (`carousel_logic.dfy`) holds the pure parts:
  - the breakpoints, the slide count `ceil(N / cardsPerView)` and the last slide index;
  - the three position updates (`Clamp`, `Next`, `Prev`);
  - `Step`, which gives the effect of each handler on the three variables, and `Run`, which applies a sequence of handlers;
  - the render facts (indicator flags, track offset);
  - the lemmas about all of these.
- `CarouselController` (`carousel_controller.dfy`) holds the class `Carousel`. Its fields are the closure variables plus what a render leaves behind: the indicator flags, the track offset and the measured card width. Each handler is a method. Its contract says that the new state is `Step` of the old state for that event, and that the page is rendered for the new state (`Rendered()`).

The position is always a whole number: it starts at 0, moves by one, wraps
to 0 or to the last slide, or takes an indicator's index. So the
`Math.floor(currentPosition)` of the indicator update is the identity, and
positions are `nat`.

The model follows the code as written, including these behaviours:

- The resize handler recomputes `cardsPerView` and rebuilds the indicators, but it does not clamp `currentPosition`. After a resize that widens the view, the position can lie beyond the last slide. In that state:
  - no indicator is active (`ActiveIndicator`, `ShownIndicators`);
  - a forward move resets the position to 0;
  - a backward move only decrements it, so it stays out of range for several moves (`ResizeLeavesRange`, `BackwardFromBeyondRange`).
- The track offset is `currentPosition * (offsetWidth + 20) * cardsPerView`. Each card's pitch includes a 20-pixel gap.
- A swipe of at most 50 pixels does nothing at all; the auto-scroll timer is restarted only by a longer swipe.
- With no cards, the code has no error path. The last slide index is −1 (`MaxPosition`), and the first render throws. The model requires at least one card.

## Model

| member | source | states |
|---|---|---|
| `CarouselLogic.CardsPerView` | JS/index.js:9-13 | the result is always 1, 2 or 3; it is 1 exactly below 576 pixels and 3 exactly from 992 pixels |
| `CarouselLogic.CardsPerViewMonotone` | JS/index.js:9-13 | a wider window never shows fewer cards |
| `CarouselLogic.CeilDiv` | JS/index.js:23 | the result `r` is the ceiling of `n / k`: `(r-1)*k < n <= r*k` |
| `CarouselLogic.SlideCount` | JS/index.js:23 | at least one slide when there is a card, never more slides than cards |
| `CarouselLogic.MaxPosition` | JS/index.js:54 | the last slide index is −1 with no cards, and lies in `[0, N)` with at least one card |
| `CarouselLogic.LastSlideStartsAtACard` | JS/index.js:54 | the last slide starts at an existing card, and the slides together cover all `N` cards |
| `CarouselLogic.SevenCardsThreePerView` | JS/index.js:23 | seven cards give 3 slides at three per view and 7 slides at one per view |
| `CarouselLogic.Clamp` | JS/index.js:55 | the result is in `[0, maxPosition]`; an in-range index is kept; a negative index gives 0; a too-large index gives the last slide |
| `CarouselLogic.ClampIdempotent` | JS/index.js:55 | clamping twice is clamping once |
| `CarouselLogic.Next` | JS/index.js:61-76 | the result is always in range, even from beyond the last slide, where it is 0; from an in-range position it is `(p+1) mod slideCount` |
| `CarouselLogic.Prev` | JS/index.js:79-94 | from an in-range position the result is in range and equals `(p-1) mod slideCount`; from beyond the last slide it is exactly one less |
| `CarouselLogic.PrevUndoesNext` | JS/index.js:61-94 | from an in-range position, scrolling back undoes scrolling forward |
| `CarouselLogic.NextUndoesPrev` | JS/index.js:61-94 | from an in-range position, scrolling forward undoes scrolling back |
| `CarouselLogic.NextNRotates` | JS/index.js:61-76 | `k` forward scrolls from an in-range position give `(p+k) mod slideCount` |
| `CarouselLogic.PrevNRotates` | JS/index.js:79-94 | `k` backward scrolls from an in-range position give `(p-k) mod slideCount` |
| `CarouselLogic.NextCycle` | JS/index.js:61-76 | `slideCount` forward scrolls return to the start, and no smaller positive number of them does |
| `CarouselLogic.PrevCycle` | JS/index.js:79-94 | `slideCount` backward scrolls return to the start, and no smaller positive number of them does |
| `CarouselLogic.Initial` | JS/index.js:15-18 | the state at page load is well formed and in range (position 0, direction forward) |
| `CarouselLogic.Step` | JS/index.js:53-177 | every handler keeps `cardsPerView` a breakpoint value |
| `CarouselLogic.Run` | JS/index.js:53-177 | any sequence of handlers keeps `cardsPerView` a breakpoint value |
| `CarouselLogic.StepKeepsRange` | JS/index.js:53-177 | every handler except resize keeps an in-range position in range |
| `CarouselLogic.ForwardMovesRestoreRange` | JS/index.js:61-68 | an indicator click, the right button, a forward tick or a long leftward swipe lands in range from any position |
| `CarouselLogic.RunWithoutResizeKeepsRange` | JS/index.js:53-177 | any run of handlers without a resize keeps the position in range |
| `CarouselLogic.ResizeKeepsPosition` | JS/index.js:133-137 | resize sets `cardsPerView` from the new width and leaves the position and the direction unchanged (no clamp) |
| `CarouselLogic.ResizeLeavesRange` | JS/index.js:133-137 | seven cards at slide 5, widened to 1000 px: the position is out of range; a right click resets it to 0; a left click leaves it out of range at 4; right then left gives 2, not 5 |
| `CarouselLogic.BackwardFromBeyondRange` | JS/index.js:79-82 | `k <= p` backward scrolls from a positive position subtract `k`; from beyond the last slide, the position is back in range exactly when `k >= p - maxPosition` |
| `CarouselLogic.DirectionTickTwice` | JS/index.js:109-111 | the direction tick negates the flag only; two ticks restore the state |
| `CarouselLogic.SwipeThresholdRule` | JS/index.js:161-177 | a swipe of at most 50 px changes nothing; a longer leftward swipe equals a right-button click; a longer rightward swipe equals a left-button click |
| `CarouselLogic.ButtonsAndAutoTick` | JS/index.js:98-130 | the right button sets forward and the left button sets backward; the auto tick keeps the direction and moves as the matching button would |
| `CarouselLogic.GoToKeepsTheRest` | JS/index.js:53-58 | an indicator click leaves `cardsPerView` and the direction alone, and keeps an in-range index |
| `CarouselLogic.SevenCardsAutoTicks` | JS/index.js:98-104 | seven cards at three per view: three forward ticks from 0 visit 1, 2, 0 |
| `CarouselLogic.IndicatorFlags` | JS/index.js:44-49 | one flag per indicator |
| `CarouselLogic.ActiveIndicator` | JS/index.js:44-49 | a render at an in-range position marks exactly that indicator; a render beyond the last slide marks none |
| `CarouselLogic.TrackOffset` | JS/index.js:40-42 | the offset in pixels is `position * (offsetWidth + 20) * cardsPerView`: the first slide is not shifted, and with a non-negative card pitch the track is only ever shifted left; `TrackOffsetWithinCards` relates it to the slide range |
| `CarouselLogic.SlideStartsAtCardIffInRange` | JS/index.js:40-42 | the slide at the position starts at a real card (index `position * cardsPerView < N`) exactly when the position is in range |
| `CarouselLogic.TrackOffsetWithinCards` | JS/index.js:40-42 | with a positive card pitch, the track offset is less than the width of the whole row of cards exactly when the position is in range; after a widening resize every card is shifted out of view |
| `CarouselController.Carousel.constructor` | JS/index.js:15-18 | page load: the initial state, one indicator per slide, rendered at position 0 |
| `CarouselController.Carousel.CreateIndicators` | JS/index.js:21-36 | the indicator row is rebuilt with one indicator per slide, the first one active |
| `CarouselController.Carousel.UpdateTrackPosition` | JS/index.js:39-50 | the offset is set for the current position; the indicator whose index is the position is active and all others are cleared |
| `CarouselController.Carousel.GoToSlide` | JS/index.js:53-58 | new state is `Step(GoTo(i))` of the old; the page stays rendered |
| `CarouselController.Carousel.ScrollNext` | JS/index.js:61-76 | the position becomes `Next` of the old position; the page stays rendered |
| `CarouselController.Carousel.ScrollPrev` | JS/index.js:79-94 | the position becomes `Prev` of the old position; the page stays rendered |
| `CarouselController.Carousel.ScrollLeftClicked` | JS/index.js:120-124 | new state is `Step(ScrollLeftClick)` of the old; the page stays rendered |
| `CarouselController.Carousel.ScrollRightClicked` | JS/index.js:126-130 | new state is `Step(ScrollRightClick)` of the old; the page stays rendered |
| `CarouselController.Carousel.AutoScrollTicked` | JS/index.js:98-104 | new state is `Step(AutoScrollTick)` of the old; the page stays rendered |
| `CarouselController.Carousel.DirectionTicked` | JS/index.js:109-111 | new state is `Step(DirectionTick)` of the old; nothing is re-rendered |
| `CarouselController.Carousel.HandleSwipe` | JS/index.js:161-177 | new state is `Step(Swipe(startX, endX))` of the old; the page stays rendered |
| `CarouselController.Carousel.Resized` | JS/index.js:133-137 | new state is `Step(Resize(width))` of the old; new card width; indicators rebuilt for the new slide count and rendered at the unclamped position |
| `CarouselController.ShownIndicators` | JS/index.js:44-49 | a rendered controller shows exactly the current slide's indicator while in range, and none once a resize has left the position beyond the last slide |

## Left out

- DOM access and styling: element lookup, class toggling, `innerHTML`, and building the `translateX` string. The model keeps the numbers they are built from: the indicator flags and the offset in pixels.
- The transition switch-off and forced reflow in the wrap branches of `scrollNext` and `scrollPrev`. The model keeps only the double render at the same position that those branches perform.
- Timers: `setInterval`, `clearInterval`, the 3000 ms and 6000 ms periods, `resetAutoScroll`, and the hover pause and resume. The two tick bodies are modelled as events, but not when they fire. Restarting the auto-scroll timer (in `goToSlide`, the button handlers and a long swipe) does not touch the state and is left out.
- Reading touch coordinates from events. `HandleSwipe` takes `touchStartX` and `touchEndX` as integers.
- `window.innerWidth` and `cards[0].offsetWidth` are passed in as integers. The card width is taken at page load and on every resize, on the assumption that the layout changes only then.
- JavaScript numbers are floating point, and `Math.ceil(N / cardsPerView)` is computed in floating point. The model uses exact integer division, which agrees with it for every realistic card count.
- An empty card list (`N = 0`). The source has no error path for it: the first render throws on `cards[0]`. The controller's constructor requires at least one card. `MaxPosition` still shows that the last slide index would be −1.
