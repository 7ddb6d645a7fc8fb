/**
 The position logic of the category carousel: the responsive breakpoints, the
 slide-count arithmetic, the three position updates (go to a slide, scroll
 forward, scroll backward) and the effect of every input handler on the
 carousel state, together with the facts the indicator row and the track
 offset are rendered from.

 Positions are whole numbers: the carousel starts at 0 and only ever moves by
 one, wraps to 0 or to the last slide, or jumps to an indicator's index.
 */
module CarouselLogic {

  /** Horizontal gap between two cards, in pixels, added to a card's width. */
  const CardGap: int := 20

  /** A swipe moves the carousel only when it is longer than this, in pixels. */
  const SwipeThreshold: int := 50

  // ---------------------------------------------------------------------------
  // Breakpoints and slide count
  // ---------------------------------------------------------------------------

  /** Number of cards shown at once for a viewport of the given width. */
  function CardsPerView(innerWidth: int): (k: int)
    ensures 1 <= k <= 3
    ensures k == 1 <==> innerWidth < 576
    ensures k == 3 <==> 992 <= innerWidth
  {
    if innerWidth < 576 then 1
    else if innerWidth < 992 then 2
    else 3
  }

  /** A wider viewport never shows fewer cards. */
  lemma CardsPerViewMonotone(narrow: int, wide: int)
    requires narrow <= wide
    ensures CardsPerView(narrow) <= CardsPerView(wide)
  {
  }

  /** `Math.ceil(n / k)` on whole numbers. */
  function CeilDiv(n: nat, k: int): (r: nat)
    requires 1 <= k
    ensures (r - 1) * k < n <= r * k
  {
    var q := (n + k - 1) / k;
    assert q * k <= n + k - 1 < q * k + k;
    q
  }

  /** Number of slides (and of indicators): groups of `cardsPerView` cards. */
  function SlideCount(cardCount: nat, cardsPerView: int): (r: nat)
    requires 1 <= cardsPerView
    ensures cardCount >= 1 ==> r >= 1
    ensures r <= cardCount
  {
    var r := CeilDiv(cardCount, cardsPerView);
    assert r == 0 ==> r * cardsPerView == 0;
    if r >= 1 then
      MulGrows(r - 1, cardsPerView);
      r
    else
      r
  }

  lemma MulGrows(t: nat, k: int)
    requires 1 <= k
    ensures t <= t * k
  {
  }

  /** Index of the last slide; -1 when there are no cards at all. */
  function MaxPosition(cardCount: nat, cardsPerView: int): (m: int)
    requires 1 <= cardsPerView
    ensures cardCount == 0 ==> m == -1
    ensures cardCount >= 1 ==> 0 <= m < cardCount
  {
    SlideCount(cardCount, cardsPerView) - 1
  }

  /** Every slide, the last one included, starts at a card that exists, and
      the slides together cover all cards. */
  lemma LastSlideStartsAtACard(cardCount: nat, cardsPerView: int)
    requires cardCount >= 1 && 1 <= cardsPerView
    ensures MaxPosition(cardCount, cardsPerView) * cardsPerView < cardCount
    ensures cardCount <= (MaxPosition(cardCount, cardsPerView) + 1) * cardsPerView
  {
    var r := SlideCount(cardCount, cardsPerView);
    assert (r - 1) * cardsPerView < cardCount <= r * cardsPerView;
  }

  /** Seven cards three at a time: the last slide holds one real card. */
  lemma SevenCardsThreePerView()
    ensures SlideCount(7, 3) == 3 && MaxPosition(7, 3) == 2
    ensures SlideCount(7, 1) == 7 && MaxPosition(7, 1) == 6
  {
  }

  // ---------------------------------------------------------------------------
  // Position updates
  // ---------------------------------------------------------------------------

  /** `goToSlide`: the requested index pulled into [0, maxPosition]. */
  function Clamp(slideIndex: int, maxPosition: nat): (p: nat)
    ensures p <= maxPosition
    ensures 0 <= slideIndex <= maxPosition ==> p == slideIndex
    ensures slideIndex < 0 ==> p == 0
    ensures maxPosition < slideIndex ==> p == maxPosition
  {
    if slideIndex < 0 then 0
    else if slideIndex < maxPosition then slideIndex
    else maxPosition
  }

  /** Clamping a position that is already clamped changes nothing. */
  lemma ClampIdempotent(slideIndex: int, maxPosition: nat)
    ensures Clamp(Clamp(slideIndex, maxPosition), maxPosition) == Clamp(slideIndex, maxPosition)
  {
  }

  /** `scrollNext`: one slide forward, or back to the first slide from the
      last one and from anywhere beyond it. From an in-range position this is
      a step forward modulo the number of slides. */
  function Next(p: nat, maxPosition: nat): (r: nat)
    ensures r <= maxPosition
    ensures p <= maxPosition ==> r == (p + 1) % (maxPosition + 1)
    ensures maxPosition <= p ==> r == 0
  {
    if p < maxPosition then p + 1 else 0
  }

  /** `scrollPrev`: one slide backward, or to the last slide from the first.
      From an in-range position this is a step backward modulo the number of
      slides; from beyond the last slide it is a plain decrement. */
  function Prev(p: nat, maxPosition: nat): (r: nat)
    ensures p <= maxPosition ==> r <= maxPosition
    ensures p <= maxPosition ==> r == (p - 1) % (maxPosition + 1)
    ensures maxPosition < p ==> r + 1 == p
  {
    if p > 0 then p - 1 else maxPosition
  }

  /** Scrolling backward undoes scrolling forward. */
  lemma PrevUndoesNext(p: nat, maxPosition: nat)
    requires p <= maxPosition
    ensures Prev(Next(p, maxPosition), maxPosition) == p
  {
  }

  /** Scrolling forward undoes scrolling backward. */
  lemma NextUndoesPrev(p: nat, maxPosition: nat)
    requires p <= maxPosition
    ensures Next(Prev(p, maxPosition), maxPosition) == p
  {
  }

  /** Position after `k` forward scrolls. */
  function NextN(p: nat, maxPosition: nat, k: nat): nat
    decreases k
  {
    if k == 0 then p else NextN(Next(p, maxPosition), maxPosition, k - 1)
  }

  /** Position after `k` backward scrolls. */
  function PrevN(p: nat, maxPosition: nat, k: nat): nat
    decreases k
  {
    if k == 0 then p else PrevN(Prev(p, maxPosition), maxPosition, k - 1)
  }

  /** `k` forward scrolls from an in-range position rotate it by `k`. */
  lemma {:induction false} NextNRotates(p: nat, maxPosition: nat, k: nat)
    requires p <= maxPosition
    ensures NextN(p, maxPosition, k) == (p + k) % (maxPosition + 1)
    decreases k
  {
    if k > 0 {
      var q := Next(p, maxPosition);
      NextNRotates(q, maxPosition, k - 1);
      var d := maxPosition + 1;
      if p < maxPosition {
        assert q + k - 1 == p + k;
      } else {
        assert q == 0 && p + k == (k - 1) + d;
        ModShift(k - 1, d);
      }
    }
  }

  /** `k` backward scrolls from an in-range position rotate it back by `k`. */
  lemma {:induction false} PrevNRotates(p: nat, maxPosition: nat, k: nat)
    requires p <= maxPosition
    ensures PrevN(p, maxPosition, k) == (p - k) % (maxPosition + 1)
    decreases k
  {
    if k > 0 {
      var q := Prev(p, maxPosition);
      PrevNRotates(q, maxPosition, k - 1);
      var d := maxPosition + 1;
      if p > 0 {
        assert q - (k - 1) == p - k;
      } else {
        assert q - (k - 1) == (p - k) + d;
        ModShift(p - k, d);
      }
    }
  }

  lemma MulAtLeast(t: int, d: int)
    requires t >= 1 && d >= 1
    ensures t * d >= d
  {
  }

  /** A remainder is determined by any quotient-remainder decomposition. */
  lemma ModUnique(y: int, d: int, q: int, r: int)
    requires d >= 1 && 0 <= r < d && y == q * d + r
    ensures y % d == r
  {
    var q', r' := y / d, y % d;
    assert y == q' * d + r';
    assert (q - q') * d == r' - r;
    if q - q' >= 1 {
      MulAtLeast(q - q', d);
    } else if q' - q >= 1 {
      MulAtLeast(q' - q, d);
    }
  }

  /** Adding the modulus does not change a remainder. */
  lemma ModShift(x: int, d: int)
    requires d >= 1
    ensures (x + d) % d == x % d
  {
    var q, r := x / d, x % d;
    assert x == q * d + r;
    assert x + d == (q + 1) * d + r;
    ModUnique(x + d, d, q + 1, r);
  }

  /** Scrolling forward once per slide returns to the starting slide, and no
      smaller positive number of forward scrolls does. */
  lemma NextCycle(p: nat, maxPosition: nat, k: nat)
    requires p <= maxPosition
    ensures NextN(p, maxPosition, maxPosition + 1) == p
    ensures 0 < k <= maxPosition ==> NextN(p, maxPosition, k) != p
  {
    var d := maxPosition + 1;
    NextNRotates(p, maxPosition, d);
    ModUnique(p + d, d, 1, p);
    if 0 < k <= maxPosition {
      NextNRotates(p, maxPosition, k);
      if p + k < d {
        ModUnique(p + k, d, 0, p + k);
      } else {
        ModUnique(p + k, d, 1, p + k - d);
      }
    }
  }

  /** Scrolling backward once per slide returns to the starting slide, and no
      smaller positive number of backward scrolls does. */
  lemma PrevCycle(p: nat, maxPosition: nat, k: nat)
    requires p <= maxPosition
    ensures PrevN(p, maxPosition, maxPosition + 1) == p
    ensures 0 < k <= maxPosition ==> PrevN(p, maxPosition, k) != p
  {
    var d := maxPosition + 1;
    PrevNRotates(p, maxPosition, d);
    ModUnique(p - d, d, -1, p);
    if 0 < k <= maxPosition {
      PrevNRotates(p, maxPosition, k);
      if p - k >= 0 {
        ModUnique(p - k, d, 0, p - k);
      } else {
        ModUnique(p - k, d, -1, p - k + d);
      }
    }
  }

  // ---------------------------------------------------------------------------
  // Carousel state and input handlers
  // ---------------------------------------------------------------------------

  /** The closure variables `cardsPerView`, `currentPosition` and
      `isScrollingForward`. */
  datatype State = State(cardsPerView: int, position: nat, forward: bool)

  /** One handler run: an indicator click, the two arrow buttons, the two
      interval ticks, a finished touch, a window resize. */
  datatype Event =
    | GoTo(slideIndex: int)
    | ScrollLeftClick
    | ScrollRightClick
    | AutoScrollTick
    | DirectionTick
    | Swipe(touchStartX: int, touchEndX: int)
    | Resize(innerWidth: int)

  /** A state the handlers can be given: at least one card, and a
      breakpoint result for `cardsPerView`. */
  predicate WellFormed(cardCount: nat, s: State)
  {
    cardCount >= 1 && 1 <= s.cardsPerView <= 3
  }

  /** The position addresses an existing slide. */
  predicate InRange(cardCount: nat, s: State)
    requires WellFormed(cardCount, s)
  {
    s.position <= MaxPosition(cardCount, s.cardsPerView)
  }

  /** State right after initialisation. */
  function Initial(cardCount: nat, innerWidth: int): (s: State)
    requires cardCount >= 1
    ensures WellFormed(cardCount, s) && InRange(cardCount, s)
  {
    State(CardsPerView(innerWidth), 0, true)
  }

  function Abs(x: int): nat
  {
    if x < 0 then -x else x
  }

  /** The position after `scrollNext` and after `scrollPrev` in state `s`. */
  function ScrolledForward(cardCount: nat, s: State): nat
    requires WellFormed(cardCount, s)
  {
    Next(s.position, MaxPosition(cardCount, s.cardsPerView))
  }

  function ScrolledBackward(cardCount: nat, s: State): nat
    requires WellFormed(cardCount, s)
  {
    Prev(s.position, MaxPosition(cardCount, s.cardsPerView))
  }

  /** The state after one handler has run. The auto-scroll timer restarts
      that some handlers perform do not touch the state. */
  function Step(cardCount: nat, s: State, e: Event): (t: State)
    requires WellFormed(cardCount, s)
    ensures WellFormed(cardCount, t)
  {
    match e
    case GoTo(i) =>
      s.(position := Clamp(i, MaxPosition(cardCount, s.cardsPerView)))
    case ScrollLeftClick =>
      s.(position := ScrolledBackward(cardCount, s), forward := false)
    case ScrollRightClick =>
      s.(position := ScrolledForward(cardCount, s), forward := true)
    case AutoScrollTick =>
      if s.forward then s.(position := ScrolledForward(cardCount, s))
      else s.(position := ScrolledBackward(cardCount, s))
    case DirectionTick =>
      s.(forward := !s.forward)
    case Swipe(startX, endX) =>
      var diff := startX - endX;
      if Abs(diff) > SwipeThreshold then
        if diff > 0 then s.(position := ScrolledForward(cardCount, s), forward := true)
        else s.(position := ScrolledBackward(cardCount, s), forward := false)
      else s
    case Resize(w) =>
      s.(cardsPerView := CardsPerView(w))
  }

  /** The state after a sequence of handler runs. */
  function Run(cardCount: nat, s: State, events: seq<Event>): (t: State)
    requires WellFormed(cardCount, s)
    ensures WellFormed(cardCount, t)
    decreases |events|
  {
    if events == [] then s else Run(cardCount, Step(cardCount, s, events[0]), events[1..])
  }

  /** Every handler except the resize handler keeps an in-range position in
      range. */
  lemma StepKeepsRange(cardCount: nat, s: State, e: Event)
    requires WellFormed(cardCount, s) && InRange(cardCount, s)
    requires !e.Resize?
    ensures InRange(cardCount, Step(cardCount, s, e))
  {
  }

  /** An indicator click, the right button, a forward auto tick and a forward
      swipe bring the position into range from anywhere, even from beyond
      the last slide. */
  lemma ForwardMovesRestoreRange(cardCount: nat, s: State, e: Event)
    requires WellFormed(cardCount, s)
    requires e.GoTo? || e.ScrollRightClick? || (e.AutoScrollTick? && s.forward)
             || (e.Swipe? && e.touchStartX - e.touchEndX > SwipeThreshold)
    ensures InRange(cardCount, Step(cardCount, s, e))
  {
  }

  /** Any run of handlers without a resize keeps the position in range. */
  lemma {:induction false} RunWithoutResizeKeepsRange(cardCount: nat, s: State, events: seq<Event>)
    requires WellFormed(cardCount, s) && InRange(cardCount, s)
    requires forall i :: 0 <= i < |events| ==> !events[i].Resize?
    ensures InRange(cardCount, Run(cardCount, s, events))
    decreases |events|
  {
    if events != [] {
      StepKeepsRange(cardCount, s, events[0]);
      RunWithoutResizeKeepsRange(cardCount, Step(cardCount, s, events[0]), events[1..]);
    }
  }

  /** The resize handler recomputes `cardsPerView` and nothing else: the
      position is not clamped to the new slide count. */
  lemma ResizeKeepsPosition(cardCount: nat, s: State, innerWidth: int)
    requires WellFormed(cardCount, s)
    ensures Step(cardCount, s, Resize(innerWidth)).position == s.position
    ensures Step(cardCount, s, Resize(innerWidth)).forward == s.forward
    ensures Step(cardCount, s, Resize(innerWidth)).cardsPerView == CardsPerView(innerWidth)
  {
  }

  /** Seven cards on a narrow screen at slide 5, then widened to 1000 pixels:
      the position stays 5 while only slides 0..2 exist. The next forward
      move resets it to 0; each backward move lowers it by one only; and a
      forward move followed by a backward one lands on slide 2, not 5. */
  lemma ResizeLeavesRange()
    ensures var s := Step(7, State(1, 5, true), Resize(1000));
            s == State(3, 5, true) && !InRange(7, s)
            && Step(7, s, ScrollRightClick).position == 0
            && Step(7, s, ScrollLeftClick).position == 4
            && !InRange(7, Step(7, s, ScrollLeftClick))
            && Step(7, Step(7, s, ScrollRightClick), ScrollLeftClick).position == 2
  {
  }

  /** Backward moves from a positive position are plain decrements whatever
      the slide count, so from beyond the last slide it takes exactly
      `position - maxPosition` of them to get back into range. */
  lemma {:induction false} BackwardFromBeyondRange(p: nat, maxPosition: nat, k: nat)
    requires k <= p
    ensures PrevN(p, maxPosition, k) == p - k
    ensures maxPosition < p ==> (PrevN(p, maxPosition, k) <= maxPosition <==> p - maxPosition <= k)
    decreases k
  {
    if k > 0 {
      BackwardFromBeyondRange(p - 1, maxPosition, k - 1);
    }
  }

  /** The direction tick only negates the direction flag: the position and
      `cardsPerView` are untouched, and two ticks restore the state. */
  lemma DirectionTickTwice(cardCount: nat, s: State)
    requires WellFormed(cardCount, s)
    ensures Step(cardCount, s, DirectionTick).forward == !s.forward
    ensures Step(cardCount, s, DirectionTick).position == s.position
    ensures Step(cardCount, s, DirectionTick).cardsPerView == s.cardsPerView
    ensures Step(cardCount, Step(cardCount, s, DirectionTick), DirectionTick) == s
  {
  }

  /** A swipe of at most 50 pixels is ignored; a longer leftward swipe acts
      like the right button and a longer rightward swipe like the left one. */
  lemma SwipeThresholdRule(cardCount: nat, s: State, touchStartX: int, touchEndX: int)
    requires WellFormed(cardCount, s)
    ensures -SwipeThreshold <= touchStartX - touchEndX <= SwipeThreshold ==>
              Step(cardCount, s, Swipe(touchStartX, touchEndX)) == s
    ensures touchStartX - touchEndX > SwipeThreshold ==>
              Step(cardCount, s, Swipe(touchStartX, touchEndX)) == Step(cardCount, s, ScrollRightClick)
    ensures touchStartX - touchEndX < -SwipeThreshold ==>
              Step(cardCount, s, Swipe(touchStartX, touchEndX)) == Step(cardCount, s, ScrollLeftClick)
  {
  }

  /** The buttons fix the direction; the auto tick follows it and keeps it. */
  lemma ButtonsAndAutoTick(cardCount: nat, s: State)
    requires WellFormed(cardCount, s)
    ensures Step(cardCount, s, ScrollRightClick).forward
    ensures !Step(cardCount, s, ScrollLeftClick).forward
    ensures Step(cardCount, s, AutoScrollTick).forward == s.forward
    ensures Step(cardCount, s, AutoScrollTick).position ==
              if s.forward then Step(cardCount, s, ScrollRightClick).position
              else Step(cardCount, s, ScrollLeftClick).position
  {
  }

  /** An indicator click leaves `cardsPerView` and the direction alone, and
      keeps an existing slide's index unchanged. */
  lemma GoToKeepsTheRest(cardCount: nat, s: State, slideIndex: int)
    requires WellFormed(cardCount, s)
    ensures Step(cardCount, s, GoTo(slideIndex)).cardsPerView == s.cardsPerView
    ensures Step(cardCount, s, GoTo(slideIndex)).forward == s.forward
    ensures 0 <= slideIndex <= MaxPosition(cardCount, s.cardsPerView) ==>
              Step(cardCount, s, GoTo(slideIndex)).position == slideIndex
  {
  }

  /** Seven cards three at a time: three auto ticks forward from slide 0
      visit slides 1, 2 and 0. */
  lemma SevenCardsAutoTicks()
    ensures var s0 := State(3, 0, true);
            var s1 := Step(7, s0, AutoScrollTick);
            var s2 := Step(7, s1, AutoScrollTick);
            var s3 := Step(7, s2, AutoScrollTick);
            s1.position == 1 && s2.position == 2 && s3.position == 0
  {
  }

  // ---------------------------------------------------------------------------
  // Render facts
  // ---------------------------------------------------------------------------

  /** The active flags of `count` indicators after a render at `position`
      (`Math.floor` is the identity on whole positions). */
  function IndicatorFlags(count: nat, position: nat): (flags: seq<bool>)
    ensures |flags| == count
  {
    seq(count, i => i == position)
  }

  /** The indices of the indicators marked active. */
  function ActiveIndicators(flags: seq<bool>): set<nat>
  {
    set i: nat | i < |flags| && flags[i]
  }

  /** A render at an in-range position marks exactly its own indicator; a
      render beyond the last slide, possible only after a resize, marks none. */
  lemma ActiveIndicator(cardCount: nat, s: State)
    requires WellFormed(cardCount, s)
    ensures var flags := IndicatorFlags(SlideCount(cardCount, s.cardsPerView), s.position);
            ActiveIndicators(flags) == if InRange(cardCount, s) then {s.position} else {}
  {
    var flags := IndicatorFlags(SlideCount(cardCount, s.cardsPerView), s.position);
    if InRange(cardCount, s) {
      assert flags[s.position];
      assert s.position in ActiveIndicators(flags);
    } else {
      forall i: nat | i < |flags| ensures !flags[i] {
      }
    }
  }

  /** Horizontal offset of the track, in pixels, for a card measuring
      `offsetWidth` (the track is shifted left by this amount). */
  function TrackOffset(position: nat, offsetWidth: int, cardsPerView: int): (o: int)
    ensures position == 0 ==> o == 0
    ensures offsetWidth + CardGap >= 0 && cardsPerView >= 1 ==> o >= 0
  {
    var pitch := offsetWidth + CardGap;
    if pitch >= 0 && cardsPerView >= 1 then
      MulGrows(position * pitch, cardsPerView);
      position * pitch * cardsPerView
    else
      position * pitch * cardsPerView
  }

  /** Multiplying by a positive factor keeps the order of two numbers, both
      ways. */
  lemma MulOrder(a: int, b: int, k: int)
    requires k >= 1
    ensures a <= b <==> a * k <= b * k
    ensures a < b <==> a * k < b * k
  {
    if a <= b {
      assert b * k - a * k == (b - a) * k;
      if a < b {
        MulAtLeast(b - a, k);
      }
    } else {
      assert a * k - b * k == (a - b) * k;
      MulAtLeast(a - b, k);
    }
  }

  /** A slide starts at a real card (its first card index `position *
      cardsPerView` is below the card count) exactly while the position is
      in range; after a widening resize it starts past every card. */
  lemma SlideStartsAtCardIffInRange(cardCount: nat, s: State)
    requires WellFormed(cardCount, s)
    ensures s.position * s.cardsPerView < cardCount <==> InRange(cardCount, s)
  {
    var m := MaxPosition(cardCount, s.cardsPerView);
    LastSlideStartsAtACard(cardCount, s.cardsPerView);
    if s.position <= m {
      MulOrder(s.position, m, s.cardsPerView);
    } else {
      MulOrder(m + 1, s.position, s.cardsPerView);
    }
  }

  /** With a positive card pitch (card width plus gap), the track is shifted
      by less than the whole row of cards exactly while the position is in
      range: an out-of-range position shifts every card out of view. */
  lemma TrackOffsetWithinCards(cardCount: nat, s: State, offsetWidth: int)
    requires WellFormed(cardCount, s)
    requires offsetWidth + CardGap >= 1
    ensures TrackOffset(s.position, offsetWidth, s.cardsPerView) < cardCount * (offsetWidth + CardGap)
            <==> InRange(cardCount, s)
  {
    var pitch := offsetWidth + CardGap;
    assert TrackOffset(s.position, offsetWidth, s.cardsPerView) == (s.position * s.cardsPerView) * pitch;
    MulOrder(s.position * s.cardsPerView, cardCount, pitch);
    SlideStartsAtCardIffInRange(cardCount, s);
  }
}
