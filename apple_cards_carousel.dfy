/**
 * The apple-style carousel used by the projects section: a horizontally
 * scrolling row of cards with two arrow buttons, cards that open into a
 * dialog and, when closed, scroll the row to their own position, and the
 * blur-until-loaded image inside each card.
 */
module AppleCardsCarousel {
  import opened Wrappers

  /** The horizontal shift of one arrow click. */
  const ArrowStep: int := 300
  /** The gap between cards (`gap-4`). */
  const Gap: nat := 16
  /** The row's left padding (`pl-4`). */
  const LeadingPadding: nat := 16
  /** The `md` breakpoint: below it the window counts as mobile and cards take their narrow width. */
  const MobileBreakpoint: int := 768

  /** `isMobile() ? 230 : 384`: the card width `handleCardClose` computes with. */
  function CardWidth(innerWidth: int): (w: nat)
    ensures w == 230 <==> innerWidth < MobileBreakpoint
    ensures w == 384 <==> innerWidth >= MobileBreakpoint
  {
    if innerWidth < MobileBreakpoint then 230 else 384
  }

  /** The width a card is drawn at: `w-72` (288 pixels) below the breakpoint, `md:w-96` (384) from it on. */
  function RenderedCardWidth(innerWidth: int): (w: nat)
    ensures w == 288 <==> innerWidth < MobileBreakpoint
    ensures w == 384 <==> innerWidth >= MobileBreakpoint
  {
    if innerWidth < MobileBreakpoint then 288 else 384
  }

  /**
   * Where the card at `index` starts in the row: the padding, then the drawn
   * widths and gaps of all cards before it.
   */
  function CardStart(innerWidth: int, index: nat): (s: nat)
    ensures s >= LeadingPadding
  {
    if index == 0 then LeadingPadding else CardStart(innerWidth, index - 1) + RenderedCardWidth(innerWidth) + Gap
  }

  /** Scrolled to `offset`, the row shows the card at `index` where the first card sits with the row at rest. */
  predicate Aligns(innerWidth: int, index: nat, offset: int)
  {
    CardStart(innerWidth, index) - offset == CardStart(innerWidth, 0)
  }

  /** `(cardWidth + actualGap) * index`, as written. */
  function CloseTarget(innerWidth: int, index: int): int
  {
    (CardWidth(innerWidth) + Gap) * index
  }

  /** The close target computed with the width the cards are drawn at. */
  function AlignedCloseTarget(innerWidth: int, index: int): int
  {
    (RenderedCardWidth(innerWidth) + Gap) * index
  }

  /** The corrected target brings every card, at any window width, to the place of the first card. */
  lemma {:induction false} AlignedCloseTargetAligns(innerWidth: int, index: nat)
    ensures Aligns(innerWidth, index, AlignedCloseTarget(innerWidth, index))
  {
    if index > 0 {
      AlignedCloseTargetAligns(innerWidth, index - 1);
      assert AlignedCloseTarget(innerWidth, index)
          == AlignedCloseTarget(innerWidth, index - 1) + RenderedCardWidth(innerWidth) + Gap;
    }
  }

  /** From the breakpoint on, the width as written is the drawn one, so the target as written aligns the card. */
  lemma CloseTargetAlignsOnDesktop(innerWidth: int, index: nat)
    requires innerWidth >= MobileBreakpoint
    ensures Aligns(innerWidth, index, CloseTarget(innerWidth, index))
  {
    AlignedCloseTargetAligns(innerWidth, index);
  }

  /**
   * Below the breakpoint the target as written falls 58 pixels short for every
   * card before the closed one, so no card but the first is aligned.
   */
  lemma CloseTargetFallsShortOnMobile(innerWidth: int, index: nat)
    requires innerWidth < MobileBreakpoint
    ensures AlignedCloseTarget(innerWidth, index) - CloseTarget(innerWidth, index) == 58 * index
    ensures index > 0 ==> !Aligns(innerWidth, index, CloseTarget(innerWidth, index))
  {
    AlignedCloseTargetAligns(innerWidth, index);
  }

  /** A 375-pixel phone closing the fourth card: the code asks for 738 pixels, the card needs 912. */
  lemma CloseTargetOnPhone()
    ensures CloseTarget(375, 3) == 738 && AlignedCloseTarget(375, 3) == 912
    ensures !Aligns(375, 3, CloseTarget(375, 3)) && Aligns(375, 3, 912)
  {
    CloseTargetFallsShortOnMobile(375, 3);
  }

  /** The browser's clamping of a requested scroll offset into `[lo, hi]`. */
  function Clamp(x: int, lo: int, hi: int): (r: int)
    requires lo <= hi
    ensures lo <= r <= hi
    ensures lo <= x <= hi ==> r == x
    ensures x < lo ==> r == lo
    ensures x > hi ==> r == hi
  {
    if x < lo then lo else if x > hi then hi else x
  }

  class Carousel {
    /** The measured row: total content width, visible width, and the window width. */
    const scrollWidth: nat
    const clientWidth: nat
    const innerWidth: int
    var scrollLeft: int
    var canScrollLeft: bool
    var canScrollRight: bool
    var currentIndex: int

    /** The largest offset the row can be scrolled to. */
    function MaxScroll(): nat
    {
      if scrollWidth > clientWidth then scrollWidth - clientWidth else 0
    }

    /** The offset stays inside the scrollable range. */
    ghost predicate Valid()
      reads this
    {
      0 <= scrollLeft <= MaxScroll()
    }

    /** The arrow flags agree with the current offset, as `checkScrollability` leaves them. */
    ghost predicate Synced()
      reads this
    {
      && (canScrollLeft <==> scrollLeft > 0)
      && (canScrollRight <==> scrollLeft < scrollWidth - clientWidth)
    }

    constructor(scrollWidth: nat, clientWidth: nat, innerWidth: int)
      ensures Valid()
      ensures this.scrollWidth == scrollWidth && this.clientWidth == clientWidth && this.innerWidth == innerWidth
      ensures scrollLeft == 0 && !canScrollLeft && canScrollRight && currentIndex == 0
    {
      this.scrollWidth, this.clientWidth, this.innerWidth := scrollWidth, clientWidth, innerWidth;
      scrollLeft := 0;
      canScrollLeft, canScrollRight, currentIndex := false, true, 0;
    }

    /** `checkScrollability`. */
    method CheckScrollability()
      modifies this`canScrollLeft, this`canScrollRight
      ensures Synced()
    {
      canScrollLeft := scrollLeft > 0;
      canScrollRight := scrollLeft < scrollWidth - clientWidth;
    }

    /**
     * Moves the row to `target`, clamped into the scrollable range; a move fires
     * the scroll listener, which re-checks the flags.
     */
    method ScrollTo(target: int)
      requires Valid()
      modifies this`scrollLeft, this`canScrollLeft, this`canScrollRight
      ensures Valid()
      ensures scrollLeft == Clamp(target, 0, MaxScroll())
      ensures scrollLeft != old(scrollLeft) ==> Synced()
      ensures scrollLeft == old(scrollLeft) ==> canScrollLeft == old(canScrollLeft) && canScrollRight == old(canScrollRight)
    {
      var next := Clamp(target, 0, MaxScroll());
      if next != scrollLeft {
        scrollLeft := next;
        CheckScrollability();
      }
    }

    /** The mount effect: apply `initialScroll` and check the flags. */
    method ApplyInitialScroll(initialScroll: int)
      requires Valid()
      modifies this`scrollLeft, this`canScrollLeft, this`canScrollRight
      ensures Valid() && Synced()
      ensures scrollLeft == Clamp(initialScroll, 0, MaxScroll())
    {
      scrollLeft := Clamp(initialScroll, 0, MaxScroll());
      CheckScrollability();
    }

    /** The left arrow: disabled while the row cannot scroll left, otherwise 300 pixels back. */
    method ClickLeftArrow()
      requires Valid() && Synced()
      modifies this`scrollLeft, this`canScrollLeft, this`canScrollRight
      ensures Valid() && Synced()
      ensures old(canScrollLeft) ==> scrollLeft == Clamp(old(scrollLeft) - ArrowStep, 0, MaxScroll())
      ensures old(canScrollLeft) ==> scrollLeft < old(scrollLeft)
      ensures !old(canScrollLeft) ==> scrollLeft == old(scrollLeft) == 0
    {
      if canScrollLeft {
        ScrollTo(scrollLeft - ArrowStep);
      }
    }

    /** The right arrow: disabled while the row cannot scroll right, otherwise 300 pixels on. */
    method ClickRightArrow()
      requires Valid() && Synced()
      modifies this`scrollLeft, this`canScrollLeft, this`canScrollRight
      ensures Valid() && Synced()
      ensures old(canScrollRight) ==> scrollLeft == Clamp(old(scrollLeft) + ArrowStep, 0, MaxScroll())
      ensures old(canScrollRight) ==> scrollLeft > old(scrollLeft)
      ensures !old(canScrollRight) ==> scrollLeft == old(scrollLeft) == MaxScroll()
    {
      if canScrollRight {
        ScrollTo(scrollLeft + ArrowStep);
      }
    }

    /** `handleCardClose`: scroll to the closed card's start and make it current. */
    method HandleCardClose(index: int)
      requires Valid()
      modifies this`scrollLeft, this`canScrollLeft, this`canScrollRight, this`currentIndex
      ensures Valid()
      ensures scrollLeft == Clamp(CloseTarget(innerWidth, index), 0, MaxScroll())
      ensures currentIndex == index
      ensures scrollLeft != old(scrollLeft) ==> Synced()
      ensures scrollLeft == old(scrollLeft) ==> canScrollLeft == old(canScrollLeft) && canScrollRight == old(canScrollRight)
      ensures old(Synced()) ==> Synced()
    {
      ScrollTo(CloseTarget(innerWidth, index));
      currentIndex := index;
    }
  }

  /** A card of the carousel: closed, it is a tile; open, a dialog over the page. */
  class Card {
    const index: int
    const carousel: Carousel
    var open: bool

    constructor(index: int, carousel: Carousel)
      ensures this.index == index && this.carousel == carousel && !open
    {
      this.index, this.carousel := index, carousel;
      open := false;
    }

    method Open()
      modifies this
      ensures open
    {
      open := true;
    }

    /** `handleClose`: close and report this card's own index to the carousel. */
    method Close()
      requires carousel.Valid()
      modifies this, carousel
      ensures !open && carousel.Valid()
      ensures carousel.currentIndex == index
      ensures carousel.scrollLeft == Clamp(CloseTarget(carousel.innerWidth, index), 0, carousel.MaxScroll())
      ensures carousel.scrollLeft != old(carousel.scrollLeft) ==> carousel.Synced()
      ensures carousel.scrollLeft == old(carousel.scrollLeft) ==>
                carousel.canScrollLeft == old(carousel.canScrollLeft) && carousel.canScrollRight == old(carousel.canScrollRight)
    {
      open := false;
      carousel.HandleCardClose(index);
    }

    /** The outside-click callback: closes only an open card. */
    method OnOutsideClick()
      requires carousel.Valid()
      modifies this, carousel
      ensures carousel.Valid() && !open
      ensures !old(open) ==> carousel.scrollLeft == old(carousel.scrollLeft)
      ensures !old(open) ==> carousel.currentIndex == old(carousel.currentIndex)
      ensures carousel.scrollLeft != old(carousel.scrollLeft) ==> carousel.Synced()
      ensures carousel.scrollLeft == old(carousel.scrollLeft) ==>
                carousel.canScrollLeft == old(carousel.canScrollLeft) && carousel.canScrollRight == old(carousel.canScrollRight)
    {
      if open {
        Close();
      }
    }

    /**
     * The `keydown` listener as written: it is registered whatever `open` is, so
     * Escape closes the card and moves the carousel even when the card was closed.
     */
    method OnKeyDown(key: string)
      requires carousel.Valid()
      modifies this, carousel
      ensures carousel.Valid()
      ensures key == "Escape" ==> !open && carousel.currentIndex == index
      ensures key == "Escape" ==>
                carousel.scrollLeft == Clamp(CloseTarget(carousel.innerWidth, index), 0, carousel.MaxScroll())
      ensures key != "Escape" ==> open == old(open) && carousel.scrollLeft == old(carousel.scrollLeft)
      ensures key != "Escape" ==> carousel.currentIndex == old(carousel.currentIndex)
      ensures carousel.scrollLeft != old(carousel.scrollLeft) ==> carousel.Synced()
      ensures carousel.scrollLeft == old(carousel.scrollLeft) ==>
                carousel.canScrollLeft == old(carousel.canScrollLeft) && carousel.canScrollRight == old(carousel.canScrollRight)
    {
      if key == "Escape" {
        Close();
      }
    }

    /** The `keydown` listener with the same guard as the outside-click callback: only an open card reacts. */
    method OnKeyDownWhenOpen(key: string)
      requires carousel.Valid()
      modifies this, carousel
      ensures carousel.Valid()
      ensures key == "Escape" ==> !open
      ensures old(open) && key == "Escape" ==> carousel.currentIndex == index
      ensures !(old(open) && key == "Escape") ==> open == old(open)
      ensures !(old(open) && key == "Escape") ==>
                carousel.scrollLeft == old(carousel.scrollLeft) && carousel.currentIndex == old(carousel.currentIndex)
      ensures carousel.scrollLeft != old(carousel.scrollLeft) ==> carousel.Synced()
      ensures carousel.scrollLeft == old(carousel.scrollLeft) ==>
                carousel.canScrollLeft == old(carousel.canScrollLeft) && carousel.canScrollRight == old(carousel.canScrollRight)
    {
      if open && key == "Escape" {
        Close();
      }
    }
  }

  /**
   * A key press reaches the window listener of every mounted card; `cards` lists
   * them in the order their listeners were registered, which is the order the
   * listeners run in. Each listener is the one as written.
   */
  method PressKey(row: Carousel, cards: seq<Card>, key: string)
    requires row.Valid()
    requires forall c :: c in cards ==> c.carousel == row
    modifies row, set c | c in cards
    ensures row.Valid()
    ensures key == "Escape" ==> forall c :: c in cards ==> !c.open
    ensures key == "Escape" && |cards| > 0 ==>
              && row.currentIndex == cards[|cards| - 1].index
              && row.scrollLeft == Clamp(CloseTarget(row.innerWidth, cards[|cards| - 1].index), 0, row.MaxScroll())
    ensures key != "Escape" ==>
              && row.scrollLeft == old(row.scrollLeft) && row.currentIndex == old(row.currentIndex)
              && row.canScrollLeft == old(row.canScrollLeft) && row.canScrollRight == old(row.canScrollRight)
              && forall c :: c in cards ==> c.open == old(c.open)
  {
    for i := 0 to |cards|
      invariant row.Valid()
      invariant key == "Escape" ==> forall j :: 0 <= j < i ==> !cards[j].open
      invariant key == "Escape" && i > 0 ==>
                  && row.currentIndex == cards[i - 1].index
                  && row.scrollLeft == Clamp(CloseTarget(row.innerWidth, cards[i - 1].index), 0, row.MaxScroll())
      invariant key != "Escape" ==>
                  && row.scrollLeft == old(row.scrollLeft) && row.currentIndex == old(row.currentIndex)
                  && row.canScrollLeft == old(row.canScrollLeft) && row.canScrollRight == old(row.canScrollRight)
                  && forall c :: c in cards ==> c.open == old(c.open)
    {
      cards[i].OnKeyDown(key);
    }
  }

  /** The same key press when every listener carries the open-card guard. */
  method PressKeyGuarded(row: Carousel, cards: seq<Card>, key: string)
    requires row.Valid()
    requires forall c :: c in cards ==> c.carousel == row
    modifies row, set c | c in cards
    ensures row.Valid()
    ensures key == "Escape" ==> forall c :: c in cards ==> !c.open
    ensures (key != "Escape" || forall c :: c in cards ==> !old(c.open)) ==>
              && row.scrollLeft == old(row.scrollLeft) && row.currentIndex == old(row.currentIndex)
              && row.canScrollLeft == old(row.canScrollLeft) && row.canScrollRight == old(row.canScrollRight)
              && forall c :: c in cards ==> c.open == old(c.open)
  {
    for i := 0 to |cards|
      invariant row.Valid()
      invariant key == "Escape" ==> forall j :: 0 <= j < i ==> !cards[j].open
      invariant (key != "Escape" || forall c :: c in cards ==> !old(c.open)) ==>
                  && row.scrollLeft == old(row.scrollLeft) && row.currentIndex == old(row.currentIndex)
                  && row.canScrollLeft == old(row.canScrollLeft) && row.canScrollRight == old(row.canScrollRight)
                  && forall c :: c in cards ==> c.open == old(c.open)
    {
      cards[i].OnKeyDownWhenOpen(key);
    }
  }

  /**
   * Escape pressed on a desktop-width window with the row at its start and three
   * cards (indexes 0, 1, 2), none of them open: the listeners as written scroll the
   * row to 800 pixels and make card 2 current although no card was open.
   */
  method EscapeWithNoCardOpenMovesRow() returns (scroll: int, current: int)
    ensures scroll == 800 && current == 2
  {
    var row := new Carousel(5000, 1000, 1024);
    row.ApplyInitialScroll(0);
    var c0 := new Card(0, row);
    var c1 := new Card(1, row);
    var c2 := new Card(2, row);
    assert CloseTarget(1024, 2) == 800;
    PressKey(row, [c0, c1, c2], "Escape");
    scroll, current := row.scrollLeft, row.currentIndex;
  }

  /** The same key press with the guarded listeners leaves the row where it was. */
  method EscapeWithNoCardOpenGuarded() returns (scroll: int, current: int)
    ensures scroll == 0 && current == 0
  {
    var row := new Carousel(5000, 1000, 1024);
    row.ApplyInitialScroll(0);
    var c0 := new Card(0, row);
    var c1 := new Card(1, row);
    var c2 := new Card(2, row);
    PressKeyGuarded(row, [c0, c1, c2], "Escape");
    scroll, current := row.scrollLeft, row.currentIndex;
  }

  /** The image inside a card: blurred until the browser reports it loaded. */
  class BlurImage {
    var isLoading: bool

    constructor()
      ensures isLoading
    {
      isLoading := true;
    }

    /** The blur class in effect. */
    function BlurClass(): (c: string)
      reads this
      ensures c == "blur-sm" <==> isLoading
      ensures c == "blur-0" <==> !isLoading
    {
      if isLoading then "blur-sm" else "blur-0"
    }

    /** `onLoad`: the image is sharp from now on. */
    method OnLoad()
      modifies this
      ensures !isLoading && BlurClass() == "blur-0"
    {
      isLoading := false;
    }
  }

  /** The alt text: the given one when it is non-empty, otherwise "Background image". */
  function AltText(alt: Option<string>): (t: string)
    ensures t != ""
    ensures alt.Some? && alt.value != "" ==> t == alt.value
    ensures alt.None? || alt.value == "" ==> t == "Background image"
  {
    if alt.Some? && alt.value != "" then alt.value else "Background image"
  }
}
