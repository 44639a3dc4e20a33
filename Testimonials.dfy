/**
 * The testimonial carousel: a current index into a fixed list of quotes, a
 * direction for the slide animation, and the next, previous and dot-click
 * transitions.
 */
module Testimonials {

  datatype Testimonial = Testimonial(quote: string, author: string, role: string)

  const Testimonials: seq<Testimonial> := [
    Testimonial("The team's creative vision and technical expertise transformed our project into something truly extraordinary. Their attention to detail in both scripting and visual elements was impressive.", "Sarah Johnson", "Marketing Director"),
    Testimonial("Working with them was a game-changer for our brand. The video production quality and graphic design work exceeded our expectations and helped us stand out in our industry.", "Michael Chen", "CEO, TechStart"),
    Testimonial("Their scriptwriting talent brought our story to life in ways we never imagined. The team's ability to capture our brand's voice while maintaining creativity was remarkable.", "Emma Rodriguez", "Creative Director")
  ]

  // ---------------------------------------------------------------------
  // Index arithmetic
  // ---------------------------------------------------------------------

  /** The `nextTestimonial` update: the last index wraps to the first. */
  function NextIndex(i: int, n: int): (j: int)
    requires 0 <= i < n
    ensures 0 <= j < n
    ensures j == (i + 1) % n
  {
    if i == n - 1 then 0 else i + 1
  }

  /** The `prevTestimonial` update: the first index wraps to the last. */
  function PrevIndex(i: int, n: int): (j: int)
    requires 0 <= i < n
    ensures 0 <= j < n
    ensures j == (i - 1 + n) % n
  {
    if i == 0 then n - 1 else i - 1
  }

  /** Going back after going forward, or forward after going back, returns
      to the same index. */
  lemma NextPrevInverse(i: int, n: int)
    requires 0 <= i < n
    ensures PrevIndex(NextIndex(i, n), n) == i
    ensures NextIndex(PrevIndex(i, n), n) == i
  {
  }

  /** The index after `k` forward steps from `i`. */
  function Advance(i: int, n: int, k: nat): (j: int)
    requires 0 <= i < n
    ensures 0 <= j < n
  {
    if k == 0 then i else NextIndex(Advance(i, n, k - 1), n)
  }

  /** Up to one full cycle, `k` forward steps add `k` and wrap once. */
  lemma {:induction false} AdvanceWraps(i: int, n: int, k: nat)
    requires 0 <= i < n && k <= n
    ensures Advance(i, n, k) == if i + k < n then i + k else i + k - n
  {
    if k > 0 {
      AdvanceWraps(i, n, k - 1);
    }
  }

  /** `n` forward steps visit every testimonial once and come back. */
  lemma FullCycle(i: int, n: int)
    requires 0 <= i < n
    ensures Advance(i, n, n) == i
  {
    AdvanceWraps(i, n, n);
  }

  /** The direction a dot click records: forward to a later dot, backward
      otherwise, including a click on the current dot. */
  function DotDirection(target: int, current: int): (d: int)
    ensures d == 1 || d == -1
    ensures d == 1 <==> target > current
  {
    if target > current then 1 else -1
  }

  // ---------------------------------------------------------------------
  // Slide offsets
  // ---------------------------------------------------------------------

  /** The `x` offset a card enters from. */
  function EnterX(direction: int): (x: int)
    ensures x == 1000 || x == -1000
    ensures x > 0 <==> direction > 0
  {
    if direction > 0 then 1000 else -1000
  }

  /** The `x` offset a card exits to: opposite the entry for a real move. */
  function ExitX(direction: int): (x: int)
    ensures x == 1000 || x == -1000
    ensures x > 0 <==> direction < 0
    ensures direction != 0 ==> x == -EnterX(direction)
  {
    if direction < 0 then 1000 else -1000
  }

  // ---------------------------------------------------------------------
  // The component's state machine
  // ---------------------------------------------------------------------

  /** The `Testimonials` component's state: `currentIndex` and `direction`
      over the fixed list. */
  class Carousel {
    const testimonials: seq<Testimonial>
    var currentIndex: int
    var direction: int

    /** The index is in bounds and the direction is a sign. */
    ghost predicate Valid()
      reads this
    {
      && |testimonials| > 0
      && 0 <= currentIndex < |testimonials|
      && -1 <= direction <= 1
    }

    /** The state on mount: the first testimonial, no direction yet. */
    constructor ()
      ensures Valid()
      ensures testimonials == Testimonials
      ensures currentIndex == 0 && direction == 0
    {
      testimonials := Testimonials;
      currentIndex := 0;
      direction := 0;
    }

    /** `nextTestimonial`, from the next button or the interval timer. */
    method Next()
      requires Valid()
      modifies this
      ensures Valid()
      ensures currentIndex == NextIndex(old(currentIndex), |testimonials|)
      ensures direction == 1
    {
      direction := 1;
      currentIndex := if currentIndex == |testimonials| - 1 then 0 else currentIndex + 1;
    }

    /** `prevTestimonial`, from the previous button. */
    method Prev()
      requires Valid()
      modifies this
      ensures Valid()
      ensures currentIndex == PrevIndex(old(currentIndex), |testimonials|)
      ensures direction == -1
    {
      direction := -1;
      currentIndex := if currentIndex == 0 then |testimonials| - 1 else currentIndex - 1;
    }

    /** A click on the dot of testimonial `index`; the dots are drawn one
        per testimonial, so `index` is always in range. */
    method SelectDot(index: int)
      requires Valid() && 0 <= index < |testimonials|
      modifies this
      ensures Valid()
      ensures currentIndex == index
      ensures direction == DotDirection(index, old(currentIndex))
    {
      direction := if index > currentIndex then 1 else -1;
      currentIndex := index;
    }

    /** The testimonial on the card: always an entry of the list. */
    function Current(): (t: Testimonial)
      requires Valid()
      reads this
      ensures t in testimonials
    {
      testimonials[currentIndex]
    }
  }

  /** Three forward steps from the first testimonial wrap around to it, and
      one step back from it lands on the last. */
  method CarouselCycle()
  {
    var c := new Carousel();
    c.Next();
    assert c.currentIndex == 1 && c.direction == 1;
    c.Next();
    assert c.currentIndex == 2;
    c.Next();
    assert c.currentIndex == 0;
    c.Prev();
    assert c.currentIndex == 2 && c.direction == -1;
  }
}
