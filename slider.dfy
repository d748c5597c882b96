/** The per-card image carousel of js/slider.js. Each project card keeps its
    own slide index, moved forward by the "next" button and by a 4-second
    timer, and backward by the "prev" button; the slide at the index is
    the only one carrying the `active` class. */
module Slider {

  /** The "next" step, `(index + 1) % slides.length`. Both operands are
      non-negative, so JavaScript's truncating `%` agrees with Dafny's. */
  function Next(i: nat, n: nat): (r: nat)
    requires n > 0
    ensures r < n
    ensures i < n ==> r == if i == n - 1 then 0 else i + 1
  {
    (i + 1) % n
  }

  /** The "prev" step, `(index - 1 + slides.length) % slides.length`. */
  function Prev(i: nat, n: nat): (r: nat)
    requires n > 0
    ensures r < n
    ensures i < n ==> r == if i == 0 then n - 1 else i - 1
  {
    (i - 1 + n) % n
  }

  /** "prev" undoes "next" and "next" undoes "prev". */
  lemma PrevUndoesNext(i: nat, n: nat)
    requires i < n
    ensures Prev(Next(i, n), n) == i
    ensures Next(Prev(i, n), n) == i
  {
  }

  /** The index after `steps` presses of "next" (or timer ticks). */
  function Advance(i: nat, n: nat, steps: nat): nat
    requires n > 0
  {
    if steps == 0 then i else Next(Advance(i, n, steps - 1), n)
  }

  lemma MulAtLeast(d: int, n: int)
    requires d >= 1 && n > 0
    ensures d * n >= n
  {
    assert d * n == (d - 1) * n + n;
  }

  lemma ModUnique(a: int, n: int, q: int, m: int)
    requires 0 <= m < n && a == q * n + m
    ensures a % n == m
  {
    var q', m' := a / n, a % n;
    assert a == q' * n + m';
    if q' < q {
      MulAtLeast(q - q', n);
    } else if q' > q {
      MulAtLeast(q' - q, n);
    }
  }

  lemma ModSucc(a: nat, n: nat)
    requires n > 0
    ensures ((a % n) + 1) % n == (a + 1) % n
  {
    var q, m := a / n, a % n;
    assert a == q * n + m;
    if m + 1 < n {
      ModUnique(a + 1, n, q, m + 1);
      ModUnique(m + 1, n, 0, m + 1);
    } else {
      assert a + 1 == (q + 1) * n + 0;
      ModUnique(a + 1, n, q + 1, 0);
      ModUnique(m + 1, n, 1, 0);
    }
  }

  /** `steps` presses of "next" add `steps` to the index, modulo the count. */
  lemma {:induction false} AdvanceIsAddition(i: nat, n: nat, steps: nat)
    requires i < n
    ensures Advance(i, n, steps) == (i + steps) % n
  {
    if steps == 0 {
      ModUnique(i, n, 0, i);
    } else {
      AdvanceIsAddition(i, n, steps - 1);
      ModSucc(i + steps - 1, n);
    }
  }

  /** Pressing "next" once per slide comes back to the starting slide; from
      the last of three slides, "next" goes to the first. */
  lemma {:induction false} FullCycle(i: nat, n: nat)
    requires i < n
    ensures Advance(i, n, n) == i
    ensures Next(2, 3) == 0
  {
    AdvanceIsAddition(i, n, n);
    ModUnique(i + n, n, 1, i);
  }

  /** The number of slides carrying `active`. */
  function CountActive(slides: seq<bool>): nat
  {
    if slides == [] then 0 else (if slides[0] then 1 else 0) + CountActive(slides[1..])
  }

  lemma {:induction false} NoneActive(slides: seq<bool>)
    requires forall k :: 0 <= k < |slides| ==> !slides[k]
    ensures CountActive(slides) == 0
  {
    if slides != [] {
      NoneActive(slides[1..]);
    }
  }

  /** When exactly the slide at `i` is marked, one slide is active. */
  lemma {:induction false} OnlyOneActive(slides: seq<bool>, i: nat)
    requires i < |slides|
    requires forall k :: 0 <= k < |slides| ==> slides[k] == (k == i)
    ensures CountActive(slides) == 1
  {
    if i == 0 {
      NoneActive(slides[1..]);
    } else {
      OnlyOneActive(slides[1..], i - 1);
    }
  }

  /** One project card. `slides` holds the `active` flag of each image, in
      document order; `hasPrev` and `hasNext` say whether the card has the
      ".prev" and ".next" buttons. */
  class Carousel {
    const hasPrev: bool
    const hasNext: bool
    var slides: seq<bool>
    var index: nat

    /** The index stays in range and the slide it names is the only active
        one; a card without images keeps index 0. */
    ghost predicate Valid()
      reads this
    {
      (|slides| == 0 ==> index == 0) &&
      (|slides| > 0 ==>
         index < |slides| && forall k :: 0 <= k < |slides| ==> slides[k] == (k == index))
    }

    /** The buttons and the timer are wired only for two or more slides. */
    predicate Rotates()
      reads this
    {
      |slides| > 1
    }

    /** Set-up of one card by `initSliders`: the index starts at 0 and, when
        there is at least one image, the first slide is shown. */
    constructor (images: seq<bool>, hasPrev: bool, hasNext: bool)
      ensures Valid()
      ensures this.hasPrev == hasPrev && this.hasNext == hasNext
      ensures index == 0 && |slides| == |images|
      ensures |images| == 0 ==> slides == images
      ensures |images| > 0 ==> CountActive(slides) == 1 && slides[0]
    {
      this.hasPrev := hasPrev;
      this.hasNext := hasNext;
      slides := images;
      index := 0;
      new;
      if |slides| > 0 {
        ShowSlide(0);
      }
    }

    /** `showSlide(i)`: toggles `active` on every slide so that exactly the
        slide at position `i` carries it (none if `i` is out of range). */
    method ShowSlide(i: int)
      modifies this`slides
      ensures |slides| == |old(slides)|
      ensures forall k :: 0 <= k < |slides| ==> slides[k] == (k == i)
      ensures 0 <= i < |slides| ==> CountActive(slides) == 1
      ensures !(0 <= i < |slides|) ==> CountActive(slides) == 0
    {
      var n := 0;
      while n < |slides|
        invariant 0 <= n <= |slides| == |old(slides)|
        invariant forall k :: 0 <= k < n ==> slides[k] == (k == i)
      {
        slides := slides[n := n == i];
        n := n + 1;
      }
      if 0 <= i < |slides| {
        OnlyOneActive(slides, i);
      } else {
        NoneActive(slides);
      }
    }

    /** Shared body of the "next" click handler and the timer callback. */
    method StepForward()
      requires Valid() && Rotates()
      modifies this`index, this`slides
      ensures Valid() && |slides| == |old(slides)|
      ensures index == Next(old(index), |slides|)
    {
      index := Next(index, |slides|);
      ShowSlide(index);
    }

    /** A click on ".next": advances when the handler is installed, that is
        when the card has the button and at least two slides. */
    method OnNextClick()
      requires Valid()
      modifies this`index, this`slides
      ensures Valid() && |slides| == |old(slides)|
      ensures hasNext && Rotates() ==> index == Next(old(index), |slides|)
      ensures !(hasNext && Rotates()) ==> index == old(index) && slides == old(slides)
    {
      if hasNext && Rotates() {
        StepForward();
      }
    }

    /** A click on ".prev": steps back when the handler is installed. */
    method OnPrevClick()
      requires Valid()
      modifies this`index, this`slides
      ensures Valid() && |slides| == |old(slides)|
      ensures hasPrev && Rotates() ==> index == Prev(old(index), |slides|)
      ensures !(hasPrev && Rotates()) ==> index == old(index) && slides == old(slides)
    {
      if hasPrev && Rotates() {
        index := Prev(index, |slides|);
        ShowSlide(index);
      }
    }

    /** The 4-second (4000 ms) timer: the same step as "next", installed
        whenever the card has at least two slides, with or without buttons.
        The timer itself is not modelled; this is what runs when it fires. */
    method OnTick()
      requires Valid()
      modifies this`index, this`slides
      ensures Valid() && |slides| == |old(slides)|
      ensures Rotates() ==> index == Next(old(index), |slides|)
      ensures !Rotates() ==> index == old(index) && slides == old(slides)
    {
      if Rotates() {
        StepForward();
      }
    }
  }

  /** A click on "next" followed by a click on "prev" restores the card. */
  method NextThenPrevRestores(c: Carousel)
    requires c.Valid() && c.hasNext && c.hasPrev
    modifies c
    ensures c.Valid() && c.index == old(c.index) && c.slides == old(c.slides)
  {
    c.OnNextClick();
    c.OnPrevClick();
    if c.Rotates() {
      PrevUndoesNext(old(c.index), |c.slides|);
    }
  }
}
