/** The image carousel beside the sign-in and sign-up forms: a timer advances the
    shown image every five seconds, wrapping after the last one, and a dot per image
    jumps straight to it. The five-second timer is the caller calling `Tick`. */
module Carousel {

  const Images: seq<string> := ["/auth/auth1.jpg", "/auth/auth2.jpg", "/auth/auth3.jpg"]

  const FullOpacity: string := "opacity-100"
  const NoOpacity: string := "opacity-0"

  /** The timer's update of the index: the next image, and the first after the last. */
  function Next(i: int): (r: int)
    ensures 0 <= i < |Images| ==> 0 <= r < |Images| && r == (i + 1) % |Images|
  {
    if i == |Images| - 1 then 0 else i + 1
  }

  /** The index after `k` ticks from `i`. */
  function Advance(i: int, k: nat): int {
    if k == 0 then i else Next(Advance(i, k - 1))
  }

  /** `k` ticks move the index `k` places, modulo the number of images. */
  lemma {:induction false} AdvanceIsModular(i: int, k: nat)
    requires 0 <= i < |Images|
    ensures Advance(i, k) == (i + k) % |Images|
  {
    if k > 0 {
      AdvanceIsModular(i, k - 1);
      StepModThree(i + k - 1);
    }
  }

  /** One more step moves the remainder modulo three by one. */
  lemma StepModThree(m: int)
    ensures (m + 1) % 3 == if m % 3 == 2 then 0 else m % 3 + 1
  {
    var q := m / 3;
    assert m == 3 * q + m % 3;
    assert m + 1 == 3 * q + (m % 3 + 1);
    if m % 3 == 2 {
      assert m + 1 == 3 * (q + 1);
    }
  }

  /** After one tick per image the carousel shows the image it started from. */
  lemma FullCycle(i: int)
    requires 0 <= i < |Images|
    ensures Advance(i, |Images|) == i
  {
    AdvanceIsModular(i, |Images|);
    assert (i + |Images|) % |Images| == i;
  }

  /** The class of slide `index` while `current` is shown. */
  function SlideClass(index: int, current: int): string {
    if index == current then FullOpacity else NoOpacity
  }

  /** The classes of the slides, in order, while `current` is shown. */
  function Slides(current: int): seq<string> {
    seq(|Images|, i => SlideClass(i, current))
  }

  /** While a valid index is shown, exactly one slide is at full opacity, the shown one. */
  lemma OneSlideVisible(current: int)
    requires 0 <= current < |Images|
    ensures multiset(Slides(current))[FullOpacity] == 1
    ensures forall i :: 0 <= i < |Images| ==> (Slides(current)[i] == FullOpacity <==> i == current)
  {
    OneMarked(|Images|, current);
    assert Slides(current) == seq(|Images|, i => SlideClass(i, current));
  }

  lemma {:induction false} OneMarked(n: nat, current: int)
    requires 0 <= current < n
    ensures multiset(seq(n, i => SlideClass(i, current)))[FullOpacity] == 1
  {
    var s := seq(n, i => SlideClass(i, current));
    var init := seq(n - 1, i => SlideClass(i, current));
    assert s == init + [s[n - 1]];
    if current == n - 1 {
      NoneMarked(n - 1, current);
      assert FullOpacity != NoOpacity by { assert FullOpacity[8] != NoOpacity[8]; }
    } else {
      OneMarked(n - 1, current);
      assert s[n - 1] == NoOpacity;
      assert FullOpacity != NoOpacity by { assert FullOpacity[8] != NoOpacity[8]; }
    }
  }

  lemma {:induction false} NoneMarked(n: nat, current: int)
    requires n <= current
    ensures multiset(seq(n, i => SlideClass(i, current)))[FullOpacity] == 0
  {
    if n > 0 {
      var s := seq(n, i => SlideClass(i, current));
      var init := seq(n - 1, i => SlideClass(i, current));
      assert s == init + [s[n - 1]];
      NoneMarked(n - 1, current);
      assert FullOpacity != NoOpacity by { assert FullOpacity[8] != NoOpacity[8]; }
    }
  }

  /** The `currentImage` state of one mounted carousel. */
  class ImageCarousel {
    var currentImage: int

    predicate Valid()
      reads this
    {
      0 <= currentImage < |Images|
    }

    /** The first image is shown on mount. */
    constructor()
      ensures Valid() && currentImage == 0
    {
      currentImage := 0;
    }

    /** The interval callback. */
    method Tick()
      requires Valid()
      modifies this
      ensures Valid()
      ensures currentImage == Next(old(currentImage))
    {
      currentImage := if currentImage == |Images| - 1 then 0 else currentImage + 1;
    }

    /** A click on the dot of image `index`; there is one dot per image. */
    method SelectImage(index: int)
      requires 0 <= index < |Images|
      modifies this
      ensures Valid() && currentImage == index
    {
      currentImage := index;
    }

    /** The class the slide `index` renders with: full opacity exactly for the shown
        image. */
    function SlideClassOf(index: int): (r: string)
      reads this
      ensures r == FullOpacity <==> index == currentImage
      ensures r == NoOpacity <==> index != currentImage
    {
      assert FullOpacity != NoOpacity by { assert FullOpacity[8] != NoOpacity[8]; }
      SlideClass(index, currentImage)
    }
  }

  /** Starting anywhere, three ticks return to the same image. */
  method ThreeTicks(c: ImageCarousel)
    requires c.Valid()
    modifies c
    ensures c.Valid() && c.currentImage == old(c.currentImage)
  {
    ghost var start := c.currentImage;
    c.Tick();
    assert c.currentImage == Advance(start, 1);
    c.Tick();
    assert c.currentImage == Advance(start, 2);
    c.Tick();
    assert c.currentImage == Advance(start, 3);
    FullCycle(start);
  }
}
