/**
 * The home-page carousel (src/components/main-carousel.tsx): every image is stacked in
 * place and only the current one is opaque; a timer moves to the next image every
 * three seconds, wrapping round after the last.
 */
module MainCarousel {
  import opened Wrappers

  /** `(prev + 1) % images.length` */
  function Next(current: int, n: nat): (r: int)
    requires n > 0
    ensures 0 <= r < n
    ensures 0 <= current && current + 1 < n ==> r == current + 1
    ensures current + 1 == n ==> r == 0
  {
    (current + 1) % n
  }

  /** Where the carousel is after `k` ticks from `start`. */
  function AfterTicks(start: int, n: nat, k: nat): int
    requires n > 0
  {
    if k == 0 then start else Next(AfterTicks(start, n, k - 1), n)
  }

  /** `k mod n`, by repeated subtraction: the image reached after `k` steps round `n` images. */
  function Wrap(k: nat, n: nat): (r: nat)
    requires n > 0
    ensures r < n
    ensures k < n ==> r == k
    decreases k
  {
    if k < n then k else Wrap(k - n, n)
  }

  /** One more tick moves one more step round the ring. */
  lemma {:induction false} NextWrap(k: nat, n: nat)
    requires n > 0
    ensures Next(Wrap(k, n), n) == Wrap(k + 1, n)
    decreases k
  {
    if k >= n {
      NextWrap(k - n, n);
      assert k + 1 - n == k - n + 1;
    }
  }

  /** From the first image, `k` ticks show image `k mod n`. */
  lemma {:induction false} TicksFromFirst(n: nat, k: nat)
    requires n > 0
    ensures AfterTicks(0, n, k) == Wrap(k, n)
  {
    if k > 0 {
      TicksFromFirst(n, k - 1);
      NextWrap(k - 1, n);
    }
  }

  /** Every image gets its turn: the first `n` ticks visit each index once, then the cycle repeats. */
  lemma EveryImageShown(n: nat, i: nat)
    requires n > 0 && i < n
    ensures AfterTicks(0, n, i) == i
    ensures AfterTicks(0, n, n + i) == i
  {
    TicksFromFirst(n, i);
    TicksFromFirst(n, n + i);
    assert Wrap(n + i, n) == Wrap(i, n);
  }

  class CarouselView {
    /** `images.length` */
    var count: nat
    /** The `current` state. */
    var current: int
    /** Whether the interval of the effect is running. */
    var ticking: bool

    /** The interval runs exactly while there are images; the index is never negative. */
    ghost predicate Valid()
      reads this
    {
      (ticking <==> count > 0) && current >= 0
    }

    /** The index names one of the images. */
    predicate InRange()
      reads this
    {
      0 <= current < count
    }

    /** The first render and its effect: image 0, and a timer only when there are images. */
    constructor(count: nat)
      ensures Valid() && this.count == count && current == 0
      ensures count > 0 ==> InRange()
    {
      this.count := count;
      current := 0;
      ticking := count > 0;
    }

    /** The interval fires. */
    method Tick()
      requires Valid() && ticking
      modifies this
      ensures Valid() && InRange()
      ensures count == old(count) && current == Next(old(current), count)
    {
      current := (current + 1) % count;
    }

    /**
     * A new image list: the effect restarts the timer (or stops it when the list is
     * empty) but leaves `current` alone, so after a shrink it can point past the end
     * until the next tick.
     */
    method SetImages(n: nat)
      requires Valid()
      modifies this
      ensures Valid() && count == n && current == old(current)
      ensures InRange() <==> old(current) < n
    {
      count := n;
      ticking := n > 0;
    }

    /** Nothing without images; otherwise each image's opacity (`true` for opaque). */
    function Render(): (r: Option<seq<bool>>)
      reads this
      ensures r.None? <==> count == 0
      ensures r.Some? ==> |r.value| == count
      ensures r.Some? ==> forall i :: 0 <= i < count ==> (r.value[i] <==> i == current)
    {
      if count == 0 then None
      else
        var c := current;
        Some(seq(count, i => i == c))
    }
  }

  /** Exactly one image is opaque while the index is in range, and none after a shrink past it. */
  lemma OneImageOpaque(v: CarouselView, i: nat, j: nat)
    requires v.count > 0 && i < v.count && j < v.count
    ensures v.Render().value[i] && v.Render().value[j] ==> i == j
    ensures v.InRange() ==> v.Render().value[v.current]
    ensures !v.InRange() ==> !v.Render().value[i]
  {
  }
}
