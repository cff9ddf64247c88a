/** The carousel's position arithmetic and the dot indicators, as values.
    The controller in carousel.dfy is specified by these functions. */
module CarouselSpec {

  /** The wrap rule of showSlide: one past the last slide goes to the first,
      anything below zero goes to the last, every other index is kept.
      It is not a modulo: an index far past the end still lands on slide 0. */
  function Normalize(index: int, n: nat): (r: int)
    requires n >= 1
    ensures 0 <= r < n
    ensures index >= n ==> r == 0
    ensures index < 0 ==> r == n - 1
    ensures -1 <= index <= n ==> r == index % n
  {
    if index >= n then 0
    else if index < 0 then n - 1
    else index
  }

  /** nextSlide: the slide after `i`, wrapping from the last to the first. */
  function NextIndex(i: int, n: nat): (r: int)
    requires n >= 1 && 0 <= i < n
    ensures 0 <= r < n
    ensures r == (i + 1) % n
  {
    Normalize(i + 1, n)
  }

  /** prevSlide: the slide before `i`, wrapping from the first to the last. */
  function PrevIndex(i: int, n: nat): (r: int)
    requires n >= 1 && 0 <= i < n
    ensures 0 <= r < n
    ensures r == (i - 1 + n) % n
  {
    Normalize(i - 1, n)
  }

  /** The translation of the slide track, in percent of its width: slide
      `current` is in view when the track is shifted left by `current` widths,
      so the shown slide can be read back from the offset. */
  function TrackOffset(current: int): (r: int)
    ensures r <= 0 <==> current >= 0
    ensures -r / 100 == current
  {
    -current * 100
  }

  /** The "active" flags that updateDots leaves on `n` dots when slide `k` is shown. */
  function DotsFor(n: nat, k: int): (dots: seq<bool>)
    ensures |dots| == n
  {
    seq(n, j => j == k)
  }

  /** How many dots carry the active flag. */
  function CountActive(dots: seq<bool>): (count: nat)
  {
    if dots == [] then 0
    else CountActive(dots[..|dots| - 1]) + (if dots[|dots| - 1] then 1 else 0)
  }

  /** The slide shown after `k` timer ticks (or `k` nextSlide calls) starting from `i`. */
  function Advance(i: int, k: nat, n: nat): (r: int)
    requires n >= 1 && 0 <= i < n
    ensures 0 <= r < n
  {
    if k == 0 then i else NextIndex(Advance(i, k - 1, n), n)
  }

  lemma {:induction false} NoneActive(dots: seq<bool>)
    requires forall j :: 0 <= j < |dots| ==> !dots[j]
    ensures CountActive(dots) == 0
  {
    if dots != [] {
      NoneActive(dots[..|dots| - 1]);
    }
  }

  lemma {:induction false} OneActive(dots: seq<bool>, k: int)
    requires 0 <= k < |dots|
    requires forall j :: 0 <= j < |dots| ==> (dots[j] <==> j == k)
    ensures CountActive(dots) == 1
  {
    var prefix := dots[..|dots| - 1];
    if k == |dots| - 1 {
      NoneActive(prefix);
    } else {
      OneActive(prefix, k);
    }
  }

  /** Whatever slide is shown, exactly one dot is active, and it is the dot of that slide. */
  lemma ExactlyOneDotActive(n: nat, k: int)
    requires 0 <= k < n
    ensures CountActive(DotsFor(n, k)) == 1
    ensures forall j :: 0 <= j < n ==> (DotsFor(n, k)[j] <==> j == k)
  {
    OneActive(DotsFor(n, k), k);
  }

  /** Left untouched for `k` ticks from slide `i`, the carousel lands on slide `(i + k) % n`. */
  lemma {:induction false} AdvanceIsModular(i: int, k: nat, n: nat)
    requires n >= 1 && 0 <= i < n
    ensures Advance(i, k, n) == (i + k) % n
  {
    if k > 0 {
      var x := i + k - 1;
      var before := Advance(i, k - 1, n);
      AdvanceIsModular(i, k - 1, n);
      assert before == x % n;
      assert Advance(i, k, n) == (before + 1) % n;
      ModSuccessor(x, n);
      assert x + 1 == i + k;
    }
  }

  /** Taking the successor commutes with reducing modulo `n`. */
  lemma ModSuccessor(x: int, n: nat)
    requires n >= 1
    ensures ((x % n) + 1) % n == (x + 1) % n
  {
    var q, a := x / n, x % n;
    assert x == q * n + a;
    if a + 1 < n {
      assert x + 1 == q * n + (a + 1);
      ModOfMultiplePlus(q, n, a + 1);
    } else {
      assert x + 1 == (q + 1) * n;
      ModOfMultiplePlus(q + 1, n, 0);
    }
  }

  /** Euclidean division by `n` is unique: a multiple of `n` plus a remainder in range
      has exactly that remainder. */
  lemma ModOfMultiplePlus(q: int, n: nat, a: int)
    requires n >= 1 && 0 <= a < n
    ensures (q * n + a) % n == a
  {
    var x := q * n + a;
    var d := x / n - q;
    assert d * n == a - x % n by {
      assert x == (x / n) * n + x % n;
      assert (x / n) * n == (q + d) * n == q * n + d * n;
    }
    if d >= 1 {
      MulMonotone(d, n);
    } else if d <= -1 {
      MulMonotone(-d, n);
    }
  }

  lemma MulMonotone(d: int, n: nat)
    requires d >= 1
    ensures d * n >= n
  {
  }

  /** The previous slide of the next slide is the slide itself, and the other way round. */
  lemma NextPrevInverse(i: int, n: nat)
    requires n >= 1 && 0 <= i < n
    ensures PrevIndex(NextIndex(i, n), n) == i
    ensures NextIndex(PrevIndex(i, n), n) == i
  {
  }

  /** The wrap rule differs from a modulo for indices more than one step out of range:
      with at least six slides, showSlide(n + 5) shows slide 0, not slide 5. */
  lemma WrapIsNotModulo(n: nat)
    requires n > 5
    ensures Normalize(n + 5, n) == 0
    ensures (n + 5) % n == 5
  {
  }

  /** Three slides, starting at the first: three nextSlide calls visit 1, 2 and then 0 again;
      one prevSlide from the first slide goes to the last. */
  lemma ThreeSlideScenario()
    ensures Advance(0, 1, 3) == 1 && Advance(0, 2, 3) == 2 && Advance(0, 3, 3) == 0
    ensures PrevIndex(0, 3) == 2
  {
  }
}
