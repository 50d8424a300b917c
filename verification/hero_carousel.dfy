/** The slide index of src/components/home/HeroCarousel.tsx: three slides,
    previous and next wrap around, a dot jumps to its slide. */
module HeroCarousel {
  const SlideCount := 3

  predicate InRange(i: int) {
    0 <= i < SlideCount
  }

  /** `prevSlide`. */
  function Prev(i: int): (j: int)
    ensures InRange(i) ==> InRange(j)
    ensures i == 0 ==> j == SlideCount - 1
    ensures i != 0 ==> j == i - 1
  {
    if i == 0 then SlideCount - 1 else i - 1
  }

  /** `nextSlide`, also what the five-second timer calls. */
  function Next(i: int): (j: int)
    ensures InRange(i) ==> InRange(j)
    ensures i == SlideCount - 1 ==> j == 0
    ensures i != SlideCount - 1 ==> j == i + 1
  {
    if i == SlideCount - 1 then 0 else i + 1
  }

  /** Clicking the dot for slide `index`; the dots exist only for valid indices. */
  function Dot(index: int): (j: int)
    requires InRange(index)
    ensures InRange(j) && j == index
  {
    index
  }

  /** Next undoes previous and previous undoes next. */
  lemma PrevNextInverse(i: int)
    requires InRange(i)
    ensures Next(Prev(i)) == i
    ensures Prev(Next(i)) == i
  {
  }

  /** `k` presses of next. */
  function NextTimes(i: int, k: nat): int {
    if k == 0 then i else Next(NextTimes(i, k - 1))
  }

  /** Pressing next `k` times moves `k` slides forward, modulo the slide count. */
  lemma {:induction false} NextTimesIsModular(i: int, k: nat)
    requires InRange(i)
    ensures NextTimes(i, k) == (i + k) % SlideCount
  {
    if k > 0 {
      NextTimesIsModular(i, k - 1);
    }
  }

  /** So a full round of next presses returns to the starting slide. */
  lemma FullRoundReturns(i: int)
    requires InRange(i)
    ensures NextTimes(i, SlideCount) == i
  {
    NextTimesIsModular(i, SlideCount);
  }
}
