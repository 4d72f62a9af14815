/** Capped exponential backoff with equal jitter, on 64-bit integers. */
module Retry {

  /** Go's int and time.Duration. */
  newtype int64 = x: int | -0x8000_0000_0000_0000 <= x <= 0x7FFF_FFFF_FFFF_FFFF

  /** Division by two as Go does it, towards zero. */
  function Half(d: int): (h: int)
    ensures d >= 0 ==> 2 * h <= d <= 2 * h + 1
    ensures d < 0 ==> d <= 2 * h <= d + 1
  {
    if d >= 0 then d / 2 else -((-d) / 2)
  }

  function Pow2(n: nat): (p: nat)
    ensures p > n
  {
    if n == 0 then 1 else 2 * Pow2(n - 1)
  }

  function Min(a: int, b: int): int {
    if a < b then a else b
  }

  /** The documented delay before jitter: base * 2^(retry-1), capped. */
  function Documented(retry: int, base: int, max: int): int
    requires retry >= 1
  {
    Min(base * Pow2(retry - 1), max)
  }

  /** The doubling would stop one short of an odd cap. */
  predicate OneShort(retry: int, base: int, max: int)
    requires retry >= 1
  {
    retry >= 2 && base * Pow2(retry - 1) == max - 1
  }

  /** The doubling of the delay from retry `i` on, with the jump to the cap once half of it is reached. */
  function Climb(i: int, retry: int, delay: int, max: int): int
    decreases retry - i
  {
    if i >= retry then delay
    else if delay >= Half(max) then max
    else Climb(i + 1, retry, 2 * delay, max)
  }

  /** How often the loop doubles. */
  function Doublings(i: int, retry: int, delay: int, max: int): nat
    decreases retry - i
  {
    if i >= retry || delay >= Half(max) then 0 else 1 + Doublings(i + 1, retry, 2 * delay, max)
  }

  /** The delay before jitter. */
  function Backoff(retry: int, base: int, max: int): int
    requires retry >= 1
  {
    Min(Climb(1, retry, base, max), max)
  }

  /** A random number below `n`. */
  function RandN(n: int, draw: nat): (r: int)
    requires n > 0
    ensures 0 <= r < n
  {
    draw % n
  }

  /** Half of the delay is kept, the other half replaced by a random part. */
  function Jitter(delay: int, draw: nat): (x: int)
    ensures delay >= 2 ==> delay / 2 <= x < delay
    ensures delay < 2 ==> x == delay
  {
    var half := Half(delay);
    if half <= 0 then delay else half + RandN(half, draw)
  }

  /** The delay for any arguments; `draw` stands for the random number. */
  function RetryAfter(retry: int, base: int, max: int, draw: nat): int {
    if retry <= 0 then base
    else if base <= 0 then 0
    else Jitter(Backoff(retry, base, max), draw)
  }

  lemma {:induction false} Pow2Grows(m: nat, n: nat)
    requires m <= n
    ensures Pow2(m) <= Pow2(n)
  {
    if m < n {
      Pow2Grows(m, n - 1);
    }
  }

  lemma {:induction false} Pow2Below64(n: nat)
    requires Pow2(n) <= 0x7FFF_FFFF_FFFF_FFFF
    ensures n <= 62
  {
    if n > 62 {
      Pow2Grows(63, n);
      assert Pow2(63) == 0x8000_0000_0000_0000 by {
        Pow2Doubles();
      }
    }
  }

  lemma Pow2Doubles()
    ensures Pow2(63) == 0x8000_0000_0000_0000
  {
    assert Pow2(8) == 256;
    assert Pow2(16) == 0x1_0000;
    assert Pow2(24) == 0x100_0000;
    assert Pow2(32) == 0x1_0000_0000;
    assert Pow2(40) == 0x100_0000_0000;
    assert Pow2(48) == 0x1_0000_0000_0000;
    assert Pow2(56) == 0x100_0000_0000_0000;
    assert Pow2(63) == 0x8000_0000_0000_0000;
  }

  lemma DoubleOnce(base: int, n: nat)
    ensures 2 * (base * Pow2(n)) == base * Pow2(n + 1)
  {
  }

  lemma MulGrows(base: int, a: nat, b: nat)
    requires base > 0 && a <= b
    ensures base * a <= base * b
  {
  }

  /** Past half of the cap the doubled base reaches the cap, or stops one short of it. */
  lemma JumpsToCap(i: nat, retry: nat, base: int, max: int)
    requires base > 0 && 1 <= i < retry && base * Pow2(i - 1) >= Half(max)
    ensures OneShort(retry, base, max) || Documented(retry, base, max) == max
  {
    DoubleOnce(base, i - 1);
    Pow2Grows(i, retry - 1);
    MulGrows(base, Pow2(i), Pow2(retry - 1));
  }

  lemma Doubled(base: int, max: int, delay: int, i: nat)
    requires i >= 1 && 0 < delay == base * Pow2(i - 1) && delay < Half(max)
    ensures 2 * delay == base * Pow2(i) && 2 * delay + 2 <= max
  {
    DoubleOnce(base, i - 1);
  }

  lemma {:induction false} ClimbFrom(i: nat, retry: nat, base: int, max: int, delay: int)
    requires base > 0 && 1 <= i <= retry && 0 < delay == base * Pow2(i - 1) && (i > 1 ==> delay + 2 <= max)
    ensures Min(Climb(i, retry, delay, max), max)
         == if OneShort(retry, base, max) then max else Documented(retry, base, max)
    decreases retry - i
  {
    if i < retry {
      if delay >= Half(max) {
        JumpsToCap(i, retry, base, max);
      } else {
        Doubled(base, max, delay, i);
        ClimbFrom(i + 1, retry, base, max, 2 * delay);
      }
    }
  }

  /** What the doubling comes to: the documented delay, but from one short of the cap it jumps to the cap. */
  lemma ClosedForm(retry: int, base: int, max: int)
    requires retry >= 1 && base > 0
    ensures Backoff(retry, base, max) == if OneShort(retry, base, max) then max else Documented(retry, base, max)
  {
    ClimbFrom(1, retry, base, max, base);
  }

  lemma {:induction false} DoublingsStayBelow(i: nat, retry: nat, base: int, max: int, delay: int)
    requires base > 0 && 1 <= i && 0 < delay == base * Pow2(i - 1) && (i > 1 ==> delay < max)
    ensures var n := i - 1 + Doublings(i, retry, delay, max); n > 0 ==> base * Pow2(n) < max
    decreases retry - i
  {
    if i < retry && delay < Half(max) {
      Doubled(base, max, delay, i);
      DoublingsStayBelow(i + 1, retry, base, max, 2 * delay);
    }
  }

  /** The loop is short however large `retry` is: each doubling stays below the cap, so there are at most 62. */
  lemma FewDoublings(retry: nat, base: int, max: int)
    requires retry >= 1 && base > 0 && max <= 0x7FFF_FFFF_FFFF_FFFF
    ensures var n := Doublings(1, retry, base, max); n <= 62 && (n > 0 ==> base * Pow2(n) < max)
  {
    DoublingsStayBelow(1, retry, base, max, base);
    var n := Doublings(1, retry, base, max);
    if n > 0 {
      MulGrows(Pow2(n), 1, base);
      Pow2Below64(n);
    }
  }

  /** The documented formula is met exactly when the doubling does not stop one short of the cap; then it is exceeded
      by one, and the cap is odd. */
  lemma DocumentedExactlyWhen(retry: int, base: int, max: int)
    requires retry >= 1 && base > 0
    ensures Backoff(retry, base, max) == Documented(retry, base, max) <==> !OneShort(retry, base, max)
    ensures OneShort(retry, base, max) ==>
      Backoff(retry, base, max) == max == Documented(retry, base, max) + 1 && max % 2 == 1
  {
    ClosedForm(retry, base, max);
    if OneShort(retry, base, max) {
      DoubleOnce(base, retry - 2);
    }
  }

  /** For every retry from the second on and every base whose doubling stays within 64 bits, there is a 64-bit cap at
      which the formula is missed by one. */
  lemma DocumentedFails(retry: int, base: int)
    requires retry >= 2 && base > 0 && base * Pow2(retry - 1) < 0x7FFF_FFFF_FFFF_FFFF
    ensures var max := base * Pow2(retry - 1) + 1;
      Backoff(retry, base, max) == max && Documented(retry, base, max) == max - 1
  {
    DocumentedExactlyWhen(retry, base, base * Pow2(retry - 1) + 1);
  }

  /** The second retry from a base of 1 under a cap of 3 waits 3, and the formula says 2. */
  lemma DocumentedFailsEarly()
    ensures Backoff(2, 1, 3) == 3 && Documented(2, 1, 3) == 2
  {
    assert Pow2(1) == 2;
    DocumentedFails(2, 1);
  }

  /** Every value of the range is some draw's. */
  lemma DelayCovers(delay: int, x: int)
    requires delay >= 2 && delay / 2 <= x < 2 * (delay / 2)
    ensures Jitter(delay, x - delay / 2) == x
  {
    var half := Half(delay);
    assert half == delay / 2;
    assert (x - half) % half == x - half;
  }

  /** The possible delays are exactly the numbers from half of the backoff up to, but not including, twice that half;
      a backoff below two is not jittered. */
  lemma DelayRange(retry: int, base: int, max: int, x: int)
    requires retry >= 1 && base > 0
    ensures var d := Backoff(retry, base, max);
      && d <= max
      && ((exists draw: nat :: Jitter(d, draw) == x) <==> if d >= 2 then d / 2 <= x < 2 * (d / 2) else x == d)
  {
    var d := Backoff(retry, base, max);
    if d >= 2 && d / 2 <= x < 2 * (d / 2) {
      DelayCovers(d, x);
    } else if d < 2 {
      assert Jitter(d, 0) == d;
    } else {
      forall draw: nat ensures Jitter(d, draw) != x {
        assert RandN(Half(d), draw) < Half(d);
      }
    }
  }

  /** The delays the code can produce, in terms of the doubled base alone: from half of it, capped, up to but not
      including twice that half. One short of the cap counts as the cap, and a delay below two is not jittered. Out of
      range arguments give the base or nothing. */
  lemma RetryLaw(retry: int, base: int, max: int, x: int)
    ensures retry <= 0 ==> forall draw: nat :: RetryAfter(retry, base, max, draw) == base
    ensures retry > 0 && base <= 0 ==> forall draw: nat :: RetryAfter(retry, base, max, draw) == 0
    ensures retry > 0 && base > 0 ==>
      var doubled := base * Pow2(retry - 1);
      var d := if doubled >= max || (retry > 1 && doubled == max - 1) then max else doubled;
      (exists draw: nat :: RetryAfter(retry, base, max, draw) == x)
        <==> if d >= 2 then d / 2 <= x < 2 * (d / 2) else x == d
  {
    if retry > 0 && base > 0 {
      ClosedForm(retry, base, max);
      DelayRange(retry, base, max, x);
      var d := Backoff(retry, base, max);
      if draw: nat :| Jitter(d, draw) == x {
        assert RetryAfter(retry, base, max, draw) == x;
      }
      if draw: nat :| RetryAfter(retry, base, max, draw) == x {
        assert Jitter(d, draw) == x;
      }
    }
  }

  /** Never overflows, whatever the arguments. `draw` stands for the random number. */
  method RetryDelay(retry: int64, baseDelay: int64, maxDelay: int64, draw: nat)
      returns (result: int64, ghost doublings: nat)
    ensures result as int == RetryAfter(retry as int, baseDelay as int, maxDelay as int, draw)
    ensures retry <= 0 ==> result == baseDelay
    ensures retry > 0 && baseDelay <= 0 ==> result == 0
    ensures retry > 0 && baseDelay > 0 ==>
      var doubled := baseDelay as int * Pow2(retry as int - 1);
      var d := if doubled >= maxDelay as int || (retry > 1 && doubled == maxDelay as int - 1)
               then maxDelay as int else doubled;
      if d >= 2 then d / 2 <= result as int < 2 * (d / 2) else result as int == d
    ensures doublings == if retry <= 0 || baseDelay <= 0 then 0
                         else Doublings(1, retry as int, baseDelay as int, maxDelay as int)
  {
    doublings := 0;
    if retry <= 0 {
      return baseDelay, 0;
    }
    if baseDelay <= 0 {
      return 0, 0;
    }
    var delay := baseDelay;
    var i: int64 := 1;
    ghost var base, max := baseDelay as int, maxDelay as int;
    RetryLaw(retry as int, base, max, RetryAfter(retry as int, base, max, draw));
    while i < retry
      invariant 1 <= i <= retry && delay > 0
      invariant doublings + Doublings(i as int, retry as int, delay as int, max)
             == Doublings(1, retry as int, base, max)
      invariant delay as int == base * Pow2(i as nat - 1)
      invariant i > 1 ==> delay as int + 2 <= max
      invariant Climb(i as int, retry as int, delay as int, max) == Climb(1, retry as int, base, max)
    {
      if delay as int >= Half(maxDelay as int) {
        delay := maxDelay;
        break;
      }
      Doubled(base, max, delay as int, i as nat);
      delay := delay * 2;
      i := i + 1;
      doublings := doublings + 1;
    }
    if delay > maxDelay {
      delay := maxDelay;
    }
    assert delay as int == Backoff(retry as int, base, max);
    var half := Half(delay as int);
    if half <= 0 {
      return delay, doublings;
    }
    result := (half + RandN(half, draw)) as int64;
  }

  lemma BackoffMonotone(retry: int, base: int, max: int)
    requires retry >= 1 && base > 0
    ensures Backoff(retry, base, max) <= Backoff(retry + 1, base, max)
  {
    ClosedForm(retry, base, max);
    ClosedForm(retry + 1, base, max);
    DoubleOnce(base, retry - 1);
    MulGrows(base, Pow2(retry - 1), Pow2(retry));
    MulGrows(base, 1, Pow2(retry - 1));
  }

  /** Whatever the two draws, the delay from `d'` is strictly longer than the one from `d`. */
  ghost predicate Apart(d: int, d': int) {
    forall draw: nat, later: nat :: Jitter(d, draw) < Jitter(d', later)
  }

  /** Consecutive delays can never cross exactly when the halves do not overlap; in particular while the backoff
      doubles. */
  lemma SeparatedExactlyWhen(retry: int, base: int, max: int)
    requires retry >= 1 && base > 0 && Backoff(retry, base, max) >= 2
    ensures var d, d' := Backoff(retry, base, max), Backoff(retry + 1, base, max);
      && (Apart(d, d') <==> 2 * (d / 2) <= d' / 2)
      && (d' == 2 * d ==> Apart(d, d'))
  {
    var d, d' := Backoff(retry, base, max), Backoff(retry + 1, base, max);
    BackoffMonotone(retry, base, max);
    if 2 * (d / 2) <= d' / 2 {
      forall draw: nat, later: nat ensures Jitter(d, draw) < Jitter(d', later) {
        assert RandN(Half(d), draw) < Half(d) && 0 <= RandN(Half(d'), later);
      }
    } else {
      DelayCovers(d, 2 * (d / 2) - 1);
      DelayCovers(d', d' / 2);
      assert !(Jitter(d, 2 * (d / 2) - 1 - d / 2) < Jitter(d', 0));
    }
  }
}
