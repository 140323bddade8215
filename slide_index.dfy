/** Wraparound index arithmetic of the ThorSlider carousel.

    Both variants of the widget step through their slides with the same forward rule
    (`cur + 1`, or `0` once `cur` is at the last slide).  Their backward rules differ
    in the test they use: the dist variant wraps when `cur == 0`, the src variant
    steps down while `cur > 0`.  The two agree on every index in range and disagree
    below zero.  Wraparound is unconditional: the code has no non-wrapping mode.
 */
module SlideIndex {

  /** The index after one forward step.  In range it is the Euclidean successor
      `(cur + 1) % total`; at or beyond the last slide it is `0`. */
  function Forward(cur: int, total: int): (r: int)
    ensures 0 <= cur < total ==> 0 <= r < total && r == (cur + 1) % total
    ensures cur >= total - 1 ==> r == 0
  {
    if cur < total - 1 then cur + 1 else 0
  }

  /** The dist variant's backward step: wraps to `total - 1` exactly when `cur == 0`.
      In range it is the Euclidean predecessor `(cur - 1) % total`. */
  function BackwardOnZero(cur: int, total: int): (r: int)
    ensures 0 <= cur < total ==> 0 <= r < total && r == (cur - 1) % total
    ensures cur != 0 ==> r == cur - 1
  {
    if cur == 0 then total - 1 else cur - 1
  }

  /** The src variant's backward step: steps down while `cur > 0`, otherwise wraps
      to `total - 1`.  In range it is the Euclidean predecessor `(cur - 1) % total`. */
  function BackwardOnPositive(cur: int, total: int): (r: int)
    ensures 0 <= cur < total ==> 0 <= r < total && r == (cur - 1) % total
    ensures cur <= 0 ==> r == total - 1
  {
    if cur > 0 then cur - 1 else total - 1
  }

  /** A forward step undone by either backward step, and the other way round. */
  lemma ForwardBackwardInverse(cur: int, total: int)
    requires 0 <= cur < total
    ensures BackwardOnZero(Forward(cur, total), total) == cur
    ensures BackwardOnPositive(Forward(cur, total), total) == cur
    ensures Forward(BackwardOnZero(cur, total), total) == cur
    ensures Forward(BackwardOnPositive(cur, total), total) == cur
  {
  }

  /** The two backward rules are interchangeable on indices in range ... */
  lemma BackwardRulesAgreeInRange(cur: int, total: int)
    requires 0 <= cur < total
    ensures BackwardOnZero(cur, total) == BackwardOnPositive(cur, total)
  {
  }

  /** ... and not below zero, which an empty slider reaches: stepping back from `0`
      with no slides gives `-1`, from which the dist rule keeps decreasing while the
      src rule stays at `-1`. */
  lemma BackwardRulesDivergeWhenEmpty()
    ensures BackwardOnZero(0, 0) == -1 && BackwardOnPositive(0, 0) == -1
    ensures BackwardOnZero(-1, 0) == -2 && BackwardOnPositive(-1, 0) == -1
  {
  }

  /** `n` consecutive forward steps, as `n` autoplay ticks perform them. */
  function Advance(cur: int, total: int, n: nat): (r: int)
    decreases n
  {
    if n == 0 then cur else Forward(Advance(cur, total, n - 1), total)
  }

  /** `n` consecutive backward steps under the dist rule. */
  function Retreat(cur: int, total: int, n: nat): (r: int)
    decreases n
  {
    if n == 0 then cur else BackwardOnZero(Retreat(cur, total, n - 1), total)
  }

  /** A positive multiple of a positive modulus is at least the modulus. */
  lemma MulAtLeast(d: int, total: int)
    requires d >= 1 && total > 0
    ensures d * total >= total
  {
  }

  /** Euclidean remainders are unique: `a == q * total + r` with `0 <= r < total`
      makes `r` the remainder of `a`. */
  lemma ModUnique(a: int, total: int, q: int, r: int)
    requires total > 0 && 0 <= r < total && a == q * total + r
    ensures a % total == r
  {
    var q', r' := a / total, a % total;
    assert a == q' * total + r';
    if q > q' {
      MulAtLeast(q - q', total);
    } else if q < q' {
      MulAtLeast(q' - q, total);
    }
  }

  /** Adding one to a residue and reducing again is reducing the successor. */
  lemma ModSucc(a: int, total: int)
    requires total > 0
    ensures (a % total + 1) % total == (a + 1) % total
  {
    var q, r := a / total, a % total;
    assert a == q * total + r;
    if r + 1 < total {
      ModUnique(a + 1, total, q, r + 1);
      ModUnique(r + 1, total, 0, r + 1);
    } else {
      assert (q + 1) * total == q * total + total;
      ModUnique(a + 1, total, q + 1, 0);
      ModUnique(r + 1, total, 1, 0);
    }
  }

  /** Subtracting one from a residue and reducing again is reducing the predecessor. */
  lemma ModPred(a: int, total: int)
    requires total > 0
    ensures (a % total - 1) % total == (a - 1) % total
  {
    var q, r := a / total, a % total;
    assert a == q * total + r;
    if r >= 1 {
      ModUnique(a - 1, total, q, r - 1);
      ModUnique(r - 1, total, 0, r - 1);
    } else {
      assert (q - 1) * total == q * total - total;
      ModUnique(a - 1, total, q - 1, total - 1);
      ModUnique(r - 1, total, -1, total - 1);
    }
  }

  /** After `n` forward steps from an index in range the slider shows slide
      `(cur + n) % total`. */
  lemma {:induction false} AdvanceIsModular(cur: int, total: int, n: nat)
    requires 0 <= cur < total
    ensures Advance(cur, total, n) == (cur + n) % total
  {
    if n > 0 {
      var prev := Advance(cur, total, n - 1);
      AdvanceIsModular(cur, total, n - 1);
      assert prev == (cur + n - 1) % total;
      assert Advance(cur, total, n) == (prev + 1) % total;
      ModSucc(cur + n - 1, total);
    }
  }

  /** After `n` backward steps from an index in range the slider shows slide
      `(cur - n) % total` (Euclidean, so never negative). */
  lemma {:induction false} RetreatIsModular(cur: int, total: int, n: nat)
    requires 0 <= cur < total
    ensures Retreat(cur, total, n) == (cur - n) % total
  {
    if n > 0 {
      var prev := Retreat(cur, total, n - 1);
      RetreatIsModular(cur, total, n - 1);
      assert prev == (cur - (n - 1)) % total;
      assert Retreat(cur, total, n) == (prev - 1) % total;
      ModPred(cur - (n - 1), total);
    }
  }

  /** Every run of forward steps stays in range. */
  lemma {:induction false} AdvanceStaysInRange(cur: int, total: int, n: nat)
    requires 0 <= cur < total
    ensures 0 <= Advance(cur, total, n) < total
  {
    if n > 0 {
      AdvanceStaysInRange(cur, total, n - 1);
    }
  }

  /** `n` backward steps undo `n` forward steps. */
  lemma AdvanceThenRetreat(cur: int, total: int, n: nat)
    requires 0 <= cur < total
    ensures Retreat(Advance(cur, total, n), total, n) == cur
  {
    var x := Advance(cur, total, n);
    AdvanceStaysInRange(cur, total, n);
    AdvanceIsModular(cur, total, n);
    RetreatIsModular(x, total, n);
    ModShiftBack(cur, n, total);
  }

  /** Reducing `cur + n` and then subtracting `n` comes back to `cur` modulo `total`. */
  lemma ModShiftBack(cur: int, n: int, total: int)
    requires 0 <= cur < total
    ensures ((cur + n) % total - n) % total == cur
  {
    var k, x := (cur + n) / total, (cur + n) % total;
    assert cur + n == k * total + x;
    assert (-k) * total == -(k * total);
    ModUnique(x - n, total, -k, cur);
  }

  /** Autoplay is periodic: `total` forward steps bring the slider back. */
  lemma FullCycleReturns(cur: int, total: int)
    requires 0 <= cur < total
    ensures Advance(cur, total, total) == cur
  {
    AdvanceIsModular(cur, total, total);
    ModUnique(cur + total, total, 1, cur);
  }

  /** Autoplay shows every slide: from any index in range, slide `j` comes up after
      `(j - cur) % total` forward steps, fewer than `total`. */
  lemma AdvanceReachesEverySlide(cur: int, total: int, j: int)
    requires 0 <= cur < total && 0 <= j < total
    ensures (j - cur) % total < total
    ensures Advance(cur, total, (j - cur) % total) == j
  {
    AdvanceIsModular(cur, total, (j - cur) % total);
    ModShiftForward(cur, j, total);
  }

  /** Adding to `cur` the residue of `j - cur` reaches `j` modulo `total`. */
  lemma ModShiftForward(cur: int, j: int, total: int)
    requires total > 0 && 0 <= j < total
    ensures (cur + (j - cur) % total) % total == j
  {
    var q, n := (j - cur) / total, (j - cur) % total;
    assert j - cur == q * total + n;
    assert (-q) * total == -(q * total);
    ModUnique(cur + n, total, -q, j);
  }
}
