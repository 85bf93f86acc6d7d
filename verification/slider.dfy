/** The range slider that splits the total: its step ladder
    (`getSliderStep`) and the first-match snapping rule of its `onChange`
    handler. Amounts are whole numbers; every tolerance of the form
    `|x| <= step / 2` is kept in integers as `2 * |x| <= step`. */
module Slider {

  function Abs(x: int): (r: nat)
    ensures r == x || r == -x
  {
    if x < 0 then -x else x
  }

  /** `getSliderStep`: coarser slider positions for larger totals. */
  function Step(total: int): (step: nat)
    ensures step in {1, 10, 100, 500, 1000}
  {
    if total <= 1000 then 1
    else if total <= 10000 then 10
    else if total <= 100000 then 100
    else if total <= 1000000 then 500
    else 1000
  }

  /** A larger total never gets a finer step. */
  lemma StepMonotone(a: int, b: int)
    requires a <= b
    ensures Step(a) <= Step(b)
  {
  }

  /** The purpose of the ladder: above 1000 a step is at most a tenth of
      the total, and up to 1,000,000 the slider has at most 2000 positions. */
  lemma StepKeepsSliderUsable(total: int)
    ensures total > 1000 ==> 10 * Step(total) <= total
    ensures 0 <= total <= 1000000 ==> total <= 2000 * Step(total)
  {
  }

  /** `Math.round(total / 2)` for a non-negative total: the nearest whole
      number to half the total, a tie (odd total) rounding up. */
  function Half(total: nat): (h: nat)
    ensures total <= 2 * h <= total + 1
  {
    (total + 1) / 2
  }

  /** Rule 1: within half a step of the rounded midpoint. */
  predicate NearHalf(total: nat, step: nat, value: int) {
    2 * Abs(value - Half(total)) <= step
  }

  /** Rule 2: within a whole step of the maximum (not half a step). */
  predicate NearTotal(total: nat, step: nat, value: int) {
    Abs(value - total) <= step
  }

  /** Rule 3: at most half a step above the minimum. */
  predicate NearZero(step: nat, value: int) {
    2 * value <= step
  }

  /** The slider's snapping rule: the first of the three rules that matches
      decides, and a value no rule matches is kept. */
  function Snap(total: nat, step: nat, value: int): (r: int)
    ensures r == Half(total) || r == total || r == 0 || r == value
    ensures NearHalf(total, step, value) ==> r == Half(total)
    ensures !NearHalf(total, step, value) && NearTotal(total, step, value) ==> r == total
    ensures !NearHalf(total, step, value) && !NearTotal(total, step, value) && NearZero(step, value) ==> r == 0
    ensures r != value ==> NearHalf(total, step, value) || NearTotal(total, step, value) || NearZero(step, value)
    ensures 0 <= value <= total ==> Abs(r - value) <= step
    ensures 0 <= value <= total ==> 0 <= r <= total
  {
    var half := Half(total);
    if NearHalf(total, step, value) then half
    else if NearTotal(total, step, value) then total
    else if NearZero(step, value) then 0
    else value
  }

  /** With the step the ladder gives, the slider's end positions stay put,
      except that for a total of 1 the minimum snaps to the maximum: the
      near-total tolerance is a whole step, and the whole range is one step. */
  lemma SnapEnds(total: nat)
    ensures Snap(total, Step(total), total) == total
    ensures total != 1 ==> Snap(total, Step(total), 0) == 0
    ensures Snap(1, Step(1), 0) == 1
  {
  }

  /** With the ladder's step, a snapped position is a fixed point of the
      rule: dispatching the snapped value again changes nothing. */
  lemma SnapIdempotent(total: nat, value: int)
    requires 0 <= value <= total
    ensures Snap(total, Step(total), Snap(total, Step(total), value)) == Snap(total, Step(total), value)
  {
    SnapEnds(total);
  }

  /** The drag examples for the default total of 1,000,000, whose step the
      ladder sets to 500: 499,800 snaps to the midpoint, 999,500 to the
      maximum, and 300 is more than half a step above 0, so it stays. */
  lemma SnapExamples()
    ensures Step(1000000) == 500
    ensures Snap(1000000, Step(1000000), 499800) == 500000
    ensures Snap(1000000, Step(1000000), 999500) == 1000000
    ensures Snap(1000000, Step(1000000), 300) == 300
    ensures Snap(1000000, Step(1000000), 250) == 0
  {
  }

  /** Rule order decides overlaps: for any total and step, a value that
      matches both the midpoint rule and the zero rule (or the midpoint and
      the maximum rule) snaps to the midpoint, because that rule is tried
      first. */
  lemma SnapHalfBeforeZero(total: nat, step: nat, value: int)
    requires NearHalf(total, step, value)
    ensures NearZero(step, value) ==> Snap(total, step, value) == Half(total)
    ensures NearTotal(total, step, value) ==> Snap(total, step, value) == Half(total)
  {
  }

  /** The overlap does happen for some steps: with step 2 and total 2, the
      bottom of the range is near both the midpoint and zero, and goes to
      the midpoint. */
  lemma SnapHalfBeforeZeroExample()
    ensures NearHalf(2, 2, 0) && NearZero(2, 0)
    ensures Snap(2, 2, 0) == 1
  {
  }

  /** With the ladder's steps and a positive total, no in-range value is
      near both the midpoint and zero: the midpoint and zero windows never
      overlap, so for the slider as built the order of rules 1 and 3 is
      not observable. */
  lemma LadderHalfAndZeroDisjoint(total: nat, value: int)
    requires 0 < total && 0 <= value <= total
    ensures !(NearHalf(total, Step(total), value) && NearZero(Step(total), value))
  {
  }
}
