/** Budgets rounded up to 1, 2 or 5 times a power of ten. Floats are modelled as reals. */
module Rounding {
  import opened Prelude

  const TOLERANCE := 0.000000001

  function Pow10(e: int): (p: real)
    ensures p > 0.0
    decreases if e < 0 then -e else e
  {
    if e == 0 then 1.0 else if e > 0 then 10.0 * Pow10(e - 1) else Pow10(e + 1) / 10.0
  }

  lemma {:induction false} Pow10Next(e: int)
    ensures Pow10(e + 1) == 10.0 * Pow10(e)
  {
  }

  /** `math.floor(math.log10(value))` */
  function FloorLog10(value: real): (e: int)
    requires value > 0.0
    ensures Pow10(e) <= value < Pow10(e + 1)
    decreases if value >= 10.0 then value.Floor else if value < 1.0 then (1.0 / value).Floor else 0
  {
    if value >= 10.0 then
      var e := FloorLog10(value / 10.0);
      Pow10Next(e);
      Pow10Next(e + 1);
      e + 1
    else if value < 1.0 then
      assert 10.0 * value < 1.0 ==> 1.0 / (10.0 * value) == (1.0 / value) / 10.0 && 1.0 / value > 10.0;
      var e := FloorLog10(10.0 * value);
      Pow10Next(e - 1);
      Pow10Next(e);
      e - 1
    else
      assert Pow10(0 + 1) == 10.0;
      0
  }

  const DIGITS := [1.0, 2.0, 5.0]

  /** The steps in order: 1, 2 and 5 times each power of ten. */
  function Step(n: int): (s: real)
    ensures s > 0.0
  {
    DIGITS[n % 3] * Pow10(n / 3)
  }

  lemma {:induction false} StepOf(decade: int, i: nat)
    requires i < 3
    ensures Step(3 * decade + i) == DIGITS[i] * Pow10(decade)
  {
  }

  lemma {:induction false} NextStep(n: int)
    ensures 2.0 * Step(n) <= Step(n + 1) <= 2.5 * Step(n)
  {
  }

  lemma {:induction false} StepsGrow(m: int, n: int)
    requires m < n
    ensures 2.0 * Step(m) <= Step(n)
    decreases n - m
  {
    NextStep(n - 1);
    if m == n - 1 {
    } else {
      StepsGrow(m, n - 1);
    }
  }

  ghost predicate IsStep(s: real) {
    exists n :: s == Step(n)
  }

  /** `r` is the least step that is not below `value` by more than the tolerance. */
  ghost predicate RoundsTo(value: real, r: real) {
    IsStep(r) && r >= value * (1.0 - TOLERANCE) && forall s :: IsStep(s) && s >= value * (1.0 - TOLERANCE) ==> r <= s
  }

  lemma {:induction false} LeastStep(value: real, n: int)
    requires Step(n) >= value * (1.0 - TOLERANCE) > Step(n - 1)
    ensures RoundsTo(value, Step(n))
  {
    forall s | IsStep(s) && s >= value * (1.0 - TOLERANCE) ensures Step(n) <= s {
      var m :| s == Step(m);
      if m < n - 1 {
        StepsGrow(m, n - 1);
      } else if n < m {
        StepsGrow(n, m);
      }
    }
  }

  lemma {:induction false} LeastStepBelow(value: real, r: real) returns (n: int)
    requires RoundsTo(value, r)
    ensures r == Step(n) && Step(n - 1) < value * (1.0 - TOLERANCE)
  {
    n :| r == Step(n);
    StepsGrow(n - 1, n);
    assert IsStep(Step(n - 1));
  }

  ghost predicate TooLow(value: real, n: int) {
    Step(n) < value * (1.0 - TOLERANCE)
  }

  /** The three candidates of one decade: the inner loop of the search. */
  method SearchDecade(value: real, decade: int) returns (found: Option<real>)
    requires TooLow(value, 3 * decade - 1)
    ensures found.Some? ==> RoundsTo(value, found.value)
    ensures found.None? ==> TooLow(value, 3 * decade + 2)
  {
    for i := 0 to 3
      invariant TooLow(value, 3 * decade + i - 1)
    {
      var candidate := DIGITS[i] * Pow10(decade);
      StepOf(decade, i);
      if candidate >= value * (1.0 - TOLERANCE) {
        LeastStep(value, 3 * decade + i);
        return Some(candidate);
      }
    }
    return None;
  }

  /** The search of `round_up_125`, which always ends inside its three decades. */
  method RoundUp125(value: real) returns (out: Outcome<real, string>)
    ensures value <= 0.0 ==> out.Raised?
    ensures value > 0.0 ==> out.Ok? && RoundsTo(value, out.value)
  {
    if value <= 0.0 {
      return Raised("a budget must be positive");
    }
    var exponent := FloorLog10(value);
    StartsBelow(value, exponent);
    for decade := exponent - 1 to exponent + 2
      invariant TooLow(value, 3 * decade - 1)
    {
      var found := SearchDecade(value, decade);
      if found.Some? {
        return Ok(found.value);
      }
    }
    EndsAbove(value, exponent);
    assert false;
  }

  lemma {:induction false} StartsBelow(value: real, e: int)
    requires value > 0.0 && Pow10(e) <= value
    ensures TooLow(value, 3 * (e - 1) - 1)
  {
    Pow10Next(e - 1);
    Pow10Next(e - 2);
    assert Step(3 * (e - 1) - 1) == 5.0 * Pow10(e - 2);
  }

  lemma {:induction false} EndsAbove(value: real, e: int)
    requires value > 0.0 && value < Pow10(e + 1)
    ensures !TooLow(value, 3 * (e + 2) - 1)
  {
  }

  // ---- what the steps are ------------------------------------------------------------

  /** One, two or five times a power of ten: the powers are 1 and, each way, ten times the last. */
  lemma {:induction false} StepsAre(s: real)
    ensures IsStep(s) <==> exists e :: s == Pow10(e) || s == 2.0 * Pow10(e) || s == 5.0 * Pow10(e)
    ensures Pow10(0) == 1.0 && forall e :: Pow10(e + 1) == 10.0 * Pow10(e)
  {
    if IsStep(s) {
      var n :| s == Step(n);
      StepOf(n / 3, n % 3);
    } else if e :| s == Pow10(e) || s == 2.0 * Pow10(e) || s == 5.0 * Pow10(e) {
      StepOf(e, 0);
      StepOf(e, 1);
      StepOf(e, 2);
    }
    forall e ensures Pow10(e + 1) == 10.0 * Pow10(e) {
      Pow10Next(e);
    }
  }

  // ---- what rounding up does ---------------------------------------------------------

  lemma {:induction false} RoundsToOne(value: real, r: real, s: real)
    requires RoundsTo(value, r) && RoundsTo(value, s)
    ensures r == s
  {
  }

  /** A budget is less than two and a half times what it is derived from, and never more than
      the tolerance below it. */
  lemma {:induction false} RoundsBetween(value: real, r: real)
    requires value > 0.0 && RoundsTo(value, r)
    ensures value * (1.0 - TOLERANCE) <= r < 2.5 * value
  {
    var n := LeastStepBelow(value, r);
    NextStep(n - 1);
  }

  lemma {:induction false} RoundingIsMonotone(v: real, w: real, r: real, s: real)
    requires 0.0 < v <= w && RoundsTo(v, r) && RoundsTo(w, s)
    ensures r <= s
  {
  }

  /** Rounding a step, or anything within the tolerance above one, gives that step. */
  lemma {:induction false} StepsAbsorb(n: int, value: real)
    requires value * (1.0 - TOLERANCE) <= Step(n) <= value
    ensures RoundsTo(value, Step(n))
  {
    StepsGrow(n - 1, n);
    LeastStep(value, n);
  }

  lemma {:induction false} RoundingIsIdempotent(value: real, r: real)
    requires RoundsTo(value, r)
    ensures RoundsTo(r, r)
  {
    var n := LeastStepBelow(value, r);
    StepsAbsorb(n, r);
  }
}
