/**
 * The zoom stepper shared by every viewer variant: the step added on zoom-in,
 * the step subtracted on zoom-out, and the guarded step itself.
 */
module ScaleStep {
  import opened Magnitude

  datatype ScaleType = Increase | Decrease

  /**
   * GetAddedDeltaResolution: the power of ten that starts the decade of s.
   * The two ensures determine the result (see AddedDeltaUnique).
   */
  function AddedDelta(s: real): (d: real)
    requires s > 0.0
    ensures 0.0 < d <= s < 10.0 * d
    ensures IsPow10(d)
  {
    var k := Exponent(s);
    Pow10Next(k);
    Pow10(k)
  }

  /**
   * GetSubtractDeltaResolution: one tenth of s when s is an exact power of
   * ten, otherwise the same step as AddedDelta.
   */
  function SubtractDelta(s: real): (d: real)
    requires s > 0.0
    ensures 0.0 < d < s
    ensures IsPow10(d)
    ensures IsExactPow10(s) ==> 10.0 * d == s
    ensures !IsExactPow10(s) ==> d == AddedDelta(s)
  {
    var k := Exponent(s);
    if Pow10(k) == s then
      Pow10Next(k - 1);
      Pow10(k - 1)
    else
      Pow10(k)
  }

  /** The add step is the only power of ten d with d <= s < 10 d. */
  lemma AddedDeltaUnique(s: real, d: real)
    requires s > 0.0 && IsPow10(d) && d <= s < 10.0 * d
    ensures d == AddedDelta(s)
  {
    var j :| Pow10(j) == d;
    Pow10Next(j);
    ExponentOfDecade(s, j);
  }

  lemma AddedDeltaOfDecade(s: real, k: int)
    requires InDecade(s, k)
    ensures AddedDelta(s) == Pow10(k)
  {
    ExponentOfDecade(s, k);
  }

  lemma SubtractDeltaOfDecade(s: real, k: int)
    requires InDecade(s, k)
    ensures SubtractDelta(s) == if s == Pow10(k) then Pow10(k - 1) else Pow10(k)
  {
    ExponentOfDecade(s, k);
  }

  /**
   * One zoom step as every viewer performs it: the bound is checked before
   * the step, and the stepped value is not clamped to the bound.
   */
  function Step(s: real, t: ScaleType, min: real, max: real): (r: real)
    requires s > 0.0
    ensures r > 0.0
    ensures t == Increase ==> (r == s <==> s >= max) && r >= s
    ensures t == Decrease ==> (r == s <==> s <= min) && r <= s
  {
    match t
    case Increase => if s >= max then s else s + AddedDelta(s)
    case Decrease => if s <= min then s else s - SubtractDelta(s)
  }

  /** An accepted step moves by exactly one delta, whatever the bound. */
  lemma StepAccepted(s: real, t: ScaleType, min: real, max: real)
    requires s > 0.0
    ensures t == Increase && s < max ==> Step(s, t, min, max) == s + AddedDelta(s)
    ensures t == Decrease && min < s ==> Step(s, t, min, max) == s - SubtractDelta(s)
  {
  }

  /** No clamp: 4999 with maximum 5000 steps to 5999. */
  lemma StepOvershootsMaximum()
    ensures Step(4999.0, Increase, 1.0, 5000.0) == 5999.0
  {
    assert Pow10(3) == 1000.0 && Pow10(4) == 10000.0;
    AddedDeltaOfDecade(4999.0, 3);
  }

  /** Between 1 and 10 every zoom-in adds exactly 1. */
  lemma StepInUnitDecade(s: real, min: real, max: real)
    requires 1.0 <= s < 10.0 && s < max
    ensures Step(s, Increase, min, max) == s + 1.0
  {
    assert Pow10(1) == 10.0;
    AddedDeltaOfDecade(s, 0);
  }

  /** Exact powers of ten step asymmetrically: 10 -> 20 / 9, 100 -> 200 / 90. */
  lemma StepAtPowersOfTen()
    ensures Step(10.0, Increase, 1.0, 5000.0) == 20.0
    ensures Step(10.0, Decrease, 1.0, 5000.0) == 9.0
    ensures Step(100.0, Increase, 1.0, 5000.0) == 200.0
    ensures Step(100.0, Decrease, 1.0, 5000.0) == 90.0
  {
    assert Pow10(1) == 10.0 && Pow10(2) == 100.0 && Pow10(3) == 1000.0;
    AddedDeltaOfDecade(10.0, 1);
    SubtractDeltaOfDecade(10.0, 1);
    AddedDeltaOfDecade(100.0, 2);
    SubtractDeltaOfDecade(100.0, 2);
  }

  /** Below 1 the floor is used: 0.5 steps by 0.1, and 0.1 steps down to 0.09. */
  lemma StepBelowOne()
    ensures Step(0.5, Increase, 0.01, 50.0) == 0.6
    ensures Step(0.5, Decrease, 0.01, 50.0) == 0.4
    ensures Step(0.1, Decrease, 0.01, 50.0) == 0.09
  {
    assert Pow10(-1) == 0.1 && Pow10(0) == 1.0 && Pow10(-2) == 0.01;
    AddedDeltaOfDecade(0.5, -1);
    SubtractDeltaOfDecade(0.5, -1);
    SubtractDeltaOfDecade(0.1, -1);
  }

  /**
   * Zoom-in then zoom-out restores s exactly when s is at most nine times its
   * decade's power of ten.
   */
  lemma {:induction false} IncreaseThenDecrease(s: real, k: int)
    requires InDecade(s, k)
    ensures var up := s + AddedDelta(s);
            up - SubtractDelta(up) == s <==> s <= 9.0 * Pow10(k)
  {
    AddedDeltaOfDecade(s, k);
    var up := s + Pow10(k);
    Pow10Next(k);
    Pow10Next(k + 1);
    if s <= 9.0 * Pow10(k) {
      if up < Pow10(k + 1) {
        SubtractDeltaOfDecade(up, k);
      } else {
        SubtractDeltaOfDecade(up, k + 1);
      }
    } else {
      SubtractDeltaOfDecade(up, k + 1);
    }
  }

  /** From an exact power of ten, zoom-out then zoom-in restores it. */
  lemma {:induction false} DecreaseThenIncrease(k: int)
    ensures var s := Pow10(k);
            var down := s - SubtractDelta(s);
            down > 0.0 && down + AddedDelta(down) == s
  {
    var s := Pow10(k);
    Pow10Next(k);
    Pow10Next(k - 1);
    SubtractDeltaOfDecade(s, k);
    var down := s - Pow10(k - 1);
    AddedDeltaOfDecade(down, k - 1);
  }

  /** With both guards passing, the round trip holds through Step. */
  lemma StepRoundTrip(s: real, k: int, min: real, max: real)
    requires InDecade(s, k) && s <= 9.0 * Pow10(k)
    requires s < max && min < s + AddedDelta(s)
    ensures Step(Step(s, Increase, min, max), Decrease, min, max) == s
  {
    IncreaseThenDecrease(s, k);
  }

  /** 95 -> 105 -> 5: the round trip fails in the top tenth of a decade. */
  lemma StepRoundTripFails()
    ensures Step(95.0, Increase, 1.0, 5000.0) == 105.0
    ensures Step(105.0, Decrease, 1.0, 5000.0) == 5.0
  {
    assert Pow10(1) == 10.0 && Pow10(2) == 100.0 && Pow10(3) == 1000.0;
    AddedDeltaOfDecade(95.0, 1);
    SubtractDeltaOfDecade(105.0, 2);
  }

  /**
   * Both deltas commute with a change of units by a factor of 100, so
   * stepping Scale/100 and multiplying back by 100 gives the same step.
   */
  lemma DeltasScaleByHundred(s: real)
    requires s > 0.0
    ensures AddedDelta(s / 100.0) * 100.0 == AddedDelta(s)
    ensures SubtractDelta(s / 100.0) * 100.0 == SubtractDelta(s)
  {
    var k := Exponent(s);
    Pow10Next(k - 3);
    Pow10Next(k - 2);
    Pow10Next(k - 1);
    Pow10Next(k);
    assert InDecade(s / 100.0, k - 2);
    AddedDeltaOfDecade(s, k);
    AddedDeltaOfDecade(s / 100.0, k - 2);
    SubtractDeltaOfDecade(s, k);
    SubtractDeltaOfDecade(s / 100.0, k - 2);
  }

  /**
   * The resolution form of the stepper (a factor, bounds 0.01 and 50) is the
   * percent form (bounds 1 and 5000) divided by 100: both guards and both
   * steps agree.
   */
  lemma StepInPercent(s: real, t: ScaleType, min: real, max: real)
    requires s > 0.0
    ensures Step(s / 100.0, t, min / 100.0, max / 100.0) * 100.0 == Step(s, t, min, max)
  {
    DeltasScaleByHundred(s);
  }
}
