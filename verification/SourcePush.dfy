/** The boost of the ordinary pulses, farther from the target than the precision ladder:
    volts added and milliseconds of width, moved by the rise after each pulse. */
module SourcePush {
  const NONE := -1.0
  const BOOST_MAX := 9.0
  const WIDTH_MIN := 9
  const WIDTH_MAX := 12
  const NEAR_LEVEL_MAX := 4

  datatype Push = Push(ref: real, boost: real, stall: nat, width: nat, nearLevel: nat)

  const RESTED := Push(NONE, 0.0, 0, WIDTH_MIN, 0)

  predicate InRange(p: Push) {
    0.0 <= p.boost <= BOOST_MAX && p.stall <= 1 && WIDTH_MIN <= p.width <= WIDTH_MAX && p.nearLevel <= NEAR_LEVEL_MAX
  }

  function Max0(x: real): real {
    if x < 0.0 then 0.0 else x
  }

  function Least(x: real, y: real): real {
    if x > y then y else x
  }

  /** A rise too small: the second in a row adds volts, and width where that is allowed. */
  function Stalled(p: Push, limit: real, longer: bool, step: real, near: bool): Push {
    if p.stall + 1 < 2 then p.(stall := p.stall + 1)
    else p.(stall := 0, boost := Least(p.boost + step, limit),
            width := if longer && p.width < WIDTH_MAX then p.width + 1 else p.width,
            nearLevel := if near && p.nearLevel < NEAR_LEVEL_MAX then p.nearLevel + 1 else p.nearLevel)
  }

  /** Far from the target: 2 to 8 N a pulse is what is wanted. */
  function BoostFar(p: Push, rise: real, limit: real, longer: bool): Push {
    if rise < 2.0 then Stalled(p, limit, longer, 0.5, false)
    else if rise > 8.0 then
      p.(stall := 0, boost := Max0(p.boost - 0.5), width := if p.width > WIDTH_MIN then p.width - 1 else p.width)
    else p.(stall := 0)
  }

  function BoostNear(p: Push, rise: real, limit: real, longer: bool, near: bool): Push {
    if rise < 1.0 then Stalled(p, limit, longer, if near then 0.5 else 0.3, near)
    else if near && rise <= 8.0 then p.(stall := 0)
    else if near then
      p.(stall := 0, nearLevel := if p.nearLevel > 1 then p.nearLevel - 2 else 0, boost := Max0(p.boost - 0.5))
    else p.(stall := 0, boost := 0.0, width := WIDTH_MIN)
  }

  /** What the pressure answered to the last pulse does to the next one. */
  function Boosted(p: Push, pressure: real, limit: real, fast: bool, longer: bool, near: bool, positive: bool): Push {
    var q := p.(boost := Least(p.boost, limit), width := if longer then p.width else WIDTH_MIN);
    var rise := if positive then pressure - q.ref else q.ref - pressure;
    var m := if q.ref < 0.0 then q
             else if fast && positive then BoostFar(q, rise, limit, longer)
             else BoostNear(q, rise, limit, longer, near && positive);
    m.(ref := pressure)
  }

  lemma StaysInRange(p: Push, pressure: real, limit: real, fast: bool, longer: bool, near: bool, positive: bool)
    requires InRange(p) && 0.0 <= limit <= BOOST_MAX
    ensures var q := Boosted(p, pressure, limit, fast, longer, near, positive);
      && InRange(q) && q.boost <= limit && q.boost <= p.boost + 0.5 && q.width <= p.width + 1
  {
  }

  /** A rise of 2 to 8 N, from 1 N on in the last 50, changes neither volts nor width of a pushing pulse; nor does
      a pressure that answers no pulse. */
  lemma GoodRiseHolds(p: Push, pressure: real, near: bool)
    requires InRange(p) && (p.ref >= 0.0 ==> (if near then 1.0 else 2.0) <= pressure - p.ref <= 8.0)
    ensures Boosted(p, pressure, BOOST_MAX, !near, !near, near, true)
         == p.(ref := pressure, stall := if p.ref >= 0.0 then 0 else p.stall, width := if near then WIDTH_MIN
           else p.width)
  {
  }

  /** Without a pulse to answer only the limits change anything. */
  lemma FirstHolds(p: Push, pressure: real, limit: real, fast: bool, longer: bool, near: bool, positive: bool)
    ensures var q := Boosted(p, pressure, limit, fast, longer, near, positive);
      && q.ref == pressure
      && (p.ref < 0.0 ==>
          q == p.(ref := pressure, boost := Least(p.boost, limit), width := if longer then p.width else WIDTH_MIN))
  {
  }

  // ---------------------------------------------------------------- whole runs

  /** The boost after pulses answered by these pressures in turn, all in the last 50 N or all of them farther. */
  function Answered(p: Push, pressures: seq<real>, near: bool): Push {
    if |pressures| == 0 then p
    else Boosted(Answered(p, pressures[..|pressures| - 1], near), pressures[|pressures| - 1], BOOST_MAX, !near, !near,
      near, true)
  }

  /** Where the reference of the next answer stands. */
  function LastOf(from: real, pressures: seq<real>): real {
    if |pressures| == 0 then from else pressures[|pressures| - 1]
  }

  /** Each pressure is at least 0 and between `low` and `high` above the one before it. */
  predicate Rising(from: real, pressures: seq<real>, low: real, high: real) {
    |pressures| > 0 ==>
      var front, p := pressures[..|pressures| - 1], pressures[|pressures| - 1];
      Rising(from, front, low, high) && p >= 0.0 && low < p - LastOf(from, front) < high
  }

  /** Pulses that never raise the pressure enough: every second one adds half a volt up to 9 V and, far from the
      target, a millisecond up to 12; in the last 50 N a level of the voltage limit, up to 4, instead. */
  lemma {:induction false} StallPushes(p: Push, pressures: seq<real>, low: real, near: bool)
    requires p == RESTED.(ref := p.ref) && p.ref >= 0.0
    requires Rising(p.ref, pressures, low, if near then 1.0 else 2.0)
    ensures var q, n := Answered(p, pressures, near), |pressures| / 2;
      && q.ref == LastOf(p.ref, pressures) && q.stall == |pressures| % 2
      && q.boost == (if n >= 18 then 9.0 else 0.5 * n as real)
      && q.width == (if near then 9 else if n >= 3 then 12 else 9 + n)
      && q.nearLevel == (if !near then 0 else if n >= 4 then 4 else n)
  {
    if |pressures| > 0 {
      StallPushes(p, pressures[..|pressures| - 1], low, near);
    }
  }

  /** Pulses that each raise it by more than 8 N: every one takes half a volt back and, far from the target, a
      millisecond; in the last 50 N two levels of the limit instead. */
  lemma {:induction false} RisesEase(p: Push, pressures: seq<real>, high: real, near: bool)
    requires InRange(p) && p.ref >= 0.0 && (near ==> p.width == WIDTH_MIN) && Rising(p.ref, pressures, 8.0, high)
    ensures var q, k := Answered(p, pressures, near), |pressures|;
      && q.ref == LastOf(p.ref, pressures) && (k > 0 ==> q.stall == 0) && InRange(q)
      && q.boost == (if p.boost <= 0.5 * k as real then 0.0 else p.boost - 0.5 * k as real)
      && q.width == (if near || p.width <= 9 + k then 9 else p.width - k)
      && q.nearLevel == (if !near then p.nearLevel else if p.nearLevel <= 2 * k then 0 else p.nearLevel - 2 * k)
  {
    if |pressures| > 0 {
      RisesEase(p, pressures[..|pressures| - 1], high, near);
    }
  }

  // ---------------------------------------------------------------- the ordinary pulse

  const MICRO_MAX_V := 10.0

  /** Inside the last 50 N the voltage is held down and freed level by level. */
  function NearLimit(level: nat, low: bool): real {
    (if low then 3.0 else 5.0) + 0.5 * level as real
  }

  function Applied(base: real, boost: real, level: nat, near: bool, low: bool): real {
    Least(base + boost, if near then NearLimit(level, low) else MICRO_MAX_V)
  }

  function Width(p: Push, near: bool, low: bool): nat {
    if !near then (if p.width > WIDTH_MAX then WIDTH_MAX else p.width)
    else if !low then 6 + p.nearLevel / 2
    else if 3 + p.nearLevel / 2 > 4 then 4 else 3 + p.nearLevel / 2
  }

  /** The executor's caps for work that is not precision work. */
  lemma OrdinaryFits(p: Push, base: real, near: bool, low: bool)
    requires InRange(p) && 0.8 <= base <= 3.0
    ensures var v := Applied(base, p.boost, p.nearLevel, near, low);
      && 0.8 <= v <= (if !near then 10.0 else if low then 5.0 else 7.0)
    ensures 2 <= Width(p, near, low) <= (if !near then 12 else if low then 4 else 8)
  {
  }

  /** The pulse after so many answers that never raise the pressure enough: from the bare voltage at 9 ms to 10 V at
      12 ms far from the target, and in the last 50 N to 7 V at 8 ms, or 5 V at 4 ms for a low target. */
  lemma StalledPulse(p: Push, pressures: seq<real>, low: real, near: bool, base: real, lowTarget: bool)
    requires p == RESTED.(ref := p.ref) && p.ref >= 0.0 && 0.8 <= base <= 3.0
    requires Rising(p.ref, pressures, low, if near then 1.0 else 2.0)
    ensures var q, k := Answered(p, pressures, near), |pressures|;
      var v, ms := Applied(base, q.boost, q.nearLevel, near, lowTarget), Width(q, near, lowTarget);
      && (k <= 1 ==> v == base && ms == if !near then 9 else if lowTarget then 3 else 6)
      && (8 <= k < 10 && !near ==> v == base + 2.0 && ms == 12)
      && (8 <= k < 10 && near ==> v == Least(base + 2.0, if lowTarget then 5.0 else 7.0))
      && (k >= 36 ==> ms == (if !near then 12 else if lowTarget then 4 else 8) &&
                      v == if !near then Least(base + 9.0, 10.0) else if lowTarget then 5.0 else 7.0)
  {
    StallPushes(p, pressures, low, near);
  }
}
