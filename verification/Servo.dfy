/** The force servo around its reference: limited output, and an integral pulled back by what was not committed
    of the demand. */
module Servo {
  import opened Trajectory

  const REPRESENTABLE := 100000.0

  datatype Config = Config(
    kp: real, ki: real, kd: real, dFilter: real, rate: real, acceleration: real, outputRate: real,
    pressCap: real, releaseCap: real, integralMin: real, integralMax: real, trackingGain: real,
    measurementFilter: real, controlMin: real, feedbackGap: real)   // the last two in milliseconds

  predicate ConfigValid(c: Config) {
    && 0.0 <= c.kp <= 1000.0 && 0.0 <= c.ki <= 1000.0 && 0.0 <= c.kd <= 100.0 && 0.001 <= c.dFilter <= 1.0
    && 0.1 <= c.rate <= 200.0 && 0.1 <= c.acceleration <= 1000.0 && 1.0 <= c.outputRate <= 100000.0
    && 0.0 <= c.pressCap && 1.0 <= c.releaseCap
    && -5000.0 <= c.integralMin <= 0.0 <= c.integralMax <= 5000.0 && c.integralMin < c.integralMax
    && 0.01 <= c.trackingGain <= 100.0 && 0.0 <= c.measurementFilter <= 1.0
    && 1.0 <= c.controlMin <= 50.0 && 2.0 <= c.feedbackGap <= 125.0 && c.controlMin < c.feedbackGap
    && c.trackingGain * c.feedbackGap * 0.001 <= 1.0
  }

  datatype Step = Step(
    dt: real, error: real, rawOutput: real, limitedOutput: real, amplitudeLimited: bool, rateLimited: bool)

  function Clamp(x: real, lo: real, hi: real): real {
    Min(hi, Max(lo, x))
  }

  /** Where an increasing output ramps from: the last one if it has the same direction, else zero. */
  function Origin(amplitude: real, previous: real): real {
    if amplitude * previous > 0.0 then previous else 0.0
  }

  /** The output never exceeds its caps, never changes direction under way, and grows by no more than
      the ramp; a smaller demand is followed at once. */
  predicate Ramped(o: real, amplitude: real, previous: real, ramp: real) {
    && (amplitude >= 0.0 ==> 0.0 <= o <= amplitude) && (amplitude < 0.0 ==> amplitude <= o <= 0.0)
    && Abs(o) <= Abs(Origin(amplitude, previous)) + ramp
    && (Abs(amplitude) <= Abs(Origin(amplitude, previous)) + ramp ==> o == amplitude)
  }

  function Limited(amplitude: real, previous: real, ramp: real): real {
    var origin := Origin(amplitude, previous);
    if amplitude >= 0.0 then Min(amplitude, origin + ramp) else Max(amplitude, origin - ramp)
  }

  lemma LimitedIsRamped(amplitude: real, previous: real, ramp: real)
    requires 0.0 <= ramp
    ensures Ramped(Limited(amplitude, previous, ramp), amplitude, previous, ramp)
  {
    SameDirection(amplitude, previous);
  }

  lemma SameDirection(a: real, b: real)
    ensures a * b > 0.0 ==> (a > 0.0 <==> b > 0.0) && a != 0.0 && b != 0.0
  {
    if a >= 0.0 && b <= 0.0 {
      ProductIsPositive(a, -b);
      assert a * -b == -(a * b);
    } else if a <= 0.0 && b >= 0.0 {
      ProductIsPositive(-a, b);
      assert -a * b == -(a * b);
    }
  }

  /** `ForceServo_TrajectorySeconds`; `root` stands for the square root it takes. */
  method TrajectorySeconds(c: Config, m: real, t: real, root: real) returns (s: real)
    requires 0.0 < c.rate && 0.0 < c.acceleration
    requires 0.0 <= root && 6.0 * Abs(t - m) <= c.acceleration * (root * root)
    ensures Timed(Path(m, t, s), c.rate, c.acceleration)
    ensures s == root || c.rate * s == 1.5 * Abs(t - m)
  {
    var distance := Abs(t - m);
    var peak := 1.5 * distance / c.rate;
    assert c.rate * peak == 1.5 * distance;
    s := Max(peak, root);
    Further(c.rate, peak, s);
    RootGrows(root, s, c.acceleration);
  }

  lemma RootGrows(a: real, b: real, scale: real)
    requires 0.0 <= a <= b && 0.0 <= scale
    ensures scale * (a * a) <= scale * (b * b)
  {
    ProductGrows(a, b, a);
    ProductGrows(a, b, b);
    ProductGrows(a * a, b * b, scale);
  }

  /** One step of a first-order filter with time constant `constant`. */
  function Smoothed(was: real, m: real, constant: real, dt: real): real
    requires 0.0 <= constant && 0.0 < dt
  {
    was + dt / (constant + dt) * (m - was)
  }

  /** Of what separates the value from its input a step takes the share its length has of step and time constant. */
  ghost predicate Settles(was: real, m: real, constant: real, dt: real, now: real) {
    (constant + dt) * (now - was) == dt * (m - was)
  }

  lemma SmoothedSettles(was: real, m: real, constant: real, dt: real)
    requires 0.0 <= constant && 0.0 < dt
    ensures Settles(was, m, constant, dt, Smoothed(was, m, constant, dt))
  {
    var whole := constant + dt;
    assert whole * (dt / whole) == dt;
    assert whole * (dt / whole * (m - was)) == whole * (dt / whole) * (m - was);
  }

  /** What the demand was short of being committed, unless only rounding took it. */
  function Shortage(o: Step, committed: int): real {
    if !o.amplitudeLimited && !o.rateLimited && committed as real == Truncated(o.limitedOutput) then 0.0
    else o.rawOutput - committed as real
  }

  /** The integral before its bounds. */
  function Integrated(c: Config, was: real, o: Step, committed: int): real {
    if c.ki == 0.0 then 0.0 else was + o.dt * (c.ki * o.error - c.trackingGain * Shortage(o, committed))
  }

  /** The error pulls harder than the shortage holds back. */
  predicate WindsUp(c: Config, o: Step, committed: int) {
    c.ki * o.error > c.trackingGain * Shortage(o, committed)
  }

  class Servo {
    var start: real
    var target: real
    var reference: real
    var referenceRate: real
    var filtered: real
    var derivative: real
    var integral: real
    var trajectory: real
    var elapsed: real
    var previous: real
    var initialized: bool

    ghost function Way(): Path
      reads this
    {
      Path(start, target, trajectory)
    }

    /** The reference is where the path says, and the integral inside its bounds. */
    ghost predicate Valid(c: Config)
      reads this
    {
      && ConfigValid(c) && initialized && 0.0 <= elapsed <= trajectory
      && Timed(Way(), c.rate, c.acceleration)
      && c.integralMin <= integral <= c.integralMax
    }

    constructor ()
      ensures !initialized
    {
      start, target, reference, referenceRate, filtered, derivative := 0.0, 0.0, 0.0, 0.0, 0.0, 0.0;
      integral, trajectory, elapsed, previous, initialized := 0.0, 0.0, 0.0, 0.0, false;
    }

    method Init(c: Config, m: real, t: real, root: real) returns (ok: bool)
      requires 0.0 <= root && 6.0 * Abs(t - m) <= c.acceleration * (root * root)
      modifies this
      ensures ok <==> ConfigValid(c) && 0.0 <= m <= REPRESENTABLE && 0.0 < t <= REPRESENTABLE
      ensures ok ==> Valid(c) && start == m && target == t && reference == m && elapsed == 0.0 && previous == 0.0
      ensures !ok ==> initialized == old(initialized)
    {
      if !ConfigValid(c) || m < 0.0 || m > REPRESENTABLE || t <= 0.0 || t > REPRESENTABLE { return false; }
      referenceRate, derivative, integral, elapsed, previous := 0.0, 0.0, 0.0, 0.0, 0.0;
      start, filtered, reference, target := m, m, m, t;
      trajectory := TrajectorySeconds(c, m, t, root);
      initialized := true;
      return true;
    }

    /** Moves the reference on. */
    method Advance(c: Config, dt: real)
      requires Valid(c) && 0.0 < dt
      modifies `elapsed, `reference, `referenceRate
      ensures Valid(c) && elapsed == Min(old(elapsed) + dt, trajectory)
      ensures reference == Reference(Way(), elapsed) && referenceRate == Rate(Way(), elapsed)
      ensures Abs(reference - Reference(Way(), old(elapsed))) <= c.rate * dt
      ensures Abs(referenceRate - Rate(Way(), old(elapsed))) <= c.acceleration * dt
      ensures elapsed == trajectory && (trajectory > 0.0 || start == target) ==>
        reference == target && referenceRate == 0.0
    {
      hide Timed, ConfigValid;
      var before := elapsed;
      elapsed := Min(elapsed + dt, trajectory);
      reference, referenceRate := PathAt();
      Moves(c, before, dt);
      if trajectory > 0.0 || start == target {
        ReferenceArrives(Way());
      }
    }

    /** The cubic and its rate as the servo evaluates them. */
    method PathAt() returns (r: real, v: real)
      requires 0.0 <= trajectory
      ensures r == Reference(Way(), elapsed) && v == Rate(Way(), elapsed)
    {
      hide Blend, Slope;
      var x := if trajectory > 0.0 then elapsed / trajectory else 1.0;
      var way := target - start;
      assert x == Share(Way(), elapsed);
      Expanded(way, x);
      r := start + way * x * x * (3.0 - 2.0 * x);
      var slope := way * 6.0 * x * (1.0 - x);
      v := if trajectory > 0.0 then slope / trajectory else 0.0;
    }

    static method Smooth(was: real, m: real, constant: real, dt: real) returns (value: real)
      requires 0.0 <= constant && 0.0 < dt
      ensures value == Smoothed(was, m, constant, dt)
    {
      value := was + dt / (constant + dt) * (m - was);
    }

    /** A filtered value lands between the old one and the measurement. */
    method Filter(c: Config, m: real, dt: real)
      requires 0.0 <= c.measurementFilter && 0.0 < dt
      modifies `filtered
      ensures filtered == Smoothed(old(filtered), m, c.measurementFilter, dt)
      ensures Settles(old(filtered), m, c.measurementFilter, dt, filtered)
      ensures if old(filtered) <= m then old(filtered) <= filtered <= m else m <= filtered <= old(filtered)
    {
      hide Smoothed, Settles;
      SmoothedBetween(filtered, m, c.measurementFilter, dt);
      SmoothedSettles(filtered, m, c.measurementFilter, dt);
      filtered := Smooth(filtered, m, c.measurementFilter, dt);
    }

    /** The demand of the controller: proportional to the error, plus its integral, less its damping. */
    ghost predicate Demands(c: Config, error: real, raw: real)
      reads `integral, `derivative
    {
      raw == c.kp * error + (if c.ki == 0.0 then 0.0 else integral) - (if c.kd == 0.0 then 0.0 else c.kd * derivative)
    }

    /** The measurement filter, its derivative and the demand they give. */
    method Demand(c: Config, m: real, dt: real) returns (error: real, raw: real)
      requires ConfigValid(c) && 0.0 < dt
      modifies `filtered, `derivative
      ensures error == reference - filtered
      ensures Settles(old(filtered), m, c.measurementFilter, dt, filtered)
      ensures Settles(old(derivative), (filtered - old(filtered)) / dt, c.dFilter, dt, derivative)
      ensures if old(filtered) <= m then old(filtered) <= filtered <= m else m <= filtered <= old(filtered)
      ensures Demands(c, error, raw)
    {
      hide Smoothed, Settles;
      var was := filtered;
      Filter(c, m, dt);
      SmoothedSettles(derivative, (filtered - was) / dt, c.dFilter, dt);
      derivative := Smooth(derivative, (filtered - was) / dt, c.dFilter, dt);
      error := reference - filtered;
      assert -c.kd * derivative == -(c.kd * derivative);
      raw := c.kp * error + (if c.ki == 0.0 then 0.0 else integral) + (if c.kd == 0.0 then 0.0 else -c.kd * derivative);
    }

    /** `ForceServo_Prepare`. */
    method Prepare(c: Config, m: real, dt: real) returns (ok: bool, o: Step)
      requires initialized ==> Valid(c)
      modifies `elapsed, `reference, `referenceRate, `filtered, `derivative
      ensures ok <==> initialized && ConfigValid(c) && 0.0 <= m <= REPRESENTABLE &&
                      c.controlMin * 0.001 <= dt <= c.feedbackGap * 0.001
      ensures !ok ==> unchanged(this)
      ensures ok ==>
        && Valid(c) && elapsed == Min(old(elapsed) + dt, trajectory)
        && reference == Reference(Way(), elapsed) && referenceRate == Rate(Way(), elapsed)
        && Abs(reference - Reference(Way(), old(elapsed))) <= c.rate * dt
        && Abs(referenceRate - Rate(Way(), old(elapsed))) <= c.acceleration * dt
        && o.dt == dt && o.error == reference - filtered
        && Settles(old(filtered), m, c.measurementFilter, dt, filtered)
        && Settles(old(derivative), (filtered - old(filtered)) / dt, c.dFilter, dt, derivative)
        && Demands(c, o.error, o.rawOutput)
        && -c.releaseCap <= o.limitedOutput <= c.pressCap
        && Ramped(o.limitedOutput, Clamp(o.rawOutput, -c.releaseCap, c.pressCap), previous, c.outputRate * dt)
        && (o.amplitudeLimited <==> Clamp(o.rawOutput, -c.releaseCap, c.pressCap) != o.rawOutput)
        && (o.rateLimited <==> Clamp(o.rawOutput, -c.releaseCap, c.pressCap) != o.limitedOutput)
    {
      hide Reference, Rate, Timed, Ramped, Settles, Demands;
      o := Step(0.0, 0.0, 0.0, 0.0, false, false);
      if !initialized || !ConfigValid(c) || m < 0.0 || m > REPRESENTABLE ||
         dt < c.controlMin * 0.001 || dt > c.feedbackGap * 0.001 { return false, o; }
      Advance(c, dt);
      var error, raw := Demand(c, m, dt);
      var amplitude := Clamp(raw, -c.releaseCap, c.pressCap);
      ProductIsPositive(c.outputRate, dt);
      LimitedIsRamped(amplitude, previous, c.outputRate * dt);
      var origin := if amplitude * previous > 0.0 then previous else 0.0;
      var limited := if amplitude >= 0.0 then Min(amplitude, origin + c.outputRate * dt)
        else Max(amplitude, origin - c.outputRate * dt);
      RampedWithin(limited, amplitude, previous, c.outputRate * dt);
      o := Step(dt, error, raw, limited, amplitude != raw, limited != amplitude);
      return true, o;
    }

    method Integrate(c: Config, o: Step, committed: int) returns (next: real)
      ensures next == Integrated(c, integral, o, committed)
    {
      Opposite(c.trackingGain, o.rawOutput - committed as real);
      var tracking := committed as real - o.rawOutput;
      if !o.amplitudeLimited && !o.rateLimited && committed as real == Truncated(o.limitedOutput) { tracking := 0.0; }
      next := if c.ki == 0.0 then 0.0 else integral + o.dt * (c.ki * o.error + c.trackingGain * tracking);
    }

    /** `ForceServo_Commit`: the integral follows what was really committed and stays in its bounds. */
    method Commit(c: Config, o: Step, committed: int) returns (ok: bool)
      requires initialized ==> Valid(c)
      modifies `integral, `previous
      ensures ok <==>
        ConfigValid(c) && 0.0 < o.dt <= c.feedbackGap * 0.001 && -c.releaseCap <= committed as real <= c.pressCap
      ensures !ok ==> unchanged(this)
      ensures ok ==> previous == committed as real && c.integralMin <= integral <= c.integralMax
      ensures ok ==> integral == Clamp(Integrated(c, old(integral), o, committed), c.integralMin, c.integralMax)
      ensures ok && initialized ==> Valid(c)
      ensures ok && c.ki == 0.0 ==> integral == 0.0
      ensures ok && c.ki > 0.0 && c.integralMin <= old(integral) <= c.integralMax ==>
        (integral > old(integral) <==> WindsUp(c, o, committed) && old(integral) < c.integralMax)
      ensures ok && c.ki > 0.0 && o.error <= 0.0 && committed as real <= o.rawOutput ==>
        integral <= old(integral) || integral == c.integralMin
    {
      hide Timed, Integrated, WindsUp, Shortage, Truncated;
      if !ConfigValid(c) || o.dt <= 0.0 || o.dt > c.feedbackGap * 0.001 ||
         committed as real > c.pressCap || (committed as real) < -c.releaseCap { return false; }
      var next := Integrate(c, o, committed);
      WindsUpExactly(c, integral, o, committed);
      integral := Clamp(next, c.integralMin, c.integralMax);
      previous := committed as real;
      return true;
    }

    lemma Moves(c: Config, before: real, dt: real)
      requires ConfigValid(c) && Timed(Way(), c.rate, c.acceleration) && 0.0 <= before <= elapsed <= trajectory
      requires elapsed - before <= dt
      ensures Abs(Reference(Way(), elapsed) - Reference(Way(), before)) <= c.rate * dt
      ensures Abs(Rate(Way(), elapsed) - Rate(Way(), before)) <= c.acceleration * dt
    {
      hide Reference, Rate, Timed;
      ReferenceMoves(Way(), before, elapsed, c.rate, c.acceleration);
      RateMoves(Way(), before, elapsed, c.rate, c.acceleration);
      Further(c.rate, elapsed - before, dt);
      Further(c.acceleration, elapsed - before, dt);
    }
  }

  lemma Further(c: real, a: real, b: real)
    requires 0.0 <= c && a <= b
    ensures c * a <= c * b
  {
    ProductGrows(a, b, c);
  }

  lemma SmoothedBetween(was: real, m: real, constant: real, dt: real)
    requires 0.0 <= constant && 0.0 < dt
    ensures var r := Smoothed(was, m, constant, dt); if was <= m then was <= r <= m else m <= r <= was
  {
    ShareIsProper(dt, constant + dt);
    BlendsToward(was, m, dt / (constant + dt));
  }

  /** The integral grows exactly while the error pulls harder than the shortage holds back; never on an error
      that asks for less. */
  lemma WindsUpExactly(c: Config, was: real, o: Step, committed: int)
    requires 0.0 < o.dt && 0.0 <= c.ki && 0.0 <= c.trackingGain
    ensures c.ki > 0.0 ==> (Integrated(c, was, o, committed) > was <==> WindsUp(c, o, committed))
    ensures o.error <= 0.0 && committed as real <= o.rawOutput ==> !WindsUp(c, o, committed)
    ensures c.ki == 0.0 ==> Integrated(c, was, o, committed) == 0.0
  {
    hide Truncated;
    var pull := c.ki * o.error - c.trackingGain * Shortage(o, committed);
    if pull > 0.0 { Grows(o.dt, pull); } else { ProductIsPositive(o.dt, -pull); Opposite(o.dt, -pull); }
    Toward(o.error, c.ki);
    assert o.error * c.ki == c.ki * o.error;
    if committed as real <= o.rawOutput { ProductIsPositive(c.trackingGain, Shortage(o, committed)); }
  }

  /** Tracking alone: without an error, what a limited output was short of being committed shrinks by the same share in
      every step of the same length, and never turns over. */
  lemma TracksCommitted(c: Config, was: real, o: Step, committed: int)
    requires ConfigValid(c) && 0.0 < o.dt <= c.feedbackGap * 0.001 && c.ki > 0.0 && o.error == 0.0
    requires o.amplitudeLimited || o.rateLimited
    ensures var left := 1.0 - c.trackingGain * o.dt;
      && 0.0 <= left < 1.0
      && o.rawOutput + (Integrated(c, was, o, committed) - was) - committed as real
         == left * (o.rawOutput - committed as real)
  {
    hide Truncated;
    var short := o.rawOutput - committed as real;
    ProductGrows(o.dt, c.feedbackGap * 0.001, c.trackingGain);
    Grows(o.dt, c.trackingGain);
    assert o.dt * (c.trackingGain * short) == c.trackingGain * o.dt * short;
    assert c.trackingGain * (c.feedbackGap * 0.001) == c.trackingGain * c.feedbackGap * 0.001;
  }

  /** A demand committed but for its fraction gathers the error over time. */
  lemma GathersError(c: Config, was: real, o: Step, committed: int)
    requires c.ki != 0.0 && !o.amplitudeLimited && !o.rateLimited
    requires committed as real == Truncated(o.limitedOutput)
    ensures Integrated(c, was, o, committed) - was == o.dt * (c.ki * o.error)
  {
    hide Truncated;
    assert c.trackingGain * 0.0 == 0.0;
  }

  /** Truncation is toward zero, by less than one. */
  lemma TruncatesTowardZero(x: real)
    ensures if x >= 0.0 then 0.0 <= Truncated(x) <= x < Truncated(x) + 1.0
            else Truncated(x) - 1.0 < x <= Truncated(x) <= 0.0
  {
  }

  lemma Grows(dt: real, pull: real)
    requires 0.0 < dt && 0.0 < pull
    ensures 0.0 < dt * pull
  {
  }

  lemma Opposite(a: real, b: real)
    ensures a * -b == -(a * b)
  {
  }

  /** So a limited output does wind up: an integral gain of 1, a tracking gain of 5, a demand of 110 cut to the cap of
      100, and an error of 150 that outweighs the 10 held back. */
  lemma WindsUpWhileLimited()
    ensures var c :=
      Config(1.0, 1.0, 0.0, 0.1, 10.0, 10.0, 1000.0, 100.0, 100.0, -1000.0, 1000.0, 5.0, 0.1, 10.0, 100.0);
      var o := Step(0.01, 150.0, 110.0, 100.0, true, false);
      ConfigValid(c) && Clamp(o.rawOutput, -c.releaseCap, c.pressCap) == o.limitedOutput != o.rawOutput
      && WindsUp(c, o, 100) && Integrated(c, 0.0, o, 100) > 0.0
  {
    var c := Config(1.0, 1.0, 0.0, 0.1, 10.0, 10.0, 1000.0, 100.0, 100.0, -1000.0, 1000.0, 5.0, 0.1, 10.0, 100.0);
    var o := Step(0.01, 150.0, 110.0, 100.0, true, false);
    assert Shortage(o, 100) == 10.0;
    WindsUpExactly(c, 0.0, o, 100);
  }

  lemma Expanded(d: real, x: real)
    ensures d * x * x * (3.0 - 2.0 * x) == d * Blend(x)
    ensures d * 6.0 * x * (1.0 - x) == d * Slope(x)
  {
    assert d * x * x == d * (x * x);
    assert d * 6.0 * x == d * (6.0 * x);
  }

  lemma RampedWithin(o: real, amplitude: real, previous: real, ramp: real)
    requires Ramped(o, amplitude, previous, ramp)
    ensures (amplitude >= 0.0 ==> 0.0 <= o <= amplitude) && (amplitude < 0.0 ==> amplitude <= o <= 0.0)
  {
  }

  function Truncated(x: real): real {
    if x >= 0.0 then x.Floor as real else -((-x).Floor as real)
  }

  lemma ShareIsProper(part: real, whole: real)
    requires 0.0 < part <= whole
    ensures 0.0 <= part / whole <= 1.0
  {
    var s := part / whole;
    assert Times(s, whole) == part;
    Ordered(0.0, s, whole);
    Ordered(s, 1.0, whole);
  }

  /** A filter step lands between the old value and the new measurement. */
  lemma BlendsToward(was: real, m: real, share: real)
    requires 0.0 <= share <= 1.0
    ensures if was <= m then was <= was + share * (m - was) <= m else m <= was + share * (m - was) <= was
  {
    Toward(m - was, share);
    Toward(m - was, 1.0 - share);
    assert (m - was) * (1.0 - share) == (m - was) - (m - was) * share;
    assert share * (m - was) == (m - was) * share;
  }
}
