/** The force servo's reference: a cubic from the measured force to the target, timed so that its
    rate and acceleration stay inside the configured limits; and the limited output that follows
    it. Floats are reals here. */
module Trajectory {
  function Abs(x: real): (r: real)
    ensures r >= 0.0 && (r == x || r == -x) && x <= r && -x <= r
  {
    if x < 0.0 then -x else x
  }

  function Min(a: real, b: real): real {
    if a <= b then a else b
  }

  function Max(a: real, b: real): real {
    if a <= b then b else a
  }

  datatype Path = Path(start: real, target: real, seconds: real)

  /** The share of the way done when a share x of the time has passed. */
  function Blend(x: real): real {
    x * x * (3.0 - 2.0 * x)
  }

  function Slope(x: real): real {
    6.0 * x * (1.0 - x)
  }

  function Share(p: Path, elapsed: real): real
    requires p.seconds >= 0.0
  {
    if p.seconds > 0.0 then elapsed / p.seconds else 1.0
  }

  function Reference(p: Path, elapsed: real): real
    requires p.seconds >= 0.0
  {
    p.start + (p.target - p.start) * Blend(Share(p, elapsed))
  }

  function Rate(p: Path, elapsed: real): real
    requires p.seconds >= 0.0
  {
    if p.seconds > 0.0 then (p.target - p.start) * Slope(Share(p, elapsed)) / p.seconds else 0.0
  }

  /** Long enough for the peak rate 1.5 d / T and the peak acceleration 6 d / T^2. */
  predicate Timed(p: Path, rate: real, acceleration: real) {
    && 0.0 < rate && 0.0 < acceleration && 0.0 <= p.seconds
    && 1.5 * Abs(p.target - p.start) <= rate * p.seconds
    && 6.0 * Abs(p.target - p.start) <= acceleration * (p.seconds * p.seconds)
  }

  // ---------------------------------------------------------------- the cubic

  lemma Square(z: real)
    ensures 0.0 <= z * z
  {
  }

  lemma ProductIsPositive(a: real, b: real)
    requires 0.0 <= a && 0.0 <= b
    ensures 0.0 <= a * b
  {
  }

  lemma ProductGrows(a: real, b: real, c: real)
    requires a <= b && 0.0 <= c
    ensures a * c <= b * c
  {
    ProductIsPositive(b - a, c);
    assert (b - a) * c == b * c - a * c;
  }

  /** The difference quotient of Blend. */
  function Quotient(x: real, y: real): real {
    3.0 * (x + y) - 2.0 * (x * x + x * y + y * y)
  }

  lemma BlendFactors(x: real, y: real)
    ensures Blend(y) - Blend(x) == (y - x) * Quotient(x, y)
  {
    assert Blend(x) == 3.0 * (x * x) - 2.0 * (x * x * x);
    assert Blend(y) == 3.0 * (y * y) - 2.0 * (y * y * y);
    assert (y - x) * (x + y) == y * y - x * x;
    assert (y - x) * (x * x + x * y + y * y) == y * y * y - x * x * x;
  }

  lemma QuotientBound(x: real, y: real)
    requires 0.0 <= x <= 1.0 && 0.0 <= y <= 1.0
    ensures 0.0 <= Quotient(x, y) <= 1.5
  {
    QuotientFloor(x, y);
    QuotientCeiling(x, y);
  }

  lemma QuotientFloor(x: real, y: real)
    requires 0.0 <= x <= 1.0 && 0.0 <= y <= 1.0
    ensures 0.0 <= Quotient(x, y)
  {
    ProductIsPositive(x, 1.0 - x);
    ProductIsPositive(y, 1.0 - y);
    ProductIsPositive(x, 1.0 - y);
    ProductIsPositive(y, 1.0 - x);
    assert Quotient(x, y) == 2.0 * (x * (1.0 - x)) + 2.0 * (y * (1.0 - y)) + x * (1.0 - y) + y * (1.0 - x);
  }

  lemma QuotientCeiling(x: real, y: real)
    ensures Quotient(x, y) <= 1.5
  {
    var s, d := x + y - 1.0, x - y;
    Square(s);
    Square(d);
    assert s * s == x * x + 2.0 * (x * y) + y * y - 2.0 * x - 2.0 * y + 1.0;
    assert d * d == x * x - 2.0 * (x * y) + y * y;
    assert 1.5 - Quotient(x, y) == 1.5 * (s * s) + 0.5 * (d * d);
  }

  lemma BlendMoves(x: real, y: real)
    requires 0.0 <= x <= y <= 1.0
    ensures 0.0 <= Blend(y) - Blend(x) <= 1.5 * (y - x)
  {
    hide Blend, Quotient;
    BlendFactors(x, y);
    QuotientBound(x, y);
    ProductIsPositive(y - x, Quotient(x, y));
    ProductGrows(Quotient(x, y), 1.5, y - x);
  }

  lemma BlendEnds(x: real)
    requires 0.0 <= x <= 1.0
    ensures 0.0 <= Blend(x) <= 1.0 && Blend(1.0) == 1.0 && Blend(0.0) == 0.0
  {
    BlendMoves(0.0, x);
    BlendMoves(x, 1.0);
  }

  /** A product by name: its laws are used one at a time. */
  function Times(a: real, b: real): real {
    a * b
  }

  lemma TimesGrows(a: real, b: real, c: real)
    requires a <= b && 0.0 <= c
    ensures Times(a, c) <= Times(b, c)
  {
    ProductGrows(a, b, c);
  }

  lemma TimesSwaps(a: real, b: real)
    ensures Times(a, b) == Times(b, a)
    ensures Times(-a, b) == -Times(a, b) && Times(1.0, b) == b && Times(0.0, b) == 0.0
  {
  }

  lemma TimesRegroups(a: real, b: real, c: real)
    ensures Times(Times(a, b), c) == Times(a, Times(b, c))
  {
  }

  lemma TimesSplits(a: real, b: real, c: real)
    ensures Times(c, a - b) == Times(c, a) - Times(c, b)
  {
  }

  lemma SlopeFactors(x: real, y: real)
    ensures Slope(y) - Slope(x) == 6.0 * Times(1.0 - x - y, y - x)
  {
  }

  lemma SlopeMoves(x: real, y: real)
    requires 0.0 <= x <= y <= 1.0
    ensures Abs(Slope(y) - Slope(x)) <= 6.0 * (y - x)
  {
    hide Slope, Times;
    SlopeFactors(x, y);
    TimesGrows(1.0 - x - y, 1.0, y - x);
    TimesGrows(-1.0, 1.0 - x - y, y - x);
    TimesSwaps(1.0, y - x);
  }

  // ---------------------------------------------------------------- the reference

  lemma ShareTimes(p: Path, elapsed: real)
    requires 0.0 < p.seconds
    ensures Times(p.seconds, Share(p, elapsed)) == elapsed
  {
  }

  lemma ShareOf(p: Path, elapsed: real)
    requires 0.0 < p.seconds && 0.0 <= elapsed <= p.seconds
    ensures 0.0 <= Share(p, elapsed) <= 1.0
  {
    hide Share, Times;
    ShareTimes(p, elapsed);
    TimesSwaps(Share(p, elapsed), p.seconds);
    TimesSwaps(1.0, p.seconds);
    Ordered(0.0, Share(p, elapsed), p.seconds);
    Ordered(Share(p, elapsed), 1.0, p.seconds);
  }

  /** Scaling keeps a bounded step bounded. */
  lemma Scaled(d: real, step: real, high: real)
    requires Abs(step) <= high
    ensures Abs(Times(d, step)) <= Times(Abs(d), high)
  {
    hide Times;
    var a := Abs(d);
    TimesGrows(step, high, a);
    TimesGrows(-high, step, a);
    TimesSwaps(high, a);
    TimesSwaps(step, a);
    TimesSwaps(a, step);
    if d < 0.0 {
      assert d == -a;
    }
  }

  lemma StepBound(d: real, step: real, u: real, seconds: real, rate: real)
    requires 0.0 <= u && Abs(step) <= 1.5 * u && 1.5 * Abs(d) <= Times(rate, seconds)
    ensures Abs(Times(d, step)) <= Times(rate, Times(seconds, u))
  {
    hide Times;
    Scaled(d, step, 1.5 * u);
    Multiple(Abs(d), 1.5, u);
    TimesGrows(1.5 * Abs(d), Times(rate, seconds), u);
    TimesRegroups(rate, seconds, u);
  }

  lemma Multiple(a: real, k: real, u: real)
    ensures Times(a, k * u) == Times(k * a, u)
  {
  }

  lemma RateBound(d: real, step: real, u: real, seconds: real, acceleration: real, q: real)
    requires 0.0 < seconds && 0.0 <= u && Abs(step) <= 6.0 * u &&
      6.0 * Abs(d) <= Times(acceleration, Times(seconds, seconds))
    requires Times(seconds, q) == Times(d, step)
    ensures Abs(q) <= Times(acceleration, Times(seconds, u))
  {
    hide Times;
    Scaled(d, step, 6.0 * u);
    Multiple(Abs(d), 6.0, u);
    TimesGrows(6.0 * Abs(d), Times(acceleration, Times(seconds, seconds)), u);
    TimesRegroups(acceleration, Times(seconds, seconds), u);
    TimesRegroups(seconds, seconds, u);
    TimesSwaps(seconds, Times(seconds, u));
    TimesRegroups(acceleration, Times(seconds, u), seconds);
    Shrunk(q, Times(acceleration, Times(seconds, u)), seconds);
  }

  /** Positions at two shares of the way lie between its ends, in order. */
  lemma WayIsOrdered(start: real, target: real, a: real, b: real)
    requires 0.0 <= a <= b <= 1.0
    ensures var d := target - start;
      if start <= target then start <= start + d * a <= start + d * b <= target
      else target <= start + d * b <= start + d * a <= start
  {
    var d := target - start;
    Toward(d, a);
    Toward(d, b - a);
    Toward(d, 1.0 - b);
    assert d * (b - a) == d * b - d * a && d * (1.0 - b) == d - d * b;
  }

  lemma SharesMove(p: Path, e: real, f: real)
    requires 0.0 < p.seconds && 0.0 <= e <= f <= p.seconds
    ensures 0.0 <= Share(p, e) <= Share(p, f) <= 1.0 && Times(p.seconds, Share(p, f) - Share(p, e)) == f - e
  {
    hide Share, Times;
    ShareOf(p, e);
    ShareOf(p, f);
    ShareTimes(p, e);
    ShareTimes(p, f);
    TimesSwaps(p.seconds, Share(p, e));
    TimesSwaps(p.seconds, Share(p, f));
    TimesSplits(Share(p, f), Share(p, e), p.seconds);
    Ordered(Share(p, e), Share(p, f), p.seconds);
  }

  /** The reference lies on the way, and only moves on. */
  lemma ReferenceBetween(p: Path, e: real, f: real)
    requires 0.0 <= e <= f <= p.seconds
    ensures if p.start <= p.target then p.start <= Reference(p, e) <= Reference(p, f) <= p.target
            else p.target <= Reference(p, f) <= Reference(p, e) <= p.start
  {
    hide Blend, Share;
    if p.seconds > 0.0 {
      SharesMove(p, e, f);
    } else {
      StillShare(p, e);
      StillShare(p, f);
    }
    var a, b := Blend(Share(p, e)), Blend(Share(p, f));
    BlendEnds(Share(p, e));
    BlendEnds(Share(p, f));
    BlendMoves(Share(p, e), Share(p, f));
    WayIsOrdered(p.start, p.target, a, b);
    var d := p.target - p.start;
    assert Reference(p, e) == p.start + d * a && Reference(p, f) == p.start + d * b;
  }

  lemma StillShare(p: Path, e: real)
    requires p.seconds == 0.0
    ensures Share(p, e) == 1.0
  {
  }

  /** The limits of a timed path, in named products. */
  lemma TimedPeaks(p: Path, rate: real, acceleration: real)
    requires Timed(p, rate, acceleration)
    ensures 0.0 <= p.seconds
    ensures 1.5 * Abs(p.target - p.start) <= Times(rate, p.seconds)
    ensures 6.0 * Abs(p.target - p.start) <= Times(acceleration, Times(p.seconds, p.seconds))
  {
  }

  lemma TimesIs(a: real, b: real)
    ensures Times(a, b) == a * b && Times(a, 0.0) == 0.0
  {
  }

  /** It moves no faster than the rate. */
  lemma ReferenceMoves(p: Path, e: real, f: real, rate: real, acceleration: real)
    requires Timed(p, rate, acceleration) && 0.0 <= e <= f <= p.seconds
    ensures Abs(Reference(p, f) - Reference(p, e)) <= rate * (f - e)
  {
    hide Blend, Share, Reference, Times, Timed;
    TimedPeaks(p, rate, acceleration);
    TimesIs(rate, f - e);
    if p.seconds > 0.0 {
      SharesMove(p, e, f);
      BlendMoves(Share(p, e), Share(p, f));
      StepBound(p.target - p.start, Blend(Share(p, f)) - Blend(Share(p, e)), Share(p, f) - Share(p, e), p.seconds,
        rate);
      ReferenceApart(p, e, f);
    } else {
      assert e == f;
    }
  }

  lemma ReferenceApart(p: Path, e: real, f: real)
    requires 0.0 <= p.seconds
    ensures Reference(p, f) - Reference(p, e) == Times(p.target - p.start, Blend(Share(p, f)) - Blend(Share(p, e)))
  {
    hide Blend, Share;
    TimesSplits(Blend(Share(p, f)), Blend(Share(p, e)), p.target - p.start);
  }

  lemma Ordered(x: real, y: real, scale: real)
    requires 0.0 < scale && Times(x, scale) <= Times(y, scale)
    ensures x <= y
  {
    if y < x {
      StrictlyPositive(x - y, scale);
    }
  }

  lemma StrictlyPositive(a: real, b: real)
    requires 0.0 < a && 0.0 < b
    ensures 0.0 < a * b
  {
  }

  /** A share of the way has the direction of the way. */
  lemma Toward(d: real, share: real)
    requires 0.0 <= share
    ensures if d >= 0.0 then 0.0 <= d * share else d * share <= 0.0
  {
    ProductIsPositive(Abs(d), share);
    if d < 0.0 {
      assert d * share == -(Abs(d) * share);
    }
  }

  /** The rate changes no faster than the acceleration. */
  lemma RateMoves(p: Path, e: real, f: real, rate: real, acceleration: real)
    requires Timed(p, rate, acceleration) && 0.0 <= e <= f <= p.seconds
    ensures Abs(Rate(p, f) - Rate(p, e)) <= acceleration * (f - e)
  {
    hide Slope, Share, Rate, Times, Timed;
    TimedPeaks(p, rate, acceleration);
    TimesIs(acceleration, f - e);
    if p.seconds > 0.0 {
      SharesMove(p, e, f);
      SlopeMoves(Share(p, e), Share(p, f));
      RateQuotient(p, e, f);
      RateBound(p.target - p.start, Slope(Share(p, f)) - Slope(Share(p, e)), Share(p, f) - Share(p, e), p.seconds,
                acceleration, Rate(p, f) - Rate(p, e));
    } else {
      assert e == f;
    }
  }

  lemma RateQuotient(p: Path, e: real, f: real)
    requires 0.0 < p.seconds
    ensures Times(p.seconds, Rate(p, f) - Rate(p, e)) == Times(p.target - p.start,
      Slope(Share(p, f)) - Slope(Share(p, e)))
  {
    hide Slope, Share, Rate, Times;
    RateTimes(p, e);
    RateTimes(p, f);
    TimesSplits(Rate(p, f), Rate(p, e), p.seconds);
    TimesSplits(Slope(Share(p, f)), Slope(Share(p, e)), p.target - p.start);
  }

  lemma RateTimes(p: Path, e: real)
    requires 0.0 < p.seconds
    ensures Times(p.seconds, Rate(p, e)) == Times(p.target - p.start, Slope(Share(p, e)))
  {
    hide Slope, Share;
  }

  lemma Shrunk(q: real, bound: real, scale: real)
    requires 0.0 < scale && Abs(Times(scale, q)) <= Times(bound, scale)
    ensures Abs(q) <= bound
  {
    hide Times;
    TimesSwaps(q, scale);
    Ordered(q, bound, scale);
    Ordered(-q, bound, scale);
  }

  /** What the slope at x leaves of a step to y. */
  lemma BlendBends(x: real, y: real)
    requires 0.0 <= x <= y <= 1.0
    ensures var bend := Blend(y) - Blend(x) - Times(Slope(x), y - x);
      Abs(bend) <= 3.0 * Times(y - x, y - x)
  {
    var h := y - x;
    var bend := 3.0 - 4.0 * x - 2.0 * y;
    BendFactors(x, y);
    Square(h);
    TimesGrows(bend, 3.0, h * h);
    TimesGrows(-3.0, bend, h * h);
  }

  lemma BendFactors(x: real, y: real)
    ensures Blend(y) - Blend(x) - Times(Slope(x), y - x) == Times(3.0 - 4.0 * x - 2.0 * y, (y - x) * (y - x))
  {
    BlendFactors(x, y);
    assert Quotient(x, y) - Slope(x) == (y - x) * (3.0 - 4.0 * x - 2.0 * y) by {
      assert x * (1.0 - x) == x - x * x;
      assert (y - x) * (3.0 - 4.0 * x - 2.0 * y)
          == 3.0 * (y - x) - 4.0 * (x * y) + 4.0 * (x * x) - 2.0 * (y * y) + 2.0 * (x * y);
    }
    assert (y - x) * Quotient(x, y) - Times(Slope(x), y - x) == (y - x) * (Quotient(x, y) - Slope(x));
  }

  /** The rate is that of the reference: what it leaves unsaid of a step is half the acceleration times the time
      squared at most. */
  lemma RateIsItsSlope(p: Path, e: real, f: real, rate: real, acceleration: real)
    requires Timed(p, rate, acceleration) && 0.0 <= e <= f <= p.seconds
    ensures Abs(Reference(p, f) - Reference(p, e) - Rate(p, e) * (f - e)) <= 0.5 * acceleration * ((f - e) * (f - e))
  {
    hide Blend, Slope, Share, Reference, Rate, Times, Timed;
    TimedPeaks(p, rate, acceleration);
    if p.seconds > 0.0 {
      var d, x, y := p.target - p.start, Share(p, e), Share(p, f);
      SharesMove(p, e, f);
      BlendBends(x, y);
      ReferenceApart(p, e, f);
      RateTimes(p, e);
      var u, bend := y - x, Blend(y) - Blend(x) - Times(Slope(x), y - x);
      TimesRegroups(d, Slope(x), u);
      TimesSplits(Blend(y) - Blend(x), Times(Slope(x), u), d);
      TimesSwaps(p.seconds, Rate(p, e));
      TimesRegroups(Rate(p, e), p.seconds, u);
      TimesIs(Rate(p, e), f - e);
      assert Reference(p, f) - Reference(p, e) - Rate(p, e) * (f - e) == Times(d, bend);
      BendBound(d, bend, u, p.seconds, acceleration, f - e);
    }
  }

  lemma BendBound(d: real, bend: real, u: real, seconds: real, acceleration: real, time: real)
    requires 0.0 < seconds && 0.0 <= u && Abs(bend) <= 3.0 * Times(u, u) && Times(seconds, u) == time
    requires 6.0 * Abs(d) <= Times(acceleration, Times(seconds, seconds))
    ensures Abs(Times(d, bend)) <= 0.5 * acceleration * (time * time)
  {
    hide Times;
    Scaled(d, bend, 3.0 * Times(u, u));
    Multiple(Abs(d), 3.0, Times(u, u));
    TimesIs(u, u);
    Square(u);
    TimesGrows(3.0 * Abs(d), 0.5 * Times(acceleration, Times(seconds, seconds)), Times(u, u));
    SquaresMultiply(acceleration, seconds, u, time);
  }

  lemma SquaresMultiply(a: real, s: real, u: real, t: real)
    requires Times(s, u) == t
    ensures Times(0.5 * Times(a, Times(s, s)), Times(u, u)) == 0.5 * a * (t * t)
  {
    assert (s * u) * (s * u) == (s * s) * (u * u);
    assert 0.5 * (a * (s * s)) * (u * u) == 0.5 * a * ((s * s) * (u * u));
  }

  /** It leaves from the start, at rest. */
  lemma ReferenceStarts(p: Path)
    requires 0.0 < p.seconds
    ensures Reference(p, 0.0) == p.start && Rate(p, 0.0) == 0.0
  {
    hide Blend, Slope, Share;
    BlendEnds(0.0);
    NoneAtFirst(p);
  }

  lemma NoneAtFirst(p: Path)
    requires 0.0 < p.seconds
    ensures Share(p, 0.0) == Slope(0.0) == 0.0
  {
    hide Blend;
  }

  /** At the end of its time the reference is the target, exactly and at rest. */
  lemma ReferenceArrives(p: Path)
    requires 0.0 < p.seconds || p.start == p.target
    requires 0.0 <= p.seconds
    ensures Reference(p, p.seconds) == p.target && Rate(p, p.seconds) == 0.0
  {
    BlendEnds(1.0);
    if p.seconds > 0.0 {
      assert Share(p, p.seconds) == 1.0;
      assert Slope(1.0) == 0.0;
    }
  }

  // ---------------------------------------------------------------- whole runs

  /** Time spent on the path after a run of steps. */
  function Elapsed(p: Path, steps: seq<real>): real {
    if |steps| == 0 then 0.0 else Min(Elapsed(p, steps[..|steps| - 1]) + steps[|steps| - 1], p.seconds)
  }

  lemma {:induction false} ElapsedGrows(p: Path, steps: seq<real>, k: nat)
    requires 0.0 <= p.seconds && k <= |steps| && forall i :: 0 <= i < |steps| ==> 0.0 < steps[i]
    ensures 0.0 <= Elapsed(p, steps[..k]) <= Elapsed(p, steps) <= p.seconds
  {
    if |steps| == 0 {
    } else if k == |steps| {
      assert steps[..k] == steps;
      ElapsedGrows(p, steps[..|steps| - 1], 0);
    } else {
      var front := steps[..|steps| - 1];
      ElapsedGrows(p, front, k);
      assert front[..k] == steps[..k];
    }
  }

  /** Over any run of steps: between any two moments the reference only approaches the target, at
      no more than the rate, and its rate changes by no more than the acceleration. */
  lemma ReferenceIsSmooth(p: Path, rate: real, acceleration: real, steps: seq<real>, k: nat)
    requires Timed(p, rate, acceleration) && k <= |steps| && forall i :: 0 <= i < |steps| ==> 0.0 < steps[i]
    ensures var e, f := Elapsed(p, steps[..k]), Elapsed(p, steps);
      && Abs(Reference(p, f) - Reference(p, e)) <= rate * (f - e)
      && Abs(Rate(p, f) - Rate(p, e)) <= acceleration * (f - e)
      && if p.start <= p.target then p.start <= Reference(p, e) <= Reference(p, f) <= p.target
         else p.target <= Reference(p, f) <= Reference(p, e) <= p.start
  {
    hide Elapsed, Reference, Rate;
    ElapsedGrows(p, steps, k);
    ReferenceBetween(p, Elapsed(p, steps[..k]), Elapsed(p, steps));
    ReferenceMoves(p, Elapsed(p, steps[..k]), Elapsed(p, steps), rate, acceleration);
    RateMoves(p, Elapsed(p, steps[..k]), Elapsed(p, steps), rate, acceleration);
  }
}
