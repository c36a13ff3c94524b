/** The build source: an adaptive pulse ladder that looks at one pressure frame at a time and
    decides to wait, pulse, approach, brake or stop. It knows nothing of the executor's
    envelope; `Step` shows every decision it makes is inside it all the same.
    Pressures (N) and volts (V) are reals; ticks are 32-bit words of milliseconds. */
module Source {
  import opened MachineWord
  import Admission
  import SourceFilter
  import SourceLadder
  import SourcePush

  datatype Action = Wait | Pulse | BrakeNow | Approach | Off

  datatype Mode = Stop | Coarse | Micro | Fine | Hold

  datatype Decision = Decision(
    action: Action, mode: nat, phase: nat, normalMs: nat, settleMs: nat, command: int,
    latched: bool, filtered: real, nearWait: bool)

  const NOTHING := Decision(Wait, 0, 0, 0, 0, 0, false, 0.0, false)

  const NONE := -1.0
  const CONTACT_N := 10.0
  const COARSE_N := 50.0
  const MICRO_N := 3.0
  const PRECISION_ENTRY_N := 40.0
  const NEAR_JUMP_N := 20.0
  const INTERVAL_MS := 10
  const FEEDBACK_TIMEOUT_MS := 500
  const NEAR_WAIT_MS := 400
  const FRESH_TIMEOUT_MS := 400
  const COOLDOWN_MS := 30
  const FINAL_SETTLE_MS := 400

  /** `lroundf(v * 1000)` for a voltage that is not negative. */
  function Millivolts(v: real): int {
    (v * 1000.0 + 0.5).Floor
  }

  /** The unboosted voltage of an ordinary pulse. */
  function MicroBase(error: real): real {
    var ratio := (error - MICRO_N) / (COARSE_N - MICRO_N);
    0.8 + (if ratio > 1.0 then 1.0 else if ratio < 0.0 then 0.0 else ratio) * (3.0 - 0.8)
  }

  /** The voltage of an ordinary pulse: the bare one and its boost, which in the last 50 N is never cut. */
  function BoostedVolts(error: real, push: SourcePush.Push): real {
    if error <= COARSE_N then MicroBase(error) + push.boost else SourcePush.Least(MicroBase(error) + push.boost, 10.0)
  }

  /** The request the machine makes of a pulse or approach decision. */
  function RequestOf(d: Decision, target: nat): Admission.Request
    requires d.command >= 0
  {
    Admission.Request(d.phase, d.mode, d.command, d.normalMs + 1, d.normalMs, d.settleMs, target,
                      d.latched || d.mode == Admission.MODE_FINE, 0)
  }

  class Source {
    var target: nat
    // the pulse ladder
    var ladder: SourceLadder.Ladder
    var precisionRef: real
    var precisionStamp: U32
    var latched: bool
    var push: SourcePush.Push
    var nearActive: bool
    // the last pulse
    var lastPositive: bool
    var pulseMs: nat
    var pulseSnapshot: U32
    var lowStamp: U32
    var lowFrames: nat
    // feedback
    var filter: SourceFilter.Filter
    var filterStamp: U32
    var contacted: bool
    var nearStamp: U32
    var nearLast: real
    var nearWait: bool
    var pauseStart: U32
    // control
    var mode: Mode
    var current: real
    var error: real
    var lastControl: U32
    var pulseStart: U32
    var pulseActive: bool
    var pulseEnd: U32
    // inputs of the running step
    var haveSequence: bool
    var sequence: U64
    var now: U32
    var stamp: U32
    var actual: real
    // its output
    var action: Action
    var command: int
    var normalMs: nat
    // history
    ghost var frames: seq<real>       // pressures the filter has processed
    ghost var clock: int              // unwrapped `now`
    ghost var pausedAt: int           // unwrapped instant of the last pause
    ghost var everPaused: bool
    ghost var asked: nat              // settling time given with the last pulse decision
    ghost var moves: seq<SourceLadder.Move> // what the ladder went through

    /** The adaptation stays in its ranges. */
    ghost predicate Tuned()
      reads `target, `ladder, `push, `lowFrames, `moves, `precisionRef
    {
      && 1 <= target <= 3000 && SourceLadder.InRange(ladder) && SourcePush.InRange(push) && lowFrames <= 2
      && Followed()
    }

    /** The filter has seen `frames`, all of them below the target. */
    ghost predicate Filtering()
      reads `target, `filter, `frames
    {
      && filter == SourceFilter.Filtered(frames) && filter.count <= 2
      && (forall i :: 0 <= i < |frames| ==> 0.0 <= frames[i] < target as real)
    }

    /** The 32-bit pause is the true one, and it is over only after NEAR_WAIT_MS. */
    ghost predicate Waiting()
      reads `now, `clock, `nearWait, `pauseStart, `pausedAt, `everPaused
    {
      && now == Low(clock)
      && (nearWait ==> everPaused && pauseStart == Low(pausedAt))
      && (everPaused ==> pausedAt <= clock && (nearWait || clock - pausedAt >= NEAR_WAIT_MS))
    }

    ghost predicate Remembers()
      reads `target, `mode, `latched, `contacted, `current, `asked, `lastPositive, `ladder
    {
      && mode != Hold && (latched ==> contacted)
      && 0.0 <= current < target as real && (current >= CONTACT_N ==> contacted)
      && asked <= (if lastPositive && ladder.band >= 2 then FINAL_SETTLE_MS else COOLDOWN_MS)
    }

    /** An unconfirmed jump keeps the source waiting. */
    ghost predicate Learned()
      reads `target, `mode, `latched, `contacted, `filter, `nearWait, `current, `asked, `lastPositive, `ladder
    {
      Remembers() && (filter.count > 0 ==> nearWait)
    }

    /** What every step keeps. */
    ghost predicate Valid()
      reads this
    {
      Tuned() && Filtering() && Waiting() && Learned()
    }

    /** No frame was seen and no pulse decided on. */
    predicate Fresh(tick: U32)
      reads this
    {
      && !haveSequence && !contacted && !latched && !nearWait && !lastPositive && nearLast == precisionRef == NONE
      && filter == SourceFilter.Filter(NONE, 0, NONE) && ladder == SourceLadder.BOTTOM && push == SourcePush.RESTED
      && filterStamp == nearStamp == pulseSnapshot == lowStamp == 0 && lowFrames == 0
      && lastControl == Minus(tick, INTERVAL_MS)
    }

    constructor (units: nat, tick: U32, ghost t: int)
      requires 1 <= units <= 3000 && tick == Low(t)
      ensures Valid() && target == units && frames == [] && moves == [] && !everPaused && asked == 0
      ensures !contacted && !latched && ladder.band == 0 && !haveSequence && clock == t && !nearWait && nearLast == NONE
      ensures Fresh(tick)
    {
      target := units;
      ladder, precisionRef, precisionStamp, latched := SourceLadder.BOTTOM, NONE, 0, false;
      push, nearActive := SourcePush.RESTED, false;
      lastPositive, pulseMs, pulseSnapshot, lowStamp, lowFrames := false, SourcePush.WIDTH_MIN, 0, 0, 0;
      filter, filterStamp, contacted := SourceFilter.Filter(NONE, 0, NONE), 0, false;
      nearStamp, nearLast, nearWait, pauseStart := 0, NONE, false, 0;
      mode, current, error, lastControl := Stop, 0.0, 0.0, Minus(tick, INTERVAL_MS);
      pulseStart, pulseActive, pulseEnd := 0, false, 0;
      haveSequence, sequence, now, stamp, actual := false, 0, tick, 0, 0.0;
      action, command, normalMs := Wait, 0, 0;
      frames, clock, pausedAt, everPaused, asked, moves := [], t, 0, false, 0, [];
    }

    method BrakeOutput()
      modifies `action, `command
      ensures action == BrakeNow && command == 0
    {
      action, command := BrakeNow, 0;
    }

    /** The ladder is what the moves so far make of it, and every answer among them is to the pulse before it. */
    ghost predicate Followed()
      reads `ladder, `moves, `target, `precisionRef
    {
      && ladder == SourceLadder.After(moves, target) && SourceLadder.Linked(moves)
      && (precisionRef >= 0.0 ==> SourceLadder.Awaits(moves, target as real - precisionRef))
    }

    /** So what is said of linked moves is said of every session. */
    lemma MovesAreLinked()
      requires Valid()
      ensures SourceLadder.Linked(moves) && ladder == SourceLadder.After(moves, target)
    {
    }

    /** However a session went: its push is no higher than its stalls since the last jump earned it. */
    lemma PushIsEarned()
      requires Valid()
      ensures ladder.level <= (if target >= SourceLadder.HIGH_TARGET then 2 else 1) * SourceLadder.Stalls(moves)
      ensures ladder.escape <= SourceLadder.Stalls(moves) && ladder.extra <= SourceLadder.Stalls(moves)
    {
      hide SourceLadder.After;
      SourceLadder.PushIsEarned(moves, target);
    }

    ghost method Follow(was: SourceLadder.Ladder, move: SourceLadder.Move)
      requires was == SourceLadder.After(moves, target) && ladder == SourceLadder.Moved(was, move, target)
      requires SourceLadder.Linked(moves) && (move.Answered? ==> SourceLadder.Awaits(moves, move.error + move.rise))
      requires precisionRef >= 0.0 ==> SourceLadder.Pulses(move) && move.error == target as real - precisionRef
      modifies `moves
      ensures Followed() && moves == old(moves) + [move]
    {
      SourceLadder.OneMore(moves, move, target);
      SourceLadder.OneMoreLinked(moves, move);
      moves := moves + [move];
    }

    method ResetPrecision()
      modifies `ladder, `moves, `precisionRef, `precisionStamp
      ensures ladder == SourceLadder.Reset(old(ladder)) && precisionRef == NONE && precisionStamp == 0
      ensures old(Followed()) ==> Followed()
    {
      SourceLadder.OneMore(moves, SourceLadder.Forgotten, target);
      if SourceLadder.Linked(moves) { SourceLadder.OneMoreLinked(moves, SourceLadder.Forgotten); }
      moves := moves + [SourceLadder.Forgotten];
      ladder := ladder.(level := 0, extra := 0, noRise := 0, escape := 0, stall := 0);
      precisionRef, precisionStamp := NONE, 0;
    }

    ghost predicate PausedNow()
      reads `nearWait, `everPaused, `pauseStart, `now, `pausedAt, `clock, `action, `command
    {
      nearWait && everPaused && pauseStart == now && pausedAt == clock && action == BrakeNow && command == 0
    }

    method Pause()
      requires Waiting()
      modifies `nearWait, `pauseStart, `pausedAt, `everPaused, `action, `command
      ensures PausedNow() && Waiting()
    {
      nearWait, pauseStart := true, now;
      pausedAt, everPaused := clock, true;
      BrakeOutput();
    }

    /** Two small rises in a row add volts and, where allowed, width. */
    method Stall(limit: real, longer: bool, volts: real, near: bool)
      modifies `push
      ensures push == SourcePush.Stalled(old(push), limit, longer, volts, near)
    {
      push := push.(stall := push.stall + 1);
      if push.stall >= 2 {
        push := push.(stall := 0);
        if near && push.nearLevel < SourcePush.NEAR_LEVEL_MAX { push := push.(nearLevel := push.nearLevel + 1); }
        push := push.(boost := push.boost + volts);
        if push.boost > limit { push := push.(boost := limit); }
        if longer && push.width < SourcePush.WIDTH_MAX { push := push.(width := push.width + 1); }
      }
    }

    method LowerBoost()
      modifies `push
      ensures push == old(push).(boost := SourcePush.Max0(old(push).boost - 0.5))
    {
      push := push.(boost := push.boost - 0.5);
      if push.boost < 0.0 { push := push.(boost := 0.0); }
    }

    method PulseBoost(limit: real, fast: bool, longer: bool) returns (boost: real)
      modifies `push
      ensures push == SourcePush.Boosted(old(push), current, limit, fast, longer, nearActive, lastPositive)
      ensures boost == push.boost
    {
      hide SourcePush.Stalled, SourcePush.Max0;
      if push.boost > limit { push := push.(boost := limit); }
      if !longer { push := push.(width := SourcePush.WIDTH_MIN); }
      if push.ref >= 0.0 {
        var rise := if lastPositive then current - push.ref else push.ref - current;
        if fast && lastPositive {
          if rise < 2.0 {
            Stall(limit, longer, 0.5, false);
          } else {
            push := push.(stall := 0);
            if rise > 8.0 {
              LowerBoost();
              if push.width > SourcePush.WIDTH_MIN { push := push.(width := push.width - 1); }
            }
          }
        } else if rise < 1.0 {
          Stall(limit, longer, if nearActive && lastPositive then 0.5 else 0.3, nearActive && lastPositive);
        } else if nearActive && lastPositive && rise <= 8.0 {
          push := push.(stall := 0);
        } else if nearActive && lastPositive {
          push := push.(stall := 0, nearLevel := if push.nearLevel > 1 then push.nearLevel - 2 else 0);
          LowerBoost();
        } else {
          push := push.(stall := 0, boost := 0.0, width := SourcePush.WIDTH_MIN);
        }
      }
      push := push.(ref := current);
      boost := push.boost;
    }

    method Climb(rise: real)
      requires SourceLadder.InRange(ladder) && 1 <= target <= 3000 && rise < 1.0
      modifies `ladder
      ensures ladder == SourceLadder.Climb(old(ladder), rise, target, latched)
    {
      var step, before := if rise <= -3.0 then 2 else 1, ladder.noRise;
      var noRise, escape, stall := ladder.noRise, ladder.escape, ladder.stall;
      if noRise <= 250 - step { noRise := noRise + step; } else { noRise := 250; }
      if (latched || ladder.band > 0) && noRise >= SourceLadder.ESCAPE_ARM &&
         noRise / 2 > before / 2 && escape < SourceLadder.MAX_ESCAPE {
        escape := escape + 1;
      }
      stall := stall + step;
      ladder := ladder.(noRise := noRise, escape := escape, stall := stall);
      if stall >= 2 {
        ladder := ladder.(stall := 0);
        var up := if target >= 800 && (rise < 1.0 || rise <= -3.0) then 2 else 1;
        if ladder.level < SourceLadder.MAX_LEVEL {
          var level := ladder.level + up;
          ladder := ladder.(level := if level < SourceLadder.MAX_LEVEL then level else SourceLadder.MAX_LEVEL);
        } else if ladder.extra < SourceLadder.MAX_EXTRA {
          ladder := ladder.(extra := ladder.extra + 1);
        }
      }
    }

    method Slacken(rise: real)
      modifies `ladder
      ensures ladder == SourceLadder.Slacken(old(ladder), rise)
    {
      ladder := ladder.(stall := 0, noRise := 0);
      var down, narrower := if rise > 4.0 then 3 else 2, if rise > 4.0 then 2 else 1;
      ladder := ladder.(escape := if ladder.escape > down then ladder.escape - down else 0);
      ladder := ladder.(extra := if ladder.extra > narrower then ladder.extra - narrower else 0);
      ladder := ladder.(level := if ladder.level > down then ladder.level - down else 0);
    }

    /** The answer to the last precision pulse; `paused` when it rose too far. */
    method PrecisionObserve(rise: real) returns (paused: bool)
      requires SourceLadder.InRange(ladder) && 1 <= target <= 3000 && Waiting()
      modifies `ladder, `precisionRef, `nearWait, `pauseStart, `pausedAt, `everPaused, `action, `command
      ensures Waiting()
      ensures ladder == SourceLadder.Observe(old(ladder), rise, target, latched)
      ensures paused <==> rise > 4.0 || (error <= 10.0 && rise > 2.0)
      ensures if paused then PausedNow() && precisionRef == NONE
              else
                && precisionRef == old(precisionRef)
                && unchanged(`nearWait, `everPaused, `pauseStart, `pausedAt, `action, `command)
    {
      hide SourceLadder.Climb, SourceLadder.Slacken;
      paused := false;
      if rise < 1.0 {
        Climb(rise);
      } else if rise <= SourceLadder.TARGET_RISE_N {
        ladder := ladder.(stall := 0, noRise := 0);
      } else {
        Slacken(rise);
        if rise > 4.0 || (error <= SourceLadder.FINAL_N && rise > SourceLadder.TARGET_RISE_N) {
          precisionRef := NONE;
          Pause();
          paused := true;
        }
      }
    }

    /** Records the tightest band reached and what reaching it costs. */
    method PrecisionBand(rise: real)
      requires 1 <= target <= 3000
      modifies `ladder
      ensures ladder == SourceLadder.Tighten(old(ladder), error, rise, target)
    {
      var band := 0;
      if error <= MICRO_N { band := 3; }
      else if error <= SourceLadder.FINAL_N { band := 2; }
      else if error <= SourceLadder.MID_N { band := 1; }
      if band > ladder.band {
        ladder := ladder.(band := band, noRise := 0, stall := 0);
        if !(target >= 800 && rise >= 1.0 && rise <= SourceLadder.TARGET_RISE_N) {
          ladder := ladder.(escape := 0, extra := 0);
          var cap := if band == 1 then 8 else if band == 2 then 6 else 4;
          if ladder.level > cap { ladder := ladder.(level := cap); }
        }
      }
    }

    /** The pulse the ladder stands for, clamped step by step. */
    method PrecisionPulse() returns (mv: nat, ms: nat)
      requires 1 <= target <= 3000
      ensures mv == SourceLadder.Volts(ladder, target, error) && ms == SourceLadder.Width(ladder, target, error)
    {
      mv := PrecisionVolts();
      ms := PrecisionWidth();
    }

    method PrecisionVolts() returns (mv: nat)
      requires 1 <= target <= 3000
      ensures mv == SourceLadder.Volts(ladder, target, error)
    {
      var low, high := target <= 200, target >= 800;
      var start := if low then 2000 else if high && error <= 10.0 then 6000 else if high then 4000 else 2500;
      mv := start + 250 * ladder.level;
      var cap := 5500;
      if ladder.band == 0 { cap := cap + 250 * ladder.escape; }
      else if ladder.band == 1 { cap := 5000 + 250 * ladder.escape; }
      else if ladder.band == 2 { cap := 4500 + 250 * ladder.escape; }
      else { cap := 4000 + 250 * ladder.escape; }
      if high {
        if ladder.band == 2 { cap := 5500 + 250 * ladder.escape; }
        else if ladder.band >= 3 { cap := 5000 + 250 * ladder.escape; }
      }
      if high && error <= 10.0 && cap < 6000 { cap := 6000; }
      var max := if low then 5500 else if high then 12000 else 7000;
      if cap > max { cap := max; }
      if mv > cap { mv := cap; }
    }

    method PrecisionWidth() returns (ms: nat)
      requires 1 <= target <= 3000
      ensures ms == SourceLadder.Width(ladder, target, error)
    {
      var low, high := target <= 200, target >= 800;
      var heavy, midHigh := 1500 <= target <= 2200, 800 <= target < 1500;
      var level, escape := ladder.level, ladder.escape;
      ms := (if high then 3 else 2)
            + SourceLadder.One(level >= 4) + SourceLadder.One(level >= 8) + SourceLadder.One(level >= 12);
      if !low && !high {
        ms := ms + SourceLadder.One(level >= 18) + SourceLadder.One(level >= 24) + SourceLadder.One(level >= 30);
      }
      if high && error > 10.0 {
        ms := ms + SourceLadder.One(level >= 16) + SourceLadder.One(level >= 22) + SourceLadder.One(level >= 28);
      }
      if heavy { ms := ms + SourceLadder.One(level >= 20) + SourceLadder.One(level >= 26); }
      if midHigh && error <= 10.0 { ms := ms + 1; }
      ms := ms + ladder.extra;
      var cap := PrecisionWidthCap();
      if ms > cap { ms := cap; }
    }

    method PrecisionWidthCap() returns (cap: nat)
      requires 1 <= target <= 3000
      ensures cap == SourceLadder.Min(SourceLadder.FreeMs(ladder, target), SourceLadder.MaxMs(target, error))
    {
      hide SourceLadder.FreeMs;
      cap := PrecisionEscapeCap();
      var low, high := target <= 200, target >= 800;
      var heavy, midHigh := 1500 <= target <= 2200, 800 <= target < 1500;
      var max := if low then 4 else if high then 12 else 8;
      if heavy { max := max + 2; }
      if error <= 10.0 && high {
        var final := 5 + (if heavy then 3 else 0) + (if midHigh then 1 else 0);
        if max > final { max := final; }
      }
      if cap > max { cap := max; }
    }

    method PrecisionEscapeCap() returns (cap: nat)
      requires 1 <= target <= 3000
      ensures cap == SourceLadder.FreeMs(ladder, target)
    {
      hide SourceLadder.One, SourceLadder.BandMs;
      var low, high, heavy := target <= 200, target >= 800, 1500 <= target <= 2200;
      var escape := ladder.escape;
      cap := PrecisionBandCap();
      if high { cap := cap + SourceLadder.One(escape >= 16) + SourceLadder.One(escape >= 20); }
      else if !low { cap := cap + SourceLadder.One(escape >= 16) + SourceLadder.One(escape >= 22); }
      if high {
        cap := cap + SourceLadder.One(escape >= 20) + SourceLadder.One(escape >= 23) + SourceLadder.One(escape >= 26);
      }
      if heavy { cap := cap + SourceLadder.One(escape >= 20) + SourceLadder.One(escape >= 26); }
    }

    method PrecisionBandCap() returns (cap: nat)
      ensures cap == SourceLadder.BandMs(ladder.band, ladder.escape)
    {
      hide SourceLadder.One;
      var escape := ladder.escape;
      cap := 5;
      if ladder.band == 0 {
        cap := cap + SourceLadder.One(escape >= 4) + SourceLadder.One(escape >= 8);
      } else if ladder.band == 1 {
        cap := 4 + SourceLadder.One(escape >= 4) + SourceLadder.One(escape >= 8) + SourceLadder.One(escape >= 12);
      } else if ladder.band == 2 {
        cap := 3 + SourceLadder.One(escape >= 4) + SourceLadder.One(escape >= 8) + SourceLadder.One(escape >= 12);
      } else {
        cap := 3 + SourceLadder.One(escape >= 6) + SourceLadder.One(escape >= 10) + SourceLadder.One(escape >= 12);
      }
    }

    /** What the next precision pulse means to the ladder: the answer to the last one, or a first one. */
    ghost function NextMove(ref: real): SourceLadder.Move
      reads `current, `error, `latched
    {
      if ref >= 0.0 then SourceLadder.Answered(current - ref, error, latched) else SourceLadder.First(error)
    }

    /** The ladder once the last pulse is answered and the band of this one recorded. */
    ghost function NextLadder(l: SourceLadder.Ladder, ref: real): SourceLadder.Ladder
      reads this
    {
      SourceLadder.Moved(l, NextMove(ref), target)
    }

    /** One precision pulse: `ok` unless the last one is unanswered or rose too far. */
    method PrecisionForward() returns (ok: bool, mv: nat, ms: nat)
      requires SourceLadder.InRange(ladder) && 1 <= target <= 3000 && Waiting() && Followed()
      requires error == target as real - current
      modifies `ladder, `moves, `precisionRef, `precisionStamp, `nearWait, `pauseStart, `pausedAt, `everPaused,
               `action, `command
      ensures SourceLadder.InRange(ladder) && ladder.band >= old(ladder.band) && Waiting() && Followed()
      ensures var rise := current - old(precisionRef);
        ok <==> old(precisionRef) < 0.0 ||
                (stamp != old(precisionStamp) && rise <= 4.0 && (error <= 10.0 ==> rise <= 2.0))
      ensures ok ==>
        && mv == SourceLadder.Volts(ladder, target, error) && ms == SourceLadder.Width(ladder, target, error)
        && ladder == NextLadder(old(ladder), old(precisionRef))
        && precisionRef == current && precisionStamp == stamp
      ensures !ok && stamp == old(precisionStamp) ==> ladder == old(ladder)
      ensures moves == if ok || stamp != old(precisionStamp) then old(moves) + [NextMove(old(precisionRef))]
        else old(moves)
      ensures ok || stamp == old(precisionStamp) ==>
        unchanged(`nearWait, `everPaused, `pauseStart, `pausedAt, `action, `command)
      ensures !ok && stamp != old(precisionStamp) ==> PausedNow()
    {
      hide SourceLadder.Observe, SourceLadder.Tighten, SourceLadder.Volts, SourceLadder.Width, SourceLadder.InRange,
        SourceLadder.After;
      mv, ms := 0, 0;
      ghost var was, move := ladder, NextMove(precisionRef);
      var rise := NONE;
      if precisionRef >= 0.0 {
        if stamp == precisionStamp { ok := false; return; }
        rise := current - precisionRef;
        SourceLadder.StaysInRange(ladder, rise, rise, error, target, latched);
        var paused := PrecisionObserve(rise);
        if paused { Follow(was, move); ok := false; return; }
      }
      mv, ms := PrecisionBandPulse(rise);
      Follow(was, move);
      ok := true;
    }

    /** The pulse after the last one is answered, the band of this one recorded. */
    method PrecisionBandPulse(rise: real) returns (mv: nat, ms: nat)
      requires SourceLadder.InRange(ladder) && 1 <= target <= 3000
      modifies `ladder, `precisionRef, `precisionStamp
      ensures SourceLadder.InRange(ladder) && ladder.band >= old(ladder.band)
      ensures ladder == SourceLadder.Tighten(old(ladder), error, rise, target) && precisionRef == current &&
        precisionStamp == stamp
      ensures mv == SourceLadder.Volts(ladder, target, error) && ms == SourceLadder.Width(ladder, target, error)
    {
      hide SourceLadder.Tighten, SourceLadder.Volts, SourceLadder.Width, SourceLadder.InRange;
      SourceLadder.StaysInRange(ladder, rise, rise, error, target, latched);
      PrecisionBand(rise);
      mv, ms := PrecisionPulse();
      precisionRef, precisionStamp := current, stamp;
    }

    function Settle(): nat
      reads `lastPositive, `ladder
    {
      if lastPositive && ladder.band >= 2 then FINAL_SETTLE_MS else COOLDOWN_MS
    }

    predicate Settled()
      reads `pulseEnd, `now, `lastPositive, `ladder
    {
      pulseEnd == 0 || Minus(now, pulseEnd) >= Settle()
    }

    /** The last pulse is over and seen: the motor settled and a frame came after it (a low target waits for two), or
        above a low target long enough passed. */
    predicate Paced(at: U32, tick: U32, end: U32)
      reads `lastPositive, `ladder, `pulseSnapshot, `target, `lowStamp, `lowFrames
    {
      || end == 0
      || (target > 200 && Minus(tick, end) >= 400)
      || (Minus(tick, end) >= Settle() && at != pulseSnapshot
          && (target > 200 || lowFrames == 2 || (lowFrames == 1 && at != lowStamp)))
    }

    /** Near the target, or ever since: the small steps of the ladder. */
    predicate Precise(p: real)
      reads `target, `latched
    {
      latched || target as real - p <= 40.0
    }

    /** What the answer to the last pulse allows: a new frame is awaited, one that rose too far is braked on. */
    function Onward(p: real, at: U32): Action
      reads `target, `latched, `precisionRef, `precisionStamp
    {
      var near, rise := target as real - p, p - precisionRef;
      if !Precise(p) || precisionRef < 0.0 then Pulse
      else if at == precisionStamp then Wait
      else if rise > 4.0 || (near <= 10.0 && rise > 2.0) then BrakeNow
      else Pulse
    }

    /** The decision an accepted pressure calls for, frame and tick given: approach until contact, brake a pulse that
        has lasted, wait for one to settle and be seen, and pulse on as its answer allows. */
    function Verdict(p: real, reached: bool, at: U32, tick: U32, running: bool, end: U32): Action
      reads `target, `latched, `precisionRef, `precisionStamp, `lastPositive, `ladder, `pulseSnapshot,
            `lowStamp, `lowFrames, `pulseStart, `pulseMs
    {
      if !reached && target as real - p > 3.0 then Approach
      else if running then if Minus(tick, pulseStart) >= pulseMs then BrakeNow else Wait
      else if !Paced(at, tick, end) then Wait
      else Onward(p, at)
    }

    /** A running pulse has brought the pressure to the last 3 N. */
    predicate Arrives(p: real, running: bool)
      reads `target
    {
      running && target as real - p <= 3.0
    }

    /** The verdict on a new pressure: a pulse it arrives with ends on this tick. */
    function WatchedVerdict(p: real, at: U32, tick: U32, running: bool, end: U32): Action
      reads `target, `latched, `contacted, `precisionRef, `precisionStamp, `lastPositive, `ladder, `pulseSnapshot,
            `lowStamp, `lowFrames, `pulseStart, `pulseMs
    {
      Verdict(p, contacted || p >= 10.0, at, tick, running && !Arrives(p, running), if Arrives(p, running) then tick
        else end)
    }

    /** What a new pressure near the last calls for: unless there is more to do, a pulse that has arrived is braked. */
    function Response(p: real, at: U32, tick: U32, running: bool, end: U32): Action
      reads `target, `latched, `contacted, `precisionRef, `precisionStamp, `lastPositive, `ladder, `pulseSnapshot,
            `lowStamp, `lowFrames, `pulseStart, `pulseMs
    {
      var v := WatchedVerdict(p, at, tick, running, end);
      if Arrives(p, running) && v == Wait then BrakeNow else v
    }

    lemma ArrivedSeeksNothing(p: real, at: U32, tick: U32, running: bool, end: U32)
      requires Arrives(p, running)
      ensures WatchedVerdict(p, at, tick, running, end) != Approach
    {
    }

    /** The verdict on the pressure in hand. */
    function Due(): Action
      reads `target, `latched, `contacted, `precisionRef, `precisionStamp, `lastPositive, `ladder, `pulseSnapshot,
            `lowStamp, `lowFrames, `pulseStart, `pulseMs, `current, `stamp, `now, `pulseActive, `pulseEnd
    {
      Verdict(current, contacted, stamp, now, pulseActive, pulseEnd)
    }

    /** The verdict `v` is carried out; an approach shows in its command until the step ends. */
    predicate Obeys(v: Action, before: Action)
      reads `action, `command, `mode
    {
      if v == Approach then mode == Coarse && command == Admission.APPROACH_COMMAND && action == before
      else (mode == Coarse ==> command == 0) && action == if v == Wait then before else v
    }

    /** A pulse braked on this very tick has not settled, unless the tick reads as "none ended". */
    lemma JustEnded()
      requires pulseEnd == now
      ensures Settled() ==> now == 0
    {
    }

    /** The wait between pulses: the motor settled and a new frame seen (two for a low target). */
    method Pace() returns (go: bool)
      requires lowFrames <= 2
      modifies `lowStamp, `lowFrames
      ensures lowFrames <= 2
      ensures go <==> old(Paced(stamp, now, pulseEnd))
      ensures go ==> Settled()
      ensures if pulseEnd == 0 || target > 200 || stamp == old(lowStamp) then unchanged(`lowStamp, `lowFrames)
              else lowStamp == stamp && lowFrames == if old(lowFrames) < 2 then old(lowFrames) + 1 else 2
    {
      if pulseEnd > 0 {
        var settleMs := if lastPositive && ladder.band >= 2 then FINAL_SETTLE_MS else COOLDOWN_MS;
        var settled := Minus(now, pulseEnd) >= settleMs;
        var renewed := stamp != pulseSnapshot;
        var timeout := Minus(now, pulseEnd) >= FRESH_TIMEOUT_MS;
        if target <= SourceLadder.LOW_TARGET {
          if stamp != lowStamp {
            lowStamp := stamp;
            if lowFrames < 2 { lowFrames := lowFrames + 1; }
          }
          if !(settled && renewed && lowFrames >= 2) { return false; }
        }
        if !(settled && renewed) && !timeout { return false; }
      }
      return true;
    }

    /** A pulse begins on this frame and tick, and its answer is awaited from here. */
    predicate Started()
      reads `lastPositive, `pulseSnapshot, `pulseStart, `pulseMs, `lowStamp, `lowFrames, `stamp, `now, `normalMs
    {
      lastPositive && pulseSnapshot == lowStamp == stamp && pulseStart == now && pulseMs == normalMs && lowFrames == 0
    }

    method StartPulse(mv: int, ms: nat)
      modifies `pulseMs, `pulseSnapshot, `lowStamp, `lowFrames, `pulseStart, `pulseActive, `lastPositive, `action,
               `command, `normalMs
      ensures action == Pulse && command == mv && normalMs == ms && Started()
    {
      pulseMs, pulseSnapshot := ms, stamp;
      lowStamp, lowFrames := pulseSnapshot, 0;
      pulseStart, pulseActive, lastPositive := now, true, true;
      command := mv;
      action, normalMs := Pulse, pulseMs;
    }

    /** A running pulse whose width has passed is braked. */
    method FinishPulse()
      modifies `action, `command, `pulseActive, `pulseEnd
      ensures if Minus(now, pulseStart) >= pulseMs
              then action == BrakeNow && command == 0 && !pulseActive && pulseEnd == now
              else unchanged(`action, `command, `pulseActive, `pulseEnd)
    {
      if Minus(now, pulseStart) >= pulseMs {
        BrakeOutput();
        pulseActive, pulseEnd := false, now;
      }
    }

    ghost predicate Near() reads this { error <= COARSE_N }

    ghost predicate LowTarget() reads this { target <= SourceLadder.LOW_TARGET }

    /** The boost state after the answer to the last ordinary pulse. */
    ghost function NextPush(p: SourcePush.Push, wasNear: bool, positive: bool): SourcePush.Push
      reads this
    {
      var q := if Near() && !wasNear then p.(ref := NONE, stall := 0, nearLevel := 0, width := SourcePush.WIDTH_MIN)
        else p;
      SourcePush.Boosted(q, current, SourcePush.BOOST_MAX, !Near(), !Near(), Near(), positive)
    }

    /** The ordinary pulse of the last 50 N, or of the way there. */
    method OrdinaryPulse() returns (v: real, ms: nat)
      requires Tuned() && error > PRECISION_ENTRY_N
      modifies `push, `nearActive
      ensures Tuned() && nearActive == Near()
      ensures var p := NextPush(old(push), old(nearActive), old(lastPositive));
        && SourcePush.InRange(p)
        && v == SourcePush.Applied(MicroBase(error), p.boost, p.nearLevel, Near(), LowTarget())
        && ms == SourcePush.Width(p, Near(), LowTarget())
        && push == p.(boost := push.boost) && push.boost <= p.boost
        && if Near() then v == MicroBase(error) + push.boost else push.boost == p.boost
      ensures v == BoostedVolts(error, push) && push.ref == current
      ensures Near() && !old(nearActive) ==>
        push.nearLevel == push.stall == 0 && push.width == 9 && push.boost <= old(push).boost
      ensures ms == SourcePush.Width(push, error <= COARSE_N, target <= SourceLadder.LOW_TARGET)
    {
      hide SourcePush.Boosted;
      var near := error <= COARSE_N;
      if near && !nearActive {
        push := push.(ref := NONE, stall := 0, nearLevel := 0, width := SourcePush.WIDTH_MIN);
      }
      nearActive := near;
      var fast, longer := !near && error > COARSE_N, !near;
      SourcePush.StaysInRange(push, current, SourcePush.BOOST_MAX, fast, longer, nearActive, lastPositive);
      SourcePush.FirstHolds(push, current, SourcePush.BOOST_MAX, fast, longer, nearActive, lastPositive);
      var boost := PulseBoost(SourcePush.BOOST_MAX, fast, longer);
      var low := target <= SourceLadder.LOW_TARGET;
      var base := MicroBase(error);
      v := base + boost;
      if near {
        if error <= 20.0 && push.nearLevel > 2 { assert false; }
        var level := push.nearLevel;
        var limit := if low then 3.0 + 0.5 * level as real else 5.0 + 0.5 * level as real;
        if v > limit {
          v := limit;
          var rest := if limit - base < 0.0 then 0.0 else limit - base;
          if push.boost > rest { push := push.(boost := rest); }
        }
        ms := if low then 3 + level / 2 else 6 + level / 2;
        if low && ms > 4 { ms := 4; }
      } else {
        if v > SourcePush.MICRO_MAX_V { v := SourcePush.MICRO_MAX_V; }
        var width: int := push.width;
        if width > SourcePush.WIDTH_MAX { width := SourcePush.WIDTH_MAX; }
        ms := width;
      }
    }

    /** The request this step's pulse would become; settling is filled in at the end of the step. */
    ghost predicate PulseFits(fine: bool)
      reads this
    {
      && command > 0
      && Admission.PulseEnvelope(Admission.Request(
           if error <= COARSE_N then Admission.PHASE_TAPER else Admission.PHASE_BUILD,
           if fine then Admission.MODE_FINE else Admission.MODE_MICRO,
           command, normalMs + 1, normalMs, COOLDOWN_MS, target, latched || fine, 0))
    }

    /** A pulse of the precision ladder, or of the ordinary boost. */
    ghost predicate PrecisionPulsed()
      reads this
    {
      command == SourceLadder.Volts(ladder, target, error) && normalMs == SourceLadder.Width(ladder, target, error)
    }

    /** A pulse of the boost as it stands now: the bare voltage and what was added to it, no more than 10 V. */
    ghost predicate OrdinaryPulsed()
      reads `error, `push, `target, `command, `normalMs
    {
      && command == Millivolts(BoostedVolts(error, push))
      && normalMs == SourcePush.Width(push, error <= COARSE_N, target <= SourceLadder.LOW_TARGET)
    }

    lemma PrecisionFits(fine: bool)
      requires Tuned() && (latched || fine) && PrecisionPulsed()
      ensures PulseFits(fine) && command > 0
    {
      hide SourceLadder.Volts, SourceLadder.Width;
      SourceLadder.PulseFits(ladder, target, error);
    }

    lemma OrdinaryFits(p: SourcePush.Push, v: real, ms: nat)
      requires Tuned() && error > PRECISION_ENTRY_N && !latched && SourcePush.InRange(p)
      requires v == SourcePush.Applied(MicroBase(error), p.boost, p.nearLevel, Near(), LowTarget())
      requires ms == SourcePush.Width(p, Near(), LowTarget()) && command == Millivolts(v) && normalMs == ms
      ensures PulseFits(false) && command > 0
    {
      hide SourcePush.Applied, SourcePush.Width, MicroBase;
      BaseIsLinear(error);
      SourcePush.OrdinaryFits(p, MicroBase(error), Near(), LowTarget());
    }

    /** The precision branch of both modes. */
    method PrecisionStep(fine: bool)
      requires Tuned() && (latched || fine) && action != Pulse && command == 0 && !nearWait && Waiting()
      requires error == target as real - current
      modifies `ladder, `moves, `precisionRef, `precisionStamp, `push, `nearActive, `lastPositive, `pulseMs,
               `pulseSnapshot, `lowStamp, `lowFrames, `nearWait, `pauseStart, `pausedAt, `everPaused, `pulseStart,
               `pulseActive, `action, `command, `normalMs
      ensures Tuned() && ladder.band >= old(ladder.band) && Waiting()
      ensures action == Pulse || action == BrakeNow || action == old(action)
      ensures action == Pulse ==> command > 0 && PulseFits(fine) && PrecisionPulsed() && Started() && !nearWait
      ensures action == Pulse ==> ladder == NextLadder(old(ladder), old(precisionRef))
      ensures action == Pulse ==> push.ref == NONE && push.boost == 0.0 && push.stall == 0
      ensures action != Pulse ==> lastPositive == old(lastPositive) && command == 0
      ensures action ==
        if old(precisionRef) < 0.0 then Pulse else if stamp == old(precisionStamp) then old(action)
        else if current - old(precisionRef) > 4.0 || (error <= 10.0 && current - old(precisionRef) > 2.0) then BrakeNow
        else Pulse
    {
      hide SourceLadder.Tighten, SourceLadder.Observe, SourceLadder.Volts, SourceLadder.Width, SourceLadder.MustPause,
        SourceLadder.InRange, SourceLadder.After, SourceLadder.Moved, SourcePush.InRange, PulseFits, Waiting, Followed;
      var ok, mv, ms := PrecisionForward();
      if ok { Fire(fine, mv, ms); }
    }

    /** A precision pulse begins, and the boost of ordinary ones is forgotten. */
    method Fire(fine: bool, mv: nat, ms: nat)
      requires Tuned() && (latched || fine)
      requires mv == SourceLadder.Volts(ladder, target, error) && ms == SourceLadder.Width(ladder, target, error)
      modifies `push, `nearActive, `lastPositive, `pulseMs, `pulseSnapshot, `lowStamp, `lowFrames, `pulseStart,
               `pulseActive, `action, `command, `normalMs
      ensures Tuned() && action == Pulse && command > 0 && PulseFits(fine) && PrecisionPulsed() && Started()
      ensures push.ref == NONE && push.boost == 0.0 && push.stall == 0
    {
      hide SourceLadder.Volts, SourceLadder.Width, SourceLadder.InRange, SourcePush.InRange, PulseFits, Followed;
      ForgetBoost(fine);
      StartPulse(mv, ms);
      PrecisionFits(fine);
    }

    method ForgetBoost(fine: bool)
      requires SourcePush.InRange(push)
      modifies `push, `nearActive
      ensures SourcePush.InRange(push)
      ensures push ==
        old(push).(ref := NONE, boost := 0.0, stall := 0, nearLevel := if fine then old(push).nearLevel else 0)
      ensures nearActive == (fine && old(nearActive))
    {
      if !fine {
        nearActive := false;
        push := push.(nearLevel := 0);
      }
      push := push.(ref := NONE, boost := 0.0, stall := 0);
    }

    method OrdinaryStep()
      requires Tuned() && !latched && error > PRECISION_ENTRY_N && action != Pulse && command == 0 && !nearWait
      modifies `ladder, `moves, `precisionRef, `precisionStamp, `push, `nearActive, `lastPositive, `pulseMs,
               `pulseSnapshot, `lowStamp, `lowFrames, `pulseStart, `pulseActive, `action, `command, `normalMs
      ensures Tuned() && ladder == SourceLadder.Reset(old(ladder))
      ensures action == Pulse && Started() && command > 0 && PulseFits(false) && OrdinaryPulsed()
      ensures var p := NextPush(old(push), old(nearActive), old(lastPositive));
        && command == Millivolts(SourcePush.Applied(MicroBase(error), p.boost, p.nearLevel, Near(), LowTarget()))
        && normalMs == SourcePush.Width(p, Near(), LowTarget())
    {
      hide SourcePush.Boosted, SourcePush.Applied, SourcePush.Width, SourcePush.InRange, SourceLadder.After, MicroBase,
        Millivolts, BoostedVolts, PulseFits;
      ResetPrecision();
      ghost var p := NextPush(push, nearActive, lastPositive);
      var v, ms := OrdinaryPulse();
      StartPulse(Millivolts(v), ms);
      OrdinaryFits(p, v, ms);
    }

    /** Precision work has not begun and is not due. */
    predicate Far(p: real)
      reads `target, `latched
    {
      !latched && target as real - p > PRECISION_ENTRY_N
    }

    method MicroMode()
      requires Tuned() && error > MICRO_N && action != Pulse && command == 0 && !nearWait && Waiting()
      requires error == target as real - current
      modifies `ladder, `moves, `precisionRef, `precisionStamp, `latched, `push, `nearActive, `lastPositive, `pulseMs,
               `pulseSnapshot, `lowStamp, `lowFrames, `nearWait, `pauseStart, `pausedAt, `everPaused, `pulseStart,
               `pulseActive, `pulseEnd, `action, `command, `normalMs
      ensures Tuned() && ladder.band >= old(ladder.band) && (old(latched) ==> latched) && Waiting()
      ensures action == Pulse || action == BrakeNow || action == old(action)
      ensures action == Pulse ==>
        command > 0 && PulseFits(false) && Started() && !nearWait && !old(pulseActive) && old(Settled())
      ensures action == Pulse && latched ==> PrecisionPulsed() && ladder == NextLadder(old(ladder), old(precisionRef))
      ensures action == Pulse && !latched ==>
        var p := NextPush(old(push), old(nearActive), old(lastPositive));
        command == Millivolts(SourcePush.Applied(MicroBase(error), p.boost, p.nearLevel, Near(), LowTarget()))
        && normalMs == SourcePush.Width(p, Near(), LowTarget()) && OrdinaryPulsed()
      ensures action != Pulse ==> lastPositive == old(lastPositive) && command == 0
      ensures contacted ==> action == if old(Due()) == Wait then old(action) else old(Due())
      ensures action == Pulse ==> latched == (old(latched) || error <= PRECISION_ENTRY_N)
      ensures old(Far(current)) ==> Far(current) && !nearWait && ladder.band == old(ladder.band)
    {
      hide SourcePush.InRange, SourceLadder.InRange, SourceLadder.After, PulseFits, NextLadder, NextPush,
        PrecisionPulsed, OrdinaryPulsed, Millivolts, MicroBase, Paced, Onward;
      if pulseActive { FinishPulse(); return; }
      var go := Pace();
      if go { PulseOn(); }
    }

    /** The pulse after the last one has settled: by the ladder in the last 40 N and ever after, else by the boost. */
    method PulseOn()
      requires Tuned() && error > MICRO_N && action != Pulse && command == 0 && !nearWait && Waiting()
      requires error == target as real - current
      modifies `ladder, `moves, `precisionRef, `precisionStamp, `latched, `push, `nearActive, `lastPositive, `pulseMs,
               `pulseSnapshot, `lowStamp, `lowFrames, `nearWait, `pauseStart, `pausedAt, `everPaused, `pulseStart,
               `pulseActive, `action, `command, `normalMs
      ensures Tuned() && ladder.band >= old(ladder.band) && (old(latched) ==> latched) && Waiting()
      ensures action == if old(Onward(current, stamp)) == Wait then old(action) else old(Onward(current, stamp))
      ensures latched == (old(latched) || error <= PRECISION_ENTRY_N)
      ensures action == Pulse || action == BrakeNow || action == old(action)
      ensures action == Pulse ==> command > 0 && PulseFits(false) && Started() && !nearWait
      ensures action == Pulse && latched ==> PrecisionPulsed() && ladder == NextLadder(old(ladder), old(precisionRef))
      ensures action == Pulse && !latched ==>
        var p := NextPush(old(push), old(nearActive), old(lastPositive));
        command == Millivolts(SourcePush.Applied(MicroBase(error), p.boost, p.nearLevel, Near(), LowTarget()))
        && normalMs == SourcePush.Width(p, Near(), LowTarget()) && OrdinaryPulsed()
      ensures action != Pulse ==> lastPositive == old(lastPositive) && command == 0
      ensures old(Far(current)) ==> Far(current) && !nearWait && ladder.band == old(ladder.band)
    {
      hide SourcePush.InRange, SourceLadder.InRange, SourceLadder.After, PulseFits, NextLadder, NextPush,
        PrecisionPulsed, OrdinaryPulsed, Millivolts, MicroBase;
      if error <= PRECISION_ENTRY_N || latched {
        latched := true;
        PrecisionStep(false);
      } else {
        OrdinaryStep();
      }
    }

    method FineMode()
      requires Tuned() && 0.0 < error <= MICRO_N && action != Pulse && command == 0 && !nearWait && Waiting()
      requires error == target as real - current
      modifies `ladder, `moves, `precisionRef, `precisionStamp, `push, `nearActive, `lastPositive, `pulseMs,
               `pulseSnapshot, `lowStamp, `lowFrames, `nearWait, `pauseStart, `pausedAt, `everPaused, `pulseStart,
               `pulseActive, `pulseEnd, `action, `command, `normalMs
      ensures Tuned() && ladder.band >= old(ladder.band) && Waiting()
      ensures action == Pulse || action == BrakeNow || action == old(action)
      ensures action == Pulse ==>
        command > 0 && PulseFits(true) && Started() && !nearWait && !old(pulseActive) && old(Settled())
      ensures action == Pulse ==> PrecisionPulsed() && ladder == NextLadder(old(ladder), old(precisionRef))
      ensures action != Pulse ==> lastPositive == old(lastPositive) && command == 0
      ensures action == if old(Due()) == Wait then old(action) else old(Due())
    {
      hide SourcePush.InRange, SourceLadder.InRange, SourceLadder.After, PulseFits, NextLadder, PrecisionPulsed, Paced;
      nearActive := false;
      if pulseActive { FinishPulse(); return; }
      var go := Pace();
      if !go { return; }
      PrecisionStep(true);
    }

    method CoarseMode()
      requires !contacted && current < CONTACT_N && error > MICRO_N
      modifies `command, `mode
      ensures command == Admission.APPROACH_COMMAND && mode == old(mode)
    {
      if !contacted && current < CONTACT_N && error > MICRO_N {
        command := 5000;
      } else {
        assert false;
      }
    }

    /** A pressure the filter takes: near the last, or the third in a row to doubt it and agree on another. */
    predicate Believes(p: real)
      reads `filter
    {
      || filter.last < 0.0 || SourceFilter.Abs(p - filter.last) <= 80.0
      || (filter.count == 2 && SourceFilter.Abs(p - filter.candidate) <= 5.0)
    }

    /** One processed frame: the pressure to control on. */
    method FilterFrame() returns (raw: real)
      requires Filtering() && 0.0 <= actual < target as real
      modifies `filter, `filterStamp, `frames
      ensures Filtering() && 0.0 <= raw < target as real && filterStamp == stamp
      ensures if stamp != old(filterStamp) then frames == old(frames) + [actual] else unchanged(`filter, `frames)
      ensures raw == if filter.last >= 0.0 then filter.last else actual
      ensures stamp != old(filterStamp) ==>
        (filter == SourceFilter.Filter(actual, 0, NONE) <==> old(Believes(actual)))
      ensures stamp != old(filterStamp) && filter != SourceFilter.Filter(actual, 0, NONE) ==>
        filter.count > 0 && raw == filter.last == old(filter.last)
    {
      hide SourceFilter.Filtered;
      CandidateIsAFrame();
      raw := actual;
      if stamp != filterStamp {
        filterStamp := stamp;
        frames := frames + [actual];
        SourceFilter.OneMore(old(frames), actual);
        if filter.last >= 0.0 && SourceFilter.Abs(raw - filter.last) > SourceFilter.JUMP_N {
          if filter.candidate < 0.0 || SourceFilter.Abs(raw - filter.candidate) > SourceFilter.AGREE_N {
            filter := filter.(candidate := raw, count := 1);
          } else {
            filter := filter.(count := filter.count + 1);
          }
          if filter.count < 3 {
            raw := filter.last;
          } else {
            filter := SourceFilter.Filter(raw, 0, NONE);
          }
        } else {
          filter := SourceFilter.Filter(raw, 0, NONE);
        }
      } else if filter.last >= 0.0 {
        raw := filter.last;
      }
      FilterBelow();
    }

    /** Accepted values are frames, so they too are below the target. */
    lemma FilterBelow()
      requires Filtering()
      ensures filter.last >= 0.0 ==> filter.last < target as real
    {
      SourceFilter.AcceptedIsAFrame(frames);
    }

    lemma CandidateIsAFrame()
      requires Filtering()
      ensures filter.count > 0 ==> filter.candidate >= 0.0
    {
      SourceFilter.AcceptedIsAFrame(frames);
    }

    /** A jump pauses the source and forgets what the pulses before it had earned. */
    method HoldBack()
      requires Tuned() && Waiting() && Remembers()
      modifies `nearWait, `pauseStart, `pausedAt, `everPaused, `push, `ladder, `moves, `precisionRef, `precisionStamp,
               `pulseActive, `pulseEnd, `action, `command
      ensures Tuned() && PausedNow() && Waiting() && Learned() && ladder.band == old(ladder.band)
      ensures push == SourcePush.RESTED && ladder == SourceLadder.Reset(old(ladder))
    {
      hide Tuned, Waiting;
      Pause();
      pulseActive, pulseEnd := false, now;
      ForgetPulses();
    }

    method ForgetPulses()
      requires Tuned()
      modifies `push, `ladder, `moves, `precisionRef, `precisionStamp
      ensures Tuned() && push == SourcePush.RESTED && ladder == SourceLadder.Reset(old(ladder))
    {
      hide SourceLadder.After;
      push := push.(ref := NONE, boost := 0.0, stall := 0, nearLevel := 0);
      ResetPrecision();
      push := push.(width := SourcePush.WIDTH_MIN);
    }

    /** A pulse that brought the pressure to the target's reach is braked. */
    method BrakeArrived()
      modifies `pulseActive, `pulseEnd, `action, `command
      ensures if old(pulseActive) && SourceFilter.Abs(error) <= 3.0
              then action == BrakeNow && command == 0 && !pulseActive && pulseEnd == now
              else unchanged(`pulseActive, `pulseEnd, `action, `command)
    {
      if pulseActive && SourceFilter.Abs(error) <= MICRO_N {
        BrakeOutput();
        pulseActive, pulseEnd := false, now;
      }
    }

    lemma LearnedRemembers()
      requires Learned()
      ensures Remembers()
    {
    }

    /** Close to the target a fast change of pressure, or a pulse that arrived, is braked. */
    method WatchNear()
      requires Tuned() && Waiting() && Learned() && action == Wait && command == 0
      modifies `nearStamp, `nearLast, `nearWait, `pauseStart, `pausedAt, `everPaused, `push, `ladder, `moves,
               `precisionRef, `precisionStamp, `pulseActive, `pulseEnd, `action, `command
      ensures Tuned() && Waiting() && Learned() && ladder.band == old(ladder.band) &&
        (action == Wait || action == BrakeNow) && command == 0
      ensures nearStamp == stamp && nearLast == if stamp != old(nearStamp) then current else old(nearLast)
      ensures stamp != old(nearStamp) && !old(NearSteady(current)) ==>
        PausedNow() && push == SourcePush.RESTED && ladder == SourceLadder.Reset(old(ladder))
      ensures stamp == old(nearStamp) || old(NearSteady(current)) ==>
        && unchanged(`nearWait, `pauseStart, `ladder, `precisionRef, `precisionStamp, `push)
        && if stamp != old(nearStamp) && old(pulseActive) && SourceFilter.Abs(error) <= 3.0
           then !pulseActive && pulseEnd == now && action == BrakeNow
           else unchanged(`pulseActive, `pulseEnd, `action)
    {
      hide Tuned, Waiting, Learned, Remembers, SourceLadder.Reset, SourceFilter.Abs;
      if stamp != nearStamp {
        nearStamp := stamp;
        BrakeArrived();
        if nearLast >= 0.0 && current >= 0.4 * target as real && SourceFilter.Abs(current - nearLast) > NEAR_JUMP_N {
          LearnedRemembers();
          HoldBack();
        }
        nearLast := current;
      }
    }

    /** What a step may announce, before its settling time is added. */
    ghost predicate Announced()
      reads this
    {
      && command >= 0 && (action == Wait || action == Pulse || action == BrakeNow)
      && (action == Pulse ==> (mode == Micro || mode == Fine) && PulseFits(mode == Fine) && lastPositive)
      && (action == Pulse && (latched || mode == Fine) ==> PrecisionPulsed())
      && (action == Pulse && !latched && mode == Micro ==> OrdinaryPulsed() && error > PRECISION_ENTRY_N)
      && (action != Pulse && command != 0 ==>
        mode == Coarse && command == Admission.APPROACH_COMMAND && normalMs == 0 && !latched)
      && (action == Pulse || command != 0 ==> !nearWait && error == target as real - current)
    }

    /** Below its target the source never holds: it approaches until contact, then pulses. */
    method ChooseMode()
      requires error > 0.0 && (current >= CONTACT_N ==> contacted)
      modifies `mode
      ensures mode == (if error <= MICRO_N then Fine else if contacted then Micro else Coarse)
    {
      if !contacted && current < CONTACT_N && error > MICRO_N {
        mode := Coarse;
      } else if -1.0 <= error <= 0.0 {
        assert false;
      } else if error <= MICRO_N {
        mode := Fine;
      } else {
        mode := Micro;
      }
    }

    /** Decides by the error how to act, once the frame is accepted and no pause is running. */
    method Act()
      requires Tuned() && Waiting() && 0.0 <= current && error == target as real - current && error > 0.0
      requires (current >= CONTACT_N ==> contacted) && (latched ==> contacted)
      requires (action == Wait || action == BrakeNow) && command == 0 && normalMs == 0 && !nearWait
      modifies `mode, `ladder, `moves, `precisionRef, `precisionStamp, `latched, `push, `nearActive, `lastPositive,
               `pulseMs, `pulseSnapshot, `lowStamp, `lowFrames, `nearWait, `pauseStart, `pausedAt, `everPaused,
               `pulseStart, `pulseActive, `pulseEnd, `action, `command, `normalMs
      ensures Tuned() && Waiting() && ladder.band >= old(ladder.band) && (old(latched) ==> latched) &&
        (latched ==> contacted)
      ensures Announced() && mode != Hold
      ensures mode == (if error <= MICRO_N then Fine else if contacted then Micro else Coarse)
      ensures action == Pulse ==> !old(pulseActive) && old(Settled())
      ensures lastPositive == old(lastPositive) || (action == Pulse && lastPositive)
      ensures Obeys(old(Due()), old(action)) && (action == Pulse ==> Started())
      ensures old(Far(current)) ==> Far(current) && !nearWait && ladder.band == old(ladder.band)
    {
      hide Tuned, Waiting, Announced, PulseFits, NextLadder, NextPush, PrecisionPulsed, OrdinaryPulsed,
        SourceLadder.Reset, Settled,
        Paced;
      ChooseMode();
      if mode == Micro {
        MicroMode();
        ActedAnnounces();
      } else {
        Leave();
      }
    }

    /** Outside the ordinary pulses: the approach, or the last 3 N. */
    method Leave()
      requires Tuned() && Waiting() && 0.0 <= current && error == target as real - current && error > 0.0
      requires (mode == Coarse && !contacted && current < CONTACT_N && error > MICRO_N && !latched) ||
        (mode == Fine && error <= MICRO_N)
      requires (action == Wait || action == BrakeNow) && command == 0 && normalMs == 0 && !nearWait
      modifies `ladder, `moves, `precisionRef, `precisionStamp, `push, `nearActive, `lastPositive, `pulseMs,
               `pulseSnapshot, `lowStamp, `lowFrames, `nearWait, `pauseStart, `pausedAt, `everPaused, `pulseStart,
               `pulseActive, `pulseEnd, `action, `command, `normalMs, `mode
      ensures Tuned() && Waiting() && ladder.band >= old(ladder.band) && Announced() && mode == old(mode)
      ensures action == Pulse ==> !old(pulseActive) && old(Settled()) && Started()
      ensures if mode == Coarse
              then command == Admission.APPROACH_COMMAND && unchanged(`action, `nearWait, `latched) &&
                ladder.band == old(ladder.band)
              else action == if old(Due()) == Wait then old(action) else old(Due())
      ensures lastPositive == old(lastPositive) || (action == Pulse && lastPositive)
    {
      hide Tuned, Waiting, Announced, PulseFits, NextLadder, PrecisionPulsed, OrdinaryPulsed,
        SourceLadder.Reset, Settled, Paced;
      ForgetNear();
      if mode == Coarse {
        ForgetPrecision();
        CoarseMode();
        SeekingAnnounces();
      } else {
        FineMode();
        ActedAnnounces();
      }
    }

    lemma ActedAnnounces()
      requires (mode == Micro || mode == Fine) && error == target as real - current
      requires action == Pulse || action == BrakeNow || action == Wait
      requires action == Pulse ==> command > 0 && PulseFits(mode == Fine) && lastPositive && !nearWait
      requires action == Pulse && (latched || mode == Fine) ==> PrecisionPulsed()
      requires action == Pulse && !latched && mode == Micro ==> OrdinaryPulsed() && error > PRECISION_ENTRY_N
      requires action != Pulse ==> command == 0
      ensures Announced()
    {
      hide PulseFits, PrecisionPulsed, OrdinaryPulsed;
    }

    lemma SeekingAnnounces()
      requires mode == Coarse && command == Admission.APPROACH_COMMAND && normalMs == 0 && !latched && !nearWait
      requires action != Pulse && action != Approach && action != Off && error == target as real - current
      ensures Announced()
    {
      hide PulseFits, PrecisionPulsed, OrdinaryPulsed;
    }

    method ForgetNear()
      requires Tuned()
      modifies `nearActive, `push
      ensures Tuned() && !nearActive && push == old(push).(nearLevel := 0)
    {
      nearActive := false;
      push := push.(nearLevel := 0);
    }

    method ForgetPrecision()
      requires Tuned()
      modifies `ladder, `moves, `precisionRef, `precisionStamp
      ensures Tuned() && ladder == SourceLadder.Reset(old(ladder)) && ladder.band == old(ladder.band)
    {
      ResetPrecision();
    }

    /** The pause after a jump still runs. */
    predicate Pausing()
      reads `nearWait, `pauseStart, `now
    {
      nearWait && Minus(now, pauseStart) < 400
    }

    /** While the pause after a jump runs, brake. */
    method AwaitPause() returns (waiting: bool)
      requires Waiting()
      modifies `nearWait, `action, `command
      ensures Waiting() && nearWait == waiting == old(Pausing())
      ensures if waiting then old(nearWait) && action == BrakeNow && command == 0 else unchanged(`action, `command)
    {
      if nearWait {
        if Minus(now, pauseStart) < NEAR_WAIT_MS {
          BrakeOutput();
          return true;
        }
        MinusOfLow(clock, pausedAt);
        WrappedNeverLonger(clock, pausedAt);
        nearWait := false;
      }
      return false;
    }

    /** Wait out a pause, or act. */
    method Decide()
      requires Tuned() && Waiting() && Learned() && error == target as real - current && filter.count == 0
      requires (action == Wait || action == BrakeNow) && command == 0 && normalMs == 0
      modifies `ladder, `moves, `precisionRef, `precisionStamp, `latched, `push, `nearActive, `lastPositive, `pulseMs,
               `pulseSnapshot, `lowStamp, `lowFrames, `nearWait, `pauseStart, `pausedAt, `everPaused, `pulseStart,
               `pulseActive, `pulseEnd, `action, `command, `normalMs, `mode
      ensures Tuned() && Waiting() && Learned() && Announced()
      ensures ladder.band >= old(ladder.band) && (old(latched) ==> latched)
      ensures action == Pulse ==> !old(pulseActive) && old(Settled()) && Started()
      ensures lastPositive == old(lastPositive) || (action == Pulse && lastPositive)
      ensures if old(Pausing()) then action == BrakeNow && command == 0 && nearWait else Obeys(old(Due()), old(action))
      ensures !old(Pausing()) && old(Far(current)) ==> Far(current) && !nearWait && ladder.band == old(ladder.band)
      ensures !old(Pausing()) ==> mode == if error <= 3.0 then Fine else if contacted then Micro else Coarse
    {
      hide Tuned, Waiting, Announced, Settled, Obeys, Due, Far, Started, Pausing;
      var waiting := AwaitPause();
      if waiting {
        WaitingAnnounces();
      } else {
        Act();
      }
    }

    method Accept(raw: real)
      requires Learned() && 0.0 <= raw < target as real
      modifies `current, `contacted, `error
      ensures Learned() && current == raw && error == target as real - current
      ensures contacted == (old(contacted) || raw >= CONTACT_N)
    {
      current := raw;
      if current >= CONTACT_N { contacted := true; }
      error := target as real - current;
    }

    /** The pressure is near the one of the last frame watched, or far below the target. */
    predicate NearSteady(p: real)
      reads `nearLast, `target
    {
      nearLast < 0.0 || p < 0.4 * target as real || SourceFilter.Abs(p - nearLast) <= 20.0
    }

    /** The pulse braked on arrival at this very tick reads as none at all, tick 0 being its end. */
    predicate Arrived()
      reads `now, `error
    {
      now == 0 && SourceFilter.Abs(error) <= MICRO_N
    }

    /** A new pressure that leaps near the target. */
    predicate Jolted(p: real)
      reads `nearStamp, `stamp, `nearLast, `target
    {
      stamp != nearStamp && !NearSteady(p)
    }

    /** Control on an accepted pressure. */
    method Control(raw: real)
      requires Tuned() && Waiting() && Learned()
      requires 0.0 <= raw < target as real && filter.count == 0 && action == Wait && command == 0 && normalMs == 0
      modifies `ladder, `moves, `precisionRef, `precisionStamp, `latched, `push, `nearActive, `lastPositive, `pulseMs,
               `pulseSnapshot, `lowStamp, `lowFrames, `nearWait, `pauseStart, `pausedAt, `everPaused, `pulseStart,
               `pulseActive, `pulseEnd, `action, `command, `normalMs, `mode, `nearStamp, `nearLast, `contacted,
               `current, `error
      ensures Tuned() && Waiting() && Learned() && Announced()
      ensures (old(contacted) ==> contacted) && (old(latched) ==> latched) && old(ladder.band) <= ladder.band
      ensures old(lastPositive) ==> lastPositive
      ensures action == Pulse ==> if old(pulseActive) then Arrived() else old(Settled())
      ensures old(Pausing()) || old(Jolted(raw)) ==> action == BrakeNow && command == 0 && nearWait
      ensures nearStamp == stamp && (stamp != old(nearStamp) ==> nearLast == raw)
      ensures contacted == (old(contacted) || raw >= CONTACT_N) && (action == Pulse ==> Started())
      ensures !old(Pausing()) && stamp != old(nearStamp) && old(NearSteady(raw)) ==>
        Obeys(old(Response(raw, stamp, now, pulseActive, pulseEnd)), Wait) && Aimed(raw)
      ensures !old(Pausing()) && stamp != old(nearStamp) && old(NearSteady(raw)) && old(Far(raw)) ==>
        Far(raw) && !nearWait && ladder.band == old(ladder.band)
    {
      hide Tuned, Waiting, Announced, Learned, Settled, Far, NearSteady, Arrived, Started, WatchedVerdict, Due;
      if Arrives(raw, pulseActive) { ArrivedSeeksNothing(raw, stamp, now, pulseActive, pulseEnd); }
      Regard(raw);
      Decide();
    }

    /** The accepted pressure, with a pulse it ended or a jump it made braked. */
    method Regard(raw: real)
      requires Tuned() && Waiting() && Learned() && 0.0 <= raw < target as real && action == Wait && command == 0
      modifies `ladder, `moves, `precisionRef, `precisionStamp, `push, `nearWait, `pauseStart, `pausedAt, `everPaused,
               `pulseActive, `pulseEnd, `action, `command, `nearStamp, `nearLast, `contacted, `current, `error
      ensures Tuned() && Waiting() && Learned() && ladder.band == old(ladder.band) &&
        (action == Wait || action == BrakeNow) && command == 0
      ensures current == raw && error == target as real - raw && (old(contacted) ==> contacted)
      ensures contacted == (old(contacted) || raw >= CONTACT_N)
      ensures Settled() ==> Pausing() || pulseActive || (if old(pulseActive) then Arrived() else old(Settled()))
      ensures nearStamp == stamp && (stamp != old(nearStamp) ==> nearLast == raw)
      ensures old(Pausing()) || old(Jolted(raw)) ==> Pausing()
      ensures !old(Pausing()) && stamp != old(nearStamp) && old(NearSteady(raw)) ==>
        && !Pausing()
        && action == (if old(Arrives(raw, pulseActive)) then BrakeNow else Wait)
        && Due() == old(WatchedVerdict(raw, stamp, now, pulseActive, pulseEnd))
      ensures old(Far(raw)) ==> Far(raw)
    {
      hide Tuned, Waiting, Learned, Settled, NearSteady, Verdict;
      ghost var end, running := if Arrives(raw, pulseActive) then now else pulseEnd, pulseActive &&
        !Arrives(raw, pulseActive);
      Accept(raw);
      ghost var v := Verdict(raw, contacted, stamp, now, running, end);
      WatchNear();
      if pulseEnd == now { JustEnded(); }
    }

    lemma WaitingAnnounces()
      requires (action == Wait || action == BrakeNow) && command == 0
      ensures Announced()
    {
    }

    /** A new frame believed and, near the target, not far from the last watched one, with no pause running. */
    predicate Level(p: real, at: U32, tick: U32)
      reads `target, `filter, `filterStamp, `nearStamp, `nearLast, `nearWait, `pauseStart
    {
      && at != filterStamp && at != nearStamp && Believes(p) && NearSteady(p)
      && !(nearWait && Minus(tick, pauseStart) < 400)
    }

    /** A new frame not believed, or far from the last watched one near the target; and any while a pause runs. */
    predicate Alarming(p: real, at: U32, tick: U32)
      reads `target, `filter, `filterStamp, `nearStamp, `nearLast, `nearWait, `pauseStart
    {
      || (nearWait && Minus(tick, pauseStart) < 400)
      || (at != filterStamp && (!Believes(p) || (at != nearStamp && !NearSteady(p))))
    }

    /** A tick at which the source looks at frames. */
    predicate OnControl(tick: U32)
      reads `lastControl
    {
      Minus(tick, lastControl) >= 10
    }

    /** The mode for this pressure: approach until contact, fine in the last 3 N, micro in between. */
    predicate Aimed(p: real)
      reads `mode, `current, `error, `contacted, `target
    {
      current == p && error == target as real - p && mode == if error <= 3.0 then Fine else if contacted then Micro
        else Coarse
    }

    /** What is remembered of a frame decided on. */
    predicate Took(p: real, at: U32, tick: U32)
      reads `filter, `filterStamp, `nearStamp, `nearLast, `lastControl
    {
      filter == SourceFilter.Filter(p, 0, NONE) && filterStamp == nearStamp == at && nearLast == p &&
        lastControl == tick
    }

    /** Control on a frame the filter took; hold back while it doubts one. */
    method Use(raw: real)
      requires Tuned() && Waiting() && Remembers() && (filter.count == 0 ==> Learned())
      requires 0.0 <= raw < target as real && action == Wait && command == 0 && normalMs == 0
      modifies `ladder, `moves, `precisionRef, `precisionStamp, `latched, `push, `nearActive, `lastPositive, `pulseMs,
               `pulseSnapshot, `lowStamp, `lowFrames, `nearWait, `pauseStart, `pausedAt, `everPaused, `pulseStart,
               `pulseActive, `pulseEnd, `action, `command, `normalMs, `mode, `nearStamp, `nearLast, `contacted,
               `current, `error
      ensures Tuned() && Waiting() && Learned() && Announced()
      ensures (old(contacted) ==> contacted) && (old(latched) ==> latched) && old(ladder.band) <= ladder.band
      ensures old(lastPositive) ==> lastPositive
      ensures action == Pulse ==> if old(pulseActive) then Arrived() else old(Settled())
      ensures action == Pulse ==> Started()
      ensures old(Pausing()) || filter.count > 0 || old(Jolted(raw)) ==> action == BrakeNow && command == 0 && nearWait
      ensures filter.count == 0 ==>
        && nearStamp == stamp && (stamp != old(nearStamp) ==> nearLast == raw)
        && contacted == (old(contacted) || raw >= CONTACT_N)
      ensures filter.count == 0 && !old(Pausing()) && stamp != old(nearStamp) && old(NearSteady(raw)) ==>
        && Obeys(old(Response(raw, stamp, now, pulseActive, pulseEnd)), Wait) && Aimed(raw)
        && (old(Far(raw)) ==> Far(raw) && !nearWait && ladder.band == old(ladder.band))
    {
      hide Tuned, Waiting, Remembers, Announced, Settled, Arrived, NearSteady, Response, Obeys, Started, Far, Jolted,
        Pausing, SourceLadder.Reset;
      if filter.count > 0 {
        HoldBack();
        nearActive := false;
        WaitingAnnounces();
      } else {
        Control(raw);
      }
    }

    method Process()
      requires Tuned() && Filtering() && Waiting() && Learned() && 0.0 <= actual < target as real
      requires action == Wait && command == 0 && normalMs == 0
      modifies `ladder, `moves, `precisionRef, `precisionStamp, `latched, `push, `nearActive, `lastPositive, `pulseMs,
               `pulseSnapshot, `lowStamp, `lowFrames, `nearWait, `pauseStart, `pausedAt, `everPaused, `pulseStart,
               `pulseActive, `pulseEnd, `action, `command, `normalMs, `mode, `nearStamp, `nearLast, `contacted,
               `current, `error, `filter, `filterStamp, `frames
      ensures Tuned() && Filtering() && Waiting() && Learned() && Announced()
      ensures (old(contacted) ==> contacted) && (old(latched) ==> latched) && old(ladder.band) <= ladder.band
      ensures old(lastPositive) ==> lastPositive
      ensures frames == old(frames) || frames == old(frames) + [actual]
      ensures action == Pulse ==> if old(pulseActive) then Arrived() else old(Settled())
      ensures filterStamp == stamp && (action == Pulse ==> Started())
      ensures old(Alarming(actual, stamp, now)) ==> action == BrakeNow && command == 0 && nearWait
      ensures old(Level(actual, stamp, now)) ==>
        && Obeys(old(Response(actual, stamp, now, pulseActive, pulseEnd)), Wait) && Aimed(actual)
        && filter == SourceFilter.Filter(actual, 0, NONE) && nearStamp == stamp && nearLast == actual
        && contacted == (old(contacted) || actual >= CONTACT_N)
        && (old(Far(actual)) ==> Far(actual) && !nearWait && ladder.band == old(ladder.band))
    {
      hide Tuned, Waiting, Filtering, Remembers, Announced, Settled, Arrived, NearSteady, Response, Obeys, Started, Far,
        Believes, SourceFilter.Filtered;
      var raw := FilterFrame();
      Use(raw);
    }

    method Update()
      requires Valid() && Minus(now, stamp) <= Admission.AGE_MS && 0.0 <= actual < target as real
      requires action == Wait && command == 0 && normalMs == 0
      modifies `ladder, `moves, `precisionRef, `precisionStamp, `latched, `push, `nearActive, `lastPositive, `pulseMs,
               `pulseSnapshot, `lowStamp, `lowFrames, `nearWait, `pauseStart, `pausedAt, `everPaused, `pulseStart,
               `pulseActive, `pulseEnd, `action, `command, `normalMs, `mode, `nearStamp, `nearLast, `contacted,
               `current, `error, `filter, `filterStamp, `frames, `lastControl
      ensures Valid() && Announced()
      ensures (old(contacted) ==> contacted) && (old(latched) ==> latched) && old(ladder.band) <= ladder.band
      ensures old(lastPositive) ==> lastPositive
      ensures frames == old(frames) || frames == old(frames) + [actual]
      ensures action == Pulse ==> if old(pulseActive) then Arrived() else old(Settled())
      ensures if !old(OnControl(now)) then action == Wait && command == 0 &&
        unchanged(`lastControl, `filter, `ladder, `push)
              else lastControl == now
      ensures action == Pulse ==> Started()
      ensures old(OnControl(now)) && old(Alarming(actual, stamp, now)) ==>
        action == BrakeNow && command == 0 && nearWait
      ensures old(OnControl(now)) && old(Level(actual, stamp, now)) ==>
        && Obeys(old(Response(actual, stamp, now, pulseActive, pulseEnd)), Wait) && Took(actual, stamp, now)
        && Aimed(actual)
        && contacted == (old(contacted) || actual >= CONTACT_N)
        && (old(Far(actual)) ==> Far(actual) && !nearWait && ladder.band == old(ladder.band))
    {
      hide Tuned, Waiting, Filtering, Learned, Settled, Announced, Response, Obeys, Started, Far, Level, Alarming;
      if Minus(now, stamp) > FEEDBACK_TIMEOUT_MS { assert false; }
      if Minus(now, lastControl) < INTERVAL_MS { WaitingAnnounces(); return; }
      lastControl := now;
      Process();
    }

    /** The true clock never runs backwards, whatever its 32-bit word does. */
    method SetClock(tick: U32, ghost t: int)
      requires Waiting() && tick == Low(t) && clock <= t
      modifies `now, `clock
      ensures Waiting() && now == tick && clock == t
    {
      now := tick;
      clock := t;
    }

    method ClearDecision()
      modifies `action, `command, `normalMs
      ensures action == Wait && command == 0 && normalMs == 0
    {
      action, command, normalMs := Wait, 0, 0;
    }

    method TakeFrame(measured: real, next: U64, received: U32, running: bool, ended: U32)
      modifies `haveSequence, `sequence, `stamp, `actual, `pulseActive, `pulseEnd
      ensures haveSequence && sequence == next && stamp == received
      ensures actual == measured && pulseActive == running && pulseEnd == ended
    {
      haveSequence, sequence := true, next;
      stamp, actual := received, measured;
      pulseActive, pulseEnd := running, ended;
    }

    /** A decision names the pressure it was made on, its mode, and the phase: from 50 N on the taper. */
    predicate Told(d: Decision, p: real)
      reads `target, `contacted
    {
      var near := target as real - p;
      && d.filtered == p
      && d.mode == (if near <= 3.0 then Admission.MODE_FINE else if contacted then Admission.MODE_MICRO
                    else Admission.MODE_COARSE)
      && d.phase == (if d.mode == Admission.MODE_COARSE then Admission.PHASE_APPROACH
                     else if near <= 50.0 then Admission.PHASE_TAPER else Admission.PHASE_BUILD)
    }

    method Conclude() returns (d: Decision)
      requires Tuned() && Learned() && Announced()
      modifies `action
      ensures Tuned() && Learned()
      ensures d.command == command && d.normalMs == normalMs && d.settleMs == Settle() && d.latched == latched
      ensures d.action == action == if mode == Coarse && command == Admission.APPROACH_COMMAND then Approach
        else old(action)
      ensures d.action == Pulse || d.action == Approach ==>
        command > 0 && Admission.Envelope(RequestOf(d, target)) && !nearWait
      ensures d.action == Pulse || d.action == Approach ==>
        (d.action == Approach <==> d.phase == Admission.PHASE_APPROACH)
      ensures d.action != Off && d.command >= 0 && ByLadder(d)
      ensures d.action != Pulse && d.action != Approach ==> d.command == 0
      ensures forall v :: old(Obeys(v, Wait)) ==> d.action == v
      ensures old(action) == Pulse ==> d.action == Pulse
      ensures d.action == Pulse ==> error == target as real - d.filtered
      ensures d.phase == Admission.PHASE_APPROACH <==> d.mode == Admission.MODE_COARSE
      ensures forall p :: Aimed(p) ==> Told(d, p)
    {
      hide Tuned, Learned, Announced, Admission.Envelope, ByLadder;
      var seeks := mode == Coarse && command == Admission.APPROACH_COMMAND;
      var m := if mode == Coarse then Admission.MODE_COARSE else if mode == Fine then Admission.MODE_FINE
        else Admission.MODE_MICRO;
      var phase := if m == Admission.MODE_COARSE then Admission.PHASE_APPROACH
                   else if error <= 50.0 then Admission.PHASE_TAPER else Admission.PHASE_BUILD;
      d := Decision(if seeks then Approach else action, m, phase, normalMs,
                    if lastPositive && ladder.band >= 2 then 400 else 30, command, latched, current, nearWait);
      DecisionFits(d);
      action := d.action;
    }

    /** What the fields announce, made a decision, is inside the envelope. */
    lemma DecisionFits(d: Decision)
      requires Tuned() && Learned() && Announced()
      requires d.action == if mode == Coarse && command == Admission.APPROACH_COMMAND then Approach else action
      requires d.mode == if mode == Coarse then Admission.MODE_COARSE else if mode == Fine then Admission.MODE_FINE
        else Admission.MODE_MICRO
      requires d.phase == if mode == Coarse then Admission.PHASE_APPROACH
        else if error <= 50.0 then Admission.PHASE_TAPER else Admission.PHASE_BUILD
      requires d.command == command && d.normalMs == normalMs && d.latched == latched && d.filtered == current
      requires d.settleMs == 400 || d.settleMs == 30
      ensures d.action != Off && d.command >= 0 && ByLadder(d)
      ensures d.action == Pulse || d.action == Approach ==>
        d.command > 0 && Admission.Envelope(RequestOf(d, target)) && !nearWait &&
          (d.action == Approach <==> d.phase == Admission.PHASE_APPROACH)
      ensures d.action != Pulse && d.action != Approach ==> d.command == 0
      ensures action == Pulse ==> d.action == Pulse && error == target as real - d.filtered
    {
    }

    /** In precision work a pulse is exactly the one the ladder stands for at the accepted pressure, and in the ordinary
        work before it the one the boost stands for. */
    ghost predicate ByLadder(d: Decision)
      reads `ladder, `push, `target, `current
    {
      d.action == Pulse ==>
        var near := target as real - current;
        if d.latched || d.mode == Admission.MODE_FINE then
          && d.command == SourceLadder.Volts(ladder, target, near)
          && d.normalMs == SourceLadder.Width(ladder, target, near)
        else
          && near > 40.0 && d.command == Millivolts(BoostedVolts(near, push))
          && d.normalMs == SourcePush.Width(push, near <= COARSE_N, target <= SourceLadder.LOW_TARGET)
    }

    predicate Refused(measured: real, next: U64, received: U32, tick: U32)
      reads `haveSequence, `sequence
    {
      measured < 0.0 || Minus(tick, received) > Admission.AGE_MS || (haveSequence && !After(next, sequence))
    }

    /** A decision to pulse or approach is admissible and waits out every pause. */
    ghost predicate Sound(d: Decision)
      reads this
    {
      d.action == Pulse || d.action == Approach ==>
        && d.command > 0 && Admission.Envelope(RequestOf(d, target))
        && (d.action == Approach <==> d.phase == Admission.PHASE_APPROACH)
        && filter.count == 0 && (everPaused ==> clock - pausedAt >= NEAR_WAIT_MS)
    }

    lemma SoundOf(d: Decision)
      requires Valid()
      requires d.action == Pulse || d.action == Approach ==>
        && d.command > 0 && Admission.Envelope(RequestOf(d, target)) && !nearWait
        && (d.action == Approach <==> d.phase == Admission.PHASE_APPROACH)
      ensures Sound(d)
    {
      hide Tuned, Filtering, Remembers, Admission.Envelope;
    }

    method Judge() returns (d: Decision)
      requires Valid() && Minus(now, stamp) <= Admission.AGE_MS && 0.0 <= actual < target as real
      requires action == Wait && command == 0 && normalMs == 0
      modifies `ladder, `moves, `precisionRef, `precisionStamp, `latched, `push, `nearActive, `lastPositive, `pulseMs,
               `pulseSnapshot, `lowStamp, `lowFrames, `nearWait, `pauseStart, `pausedAt, `everPaused, `pulseStart,
               `pulseActive, `pulseEnd, `action, `command, `normalMs, `mode, `nearStamp, `nearLast, `contacted,
               `current, `error, `filter, `filterStamp, `frames, `lastControl, `asked
      ensures Valid() && Sound(d) && ByLadder(d) && d.action != Off && d.command >= 0
      ensures (old(contacted) ==> contacted) && (old(latched) ==> latched) && old(ladder.band) <= ladder.band
      ensures frames == old(frames) || frames == old(frames) + [actual]
      ensures d.action == Pulse ==> d.settleMs == asked && old(OnTime(d, now, pulseActive, pulseEnd))
      ensures d.action == Pulse ==> Started() && d.settleMs == Settle()
      ensures !old(OnControl(now)) ==> d.action == Wait
      ensures old(OnControl(now)) && old(Alarming(actual, stamp, now)) ==> d.action == BrakeNow && nearWait
      ensures old(OnControl(now)) && old(Level(actual, stamp, now)) ==>
        && d.action == old(Response(actual, stamp, now, pulseActive, pulseEnd)) && Took(actual, stamp, now)
        && Told(d, actual) && contacted == (old(contacted) || actual >= CONTACT_N)
        && (old(Far(actual)) ==> Far(actual) && !nearWait && ladder.band == old(ladder.band))
    {
      hide Tuned, Filtering, Waiting, Learned, Announced, Settled, Sound, ByLadder, Waited, Response, Obeys, Started,
        Far,
        Level, Alarming, Took, OnControl;
      SettledWaits();
      Update();
      d := Announce();
    }

    method Announce() returns (d: Decision)
      requires Valid() && Announced()
      modifies `action, `asked
      ensures Valid() && Sound(d) && ByLadder(d) && d.action != Off && d.command >= 0
      ensures d.action == Pulse <==> old(action) == Pulse
      ensures old(command) == 0 ==> d.action == old(action)
      ensures forall v :: old(Obeys(v, Wait)) ==> d.action == v
      ensures forall p :: Aimed(p) ==> Told(d, p)
      ensures d.action == Pulse ==>
        d.settleMs == asked == Settle() && action == Pulse && error == target as real - d.filtered
    {
      hide Tuned, Filtering, Waiting, Announced, Sound, ByLadder, Admission.Envelope, Obeys;
      d := Conclude();
      SoundOf(d);
      if d.action == Pulse {
        asked := d.settleMs;
        SoundOf(d);
      }
    }

    /** The settling time given with the last pulse is over, or no pulse has ended. */
    ghost predicate Waited()
      reads `pulseEnd, `now, `asked
    {
      pulseEnd == 0 || Minus(now, pulseEnd) >= asked
    }

    lemma SettledWaits()
      requires Valid()
      ensures Settled() ==> Waited()
    {
    }

    /** The accepted frame and its tick are in place, the decision still blank. */
    method Receive(measured: real, next: U64, received: U32, tick: U32, running: bool, ended: U32, ghost t: int)
      requires Valid() && tick == Low(t) && clock <= t
      modifies `haveSequence, `sequence, `stamp, `actual, `pulseActive, `pulseEnd, `now, `clock, `action, `command,
               `normalMs
      ensures Valid() && haveSequence && sequence == next && stamp == received && now == tick && clock == t
      ensures actual == measured && pulseActive == running && pulseEnd == ended
      ensures action == Wait && command == 0 && normalMs == 0
    {
      hide Tuned, Filtering, Learned, Waiting;
      SetClock(tick, t);
      ClearDecision();
      TakeFrame(measured, next, received, running, ended);
    }

    lemma NothingIsSound()
      ensures Sound(NOTHING) && ByLadder(NOTHING)
    {
    }

    /** A frame that is not refused: at the target, or judged. */
    method Answer() returns (d: Decision)
      requires Valid() && Minus(now, stamp) <= Admission.AGE_MS && 0.0 <= actual && action == Wait && command == 0 &&
        normalMs == 0
      modifies `ladder, `moves, `precisionRef, `precisionStamp, `latched, `push, `nearActive, `lastPositive, `pulseMs,
               `pulseSnapshot, `lowStamp, `lowFrames, `nearWait, `pauseStart, `pausedAt, `everPaused, `pulseStart,
               `pulseActive, `pulseEnd, `action, `command, `normalMs, `mode, `nearStamp, `nearLast, `contacted,
               `current, `error, `filter, `filterStamp, `frames, `lastControl, `asked
      ensures Valid() && Sound(d) && ByLadder(d) && d.command >= 0
      ensures d.action == Off <==> actual >= target as real
      ensures d.action == Pulse ==> d.settleMs == asked && old(OnTime(d, now, pulseActive, pulseEnd))
      ensures (old(contacted) ==> contacted) && (old(latched) ==> latched) && old(ladder.band) <= ladder.band
      ensures frames == old(frames) || frames == old(frames) + [actual]
      ensures d.action == Pulse ==> Started() && d.settleMs == Settle()
      ensures actual < target as real ==>
        && (!old(OnControl(now)) ==> d.action == Wait)
        && (old(OnControl(now)) && old(Alarming(actual, stamp, now)) ==> d.action == BrakeNow && nearWait)
        && (old(OnControl(now)) && old(Level(actual, stamp, now)) ==>
            && d.action == old(Response(actual, stamp, now, pulseActive, pulseEnd)) && Took(actual, stamp, now)
            && Told(d, actual) && contacted == (old(contacted) || actual >= CONTACT_N)
            && (old(Far(actual)) ==> Far(actual) && !nearWait && ladder.band == old(ladder.band)))
    {
      hide Tuned, Filtering, Learned, Waiting, OnTime, Sound, Admission.Envelope, Response, Started, Far, Level,
        Alarming,
        Took, OnControl;
      if actual >= target as real {
        d := NOTHING.(action := Off);
        SoundOf(d);
        return;
      }
      d := Judge();
    }

    /** The settling time asked for with the last pulse is over. It is not waited for when no pulse ended, as a tick
        of 0 says; nor by a pulse that arrived in the last 3 N while one ran, when that is braked on tick 0. */
    ghost predicate OnTime(d: Decision, tick: U32, running: bool, ended: U32)
      reads `asked, `target
    {
      if running then tick == 0 && SourceFilter.Abs(target as real - d.filtered) <= MICRO_N
      else ended == 0 || Minus(tick, ended) >= asked
    }

    /** A frame that is not refused. */
    method Accepted(measured: real, next: U64, received: U32, tick: U32, running: bool, ended: U32, ghost t: int)
      returns (d: Decision)
      requires Valid() && tick == Low(t) && clock <= t && measured >= 0.0 && Minus(tick, received) <= Admission.AGE_MS
      modifies this
      ensures Valid() && target == old(target) && Sound(d) && ByLadder(d) && d.command >= 0
      ensures clock == t && haveSequence && sequence == next
      ensures d.action == Off <==> measured >= target as real
      ensures d.action == Pulse ==> d.settleMs == asked && old(OnTime(d, tick, running, ended))
      ensures (old(contacted) ==> contacted) && (old(latched) ==> latched) && old(ladder.band) <= ladder.band
      ensures frames == old(frames) || frames == old(frames) + [measured]
      ensures d.action == Pulse ==> Started() && d.settleMs == Settle() && stamp == received && now == tick
      ensures measured < target as real ==>
        && (!old(OnControl(tick)) ==> d.action == Wait)
        && (old(OnControl(tick)) && old(Alarming(measured, received, tick)) ==> d.action == BrakeNow && nearWait)
        && (old(OnControl(tick)) && old(Level(measured, received, tick)) ==>
            && d.action == old(Response(measured, received, tick, running, ended)) && Took(measured, received, tick)
            && Told(d, measured) && contacted == (old(contacted) || measured >= CONTACT_N)
            && (old(Far(measured)) ==> Far(measured) && !nearWait && ladder.band == old(ladder.band)))
    {
      hide Valid, OnTime, Sound, ByLadder, Minus, Low, Settle, Response, Started, Far, Level, Alarming, Took,
        OnControl;
      Receive(measured, next, received, tick, running, ended, t);
      d := Answer();
    }

    /** One frame: refused, at the target, or judged. Every pulse and approach it decides on is inside the
        executor's envelope, waits out every pause and its settling time, and never pushes backwards; and a
        frame with nothing in the way of an ordinary pulse is pulsed on. */
    method Step(measured: real, next: U64, received: U32, tick: U32, running: bool, ended: U32, ghost t: int)
      returns (d: Decision)
      requires Valid() && tick == Low(t) && clock <= t
      modifies this
      ensures Valid() && target == old(target) && Sound(d) && ByLadder(d) && d.command >= 0
      ensures old(Refused(measured, next, received, tick)) ==>
        d == NOTHING && ladder == old(ladder) && push == old(push) && filter == old(filter) && frames == old(frames) &&
          asked == old(asked)
      ensures !old(Refused(measured, next, received, tick)) ==> clock == t && haveSequence && sequence == next
      ensures d.action == Off <==> !old(Refused(measured, next, received, tick)) && measured >= target as real
      ensures d.action == Pulse ==> d.settleMs == asked && old(OnTime(d, tick, running, ended))
      ensures (old(contacted) ==> contacted) && (old(latched) ==> latched) && old(ladder.band) <= ladder.band
      ensures frames == old(frames) || frames == old(frames) + [measured]
      ensures d.action == Pulse ==> Started() && d.settleMs == Settle() && stamp == received && now == tick
      ensures !old(Refused(measured, next, received, tick)) && measured < target as real ==>
        && (!old(OnControl(tick)) ==> d.action == Wait)
        && (old(OnControl(tick)) && old(Alarming(measured, received, tick)) ==> d.action == BrakeNow && nearWait)
        && (old(OnControl(tick)) && old(Level(measured, received, tick)) ==>
            && d.action == old(Response(measured, received, tick, running, ended)) && Took(measured, received, tick)
            && Told(d, measured) && contacted == (old(contacted) || measured >= CONTACT_N)
            && (old(Far(measured)) ==> Far(measured) && !nearWait && ladder.band == old(ladder.band)))
    {
      hide Valid, OnTime, Sound, ByLadder, After, Minus, Low, Settle, Response, Started, Far, Level, Alarming, Took,
        OnControl;
      if measured < 0.0 || Minus(tick, received) > Admission.AGE_MS || (haveSequence && !After(next, sequence)) {
        NothingIsSound();
        return NOTHING;
      }
      d := Accepted(measured, next, received, tick, running, ended, t);
    }
  }

  /** A session of 1000 N at 500 N. Its first frame is pulsed on; 10 ms later that pulse has ended, and `wait` ms after
      the end the next frame comes. It is pulsed on once the 30 ms asked for are over, or at once if the
      pulse ended on tick 0. */
  method PulsedAgain(ended: U32, wait: nat) returns (first: Decision, second: Decision)
    requires ended != 10 && wait <= 1000
    ensures first.action == Pulse && first.settleMs == COOLDOWN_MS
    ensures second.action == Pulse <==> ended == 0 || wait >= first.settleMs
  {
    hide Source.Valid, Source.Sound, Source.ByLadder, Admission.Envelope, Minus, Plus, Low;
    var start, again := Minus(ended, 10), Plus(ended, wait);
    ghost var t := ended + WORD;
    Ticks(ended, wait, t);
    var source := new Source(1000, start, t - 10);
    assert source.OnControl(start) && source.Level(500.0, start, start) && source.Far(500.0);
    first := source.Step(500.0, 1, start, start, false, 0, t - 10);
    assert source.OnControl(again) && source.Level(500.0, again, again) && source.Settle() == COOLDOWN_MS;
    second := source.Step(500.0, 2, again, again, false, ended, t + wait);
  }

  lemma Ticks(ended: U32, wait: nat, t: int)
    requires t == ended + WORD && ended != 10 && wait <= 1000
    ensures var start, again := Minus(ended, 10), Plus(ended, wait);
      && start == Low(t - 10) && again == Low(t + wait) && start != 0 && start != again
      && Minus(start, start) == 0 && Minus(again, again) == 0 && Minus(start, Minus(start, 10)) == 10
      && Minus(again, start) == wait + 10 && Minus(again, ended) == wait
  {
  }

  /** The executor's caps are the source's own: a stall that does not end comes to each of them. Only above 2200 N and
      from 800 N to 1500 N does the source stop 2 ms short. */
  lemma CapsAreReached(r: Admission.Request, ref: real, pressures: seq<real>)
    requires 1 <= r.target <= 3000 && ref >= 0.0 && |pressures| >= 36
    requires SourcePush.Rising(ref, pressures, -3000.0, 1.0)
    ensures r.precision || r.mode == Admission.MODE_FINE ==>
      var l := SourceLadder.StalledLadder(60, 0, r.target, false);
      && Admission.CommandCap(r) == SourceLadder.Volts(l, r.target, 30.0)
      && Admission.WidthCap(r) == SourceLadder.Width(l, r.target, 30.0) +
           (if r.target >= 800 && !(1500 <= r.target <= 2200) then 2 else 0)
    ensures !r.precision && r.mode != Admission.MODE_FINE ==>
      var near, low := r.phase == Admission.PHASE_TAPER, r.target <= 200;
      var p := SourcePush.Answered(SourcePush.RESTED.(ref := ref), pressures, near);
      && Admission.CommandCap(r) == Millivolts(SourcePush.Applied(MicroBase(50.0), p.boost, p.nearLevel, near, low))
      && Admission.WidthCap(r) == SourcePush.Width(p, near, low)
  {
    hide SourcePush.Rising, SourcePush.Answered, SourcePush.Applied, SourcePush.Width, SourceLadder.StalledLadder,
      SourceLadder.Volts, SourceLadder.Width, MicroBase;
    BaseIsLinear(50.0);
    if r.precision || r.mode == Admission.MODE_FINE {
      if r.target < 800 {
        SourceLadder.StalledPulse(60, 0, r.target, 30.0, false);
      } else {
        SourceLadder.StalledHighVolts(60, 0, r.target, 30.0, false);
        SourceLadder.StalledHighWidth(60, 0, r.target, 30.0, false);
      }
    } else {
      var near := r.phase == Admission.PHASE_TAPER;
      RisesLess(ref, pressures);
      SourcePush.StalledPulse(SourcePush.RESTED.(ref := ref), pressures, -3000.0, near, MicroBase(50.0),
        r.target <= 200);
    }
  }

  lemma {:induction false} RisesLess(ref: real, pressures: seq<real>)
    requires SourcePush.Rising(ref, pressures, -3000.0, 1.0)
    ensures SourcePush.Rising(ref, pressures, -3000.0, 2.0)
  {
    if |pressures| > 0 { RisesLess(ref, pressures[..|pressures| - 1]); }
  }

  /** The bare voltage is 0.8 V up to 3 N from the target, 3 V from 50 N on, and on the straight line in between. */
  lemma BaseIsLinear(error: real)
    ensures 0.8 <= MicroBase(error) <= 3.0
    ensures error <= 3.0 ==> MicroBase(error) == 0.8
    ensures 3.0 <= error <= 50.0 ==> 47.0 * (MicroBase(error) - 0.8) == 2.2 * (error - 3.0)
    ensures error >= 50.0 ==> MicroBase(error) == 3.0
  {
  }

  /** The command is the voltage to the nearest millivolt, halves rounded up. */
  lemma NearestMillivolt(v: real)
    ensures -0.5 < Millivolts(v) as real - 1000.0 * v <= 0.5
  {
  }
}
