/** The precision ladder near the target: how stalls, good rises and jumps move it, and the
    pulse it stands for. Voltages are whole multiples of 250 mV; pressures are in newtons. */
module SourceLadder {
  const MAX_LEVEL := 32
  const MAX_EXTRA := 3
  const MAX_ESCAPE := 26
  const ESCAPE_ARM := 6
  const NO_RISE_MAX := 250
  const STEP_MV := 250

  const MICRO_N := 3.0
  const FINAL_N := 10.0
  const MID_N := 20.0
  const TARGET_RISE_N := 2.0
  const PAUSE_RISE_N := 4.0

  const LOW_TARGET := 200
  const HIGH_TARGET := 800
  const HEAVY_MIN := 1500
  const HEAVY_MAX := 2200

  datatype Ladder = Ladder(level: nat, extra: nat, escape: nat, noRise: nat, stall: nat, band: nat)

  const BOTTOM := Ladder(0, 0, 0, 0, 0, 0)

  predicate InRange(l: Ladder) {
    && l.level <= MAX_LEVEL && l.extra <= MAX_EXTRA && l.escape <= MAX_ESCAPE
    && l.noRise <= NO_RISE_MAX && l.stall <= 1 && l.band <= 3
  }

  function Min(a: int, b: int): int {
    if a <= b then a else b
  }

  function Less(a: nat, b: nat): nat {
    if a > b then a - b else 0
  }

  function Reset(l: Ladder): Ladder {
    BOTTOM.(band := l.band)
  }

  function NoRiseStep(rise: real): nat {
    if rise <= -3.0 then 2 else 1
  }

  /** No useful rise: arm the escape, and every second stall climb one rung (two for a high target). */
  function Climb(l: Ladder, rise: real, target: nat, latched: bool): Ladder {
    var step := NoRiseStep(rise);
    var noRise := Min(l.noRise + step, NO_RISE_MAX);
    var armed := (latched || l.band > 0) && noRise >= ESCAPE_ARM && noRise / 2 > l.noRise / 2 && l.escape < MAX_ESCAPE;
    var m := l.(noRise := noRise, escape := if armed then l.escape + 1 else l.escape, stall := l.stall + step);
    if m.stall < 2 then m
    else if m.level < MAX_LEVEL then
      m.(stall := 0, level := Min(m.level + (if target >= HIGH_TARGET then 2 else 1), MAX_LEVEL))
    else m.(stall := 0, extra := Min(m.extra + 1, MAX_EXTRA))
  }

  /** Too much rise: back off. */
  function Slacken(l: Ladder, rise: real): Ladder {
    var big := rise > PAUSE_RISE_N;
    l.(stall := 0, noRise := 0, escape := Less(l.escape, if big then 3 else 2),
       extra := Less(l.extra, if big then 2 else 1), level := Less(l.level, if big then 3 else 2))
  }

  /** The answer of one new frame to the last pulse. */
  function Observe(l: Ladder, rise: real, target: nat, latched: bool): Ladder {
    if rise < 1.0 then Climb(l, rise, target, latched)
    else if rise <= TARGET_RISE_N then l.(stall := 0, noRise := 0)
    else Slacken(l, rise)
  }

  /** A rise after which the source waits instead of pulsing. */
  predicate MustPause(rise: real, error: real) {
    rise > PAUSE_RISE_N || (error <= FINAL_N && rise > TARGET_RISE_N)
  }

  function Band(error: real): nat {
    if error <= MICRO_N then 3 else if error <= FINAL_N then 2 else if error <= MID_N then 1 else 0
  }

  function EntryLevel(band: nat): nat {
    if band == 1 then 8 else if band == 2 then 6 else 4
  }

  predicate Effective(rise: real) {
    1.0 <= rise <= TARGET_RISE_N
  }

  /** Reaching a tighter band than ever: only a high target pushed effectively keeps its rung. */
  function Tighten(l: Ladder, error: real, rise: real, target: nat): Ladder {
    var band := Band(error);
    if band <= l.band then l else
    var m := l.(band := band, noRise := 0, stall := 0);
    if target >= HIGH_TARGET && Effective(rise) then m
    else m.(escape := 0, extra := 0, level := Min(m.level, EntryLevel(band)))
  }

  predicate Heavy(target: nat) {
    HEAVY_MIN <= target <= HEAVY_MAX
  }

  predicate MidHigh(target: nat) {
    HIGH_TARGET <= target < HEAVY_MIN
  }

  function One(reached: bool): nat {
    if reached then 1 else 0
  }

  function StartMv(target: nat, error: real): nat {
    if target <= LOW_TARGET then 2000
    else if target < HIGH_TARGET then 2500
    else if error <= FINAL_N then 6000 else 4000
  }

  function CapMv(l: Ladder, target: nat, error: real): nat {
    var high := target >= HIGH_TARGET;
    var free := (match l.band
                 case 0 => 5500
                 case 1 => 5000
                 case 2 => if high then 5500 else 4500
                 case _ => if high then 5000 else 4000) + STEP_MV * l.escape;
    var cap := if high && error <= FINAL_N && free < 6000 then 6000 else free;
    Min(cap, if target <= LOW_TARGET then 5500 else if high then 12000 else 7000)
  }

  function Volts(l: Ladder, target: nat, error: real): nat {
    Min(StartMv(target, error) + STEP_MV * l.level, CapMv(l, target, error))
  }

  function WantMs(l: Ladder, target: nat, error: real): nat {
    var v := l.level;
    var high := target >= HIGH_TARGET;
    (if high then 3 else 2) + One(v >= 4) + One(v >= 8) + One(v >= 12)
    + (if LOW_TARGET < target < HIGH_TARGET then One(v >= 18) + One(v >= 24) + One(v >= 30) else 0)
    + (if high && error > FINAL_N then One(v >= 16) + One(v >= 22) + One(v >= 28) else 0)
    + (if Heavy(target) then One(v >= 20) + One(v >= 26) else 0)
    + (if MidHigh(target) && error <= FINAL_N then 1 else 0)
    + l.extra
  }

  function BandMs(band: nat, e: nat): nat {
    match band
    case 0 => 5 + One(e >= 4) + One(e >= 8)
    case 1 => 4 + One(e >= 4) + One(e >= 8) + One(e >= 12)
    case 2 => 3 + One(e >= 4) + One(e >= 8) + One(e >= 12)
    case _ => 3 + One(e >= 6) + One(e >= 10) + One(e >= 12)
  }

  /** The width the escape steps have unlocked. */
  function FreeMs(l: Ladder, target: nat): nat {
    var e := l.escape;
    BandMs(l.band, e)
    + (if target >= HIGH_TARGET then One(e >= 16) + One(e >= 20) + One(e >= 20) + One(e >= 23) + One(e >= 26)
       else if target > LOW_TARGET then One(e >= 16) + One(e >= 22) else 0)
    + (if Heavy(target) then One(e >= 20) + One(e >= 26) else 0)
  }

  function MaxMs(target: nat, error: real): nat {
    var wide := (if target <= LOW_TARGET then 4 else if target >= HIGH_TARGET then 12 else 8)
                + (if Heavy(target) then 2 else 0);
    if error <= FINAL_N && target >= HIGH_TARGET
    then Min(wide, 5 + (if Heavy(target) then 3 else 0) + (if MidHigh(target) then 1 else 0))
    else wide
  }

  function Width(l: Ladder, target: nat, error: real): nat {
    Min(WantMs(l, target, error), Min(FreeMs(l, target), MaxMs(target, error)))
  }

  /** Caps of the pulse for a target, as the executor sets them for precision work. */
  lemma PulseFits(l: Ladder, target: nat, error: real)
    ensures 2000 <= Volts(l, target, error)
                 <= (if target <= LOW_TARGET then 5500 else if target < HIGH_TARGET then 7000 else 12000)
    ensures 2 <= Width(l, target, error) <= (if target <= LOW_TARGET then 4 else if target < HIGH_TARGET then 8 else 14)
  {
  }

  lemma StaysInRange(l: Ladder, rise: real, last: real, error: real, target: nat, latched: bool)
    requires InRange(l)
    ensures InRange(Observe(l, rise, target, latched)) && InRange(Tighten(l, error, last, target))
    ensures Tighten(l, error, last, target).band >= l.band && Observe(l, rise, target, latched).band == l.band
  {
  }

  // ---------------------------------------------------------------- whole runs

  /** What a session does to its ladder: one precision pulse answered by a frame, one with nothing before it
      to answer, or everything earned forgotten. */
  datatype Move = Answered(rise: real, error: real, latched: bool) | First(error: real) | Forgotten

  const UNKNOWN_RISE := -1.0

  function Moved(l: Ladder, m: Move, target: nat): Ladder {
    match m
    case Answered(rise, error, latched) =>
      var o := Observe(l, rise, target, latched);
      if MustPause(rise, error) then o else Tighten(o, error, rise, target)
    case First(error) => Tighten(l, error, UNKNOWN_RISE, target)
    case Forgotten => Reset(l)
  }

  /** The ladder of a session after its moves. */
  function After(moves: seq<Move>, target: nat): Ladder {
    if |moves| == 0 then BOTTOM else Moved(After(moves[..|moves| - 1], target), moves[|moves| - 1], target)
  }

  lemma OneMore(moves: seq<Move>, m: Move, target: nat)
    ensures After(moves + [m], target) == Moved(After(moves, target), m, target)
  {
    assert (moves + [m])[..|moves|] == moves;
  }

  /** Stalled answers since everything was last forgotten. */
  function Stalls(moves: seq<Move>): nat {
    if |moves| == 0 || moves[|moves| - 1].Forgotten? then 0
    else Stalls(moves[..|moves| - 1]) + One(moves[|moves| - 1].Answered? && moves[|moves| - 1].rise < 1.0)
  }

  lemma MovedIsEarned(l: Ladder, m: Move, target: nat)
    requires InRange(l)
    ensures var r, more := Moved(l, m, target), One(m.Answered? && m.rise < 1.0);
      && InRange(r) && r.band >= l.band
      && (m.Forgotten? ==> r.level == r.escape == r.extra == 0)
      && r.level <= l.level + (if target >= HIGH_TARGET then 2 else 1) * more
      && r.escape <= l.escape + more && r.extra <= l.extra + more
  {
  }

  /** The push grows only on stalled answers, a bounded amount each; it never jumps to the top. */
  lemma {:induction false} PushIsEarned(moves: seq<Move>, target: nat)
    ensures var l := After(moves, target);
      && InRange(l)
      && l.level <= (if target >= HIGH_TARGET then 2 else 1) * Stalls(moves)
      && l.escape <= Stalls(moves) && l.extra <= Stalls(moves)
      && (|moves| > 0 ==> After(moves[..|moves| - 1], target).band <= l.band)
  {
    if |moves| > 0 {
      hide Climb, Slacken, Band;
      var l := After(moves[..|moves| - 1], target);
      PushIsEarned(moves[..|moves| - 1], target);
      MovedIsEarned(l, moves[|moves| - 1], target);
    }
  }

  // ---------------------------------------------------------------- how far a stall climbs

  /** Answered without a useful rise, by a clear fall or not, and no nearer than band `band` starts. */
  predicate Stalled(m: Move, band: nat, falls: bool) {
    && m.Answered? && (if falls then m.rise <= -3.0 else -3.0 < m.rise < 1.0)
    && (m.latched || band > 0) && Band(m.error) <= band
  }

  /** The ladder after `k` of them with nothing earned before. Every second one climbs a rung, two rungs from 800 N on,
      up to the 32nd, and then widens by up to 3 ms; from the sixth on every second one also lifts the caps by a step,
      up to 26. After a clear fall each answer counts for two. */
  function StalledLadder(k: nat, band: nat, target: nat, falls: bool): Ladder {
    var climbs := if falls then k else k / 2;
    Ladder(if target >= 800 then Min(32, 2 * climbs) else Min(32, climbs),
           Min(3, Less(climbs, if target >= 800 then 16 else 32)),
           Min(26, Less(climbs, 2)),
           Min(250, if falls then 2 * k else k), if falls then 0 else k % 2, band)
  }

  lemma {:induction false} StallClimbs(moves: seq<Move>, more: seq<Move>, target: nat, falls: bool)
    requires var l := After(moves, target); l == BOTTOM.(band := l.band)
    requires forall i :: 0 <= i < |more| ==> Stalled(more[i], After(moves, target).band, falls)
    ensures After(moves + more, target) == StalledLadder(|more|, After(moves, target).band, target, falls)
  {
    hide Moved, StalledLadder, Stalled;
    var band := After(moves, target).band;
    if |more| == 0 {
      assert moves + more == moves;
      StallStarts(band, target, falls);
    } else {
      var n := |more| - 1;
      assert forall i :: 0 <= i < n ==> more[..n][i] == more[i];
      StallClimbs(moves, more[..n], target, falls);
      assert moves + more == moves + more[..n] + [more[n]];
      OneMore(moves + more[..n], more[n], target);
      StallClimbsOn(n, more[n], band, target, falls);
    }
  }

  lemma StallStarts(band: nat, target: nat, falls: bool)
    ensures StalledLadder(0, band, target, falls) == BOTTOM.(band := band)
  {
  }

  lemma StallClimbsOn(k: nat, m: Move, band: nat, target: nat, falls: bool)
    requires Stalled(m, band, falls)
    ensures Moved(StalledLadder(k, band, target, falls), m, target) == StalledLadder(k + 1, band, target, falls)
  {
    hide Slacken, Band;
  }

  /** Below 800 N the caps never hold a stall back: each climb adds 250 mV up to the executor's own, and its 4th, 8th,
      12th, 18th, 24th and 30th a millisecond. */
  lemma StalledPulse(k: nat, band: nat, target: nat, error: real, falls: bool)
    requires Band(error) <= band <= 3 && target < 800
    ensures var l, n := StalledLadder(k, band, target, falls), if falls then k else k / 2;
      && Volts(l, target, error) == (if target <= 200 then Min(5500, 2000 + 250 * n) else Min(7000, 2500 + 250 * n))
      && Width(l, target, error) == Min(if target <= 200 then 4 else 8,
           2 + One(n >= 4) + One(n >= 8) + One(n >= 12) + One(n >= 18) + One(n >= 24) + One(n >= 30))
  {
    hide Band;
  }

  /** From 800 N on a climb asks for 500 mV more, and from the third on the caps follow it by 250 mV. */
  lemma StalledHighVolts(k: nat, band: nat, target: nat, error: real, falls: bool)
    requires Band(error) <= band <= 3 && target >= 800
    ensures var l, n := StalledLadder(k, band, target, falls), if falls then k else k / 2;
      var cap := (if band % 2 == 0 then 5500 else 5000) + 250 * Min(26, Less(n, 2));
      Volts(l, target, error) == Min(12000, if error > 10.0 then Min(4000 + 500 * n, cap)
                                            else Min(6000 + 500 * n, if cap < 6000 then 6000 else cap))
  {
    hide Band;
  }

  /** The climbs that add a millisecond from 800 N on, by the tightest band reached; in the last 10 N no more than 5 ms,
      6 below 1500 N or 8 from there to 2200 N. */
  lemma StalledHighWidth(k: nat, band: nat, target: nat, error: real, falls: bool)
    requires Band(error) <= band <= 3 && target >= 800
    ensures var l, n := StalledLadder(k, band, target, falls), if falls then k else k / 2;
      var heavy := 1500 <= target <= 2200;
      Width(l, target, error) ==
        Min(if error > 10.0 then 14 else if heavy then 8 else if target < 1500 then 6 else 5,
          3 + (match band
               case 0 => One(n >= 2) + One(n >= 4) + One(n >= 6) + One(n >= 10)
               case 1 => One(n >= 2) + One(n >= 6) + One(n >= 10) + One(n >= 14)
               case 2 => One(n >= 6) + One(n >= 10) + One(n >= 14)
               case _ => One(n >= 8) + One(n >= 12) + One(n >= 14))
            + One(n >= 18) + (if heavy then 3 else 2) * One(n >= 22) + One(n >= 25)
            + (if heavy then 2 else 1) * One(n >= 28))
  {
  }

  /** So a stall that does not end comes to the most the target allows: 5.5 V, 7 V, and from 800 N on 12 V; but only
      11.5 V for a session whose tightest band is that of 20 N or of 3 N. */
  lemma UnendingStall(moves: seq<Move>, more: seq<Move>, target: nat, error: real, falls: bool)
    requires var l := After(moves, target); l == BOTTOM.(band := l.band) && Band(error) <= l.band
    requires forall i :: 0 <= i < |more| ==> Stalled(more[i], After(moves, target).band, falls)
    requires |more| >= if falls then 30 else 60
    ensures Volts(After(moves + more, target), target, error) ==
      if target <= 200 then 5500 else if target < 800 then 7000
      else if After(moves, target).band % 2 == 0 then 12000 else 11500
    ensures var heavy := 1500 <= target <= 2200;
      Width(After(moves + more, target), target, error) ==
        if target <= 200 then 4 else if target < 800 then 8
        else if error <= 10.0 then (if heavy then 8 else if target < 1500 then 6 else 5)
        else (if After(moves, target).band <= 1 then 12 else 11) + (if heavy then 2 else 0)
  {
    hide StalledLadder, Stalled, Volts, Width, Band;
    PushIsEarned(moves, target);
    StallClimbs(moves, more, target, falls);
    var k, band := |more|, After(moves, target).band;
    if target < 800 {
      StalledPulse(k, band, target, error, falls);
    } else {
      StalledHighVolts(k, band, target, error, falls);
      StalledHighWidth(k, band, target, error, falls);
    }
  }

  /** Twelve answers without any rise 30 N below a target of 1000 N: 4 V and 3 ms have become 6.5 V and 6 ms. */
  lemma TwelveStalls()
    ensures var more := seq(12, i => Answered(0.0, 30.0, true));
      var l := After([First(30.0)] + more, 1000);
      && Volts(BOTTOM, 1000, 30.0) == 4000 && Width(BOTTOM, 1000, 30.0) == 3
      && Volts(l, 1000, 30.0) == 6500 && Width(l, 1000, 30.0) == 6
  {
    var more := seq(12, i => Answered(0.0, 30.0, true));
    OneMore([], First(30.0), 1000);
    assert [] + [First(30.0)] == [First(30.0)];
    StallClimbs([First(30.0)], more, 1000, false);
    StalledHighVolts(12, 0, 1000, 30.0, false);
    StalledHighWidth(12, 0, 1000, 30.0, false);
  }

  // ---------------------------------------------------------------- and how it comes down

  function Answers(moves: seq<Move>): nat {
    if |moves| == 0 then 0 else Answers(moves[..|moves| - 1]) + One(moves[|moves| - 1].Answered?)
  }

  /** A pulse that no band tightens, answered, if it answers one, by a rise of 1 to 2 N (`down` 0), of up to 4 N (2) or
      of more (3). */
  predicate Rises(m: Move, band: nat, down: nat) {
    match m
    case First(error) => Band(error) <= band
    case Answered(rise, error, _) =>
      Band(error) <= band &&
        if down == 0 then 1.0 <= rise <= 2.0 else if down == 2 then 2.0 < rise <= 4.0 else down == 3 && 4.0 < rise
    case Forgotten => false
  }

  /** Rises of 1 to 2 N keep what was found, larger ones take back two rungs and escapes and a millisecond each, or
      three and two. */
  lemma {:induction false} RisesSlacken(moves: seq<Move>, more: seq<Move>, target: nat, down: nat)
    requires forall i :: 0 <= i < |more| ==> Rises(more[i], After(moves, target).band, down)
    ensures var l, r, k := After(moves, target), After(moves + more, target), Answers(more);
      && r.band == l.band && r.level == Less(l.level, down * k) && r.escape == Less(l.escape, down * k)
      && r.extra == Less(l.extra, if down == 0 then 0 else (down - 1) * k)
      && (k > 0 ==> r.stall == r.noRise == 0)
  {
    hide Moved, Rises;
    if |more| == 0 {
      assert moves + more == moves;
    } else {
      var n := |more| - 1;
      assert forall i :: 0 <= i < n ==> more[..n][i] == more[i];
      RisesSlacken(moves, more[..n], target, down);
      assert moves + more == moves + more[..n] + [more[n]];
      OneMore(moves + more[..n], more[n], target);
      RiseSlackens(After(moves + more[..n], target), more[n], target, down);
      OneMoreTime(down, Answers(more[..n]));
      if down > 0 { OneMoreTime(down - 1, Answers(more[..n])); }
    }
  }

  lemma OneMoreTime(n: nat, k: nat)
    ensures n * (k + 1) == n * k + n && n * k >= 0
  {
  }

  lemma RiseSlackens(l: Ladder, m: Move, target: nat, down: nat)
    requires Rises(m, l.band, down)
    ensures var r := Moved(l, m, target);
      if m.First? then r == l
      else
        && m.Answered? && r.band == l.band && r.level == Less(l.level, down) && r.escape == Less(l.escape, down)
        && r.extra == Less(l.extra, if down == 0 then 0 else down - 1) && r.stall == r.noRise == 0
        && (down == 0 || down == 2 || down == 3)
  {
    hide Climb, Band;
  }

  /** Nearer the target than ever before, in the last 20, 10 or 3 N: all escapes are gone, no more than 8, 6 or 4 rungs
      are left, and the caps of the new band hold nothing back below 800 N. A high target whose last pulse raised the
      pressure by 1 to 2 N keeps all it had. */
  lemma BandTightens(l: Ladder, error: real, rise: real, target: nat)
    requires 0.0 < error && l.band < Band(error)
    ensures var r, band := Tighten(l, error, rise, target), if error <= 3.0 then 3 else if error <= 10.0 then 2 else 1;
      && error <= 20.0 && r.band == band && r.stall == r.noRise == 0
      && if target >= 800 && 1.0 <= rise <= 2.0 then r.level == l.level && r.escape == l.escape && r.extra == l.extra
         else
           && r.level == Min(l.level, 10 - 2 * band) && r.escape == r.extra == 0
           && (target < 800 ==> Volts(r, target, error) == (if target <= 200 then 2000 else 2500) + 250 * r.level
                                && Width(r, target, error) == 2 + r.level / 4)
           && (target >= 800 && band > 1 ==> Volts(r, target, error) == 6000 && Width(r, target, error) == 3)
           && (target >= 800 && band == 1 ==> Volts(r, target, error) == 4000 + 250 * Min(r.level, 4)
                                              && Width(r, target, error) == if r.level >= 4 then 4 else 3)
  {
  }

  // ---------------------------------------------------------------- closer to the target

  /** The move ends in a pulse, and not in a pause or a reset. */
  predicate Pulses(m: Move) {
    m.First? || (m.Answered? && !MustPause(m.rise, m.error))
  }

  /** The last move was a pulse at this error, and nothing has answered it yet. */
  predicate Awaits(moves: seq<Move>, error: real) {
    |moves| > 0 && Pulses(moves[|moves| - 1]) && moves[|moves| - 1].error == error
  }

  /** Every answer is the change of pressure since the pulse right before it. */
  predicate Linked(moves: seq<Move>) {
    |moves| > 0 ==>
      var front, m := moves[..|moves| - 1], moves[|moves| - 1];
      Linked(front) && (m.Answered? ==> Awaits(front, m.error + m.rise))
  }

  lemma OneMoreLinked(moves: seq<Move>, m: Move)
    requires Linked(moves) && (m.Answered? ==> Awaits(moves, m.error + m.rise))
    ensures Linked(moves + [m])
  {
    assert (moves + [m])[..|moves|] == moves;
  }

  lemma {:induction false} LinkedAt(moves: seq<Move>, k: nat)
    requires Linked(moves) && k < |moves| && moves[k].Answered?
    ensures Awaits(moves[..k], moves[k].error + moves[k].rise)
  {
    if k < |moves| - 1 {
      LinkedAt(moves[..|moves| - 1], k);
      assert moves[..|moves| - 1][..k] == moves[..k];
    }
  }

  /** The pulses at i and j follow one another, the later nearer the target by what is not a stall. */
  predicate Nearer(moves: seq<Move>, i: nat, j: nat) {
    && Linked(moves) && i < j < |moves| && Pulses(moves[i]) && Pulses(moves[j])
    && (forall k :: i < k < j ==> !Pulses(moves[k]))
    && 0.0 < moves[j].error <= moves[i].error && (moves[j].Answered? ==> moves[j].rise >= 1.0)
  }

  /** Nothing is pushed harder by q than by l: at most one rung of backing off, or all escapes gone. */
  predicate Eased(l: Ladder, q: Ladder) {
    && q.band == l.band && q.level <= l.level && q.extra <= l.extra && q.escape <= l.escape
    && (l.level <= q.level + 3 || q.escape == 0)
  }

  /** The ladder a move's pulse is taken from once its own band is recorded, and the rise it goes by. */
  function Base(l: Ladder, m: Move, target: nat): Ladder {
    if m.Answered? then Observe(l, m.rise, target, m.latched) else l
  }

  function RiseOf(m: Move): real {
    if m.Answered? then m.rise else UNKNOWN_RISE
  }

  lemma {:induction false} EasedBetween(moves: seq<Move>, i: nat, k: nat, target: nat)
    requires Linked(moves) && i < k <= |moves| && forall n :: i < n < k ==> !Pulses(moves[n])
    ensures Eased(After(moves[..i + 1], target), After(moves[..k], target))
  {
    hide Climb, Slacken;
    if k > i + 1 {
      EasedBetween(moves, i, k - 1, target);
      assert moves[..k][..k - 1] == moves[..k - 1];
      var m := moves[k - 1];
      if m.Answered? {
        LinkedAt(moves, k - 1);
        assert Pulses(moves[k - 2]);
        SlackenEases(After(moves[..k - 1], target), m.rise);
      }
    }
  }

  lemma SlackenEases(l: Ladder, rise: real)
    ensures Eased(l, Slacken(l, rise))
  {
  }

  /** Two pulses in a row: the second's ladder is the first's, eased, with its own band recorded. */
  lemma NextPulse(moves: seq<Move>, i: nat, j: nat, target: nat)
    requires Nearer(moves, i, j)
    ensures var l, q := After(moves[..i + 1], target), Base(After(moves[..j], target), moves[j], target);
      && InRange(l) && Band(moves[i].error) <= l.band && Eased(l, q)
      && After(moves[..j + 1], target) == Tighten(q, moves[j].error, RiseOf(moves[j]), target)
  {
    hide Climb, Slacken;
    PushIsEarned(moves[..i + 1], target);
    EasedBetween(moves, i, j, target);
    assert moves[..i + 1][..i] == moves[..i] && moves[..j + 1][..j] == moves[..j];
    if moves[j].Answered? {
      LinkedAt(moves, j);
      assert Pulses(moves[j - 1]);
      SlackenEases(After(moves[..j], target), moves[j].rise);
    }
  }

  /** In any session below the high targets: a pulse nearer the target than the last is never stronger or longer. */
  lemma CloserIsGentler(moves: seq<Move>, i: nat, j: nat, target: nat)
    requires Nearer(moves, i, j) && target < HIGH_TARGET
    ensures var l, m := After(moves[..i + 1], target), After(moves[..j + 1], target);
      && Volts(m, target, moves[j].error) <= Volts(l, target, moves[i].error)
      && Width(m, target, moves[j].error) <= Width(l, target, moves[i].error)
  {
    NextPulse(moves, i, j, target);
    TightenIsGentler(After(moves[..i + 1], target), Base(After(moves[..j], target), moves[j], target), target,
                     moves[i].error, moves[j].error, RiseOf(moves[j]));
  }

  lemma TightenIsGentler(l: Ladder, q: Ladder, target: nat, error: real, closer: real, rise: real)
    requires InRange(l) && Eased(l, q) && Band(error) <= l.band && closer <= error && target < HIGH_TARGET
    ensures var m := Tighten(q, closer, rise, target);
      Volts(m, target, closer) <= Volts(l, target, error) && Width(m, target, closer) <= Width(l, target, error)
  {
    hide FreeMs, WantMs;
    var m := Tighten(q, closer, rise, target);
    LessFrees(l, m, target);
    LessWants(l, m, target, closer);
    WantsAlike(l, target, error, closer);
  }

  /** Below the high targets a rung asks for the same width at any distance. */
  lemma WantsAlike(l: Ladder, target: nat, error: real, closer: real)
    requires target < HIGH_TARGET
    ensures WantMs(l, target, error) == WantMs(l, target, closer)
  {
  }

  /** From HIGH_TARGET on it can be stronger, and exactly on entering the last 10 N: unless the old pulse already had
      the volts of the new cap. With no escapes left that takes a rung and escapes of its own. */
  lemma HarderExactly(moves: seq<Move>, i: nat, j: nat, target: nat)
    requires Nearer(moves, i, j) && target >= HIGH_TARGET
    ensures var l, m := After(moves[..i + 1], target), After(moves[..j + 1], target);
      var error, closer := moves[i].error, moves[j].error;
      && (Volts(m, target, closer) > Volts(l, target, error) <==>
          closer <= FINAL_N < error && Volts(l, target, error) < CapMv(m, target, closer))
      && (m.escape == 0 ==>
          (Volts(m, target, closer) > Volts(l, target, error) <==>
           closer <= FINAL_N < error && (l.level < 8 || l.escape < (if l.band % 2 == 0 then 2 else 4))))
  {
    NextPulse(moves, i, j, target);
    TightenIsHarder(After(moves[..i + 1], target), Base(After(moves[..j], target), moves[j], target), target,
                    moves[i].error, moves[j].error, RiseOf(moves[j]));
  }

  lemma TightenIsHarder(l: Ladder, q: Ladder, target: nat, error: real, closer: real, rise: real)
    requires InRange(l) && Eased(l, q) && Band(error) <= l.band && closer <= error && target >= HIGH_TARGET
    ensures var m := Tighten(q, closer, rise, target);
      && (Volts(m, target, closer) > Volts(l, target, error) <==>
          closer <= FINAL_N < error && Volts(l, target, error) < CapMv(m, target, closer))
      && (m.escape == 0 ==>
          (Volts(m, target, closer) > Volts(l, target, error) <==>
           closer <= FINAL_N < error && (l.level < 8 || l.escape < (if l.band % 2 == 0 then 2 else 4))))
  {
  }

  /** It can be longer only from 800 N to 1500 N, where the last 10 N add a millisecond: exactly when the rung it kept
      asks for no less than the old one did, and its band allows more than that. */
  lemma LongerExactly(moves: seq<Move>, i: nat, j: nat, target: nat)
    requires Nearer(moves, i, j) && target >= HIGH_TARGET
    ensures var l, m := After(moves[..i + 1], target), After(moves[..j + 1], target);
      var error, closer := moves[i].error, moves[j].error;
      Width(m, target, closer) > Width(l, target, error) <==>
        && closer <= FINAL_N < error && MidHigh(target) && m.level < 16
        && WantMs(m, target, error) == WantMs(l, target, error) < Min(FreeMs(m, target), 6)
  {
    NextPulse(moves, i, j, target);
    TightenIsLonger(After(moves[..i + 1], target), Base(After(moves[..j], target), moves[j], target), target,
                    moves[i].error, moves[j].error, RiseOf(moves[j]));
  }

  lemma TightenIsLonger(l: Ladder, q: Ladder, target: nat, error: real, closer: real, rise: real)
    requires InRange(l) && Eased(l, q) && Band(error) <= l.band && closer <= error && target >= HIGH_TARGET
    ensures var m := Tighten(q, closer, rise, target);
      Width(m, target, closer) > Width(l, target, error) <==>
        && closer <= FINAL_N < error && MidHigh(target) && m.level < 16
        && WantMs(m, target, error) == WantMs(l, target, error) < Min(FreeMs(m, target), 6)
  {
    hide FreeMs, WantMs;
    var m := Tighten(q, closer, rise, target);
    LessFrees(l, m, target);
    LessWants(l, m, target, error);
    WantNarrows(m, target, error, closer);
  }

  lemma LessFrees(l: Ladder, m: Ladder, target: nat)
    requires l.band <= m.band <= 3 && m.escape <= l.escape
    ensures FreeMs(m, target) <= FreeMs(l, target)
  {
  }

  lemma LessWants(l: Ladder, m: Ladder, target: nat, error: real)
    requires m.level <= l.level && m.extra <= l.extra
    ensures WantMs(m, target, error) <= WantMs(l, target, error)
  {
  }

  /** Entering the last 10 N takes the widest steps away and, for some targets, adds a millisecond. */
  lemma WantNarrows(l: Ladder, target: nat, error: real, closer: real)
    requires target >= HIGH_TARGET && closer <= error
    ensures WantMs(l, target, closer) ==
      if closer <= FINAL_N < error then
        WantMs(l, target, error) + One(MidHigh(target)) - One(l.level >= 16) - One(l.level >= 22) - One(l.level >= 28)
      else WantMs(l, target, error)
  {
  }

  /** A 1000 N session pulsed at 20 N that finds itself at 10 N pauses, and its next pulse is 2 V stronger. */
  lemma HighTargetsPushHarderAtTheEnd()
    ensures var moves := [First(20.0), Answered(10.0, 10.0, true), First(10.0)];
      && Nearer(moves, 0, 2)
      && Volts(After(moves[..1], 1000), 1000, 20.0) == 4000 && Volts(After(moves, 1000), 1000, 10.0) == 6000
  {
    var moves := [First(20.0), Answered(10.0, 10.0, true), First(10.0)];
    Unrolled(moves, 1000);
    HarderExactly(moves, 0, 2, 1000);
  }

  /** Without a whole newton of rise an answer is a stall, and a stall climbs at any target. */
  lemma StallPushesHarder()
    ensures var moves := [First(30.0), Answered(0.0, 30.0, true), Answered(0.5, 29.5, true)];
      && Linked(moves) && Volts(After(moves, 500), 500, 29.5) > Volts(After(moves[..2], 500), 500, 30.0)
  {
    Unrolled([First(30.0), Answered(0.0, 30.0, true), Answered(0.5, 29.5, true)], 500);
  }

  lemma Unrolled(moves: seq<Move>, target: nat)
    requires |moves| == 3
    ensures After(moves[..1], target) == Moved(BOTTOM, moves[0], target)
    ensures After(moves[..2], target) == Moved(After(moves[..1], target), moves[1], target)
    ensures After(moves, target) == Moved(After(moves[..2], target), moves[2], target)
    ensures
      (&& !moves[0].Answered?
       && (moves[1].Answered? ==> Awaits(moves[..1], moves[1].error + moves[1].rise))
       && (moves[2].Answered? ==> Awaits(moves[..2], moves[2].error + moves[2].rise))) ==> Linked(moves)
  {
    hide Moved, Awaits;
    assert moves[..1] + [moves[1]] == moves[..2] && moves[..2] + [moves[2]] == moves && [moves[0]] == moves[..1];
    OneMore([], moves[0], target);
    OneMore(moves[..1], moves[1], target);
    OneMore(moves[..2], moves[2], target);
    assert [] + [moves[0]] == moves[..1];
    if !moves[0].Answered? { OneMoreLinked([], moves[0]); }
    if Linked(moves[..1]) && (moves[1].Answered? ==> Awaits(moves[..1], moves[1].error + moves[1].rise)) {
      OneMoreLinked(moves[..1], moves[1]);
      if !moves[2].Answered? || Awaits(moves[..2], moves[2].error + moves[2].rise) {
        OneMoreLinked(moves[..2], moves[2]);
      }
    }
  }
}
