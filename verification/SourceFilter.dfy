/** The jump filter on processed pressure frames: a value more than JUMP_N away is believed
    only after three frames in a row agree on it. Pressures are in newtons. */
module SourceFilter {
  const JUMP_N := 80.0
  const AGREE_N := 5.0
  const NONE := -1.0

  datatype Filter = Filter(last: real, count: nat, candidate: real)

  function Abs(x: real): real {
    if x < 0.0 then -x else x
  }

  predicate Jumps(f: Filter, raw: real) {
    f.last >= 0.0 && Abs(raw - f.last) > JUMP_N
  }

  /** One processed frame. */
  function Take(f: Filter, raw: real): Filter {
    if !Jumps(f, raw) then Filter(raw, 0, NONE) else
    var g := if f.candidate < 0.0 || Abs(raw - f.candidate) > AGREE_N then f.(candidate := raw, count := 1)
             else f.(count := f.count + 1);
    if g.count < 3 then g else Filter(raw, 0, NONE)
  }

  function Filtered(frames: seq<real>): Filter {
    if |frames| == 0 then Filter(NONE, 0, NONE)
    else Take(Filtered(frames[..|frames| - 1]), frames[|frames| - 1])
  }

  /** The last `count` frames doubt `f.last` and agree with the first of them. */
  predicate Doubted(f: Filter, frames: seq<real>) {
    && f.count <= 2 && f.count <= |frames|
    && (f.count == 0 ==> f.candidate == NONE)
    && (f.count > 0 ==> f.last >= 0.0 && f.candidate == frames[|frames| - f.count])
    && forall i :: |frames| - f.count <= i < |frames| ==>
         Abs(frames[i] - f.candidate) <= AGREE_N && Abs(frames[i] - f.last) > JUMP_N
  }

  /** The accepted value is always one of the frames, and doubts are about the latest ones. */
  lemma {:induction false} AcceptedIsAFrame(frames: seq<real>)
    requires forall i :: 0 <= i < |frames| ==> frames[i] >= 0.0
    ensures var f := Filtered(frames);
      && Doubted(f, frames)
      && (|frames| > 0 ==> exists i :: 0 <= i < |frames| && frames[i] == f.last)
  {
    if |frames| > 0 {
      var n := |frames| - 1;
      var before := frames[..n];
      AcceptedIsAFrame(before);
      var f, g := Filtered(before), Filtered(frames);
      if g.last == frames[n] {
        assert frames[n] == g.last;
      } else {
        var i :| 0 <= i < n && before[i] == f.last;
        assert frames[i] == g.last;
      }
    }
  }

  /** The last three frames agree within AGREE_N of the first and all contradict `last`. */
  predicate Confirmed(frames: seq<real>, last: real) {
    && |frames| >= 3
    && forall i :: |frames| - 3 <= i < |frames| ==>
         Abs(frames[i] - frames[|frames| - 3]) <= AGREE_N && Abs(frames[i] - last) > JUMP_N
  }

  /** Consecutive accepted values are close, unless three frames in a row confirmed the jump. */
  lemma JumpsAreConfirmed(frames: seq<real>, raw: real)
    requires raw >= 0.0 && forall i :: 0 <= i < |frames| ==> frames[i] >= 0.0
    ensures var f, g := Filtered(frames), Filtered(frames + [raw]);
      && g.last >= 0.0
      && (f.last >= 0.0 && g.last != f.last ==>
          g.last == raw && (Abs(g.last - f.last) <= JUMP_N || Confirmed(frames + [raw], f.last)))
      && (Jumps(f, raw) && !Confirmed(frames + [raw], f.last) ==> g.count > 0 && g.last == f.last)
  {
    hide Filtered, Doubted, Confirmed;
    AcceptedIsAFrame(frames);
    OneMore(frames, raw);
    var f := Filtered(frames);
    DoubtIsShort(f, frames);
    if Jumps(f, raw) && f.count == 2 && Abs(raw - f.candidate) <= AGREE_N {
      ThreeAgree(frames, raw);
    }
  }

  lemma DoubtIsShort(f: Filter, frames: seq<real>)
    requires Doubted(f, frames)
    ensures f.count <= 2 && (f.count == 0 ==> f.candidate == NONE)
  {
  }

  lemma ThreeAgree(frames: seq<real>, raw: real)
    requires var f := Filtered(frames);
      Doubted(f, frames) && f.count == 2 && Jumps(f, raw) && Abs(raw - f.candidate) <= AGREE_N
    ensures Confirmed(frames + [raw], Filtered(frames).last)
  {
    hide Filtered;
    var all, n := frames + [raw], |frames|;
    assert all[n - 2] == frames[n - 2] && all[n - 1] == frames[n - 1] && all[n] == raw;
  }

  predicate AwayFrom(last: real, x: real, y: real, z: real) {
    Abs(x - last) > JUMP_N && Abs(y - last) > JUMP_N && Abs(z - last) > JUMP_N
  }

  /** And a jump so confirmed is believed: when nothing is doubted, the third of three frames that agree with the
      first of them becomes the accepted value. */
  lemma ConfirmedIsBelieved(frames: seq<real>, a: real, b: real, c: real)
    requires a >= 0.0 && forall i :: 0 <= i < |frames| ==> frames[i] >= 0.0
    requires Filtered(frames).count == 0 && Filtered(frames).last >= 0.0 && AwayFrom(Filtered(frames).last, a, b, c)
    requires Abs(b - a) <= 5.0 && Abs(c - a) <= 5.0
    ensures Filtered(frames + [a, b, c]) == Filter(c, 0, NONE)
    ensures Filtered(frames + [a, b]).last == Filtered(frames + [a]).last == Filtered(frames).last
  {
    AcceptedIsAFrame(frames);
    ThreeMore(frames, a, b, c);
  }

  /** Whatever was doubted before, a pressure that lasts for three frames is the accepted one. */
  lemma LastingIsBelieved(frames: seq<real>, x: real)
    requires x >= 0.0
    ensures Filtered(frames + [x, x, x]) == Filter(x, 0, NONE)
  {
    ThreeMore(frames, x, x, x);
  }

  lemma ThreeMore(frames: seq<real>, a: real, b: real, c: real)
    ensures Filtered(frames + [a]) == Take(Filtered(frames), a)
    ensures Filtered(frames + [a, b]) == Take(Filtered(frames + [a]), b)
    ensures Filtered(frames + [a, b, c]) == Take(Filtered(frames + [a, b]), c)
  {
    hide Filtered, Take;
    OneMore(frames, a);
    OneMore(frames + [a], b);
    OneMore(frames + [a, b], c);
    assert frames + [a] + [b] == frames + [a, b] && frames + [a, b] + [c] == frames + [a, b, c];
  }

  lemma OneMore(frames: seq<real>, raw: real)
    ensures Filtered(frames + [raw]) == Take(Filtered(frames), raw)
  {
    assert (frames + [raw])[..|frames|] == frames;
  }
}
