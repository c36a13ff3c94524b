/** What a legal owner log says, without the automaton: who follows whom, how far apart,
    and which frame let the next segment start. */
module OwnerHistory {
  import opened MachineWord
  import opened ExecutorSpec
  import opened ExecutorSafety

  ghost predicate AdmittedAt(log: seq<Item>, i: int) {
    0 <= i < |log| && log[i].Admitted?
  }

  /** No admission strictly between i and j. */
  ghost predicate Quiet(log: seq<Item>, i: int, j: int) {
    forall k :: i < k < j && 0 <= k < |log| ==> !log[k].Admitted?
  }

  /** The segment admitted at i ended at h, within its hard limit. */
  ghost predicate EndedAt(log: seq<Item>, i: int, h: int) {
    && AdmittedAt(log, i) && i < h < |log| && log[h].HandedOver?
    && log[h].charged == log[h].at - log[i].at + 1 && 1 <= log[h].charged <= log[i].hard
  }

  /** At p the owner accepted a frame newer than the segment at i and received after its end at h. */
  ghost predicate AnsweredAt(log: seq<Item>, i: int, h: int, p: int) {
    && EndedAt(log, i, h) && h < p < |log| && log[p].Posted?
    && After(log[p].sequence, log[i].sequence) && log[p].received >= log[h].at
  }

  /** Between the segments at i and j: an end, its answer and the settling time. */
  ghost predicate Separated(log: seq<Item>, i: int, j: int) {
    && AdmittedAt(log, i) && AdmittedAt(log, j)
    && exists h, p :: AnsweredAt(log, i, h, p) && p < j && log[j].at - log[h].at >= log[i].settle
  }

  /** The segment at j may follow the one at i; only a running approach continues without a pause. */
  ghost predicate Follows(log: seq<Item>, i: int, j: int) {
    && AdmittedAt(log, i) && AdmittedAt(log, j) && i < j
    && log[j].pulse && After(log[j].sequence, log[i].sequence)
    && (Separated(log, i, j) || (!log[i].pulse && forall k :: i < k < j ==> !log[k].HandedOver?))
  }

  ghost predicate Legal(log: seq<Item>) {
    !ModeOf(log).Illegal?
  }

  function LastAdmitted(log: seq<Item>): int {
    if |log| == 0 then -1 else if log[|log| - 1].Admitted? then |log| - 1 else LastAdmitted(log[..|log| - 1])
  }

  function LastHandedOver(log: seq<Item>): int {
    if |log| == 0 then -1 else if log[|log| - 1].HandedOver? then |log| - 1 else LastHandedOver(log[..|log| - 1])
  }

  function LastPosted(log: seq<Item>): int {
    if |log| == 0 then -1 else if log[|log| - 1].Posted? then |log| - 1 else LastPosted(log[..|log| - 1])
  }

  /** What the automaton's state says about the items behind it. */
  ghost predicate Shape(log: seq<Item>, i: int, h: int, p: int) {
    match ModeOf(log)
    case Fresh(rested) => Quiet(log, -1, |log|) && (rested || forall k :: 0 <= k < |log| ==> !log[k].Rested?)
    case Approaching(q, at, hard, settle) =>
      && AdmittedAt(log, i) && !log[i].pulse && Quiet(log, i, |log|) && h < i
      && log[i].sequence == q && log[i].at == at && log[i].hard == hard && log[i].settle == settle
    case Pulsing(q, at, hard, settle) =>
      && AdmittedAt(log, i) && log[i].pulse && Quiet(log, i, |log|) && h < i
      && log[i].sequence == q && log[i].at == at && log[i].hard == hard && log[i].settle == settle
    case Waiting(q, settle, ended, posted) =>
      && EndedAt(log, i, h) && Quiet(log, i, |log|)
      && log[i].sequence == q && log[i].settle == settle && log[h].at == ended
      && (posted ==> AnsweredAt(log, i, h, p))
    case Over => |log| > 0
    case Illegal => true
  }

  lemma {:induction false} LastsAreLast(log: seq<Item>)
    ensures -1 <= LastAdmitted(log) < |log| && Quiet(log, LastAdmitted(log), |log|)
    ensures LastAdmitted(log) >= 0 ==> AdmittedAt(log, LastAdmitted(log))
    ensures -1 <= LastHandedOver(log) < |log|
    ensures forall k :: LastHandedOver(log) < k < |log| ==> !log[k].HandedOver?
  {
    if |log| > 0 {
      LastsAreLast(log[..|log| - 1]);
    }
  }

  lemma {:induction false} ShapeOf(log: seq<Item>)
    requires Legal(log)
    ensures Shape(log, LastAdmitted(log), LastHandedOver(log), LastPosted(log))
  {
    if |log| > 0 {
      var front := log[..|log| - 1];
      ShapeOf(front);
      LastsAreLast(front);
    }
  }

  lemma {:induction false} PrefixLegal(log: seq<Item>, n: nat)
    requires Legal(log) && n <= |log|
    ensures Legal(log[..n])
    ensures n < |log| ==> !ModeOf(log[..n]).Over?
  {
    if n == |log| {
      assert log[..n] == log;
    } else {
      var front := log[..|log| - 1];
      PrefixLegal(front, n);
      assert front[..n] == log[..n];
    }
  }

  /** Consecutive segments of a legal log. */
  lemma SegmentsFollow(log: seq<Item>, i: int, j: int)
    requires Legal(log) && AdmittedAt(log, i) && AdmittedAt(log, j) && i < j && Quiet(log, i, j)
    ensures Follows(log, i, j)
  {
    var front, upto := log[..j], log[..j + 1];
    PrefixLegal(log, j);
    PrefixLegal(log, j + 1);
    assert upto[..j] == front;
    ShapeOf(front);
    LastsAreLast(front);
    assert LastAdmitted(front) == i by {
      assert AdmittedAt(front, i);
      assert Quiet(front, LastAdmitted(front), |front|);
    }
    var h, p := LastHandedOver(front), LastPosted(front);
    if ModeOf(front).Waiting? {
      assert AnsweredAt(front, i, h, p);
      assert AnsweredAt(log, i, h, p);
    }
  }

  /** An approach can only come first, a rest only before it, and nothing follows the close. */
  lemma LegalOrder(log: seq<Item>, k: nat)
    requires Legal(log) && k < |log|
    ensures log[k].Admitted? && !log[k].pulse ==> Quiet(log, -1, k)
    ensures log[k].Rested? ==> Quiet(log, -1, k) && forall n :: 0 <= n < k ==> !log[n].Rested?
    ensures log[k].Closed? ==> k == |log| - 1
  {
    var front, upto := log[..k], log[..k + 1];
    PrefixLegal(log, k);
    PrefixLegal(log, k + 1);
    assert upto[..k] == front;
    ShapeOf(front);
    if Quiet(front, -1, |front|) {
      assert Quiet(log, -1, k) by {
        forall n | 0 <= n < k ensures !log[n].Admitted? {
          assert log[n] == front[n];
        }
      }
    }
    if log[k].Rested? {
      forall n | 0 <= n < k ensures !log[n].Rested? {
        assert log[n] == front[n];
      }
    }
  }
}
