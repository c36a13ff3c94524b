/** The build session on its executor: the machine's response clock and the executor's rest epochs together
    bound how long one session may drive; and what an approach ended by BRAKE does to the session. */
module SessionTime {
  import opened MachineWord
  import opened ExecutorSpec
  import opened ExecutorSafety
  import opened MissedDisable
  import opened OneRest
  import Admission
  import BuildMachine
  import OutputAuthority

  /** The epochs were read at moments of one owner's run, the first of them just before it was opened. */
  predicate ReadFrom(readings: seq<U32>, ks: seq<nat>, clock: nat, es: seq<Event>, b: nat) {
    && |readings| == |ks| > 0 && ks[0] == b <= |es|
    && (forall i: nat :: i < |ks| ==> b <= ks[i] <= |es| && readings[i] == At(clock, es, ks[i]).ledger.epoch)
    && (forall i: nat, j: nat :: i < j < |ks| ==> ks[i] <= ks[j])
    && (forall i: nat :: 0 < i < |ks| ==> Owned(clock, es, b, ks[i]))
  }

  lemma {:induction false} ReadOnce(readings: seq<U32>, ks: seq<nat>, clock: nat, es: seq<Event>, b: nat)
    requires ReadFrom(readings, ks, clock, es, b)
    ensures BuildMachine.Changes(readings) == if readings[|readings| - 1] == readings[0] then 0 else 1
  {
    hide At, Owned;
    var n := |ks| - 1;
    if n > 0 {
      var front, before := readings[..n], ks[..n];
      assert ReadFrom(front, before, clock, es, b);
      ReadOnce(front, before, clock, es, b);
      if readings[n - 1] != readings[0] {
        OneRestPerOwner(clock, es, b, ks[n - 1], ks[n]);
      }
    }
  }

  /** A session that is driving, with the epochs it has read coming from its own owner's run: all it has driven
      outside the approach is one budget, one more per PROGRESS_N newtons gained below the target, and
      one more, and one look, for the single rest its owner can have completed. */
  lemma DrivingIsBounded(m: BuildMachine.Machine, ks: seq<nat>, clock: nat, es: seq<Event>, b: nat)
    requires m.Valid() && m.Driving() && ReadFrom(m.past.readings, ks, clock, es, b)
    ensures m.past.driven <= m.past.longest +
      BuildMachine.BUDGET_MS *
        (2 + if m.past.start < m.target then (m.target - m.past.start) / BuildMachine.PROGRESS_N else 0)
  {
    m.ResponseTimeIsBounded();
    ReadOnce(m.past.readings, ks, clock, es, b);
  }

  /** The executor's answer to whatever the machine asks it to start. */
  ghost predicate Answers(startOk: bool, x: State, token: U32, sequence: U64, received: int, env: Env) {
    forall r: Admission.Request :: startOk ==> StartSegment(x, token, r, sequence, received, env).result.Ok?
  }

  /** Whatever happens after an approach was ended by BRAKE, as long as no answer to it is posted, the machine's next
      request is the session's fault. */
  method EndedApproachFaults(m: BuildMachine.Machine, measured: nat, at: U32, next: U64, now: U32, recent: bool,
    e: BuildMachine.Exec, x: BuildMachine.Exec, a: BuildMachine.Answers, ghost t: int,
    ghost s: State, ghost token: U32, ghost ended: Env, ghost es: seq<Event>, ghost received: int, ghost env: Env)
    returns (request: BuildMachine.Option<Admission.Request>)
    requires m.Valid() && now == Low(t) && (m.Driving() ==> m.source.clock <= t)
    requires Inv(s) && s.seg.on && s.seg.kind.Approach? && EndSegment(s, token, ended).result.Ok?
    requires forall i :: 0 <= i < |es| ==> !es[i].DoPost?
    requires forall n :: 0 <= n <= |es| ==> Run(EndSegment(s, token, ended).s, es[..n]).owner.open
    requires Answers(a.startOk, Run(EndSegment(s, token, ended).s, es), token, next, received, env)
    modifies m, m.source
    ensures m.Valid() && (request.Some? ==> !m.active && m.state == BuildMachine.Faulted)
  {
    hide Inv, StartSegment, EndSegment, Run, BuildMachine.Machine.Valid, BuildMachine.Machine.Driving;
    request := m.HandleSample(measured, at, next, now, recent, e, x, a, t);
    if request.Some? {
      OutputAuthority.EndedApproachIsStuck(s, token, ended, es, request.value, next, received, env);
    }
  }
}
