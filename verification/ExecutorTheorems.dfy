/** The executor's promises, stated over every run from boot. */
module ExecutorTheorems {
  import opened MachineWord
  import opened Admission
  import opened ExecutorSpec
  import opened ExecutorSafety
  import OwnerHistory

  // ---------------------------------------------------------------- the cutoff

  /** An enabled timer interrupt comes within LEASE_MS of the frame that last authorised or renewed the output. */
  predicate InForce(s: State) {
    && s.timer.armed && s.timer.healthy && s.timer.irq && s.owner.open
    && Cutoff(s.timer) <= 1000 * (Authority(s.owner.log) + LEASE_MS)
  }

  /** Whenever the bridge drives or brakes, its cutoff is in force and OFF does not count as verified. */
  lemma LitIsCutOff(clock: nat, es: seq<Event>)
    ensures var s := Run(Boot(clock), es); Lit(s.bridge) ==> InForce(s) && !s.cool.offVerified
  {
    hide ModeOf, Authority, Reserved, Accounted;
    RunKeeps(clock, es);
  }

  /** Whatever happens, a pulse that is still running keeps the cutoffs it was admitted with. */
  lemma PulseCutoffIsFinal(s: State, e: Event)
    requires Inv(s) && s.seg.on && s.seg.kind.Pulse?
    ensures var r := Step(s, e);
      r.seg.on ==>
        r.seg == s.seg &&
        (r.timer.armed ==> r.timer.compareAt == s.timer.compareAt && r.timer.overflowAt == s.timer.overflowAt)
  {
    hide Core, Irq, EndSegment, FailOff, Publish, Healthy, RequestValid;
    OccupiedPresses(s);
    match e
    case DoIrq(f, offOk) => if s.timer.irq { InterruptEndsPulse(s, f, offOk); }
    case DoStart(_, _, _, _, _) =>
    case DoEnd(token, env) => EndKeeps(s, token, env);
    case DoPost(token, request, sequence, age, env) => if s.after.post { PostNeedsBrake(s); }
    case DoRefresh(_, _, _, _) =>
    case DoDisable(offOk) => DisableCallKeeps(s, offOk);
    case DoService(offOk) => ServiceEndsPulse(s, offOk);
    case _ =>
  }

  lemma InterruptEndsPulse(s: State, f: Finish, offOk: bool)
    requires Inv(s) && s.timer.irq
    ensures !Irq(s, f, offOk).seg.on
  {
    hide Core, Irq;
    InterruptKeeps(s, f, offOk);
    if !Dead(Irq(s, f, offOk)) { LeasingIsSafe(Irq(s, f, offOk)); }
  }

  lemma ServiceEndsPulse(s: State, offOk: bool)
    requires Inv(s)
    ensures var r := Service(s, offOk).s; r.seg.on ==> r == s
  {
    hide Core;
    if s.latch.Latched? { ClosedIsDead(s); } else if s.seg.on { OccupiedPresses(s); }
  }

  /** Feedback renews a lease only before its compare, and otherwise turns everything off. */
  lemma PassedCompareIsNeverRenewed(s: State, token: U32, sequence: U64, age: nat, env: Env)
    requires Inv(s) && Leased(s)
    ensures var r := Refresh(s, token, sequence, Now(s) - age, env);
      match r.result
      case Ok =>
        && !Flagged(s.timer, s.clock) && s.clock < s.timer.compareAt
        && r.s.bridge == s.bridge && r.s.seg.on == s.seg.on && r.s.brake.on == s.brake.on && r.s.owner.open
        && Cutoff(r.s.timer) <= 1000 * (Now(s) - age + LEASE_MS)
      case Invalid => r.s == s
      case _ => Dead(r.s)
  {
    hide Core, RenewLease, FailOff;
    var received := Now(s) - age;
    var deadline := if s.seg.on then Least(received + LEASE_MS, s.seg.deadline) else received + LEASE_MS;
    RenewKeeps(s, deadline, env.nested, env.offOk);
    FailSafe(s, EndedDeadline, env.offOk);
    FailSafe(RenewLease(s, deadline - Now(s), env.nested, env.offOk).s, EndedDeadline, env.offOk);
  }

  // ---------------------------------------------------------------- the hand-over

  /** The pulse is charged no more than its reservation and BRAKE is on a live lease. */
  predicate HandedOverInTime(s: State, r: State) {
    && r.owner.open && r.owner.token == s.owner.token && r.brake.on && !r.seg.on && r.bridge.Brake? && r.after.post
    && 2 <= r.seg.rxDeadline - Now(r) <= LEASE_MS
    && 1 <= r.ledger.energized - s.ledger.energized <= s.seg.hard && r.ledger.reserved == s.ledger.reserved
    && r.timer.armed && !r.timer.oneShot && Cutoff(r.timer) <= 1000 * s.seg.rxDeadline
  }

  /** A running pulse as the last call left it, with hardware that answers. */
  predicate PulseIntact(s: State, f: Finish) {
    && s.seg.on && s.seg.kind.Pulse? && s.latch.Clear? && s.timer.armed && s.timer.healthy && s.timer.oneShot
    && s.bridge == Drive(s.motor.duty) && f.planOk && f.brakeOk
  }

  /** The instants that decide whether a running pulse is handed over: the counter read at `handed`, the
      registers written by `done`, and the last look at the tick. */
  predicate InTime(s: State, f: Finish) {
    var handed := s.clock + f.wait1;
    var done := handed + f.gap;
    && Ms(done + f.wait2) < s.seg.deadline
    && CounterEdge(s.timer, handed) + 100 < s.timer.overflowAt && !Flagged(s.timer, done)
    && done < CounterEdge(s.timer, handed) + (s.seg.rxDeadline - Ms(handed) - 1) * 1000
  }

  lemma FinishExactly(s: State, reason: Reason, f: Finish, offOk: bool)
    requires Core(s) && PulseIntact(s, f)
    ensures FinishPulse(s, reason, f, offOk).ok <==> InTime(s, f)
  {
    hide OwnerAgrees, Reserved, Accounted, Running, Holding, Cooling, IntoBrake;
    OccupiedPresses(s);
    PulseBounds(s);
  }

  lemma FinishInTime(s: State, reason: Reason, f: Finish, offOk: bool)
    requires Core(s) && PulseIntact(s, f) && Soft(reason)
    ensures var o := FinishPulse(s, reason, f, offOk);
      && (o.ok <==> InTime(s, f))
      && (o.ok ==> HandedOverInTime(s, o.s))
      && Core(o.s)
  {
    hide OwnerAgrees, Reserved, Accounted, Cooling, CounterEdge, InTime;
    FinishPulseKeeps(s, reason, f, offOk);
    OccupiedPresses(s);
    FinishExactly(s, reason, f, offOk);
  }

  /** The main loop reduces a running pulse: it ends braking, under the same owner, exactly when the hand-over
      completes in time. An end that meets the pulse's own compare is not in time, however early: its interrupt is
      served inside the call, and what that may have handed over is condemned as late. */
  lemma EndInTime(s: State, token: U32, env: Env)
    requires Inv(s) && PulseIntact(s, env.finish) && s.owner.token == token
    ensures var r := EndSegment(s, token, env);
      && (r.result.Ok? <==> InTime(s, env.finish))
      && (if r.result.Ok? then HandedOverInTime(s, r.s) else r.result.TimerError? && Dead(r.s))
      && (Flagged(s.timer, s.clock) ==> !r.result.Ok? && r.s.cool.rest && r.s.after.reason.EndedDeadline?)
  {
    hide Core, FailOff, FinishPulse, Committed, InTime, EndSegment;
    if Flagged(s.timer, s.clock) {
      FlaggedIsLate(s, env.finish);
      EndTooLate(s, token, env);
    } else {
      EndUnflagged(s, token, env);
    }
  }

  lemma EndUnflagged(s: State, token: U32, env: Env)
    requires Inv(s) && PulseIntact(s, env.finish) && s.owner.token == token && !Flagged(s.timer, s.clock)
    ensures var r := EndSegment(s, token, env);
      && (r.result.Ok? <==> InTime(s, env.finish))
      && (if r.result.Ok? then HandedOverInTime(s, r.s) else r.result.TimerError? && Dead(r.s))
  {
    hide Core, FailOff, FinishPulse, Committed, InTime;
    OccupiedPresses(s);
    CommitsUnflagged(s, env);
    var o := s.(timer := s.timer.(irq := true));
    TimerIsFree(s, o.timer);
    LateIsSafe(o, env);
    FinishInTime(o, EndedReduced, env.finish, env.offOk);
    FailSafe(FinishPulse(o, EndedReduced, env.finish, env.offOk).s, EndedDeadline, env.offOk);
    PulseBounds(s);
    EarlyEnough(s, o, env.finish);
  }

  /** A flag once up stays up, so the hand-over is already too late. */
  lemma FlaggedIsLate(s: State, f: Finish)
    requires Flagged(s.timer, s.clock)
    ensures !InTime(s, f)
  {
  }

  lemma CommitsUnflagged(s: State, env: Env)
    requires Inv(s) && s.seg.on && s.latch.Clear? && s.timer.armed && s.timer.healthy && !Flagged(s.timer, s.clock)
    ensures var o := Committed(s, env.nested, env.offOk); o.ok && o.s == s.(timer := s.timer.(irq := true))
  {
    hide Core;
    OccupiedPresses(s);
  }

  lemma EarlyEnough(s: State, o: State, f: Finish)
    requires o == s.(timer := s.timer.(irq := true))
    ensures InTime(o, f) <==> InTime(s, f)
    ensures InTime(s, f) ==> Now(s) < s.seg.deadline
  {
  }

  lemma PulseBounds(s: State)
    requires Core(s) && s.seg.on && s.seg.kind.Pulse?
    ensures s.seg.started <= Now(s) &&
      s.seg.deadline == s.seg.started + s.seg.hard < s.seg.rxDeadline <= s.seg.started + LEASE_MS
  {
    hide OwnerAgrees, Reserved, Accounted, Holding, Cooling;
  }

  /** The compare interrupts a running pulse: it ends braking exactly when the hand-over
      completes before the hard deadline and before the timer's last count. */
  lemma CompareInTime(s: State, f: Finish, offOk: bool)
    requires Inv(s) && PulseIntact(s, f) && Classify(s.timer, s.clock).Normal?
    ensures var r := Irq(s, f, offOk);
      && (!Dead(r) <==> InTime(s.(timer := s.timer.(acked := true)), f))
      && (!Dead(r) ==> HandedOverInTime(s, r))
  {
    hide Core, FinishPulse, ShutDown;
    OccupiedPresses(s);
    var t := s.timer.(acked := true);
    TimerIsFree(s, t);
    FinishInTime(s.(timer := t), EndedNormal, f, offOk);
    ShutDownIsDead(FinishPulse(s.(timer := t), EndedNormal, f, offOk).s, Error, offOk);
  }

  /** From the hard deadline on, and on a timer that is stopped, unhealthy or flagged however early, no end keeps the
      pulse's owner, and the motor must rest. */
  lemma EndTooLate(s: State, token: U32, env: Env)
    requires Inv(s) && s.seg.on && s.seg.kind.Pulse? && s.latch.Clear? && s.owner.token == token
    requires Now(s) >= s.seg.deadline || !s.timer.armed || !s.timer.healthy || Flagged(s.timer, s.clock)
    ensures var r := EndSegment(s, token, env);
      r.result.TimerError? && Dead(r.s) && r.s.cool.rest && r.s.after.reason.EndedDeadline?
  {
    hide Core, Committed, FailOff;
    OccupiedPresses(s);
    CommittedKeeps(s, env.nested, env.offOk);
    LateIsSafe(Committed(s, env.nested, env.offOk).s, env);
  }

  lemma InterruptTooLate(s: State, f: Finish, offOk: bool)
    requires Inv(s) && s.timer.irq && s.seg.on && s.seg.kind.Pulse?
    requires Now(s) >= s.seg.deadline
    ensures var r := Irq(s, f, offOk); Dead(r) && r.cool.rest && r.latch.Latched?
  {
    hide ModeOf, Reserved, Accounted, Holding, Cooling;
    InterruptKeeps(s, f, offOk);
  }

  const PULSE := Request(PHASE_BUILD, MODE_MICRO, 1000, 3, 2, 30, 500, false, 0)
  const PROMPT := Finish(true, true, 0, 0, 0)
  const WORKING := Env(true, true, true, true, 0, 0, 0, PROMPT, PROMPT)

  /** The run from boot in which a rested motor is given one pulse of 2 ms under a hard cutoff of 3 ms,
      `late` microseconds ago. */
  function OnePulse(late: nat): State {
    Step(Step(Step(Step(Boot(0), DoPass(1000 * FULL_REST_MS)), DoBegin(true)), DoStart(1, PULSE, 1, 0, WORKING)),
      DoPass(late))
  }

  lemma OnePulseIs(late: nat)
    ensures var s := OnePulse(late);
      && s.clock == 1000 * FULL_REST_MS + late && s.seg.on && s.seg.kind.Pulse? && s.seg.deadline == FULL_REST_MS + 3
      && s.seg.rxDeadline == FULL_REST_MS + LEASE_MS && s.owner.open && s.owner.token == 1 && s.motor.press &&
        s.latch.Clear?
      && s.bridge == Drive(s.motor.duty) && s.seg.started == FULL_REST_MS && !s.brake.on
      && s.ledger.energized == 0 && s.ledger.lit == late && s.ledger.blind == 0
      && s.timer == Timer(true, true, true, true, 1000 * FULL_REST_MS, 1000 * (FULL_REST_MS + 2), false,
        1000 * (FULL_REST_MS + 3), false)
      && s.seg == Seg(true, Pulse(false, false), 3, 30, 500, 1, FULL_REST_MS, FULL_REST_MS + 3, FULL_REST_MS + LEASE_MS)
      && s.owner == Owner(true, 1, true, 1, 1, [Admitted(true, 1, FULL_REST_MS, FULL_REST_MS, 3, 30)])
      && s.ledger.reserved == 3 && s.motor.active && s.motor.action.Segment? && !s.cool.rest && !s.cool.offVerified
  {
    hide Irq, FailOff, EndSegment, AcceptPost, Refresh, Disable, Service, Guard;
    var b := BeginBuild(Pass(Boot(0), 1000 * FULL_REST_MS), true);
    assert b.result.Ok? && b.s.owner.token == 1 && b.s.bridge.Off? && !b.s.timer.armed;
    assert Envelope(PULSE);
  }

  /** Before its hard deadline is not always soon enough: a compare served within the timer's last
      count, half a count before the deadline here, ends OFF with the owner closed. */
  lemma LastCountIsTooLate()
    ensures var s := OnePulse(2950);
      Now(s) < s.seg.deadline && PulseIntact(s, PROMPT) && Classify(s.timer, s.clock).Normal? &&
        Dead(Irq(s, PROMPT, true))
  {
    hide OnePulse;
    OnePulseIs(2950);
  }

  /** Nor is before its hard deadline by the main loop's end: half a millisecond before it, the compare is up, its
      interrupt alone would end braking, and the end that serves it condemns the motor to a full rest. */
  lemma EndMeetsCompare()
    ensures var s := OnePulse(2500);
      var r := EndSegment(s, 1, WORKING);
      && Now(s) < s.seg.deadline && PulseIntact(s, PROMPT) && HandedOverInTime(s, Irq(s, PROMPT, true))
      && r.result.TimerError? && Dead(r.s) && r.s.cool.rest && r.s.after.reason.EndedDeadline?
  {
    hide OnePulse, Irq, EndSegment, HandedOverInTime, Inv;
    var s := OnePulse(2500);
    OnePulseIs(2500);
    OnePulseIsReached(2500);
    EndInTime(s, 1, WORKING);
    CompareInTime(s, PROMPT, true);
  }

  lemma OnePulseIsReached(late: nat)
    ensures Inv(OnePulse(late))
  {
    hide Inv, Step;
    BootIsSafe(0);
    var s0 := Boot(0);
    var s1 := Step(s0, DoPass(1000 * FULL_REST_MS));
    var s2 := Step(s1, DoBegin(true));
    var s3 := Step(s2, DoStart(1, PULSE, 1, 0, WORKING));
    StepKeeps(s0, DoPass(1000 * FULL_REST_MS));
    StepKeeps(s1, DoBegin(true));
    StepKeeps(s2, DoStart(1, PULSE, 1, 0, WORKING));
    StepKeeps(s3, DoPass(late));
  }

  // ---------------------------------------------------------------- ownership

  /** In any run, what an owner does next is separated from what it did last by an end, a newer
      frame received after that end, and the settling time of the segment that ended. */
  lemma SegmentsAreSeparated(clock: nat, es: seq<Event>, i: nat, j: nat)
    ensures var log := Run(Boot(clock), es).owner.log;
      OwnerHistory.AdmittedAt(log, i) && OwnerHistory.AdmittedAt(log, j) && i < j && OwnerHistory.Quiet(log, i, j)
      ==> OwnerHistory.Follows(log, i, j)
  {
    var s := Run(Boot(clock), es);
    RunKeeps(clock, es);
    LogIsLegal(s);
    if OwnerHistory.AdmittedAt(s.owner.log, i) && OwnerHistory.AdmittedAt(s.owner.log, j) && i < j &&
      OwnerHistory.Quiet(s.owner.log, i, j) {
      OwnerHistory.SegmentsFollow(s.owner.log, i, j);
    }
  }

  /** An approach is only ever the first segment, and nothing happens after the close. */
  lemma OwnersRunInOrder(clock: nat, es: seq<Event>, k: nat)
    requires k < |Run(Boot(clock), es).owner.log|
    ensures var log := Run(Boot(clock), es).owner.log;
      && (log[k].Admitted? && !log[k].pulse ==> OwnerHistory.Quiet(log, -1, k))
      && (log[k].Closed? ==> k == |log| - 1)
  {
    RunKeeps(clock, es);
    LogIsLegal(Run(Boot(clock), es));
    OwnerHistory.LegalOrder(Run(Boot(clock), es).owner.log, k);
  }

  lemma LogIsLegal(s: State)
    requires Inv(s)
    ensures OwnerHistory.Legal(s.owner.log)
  {
    hide ModeOf, Reserved, Accounted, Running, Holding, Cooling;
  }

  /** A segment and BRAKE never run together, and without an owner nothing drives or brakes. */
  lemma OutputHasOneOwner(clock: nat, es: seq<Event>)
    ensures var s := Run(Boot(clock), es);
      && !(s.seg.on && s.brake.on)
      && (s.bridge.Drive? ==> s.seg.on && s.owner.open)
      && (s.bridge.Brake? ==> s.brake.on && s.owner.open)
      && (!s.owner.open ==> !s.seg.on && !s.brake.on && !s.timer.armed && (s.bridge.Off? || s.bridge.Lost?))
  {
    hide ModeOf, Reserved, Accounted, Running, Holding, Cooling;
    RunKeeps(clock, es);
  }

  predicate Bears(e: Event, token: U32) {
    match e
    case DoStart(t, _, _, _, _) => t == token
    case DoEnd(t, _) => t == token
    case DoPost(t, _, _, _, _) => t == token
    case DoRefresh(t, _, _, _) => t == token
    case _ => false
  }

  /** A call with a stale token, or after its owner closed, changes nothing at all. */
  lemma StaleTokenIsInert(s: State, e: Event, token: U32)
    requires Bears(e, token) && (token != s.owner.token || !s.owner.open)
    ensures Step(s, e) == s
  {
    hide FailOff, Admit, Committed, EndReleased, EndLate, RenewLease, RefreshRest, Healthy, StartReady;
  }

  // ---------------------------------------------------------------- the ledger

  /** `energized_upper_ms` as a snapshot reports it, running time included. */
  function SnapshotEnergized(s: State): int {
    s.ledger.energized + (if s.seg.on then Now(s) - s.seg.started + 1 else 0)
                       + (if s.brake.on then Now(s) - s.brake.started + 1 else 0)
  }

  /** All time in which the bridge was not known to be OFF is charged, but what passed while it was unknown and
      no account was open; and no reservation is ever refunded. */
  lemma LedgerBalances(clock: nat, es: seq<Event>)
    ensures var s := Run(Boot(clock), es);
      && s.ledger.lit <= 1000 * SnapshotEnergized(s) + s.ledger.blind
      && Owed(s.ledger.exposures) <= s.ledger.reserved
      && Approaches(s.ledger.exposures) <= 1
      && s.ledger.approachCommand == APPROACH_COMMAND_MS * Approaches(s.ledger.exposures)
      && (forall i :: 0 <= i < |s.ledger.exposures| && s.ledger.exposures[i].approach ==>
          s.ledger.exposures[i].hard == APPROACH_TOTAL_MS)
  {
    hide OwnerAgrees, Running, Holding, Cooling;
    RunKeeps(clock, es);
  }

  /** No event takes back a charge of the running epoch; a new epoch starts only from rest. */
  lemma ChargesOnlyGrow(clock: nat, es: seq<Event>, e: Event)
    ensures var s := Run(Boot(clock), es);
      Grows(s.ledger, Step(s, e).ledger) || NewEpoch(s, Step(s, e))
  {
    hide Inv, Step, NewEpoch, Grows;
    RunKeeps(clock, es);
    StepKeeps(Run(Boot(clock), es), e);
  }

  // ---------------------------------------------------------------- the rest epoch

  lemma {:induction false} DarkSince(clock: nat, es: seq<Event>, k: nat)
    requires k <= |es|
    ensures var was, s := Run(Boot(clock), es[..k]), Run(Boot(clock), es);
      && was.clock <= s.clock
      && (Lit(was.bridge) ==> Lit(s.bridge) || was.clock <= s.cool.darkSince)
  {
    hide Inv, Step, Lit, Boot, Grows, NewEpoch;
    if k == |es| {
      assert es[..k] == es;
    } else {
      var front := es[..|es| - 1];
      DarkSince(clock, front, k);
      assert front[..k] == es[..k];
      RunKeeps(clock, front);
      StepKeeps(Run(Boot(clock), front), es[|es| - 1]);
    }
  }

  /** When an epoch ends, the bridge has been neither driving nor braking for FULL_REST_MS. */
  lemma RestIsDark(clock: nat, es: seq<Event>, e: Event, k: nat)
    requires k <= |es| && Lit(Run(Boot(clock), es[..k]).bridge)
    requires Step(Run(Boot(clock), es), e).ledger.epoch != Run(Boot(clock), es).ledger.epoch
    ensures Now(Run(Boot(clock), es)) - Now(Run(Boot(clock), es[..k])) >= 108000
  {
    hide Inv, Step, Boot, Run;
    DarkSince(clock, es, k);
    ChargesOnlyGrow(clock, es, e);
  }

  predicate ReadsBack(e: Event) {
    match e
    case DoIrq(_, offOk) => offOk
    case DoDrop(off) => off
    case DoStart(_, _, _, _, env) => env.offOk
    case DoEnd(_, env) => env.offOk
    case DoPost(_, _, _, _, env) => env.offOk
    case DoRefresh(_, _, _, env) => env.offOk
    case DoDisable(offOk) => offOk
    case DoService(offOk) => offOk
    case DoGuard(_, offOk) => offOk
    case _ => true
  }

  /** Main calls and mishaps that energise nothing. */
  predicate Idles(e: Event) {
    ReadsBack(e) && (e.DoPass? || e.DoDisable? || e.DoService? || e.DoGuard? || e.DoSnapshot? || e.DoDrop?)
  }

  predicate Cooled(s: State, offAt: int) {
    s.bridge.Off? && s.cool.offVerified && s.cool.offAt == offAt
  }

  lemma {:induction false} StopsNeverRenewRest(s: State, es: seq<Event>)
    requires Inv(s) && Cooled(s, s.cool.offAt) && !s.seg.on && !s.brake.on
    requires forall i :: 0 <= i < |es| ==> Idles(es[i])
    ensures var r := Run(s, es); Inv(r) && Cooled(r, s.cool.offAt) && !r.seg.on && !r.brake.on && r.clock >= s.clock
  {
    hide Inv, Step;
    if |es| > 0 {
      var m := Run(s, es[..|es| - 1]);
      StopsNeverRenewRest(s, es[..|es| - 1]);
      StepKeeps(m, es[|es| - 1]);
      IdleStep(m, es[|es| - 1]);
    }
  }

  lemma IdleStep(s: State, e: Event)
    requires Idles(e) && Cooled(s, s.cool.offAt) && !s.seg.on && !s.brake.on
    ensures var r := Step(s, e); Cooled(r, s.cool.offAt) && !r.seg.on && !r.brake.on && r.clock >= s.clock
  {
    hide Healthy, RequestValid;
  }

  /** FULL_REST_MS after OFF was first verified the next look clears the ledger, however many STOPs came between. */
  lemma RestCompletes(s: State)
    requires Cooled(s, s.cool.offAt) && !s.seg.on && !s.brake.on && s.cool.rest
    requires FULL_REST_MS <= Now(s) - s.cool.offAt < WORD
    ensures var r := Step(s, DoSnapshot);
      !r.cool.rest && r.ledger == Ledger(Plus(s.ledger.epoch, 1), 0, 0, 0, 0, 0, 0, [])
  {
  }

  /** OFF is verified where the rest starts, not throughout: a guard whose disable did not read
      back, unseen by any accounting call, does not restart the clock. */
  lemma UnseenFailureDoesNotRestartRest()
    ensures var es := [DoGuard(true, false), DoPass(1000 * FULL_REST_MS), DoGuard(true, true), DoSnapshot];
      && Run(Boot(0), es[..2]).bridge.Lost? && Run(Boot(0), es).ledger.epoch == 1 && !Run(Boot(0), es).cool.rest
  {
    var es := [DoGuard(true, false), DoPass(1000 * FULL_REST_MS), DoGuard(true, true), DoSnapshot];
    var s0 := Boot(0);
    var s1 := Step(s0, es[0]);
    var s2 := Step(s1, es[1]);
    var s3 := Step(s2, es[2]);
    assert es[..0] == [] && es[..1][..0] == es[..0] && es[..2][..1] == es[..1] && es[..3][..2] == es[..2];
    assert Run(s0, es[..0]) == s0 && Run(s0, es[..1]) == s1 && Run(s0, es[..2]) == s2 && Run(s0, es[..3]) == s3;
  }
}
