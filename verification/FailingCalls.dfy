/** When a start, an end or a renewal fails and turns everything off: the guards of their failing branches, on the
    state the call finds, what it is asked and the delays it meets. */
module FailingCalls {
  import opened MachineWord
  import opened Admission
  import opened ExecutorSpec
  import opened ExecutorSafety
  import opened ExecutorTheorems

  /** What every check of the cutoff inside a call asks. */
  predicate CutoffHolds(s: State) {
    s.timer.armed && s.timer.healthy && !Flagged(s.timer, s.clock) && s.owner.open && s.latch.Clear?
  }

  /** A lease may be moved only while its compare is ahead. */
  predicate Renewable(s: State, remaining: int) {
    CutoffHolds(s) && 2 <= remaining <= 130 && s.clock < s.timer.compareAt
  }

  lemma CommitsExactly(s: State, f: Finish, offOk: bool)
    ensures var o := Committed(s, f, offOk);
      (o.ok <==> CutoffHolds(s)) && (o.ok ==> o.s == s.(timer := s.timer.(irq := true)))
  {
    hide Irq;
  }

  lemma RenewsExactly(s: State, remaining: int, f: Finish, offOk: bool)
    ensures RenewLease(s, remaining, f, offOk).ok <==> Renewable(s, remaining)
  {
    hide Irq, Expired, Committed;
    CommitsExactly(s.(timer := MoveLease(s.timer, s.clock, remaining)), f, offOk);
  }

  // ---------------------------------------------------------------- renewals

  /** The deadline a renewal sets: 130 ms from its frame, for an approach no later than its hard limit. */
  function Renewal(s: State, received: int): int {
    if s.seg.on then Least(received + 130, s.seg.deadline) else received + 130
  }

  /** The lease is past, the bridge is not as it should be, or the compare cannot be moved any more. */
  predicate RefreshFails(s: State, token: U32, sequence: U64, received: int, readOk: bool) {
    && s.owner.open && token == s.owner.token && s.latch.Clear? && Now(s) - received <= 20
    && (s.owner.haveSequence ==> After(sequence, s.owner.feedback))
    && (s.brake.on || (s.seg.on && s.seg.kind.Approach?))
    && !(&& Now(s) < s.seg.rxDeadline && readOk && Renewable(s, Renewal(s, received) - Now(s))
         && if s.brake.on then s.bridge.Brake? else s.bridge == Drive(s.motor.duty) && Now(s) < s.seg.deadline)
  }

  lemma RefreshFailsExactly(s: State, token: U32, sequence: U64, received: int, env: Env)
    ensures Refresh(s, token, sequence, received, env).result.TimerError? <==>
            RefreshFails(s, token, sequence, received, env.readOk)
    ensures Refresh(s, token, sequence, received, env).result.Invalid? <==>
      !(&& s.owner.open && token == s.owner.token && s.latch.Clear? && Now(s) - received <= 20
        && (s.owner.haveSequence ==> After(sequence, s.owner.feedback)))
  {
    hide RenewLease, Renewable, FailOff;
    var deadline := if s.seg.on then Least(received + LEASE_MS, s.seg.deadline) else received + LEASE_MS;
    RenewsExactly(s, deadline - Now(s), env.nested, env.offOk);
  }

  // ---------------------------------------------------------------- ends

  /** A running approach becomes BRAKE on its own lease. */
  predicate ApproachEnds(s: State, f: Finish) {
    var braked, done := Pass(s, f.wait1), Pass(s, f.wait1 + f.wait2);
    && CutoffHolds(s) && s.bridge == Drive(s.motor.duty) && f.planOk && f.brakeOk
    && Renewable(braked, s.seg.rxDeadline - Now(braked)) && Now(done) < s.seg.deadline && Now(done) < s.seg.rxDeadline
  }

  predicate EndFails(s: State, token: U32, f: Finish) {
    && s.owner.open && token == s.owner.token && s.seg.on && s.latch.Clear?
    && !(if s.seg.kind.Approach? then ApproachEnds(s, f) else PulseIntact(s, f) && InTime(s, f))
  }

  lemma EndFailsExactly(s: State, token: U32, env: Env)
    requires Inv(s)
    ensures EndSegment(s, token, env).result.TimerError? <==> EndFails(s, token, env.finish)
  {
    hide Core, EndSegment, PulseIntact, InTime, ApproachEnds;
    if s.owner.open && token == s.owner.token && s.seg.on && s.latch.Clear? {
      CoreOf(s);
      OccupiedPresses(s);
      if s.seg.kind.Approach? {
        ApproachEndsExactly(s, token, env);
      } else {
        PulseEndsExactly(s, token, env);
      }
    } else {
      EndRefused(s, token, env);
    }
  }

  lemma EndRefused(s: State, token: U32, env: Env)
    requires !(s.owner.open && token == s.owner.token && s.seg.on && s.latch.Clear?)
    ensures EndSegment(s, token, env).result.Invalid?
  {
  }

  lemma PulseEndsExactly(s: State, token: U32, env: Env)
    requires Inv(s) && s.seg.on && s.seg.kind.Pulse? && s.latch.Clear? && s.owner.token == token
    ensures EndSegment(s, token, env).result.TimerError? <==> !(PulseIntact(s, env.finish) && InTime(s, env.finish))
  {
    hide Core, Committed, FailOff, InTime, Handoff, FinishCommit;
    CoreOf(s);
    OccupiedPresses(s);
    CommitsExactly(s, env.nested, env.offOk);
    if PulseIntact(s, env.finish) {
      EndInTime(s, token, env);
    } else if CutoffHolds(s) {
      PulseIsOneShot(s);
    }
  }

  lemma PulseIsOneShot(s: State)
    requires Inv(s) && s.seg.on && s.seg.kind.Pulse? && CutoffHolds(s)
    ensures s.timer.oneShot
  {
    hide Core;
  }

  lemma ApproachEndsExactly(s: State, token: U32, env: Env)
    requires Inv(s) && s.seg.on && s.seg.kind.Approach? && s.owner.open && s.latch.Clear? && s.owner.token == token
    ensures EndSegment(s, token, env).result.TimerError? <==> !ApproachEnds(s, env.finish)
  {
    hide Core, Committed, RenewLease, FailOff, EndLate, IntoBrake;
    CoreOf(s);
    OccupiedPresses(s);
    CommitsExactly(s, env.nested, env.offOk);
    var c := s.(timer := s.timer.(irq := true));
    var b := FinishBegin(c, env.finish, env.offOk).s;
    RenewsExactly(b, b.seg.rxDeadline - Now(b), env.nested, env.offOk);
    RenewedIs(b, b.seg.rxDeadline - Now(b), env);
  }

  lemma RenewedIs(s: State, remaining: int, env: Env)
    ensures var o := RenewLease(s, remaining, env.nested, env.offOk); o.ok ==> o.s == s.(timer := o.s.timer)
  {
    hide Irq, Expired, Committed;
    CommitsExactly(s.(timer := MoveLease(s.timer, s.clock, remaining)), env.nested, env.offOk);
  }

  // ---------------------------------------------------------------- posts

  /** The answer to the last segment, on a frame newer than the one that started it, received after its end and at most
      20 ms old; from BRAKE under a cutoff still ahead, or from verified OFF. */
  predicate PostAnswers(s: State, token: U32, request: U32, sequence: U64, received: int, readOk: bool) {
    && s.owner.open && token == s.owner.token && s.latch.Clear? && s.after.post && request == s.seg.request && !s.seg.on
    && (s.after.reason.EndedNormal? || s.after.reason.EndedReduced?)
    && After(sequence, s.owner.used) && Now(s) - received <= 20 && received >= s.after.ended
    && if s.brake.on then
         && s.bridge.Brake? && readOk && CutoffHolds(s) && Now(s) < s.brake.deadline && Now(s) < s.seg.rxDeadline
         && s.motor.active && (s.motor.press || s.motor.action.Disabled?)
       else s.bridge.Off? && !s.motor.active && s.timer.healthy && !IsArmed(s.timer, s.clock)
  }

  /** It is taken exactly then, and nothing but the mark it consumes is touched; a refusal touches nothing, unless it
      meets a timer event under BRAKE, which is served and closes the owner. */
  lemma PostsExactly(s: State, token: U32, request: U32, sequence: U64, received: int, env: Env)
    ensures var o := AcceptPost(s, token, request, sequence, received, env);
      && (o.ok <==> PostAnswers(s, token, request, sequence, received, env.readOk))
      && (o.ok ==> !o.s.after.post && o.s.owner.log == s.owner.log + [Posted(sequence, received)] &&
                   o.s == s.(after := o.s.after, owner := o.s.owner,
                             timer := s.timer.(irq := s.timer.irq || s.brake.on)) &&
                   o.s.after == s.after.(post := false) && o.s.owner == s.owner.(log := o.s.owner.log))
      && (!o.ok ==> o.s == s || (s.brake.on && Flagged(s.timer, s.clock) && o.s == Irq(s, env.nested, env.offOk)))
  {
    hide Irq, Committed;
    CommitsExactly(s, env.nested, env.offOk);
    ServesFlagged(s, env.nested, env.offOk);
  }

  lemma ServesFlagged(s: State, f: Finish, offOk: bool)
    ensures var o := Committed(s, f, offOk);
      !o.ok && s.owner.open && s.latch.Clear? ==> o.s == s || (Flagged(s.timer, s.clock) && o.s == Irq(s, f, offOk))
  {
    hide Irq;
  }

  // ---------------------------------------------------------------- starts

  /** What the bridge and the timer must still be for a segment to begin from here. */
  predicate Begins(s: State, readOk: bool) {
    if s.brake.on then
      s.bridge.Brake? && readOk && CutoffHolds(s) && Now(s) < s.brake.deadline && Now(s) - s.after.ended >= s.seg.settle
    else if s.seg.on then s.bridge == Drive(s.motor.duty) && readOk && CutoffHolds(s) && Now(s) < s.seg.deadline &&
      Now(s) < s.seg.rxDeadline
    else s.bridge.Off? && !IsArmed(s.timer, s.clock)
  }

  /** The time that passes while a lease is turned into a pulse's cutoffs. */
  function Turning(s: State, r: Request, env: Env): nat {
    if r.phase == PHASE_APPROACH || !Occupied(s) then 0 else Within(s.clock, env.gap)
  }

  /** The cutoff the segment gets. */
  function NewCutoff(s: State, r: Request, received: int, env: Env): Armed {
    if r.phase == PHASE_APPROACH then
      StartLease(s.timer, s.clock,
        Least(received + LEASE_MS - Now(s), APPROACH_TOTAL_MS - LeavePrevious(s).ledger.approachReserved))
    else if Occupied(s) then PulseCutoffs(s.timer, s.clock, r.normalMs, r.hardMs, Within(s.clock, env.gap))
    else Arm(s.timer, s.clock, r.normalMs, r.hardMs, env.startOk)
  }

  /** It is armed, and still ahead when the bridge was energised and read back. */
  predicate Armable(s: State, r: Request, received: int, env: Env) {
    var a := NewCutoff(s, r, received, env);
    && a.ok && env.applyOk
    && !Flagged(a.t, s.clock + Turning(s, r, env) + env.wait1 + env.wait2)
  }

  /** The cutoff can be armed and does not pass before the bridge is energised and read back. For an approach it is its
      lease, of at least 2 ms; for a pulse its normal width, counted from the last count of a lease still ahead, or from
      now when none runs. */
  predicate Launches(s: State, r: Request, received: int, env: Env) {
    var edge, turned := CounterEdge(s.timer, s.clock), s.clock + Turning(s, r, env);
    var lit := turned + env.wait1 + env.wait2;
    && env.applyOk && s.timer.healthy
    && if r.phase == PHASE_APPROACH then
         var lease := Least(received + 130 - Now(s), 8000 - s.ledger.approachReserved);
         !s.timer.armed && 2 <= lease <= 130 && lit < s.clock + 1000 * (lease - 1)
       else if s.seg.on || s.brake.on then
         && s.timer.armed && !s.timer.oneShot && !Flagged(s.timer, turned) && s.clock < s.timer.compareAt
         && edge + 1000 * r.hardMs <= s.timer.origin + 100 * 0x1_0000_0000 && lit < edge + 1000 * r.normalMs
         && turned < s.timer.overflowAt
       else env.startOk && lit < s.clock + 1000 * r.normalMs
  }

  /** No request is refused outright that bears the open owner's token and a newer frame, with no event latched and no
      answer awaited; only an approach may still run, and only into a pulse. */
  predicate Admissible(s: State, token: U32, r: Request, sequence: U64) {
    && s.owner.open && token == s.owner.token && s.latch.Clear? && !s.after.post
    && (s.owner.haveSequence ==> After(sequence, s.owner.used))
    && (s.seg.on || (s.motor.active && !s.brake.on) ==>
        s.seg.on && s.seg.kind.Approach? && r.phase != PHASE_APPROACH)
  }

  /** The envelope, the owner's own target, a pulse that ends within the lease of its frame, and of an approach that
      its epoch has 2 ms and the command-time for it left. */
  predicate Affordable(s: State, r: Request, received: int) {
    && Envelope(r) && (s.owner.haveSequence ==> r.target == s.seg.target)
    && if r.phase == PHASE_APPROACH then
         && !s.brake.on && s.ledger.approachReserved + 2 <= 8000
         && s.ledger.approachCommand + 5000 * (8000 - s.ledger.approachReserved) <= 40_000_000
       else r.hardMs < 130 - (Now(s) - received)
  }

  predicate StartFails(s: State, token: U32, r: Request, sequence: U64, received: int, env: Env) {
    var m := RefreshRest(s);
    && Admissible(s, token, r, sequence)
    && !(&& !m.cool.rest && Now(m) - received <= 20 && Begins(m, env.readOk) && Affordable(m, r, received)
         && Launches(m, r, received, env))
  }

  lemma LaunchesExactly(s: State, r: Request, received: int, env: Env)
    requires Envelope(r) && Begins(s, env.readOk) && (r.phase != PHASE_APPROACH ==> r.hardMs < LEASE_MS)
    requires r.phase == PHASE_APPROACH ==> LeavePrevious(s).ledger.approachReserved == s.ledger.approachReserved
    ensures Armable(s, r, received, env) <==> Launches(s, r, received, env)
  {
    hide LeavePrevious;
  }

  lemma ReadyExactly(s: State, env: Env)
    ensures var o := StartReady(s, env);
      (o.ok <==> Begins(s, env.readOk)) && (o.ok ==> o.s == s || o.s == s.(timer := s.timer.(irq := true)))
  {
    hide Committed;
    CommitsExactly(s, env.nested, env.offOk);
  }

  lemma EnergisesExactly(s: State, env: Env)
    requires s.owner.open && s.latch.Clear? && s.timer.armed && s.timer.healthy
    ensures Energise(s, env).result.Ok? <==> env.applyOk && !Flagged(s.timer, s.clock + env.wait1 + env.wait2)
    ensures Energise(s, env).result.Ok? || Energise(s, env).result.HardwareError?
  {
    hide Committed, FailOff;
    CommitsExactly(Pass(s, env.wait1), env.nested, env.offOk);
    var o := Committed(Pass(s, env.wait1), env.nested, env.offOk);
    if o.ok {
      var d := o.s.(cool := o.s.cool.(offVerified := false));
      CommitsExactly(Pass(SetBridge(d, Drive(d.motor.duty)), env.wait2), env.nested, env.offOk);
    }
  }

  lemma ArmsExactly(s: State, m: State, r: Request, hard: int, received: int, env: Env)
    requires s.owner.open && s.latch.Clear? && s.clock == m.clock && s.seg.hard == hard &&
      s.seg.rxDeadline == received + LEASE_MS
    requires s.timer == m.timer || s.timer == m.timer.(irq := true)
    requires hard == if r.phase == PHASE_APPROACH then APPROACH_TOTAL_MS - LeavePrevious(m).ledger.approachReserved
      else r.hardMs
    ensures var o, a := ArmSegment(s, r, !Occupied(m), env), NewCutoff(m, r, received, env);
      && (o.ok <==> a.ok)
      && (o.ok ==> o.s == Pass(s.(timer := o.s.timer), Turning(m, r, env)) && o.s.timer.armed && o.s.timer.healthy &&
                   forall clock :: Flagged(o.s.timer, clock) <==> Flagged(a.t, clock))
  {
    hide Irq, LeavePrevious;
  }

  /** Leaving a running approach in time, or BRAKE, keeps the owner and everything the cutoff is computed from. */
  lemma LeavesOpen(s: State)
    requires Core(s) && s.owner.open && (s.seg.on ==> !DeadlinesPassed(s))
    ensures var p := LeavePrevious(s); p.owner.open && p.latch == s.latch && p.timer == s.timer && p.clock == s.clock
  {
    hide OwnerAgrees, Reserved, Accounted, Holding, Cooling;
  }

  lemma TimerLeavesAlike(s: State, t: Timer)
    ensures LeavePrevious(s.(timer := t)) == LeavePrevious(s).(timer := t)
  {
  }

  lemma AdmitsExactly(s: State, m: State, r: Request, sequence: U64, received: int, env: Env)
    requires Core(m) && m.owner.open && m.latch.Clear? && (m.seg.on ==> !DeadlinesPassed(m))
    requires s == m || s == m.(timer := m.timer.(irq := true))
    ensures Admit(s, r, sequence, received, env).result.HardwareError? <==>
      !((r.phase == PHASE_APPROACH ==> !ApproachExhausted(LeavePrevious(m).ledger)) && Armable(m, r, received, env))
  {
    hide Core, LeavePrevious, ArmSegment, Energise, FailOff, NewCutoff, ApproachExhausted, DeadlinesPassed, Turning,
      Flagged;
    LeavesOpen(m);
    TimerLeavesAlike(m, s.timer);
    var p := LeavePrevious(s);
    var hard := if r.phase == PHASE_APPROACH then APPROACH_TOTAL_MS - p.ledger.approachReserved else r.hardMs;
    var v := Reserve(p, r, hard, sequence, received);
    ArmsExactly(v, m, r, hard, received, env);
    var o := ArmSegment(v, r, !Occupied(m), env);
    if o.ok { EnergisesExactly(Begun(o.s, r, sequence, received), env); }
  }

  /** What runs, or nothing, being as it should is all the health a start asks for beyond the timer's own. */
  lemma HealthyWhenReady(s: State, readOk: bool)
    requires Inv(s) && s.latch.Clear? && (s.motor.active ==> s.seg.on || s.brake.on)
    ensures Begins(s, readOk) ==> (Healthy(s, readOk) <==> s.timer.healthy)
  {
    hide Core;
    if s.seg.on || s.brake.on { OccupiedPresses(s); }
  }

  lemma BeginsInTime(s: State, readOk: bool)
    requires Core(s) && Begins(s, readOk)
    ensures s.seg.on ==> !DeadlinesPassed(s)
  {
    hide OwnerAgrees, Reserved, Accounted, Running, Holding, Cooling;
  }

  lemma AffordsExactly(s: State, o: State, r: Request, received: int)
    requires o == s.(timer := o.timer) && (r.phase == PHASE_APPROACH ==> !s.seg.on)
    ensures Affordable(s, r, received) <==>
      StartAdmitted(o, r, received) && (r.phase == PHASE_APPROACH ==> !ApproachExhausted(LeavePrevious(s).ledger))
    ensures r.phase == PHASE_APPROACH ==> LeavePrevious(s).ledger.approachReserved == s.ledger.approachReserved
    ensures Affordable(s, r, received) ==> Envelope(r) && (r.phase != PHASE_APPROACH ==> r.hardMs < LEASE_MS)
  {
  }

  lemma NeedsHealth(s: State, r: Request, received: int, env: Env)
    ensures Launches(s, r, received, env) ==> s.timer.healthy
  {
  }

  lemma AdmissibleExactly(s: State, token: U32, r: Request, sequence: U64)
    ensures Admissible(s, token, r, sequence) <==> !StartRefused(s, token, r, sequence)
  {
  }

  lemma StartAnswers(s: State, token: U32, r: Request, sequence: U64, received: int, env: Env)
    ensures var a := StartSegment(s, token, r, sequence, received, env).result;
      && (a.Invalid? <==> StartRefused(s, token, r, sequence)) && !a.TimerError?
  {
    hide FailOff, Committed, ArmSegment, RefreshRest, Healthy, StartReady, LeavePrevious, StartAdmitted;
  }

  lemma StartFailsExactly(s: State, token: U32, r: Request, sequence: U64, received: int, env: Env)
    requires Inv(s)
    ensures StartSegment(s, token, r, sequence, received, env).result.HardwareError? <==>
            StartFails(s, token, r, sequence, received, env)
    ensures StartSegment(s, token, r, sequence, received, env).result.Invalid? <==> !Admissible(s, token, r, sequence)
  {
    hide Inv, StartReady, StartAdmitted, Affordable, Admit, Launches, Armable, ApproachExhausted, FailOff, Healthy,
      RefreshRest, LeavePrevious, Begins, Envelope, StartRefused;
    AdmissibleExactly(s, token, r, sequence);
    StartAnswers(s, token, r, sequence, received, env);
    if Admissible(s, token, r, sequence) {
      var m := RefreshRest(s);
      RestKeeps(s);
      ReadyExactly(m, env);
      HealthyWhenReady(m, env.readOk);
      NeedsHealth(m, r, received, env);
      var o := StartReady(m, env);
      if o.ok {
        CoreOf(m);
        BeginsInTime(m, env.readOk);
        AffordsExactly(m, o.s, r, received);
        AdmitsExactly(o.s, m, r, sequence, received, env);
        if Affordable(m, r, received) { LaunchesExactly(m, r, received, env); }
      }
    }
  }
}
