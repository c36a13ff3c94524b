/** What an accepted call leaves: the segment, the cutoff, the charges and the log it wrote, to the millisecond; and a
    run in which one owner pulses twice. */
module AcceptedCalls {
  import opened MachineWord
  import opened Admission
  import opened ExecutorSpec
  import opened ExecutorSafety
  import opened ExecutorTheorems
  import opened FailingCalls

  // ---------------------------------------------------------------- starts

  /** The hard limit of the segment `r` asks for: its own, or all that is left of the epoch's approach. */
  function HardLimit(l: Ledger, r: Request): int {
    if r.phase == PHASE_APPROACH then 8000 - l.approachReserved else r.hardMs
  }

  /** The time the segment or BRAKE it continues from is charged, both its milliseconds included. */
  function LeftOver(s: State): int {
    if s.seg.on then Now(s) - s.seg.started + 1 else if s.brake.on then Now(s) - s.brake.started + 1 else 0
  }

  /** The new segment is the one asked for, from now until its hard limit, on a lease of 130 ms from its frame. */
  predicate SegmentOf(n: State, m: State, r: Request, received: int) {
    && n.seg.on && !n.brake.on && n.motor.active && n.motor.press && n.motor.action.Segment?
    && n.bridge == Drive(n.motor.duty) && 4799 * r.command <= 24000 * n.motor.duty < 4799 * r.command + 24000
    && n.seg.kind == (if r.phase == PHASE_APPROACH then Approach
                      else Pulse(r.mode == MODE_FINE, r.phase == PHASE_TAPER))
    && n.seg.request == Plus(m.seg.request, 1) && n.seg.settle == r.settleMs && n.seg.target == r.target
    && n.seg.started == Now(m) && n.seg.hard == HardLimit(m.ledger, r)
    && n.seg.deadline == n.motor.backstop == Now(m) + n.seg.hard && n.seg.rxDeadline == received + 130
    && !n.after.post && n.after.reason.NotEnded? && !n.cool.offVerified && n.latch.Clear?
  }

  /** Its hard limit is reserved and what it continues from charged; nothing else of the account changes. */
  predicate Accounts(n: State, m: State, r: Request) {
    var approach, hard := r.phase == PHASE_APPROACH, HardLimit(m.ledger, r);
    && n.ledger.epoch == m.ledger.epoch
    && n.ledger.reserved == m.ledger.reserved + hard
    && n.ledger.energized == m.ledger.energized + LeftOver(m)
    && n.ledger.approachReserved == m.ledger.approachReserved + (if approach then hard else 0)
    && n.ledger.approachCommand == m.ledger.approachCommand + (if approach then 5000 * hard else 0)
    && n.ledger.exposures == (if m.seg.on then ChargeLast(m.ledger.exposures, LeftOver(m)) else m.ledger.exposures)
                             + [Exposure(approach, hard, 0)]
  }

  /** The owner goes on, with this frame as its latest and the segment in its log. */
  predicate Logs(n: State, m: State, r: Request, sequence: U64, received: int) {
    && n.owner.open && n.owner.token == m.owner.token && n.owner.haveSequence
    && n.owner.used == n.owner.feedback == sequence
    && n.owner.log == m.owner.log + [Admitted(r.phase != PHASE_APPROACH, sequence, received, Now(m),
                                              HardLimit(m.ledger, r), r.settleMs)]
  }

  /** A pulse has a compare after its normal width and an overflow after its hard limit, both counted from the last
      count of the timer; an approach has a lease to its receive deadline, or to its hard limit. */
  predicate CutOffAt(t: Timer, m: State, r: Request, received: int) {
    && t.armed && t.healthy && !t.acked && !t.overrun
    && if r.phase == PHASE_APPROACH then
         && !t.oneShot
         && t.compareAt == m.clock + 1000 * (Least(received + 130 - Now(m), HardLimit(m.ledger, r)) - 1) < t.overflowAt
       else
         && t.oneShot && t.overflowAt == t.compareAt + 1000 * (r.hardMs - r.normalMs)
         && m.clock - (if Occupied(m) then 100 else 1) < t.compareAt - 1000 * r.normalMs <= m.clock
  }

  predicate Started(n: State, m: State, r: Request, sequence: U64, received: int) {
    && SegmentOf(n, m, r, received) && Accounts(n, m, r) && Logs(n, m, r, sequence, received)
    && n.timer.irq && CutOffAt(n.timer, m, r, received)
  }

  lemma StartLeaves(s: State, token: U32, r: Request, sequence: U64, received: int, env: Env)
    requires Inv(s) && StartSegment(s, token, r, sequence, received, env).result.Ok?
    ensures Started(StartSegment(s, token, r, sequence, received, env).s, RefreshRest(s), r, sequence, received)
    ensures StartSegment(s, token, r, sequence, received, env).s.clock
         == s.clock + Turning(RefreshRest(s), r, env) + env.wait1 + env.wait2
  {
    hide Inv, StartReady, StartAdmitted, Admit, FailOff, Healthy, RefreshRest, LeavePrevious, Started, Turning, Core;
    var m := RefreshRest(s);
    RestKeeps(s);
    SameClock(s);
    ReadyExactly(m, env);
    var o := StartReady(m, env);
    CoreOf(m);
    OneAtATime(m);
    EnvelopeOf(o.s, r, received);
    AdmitLeaves(o.s, m, r, sequence, received, env);
  }

  lemma SameClock(s: State)
    ensures RefreshRest(s).clock == s.clock && RefreshRest(s).latch == s.latch && RefreshRest(s).after == s.after
  {
  }

  lemma EnvelopeOf(s: State, r: Request, received: int)
    requires StartAdmitted(s, r, received)
    ensures Envelope(r)
  {
  }

  /** What is left of a running approach or BRAKE, its clock and cutoff apart. */
  lemma LeavesIs(m: State)
    requires Core(m) && m.owner.open && (m.seg.on ==> !DeadlinesPassed(m))
    ensures var p := LeavePrevious(m);
      && !p.seg.on && !p.brake.on && p.owner == m.owner && p.latch == m.latch && p.timer == m.timer
      && p.clock == m.clock && p.seg == m.seg.(on := false) && p.bridge == m.bridge && (m.seg.on ==> !p.after.post)
      && (!m.seg.on ==> p.after == m.after)
      && p.ledger == m.ledger.(energized := m.ledger.energized + LeftOver(m), exposures := p.ledger.exposures)
      && p.ledger.exposures == if m.seg.on then ChargeLast(m.ledger.exposures, LeftOver(m)) else m.ledger.exposures
  {
    hide OwnerAgrees, Reserved, Accounted, Holding, Cooling;
  }

  lemma OneAtATime(s: State)
    requires Core(s)
    ensures !(s.seg.on && s.brake.on)
  {
    hide OwnerAgrees, Reserved, Accounted, Running, Holding, Cooling;
  }

  lemma ArmLeaves(s: State, m: State, r: Request, received: int, env: Env)
    requires s.owner.open && s.latch.Clear? && s.clock == m.clock && s.seg.hard == HardLimit(m.ledger, r) &&
      s.seg.rxDeadline == received + LEASE_MS && Envelope(r)
    requires s.timer == m.timer || s.timer == m.timer.(irq := true)
    requires ArmSegment(s, r, !Occupied(m), env).ok
    ensures var o := ArmSegment(s, r, !Occupied(m), env);
      && o.s == Pass(s.(timer := o.s.timer), Turning(m, r, env)) && Now(o.s) == Now(m)
      && CutOffAt(o.s.timer.(irq := true), m, r, received)
  {
    hide Irq;
    if r.phase == PHASE_APPROACH {
      var a := StartLease(s.timer, s.clock, Least(s.seg.rxDeadline - Now(s), s.seg.hard));
      CommitsExactly(s.(timer := a.t), env.nested, env.offOk);
    }
  }

  lemma AdmitLeaves(s: State, m: State, r: Request, sequence: U64, received: int, env: Env)
    requires Core(m) && m.owner.open && m.latch.Clear? && (m.seg.on ==> !DeadlinesPassed(m)) && !m.after.post
    requires s == m || s == m.(timer := m.timer.(irq := true))
    requires Envelope(r) && Admit(s, r, sequence, received, env).result.Ok?
    ensures Started(Admit(s, r, sequence, received, env).s, m, r, sequence, received)
    ensures Admit(s, r, sequence, received, env).s.clock == m.clock + Turning(m, r, env) + env.wait1 + env.wait2
  {
    hide Core, LeavePrevious, ArmSegment, Energise, FailOff, ApproachExhausted, DeadlinesPassed, Turning, CutOffAt,
      Duty;
    LeavesIs(m);
    TimerLeavesAlike(m, s.timer);
    var p := LeavePrevious(s);
    var v := Reserve(p, r, HardLimit(m.ledger, r), sequence, received);
    ArmLeaves(v, m, r, received, env);
    var o := ArmSegment(v, r, !Occupied(m), env);
    EnergiseLeaves(Begun(o.s, r, sequence, received), env);
    DutyIsLeast(r.command, r.command);
  }

  lemma EnergiseLeaves(s: State, env: Env)
    requires Energise(s, env).result.Ok?
    ensures var n := Energise(s, env).s;
      && n == s.(clock := s.clock + env.wait1 + env.wait2, bridge := Drive(s.motor.duty),
                 timer := s.timer.(irq := true), cool := n.cool,
                 ledger := s.ledger.(lit := n.ledger.lit, blind := n.ledger.blind))
      && !n.cool.offVerified && s.owner.open && s.latch.Clear? && s.timer.armed && s.timer.healthy
  {
    hide Committed, FailOff;
    CommitsExactly(Pass(s, env.wait1), env.nested, env.offOk);
    var o := Committed(Pass(s, env.wait1), env.nested, env.offOk);
    var d := o.s.(cool := o.s.cool.(offVerified := false));
    CommitsExactly(Pass(SetBridge(d, Drive(d.motor.duty)), env.wait2), env.nested, env.offOk);
  }

  // ---------------------------------------------------------------- renewals

  /** A renewed lease runs 130 ms from its frame, an approach's no longer than its hard limit: the deadlines are there,
      and the compare is in the millisecond before. What does not live on a lease only notes the frame. */
  lemma RefreshLeaves(s: State, token: U32, sequence: U64, received: int, env: Env)
    requires Inv(s) && Refresh(s, token, sequence, received, env).result.Ok?
    ensures var n := Refresh(s, token, sequence, received, env).s;
      var deadline := if s.seg.on then Least(received + 130, s.seg.deadline) else received + 130;
      && n.owner.feedback == sequence
      && if !Leased(s) then n == s.(owner := n.owner) && n.owner == s.owner.(feedback := sequence)
         else
           && n == s.(seg := s.seg.(rxDeadline := deadline), motor := s.motor.(backstop := deadline), brake := n.brake,
                      timer := n.timer, owner := n.owner)
           && n.brake == (if s.brake.on then s.brake.(deadline := deadline) else s.brake)
           && n.owner == s.owner.(feedback := sequence, log := s.owner.log + [Renewed(sequence, received)])
           && n.timer == s.timer.(irq := true, acked := false, compareAt := n.timer.compareAt)
           && 1000 * (deadline - 1) - 100 < n.timer.compareAt < 1000 * deadline
  {
    hide Inv, FailOff, LeaseBroken, Irq, Expired, Committed;
    if Leased(s) {
      var deadline := if s.seg.on then Least(received + LEASE_MS, s.seg.deadline) else received + LEASE_MS;
      CommitsExactly(s.(timer := MoveLease(s.timer, s.clock, deadline - Now(s))), env.nested, env.offOk);
    }
  }

  // ---------------------------------------------------------------- hand-overs

  /** A segment that was handed over brakes from now on, on the lease of its own frame; it is charged from its start to
      now, both milliseconds included, and waits for its answer. */
  predicate BrakesFromNow(n: State, s: State, reason: Reason) {
    var charged := Now(n) - s.seg.started + 1;
    && n.seg == s.seg.(on := false) && n.brake == BrakeRun(true, Now(n), s.seg.rxDeadline)
    && n.after == Aftermath(true, Now(n), reason)
    && n.ledger.energized == s.ledger.energized + charged && n.ledger.reserved == s.ledger.reserved
    && n.ledger.exposures == ChargeLast(s.ledger.exposures, charged) && n.ledger.epoch == s.ledger.epoch
    && n.owner == s.owner.(log := s.owner.log + [HandedOver(Now(n), charged)])
    && n.bridge.Brake? && n.latch == s.latch && n.cool.rest == s.cool.rest && n.cool.offVerified == s.cool.offVerified
    && n.motor == Motor(true, s.motor.press, 0, Braking, s.seg.rxDeadline)
    && n.timer == s.timer.(oneShot := false, acked := false, compareAt := n.timer.compareAt,
                           overflowAt := n.timer.overflowAt)
    && n.timer.overflowAt == (if s.timer.oneShot then s.timer.origin + OVERFLOW_US else s.timer.overflowAt)
    && 1000 * (s.seg.rxDeadline - 1) - 100 < n.timer.compareAt < 1000 * s.seg.rxDeadline
  }

  lemma HandOverLeaves(s: State, reason: Reason, f: Finish, offOk: bool)
    requires Core(s) && PulseIntact(s, f) && Soft(reason) && FinishPulse(s, reason, f, offOk).ok
    ensures var n := FinishPulse(s, reason, f, offOk).s;
      BrakesFromNow(n, s, reason) && n.clock == s.clock + f.wait1 + f.gap + f.wait2
  {
    hide OwnerAgrees, Reserved, Accounted, Holding, Cooling;
    PulseBounds(s);
  }

  /** So does an approach that is ended. */
  lemma ApproachLeaves(s: State, reason: Reason, env: Env)
    requires Core(s) && s.seg.on && s.seg.kind.Approach? && !s.timer.oneShot && s.timer.irq && Soft(reason)
    requires FinishApproach(s, reason, env).ok
    ensures var n := FinishApproach(s, reason, env).s;
      BrakesFromNow(n, s, reason) && n.clock == s.clock + env.finish.wait1 + env.finish.wait2
  {
    hide OwnerAgrees, Reserved, Accounted, Holding, Cooling, Irq, Expired, Committed;
    var b := FinishBegin(s, env.finish, env.offOk).s;
    CommitsExactly(b.(timer := MoveLease(b.timer, b.clock, b.seg.rxDeadline - Now(b))), env.nested, env.offOk);
  }

  // ---------------------------------------------------------------- owners

  /** A rested, idle and healthy executor that may be armed gives away the next token, never 0; any other gives none. */
  lemma BeginGrants(s: State, unlocked: bool)
    requires Inv(s)
    ensures var b, m := BeginBuild(s, unlocked), RefreshRest(s);
      && (b.result.Ok? <==>
          && unlocked && !m.cool.rest && !s.owner.open && !s.motor.active && s.latch.Clear? && s.bridge.Off?
          && !s.timer.armed && s.timer.healthy)
      && (b.result.Ok? ==>
          && b.s == m.(owner := b.s.owner, after := m.after.(post := false))
          && b.s.owner.open && b.s.owner.log == [] && !b.s.owner.haveSequence
          && b.s.owner.token == (if s.owner.token == 0xFFFF_FFFF then 1 else s.owner.token + 1))
      && (!b.result.Ok? ==> b.result.Invalid? && b.s == m)
  {
    hide Core, RestDone;
    if s.seg.on || s.brake.on { OccupiedPresses(s); }
  }

  // ---------------------------------------------------------------- stops

  /** STOP turns everything off whatever runs: it closes the owner, cancels the cutoff and the event waiting for the
      main loop, and charges what ran to now. */
  lemma StopLeaves(s: State, offOk: bool)
    requires Inv(s)
    ensures var r := Disable(s, offOk);
      && (r.result.Ok? <==> offOk) && r.s.bridge == (if offOk then Off else Lost)
      && !r.s.owner.open && !r.s.seg.on && !r.s.brake.on && !r.s.motor.active && r.s.motor.duty == 0
      && r.s.latch.Clear? && r.s.timer == Cancel(s.timer) && r.s.clock == s.clock
      && r.s.ledger.energized == s.ledger.energized + LeftOver(s)
      && (Occupied(s) ==> r.s.after.reason.EndedStop? || r.s.after.reason.EndedDeadline?)
      && (s.seg.on && Now(s) < s.seg.deadline ==>
          r.s.after.reason.EndedStop? && r.s.ledger.reserved == s.ledger.reserved)
  {
    hide OwnerAgrees, Reserved, Accounted, Holding, Cooling;
  }

  /** What a snapshot reports as exposure is what a STOP at that moment would leave charged. */
  lemma SnapshotIsChargedByStop(s: State, offOk: bool)
    requires Inv(s)
    ensures Disable(s, offOk).s.ledger.energized == SnapshotEnergized(s)
  {
    hide Inv, Disable;
    StopLeaves(s, offOk);
    CoreOf(s);
    OneAtATime(s);
  }

  /** The lease of an approach or of BRAKE runs out: everything goes off, and the main loop finds a backstop. */
  lemma LeaseRunsOut(s: State, f: Finish, offOk: bool)
    requires Inv(s) && Leased(s) && s.timer.armed && s.clock >= s.timer.compareAt
    ensures var n := Step(s, DoIrq(f, offOk));
      && Dead(n) && n.latch == Latched(Backstop) && n.after.reason.EndedDeadline?
      && n.ledger.energized == s.ledger.energized + LeftOver(s) && (s.brake.on ==> n.after.post == s.after.post)
  {
    hide OwnerAgrees, Reserved, Accounted, Holding, Cooling;
  }

  /** So does a pulse that meets its overflow; one that meets an unexplained interrupt, or a compare too late to be
      handed over, leaves an error. */
  lemma PulseRunsOut(s: State, f: Finish, offOk: bool)
    requires Inv(s) && s.timer.irq && s.seg.on && s.seg.kind.Pulse? && !s.timer.overrun
    ensures var n := Step(s, DoIrq(f, offOk));
      && (s.clock >= s.timer.overflowAt ==> n.latch == Latched(Backstop))
      && (s.clock < s.timer.overflowAt && Dead(n) ==> n.latch == Latched(Error))
      && (Dead(n) ==> n.after.reason.EndedDeadline? && n.ledger.energized > s.ledger.energized)
  {
    hide OwnerAgrees, Reserved, Accounted, Holding, Cooling, FinishPulse;
    var e := Classify(s.timer, s.clock);
    var t := s.timer.(healthy := s.timer.healthy && !e.Error?,
                      acked := s.timer.acked || (e.Normal? && s.timer.oneShot));
    FailedFinish(s.(timer := t), EndedNormal, f, offOk);
  }

  /** A hand-over that fails leaves the pulse running in its account; one that succeeds brakes. */
  lemma FailedFinish(s: State, reason: Reason, f: Finish, offOk: bool)
    requires s.seg.on
    ensures var o := FinishPulse(s, reason, f, offOk);
      if o.ok then o.s.brake.on
      else
        && o.s.seg == s.seg && o.s.brake == s.brake && o.s.latch == s.latch && o.s.clock >= s.clock
        && o.s.ledger.energized == s.ledger.energized
  {
  }

  /** The shared failing tail keeps an event that waits for the main loop, charges what ran to now, and gives its
      reason, unless the hard limit was overrun. */
  lemma FailLeaves(s: State, reason: Reason, offOk: bool)
    requires Core(s) && !Soft(reason)
    ensures var r := FailOff(s, reason, offOk);
      && r.latch == (if s.latch.Latched? then s.latch else Latched(Error)) && r.bridge == (if offOk then Off else Lost)
      && r.clock == s.clock && r.ledger.energized == s.ledger.energized + LeftOver(s)
      && (s.seg.on ==> r.after == Aftermath(true, Now(s), if Now(s) >= s.seg.deadline then EndedDeadline else reason))
      && (s.seg.on && Now(s) >= s.seg.deadline ==> r.cool.rest)
  {
    hide OwnerAgrees, Reserved, Accounted, Holding, Cooling;
  }

  // ---------------------------------------------------------------- service and guard

  /** What the main loop finds after a timer event: the event is consumed, and reported as an error when it was one or
      when a segment's end came too late. All but a normal one disables the output again. */
  lemma ServiceReports(s: State, offOk: bool)
    requires s.latch.Latched?
    ensures var r := Service(s, offOk);
      var error := s.latch.event.Error? || (s.motor.action.Segment? && s.after.reason.EndedDeadline?);
      var normal := s.latch.event.Normal? && !error;
      && r.s.latch.Clear? && !r.s.motor.active && r.s.motor.duty == 0 && r.s.timer == s.timer
      && (r.result.HardwareError? <==> if normal then !s.bridge.Off? else !offOk)
      && (r.result.TimerError? <==> error && offOk) && !r.result.Invalid?
      && (s.bridge.Off? && normal ==> r.s.bridge.Off?) && (!normal ==> r.s.bridge == if offOk then Off else Lost)
      && (!normal ==> !r.s.owner.open && !r.s.seg.on && !r.s.brake.on)
  {
  }

  /** Without an event it leaves an output alone that runs under an armed and healthy timer before its backstop, and an
      idle executor that is OFF with its timer at rest; anything else it turns off. */
  lemma ServiceWatches(s: State, offOk: bool)
    requires s.latch.Clear?
    ensures var r := Service(s, offOk);
      var runs := IsArmed(s.timer, s.clock) && s.timer.healthy && Now(s) < s.motor.backstop && !s.bridge.Off?;
      var rests := s.bridge.Off? && !IsArmed(s.timer, s.clock);
      && (r.result.Ok? <==> if s.motor.active then runs else rests && s.timer.healthy)
      && ((if s.motor.active then runs else rests) ==> r.s == s)
      && (!(if s.motor.active then runs else rests) ==> r.s.bridge == (if offOk then Off else Lost) && !r.s.timer.armed)
      && (s.motor.active && !runs ==> !r.s.motor.active && !r.s.owner.open && !r.s.seg.on && !r.s.brake.on)
  {
  }

  /** The guard leaves alone exactly a request that runs as planned, under an armed and healthy timer and with no event
      latched; anything else it turns off at once, and touches no account. */
  lemma GuardKeepsOrStops(s: State, readOk: bool, offOk: bool)
    requires Inv(s)
    ensures var r := Guard(s, readOk, offOk);
      var valid := (s.seg.on || s.brake.on) && IsArmed(s.timer, s.clock) && s.timer.healthy && readOk &&
                   s.latch.Clear? && s.bridge == if s.brake.on then Brake else Drive(s.motor.duty);
      && (valid ==> r == Returned(s, Ok))
      && (!valid ==> r.s == s.(bridge := if offOk then Off else Lost, timer := Cancel(s.timer), cool := r.s.cool))
      && (!valid ==> r.result == if !offOk then HardwareError else if s.latch.Latched? then Ok
                                 else if s.motor.active || !s.bridge.Off? then HardwareError
                                 else if IsArmed(s.timer, s.clock) then TimerError else Ok)
  {
    hide Core;
    if s.seg.on || s.brake.on { OccupiedPresses(s); }
  }

  // ---------------------------------------------------------------- a run of two pulses

  const SECOND := PULSE.(command := 2000, normalMs := 3, hardMs := 4)

  /** From boot: the pulse of `OnePulse` meets its compare and is handed over, 31 ms pass, a frame received since
      answers it, and the same frame starts the next. */
  function TwoPulses(): (run: seq<State>)
    ensures |run| == 5
  {
    var s0 := OnePulse(2000);
    var s1 := Step(s0, DoIrq(PROMPT, true));
    var s2 := Step(s1, DoPass(31000));
    var s3 := Step(s2, DoPost(1, 1, 2, 0, WORKING));
    [s0, s1, s2, s3, Step(s3, DoStart(1, SECOND, 2, 0, WORKING))]
  }

  lemma FirstIsHandedOver()
    ensures var n, t := TwoPulses()[1], FULL_REST_MS;
      && n.clock == 1000 * (t + 2) && n.bridge.Brake? && n.latch.Clear? && !n.cool.rest && !n.cool.offVerified
      && n.after == Aftermath(true, t + 2, EndedNormal) && n.motor == Motor(true, true, 0, Braking, t + 130)
      && n.seg == Seg(false, Pulse(false, false), 3, 30, 500, 1, t, t + 3, t + 130)
      && n.brake == BrakeRun(true, t + 2, t + 130)
      && n.owner == Owner(true, 1, true, 1, 1, [Admitted(true, 1, t, t, 3, 30), HandedOver(t + 2, 3)])
      && n.ledger.reserved == n.ledger.energized == 3
      && n.timer == Timer(true, true, true, false, 1000 * t, n.timer.compareAt, false, 1000 * t + OVERFLOW_US, false)
      && 1000 * (t + 129) - 100 < n.timer.compareAt
  {
    hide OnePulse, FinishPulse, Core, InTime;
    var s := OnePulse(2000);
    OnePulseIs(2000);
    OnePulseIsReached(2000);
    var a := s.(timer := s.timer.(acked := true));
    TimerIsFree(s, a.timer);
    PromptIsInTime(a);
    FinishExactly(a, EndedNormal, PROMPT, true);
    HandOverLeaves(a, EndedNormal, PROMPT, true);
  }

  /** Served on its compare and at once, well before the timer's last count, a pulse is handed over in time. */
  lemma PromptIsInTime(s: State)
    requires s.timer.armed && s.timer.acked && !s.timer.overrun && s.timer.overflowAt > s.clock + 200
    requires s.clock < 1000 * s.seg.deadline && s.clock + 2200 < 1000 * s.seg.rxDeadline
    ensures InTime(s, PROMPT)
  {
  }

  lemma FirstIsAnswered()
    ensures var b, n, t := TwoPulses()[1], TwoPulses()[3], FULL_REST_MS;
      && n.clock == 1000 * (t + 33) && !n.after.post && n.after == b.after.(post := false)
      && n.bridge == b.bridge && n.latch == b.latch && n.motor == b.motor && n.seg == b.seg && n.brake == b.brake
      && n.cool == b.cool && n.timer == b.timer && n.ledger.reserved == n.ledger.energized == 3
      && n.owner == b.owner.(log := b.owner.log + [Posted(2, t + 33)])
  {
    hide OnePulse, Irq, AcceptPost;
    FirstIsHandedOver();
    PostsExactly(TwoPulses()[2], 1, 1, 2, FULL_REST_MS + 33, WORKING);
  }

  lemma RunIsReached()
    ensures var run := TwoPulses();
      Inv(run[2]) && Inv(run[3]) && run[4] == StartSegment(run[3], 1, SECOND, 2, Now(run[3]), WORKING).s
  {
    hide OnePulse, Irq, StartSegment, AcceptPost, Inv;
    var run := TwoPulses();
    OnePulseIsReached(2000);
    StepKeeps(run[0], DoIrq(PROMPT, true));
    StepKeeps(run[1], DoPass(31000));
    StepKeeps(run[2], DoPost(1, 1, 2, 0, WORKING));
  }

  /** 31 ms into BRAKE, on a live lease and with the answer taken, the next pulse is admitted. */
  lemma SecondStarts(s: State)
    requires Inv(s) && s.clock == 1000 * (FULL_REST_MS + 33)
    requires s.brake == BrakeRun(true, FULL_REST_MS + 2, FULL_REST_MS + 130) && s.bridge.Brake? && s.latch.Clear?
    requires s.seg == Seg(false, Pulse(false, false), 3, 30, 500, 1, FULL_REST_MS, FULL_REST_MS + 3, FULL_REST_MS + 130)
    requires !s.after.post && s.after.ended == FULL_REST_MS + 2 && !s.cool.rest
    requires s.owner.open && s.owner.token == 1 && s.owner.haveSequence && s.owner.used == 1
    requires s.motor.active && s.motor.press && s.motor.action.Braking?
    requires s.timer == Timer(true, true, true, false, 1000 * FULL_REST_MS, s.timer.compareAt, false,
                              1000 * FULL_REST_MS + OVERFLOW_US, false)
    requires s.timer.compareAt > 1000 * (FULL_REST_MS + 128)
    ensures StartSegment(s, 1, SECOND, 2, FULL_REST_MS + 33, WORKING).result.Ok?
    ensures RefreshRest(s).(cool := s.cool) == s && Occupied(RefreshRest(s)) && !RefreshRest(s).cool.rest
  {
    hide Inv, StartSegment, LeavePrevious;
    StartFailsExactly(s, 1, SECOND, 2, FULL_REST_MS + 33, WORKING);
    assert Envelope(SECOND);
    StartAnswers(s, 1, SECOND, 2, FULL_REST_MS + 33, WORKING);
  }

  /** The answer is taken and the second pulse runs: one owner, four items in its log, and the first 3 ms, the 32 ms of
      BRAKE between and both hard limits accounted for. */
  lemma PulseFollowsPulse()
    ensures var run, t := TwoPulses(), FULL_REST_MS;
      && run[1].after.post && !run[3].after.post && run[3].bridge.Brake?
      && run[4].bridge.Drive? && run[4].seg.on && run[4].seg.started == t + 33 && run[4].seg.deadline == t + 37
      && run[4].owner.open && run[4].owner.token == 1 && !run[4].brake.on
      && run[4].owner.log == [Admitted(true, 1, t, t, 3, 30), HandedOver(t + 2, 3), Posted(2, t + 33),
                              Admitted(true, 2, t + 33, t + 33, 4, 30)]
      && run[4].ledger.reserved == 7 && run[4].ledger.energized == 3 + 32
  {
    hide OnePulse, Irq, FinishPulse, StartSegment, AcceptPost, Inv, CutOffAt, TwoPulses;
    FirstIsHandedOver();
    FirstIsAnswered();
    RunIsReached();
    var s := TwoPulses()[3];
    SecondStarts(s);
    StartLeaves(s, 1, SECOND, 2, FULL_REST_MS + 33, WORKING);
  }
}
