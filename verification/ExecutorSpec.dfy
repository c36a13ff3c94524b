/** The build executor and its cutoff timer as one state machine over unbounded time.
    `clock` counts microseconds; the firmware's millisecond tick is its floor. Answers
    of the hardware, and the time that passes where the code re-reads its tick inside a
    critical section, are parameters. Fields marked "record" only remember what happened. */
module ExecutorSpec {
  import opened MachineWord
  import opened Admission

  datatype Bridge =
    | Off
    | Drive(duty: nat)
    | Brake
    | Lost               // a disable that did not read back: nothing is known

  datatype TimerEvent = Normal | Backstop | Error

  datatype Reason = NotEnded | EndedNormal | EndedReduced | EndedStop | EndedDeadline | EndedHardware

  datatype Kind = Unused | Approach | Pulse(fine: bool, taper: bool)

  datatype Result = Ok | Invalid | TimerError | HardwareError

  datatype Action = Disabled | Segment | Braking

  /** TIM5: the instants of its compare and its overflow. `origin` is when its counter
      read zero, `acked` a compare already served. */
  datatype Timer = Timer(
    armed: bool, healthy: bool, irq: bool, oneShot: bool,
    origin: int, compareAt: int, acked: bool, overflowAt: int, overrun: bool)

  datatype Seg = Seg(
    on: bool, kind: Kind, hard: int, settle: nat, target: nat, request: U32,
    started: int, deadline: int, rxDeadline: int)

  datatype BrakeRun = BrakeRun(on: bool, started: int, deadline: int)

  datatype Aftermath = Aftermath(post: bool, ended: int, reason: Reason)

  /** One admitted segment of the current exposure epoch and what it was charged. */
  datatype Exposure = Exposure(approach: bool, hard: int, charged: int)

  datatype Ledger = Ledger(
    epoch: U32, reserved: int, approachReserved: int, approachCommand: int, energized: int,
    lit: int,                 // record: microseconds this epoch in which the bridge was not known to be OFF
    blind: int,               // record: those of them in which it was unknown and nothing was being charged
    exposures: seq<Exposure>) // record

  /** What one owner did, in order. Times are millisecond ticks. */
  datatype Item =
    | Admitted(pulse: bool, sequence: U64, received: int, at: int, hard: int, settle: nat)
    | HandedOver(at: int, charged: int)
    | Posted(sequence: U64, received: int)
    | Renewed(sequence: U64, received: int)
    | Rested
    | Closed

  datatype Owner = Owner(
    open: bool, token: U32, haveSequence: bool, used: U64, feedback: U64,
    log: seq<Item>)           // record

  datatype Cool = Cool(
    rest: bool, offVerified: bool, offAt: int,
    darkSince: int)           // record: clock when the bridge last stopped driving or braking

  datatype Motor = Motor(active: bool, press: bool, duty: nat, action: Action, backstop: int)

  datatype Latch = Clear | Latched(event: TimerEvent)

  datatype State = State(
    clock: int, bridge: Bridge, timer: Timer, seg: Seg, brake: BrakeRun, after: Aftermath,
    ledger: Ledger, owner: Owner, cool: Cool, motor: Motor, latch: Latch)

  /** Microseconds a few register writes may take: less than a minute. */
  type Brief = x: nat | x < 60_000_000

  /** Answers of the hardware and delays met while a pulse is turned into BRAKE: before the first
      re-read of the tick, inside the timer's transition, and before the last re-read. */
  datatype Finish = Finish(planOk: bool, brakeOk: bool, wait1: nat, gap: Brief, wait2: nat)

  datatype Env = Env(
    offOk: bool,          // disabling reads back as disabled
    readOk: bool,         // configuration read-backs succeed
    applyOk: bool,        // energising succeeds and verifies
    startOk: bool,        // TIM5 reads back as counting after arming
    gap: Brief,           // inside the timer's transition to a pulse
    wait1: nat, wait2: nat,
    finish: Finish,       // for a hand-over this call performs
    nested: Finish)       // for one performed by a timer event met inside the call

  datatype Outcome = Outcome(s: State, ok: bool)
  datatype Returned = Returned(s: State, result: Result)

  // ---------------------------------------------------------------- time and bridge

  function Ms(t: int): int {
    t / 1000
  }

  function Now(s: State): int {
    Ms(s.clock)
  }

  function Least(a: int, b: int): int {
    if a <= b then a else b
  }

  predicate Lit(b: Bridge) {
    b.Drive? || b.Brake?
  }

  /** The bridge may be on, and neither a segment nor BRAKE is being charged for it. */
  predicate Unwatched(s: State) {
    s.bridge.Lost? && !s.seg.on && !s.brake.on
  }

  function Pass(s: State, us: nat): State {
    s.(clock := s.clock + us,
       ledger := s.ledger.(lit := if s.bridge.Off? then s.ledger.lit else s.ledger.lit + us,
                           blind := if Unwatched(s) then s.ledger.blind + us else s.ledger.blind))
  }

  function SetBridge(s: State, bridge: Bridge): State {
    s.(bridge := bridge,
       cool := if Lit(s.bridge) && !Lit(bridge) then s.cool.(darkSince := s.clock) else s.cool)
  }

  function DisableBridge(s: State, offOk: bool): State {
    SetBridge(s, if offOk then Off else Lost)
  }

  // ---------------------------------------------------------------- cutoff timer

  const OVERFLOW_US := WORD * 100

  predicate IsArmed(t: Timer, clock: int) {
    t.armed && !(t.oneShot && clock >= t.overflowAt)
  }

  predicate Overflowed(t: Timer, clock: int) {
    t.armed && clock >= t.overflowAt
  }

  predicate Compared(t: Timer, clock: int) {
    t.armed && !t.acked && clock >= t.compareAt
  }

  predicate Flagged(t: Timer, clock: int) {
    Overflowed(t, clock) || Compared(t, clock) || t.overrun
  }

  /** The next instant at which TIM5 interrupts. */
  function Cutoff(t: Timer): int {
    if t.acked then t.overflowAt else Least(t.compareAt, t.overflowAt)
  }

  /** The instant the counter last advanced. */
  function CounterEdge(t: Timer, clock: int): int {
    clock - (clock - t.origin) % 100
  }

  function Cancel(t: Timer): Timer {
    Timer(false, t.healthy, false, false, 0, 0, false, 0, false)
  }

  predicate TransitionReady(t: Timer, clock: int) {
    IsArmed(t, clock) && t.healthy && !Flagged(t, clock)
  }

  datatype Armed = Armed(t: Timer, ok: bool)

  /** One pulse: a normal compare and an independent hard overflow. */
  function Arm(t: Timer, clock: int, normal: int, hard: int, startOk: bool): Armed {
    if !t.healthy || normal == 0 || hard <= normal then Armed(Cancel(t), false)
    else if !startOk then Armed(Cancel(t).(healthy := false), false)
    else Armed(Timer(true, true, false, true, clock, clock + normal * 1000, false, clock + hard * 1000, false), true)
  }

  predicate LeaseLength(remaining: int) {
    1 < remaining <= LEASE_MS
  }

  function StartLease(t: Timer, clock: int, remaining: int): Armed {
    if !t.healthy || t.armed || !LeaseLength(remaining) then Armed(t, false)
    else Armed(Timer(true, true, false, false, clock, clock + (remaining - 1) * 1000, false, clock + OVERFLOW_US,
      false), true)
  }

  /** From a pulse's hard cutoff to a receive lease, keeping the counter. `gap` passes between the
      counter's reading and the second check, under the old cutoffs. */
  function Handoff(t: Timer, clock: int, remaining: int, gap: Brief): Armed {
    if !TransitionReady(t, clock) || !t.oneShot || CounterEdge(t, clock) + 100 >= t.overflowAt ||
      !LeaseLength(remaining)
    then Armed(t, false)
    else
      var compareAt := CounterEdge(t, clock) + (remaining - 1) * 1000;
      if !TransitionReady(t, clock + gap) || clock + gap >= compareAt then Armed(t, false)
      else Armed(t.(oneShot := false, acked := false, compareAt := compareAt, overflowAt := t.origin + OVERFLOW_US),
        true)
  }

  /** From a receive lease to a pulse's two cutoffs, keeping the counter. `gap` as above. */
  function PulseCutoffs(t: Timer, clock: int, normal: int, hard: int, gap: Brief): Armed {
    if !TransitionReady(t, clock) || t.oneShot || clock >= t.compareAt || normal == 0 || hard <= normal ||
       hard > LEASE_MS || CounterEdge(t, clock) + hard * 1000 - t.origin > OVERFLOW_US
    then Armed(t, false)
    else
      var overflowAt := CounterEdge(t, clock) + hard * 1000;
      if !TransitionReady(t, clock + gap) || CounterEdge(t, clock + gap) + 100 >= overflowAt then Armed(t, false)
      else Armed(t.(oneShot := true, acked := false,
                    compareAt := CounterEdge(t, clock) + normal * 1000, overflowAt := overflowAt), true)
  }

  /** As much of a delay as stays within the running tick. */
  function Within(clock: int, gap: nat): Brief {
    if clock % 1000 + gap < 1000 then gap else 999 - clock % 1000
  }

  function MoveLease(t: Timer, clock: int, remaining: int): Timer {
    t.(acked := false, compareAt := CounterEdge(t, clock) + (remaining - 1) * 1000)
  }

  // ---------------------------------------------------------------- owner, ledger, cooling

  function Note(o: Owner, i: Item): Owner {
    o.(log := o.log + [i])
  }

  function Revoke(o: Owner): Owner {
    if o.open then Note(o, Closed).(open := false) else o
  }

  predicate Soft(r: Reason) {
    r.EndedNormal? || r.EndedReduced?
  }

  function ChargeLast(es: seq<Exposure>, elapsed: int): seq<Exposure> {
    if |es| == 0 then es
    else es[..|es| - 1] + [es[|es| - 1].(charged := elapsed)]
  }

  function Excess(elapsed: int, hard: int): int {
    if elapsed > hard then elapsed - hard else 0
  }

  function ChargeSegment(l: Ledger, approach: bool, hard: int, elapsed: int): Ledger {
    l.(energized := l.energized + elapsed,
       reserved := l.reserved + Excess(elapsed, hard),
       approachReserved := l.approachReserved + (if approach then Excess(elapsed, hard) else 0),
       exposures := ChargeLast(l.exposures, elapsed))
  }

  /** `MotorExecutor_BuildRecordPulseEnd`. */
  function RecordPulseEnd(s: State, now: int, reason: Reason): State {
    if !s.seg.on then s else
    var elapsed := now - s.seg.started + 1;
    var why := if elapsed > s.seg.hard then EndedDeadline else reason;
    s.(seg := s.seg.(on := false),
       after := Aftermath(true, now, why),
       ledger := ChargeSegment(s.ledger, s.seg.kind.Approach?, s.seg.hard, elapsed),
       cool := s.cool.(rest := s.cool.rest || elapsed > s.seg.hard),
       owner := if Soft(why) then s.owner else Revoke(s.owner))
  }

  /** `MotorExecutor_BuildChargePreload`: BRAKE wall time. */
  function ChargeBrake(s: State, now: int): State {
    if !s.brake.on then s else
    s.(brake := s.brake.(on := false),
       ledger := s.ledger.(energized := s.ledger.energized + (now - s.brake.started + 1)))
  }

  function ConfirmOff(c: Cool, bridge: Bridge, now: int): Cool {
    if !bridge.Off? then c.(offVerified := false)
    else if !c.offVerified then c.(offAt := now, offVerified := true)
    else c
  }

  /** `MotorExecutor_BuildRecordOff`. */
  function RecordOff(s: State, now: int, reason: Reason): State {
    var r := ChargeBrake(RecordPulseEnd(s, now, reason), now);
    r.(cool := ConfirmOff(r.cool, r.bridge, now),
       after := if s.brake.on && !r.after.reason.EndedDeadline? then r.after.(reason := reason) else r.after,
       owner := if Soft(reason) then r.owner else Revoke(r.owner))
  }

  predicate RestDone(s: State, c: Cool) {
    && !s.seg.on && !s.brake.on && s.bridge.Off? && (c.rest || Low(s.ledger.reserved) != 0)
    && Low(Now(s) - c.offAt) >= FULL_REST_MS
  }

  /** `MotorExecutor_BuildRefreshRest`: a completed verified-OFF interval starts a new epoch. */
  function RefreshRest(s: State): State {
    var c := ConfirmOff(s.cool, s.bridge, Now(s));
    if RestDone(s, c) then
      s.(cool := c.(rest := false),
         ledger := Ledger(Plus(s.ledger.epoch, 1), 0, 0, 0, 0, 0, 0, []),
         owner := if s.owner.open then Note(s.owner, Rested) else s.owner)
    else s.(cool := c)
  }

  // ---------------------------------------------------------------- hand-over to BRAKE

  predicate DeadlinesPassed(s: State) {
    Now(s) >= s.seg.deadline || Now(s) >= s.seg.rxDeadline
  }

  /** Guards, BRAKE and the first re-read of the tick. */
  function FinishBegin(s: State, f: Finish, offOk: bool): Outcome {
    if !s.owner.open || !s.seg.on || s.latch.Latched? || !s.motor.press || DeadlinesPassed(s) ||
       !(s.bridge == Drive(s.motor.duty) && f.planOk)
    then Outcome(s, false)
    else if !f.brakeOk then Outcome(DisableBridge(s, offOk), false)
    else
      var r := Pass(SetBridge(s, Brake), f.wait1);
      Outcome(r, !DeadlinesPassed(r))
  }

  /** BRAKE holds from now on its receive lease; what ran before is charged. */
  function IntoBrake(s: State, reason: Reason): State {
    var r := RecordPulseEnd(s, Now(s), reason);
    r.(brake := BrakeRun(true, Now(s), s.seg.rxDeadline),
       motor := r.motor.(action := Braking, duty := 0, active := true, backstop := s.seg.rxDeadline),
       owner := Note(r.owner, HandedOver(Now(s), Now(s) - s.seg.started + 1)))
  }

  /** The last re-read, the segment's charge and the BRAKE record. */
  function FinishCommit(s: State, reason: Reason, f: Finish): Outcome {
    var p := Pass(s, f.wait2);
    if DeadlinesPassed(p) then Outcome(p, false) else Outcome(IntoBrake(p, reason), true)
  }

  /** `MotorExecutor_BuildFinishPulse` for a MICRO/FINE pulse. */
  function FinishPulse(s: State, reason: Reason, f: Finish, offOk: bool): Outcome {
    var o := FinishBegin(s, f, offOk);
    if !o.ok then o else
    var a := Handoff(o.s.timer, o.s.clock, o.s.seg.rxDeadline - Now(o.s), f.gap);
    var h := Pass(o.s.(timer := a.t), f.gap);
    if a.ok then FinishCommit(h, reason, f) else Outcome(h, false)
  }

  /** OFF, recorded, timer cancelled, event latched for the main loop. */
  function ShutDown(s: State, e: TimerEvent, offOk: bool): State {
    var d := DisableBridge(s, offOk);
    var r := RecordOff(d, Now(d), if e.Normal? then EndedNormal else EndedDeadline);
    r.(timer := Cancel(r.timer), latch := Latched(e))
  }

  /** `MotorExecutor_StopTimerExpiredFromIsr`. */
  function Expired(s: State, e: TimerEvent, f: Finish, offOk: bool): State {
    if e.Normal? && s.seg.on && s.motor.press && s.seg.kind.Pulse? then
      var o := FinishPulse(s, EndedNormal, f, offOk);
      if o.ok then o.s else ShutDown(o.s, Error, offOk)
    else if s.brake.on || (s.seg.on && s.seg.kind.Approach?) then ShutDown(s, Backstop, offOk)
    else ShutDown(s, e, offOk)
  }

  /** What `MotorStopTimer_IrqHandler` reads from the status flags. */
  function Classify(t: Timer, clock: int): TimerEvent {
    if !t.armed || t.overrun then Error
    else if Overflowed(t, clock) then Backstop
    else if Compared(t, clock) then Normal
    else Error
  }

  /** `MotorStopTimer_IrqHandler`. A normal one-shot compare is acknowledged, a racing overflow is not. */
  function Irq(s: State, f: Finish, offOk: bool): State {
    var e := Classify(s.timer, s.clock);
    var t := s.timer.(healthy := s.timer.healthy && !e.Error?,
                      acked := s.timer.acked || (e.Normal? && s.timer.oneShot));
    Expired(s.(timer := t), e, f, offOk)
  }

  function CommitArm(s: State, f: Finish, offOk: bool): Outcome {
    if !s.timer.armed || !s.timer.healthy then Outcome(s, false)
    else if Flagged(s.timer, s.clock) then Outcome(Irq(s, f, offOk), false)
    else Outcome(s.(timer := s.timer.(irq := true)), true)
  }

  /** `CommitArm` as every caller uses it: the owner must still be open and no event latched. */
  function Committed(s: State, f: Finish, offOk: bool): Outcome {
    var o := CommitArm(s, f, offOk);
    Outcome(o.s, o.ok && o.s.owner.open && o.s.latch.Clear?)
  }

  function RenewLease(s: State, remaining: int, f: Finish, offOk: bool): Outcome {
    if !IsArmed(s.timer, s.clock) || !s.timer.healthy || !LeaseLength(remaining) then Outcome(s, false)
    else if Flagged(s.timer, s.clock) then Outcome(Irq(s, f, offOk), false)
    else if s.clock >= s.timer.compareAt then
      var r := Expired(s, Normal, f, offOk);
      Outcome(r.(timer := Cancel(r.timer)), false)
    else Committed(s.(timer := MoveLease(s.timer, s.clock, remaining)), f, offOk)
  }

  /** `MotorExecutor_BuildFinishPulse` for an approach, whose cutoff is already a lease. */
  function FinishApproach(s: State, reason: Reason, env: Env): Outcome {
    var o := FinishBegin(s, env.finish, env.offOk);
    if !o.ok then o else
    var n := RenewLease(o.s, o.s.seg.rxDeadline - Now(o.s), env.nested, env.offOk);
    if !n.ok then n else FinishCommit(n.s, reason, env.finish)
  }

  // ---------------------------------------------------------------- executor calls

  /** `MotorExecutor_ActiveRequestIsValid`. */
  predicate RequestValid(s: State, readOk: bool) {
    if s.latch.Latched? then s.bridge.Off? && !IsArmed(s.timer, s.clock) &&
      (s.motor.action.Disabled? ==> s.motor.active)
    else
      && s.motor.active && IsArmed(s.timer, s.clock) && s.timer.healthy
      && if s.motor.action.Disabled? then !s.bridge.Off?
         else
           && s.owner.open && (s.seg.on || s.brake.on) && s.motor.press && readOk
           && s.bridge == (if s.brake.on then Brake else Drive(s.motor.duty))
  }

  predicate Healthy(s: State, readOk: bool) {
    && s.timer.healthy
    && if s.motor.active then RequestValid(s, readOk) else s.bridge.Off? && !IsArmed(s.timer, s.clock)
  }

  function NextToken(g: U32): U32 {
    if Plus(g, 1) == 0 then 1 else Plus(g, 1)
  }

  /** `MotorExecutor_BeginBuild`; `unlocked` when output may be armed at all. */
  function BeginBuild(s: State, unlocked: bool): Returned {
    var s := RefreshRest(s);
    if !unlocked || s.cool.rest || s.owner.open || s.motor.active || s.latch.Latched? || !s.bridge.Off? ||
       IsArmed(s.timer, s.clock) || !s.timer.healthy
    then Returned(s, Invalid)
    else Returned(s.(owner := Owner(true, NextToken(s.owner.token), false, s.owner.used, s.owner.feedback, []),
                     after := s.after.(post := false)), Ok)
  }

  /** The shared failure tail: OFF, accounted, owner revoked, timer cancelled, an earlier event kept. */
  function FailOff(s: State, reason: Reason, offOk: bool): State {
    var d := DisableBridge(s, offOk);
    var r := RecordOff(d, Now(d), reason);
    r.(owner := Revoke(r.owner), timer := Cancel(r.timer),
       latch := if r.latch.Latched? then r.latch else Latched(Error))
  }

  predicate FromApproach(s: State, r: Request) {
    s.seg.on && s.seg.kind.Approach? && r.phase != PHASE_APPROACH
  }

  predicate StartRefused(s: State, token: U32, r: Request, sequence: U64) {
    || !s.owner.open || token != s.owner.token
    || (s.seg.on && !FromApproach(s, r))
    || (s.motor.active && !s.brake.on && !FromApproach(s, r))
    || s.latch.Latched? || s.after.post
    || (s.owner.haveSequence && !After(sequence, s.owner.used))
  }

  /** What the bridge and the timer must still be for a segment to begin from here. */
  function StartReady(s: State, env: Env): Outcome {
    if s.brake.on then
      if !(s.bridge.Brake? && env.readOk) then Outcome(s, false) else
      var o := Committed(s, env.nested, env.offOk);
      Outcome(o.s, o.ok && Now(o.s) < o.s.brake.deadline && Now(o.s) - o.s.after.ended >= o.s.seg.settle)
    else if s.seg.on then
      if !(s.bridge == Drive(s.motor.duty) && env.readOk) then Outcome(s, false) else
      var o := Committed(s, env.nested, env.offOk);
      Outcome(o.s, o.ok && !DeadlinesPassed(o.s))
    else Outcome(s, s.bridge.Off? && !IsArmed(s.timer, s.clock))
  }

  predicate StartAdmitted(s: State, r: Request, received: int) {
    && Envelope(r)
    && (s.owner.haveSequence ==> r.target == s.seg.target)
    && if r.phase == PHASE_APPROACH then !s.brake.on
       else r.hardMs < LEASE_MS - (Now(s) - received)
  }

  predicate ApproachExhausted(l: Ledger) {
    || l.approachReserved + 2 > APPROACH_TOTAL_MS
    || l.approachCommand + APPROACH_COMMAND * (APPROACH_TOTAL_MS - l.approachReserved) > APPROACH_COMMAND_MS
  }

  function KindOf(r: Request): Kind {
    if r.phase == PHASE_APPROACH then Approach else Pulse(r.mode == MODE_FINE, r.phase == PHASE_TAPER)
  }

  function ReserveLedger(l: Ledger, approach: bool, hard: int): Ledger {
    l.(reserved := l.reserved + hard,
       approachReserved := l.approachReserved + (if approach then hard else 0),
       approachCommand := l.approachCommand + (if approach then APPROACH_COMMAND * hard else 0),
       exposures := l.exposures + [Exposure(approach, hard, 0)])
  }

  /** Admission reserves the whole hard limit and records the segment. */
  function Reserve(s: State, r: Request, hard: int, sequence: U64, received: int): State {
    s.(seg := Seg(s.seg.on, KindOf(r), hard, r.settleMs, r.target, Plus(s.seg.request, 1),
                  Now(s), Now(s) + hard, received + LEASE_MS),
       after := s.after.(reason := NotEnded),
       ledger := ReserveLedger(s.ledger, r.phase == PHASE_APPROACH, hard),
       owner := s.owner.(used := sequence, feedback := sequence, haveSequence := true),
       motor := Motor(true, true, Duty(r.command), Segment, Now(s) + hard))
  }

  /** The cutoff a segment starts under; `fromOff` when no timer is running yet. */
  function ArmSegment(s: State, r: Request, fromOff: bool, env: Env): Outcome {
    if r.phase == PHASE_APPROACH then
      var a := StartLease(s.timer, s.clock, Least(s.seg.rxDeadline - Now(s), s.seg.hard));
      if !a.ok then Outcome(s, false) else CommitArm(s.(timer := a.t), env.nested, env.offOk)
    else
      var gap := if fromOff then 0 else Within(s.clock, env.gap);
      var a := if fromOff then Arm(s.timer, s.clock, r.normalMs, s.seg.hard, env.startOk)
               else PulseCutoffs(s.timer, s.clock, r.normalMs, s.seg.hard, gap);
      Outcome(Pass(s.(timer := a.t), gap), a.ok)
  }

  function Begun(s: State, r: Request, sequence: U64, received: int): State {
    s.(seg := s.seg.(on := true),
       owner := Note(s.owner, Admitted(r.phase != PHASE_APPROACH, sequence, received, Now(s), s.seg.hard, r.settleMs)))
  }

  /** Energise only under a committed cutoff, and verify that cutoff again afterwards. */
  function Energise(s: State, env: Env): Returned {
    var o := Committed(Pass(s, env.wait1), env.nested, env.offOk);
    if !o.ok then Returned(FailOff(o.s, EndedHardware, env.offOk), HardwareError) else
    var d := o.s.(cool := o.s.cool.(offVerified := false));
    if !env.applyOk then Returned(FailOff(DisableBridge(d, env.offOk), EndedHardware, env.offOk), HardwareError) else
    var n := Committed(Pass(SetBridge(d, Drive(d.motor.duty)), env.wait2), env.nested, env.offOk);
    if n.ok then Returned(n.s, Ok) else Returned(FailOff(n.s, EndedHardware, env.offOk), HardwareError)
  }

  function Launch(s: State, r: Request, hard: int, sequence: U64, received: int, fromOff: bool, env: Env): Returned {
    var o := ArmSegment(Reserve(s, r, hard, sequence, received), r, fromOff, env);
    if !o.ok then Returned(FailOff(o.s, EndedHardware, env.offOk), HardwareError)
    else Energise(Begun(o.s, r, sequence, received), env)
  }

  /** Ends the approach or BRAKE the segment begins from, charging it in full. */
  function LeavePrevious(s: State): State {
    var e := RecordPulseEnd(s, Now(s), EndedReduced);
    ChargeBrake(if s.seg.on then e.(after := e.after.(post := false)) else e, Now(s))
  }

  /** Past every check: leave what ran before and launch, an approach only while its epoch allows one. */
  function Admit(s: State, r: Request, sequence: U64, received: int, env: Env): Returned {
    var p := LeavePrevious(s);
    var fromOff := !s.seg.on && !s.brake.on;
    if r.phase != PHASE_APPROACH then Launch(p, r, r.hardMs, sequence, received, fromOff, env)
    else if ApproachExhausted(p.ledger) then
      Returned(FailOff(p.(cool := p.cool.(rest := true)), EndedHardware, env.offOk), HardwareError)
    else Launch(p, r, APPROACH_TOTAL_MS - p.ledger.approachReserved, sequence, received, fromOff, env)
  }

  /** `MotorExecutor_StartBuildSegment`. */
  function StartSegment(s: State, token: U32, r: Request, sequence: U64, received: int, env: Env): Returned {
    if StartRefused(s, token, r, sequence) then Returned(s, Invalid) else
    var s := RefreshRest(s);
    if s.cool.rest || Now(s) - received > AGE_MS || !Healthy(s, env.readOk)
    then Returned(FailOff(s, EndedHardware, env.offOk), HardwareError) else
    var o := StartReady(s, env);
    if !o.ok || !StartAdmitted(o.s, r, received) then
      Returned(FailOff(o.s, EndedHardware, env.offOk), HardwareError) else
    Admit(o.s, r, sequence, received, env)
  }

  function EndLate(s: State, env: Env): State {
    var f := FailOff(s, EndedDeadline, env.offOk);
    f.(after := f.after.(reason := EndedDeadline), cool := f.cool.(rest := true))
  }

  /** The branch for a RELEASE segment, which no admission creates. */
  function EndReleased(s: State, env: Env): Returned {
    var o := Committed(DisableBridge(s, env.offOk), env.nested, env.offOk);
    if !o.ok || DeadlinesPassed(o.s) then Returned(EndLate(o.s, env), TimerError) else
    var f := RecordOff(o.s, Now(o.s), EndedReduced);
    var f := f.(timer := Cancel(f.timer), motor := f.motor.(duty := 0, active := false));
    if f.bridge.Off? then Returned(f, Ok) else Returned(f.(owner := Revoke(f.owner)), HardwareError)
  }

  /** `MotorExecutor_EndBuildSegment`. */
  function EndSegment(s: State, token: U32, env: Env): Returned {
    if !s.owner.open || token != s.owner.token || !s.seg.on || s.latch.Latched? then Returned(s, Invalid)
    else if !s.motor.press then EndReleased(s, env)
    else
      var o := Committed(s, env.nested, env.offOk);
      if !o.ok || DeadlinesPassed(o.s) then Returned(EndLate(o.s, env), TimerError) else
      var n := if o.s.seg.kind.Approach? then FinishApproach(o.s, EndedReduced, env)
               else FinishPulse(o.s, EndedReduced, env.finish, env.offOk);
      if n.ok then Returned(n.s, Ok) else Returned(FailOff(n.s, EndedDeadline, env.offOk), TimerError)
  }

  predicate PostDue(s: State, token: U32, request: U32, sequence: U64, received: int, readOk: bool) {
    && s.owner.open && token == s.owner.token && s.after.post && request == s.seg.request
    && !s.seg.on && (!s.motor.active || s.brake.on) && s.latch.Clear?
    && Soft(s.after.reason) && After(sequence, s.owner.used)
    && Now(s) - received <= AGE_MS && received >= s.after.ended && Healthy(s, readOk)
  }

  function TakePost(s: State, sequence: U64, received: int): State {
    s.(after := s.after.(post := false), owner := Note(s.owner, Posted(sequence, received)))
  }

  /** `MotorExecutor_AcceptBuildPost`: the frame that ends a pulse's response wait. */
  function AcceptPost(s: State, token: U32, request: U32, sequence: U64, received: int, env: Env): Outcome {
    if !PostDue(s, token, request, sequence, received, env.readOk) then Outcome(s, false)
    else if !s.brake.on then
      if s.bridge.Off? then Outcome(TakePost(s, sequence, received), true) else Outcome(s, false)
    else if !(s.bridge.Brake? && env.readOk) || Now(s) >= s.brake.deadline || Now(s) >= s.seg.rxDeadline
    then Outcome(s, false)
    else
      var o := Committed(s, env.nested, env.offOk);
      if o.ok then Outcome(TakePost(o.s, sequence, received), true) else o
  }

  predicate Leased(s: State) {
    s.brake.on || (s.seg.on && s.seg.kind.Approach?)
  }

  predicate LeaseBroken(s: State, readOk: bool) {
    || Now(s) >= s.seg.rxDeadline || !readOk
    || if s.brake.on then !s.bridge.Brake? else Now(s) >= s.seg.deadline || s.bridge != Drive(s.motor.duty)
  }

  function Extend(s: State, deadline: int, sequence: U64, received: int): State {
    s.(seg := s.seg.(rxDeadline := deadline),
       brake := if s.brake.on then s.brake.(deadline := deadline) else s.brake,
       motor := s.motor.(backstop := deadline),
       owner := Note(s.owner, Renewed(sequence, received)).(feedback := sequence))
  }

  /** `MotorExecutor_RefreshBuildFeedback`: only BRAKE and the approach live on their receive lease. */
  function Refresh(s: State, token: U32, sequence: U64, received: int, env: Env): Returned {
    if !s.owner.open || token != s.owner.token || s.latch.Latched? || Now(s) - received > AGE_MS ||
       (s.owner.haveSequence && !After(sequence, s.owner.feedback))
    then Returned(s, Invalid)
    else if !Leased(s) then Returned(s.(owner := s.owner.(feedback := sequence)), Ok)
    else if LeaseBroken(s, env.readOk) then Returned(FailOff(s, EndedDeadline, env.offOk), TimerError)
    else
      var deadline := if s.seg.on then Least(received + LEASE_MS, s.seg.deadline) else received + LEASE_MS;
      var o := RenewLease(s, deadline - Now(s), env.nested, env.offOk);
      if o.ok then Returned(Extend(o.s, deadline, sequence, received), Ok)
      else Returned(FailOff(o.s, EndedDeadline, env.offOk), TimerError)
  }

  /** `MotorExecutor_Disable`. */
  function Disable(s: State, offOk: bool): Returned {
    var d := DisableBridge(s, offOk);
    var r := RecordOff(d, Now(d), EndedStop);
    Returned(r.(timer := Cancel(r.timer), latch := Clear,
                motor := r.motor.(action := Disabled, active := false, duty := 0)),
             if r.bridge.Off? then Ok else HardwareError)
  }

  function Publish(s: State, latched: TimerEvent, offOk: bool): Returned {
    var e := if s.motor.action.Segment? && s.after.reason.EndedDeadline? then Error else latched;
    var d := if e.Normal? then s else RecordOff(DisableBridge(s, offOk), Now(s), EndedDeadline);
    var m := d.motor.(active := false, duty := 0);
    if d.bridge.Off? then Returned(d.(motor := m), if e.Error? then TimerError else Ok)
    else Returned(DisableBridge(d, offOk).(motor := m), HardwareError)
  }

  function StopTimerAndBridge(s: State, offOk: bool): State {
    var d := DisableBridge(s, offOk);
    d.(timer := Cancel(d.timer))
  }

  /** `MotorExecutor_Service`, the only consumer of the latched timer event. */
  function Service(s: State, offOk: bool): Returned {
    if s.latch.Latched? then Publish(s.(latch := Clear), s.latch.event, offOk)
    else if !s.motor.active then
      if !s.bridge.Off? then Returned(StopTimerAndBridge(s, offOk), HardwareError)
      else if IsArmed(s.timer, s.clock) then Returned(StopTimerAndBridge(s, offOk), TimerError)
      else Returned(s, if s.timer.healthy then Ok else TimerError)
    else if !s.timer.healthy || !IsArmed(s.timer, s.clock) || Now(s) >= s.motor.backstop then
      Publish(StopTimerAndBridge(s, offOk), Error, offOk)
    else if s.bridge.Off? then Returned(Publish(StopTimerAndBridge(s, offOk), Error, offOk).s, HardwareError)
    else Returned(s, Ok)
  }

  /** `MotorExecutor_GuardOutput`: it forces OFF but leaves ownership and accounting to later calls. */
  function Guard(s: State, readOk: bool, offOk: bool): Returned {
    if s.latch.Clear? && s.motor.active && RequestValid(s, readOk) then Returned(s, Ok) else
    var d := StopTimerAndBridge(s, offOk);
    if !d.bridge.Off? then Returned(d, HardwareError)
    else if d.latch.Latched? then Returned(d, Ok)
    else if s.motor.active || !s.bridge.Off? then Returned(d, HardwareError)
    else Returned(d, if IsArmed(s.timer, s.clock) then TimerError else Ok)
  }

  // ---------------------------------------------------------------- runs

  datatype Event =
    | DoPass(us: nat)
    | DoIrq(f: Finish, offOk: bool)
    | DoDrop(off: bool)                      // the bridge leaves its commanded state by itself
    | DoOverrun                              // a spurious overcapture flag
    | DoBegin(unlocked: bool)
    | DoStart(token: U32, r: Request, sequence: U64, age: nat, env: Env)
    | DoEnd(token: U32, env: Env)
    | DoPost(token: U32, request: U32, sequence: U64, age: nat, env: Env)
    | DoRefresh(token: U32, sequence: U64, age: nat, env: Env)
    | DoDisable(offOk: bool)
    | DoService(offOk: bool)
    | DoGuard(readOk: bool, offOk: bool)
    | DoSnapshot

  /** One main-loop call, one TIM5 interrupt or one thing the world does. */
  function Step(s: State, e: Event): State {
    match e
    case DoPass(us) => Pass(s, us)
    case DoIrq(f, offOk) => if s.timer.irq then Irq(s, f, offOk) else s
    case DoDrop(off) => DisableBridge(s, off)
    case DoOverrun => s.(timer := s.timer.(overrun := s.timer.armed))
    case DoBegin(unlocked) => BeginBuild(s, unlocked).s
    case DoStart(token, r, sequence, age, env) => StartSegment(s, token, r, sequence, Now(s) - age, env).s
    case DoEnd(token, env) => EndSegment(s, token, env).s
    case DoPost(token, request, sequence, age, env) => AcceptPost(s, token, request, sequence, Now(s) - age, env).s
    case DoRefresh(token, sequence, age, env) => Refresh(s, token, sequence, Now(s) - age, env).s
    case DoDisable(offOk) => Disable(s, offOk).s
    case DoService(offOk) => Service(s, offOk).s
    case DoGuard(readOk, offOk) => Guard(s, readOk, offOk).s
    case DoSnapshot => RefreshRest(s)
  }

  /** After `MotorExecutor_Initialize`: a reboot is not proof that the motor cooled. */
  function Boot(clock: int): State {
    State(clock, Off, Timer(false, true, false, false, 0, 0, false, 0, false),
          Seg(false, Unused, 0, 0, 0, 0, 0, 0, 0), BrakeRun(false, 0, 0), Aftermath(false, 0, NotEnded),
          Ledger(0, 0, 0, 0, 0, 0, 0, []), Owner(false, 0, false, 0, 0, []),
          Cool(true, true, Ms(clock), clock), Motor(false, false, 0, Disabled, 0), Clear)
  }

  function Run(s: State, es: seq<Event>): State {
    if |es| == 0 then s else Step(Run(s, es[..|es| - 1]), es[|es| - 1])
  }
}
