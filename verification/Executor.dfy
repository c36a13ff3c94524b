/** The build executor as its 32-bit variables: every call and interrupt does to the words what
    `ExecutorSpec` does to unbounded time, as long as the marks it compares stay near. The
    hardware's answers and its delays are parameters. `until` is a tick the call ends by. */
module Executor {
  import opened MachineWord
  import opened Admission
  import opened ExecutorWords
  import E = ExecutorSpec
  import Safety = ExecutorSafety
  import T = StopTimer
  import Theorems = ExecutorTheorems
  import Missed = MissedDisable

  class Executor {
    const timer: T.StopTimer
    var bridge: E.Bridge          // hardware
    var tick: U32                 // hardware: the millisecond tick,
    var fraction: nat             // and the microseconds into it
    var seg: SegWords
    var brake: BrakeWords
    var after: AfterWords
    var ledger: LedgerWords
    var owner: OwnerWords
    var cool: CoolWords
    var motor: MotorWords
    var latch: E.Latch
    ghost var s: E.State

    /** The words stand for `s`; the timer's own registers are left out. */
    ghost predicate Held()
      reads this, timer
    {
      && timer.spec == s.timer && timer.Flags()
      && 0 <= s.clock && tick == Low(E.Now(s)) && fraction == s.clock % 1000
      && bridge == s.bridge && latch == s.latch
      && seg == SegOf(s.seg) && brake == BrakeOf(s.brake) && after == AfterOf(s.after) && ledger == LedgerOf(s.ledger)
      && owner == OwnerOf(s.owner) && cool == CoolOf(s.cool) && motor == MotorOf(s.motor)
    }

    ghost predicate Valid()
      reads this, timer
    {
      Held() && timer.Refines(s.clock)
    }

    /** `MotorExecutor_Initialize` with working hardware. */
    constructor (at: U32, micros: nat, ghost clock: int)
      requires 0 <= clock && at == Low(E.Ms(clock)) && micros == clock % 1000
      ensures Valid() && s == E.Boot(clock) && fresh(timer)
    {
      timer := new T.StopTimer();
      bridge, tick, fraction := E.Off, at, micros;
      seg, brake, after :=
        SegWords(false, E.Unused, 0, 0, 0, 0, 0, 0, 0), BrakeWords(false, 0, 0), AfterWords(false, 0, E.NotEnded);
      ledger, owner := LedgerWords(0, 0, 0, 0, 0), OwnerWords(false, 0, false, 0, 0);
      cool, motor, latch := CoolWords(true, true, at), MotorWords(false, false, 0, E.Disabled, 0), E.Clear;
      s := E.Boot(clock);
    }

    /** What the words say of the flags is what the state says. */
    lemma Reads()
      requires Held()
      ensures bridge == s.bridge && latch == s.latch && timer.spec == s.timer && tick == Low(E.Now(s))
      ensures seg.on == s.seg.on && seg.kind == s.seg.kind && seg.settle == s.seg.settle && seg.target == s.seg.target
      ensures seg.request == s.seg.request && seg.hard == Low(s.seg.hard)
      ensures seg.deadline == Low(s.seg.deadline) && seg.rxDeadline == Low(s.seg.rxDeadline)
      ensures brake.on == s.brake.on && brake.deadline == Low(s.brake.deadline)
      ensures after.post == s.after.post && after.reason == s.after.reason && after.ended == Low(s.after.ended)
      ensures owner == OwnerWords(s.owner.open, s.owner.token, s.owner.haveSequence, s.owner.used, s.owner.feedback)
      ensures cool.rest == s.cool.rest && cool.offVerified == s.cool.offVerified
      ensures motor == MotorWords(s.motor.active, s.motor.press, s.motor.duty, s.motor.action, Low(s.motor.backstop))
    {
    }

    /** The wall time of a segment, its excess over the reservation included; nothing is refunded. */
    method ChargeSegment(elapsed: U32)
      modifies `ledger, `cool
      ensures var late, excess := elapsed > seg.hard, if elapsed > seg.hard then elapsed - seg.hard else 0;
        && ledger == Charged(old(ledger), elapsed, excess, seg.kind.Approach?)
        && cool == if late then old(cool).(rest := true) else old(cool)
    {
      ledger := ledger.(energized := Plus(ledger.energized, elapsed));
      if elapsed > seg.hard {
        ledger := ledger.(reserved := Plus(ledger.reserved, elapsed - seg.hard));
        if seg.kind.Approach? {
          ledger := ledger.(approachReserved := Plus(ledger.approachReserved, elapsed - seg.hard));
        }
        cool := cool.(rest := true);
      }
    }

    /** `MotorExecutor_BuildRecordPulseEnd`. */
    method RecordPulseEnd(reason: E.Reason)
      requires Held() && Timely(s, E.Now(s))
      modifies `seg, `after, `ledger, `cool, `owner, `s
      ensures Held() && s == E.RecordPulseEnd(old(s), E.Now(old(s)), reason)
    {
      hide SegOf, BrakeOf, AfterOf, LedgerOf, OwnerOf, CoolOf, MotorOf, E.RecordPulseEnd, Timely, Charged, E.Soft;
      SegReads(s.seg);
      if !seg.on {
        PulseIdle(s, reason);
        return;
      }
      PulseWords(s, reason);
      var elapsed := Plus(Minus(tick, seg.started), 1);
      ChargeSegment(elapsed);
      var why := if elapsed > seg.hard then E.EndedDeadline else reason;
      seg := seg.(on := false);
      after := AfterWords(true, tick, why);
      if !E.Soft(why) { owner := owner.(open := false); }
      s := E.RecordPulseEnd(s, E.Now(s), reason);
    }

    /** `MotorExecutor_BuildChargePreload`: the wall time of BRAKE. */
    method ChargeBrake()
      requires Held() && (s.brake.on ==> s.brake.started <= E.Now(s) && Near(E.Now(s), s.brake.started, E.Now(s)))
      modifies `brake, `ledger, `s
      ensures Held() && s == E.ChargeBrake(old(s), E.Now(old(s)))
    {
      hide SegOf, BrakeOf, AfterOf, LedgerOf, OwnerOf, CoolOf, MotorOf, E.ChargeBrake;
      BrakeWord(s);
      if !brake.on { return; }
      var elapsed := Plus(Minus(tick, brake.started), 1);
      ledger := ledger.(energized := Plus(ledger.energized, elapsed));
      brake := brake.(on := false);
      s := E.ChargeBrake(s, E.Now(s));
    }

    /** `MotorExecutor_BuildConfirmOff`: only hardware that reads OFF starts the rest, and only once. */
    method ConfirmOff()
      requires Held()
      modifies `cool, `s
      ensures Held() && s == old(s).(cool := E.ConfirmOff(old(s).cool, old(s).bridge, E.Now(old(s))))
    {
      hide SegOf, BrakeOf, AfterOf, LedgerOf, OwnerOf, CoolOf, MotorOf, E.ConfirmOff;
      CoolWord(s.cool, s.bridge, E.Now(s));
      if bridge != E.Off {
        cool := cool.(offVerified := false);
      } else if !cool.offVerified {
        cool := cool.(offAt := tick, offVerified := true);
      }
      s := s.(cool := E.ConfirmOff(s.cool, s.bridge, E.Now(s)));
    }

    /** The charges of whatever was on. */
    method ChargeAll(reason: E.Reason)
      requires Held() && Timely(s, E.Now(s))
      modifies `seg, `after, `ledger, `cool, `owner, `brake, `s
      ensures Held() && s == E.ChargeBrake(E.RecordPulseEnd(old(s), E.Now(old(s)), reason), E.Now(old(s)))
      ensures s.brake.on == false && s.clock == old(s).clock && s.bridge == old(s).bridge
    {
      hide Held, E.RecordPulseEnd, Timely;
      PulseEndFrame(s, reason);
      RecordPulseEnd(reason);
      ChargeBrake();
    }

    /** `MotorExecutor_BuildRecordOff`. */
    method RecordOff(reason: E.Reason)
      requires Held() && Timely(s, E.Now(s))
      modifies `seg, `after, `ledger, `cool, `owner, `brake, `s
      ensures Held() && s == E.RecordOff(old(s), E.Now(old(s)), reason)
    {
      hide SegOf, BrakeOf, AfterOf, LedgerOf, OwnerOf, CoolOf, MotorOf, Low, E.RecordPulseEnd, E.ChargeBrake,
        E.ConfirmOff, E.Soft, Timely;
      var braking := brake.on;
      BrakeReads(s.brake);
      ChargeAll(reason);
      ConfirmOff();
      AfterReads(s.after);
      AfterReads(s.after.(reason := reason));
      OwnerReads(s.owner);
      s := s.(after := if braking && !s.after.reason.EndedDeadline? then s.after.(reason := reason) else s.after,
              owner := if E.Soft(reason) then s.owner else E.Revoke(s.owner));
      if braking && !after.reason.EndedDeadline? { after := after.(reason := reason); }
      if !E.Soft(reason) { owner := owner.(open := false); }
    }

    /** `MotorExecutor_BuildRefreshRest`: a completed verified-OFF interval starts a new epoch. */
    method RefreshRest()
      requires Held()
      modifies `cool, `ledger, `s
      ensures Held() && s == E.RefreshRest(old(s))
    {
      hide SegOf, BrakeOf, AfterOf, OwnerOf, MotorOf, E.ConfirmOff, Low, E.RestDone;
      ghost var first := s;
      ConfirmOff();
      RestWord(first, s.cool);
      SegReads(s.seg);
      BrakeReads(s.brake);
      OwnerReads(s.owner);
      if !seg.on && !brake.on && bridge.Off? && (cool.rest || ledger.reserved != 0) &&
        Minus(tick, cool.offAt) >= FULL_REST_MS {
        cool := cool.(rest := false);
        ledger := LedgerWords(Plus(ledger.epoch, 1), 0, 0, 0, 0);
        LowOf(0, 0, 0);
        OwnerReads(E.Note(s.owner, E.Rested));
      }
      s := E.RefreshRest(first);
    }

    // -------------------------------------------------------------- time and bridge

    method SetBridge(to: E.Bridge)
      requires Held()
      modifies `bridge, `s
      ensures Held() && s == E.SetBridge(old(s), to)
    {
      hide SegOf, BrakeOf, AfterOf, LedgerOf, OwnerOf, MotorOf, Low;
      bridge := to;
      s := E.SetBridge(s, to);
    }

    method DisableBridge(offOk: bool)
      requires Held()
      modifies `bridge, `s
      ensures Held() && s == E.DisableBridge(old(s), offOk)
    {
      hide Held, E.SetBridge;
      SetBridge(if offOk then E.Off else E.Lost);
    }

    /** The tick counts on. */
    method AdvanceTick(us: nat)
      requires Held()
      modifies `tick, `fraction, `s
      ensures Held() && s == E.Pass(old(s), us) && s.clock == old(s).clock + us
    {
      hide SegOf, BrakeOf, AfterOf, LedgerOf, OwnerOf, CoolOf, MotorOf;
      TickWord(s.clock, us);
      LedgerReads(s.ledger);
      LedgerReads(E.Pass(s, us).ledger);
      var full := fraction + us;
      tick := Plus(tick, Low(full / 1000));
      fraction := full % 1000;
      s := E.Pass(s, us);
    }

    /** Time goes by: the tick and the timer count on. */
    method Wait(us: nat)
      requires Valid()
      modifies `tick, `fraction, timer, `s
      ensures Valid() && s == E.Pass(old(s), us)
    {
      hide SegOf, BrakeOf, AfterOf, LedgerOf, OwnerOf, CoolOf, MotorOf, T.Stands, Low, E.Pass;
      timer.Elapse(us, s.clock);
      AdvanceTick(us);
    }

    /** Either deadline of the segment, by the sign of the difference. */
    predicate Lapsed()
      reads `tick, `seg
    {
      Reached(tick, seg.deadline) || Reached(tick, seg.rxDeadline)
    }

    lemma LapsedTrue(until: int)
      requires Held() && Timely(s, until) && s.seg.on
      ensures Lapsed() <==> E.DeadlinesPassed(s)
      ensures !Lapsed() ==> Minus(seg.rxDeadline, tick) == s.seg.rxDeadline - E.Now(s)
    {
      hide Timely, Low, Reached, Minus;
      DeadlineWords(s, until);
    }

    method CancelTimer()
      requires Held()
      modifies timer, `s
      ensures Valid() && s == old(s).(timer := E.Cancel(old(s).timer))
    {
      hide SegOf, BrakeOf, AfterOf, LedgerOf, OwnerOf, CoolOf, MotorOf, Low, T.Stands;
      timer.Cancel();
      s := s.(timer := timer.spec);
    }

    // -------------------------------------------------------------- hand-over to BRAKE

    /** The guards, BRAKE and the first re-read of the tick. */
    method FinishBegin(f: E.Finish, offOk: bool, ghost until: int) returns (ok: bool)
      requires Valid() && Timely(s, until) && InTime(s, f.wait1, until)
      modifies `bridge, `tick, `fraction, timer, `s
      ensures Valid() && E.Outcome(s, ok) == E.FinishBegin(old(s), f, offOk)
    {
      hide Held, Timely, T.StopTimer.Refines, Lapsed, E.DeadlinesPassed;
      Reads();
      if !owner.open || !seg.on || latch.Latched? || !motor.press { return false; }
      LapsedTrue(until);
      if Lapsed() || !(bridge == E.Drive(motor.duty) && f.planOk) { return false; }
      if !f.brakeOk {
        DisableBridge(offOk);
        return false;
      }
      BridgeSoon(s, E.Brake, until);
      PassSoon(E.SetBridge(s, E.Brake), f.wait1, until);
      SetBridge(E.Brake);
      Wait(f.wait1);
      LapsedTrue(until);
      return !Lapsed();
    }

    /** The last re-read, the segment's charge and the BRAKE record. */
    method FinishCommit(reason: E.Reason, f: E.Finish, ghost until: int) returns (ok: bool)
      requires Valid() && Timely(s, until) && InTime(s, f.wait2, until) && s.seg.on
      modifies this, timer
      ensures Valid() && E.Outcome(s, ok) == E.FinishCommit(old(s), reason, f)
    {
      hide Held, Timely, T.StopTimer.Refines, Lapsed, E.DeadlinesPassed, E.IntoBrake;
      PassSoon(s, f.wait2, until);
      Wait(f.wait2);
      TimelyNow(s, until);
      LapsedTrue(until);
      if Lapsed() { return false; }
      BeginBrake(reason);
      return true;
    }

    method BeginBrake(reason: E.Reason)
      requires Held() && Timely(s, E.Now(s))
      modifies `seg, `after, `ledger, `cool, `owner, `brake, `motor, `s
      ensures Held() && s == E.IntoBrake(old(s), reason) && s.clock == old(s).clock
    {
      hide SegOf, BrakeOf, AfterOf, LedgerOf, OwnerOf, CoolOf, MotorOf, Low, Timely, E.RecordPulseEnd;
      ghost var p := s;
      PulseEndFrame(p, reason);
      RecordPulseEnd(reason);
      SegReads(s.seg);
      brake := BrakeWords(true, tick, seg.rxDeadline);
      motor := motor.(action := E.Braking, duty := 0, active := true, backstop := seg.rxDeadline);
      MotorReads(s.motor);
      OwnerReads(s.owner);
      s := E.IntoBrake(p, reason);
      BrakeReads(s.brake);
      MotorReads(s.motor);
      OwnerReads(s.owner);
    }

    /** `MotorExecutor_BuildFinishPulse` for a MICRO/FINE pulse. */
    method FinishPulse(reason: E.Reason, f: E.Finish, offOk: bool, ghost until: int) returns (ok: bool)
      requires Valid() && Timely(s, until) && InTime(s, Delay(f), until)
      modifies this, timer
      ensures Held() && (ok ==> Valid()) && E.Outcome(s, ok) == E.FinishPulse(old(s), reason, f, offOk)
    {
      hide Held, Timely, T.StopTimer.Refines, Lapsed, E.FinishBegin, E.FinishCommit, E.Handoff, E.Pass;
      FinishBeginSoon(s, f, offOk, until);
      ok := FinishBegin(f, offOk, until);
      if !ok { return; }
      ghost var t := E.Handoff(s.timer, s.clock, s.seg.rxDeadline - E.Now(s), f.gap).t;
      TimerSoon(s, t, until);
      PassSoon(s.(timer := t), f.gap, until);
      PassOn(s.(timer := t), f.gap);
      ok := HandOver(f.gap, until);
      if !ok { return; }
      ok := FinishCommit(reason, f, until);
    }

    method HandOver(gap: E.Brief, ghost until: int) returns (ok: bool)
      requires Valid() && Timely(s, until) && s.seg.on && !E.DeadlinesPassed(s)
      modifies `tick, `fraction, timer, `s
      ensures Held() && (ok ==> Valid())
      ensures var a := E.Handoff(old(s).timer, old(s).clock, old(s).seg.rxDeadline - E.Now(old(s)), gap);
        ok == a.ok && s == E.Pass(old(s).(timer := a.t), gap)
    {
      hide SegOf, BrakeOf, AfterOf, LedgerOf, OwnerOf, CoolOf, MotorOf, Low, Minus, Timely, T.Stands, E.Handoff, Lapsed,
        E.Pass;
      LapsedTrue(until);
      ok := timer.Handoff(Minus(seg.rxDeadline, tick), gap, s.clock);
      s := s.(timer := timer.spec);
      AdvanceTick(gap);
    }

    // -------------------------------------------------------------- interrupts

    /** OFF, recorded, timer cancelled, event latched for the main loop. */
    method ShutDown(e: E.TimerEvent, offOk: bool, ghost until: int)
      requires Held() && Timely(s, until)
      modifies this, timer
      ensures Valid() && s == E.ShutDown(old(s), e, offOk)
    {
      hide Held, Timely, T.StopTimer.Refines, E.RecordOff;
      BridgeSoon(s, E.DisableBridge(s, offOk).bridge, until);
      DisableBridge(offOk);
      TimelyNow(s, until);
      RecordOff(if e.Normal? then E.EndedNormal else E.EndedDeadline);
      CancelTimer();
      Latch(e);
    }

    method Latch(e: E.TimerEvent)
      requires Held()
      modifies `latch, `s
      ensures Held() && s == old(s).(latch := E.Latched(e))
    {
      hide SegOf, BrakeOf, AfterOf, LedgerOf, OwnerOf, CoolOf, MotorOf, Low;
      latch := E.Latched(e);
      s := s.(latch := latch);
    }

    /** `MotorExecutor_StopTimerExpiredFromIsr`. */
    method Expired(e: E.TimerEvent, f: E.Finish, offOk: bool, ghost until: int)
      requires Valid() && Timely(s, until) && InTime(s, Delay(f), until)
      modifies this, timer
      ensures Valid() && s == E.Expired(old(s), e, f, offOk)
    {
      hide Held, Timely, T.StopTimer.Refines, E.FinishPulse, E.ShutDown;
      Reads();
      if e.Normal? && seg.on && motor.press && seg.kind.Pulse? {
        FinishPulseSoon(s, E.EndedNormal, f, offOk, until);
        var ok := FinishPulse(E.EndedNormal, f, offOk, until);
        if !ok { ShutDown(E.Error, offOk, until); }
      } else if brake.on || (seg.on && seg.kind.Approach?) {
        ShutDown(E.Backstop, offOk, until);
      } else {
        ShutDown(e, offOk, until);
      }
    }

    /** `MotorStopTimer_IrqHandler`. */
    method Irq(f: E.Finish, offOk: bool, ghost until: int)
      requires Valid() && Timely(s, until) && InTime(s, Delay(f), until)
      modifies this, timer
      ensures Valid() && s == E.Irq(old(s), f, offOk)
    {
      hide Held, Timely, T.StopTimer.Refines, E.Expired, E.Classify;
      var event := ClassifyEvent();
      TimerSoon(old(s), s.timer, until);
      Expired(event, f, offOk, until);
    }

    method ClassifyEvent() returns (event: E.TimerEvent)
      requires Valid()
      modifies timer, `s
      ensures Valid() && event == E.Classify(old(s).timer, old(s).clock)
      ensures var t := old(s).timer;
        s == old(s).(timer :=
          t.(healthy := t.healthy && !event.Error?, acked := t.acked || (event.Normal? && t.oneShot)))
    {
      hide SegOf, BrakeOf, AfterOf, LedgerOf, OwnerOf, CoolOf, MotorOf, Low, T.Stands, E.Classify;
      event := timer.Classify(s.clock);
      s := s.(timer := timer.spec);
    }

    // -------------------------------------------------------------- committing and renewing a cutoff

    /** What the timer's registers answer. */
    lemma TimerReads()
      requires Valid()
      ensures timer.armed == s.timer.armed && timer.healthy == s.timer.healthy
      ensures timer.IsArmed() <==> E.IsArmed(s.timer, s.clock)
      ensures E.IsArmed(s.timer, s.clock) ==> timer.armed
      ensures timer.armed ==> (timer.Flagged() <==> E.Flagged(s.timer, s.clock))
    {
      hide T.Stands, E.Flagged;
      timer.ReadsTrue(s.clock);
    }

    method EnableIrq()
      requires Valid()
      modifies timer, `s
      ensures Valid() && s == old(s).(timer := old(s).timer.(irq := true))
    {
      hide SegOf, BrakeOf, AfterOf, LedgerOf, OwnerOf, CoolOf, MotorOf, Low, T.Stands;
      timer.EnableIrq(s.clock);
      s := s.(timer := timer.spec);
    }

    /** `MotorStopTimer_CommitArm`. */
    method CommitArm(f: E.Finish, offOk: bool, ghost until: int) returns (ok: bool)
      requires Valid() && Timely(s, until) && InTime(s, Delay(f), until)
      modifies this, timer
      ensures Valid() && E.Outcome(s, ok) == E.CommitArm(old(s), f, offOk)
    {
      hide Held, Timely, T.StopTimer.Refines, E.Irq, E.Flagged;
      TimerReads();
      if !timer.armed || !timer.healthy { return false; }
      if timer.Flagged() {
        Irq(f, offOk, until);
        return false;
      }
      EnableIrq();
      return true;
    }

    /** The commit as every caller reads it. */
    method Committed(f: E.Finish, offOk: bool, ghost until: int) returns (ok: bool)
      requires Valid() && Timely(s, until) && InTime(s, Delay(f), until)
      modifies this, timer
      ensures Valid() && E.Outcome(s, ok) == E.Committed(old(s), f, offOk)
    {
      hide Held, Timely, T.StopTimer.Refines, E.CommitArm;
      ok := CommitArm(f, offOk, until);
      Reads();
      ok := ok && owner.open && latch.Clear?;
    }

    method MoveLease(remaining: U32)
      requires Valid() && E.TransitionReady(s.timer, s.clock) && !s.timer.oneShot && 1 < remaining <= LEASE_MS
      modifies timer, `s
      ensures Valid() && s == old(s).(timer := E.MoveLease(old(s).timer, old(s).clock, remaining))
    {
      hide SegOf, BrakeOf, AfterOf, LedgerOf, OwnerOf, CoolOf, MotorOf, Low, T.Stands, E.MoveLease, E.IsArmed,
        E.Flagged;
      assert E.IsArmed(s.timer, s.clock) && timer.armed by { TimerReads(); }
      timer.OneShotReads(s.clock);
      timer.MoveLease(remaining, s.clock);
      s := s.(timer := timer.spec);
    }

    /** `MotorStopTimer_RenewLease`. An unflagged lease still has its compare ahead, so the source's
        second test, by sign of the difference, never finds it passed. */
    method RenewLease(remaining: U32, f: E.Finish, offOk: bool, ghost until: int) returns (ok: bool)
      requires Valid() && Timely(s, until) && InTime(s, Delay(f), until) && (s.timer.armed ==> !s.timer.oneShot)
      modifies this, timer
      ensures Valid() && E.Outcome(s, ok) == E.RenewLease(old(s), remaining, f, offOk)
    {
      hide Held, Timely, T.StopTimer.Refines, E.Irq, E.Flagged, E.Committed, E.MoveLease, E.Expired;
      Reads();
      TimerReads();
      if !timer.IsArmed() || !timer.healthy || remaining <= 1 || remaining > LEASE_MS { return false; }
      if timer.Flagged() {
        Irq(f, offOk, until);
        return false;
      }
      timer.LeaseAhead(s.clock);
      assert !Reached(timer.cnt, timer.ccr1);
      TimerSoon(s, E.MoveLease(s.timer, s.clock, remaining), until);
      MoveLease(remaining);
      ok := Committed(f, offOk, until);
    }

    /** `MotorExecutor_BuildFinishPulse` for an approach. */
    method FinishApproach(reason: E.Reason, env: E.Env, ghost until: int) returns (ok: bool)
      requires Valid() && Timely(s, until) && InTime(s, Delay(env.finish) + Delay(env.nested), until)
      requires s.timer.armed ==> !s.timer.oneShot
      modifies this, timer
      ensures Valid() && E.Outcome(s, ok) == E.FinishApproach(old(s), reason, env)
    {
      hide Held, Timely, T.StopTimer.Refines, Lapsed, E.FinishBegin, E.FinishCommit, E.RenewLease;
      FinishBeginSoon(s, env.finish, env.offOk, until);
      ok := FinishBegin(env.finish, env.offOk, until);
      if !ok { return; }
      LapsedTrue(until);
      RenewSoon(s, Minus(seg.rxDeadline, tick), env.nested, env.offOk, until);
      ok := RenewLease(Minus(seg.rxDeadline, tick), env.nested, env.offOk, until);
      if !ok { return; }
      ok := FinishCommit(reason, env.finish, until);
    }

    /** The shared failure tail: OFF, accounted, owner revoked, timer cancelled, an earlier event kept. */
    method FailOff(reason: E.Reason, offOk: bool, ghost until: int)
      requires Held() && Timely(s, until)
      modifies this, timer
      ensures Valid() && s == E.FailOff(old(s), reason, offOk)
    {
      hide Held, Timely, T.StopTimer.Refines, E.RecordOff, E.Revoke;
      BridgeSoon(s, E.DisableBridge(s, offOk).bridge, until);
      DisableBridge(offOk);
      TimelyNow(s, until);
      RecordOff(reason);
      Revoke();
      CancelTimer();
      Reads();
      if latch.Clear? { Latch(E.Error); }
    }

    method Revoke()
      requires Held()
      modifies `owner, `s
      ensures Held() && s == old(s).(owner := E.Revoke(old(s).owner))
    {
      hide SegOf, BrakeOf, AfterOf, LedgerOf, OwnerOf, CoolOf, MotorOf, Low, E.Revoke;
      OwnerReads(s.owner);
      owner := owner.(open := false);
      s := s.(owner := E.Revoke(s.owner));
    }

    // -------------------------------------------------------------- opening an owner

    /** `MotorExecutor_ActiveRequestIsValid`. */
    predicate RequestValid(readOk: bool)
      reads this, timer
    {
      if latch.Latched? then bridge.Off? && !timer.IsArmed() && (motor.action.Disabled? ==> motor.active)
      else
        && motor.active && timer.IsArmed() && timer.healthy
        && if motor.action.Disabled? then !bridge.Off?
           else
             && owner.open && (seg.on || brake.on) && motor.press && readOk
             && bridge == (if brake.on then E.Brake else E.Drive(motor.duty))
    }

    /** `MotorExecutor_IsHealthy`. */
    predicate Healthy(readOk: bool)
      reads this, timer
    {
      && timer.healthy
      && if motor.active then RequestValid(readOk) else bridge.Off? && !timer.IsArmed()
    }

    lemma HealthTrue(readOk: bool)
      requires Valid()
      ensures Healthy(readOk) <==> E.Healthy(s, readOk)
      ensures RequestValid(readOk) <==> E.RequestValid(s, readOk)
    {
      hide Held, T.StopTimer.Refines, E.IsArmed;
      Reads();
      TimerReads();
    }

    /** `MotorExecutor_BeginBuild`: the token of a new owner, never zero. */
    method BeginBuild(unlocked: bool) returns (result: E.Result, token: U32)
      requires Valid()
      modifies this
      ensures Valid() && E.Returned(s, result) == E.BeginBuild(old(s), unlocked) &&
        (result.Ok? ==> token == s.owner.token)
    {
      hide Held, T.StopTimer.Refines, E.RefreshRest, E.NextToken, E.IsArmed;
      RestFrame(s);
      RefreshRest();
      Reads();
      TimerReads();
      if !unlocked || cool.rest || owner.open || motor.active || latch.Latched? || !bridge.Off? || timer.IsArmed() ||
        !timer.healthy {
        return E.Invalid, 0;
      }
      token := OpenOwner();
      return E.Ok, token;
    }

    method OpenOwner() returns (token: U32)
      requires Held()
      modifies `owner, `after, `s
      ensures Held() && token == s.owner.token
      ensures var o := old(s).owner;
        s == old(s).(owner := E.Owner(true, E.NextToken(o.token), false, o.used, o.feedback, []),
                     after := old(s).after.(post := false))
    {
      hide SegOf, BrakeOf, LedgerOf, CoolOf, MotorOf, Low;
      token := Plus(owner.token, 1);
      if token == 0 { token := Plus(token, 1); }
      owner := OwnerWords(true, token, false, owner.used, owner.feedback);
      after := after.(post := false);
      s := s.(owner := E.Owner(true, E.NextToken(s.owner.token), false, s.owner.used, s.owner.feedback, []),
              after := s.after.(post := false));
    }

    // -------------------------------------------------------------- starting a segment

    /** What the bridge and the timer must still be for a segment to begin from here. */
    method StartReady(env: E.Env, ghost until: int) returns (ok: bool)
      requires Valid() && Timely(s, until) && InTime(s, Delay(env.nested), until)
      modifies this, timer
      ensures Valid() && E.Outcome(s, ok) == E.StartReady(old(s), env)
    {
      hide Held, Timely, T.StopTimer.Refines, E.Committed, E.IsArmed, Lapsed, E.DeadlinesPassed;
      Reads();
      TimerReads();
      CommittedSoon(s, env.nested, env.offOk, until);
      if brake.on {
        if !(bridge.Brake? && env.readOk) { return false; }
        ok := Committed(env.nested, env.offOk, until);
        if !ok { return; }
        Reads();
        BrakeTimes(s, until);
        return !Reached(tick, brake.deadline) && Minus(tick, after.ended) >= seg.settle;
      } else if seg.on {
        if !(bridge == E.Drive(motor.duty) && env.readOk) { return false; }
        ok := Committed(env.nested, env.offOk, until);
        if !ok { return; }
        LapsedTrue(until);
        return !Lapsed();
      } else {
        return bridge.Off? && !timer.IsArmed();
      }
    }

    /** The executor's own envelope, its owner's target, and time enough left in the receive lease. */
    predicate Admissible(r: Request, received: U32)
      reads `owner, `seg, `brake, `tick
    {
      && Envelope(r)
      && (owner.haveSequence ==> r.target == seg.target)
      && if r.phase == PHASE_APPROACH then !brake.on
         else r.hardMs < LEASE_MS - Minus(tick, received)
    }

    lemma AdmissibleTrue(r: Request, at: int, until: int)
      requires Held() && Timely(s, until) && Received(s, at, until)
      ensures Admissible(r, Low(at)) <==> E.StartAdmitted(s, r, at)
    {
      hide Timely, Low, Minus, Envelope;
      Reads();
      AgeWord(s, at, until);
    }

    /** Ends the approach or BRAKE the segment begins from, charging it in full. */
    method LeavePrevious()
      requires Held() && Timely(s, E.Now(s))
      modifies `seg, `after, `ledger, `cool, `owner, `brake, `s
      ensures Held() && s == E.LeavePrevious(old(s)) && s.clock == old(s).clock
    {
      hide SegOf, BrakeOf, AfterOf, LedgerOf, OwnerOf, CoolOf, MotorOf, Low, E.RecordPulseEnd, E.ChargeBrake, Timely;
      ghost var first := s;
      SegReads(s.seg);
      var leaving := seg.on;
      PulseEndFrame(s, E.EndedReduced);
      RecordPulseEnd(E.EndedReduced);
      ChargeBrakeFrame(if leaving then s.(after := s.after.(post := false)) else s);
      AfterReads(s.after);
      AfterReads(s.after.(post := false));
      if leaving {
        after := after.(post := false);
        s := s.(after := s.after.(post := false));
      }
      TimelyBrake(first);
      ChargeBrake();
    }

    /** Admission reserves the whole hard limit. */
    method Reserve(r: Request, hard: U32, sequence: U64, received: U32, ghost at: int)
      requires Held() && received == Low(at) && hard < HALF && APPROACH_COMMAND * hard < WORD
      modifies `seg, `after, `ledger, `owner, `motor, `s
      ensures Held() && s == E.Reserve(old(s), r, hard, sequence, at) && s.clock == old(s).clock
    {
      hide SegOf, BrakeOf, AfterOf, LedgerOf, OwnerOf, CoolOf, MotorOf, Low, E.Reserve;
      ReserveWords(s, r, hard, sequence, at);
      SegReads(s.seg);
      if r.phase == PHASE_APPROACH {
        ledger := ledger.(approachReserved := Plus(ledger.approachReserved, hard),
                          approachCommand := Plus(ledger.approachCommand, APPROACH_COMMAND * hard));
      }
      ledger := ledger.(reserved := Plus(ledger.reserved, hard));
      seg := SegWords(seg.on, E.KindOf(r), hard, r.settleMs, r.target, Plus(seg.request, 1), tick, Plus(tick, hard),
        Plus(received, LEASE_MS));
      after := after.(reason := E.NotEnded);
      owner := owner.(used := sequence, feedback := sequence, haveSequence := true);
      motor := MotorWords(true, true, Duty(r.command), E.Segment, Plus(tick, hard));
      s := E.Reserve(s, r, hard, sequence, at);
    }

    /** A lease for an approach, no longer than its segment. */
    method StartLease() returns (ok: bool)
      requires Valid() && E.Now(s) < s.seg.rxDeadline < E.Now(s) + HALF && 0 <= s.seg.hard < HALF
      modifies timer, `s
      ensures Valid() && var a :=
        E.StartLease(old(s).timer, old(s).clock, E.Least(old(s).seg.rxDeadline - E.Now(old(s)), old(s).seg.hard));
        ok == a.ok && s == old(s).(timer := a.t)
    {
      hide BrakeOf, AfterOf, LedgerOf, OwnerOf, CoolOf, MotorOf, Low, Minus, T.Stands, E.StartLease;
      ElapsedExact(s.seg.rxDeadline, E.Now(s));
      LowOf(s.seg.hard, s.seg.hard, 0);
      var lease := Minus(seg.rxDeadline, tick);
      if lease > seg.hard { lease := seg.hard; }
      ok := timer.StartLease(lease, s.clock);
      s := s.(timer := timer.spec);
    }

    /** A pulse's two cutoffs, on a stopped timer or in place of a lease. A refused change of
        cutoffs leaves registers only the failing tail may follow. */
    method ArmPulse(normal: U32, fromOff: bool, startOk: bool, gap: E.Brief) returns (ok: bool)
      requires Valid() && 0 <= s.seg.hard && s.seg.hard * T.PER_MS < WORD
      requires if fromOff then gap == 0 else gap < 1000 && 2 <= normal
      modifies `tick, `fraction, timer, `s
      ensures Held() && (ok ==> Valid())
      ensures var a := if fromOff then E.Arm(old(s).timer, old(s).clock, normal, old(s).seg.hard, startOk)
                       else E.PulseCutoffs(old(s).timer, old(s).clock, normal, old(s).seg.hard, gap);
        ok == a.ok && s == E.Pass(old(s).(timer := a.t), gap)
    {
      hide BrakeOf, AfterOf, LedgerOf, OwnerOf, CoolOf, MotorOf, Low, T.Stands, E.Arm, E.PulseCutoffs, E.Pass;
      LowOf(s.seg.hard, s.seg.hard, 0);
      if fromOff {
        ok := timer.Arm(normal, seg.hard, startOk, s.clock);
      } else {
        ok := timer.PulseCutoffs(normal, seg.hard, gap, s.clock);
      }
      s := s.(timer := timer.spec);
      AdvanceTick(gap);
    }

    /** As much of a delay as stays within the running tick. */
    method Within(gap: E.Brief) returns (us: E.Brief)
      requires Held()
      ensures us == E.Within(s.clock, gap) && us < 1000
    {
      hide SegOf, BrakeOf, AfterOf, LedgerOf, OwnerOf, CoolOf, MotorOf, Low;
      us := if fraction + gap < 1000 then gap else 999 - fraction;
    }

    /** The cutoff a segment starts under. */
    method ArmSegment(r: Request, fromOff: bool, env: E.Env, ghost until: int) returns (ok: bool)
      requires Valid() && Timely(s, until) && InTime(s, Delay(env.nested), until)
      requires E.Now(s) < s.seg.rxDeadline < E.Now(s) + HALF && 0 <= s.seg.hard && s.seg.hard * T.PER_MS < WORD
      requires r.normalMs < WORD && (r.phase != PHASE_APPROACH ==> 2 <= r.normalMs)
      modifies this, timer
      ensures Held() && (ok ==> Valid()) && E.Outcome(s, ok) == E.ArmSegment(old(s), r, fromOff, env)
    {
      hide Held, Timely, T.StopTimer.Refines, E.StartLease, E.Arm, E.PulseCutoffs, E.CommitArm, E.Pass, E.Within;
      if r.phase == PHASE_APPROACH {
        RefusedLease(s.timer, s.clock, E.Least(s.seg.rxDeadline - E.Now(s), s.seg.hard));
        TimerSoon(s, E.StartLease(s.timer, s.clock, E.Least(s.seg.rxDeadline - E.Now(s), s.seg.hard)).t, until);
        ok := StartLease();
        if !ok { return; }
        ok := CommitArm(env.nested, env.offOk, until);
      } else {
        var gap := 0;
        if !fromOff { gap := Within(env.gap); }
        ok := ArmPulse(r.normalMs, fromOff, env.startOk, gap);
      }
    }

    method Begin(ghost r: Request, ghost sequence: U64, ghost at: int)
      requires Held()
      modifies `seg, `s
      ensures Held() && s == E.Begun(old(s), r, sequence, at) && s.clock == old(s).clock
    {
      hide BrakeOf, AfterOf, LedgerOf, CoolOf, MotorOf, Low;
      seg := seg.(on := true);
      s := E.Begun(s, r, sequence, at);
    }

    method Unverify()
      requires Held()
      modifies `cool, `s
      ensures Held() && s == old(s).(cool := old(s).cool.(offVerified := false))
    {
      hide SegOf, BrakeOf, AfterOf, LedgerOf, OwnerOf, MotorOf, Low;
      cool := cool.(offVerified := false);
      s := s.(cool := s.cool.(offVerified := false));
    }

    /** Energise only under a committed cutoff, and verify that cutoff again afterwards. */
    method Energise(env: E.Env, ghost until: int) returns (result: E.Result)
      requires Valid() && Timely(s, until) && InTime(s, env.wait1 + env.wait2 + 2 * Delay(env.nested), until)
      modifies this, timer
      ensures Valid() && E.Returned(s, result) == E.Energise(old(s), env)
    {
      hide Held, Timely, T.StopTimer.Refines, E.Committed, E.FailOff;
      PassSoon(s, env.wait1, until);
      Wait(env.wait1);
      CommittedSoon(s, env.nested, env.offOk, until);
      var ok := Committed(env.nested, env.offOk, until);
      if !ok {
        FailOff(E.EndedHardware, env.offOk, until);
        return E.HardwareError;
      }
      UnverifySoon(s, until);
      Unverify();
      if !env.applyOk {
        BridgeSoon(s, E.DisableBridge(s, env.offOk).bridge, until);
        DisableBridge(env.offOk);
        FailOff(E.EndedHardware, env.offOk, until);
        return E.HardwareError;
      }
      result := Drive(env, until);
    }

    /** Full drive as planned, then the cutoff once more. */
    method Drive(env: E.Env, ghost until: int) returns (result: E.Result)
      requires Valid() && Timely(s, until) && InTime(s, env.wait2 + Delay(env.nested), until)
      modifies this, timer
      ensures Valid()
      ensures var n :=
        E.Committed(E.Pass(E.SetBridge(old(s), E.Drive(old(s).motor.duty)), env.wait2), env.nested, env.offOk);
        E.Returned(s, result) == if n.ok then E.Returned(n.s, E.Ok)
                                 else E.Returned(E.FailOff(n.s, E.EndedHardware, env.offOk), E.HardwareError)
    {
      hide Held, Timely, T.StopTimer.Refines, E.Committed, E.FailOff;
      Reads();
      BridgeSoon(s, E.Drive(s.motor.duty), until);
      SetBridge(E.Drive(motor.duty));
      PassSoon(s, env.wait2, until);
      Wait(env.wait2);
      CommittedSoon(s, env.nested, env.offOk, until);
      var ok := Committed(env.nested, env.offOk, until);
      if ok { return E.Ok; }
      FailOff(E.EndedHardware, env.offOk, until);
      return E.HardwareError;
    }

    method Launch(r: Request, hard: U32, sequence: U64, received: U32, fromOff: bool, env: E.Env, ghost at: int,
      ghost until: int)
      returns (result: E.Result)
      requires Valid() && Timely(s, until) && InTime(s, 999 + env.wait1 + env.wait2 + 3 * Delay(env.nested), until)
      requires received == Low(at) && Received(s, at, until) && E.Now(s) - at <= AGE_MS
      requires !s.seg.on && !s.brake.on && hard <= APPROACH_TOTAL_MS
      requires if r.phase == PHASE_APPROACH then !E.ApproachExhausted(s.ledger) &&
        hard == APPROACH_TOTAL_MS - s.ledger.approachReserved && r.normalMs == 0
               else 2 <= r.normalMs < WORD
      modifies this, timer
      ensures Valid() && E.Returned(s, result) == E.Launch(old(s), r, hard, sequence, at, fromOff, env)
    {
      hide Held, Timely, T.StopTimer.Refines, E.Reserve, E.Begun, E.ArmSegment, E.Energise, E.FailOff,
        E.ApproachExhausted;
      ReserveSoon(s, r, hard, sequence, at, until);
      ReserveFrame(s, r, hard, sequence, at);
      Reserve(r, hard, sequence, received, at);
      ArmSoon(s, r, fromOff, env, until);
      ghost var o := E.ArmSegment(s, r, fromOff, env);
      if o.ok { BegunSoon(s, o.s.timer, o.s.clock - s.clock, r, sequence, at, until); }
      var ok := ArmSegment(r, fromOff, env, until);
      if !ok {
        FailOff(E.EndedHardware, env.offOk, until);
        return E.HardwareError;
      }
      Begin(r, sequence, at);
      result := Energise(env, until);
    }

    /** Past every check: leave what ran before and launch, an approach only while its epoch allows one. */
    method Admit(r: Request, sequence: U64, received: U32, env: E.Env, ghost at: int, ghost until: int)
      returns (result: E.Result)
      requires Valid() && Timely(s, until) && InTime(s, 999 + env.wait1 + env.wait2 + 3 * Delay(env.nested), until)
      requires received == Low(at) && Received(s, at, until) && E.Now(s) - at <= AGE_MS
      requires Envelope(r) && (r.phase == PHASE_APPROACH ==> !s.seg.on && !s.brake.on)
      modifies this, timer
      ensures Valid() && E.Returned(s, result) == E.Admit(old(s), r, sequence, at, env)
    {
      hide Held, Timely, T.StopTimer.Refines, E.LeavePrevious, E.Launch, E.FailOff, E.ApproachExhausted;
      Reads();
      var fromOff := !seg.on && !brake.on;
      LeaveSoon(s, until);
      AccountLow(E.LeavePrevious(s), until);
      TimelyNow(s, until);
      LeavePrevious();
      if r.phase != PHASE_APPROACH {
        result := Launch(r, r.hardMs, sequence, received, fromOff, env, at, until);
        return;
      }
      var exhausted, available := ApproachLeft();
      if exhausted {
        RestRequiredSoon(s, until);
        RequireRest();
        FailOff(E.EndedHardware, env.offOk, until);
        return E.HardwareError;
      }
      result := Launch(r, available, sequence, received, fromOff, env, at, until);
    }

    method ApproachLeft() returns (exhausted: bool, available: U32)
      requires Held() && Unwrapped(s.ledger)
      ensures exhausted <==> E.ApproachExhausted(s.ledger)
      ensures !exhausted ==> available == APPROACH_TOTAL_MS - s.ledger.approachReserved
    {
      hide SegOf, BrakeOf, AfterOf, LedgerOf, OwnerOf, CoolOf, MotorOf, Low, E.ApproachExhausted;
      ExhaustedWord(s.ledger);
      if Exhausted(ledger) { return true, 0; }
      return false, APPROACH_TOTAL_MS - ledger.approachReserved;
    }

    method RequireRest()
      requires Held()
      modifies `cool, `s
      ensures Held() && s == old(s).(cool := old(s).cool.(rest := true)) && s.clock == old(s).clock
    {
      hide SegOf, BrakeOf, AfterOf, LedgerOf, OwnerOf, MotorOf, Low;
      cool := cool.(rest := true);
      s := s.(cool := s.cool.(rest := true));
    }

    predicate Refused(token: U32, r: Request, sequence: U64)
      reads `seg, `brake, `after, `owner, `motor, `latch
    {
      var fromApproach := seg.on && seg.kind.Approach? && r.phase != PHASE_APPROACH;
      || !owner.open || token != owner.token
      || (seg.on && !fromApproach) || (motor.active && !brake.on && !fromApproach)
      || latch.Latched? || after.post || (owner.haveSequence && !After(sequence, owner.used))
    }

    lemma RefusedTrue(token: U32, r: Request, sequence: U64)
      requires Held()
      ensures Refused(token, r, sequence) <==> E.StartRefused(s, token, r, sequence)
    {
      hide Held, After;
      Reads();
    }

    /** `MotorExecutor_StartBuildSegment`. */
    method StartSegment(token: U32, r: Request, sequence: U64, received: U32, env: E.Env, ghost at: int,
      ghost until: int)
      returns (result: E.Result)
      requires Valid() && Timely(s, until) && InTime(s, Slowest(env), until)
      requires received == Low(at) && Received(s, at, until)
      modifies this, timer
      ensures Valid() && E.Returned(s, result) == E.StartSegment(old(s), token, r, sequence, at, env)
    {
      hide Held, Timely, T.StopTimer.Refines, Refused, Admissible, Healthy, Low, Minus;
      hide E.StartRefused, E.RefreshRest, E.Healthy, E.StartReady, E.StartAdmitted, E.Admit, E.FailOff;
      RefusedTrue(token, r, sequence);
      if Refused(token, r, sequence) { return E.Invalid; }
      ApproachIsFirst(s, token, r, sequence);
      RestSoon(s, until);
      RefreshRest();
      Reads();
      HealthTrue(env.readOk);
      AgeWord(s, at, until);
      if cool.rest || Minus(tick, received) > AGE_MS || !Healthy(env.readOk) {
        FailOff(E.EndedHardware, env.offOk, until);
        return E.HardwareError;
      }
      ReadySoon(s, env, until);
      var ok := StartReady(env, until);
      if ok {
        AdmissibleTrue(r, at, until);
        ok := Admissible(r, received);
      }
      if !ok {
        FailOff(E.EndedHardware, env.offOk, until);
        return E.HardwareError;
      }
      AdmittedWords(s, r, at);
      result := Admit(r, sequence, received, env, at, until);
    }

    // -------------------------------------------------------------- ending a segment

    /** An end past the hard cutoff, or past its timer: OFF, and the motor must rest. */
    method EndLate(env: E.Env, ghost until: int)
      requires Held() && Timely(s, until)
      modifies this, timer
      ensures Valid() && s == E.EndLate(old(s), env)
    {
      hide Held, Timely, T.StopTimer.Refines, E.FailOff;
      FailOff(E.EndedDeadline, env.offOk, until);
      Condemn();
    }

    method Condemn()
      requires Held()
      modifies `after, `cool, `s
      ensures Held() &&
        s == old(s).(after := old(s).after.(reason := E.EndedDeadline), cool := old(s).cool.(rest := true))
    {
      hide SegOf, BrakeOf, LedgerOf, OwnerOf, MotorOf, Low;
      after := after.(reason := E.EndedDeadline);
      cool := cool.(rest := true);
      s := s.(after := s.after.(reason := E.EndedDeadline), cool := s.cool.(rest := true));
    }

    method Idle(action: E.Action)
      requires Held()
      modifies `motor, `s
      ensures Held() && s == old(s).(motor := old(s).motor.(action := action, active := false, duty := 0)) &&
        s.clock == old(s).clock
    {
      hide SegOf, BrakeOf, AfterOf, LedgerOf, OwnerOf, CoolOf, Low;
      motor := motor.(action := action, active := false, duty := 0);
      s := s.(motor := s.motor.(action := action, active := false, duty := 0));
    }

    /** The branch for a RELEASE segment, which no admission creates. */
    method EndReleased(env: E.Env, ghost until: int) returns (result: E.Result)
      requires Valid() && Timely(s, until) && InTime(s, Delay(env.nested), until) && s.seg.on
      modifies this, timer
      ensures Valid() && E.Returned(s, result) == E.EndReleased(old(s), env)
    {
      hide Held, Timely, T.StopTimer.Refines, Lapsed, E.DeadlinesPassed, E.Committed, E.EndLate, E.RecordOff, E.Revoke;
      BridgeSoon(s, E.DisableBridge(s, env.offOk).bridge, until);
      DisableBridge(env.offOk);
      CommittedSoon(s, env.nested, env.offOk, until);
      var ok := Committed(env.nested, env.offOk, until);
      if ok {
        LapsedTrue(until);
        ok := !Lapsed();
      }
      if !ok {
        EndLate(env, until);
        return E.TimerError;
      }
      TimelyNow(s, until);
      RecordOff(E.EndedReduced);
      CancelTimer();
      Reads();
      Idle(motor.action);
      Reads();
      if bridge.Off? { return E.Ok; }
      Revoke();
      return E.HardwareError;
    }

    /** `MotorExecutor_EndBuildSegment`. */
    method EndSegment(token: U32, env: E.Env, ghost until: int) returns (result: E.Result)
      requires Valid() && Timely(s, until) && InTime(s, Slowest(env), until) && Safety.Inv(s)
      modifies this, timer
      ensures Valid() && E.Returned(s, result) == E.EndSegment(old(s), token, env)
    {
      hide Held, Timely, T.StopTimer.Refines, Lapsed, Safety.Inv;
      hide E.DeadlinesPassed, E.Committed, E.EndLate, E.EndReleased, E.FinishApproach, E.FinishPulse, E.FailOff;
      Reads();
      if !owner.open || token != owner.token || !seg.on || latch.Latched? { return E.Invalid; }
      if !motor.press {
        result := EndReleased(env, until);
        return;
      }
      LeaseShape(s);
      CommittedSoon(s, env.nested, env.offOk, until);
      var ok := Committed(env.nested, env.offOk, until);
      if ok {
        LapsedTrue(until);
        ok := !Lapsed();
      }
      if !ok {
        EndLate(env, until);
        return E.TimerError;
      }
      result := EndNow(env, until);
    }

    /** The end of a segment whose cutoff still stands. */
    method EndNow(env: E.Env, ghost until: int) returns (result: E.Result)
      requires Valid() && Timely(s, until) && InTime(s, 2 * Delay(env.finish) + 2 * Delay(env.nested), until)
      requires s.seg.kind.Approach? && s.timer.armed ==> !s.timer.oneShot
      modifies this, timer
      ensures Valid()
      ensures var n := if old(s).seg.kind.Approach? then E.FinishApproach(old(s), E.EndedReduced, env)
                       else E.FinishPulse(old(s), E.EndedReduced, env.finish, env.offOk);
        E.Returned(s, result) == if n.ok then E.Returned(n.s, E.Ok)
                                 else E.Returned(E.FailOff(n.s, E.EndedDeadline, env.offOk), E.TimerError)
    {
      hide Held, Timely, T.StopTimer.Refines, E.FinishApproach, E.FinishPulse, E.FailOff;
      Reads();
      var ok;
      if seg.kind.Approach? {
        FinishApproachSoon(s, E.EndedReduced, env, until);
        ok := FinishApproach(E.EndedReduced, env, until);
      } else {
        FinishPulseSoon(s, E.EndedReduced, env.finish, env.offOk, until);
        ok := FinishPulse(E.EndedReduced, env.finish, env.offOk, until);
      }
      if ok { return E.Ok; }
      FailOff(E.EndedDeadline, env.offOk, until);
      return E.TimerError;
    }

    // -------------------------------------------------------------- frames

    predicate PostDue(token: U32, request: U32, sequence: U64, received: U32, readOk: bool)
      reads this, timer
    {
      && owner.open && token == owner.token && after.post && request == seg.request
      && !seg.on && (!motor.active || brake.on) && latch.Clear?
      && E.Soft(after.reason) && After(sequence, owner.used)
      && Minus(tick, received) <= AGE_MS && Reached(received, after.ended) && Healthy(readOk)
    }

    lemma PostDueTrue(token: U32, request: U32, sequence: U64, readOk: bool, at: int, until: int)
      requires Valid() && Timely(s, until) && Received(s, at, until)
      ensures PostDue(token, request, sequence, Low(at), readOk) <==> E.PostDue(s, token, request, sequence, at, readOk)
    {
      hide Held, Timely, After, Low, Minus, Reached, T.StopTimer.Refines, Healthy, E.Healthy;
      Reads();
      AgeWord(s, at, until);
      HealthTrue(readOk);
      if s.owner.open && s.after.post && E.Now(s) - at <= AGE_MS {
        PostWord(s, at, until);
      }
    }

    /** `MotorExecutor_AcceptBuildPost`: the frame that ends a pulse's response wait. */
    method AcceptPost(token: U32, request: U32, sequence: U64, received: U32, env: E.Env, ghost at: int,
      ghost until: int)
      returns (ok: bool)
      requires Valid() && Timely(s, until) && InTime(s, Slowest(env), until) && received == Low(at) &&
        Received(s, at, until)
      modifies this, timer
      ensures Valid() && E.Outcome(s, ok) == E.AcceptPost(old(s), token, request, sequence, at, env)
    {
      hide Held, Timely, T.StopTimer.Refines, PostDue, E.PostDue, E.Committed, E.TakePost, Low, Reached;
      Reads();
      PostDueTrue(token, request, sequence, env.readOk, at, until);
      if !PostDue(token, request, sequence, received, env.readOk) { return false; }
      if !brake.on {
        if !bridge.Off? { return false; }
        TakePost(sequence, at);
        return true;
      }
      BrakeTimes(s, until);
      DeadlineWords(s, until);
      SegReads(s.seg);
      if !(bridge.Brake? && env.readOk) || Reached(tick, brake.deadline) ||
        Reached(tick, seg.rxDeadline) { return false; }
      ok := Committed(env.nested, env.offOk, until);
      if ok { TakePost(sequence, at); }
    }

    method TakePost(ghost sequence: U64, ghost at: int)
      requires Held()
      modifies `after, `s
      ensures Held() && s == E.TakePost(old(s), sequence, at) && s.clock == old(s).clock
    {
      hide SegOf, BrakeOf, LedgerOf, CoolOf, MotorOf, Low;
      after := after.(post := false);
      s := E.TakePost(s, sequence, at);
    }

    predicate LeaseBroken(readOk: bool)
      reads `tick, `seg, `brake, `bridge, `motor
    {
      || Reached(tick, seg.rxDeadline) || !readOk
      || if brake.on then !bridge.Brake? else Reached(tick, seg.deadline) || bridge != E.Drive(motor.duty)
    }

    lemma LeaseBrokenTrue(readOk: bool, until: int)
      requires Held() && Timely(s, until) && E.Leased(s)
      ensures LeaseBroken(readOk) <==> E.LeaseBroken(s, readOk)
    {
      hide Held, Timely, Low, Reached;
      Reads();
      DeadlineWords(s, until);
      SegReads(s.seg);
    }

    /** `MotorExecutor_RefreshBuildFeedback`: only BRAKE and the approach live on their receive lease. */
    method Refresh(token: U32, sequence: U64, received: U32, env: E.Env, ghost at: int, ghost until: int)
      returns (result: E.Result)
      requires Valid() && Timely(s, until) && InTime(s, Slowest(env), until) && received == Low(at) &&
        Received(s, at, until)
      requires Safety.Inv(s)
      modifies this, timer
      ensures Valid() && E.Returned(s, result) == E.Refresh(old(s), token, sequence, at, env)
    {
      hide Held, Timely, T.StopTimer.Refines, LeaseBroken, Safety.Inv, Low, Minus, After, Renewal, Reached;
      hide E.LeaseBroken, E.RenewLease, E.FailOff, E.Extend;
      Reads();
      AgeWord(s, at, until);
      if !owner.open || token != owner.token || latch.Latched? || Minus(tick, received) > AGE_MS ||
         (owner.haveSequence && !After(sequence, owner.feedback)) {
        return E.Invalid;
      }
      if !brake.on && !(seg.on && seg.kind.Approach?) {
        SawFrame(sequence);
        return E.Ok;
      }
      LeaseShape(s);
      LeaseBrokenTrue(env.readOk, until);
      if LeaseBroken(env.readOk) {
        FailOff(E.EndedDeadline, env.offOk, until);
        return E.TimerError;
      }
      UnbrokenLease(s, env.readOk);
      result := Renew(sequence, received, env, at, until);
    }

    method SawFrame(sequence: U64)
      requires Held()
      modifies `owner, `s
      ensures Held() && s == old(s).(owner := old(s).owner.(feedback := sequence)) && s.clock == old(s).clock
    {
      hide SegOf, BrakeOf, AfterOf, LedgerOf, CoolOf, MotorOf, Low;
      owner := owner.(feedback := sequence);
      s := s.(owner := s.owner.(feedback := sequence));
    }

    method Renew(sequence: U64, received: U32, env: E.Env, ghost at: int, ghost until: int) returns (result: E.Result)
      requires Valid() && Timely(s, until) && InTime(s, Delay(env.nested), until) && received == Low(at) &&
        Received(s, at, until)
      requires E.Now(s) - at <= AGE_MS && (s.seg.on ==> E.Now(s) < s.seg.deadline) &&
        (s.timer.armed ==> !s.timer.oneShot)
      modifies this, timer
      ensures Valid()
      ensures var d := if old(s).seg.on then E.Least(at + LEASE_MS, old(s).seg.deadline) else at + LEASE_MS;
        var o := E.RenewLease(old(s), d - E.Now(old(s)), env.nested, env.offOk);
        E.Returned(s, result) == if o.ok then E.Returned(E.Extend(o.s, d, sequence, at), E.Ok)
                                 else E.Returned(E.FailOff(o.s, E.EndedDeadline, env.offOk), E.TimerError)
    {
      hide Held, Timely, T.StopTimer.Refines, E.RenewLease, E.FailOff, E.Extend, Low, Minus, Renewal;
      ghost var d := if s.seg.on then E.Least(at + LEASE_MS, s.seg.deadline) else at + LEASE_MS;
      RenewalWord(s, at, until);
      var deadline := RenewedDeadline(received);
      RenewSoon(s, d - E.Now(s), env.nested, env.offOk, until);
      Reads();
      var ok := RenewLease(Minus(deadline, tick), env.nested, env.offOk, until);
      if ok {
        Extend(deadline, sequence, d, at);
        return E.Ok;
      }
      FailOff(E.EndedDeadline, env.offOk, until);
      return E.TimerError;
    }

    method RenewedDeadline(received: U32) returns (deadline: U32)
      requires Held()
      ensures deadline == Renewal(SegOf(s.seg), received)
    {
      hide SegOf, BrakeOf, AfterOf, LedgerOf, OwnerOf, CoolOf, MotorOf, Low, Minus, Reached;
      deadline := Plus(received, LEASE_MS);
      if seg.on && Minus(deadline, seg.deadline) != 0 && Reached(deadline, seg.deadline) { deadline := seg.deadline; }
    }

    method Extend(deadline: U32, sequence: U64, ghost d: int, ghost at: int)
      requires Held() && deadline == Low(d)
      modifies `seg, `brake, `motor, `owner, `s
      ensures Held() && s == E.Extend(old(s), d, sequence, at) && s.clock == old(s).clock
    {
      hide AfterOf, LedgerOf, CoolOf, Low;
      seg := seg.(rxDeadline := deadline);
      if brake.on { brake := brake.(deadline := deadline); }
      motor := motor.(backstop := deadline);
      owner := owner.(feedback := sequence);
      s := E.Extend(s, d, sequence, at);
    }

    // -------------------------------------------------------------- stop, service, guard, snapshot

    method Unlatch()
      requires Held()
      modifies `latch, `s
      ensures Held() && s == old(s).(latch := E.Clear) && s.clock == old(s).clock
    {
      hide SegOf, BrakeOf, AfterOf, LedgerOf, OwnerOf, CoolOf, MotorOf, Low;
      latch := E.Clear;
      s := s.(latch := E.Clear);
    }

    /** `MotorExecutor_Disable`. */
    method Disable(offOk: bool, ghost until: int) returns (result: E.Result)
      requires Held() && Timely(s, until)
      modifies this, timer
      ensures Valid() && E.Returned(s, result) == E.Disable(old(s), offOk)
    {
      hide Held, Timely, T.StopTimer.Refines, E.RecordOff;
      BridgeSoon(s, E.DisableBridge(s, offOk).bridge, until);
      DisableBridge(offOk);
      TimelyNow(s, until);
      RecordOff(E.EndedStop);
      CancelTimer();
      Unlatch();
      Idle(E.Disabled);
      Reads();
      return if bridge.Off? then E.Ok else E.HardwareError;
    }

    /** `MotorExecutor_PublishCompletion`. */
    method Publish(latched: E.TimerEvent, offOk: bool, ghost until: int) returns (result: E.Result)
      requires Valid() && Timely(s, until)
      modifies this, timer
      ensures Valid() && E.Returned(s, result) == E.Publish(old(s), latched, offOk)
    {
      hide Held, Timely, T.StopTimer.Refines, E.RecordOff, E.SetBridge;
      Reads();
      var event := if motor.action.Segment? && after.reason.EndedDeadline? then E.Error else latched;
      if !event.Normal? { OffForError(offOk, until); }
      Reads();
      result := Settle(event, offOk);
    }

    method OffForError(offOk: bool, ghost until: int)
      requires Valid() && Timely(s, until)
      modifies this
      ensures Valid() && s == E.RecordOff(E.DisableBridge(old(s), offOk), E.Now(old(s)), E.EndedDeadline)
    {
      hide Held, Timely, T.StopTimer.Refines, E.RecordOff;
      BridgeSoon(s, E.DisableBridge(s, offOk).bridge, until);
      DisableBridge(offOk);
      TimelyNow(s, until);
      OffFrame(s, E.EndedDeadline);
      RecordOff(E.EndedDeadline);
    }

    /** The completion is read against the bridge as it is. */
    method Settle(event: E.TimerEvent, offOk: bool) returns (result: E.Result)
      requires Valid()
      modifies `bridge, `motor, `s
      ensures Valid()
      ensures var d := old(s);
        var m := d.motor.(active := false, duty := 0);
        E.Returned(s, result) ==
          if d.bridge.Off? then E.Returned(d.(motor := m), if event.Error? then E.TimerError else E.Ok)
          else E.Returned(E.DisableBridge(d, offOk).(motor := m), E.HardwareError)
    {
      hide Held, T.StopTimer.Refines;
      Reads();
      if bridge.Off? {
        Idle(motor.action);
        return if event.Error? then E.TimerError else E.Ok;
      }
      DisableBridge(offOk);
      Reads();
      Idle(motor.action);
      return E.HardwareError;
    }

    method StopTimerAndBridge(offOk: bool)
      requires Held()
      modifies `bridge, timer, `s
      ensures Valid() && s == E.StopTimerAndBridge(old(s), offOk)
    {
      hide Held, T.StopTimer.Refines, E.SetBridge;
      DisableBridge(offOk);
      CancelTimer();
    }

    /** `MotorExecutor_Service`, the only consumer of the latched timer event. */
    method Service(offOk: bool, ghost until: int) returns (result: E.Result)
      requires Valid() && Timely(s, until)
      modifies this, timer
      ensures Valid() && E.Returned(s, result) == E.Service(old(s), offOk)
    {
      hide Held, Timely, T.StopTimer.Refines, E.Publish, E.StopTimerAndBridge, E.IsArmed, Reached;
      Reads();
      TimerReads();
      BrakeTimes(s, until);
      StoppedSoon(s, offOk, until);
      if latch.Latched? {
        var event := latch.event;
        UnlatchSoon(s, until);
        Unlatch();
        result := Publish(event, offOk, until);
      } else if !motor.active {
        if !bridge.Off? || timer.IsArmed() {
          result := if !bridge.Off? then E.HardwareError else E.TimerError;
          StopTimerAndBridge(offOk);
        } else {
          result := if timer.healthy then E.Ok else E.TimerError;
        }
      } else if !timer.healthy || !timer.IsArmed() || Reached(tick, motor.backstop) {
        StopTimerAndBridge(offOk);
        result := Publish(E.Error, offOk, until);
      } else if bridge.Off? {
        StopTimerAndBridge(offOk);
        result := Publish(E.Error, offOk, until);
        result := E.HardwareError;
      } else {
        result := E.Ok;
      }
    }

    /** `MotorExecutor_GuardOutput`: it forces OFF but leaves ownership and accounting to later calls. */
    method Guard(readOk: bool, offOk: bool) returns (result: E.Result)
      requires Valid()
      modifies `bridge, timer, `s
      ensures Valid() && E.Returned(s, result) == E.Guard(old(s), readOk, offOk)
    {
      hide Held, T.StopTimer.Refines, RequestValid, E.RequestValid, E.IsArmed, E.StopTimerAndBridge;
      Reads();
      TimerReads();
      HealthTrue(readOk);
      if latch.Clear? && motor.active && RequestValid(readOk) { return E.Ok; }
      var wasActive, wasArmed := motor.active || !bridge.Off?, timer.IsArmed();
      StoppedFrame(s, offOk);
      StopTimerAndBridge(offOk);
      Reads();
      if !bridge.Off? { return E.HardwareError; }
      if latch.Latched? { return E.Ok; }
      if wasActive { return E.HardwareError; }
      return if wasArmed then E.TimerError else E.Ok;
    }

    /** `MotorExecutor_GetBuildSnapshot`: the exposure reported while output still runs. */
    method Snapshot(ghost until: int) returns (energized: U32)
      requires Valid() && Timely(s, until)
      modifies `cool, `ledger, `s
      ensures Valid() && s == E.RefreshRest(old(s)) && energized == Low(Theorems.SnapshotEnergized(s))
    {
      hide BrakeOf, AfterOf, OwnerOf, CoolOf, MotorOf, T.StopTimer.Refines, E.RefreshRest, Timely, Low, Plus, Minus;
      RestSoon(s, until);
      RestFrame(s);
      RefreshRest();
      SnapshotWord(s, until);
      SegReads(s.seg);
      BrakeReads(s.brake);
      energized := ledger.energized;
      if seg.on { energized := Plus(energized, Plus(Minus(tick, seg.started), 1)); }
      if brake.on { energized := Plus(energized, Plus(Minus(tick, brake.started), 1)); }
    }

    // -------------------------------------------------------------- whole runs

    /** The bridge leaves its commanded state by itself. */
    method Drop(off: bool)
      requires Valid()
      modifies `bridge, `s
      ensures Valid() && s == E.DisableBridge(old(s), off)
    {
      hide Held, T.StopTimer.Refines;
      DisableBridge(off);
    }

    method ShowOverrun()
      requires Valid()
      modifies timer, `s
      ensures Valid() && s == old(s).(timer := old(s).timer.(overrun := old(s).timer.armed))
    {
      hide SegOf, BrakeOf, AfterOf, LedgerOf, OwnerOf, CoolOf, MotorOf, Low, T.Stands;
      timer.Overrun(s.clock);
      s := s.(timer := timer.spec);
    }

    /** One event on the words is one event of the run they stand for, and keeps its invariant. */
    method Step(e: E.Event, ghost until: int)
      requires Valid() && Safety.Inv(s) && Timely(s, until) && InTime(s, Longest(e), until) && Recent(s, e, until)
      modifies this, timer
      ensures Valid() && Safety.Inv(s) && s == E.Step(old(s), e)
    {
      hide Held, Timely, T.StopTimer.Refines, Safety.Inv, Low, Minus;
      hide E.Pass, E.Irq, E.DisableBridge, E.BeginBuild, E.StartSegment, E.EndSegment, E.AcceptPost, E.Refresh,
        E.Disable, E.Service, E.Guard, E.RefreshRest;
      Safety.StepKeeps(s, e);
      match e
      case DoPass(us) => Wait(us);
      case DoIrq(f, offOk) =>
        var enabled := IrqEnabled();
        if enabled { Irq(f, offOk, until); }
      case DoDrop(off) => Drop(off);
      case DoOverrun => ShowOverrun();
      case DoBegin(unlocked) => var _, _ := BeginBuild(unlocked);
      case DoStart(token, r, sequence, age, env) =>
        var received := ReceivedAt(age);
        var _ := StartSegment(token, r, sequence, received, env, E.Now(s) - age, until);
      case DoEnd(token, env) => var _ := EndSegment(token, env, until);
      case DoPost(token, request, sequence, age, env) =>
        var received := ReceivedAt(age);
        var _ := AcceptPost(token, request, sequence, received, env, E.Now(s) - age, until);
      case DoRefresh(token, sequence, age, env) =>
        var received := ReceivedAt(age);
        var _ := Refresh(token, sequence, received, env, E.Now(s) - age, until);
      case DoDisable(offOk) => var _ := Disable(offOk, until);
      case DoService(offOk) => var _ := Service(offOk, until);
      case DoGuard(readOk, offOk) => var _ := Guard(readOk, offOk);
      case DoSnapshot => var _ := Snapshot(until);
    }

    /** A run of events on the words is that run over true time. */
    method Play(es: seq<E.Event>, ghost horizon: int)
      requires Valid() && Safety.Inv(s) && Timely(s, horizon) && horizon <= Horizon(s) && Paced(s, es, horizon)
      modifies this, timer
      ensures Valid() && Safety.Inv(s) && s == E.Run(old(s), es)
    {
      hide Held, Timely, T.StopTimer.Refines, Safety.Inv, E.Step, InTime;
      ghost var first, until := s, horizon;
      var i := 0;
      while i < |es|
        invariant i <= |es| && Valid() && Safety.Inv(s) && s == E.Run(first, es[..i])
        invariant Timely(s, until) && until <= Horizon(s) && Paced(s, es[i..], until)
        decreases |es| - i
      {
        var e := es[i];
        assert es[i..][0] == e && es[i..][1..] == es[i + 1..];
        assert es[..i + 1][..i] == es[..i] && es[..i + 1][i] == e;
        RecentOf(s, e, until);
        StepSoon(s, e, until);
        IdleIsTimely(E.Step(s, e), until);
        Step(e, until);
        if Quiescent(s) { until := Horizon(s); }
        i := i + 1;
      }
      assert es[..i] == es;
    }

    method IrqEnabled() returns (enabled: bool)
      requires Valid()
      ensures enabled == s.timer.irq
    {
      hide T.Stands;
      enabled := timer.irq;
    }

    /** The word of the tick a frame was received at. */
    method ReceivedAt(age: nat) returns (received: U32)
      requires Held()
      ensures received == Low(E.Now(s) - age)
    {
      hide SegOf, BrakeOf, AfterOf, LedgerOf, OwnerOf, CoolOf, MotorOf, Low, Minus;
      MinusOfLow(E.Now(s), age);
      received := Minus(tick, Low(age));
    }
  }

  const OLDEST_MS := 0x1_0000     // of a frame any event reports

  /** Nothing runs and no answer is awaited: no mark in the words is compared from here on. */
  predicate Quiescent(s: E.State) {
    !s.seg.on && !s.brake.on && !s.motor.active && !(s.owner.open && s.after.post)
  }

  /** The tick by which a stretch of activity begun now must be over, some 24 days away. */
  function Horizon(s: E.State): int {
    E.Now(s) + HALF - 1 - OLDEST_MS
  }

  predicate Young(e: E.Event) {
    match e
    case DoStart(_, _, _, age, _) => age <= OLDEST_MS
    case DoPost(_, _, _, age, _) => age <= OLDEST_MS
    case DoRefresh(_, _, age, _) => age <= OLDEST_MS
    case _ => true
  }

  /** The one bound on time: from an idle moment to the next less than the horizon passes. */
  predicate Paced(s: E.State, es: seq<E.Event>, horizon: int)
    decreases |es|
  {
    |es| == 0 ||
    (&& InTime(s, Longest(es[0]), horizon) && Young(es[0])
     && var r := E.Step(s, es[0]);
        Paced(r, es[1..], if Quiescent(r) then Horizon(r) else horizon))
  }

  lemma RecentOf(s: E.State, e: E.Event, until: int)
    requires Young(e) && until <= Horizon(s)
    ensures Recent(s, e, until)
  {
  }

  lemma IdleIsTimely(s: E.State, until: int)
    requires Timely(s, until)
    ensures Quiescent(s) ==> Timely(s, Horizon(s))
  {
  }

  /** From boot the words live through any paced run as true time does; so whatever holds of every run
      holds of them, the cutoff first of all. */
  method Live(at: U32, micros: nat, es: seq<E.Event>, ghost clock: nat) returns (x: Executor)
    requires at == Low(E.Ms(clock)) && micros == clock % 1000
    requires Paced(E.Boot(clock), es, Horizon(E.Boot(clock)))
    ensures fresh(x) && x.Valid() && x.s == E.Run(E.Boot(clock), es)
    ensures Missed.LastAnswer(clock, es) && !x.bridge.Off? ==>
      x.timer.armed && x.timer.healthy && x.timer.irq && x.owner.open && !x.cool.offVerified && (x.seg.on || x.brake.on)
  {
    hide Paced, Safety.Inv, Missed.LastAnswer;
    x := new Executor(at, micros, clock);
    Safety.BootIsSafe(clock);
    BootIsTimely(clock);
    x.Play(es, Horizon(x.s));
    Missed.UnknownExactly(clock, es);
    Theorems.LitIsCutOff(clock, es);
    Theorems.OutputHasOneOwner(clock, es);
    x.Reads();
  }

  lemma BootIsTimely(clock: nat)
    ensures Timely(E.Boot(clock), Horizon(E.Boot(clock)))
  {
  }

  /** A reachable state never drives and brakes at once, and only a pulse runs under a one-shot cutoff. */
  lemma LeaseShape(s: E.State)
    requires Safety.Inv(s)
    ensures !(s.seg.on && s.brake.on)
    ensures s.timer.armed && E.Leased(s) ==> !s.timer.oneShot
  {
    hide Safety.OwnerAgrees, Safety.Reserved, Safety.Accounted, Safety.Running, Safety.Holding, Safety.Cooling;
  }

  lemma UnbrokenLease(s: E.State, readOk: bool)
    requires !E.LeaseBroken(s, readOk) && E.Leased(s) && !(s.seg.on && s.brake.on)
    ensures s.seg.on ==> E.Now(s) < s.seg.deadline
  {
  }

  lemma OffFrame(s: E.State, reason: E.Reason)
    ensures E.RecordOff(s, E.Now(s), reason).clock == s.clock
  {
  }

  lemma UnlatchSoon(s: E.State, until: int)
    requires Timely(s, until)
    ensures Timely(s.(latch := E.Clear), until)
  {
  }

  lemma StoppedFrame(s: E.State, offOk: bool)
    ensures var d := E.StopTimerAndBridge(s, offOk); d.latch == s.latch && d.motor == s.motor
  {
  }

  lemma RefusedLease(t: E.Timer, clock: int, remaining: int)
    ensures var a := E.StartLease(t, clock, remaining); !a.ok ==> a.t == t
  {
  }

  lemma UnverifySoon(s: E.State, until: int)
    requires Timely(s, until)
    ensures Timely(s.(cool := s.cool.(offVerified := false)), until)
  {
  }

  lemma RestRequiredSoon(s: E.State, until: int)
    ensures Timely(s, until) <==> Timely(s.(cool := s.cool.(rest := true)), until)
  {
  }

  lemma ApproachIsFirst(s: E.State, token: U32, r: Request, sequence: U64)
    requires !E.StartRefused(s, token, r, sequence)
    ensures r.phase == PHASE_APPROACH ==> !s.seg.on
  {
  }

  lemma AdmittedWords(s: E.State, r: Request, at: int)
    requires E.StartAdmitted(s, r, at)
    ensures Envelope(r) && (r.phase == PHASE_APPROACH ==> !s.brake.on)
  {
  }

  lemma RestFrame(s: E.State)
    ensures E.RefreshRest(s).clock == s.clock
  {
  }

  lemma TimelyBrake(s: E.State)
    requires Timely(s, E.Now(s))
    ensures s.brake.on ==> s.brake.started <= E.Now(s) && Near(E.Now(s), s.brake.started, E.Now(s))
  {
  }

  lemma PassOn(s: E.State, us: nat)
    ensures var p := E.Pass(s, us); p.seg == s.seg && p.clock == s.clock + us
  {
  }

  lemma TickWord(clock: int, us: nat)
    ensures Plus(Low(E.Ms(clock)), Low((clock % 1000 + us) / 1000)) == Low(E.Ms(clock + us))
    ensures (clock % 1000 + us) % 1000 == (clock + us) % 1000
  {
    PlusOfLow(E.Ms(clock), (clock % 1000 + us) / 1000);
  }
}
