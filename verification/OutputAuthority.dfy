/** Only admission makes the bridge drive, and only with what was asked for. */
module OutputAuthority {
  import opened MachineWord
  import opened Admission
  import opened ExecutorSpec
  import opened ExecutorSafety
  import opened ExecutorTheorems

  /** What every path but admission does to the bridge: it never starts driving, and is lost only
      by a disable that does not read back. No time passes unwatched on the way. */
  predicate Tame(s: State, r: State, offOk: bool) {
    && Watched(s, r)
    && (r.bridge.Drive? ==> r.bridge == s.bridge)
    && (offOk && !s.bridge.Lost? ==> !r.bridge.Lost?)
  }

  predicate Watched(s: State, r: State) {
    r.ledger.blind == s.ledger.blind || r.ledger.blind == 0
  }

  lemma OffIsTame(s: State, m: State, reason: Reason, e: TimerEvent, offOk: bool)
    requires Tame(s, m, offOk)
    ensures Tame(s, FailOff(m, reason, offOk), offOk) && Tame(s, ShutDown(m, e, offOk), offOk)
    ensures !FailOff(m, reason, offOk).bridge.Drive? && !ShutDown(m, e, offOk).bridge.Drive?
  {
  }

  lemma FinishIsTame(s: State, reason: Reason, f: Finish, offOk: bool)
    ensures Tame(s, FinishBegin(s, f, offOk).s, offOk) && Tame(s, FinishPulse(s, reason, f, offOk).s, offOk)
    ensures FinishCommit(s, reason, f).s.bridge == s.bridge &&
      (!s.bridge.Lost? ==> Watched(s, FinishCommit(s, reason, f).s))
    ensures FinishBegin(s, f, offOk).ok ==> FinishBegin(s, f, offOk).s.bridge.Brake?
  {
  }

  lemma ExpiredIsTame(s: State, e: TimerEvent, f: Finish, offOk: bool)
    ensures Tame(s, Expired(s, e, f, offOk), offOk)
  {
    hide FinishPulse, ShutDown;
    FinishIsTame(s, EndedNormal, f, offOk);
    OffIsTame(s, FinishPulse(s, EndedNormal, f, offOk).s, EndedStop, Error, offOk);
    OffIsTame(s, s, EndedStop, Backstop, offOk);
    OffIsTame(s, s, EndedStop, e, offOk);
  }

  lemma IrqIsTame(s: State, f: Finish, offOk: bool)
    ensures Tame(s, Irq(s, f, offOk), offOk)
  {
    hide Expired;
    var e := Classify(s.timer, s.clock);
    var t := s.timer.(healthy := s.timer.healthy && !e.Error?,
                      acked := s.timer.acked || (e.Normal? && s.timer.oneShot));
    ExpiredIsTame(s.(timer := t), e, f, offOk);
  }

  lemma CommittedIsTame(s: State, f: Finish, offOk: bool)
    ensures var o := Committed(s, f, offOk);
      Tame(s, o.s, offOk) && (o.ok ==> o.s == s.(timer := o.s.timer))
  {
    hide Irq;
    IrqIsTame(s, f, offOk);
  }

  lemma RenewIsTame(s: State, remaining: int, f: Finish, offOk: bool)
    ensures var o := RenewLease(s, remaining, f, offOk);
      Tame(s, o.s, offOk) && (o.ok ==> o.s == s.(timer := o.s.timer))
  {
    hide Irq, Expired, Committed;
    IrqIsTame(s, f, offOk);
    ExpiredIsTame(s, Normal, f, offOk);
    CommittedIsTame(s.(timer := MoveLease(s.timer, s.clock, remaining)), f, offOk);
  }

  lemma ReadyIsTame(s: State, env: Env)
    ensures Tame(s, StartReady(s, env).s, env.offOk)
    ensures StartReady(s, env).ok ==> StartReady(s, env).s == s.(timer := StartReady(s, env).s.timer) && !s.bridge.Lost?
  {
    hide Committed;
    CommittedIsTame(s, env.nested, env.offOk);
  }

  /** Admission drives with the planned duty or not at all. */
  lemma EnergiseIsPlanned(s: State, env: Env)
    ensures var r := Energise(s, env);
      && (r.s.bridge.Drive? ==> r.s.bridge == Drive(s.motor.duty) && r.result.Ok?)
      && (env.offOk && !s.bridge.Lost? ==> !r.s.bridge.Lost?)
      && (!s.bridge.Lost? ==> Watched(s, r.s))
  {
    hide Committed, FailOff;
    CommittedIsTame(Pass(s, env.wait1), env.nested, env.offOk);
    var o := Committed(Pass(s, env.wait1), env.nested, env.offOk);
    OffIsTame(o.s, o.s, EndedHardware, Error, env.offOk);
    if o.ok {
      var d := o.s.(cool := o.s.cool.(offVerified := false));
      OffIsTame(DisableBridge(d, env.offOk), DisableBridge(d, env.offOk), EndedHardware, Error, env.offOk);
      var b := Pass(SetBridge(d, Drive(d.motor.duty)), env.wait2);
      CommittedIsTame(b, env.nested, env.offOk);
      OffIsTame(Committed(b, env.nested, env.offOk).s, Committed(b, env.nested, env.offOk).s, EndedHardware, Error,
        env.offOk);
    }
  }

  lemma AdmitIsPlanned(s: State, r: Request, sequence: U64, received: int, env: Env)
    ensures var a := Admit(s, r, sequence, received, env);
      && (a.s.bridge.Drive? ==> a.s.bridge == Drive(Duty(r.command)) && a.result.Ok?)
      && (env.offOk && !s.bridge.Lost? ==> !a.s.bridge.Lost?)
      && (!s.bridge.Lost? ==> Watched(s, a.s))
  {
    hide Energise, FailOff, LeavePrevious, Duty, ArmSegment;
    LeavingKeepsBridge(s);
    var p := LeavePrevious(s);
    OffIsTame(p.(cool := p.cool.(rest := true)), p.(cool := p.cool.(rest := true)), EndedHardware, Error, env.offOk);
    var hard := if r.phase == PHASE_APPROACH then APPROACH_TOTAL_MS - p.ledger.approachReserved else r.hardMs;
    var v := Reserve(p, r, hard, sequence, received);
    ArmKeeps(v, r, !s.seg.on && !s.brake.on, env);
    var o := ArmSegment(v, r, !s.seg.on && !s.brake.on, env);
    OffIsTame(o.s, o.s, EndedHardware, Error, env.offOk);
    EnergiseIsPlanned(Begun(o.s, r, sequence, received), env);
    if !s.bridge.Lost? { ArmIsWatched(v, r, !s.seg.on && !s.brake.on, env); }
  }

  lemma ArmIsWatched(s: State, r: Request, fromOff: bool, env: Env)
    requires !s.bridge.Lost?
    ensures Watched(s, ArmSegment(s, r, fromOff, env).s)
  {
    hide Irq;
    var a := StartLease(s.timer, s.clock, Least(s.seg.rxDeadline - Now(s), s.seg.hard));
    IrqIsTame(s.(timer := a.t), env.nested, env.offOk);
  }

  lemma LeavingKeepsBridge(s: State)
    ensures LeavePrevious(s).bridge == s.bridge && Watched(s, LeavePrevious(s))
  {
  }

  lemma EndIsTame(s: State, token: U32, env: Env)
    ensures Tame(s, EndSegment(s, token, env).s, env.offOk)
  {
    hide Committed, FinishPulse, FinishBegin, FinishCommit, RenewLease, ShutDown, DisableBridge, FailOff;
    CommittedIsTame(s, env.nested, env.offOk);
    var o := Committed(s, env.nested, env.offOk).s;
    OffIsTame(s, o, EndedDeadline, Error, env.offOk);
    FinishIsTame(o, EndedReduced, env.finish, env.offOk);
    var b := FinishBegin(o, env.finish, env.offOk).s;
    RenewIsTame(b, b.seg.rxDeadline - Now(b), env.nested, env.offOk);
    FinishIsTame(RenewLease(b, b.seg.rxDeadline - Now(b), env.nested, env.offOk).s, EndedReduced, env.finish,
      env.offOk);
    OffIsTame(s, FinishPulse(o, EndedReduced, env.finish, env.offOk).s, EndedDeadline, Error, env.offOk);
    OffIsTame(s, FinishApproach(o, EndedReduced, env).s, EndedDeadline, Error, env.offOk);
    ReleasedIsTame(s, env);
  }

  lemma ReleasedIsTame(s: State, env: Env)
    ensures Tame(s, EndReleased(s, env).s, env.offOk)
  {
    hide Committed, FailOff, ShutDown;
    var d := DisableBridge(s, env.offOk);
    CommittedIsTame(d, env.nested, env.offOk);
    OffIsTame(s, Committed(d, env.nested, env.offOk).s, EndedDeadline, Error, env.offOk);
  }

  lemma RefreshIsTame(s: State, token: U32, sequence: U64, received: int, env: Env)
    ensures Tame(s, Refresh(s, token, sequence, received, env).s, env.offOk)
  {
    hide RenewLease, FailOff, ShutDown;
    var deadline := if s.seg.on then Least(received + LEASE_MS, s.seg.deadline) else received + LEASE_MS;
    RenewIsTame(s, deadline - Now(s), env.nested, env.offOk);
    OffIsTame(s, s, EndedDeadline, Error, env.offOk);
    OffIsTame(s, RenewLease(s, deadline - Now(s), env.nested, env.offOk).s, EndedDeadline, Error, env.offOk);
  }

  lemma StartIsPlanned(s: State, token: U32, r: Request, sequence: U64, age: nat, env: Env)
    ensures var a := StartSegment(s, token, r, sequence, Now(s) - age, env);
      && (a.s.bridge.Drive? && a.s.bridge != s.bridge ==>
          a.s.bridge == Drive(Duty(r.command)) && a.result.Ok? && Envelope(r) && age <= AGE_MS && s.owner.open &&
            token == s.owner.token)
      && (env.offOk && !s.bridge.Lost? ==> !a.s.bridge.Lost?)
      && Watched(s, a.s)
  {
    hide StartReady, Admit, FailOff, ShutDown, Healthy, Envelope, Duty;
    var m := RefreshRest(s);
    OffIsTame(m, m, EndedHardware, Error, env.offOk);
    ReadyIsTame(m, env);
    var o := StartReady(m, env).s;
    OffIsTame(o, o, EndedHardware, Error, env.offOk);
    AdmitIsPlanned(o, r, sequence, Now(s) - age, env);
  }

  lemma OthersAreTame(s: State, e: Event)
    requires !e.DoStart? && !e.DoPass?
    ensures Tame(s, Step(s, e), ReadsBack(e))
  {
    hide Irq, EndSegment, Committed, Refresh, Service, Healthy, RequestValid;
    match e
    case DoIrq(f, offOk) => IrqIsTame(s, f, offOk);
    case DoEnd(token, env) => EndIsTame(s, token, env);
    case DoPost(_, _, _, _, env) => CommittedIsTame(s, env.nested, env.offOk);
    case DoRefresh(token, sequence, age, env) => RefreshIsTame(s, token, sequence, Now(s) - age, env);
    case DoService(offOk) => ServiceIsTame(s, offOk);
    case _ =>
  }

  lemma ServiceIsTame(s: State, offOk: bool)
    ensures Tame(s, Service(s, offOk).s, offOk)
  {
  }

  /** The bridge starts to drive only for the open owner's own request, inside the executor's
      envelope, on a frame at most AGE_MS old, with the least duty that gives its command. */
  lemma DriveIsAdmitted(s: State, e: Event)
    ensures var r := Step(s, e);
      r.bridge.Drive? && r.bridge != s.bridge ==>
        && e.DoStart? && s.owner.open && e.token == s.owner.token && Envelope(e.r) && e.age <= AGE_MS
        && 4799 * e.r.command <= 24000 * r.bridge.duty < 4799 * e.r.command + 24000 && 0 < r.bridge.duty <= 4799
  {
    hide StartSegment, Envelope, Duty;
    if e.DoStart? {
      StartIsPlanned(s, e.token, e.r, e.sequence, e.age, e.env);
      if Envelope(e.r) {
        AdmittedCommand(e.r);
        DutyIsLeast(e.r.command, e.r.command);
      }
    } else if !e.DoPass? {
      OthersAreTame(s, e);
    }
  }

  lemma AdmittedCommand(r: Request)
    requires Envelope(r)
    ensures 0 < r.command <= COMMAND_CEILING
  {
  }

  lemma KnownStep(s: State, e: Event)
    requires ReadsBack(e) && !s.bridge.Lost?
    ensures !Step(s, e).bridge.Lost?
  {
    hide StartSegment, Envelope, Duty;
    if e.DoStart? {
      StartIsPlanned(s, e.token, e.r, e.sequence, e.age, e.env);
    } else if !e.DoPass? {
      OthersAreTame(s, e);
    }
  }

  /** While every disable reads back, the bridge state is always known: not lit means OFF. */
  lemma {:induction false} NeverLost(clock: nat, es: seq<Event>)
    requires forall i :: 0 <= i < |es| ==> ReadsBack(es[i])
    ensures !Run(Boot(clock), es).bridge.Lost?
  {
    hide Step;
    if |es| > 0 {
      var s, e := Run(Boot(clock), es[..|es| - 1]), es[|es| - 1];
      NeverLost(clock, es[..|es| - 1]);
      KnownStep(s, e);
    }
  }

  /** A request inside the envelope, on a frame fresh enough to authorise it and for the owner's own
      target, passes every test admission makes of a request, but for an approach out of BRAKE. */
  lemma EnvelopeSuffices(s: State, r: Request, received: int)
    requires Envelope(r) && Now(s) - received <= AGE_MS && (s.owner.haveSequence ==> r.target == s.seg.target)
    ensures StartAdmitted(s, r, received) <==> (r.phase == PHASE_APPROACH ==> !s.brake.on)
  {
  }

  // ---------------------------------------------------------------- an end without an answer

  predicate Owes(s: State) {
    s.owner.open && s.after.post
  }

  /** Nothing but a post releases an owner that owes an answer, short of its close. */
  lemma OwesOn(s: State, e: Event)
    requires Inv(s) && Owes(s) && !e.DoPost?
    ensures var r := Step(s, e); r.owner.open ==> Owes(r) && r.owner.token == s.owner.token
  {
    hide Core, Irq, RenewLease, FailOff, RecordOff, RequestValid;
    CoreOf(s);
    PostNeedsBrake(s);
    OccupiedPresses(s);
    match e
    case DoIrq(f, offOk) => if s.timer.irq { InterruptKeeps(s, f, offOk); }
    case DoRefresh(_, sequence, age, env) =>
      var d := Now(s) - age + LEASE_MS;
      RenewKeeps(s, d, env.nested, env.offOk);
      FailSafe(s, EndedDeadline, env.offOk);
      FailSafe(RenewLease(s, d - Now(s), env.nested, env.offOk).s, EndedDeadline, env.offOk);
    case DoDisable(offOk) => DisableCallKeeps(s, offOk); OffCloses(DisableBridge(s, offOk), EndedStop);
    case DoService(offOk) => OffCloses(DisableBridge(StopTimerAndBridge(s, offOk), offOk), EndedDeadline);
    case _ =>
  }

  lemma OffCloses(s: State, reason: Reason)
    requires !Soft(reason)
    ensures !RecordOff(s, Now(s), reason).owner.open
  {
  }

  /** An approach ended by BRAKE leaves its owner owing an answer. The machine asks for none after an
      approach, and without one no further segment of that owner is ever admitted. */
  lemma {:induction false} EndedApproachIsStuck(s: State, token: U32, env: Env, es: seq<Event>, r: Request,
    sequence: U64, received: int, next: Env)
    requires Inv(s) && s.seg.on && s.seg.kind.Approach? && EndSegment(s, token, env).result.Ok?
    requires forall i :: 0 <= i < |es| ==> !es[i].DoPost?
    requires forall n :: 0 <= n <= |es| ==> Run(EndSegment(s, token, env).s, es[..n]).owner.open
    ensures var m := Run(EndSegment(s, token, env).s, es);
      Inv(m) && Owes(m) && m.owner.token == token &&
        StartSegment(m, token, r, sequence, received, next) == Returned(m, Invalid)
  {
    hide Inv, Step, EndSegment;
    if |es| == 0 {
      EndOwes(s, token, env);
      assert es[..0] == es;
    } else {
      var front, last := es[..|es| - 1], es[|es| - 1];
      forall n | 0 <= n <= |front| ensures Run(EndSegment(s, token, env).s, front[..n]).owner.open {
        assert front[..n] == es[..n];
      }
      EndedApproachIsStuck(s, token, env, front, r, sequence, received, next);
      var m := Run(EndSegment(s, token, env).s, front);
      assert es[..|es|] == es;
      OwesOn(m, last);
      StepKeeps(m, last);
    }
  }

  lemma EndOwes(s: State, token: U32, env: Env)
    requires Inv(s) && s.seg.on && EndSegment(s, token, env).result.Ok?
    ensures var m := EndSegment(s, token, env).s; Inv(m) && Owes(m) && m.owner.token == token
  {
    hide Core, Committed, FinishPulse, FinishApproach, FailOff;
    EndKeeps(s, token, env);
    OccupiedPresses(s);
    var o := Committed(s, env.nested, env.offOk);
    CommittedKeeps(s, env.nested, env.offOk);
    CommitOwes(s, env.nested, env.offOk);
    FinishOwes(o.s, env);
    if s.seg.kind.Approach? {
      FinishApproachKeeps(o.s, EndedReduced, env);
    } else {
      FinishPulseKeeps(o.s, EndedReduced, env.finish, env.offOk);
    }
  }

  lemma CommitOwes(s: State, f: Finish, offOk: bool)
    ensures Committed(s, f, offOk).ok ==> Committed(s, f, offOk).s.owner == s.owner
  {
    hide Irq;
  }

  lemma FinishOwes(s: State, env: Env)
    ensures var o := FinishPulse(s, EndedReduced, env.finish, env.offOk);
      o.ok ==> o.s.after.post && (o.s.owner.open ==> o.s.owner.token == s.owner.token)
    ensures var o := FinishApproach(s, EndedReduced, env);
      o.ok ==> o.s.after.post && (o.s.owner.open ==> o.s.owner.token == s.owner.token)
  {
    hide RenewLease, Handoff;
    var b := FinishBegin(s, env.finish, env.offOk);
    RenewIsTame(b.s, b.s.seg.rxDeadline - Now(b.s), env.nested, env.offOk);
  }
}
