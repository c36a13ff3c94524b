/** The executor's variables as 32-bit words, and what each step of `ExecutorSpec` does to them.
    Marks compared by the sign of a difference must lie within half the word circle of now. */
module ExecutorWords {
  import opened MachineWord
  import opened Admission
  import E = ExecutorSpec
  import Safety = ExecutorSafety

  datatype SegWords = SegWords(
    on: bool, kind: E.Kind, hard: U32, settle: nat, target: nat, request: U32,
    started: U32, deadline: U32, rxDeadline: U32)
  datatype BrakeWords = BrakeWords(on: bool, started: U32, deadline: U32)
  datatype AfterWords = AfterWords(post: bool, ended: U32, reason: E.Reason)
  datatype LedgerWords = LedgerWords(epoch: U32, reserved: U32, approachReserved: U32, approachCommand: U32,
    energized: U32)
  datatype OwnerWords = OwnerWords(open: bool, token: U32, haveSequence: bool, used: U64, feedback: U64)
  datatype CoolWords = CoolWords(rest: bool, offVerified: bool, offAt: U32)
  datatype MotorWords = MotorWords(active: bool, press: bool, duty: nat, action: E.Action, backstop: U32)

  function SegOf(g: E.Seg): SegWords {
    SegWords(g.on, g.kind, Low(g.hard), g.settle, g.target, g.request, Low(g.started), Low(g.deadline),
      Low(g.rxDeadline))
  }

  function BrakeOf(b: E.BrakeRun): BrakeWords {
    BrakeWords(b.on, Low(b.started), Low(b.deadline))
  }

  function AfterOf(a: E.Aftermath): AfterWords {
    AfterWords(a.post, Low(a.ended), a.reason)
  }

  function LedgerOf(l: E.Ledger): LedgerWords {
    LedgerWords(l.epoch, Low(l.reserved), Low(l.approachReserved), Low(l.approachCommand), Low(l.energized))
  }

  function OwnerOf(o: E.Owner): OwnerWords {
    OwnerWords(o.open, o.token, o.haveSequence, o.used, o.feedback)
  }

  function CoolOf(c: E.Cool): CoolWords {
    CoolWords(c.rest, c.offVerified, Low(c.offAt))
  }

  function MotorOf(m: E.Motor): MotorWords {
    MotorWords(m.active, m.press, m.duty, m.action, Low(m.backstop))
  }

  // ---------------------------------------------------------------- marks within reach

  /** A mark that stays within half the circle until tick `until`. */
  predicate Near(now: int, mark: int, until: int) {
    mark - now <= HALF && until - mark < HALF
  }

  /** The marks a call may compare stay near until `until`, when the call is over. */
  predicate Timely(s: E.State, until: int) {
    var now := E.Now(s);
    && now <= until
    && (s.seg.on ==>
        && s.seg.started <= now && 0 <= s.seg.hard < HALF
        && Near(now, s.seg.started, until) && Near(now, s.seg.deadline, until) && Near(now, s.seg.rxDeadline, until))
    && (s.brake.on ==>
        && s.brake.started <= now
        && Near(now, s.brake.started, until) && Near(now, s.brake.deadline, until) &&
          Near(now, s.seg.rxDeadline, until))
    && (s.brake.on || (s.after.post && s.owner.open) ==> s.after.ended <= now && Near(now, s.after.ended, until))
    && (s.motor.active ==> Near(now, s.motor.backstop, until))
    && Account(s)
  }

  /** The approach account, far from wrapping its words. */
  predicate Account(s: E.State) {
    && 0 <= s.ledger.approachCommand <= APPROACH_COMMAND_MS
    && if s.seg.on && s.seg.kind.Approach? then s.ledger.approachReserved == APPROACH_TOTAL_MS
       else 0 <= s.ledger.approachReserved <= HALF + APPROACH_TOTAL_MS
  }

  /** After `us` more microseconds the call still ends by `until`. */
  predicate InTime(s: E.State, us: int, until: int) {
    s.clock + us < 1000 * (until + 1)
  }

  function Delay(f: E.Finish): nat {
    f.wait1 + f.gap + f.wait2
  }

  /** Where a step that takes at most `us` microseconds may lead. */
  predicate Soon(s: E.State, r: E.State, us: int, until: int) {
    s.clock <= r.clock <= s.clock + us && Timely(r, until)
  }

  lemma TimelyNow(s: E.State, until: int)
    requires Timely(s, until)
    ensures Timely(s, E.Now(s))
  {
  }

  lemma PassSoon(s: E.State, us: nat, until: int)
    requires Timely(s, until) && InTime(s, us, until)
    ensures Soon(s, E.Pass(s, us), us, until)
  {
  }

  lemma BridgeSoon(s: E.State, b: E.Bridge, until: int)
    requires Timely(s, until)
    ensures Soon(s, E.SetBridge(s, b), 0, until)
  {
  }

  lemma PulseEndSoon(s: E.State, reason: E.Reason, until: int)
    requires Timely(s, until)
    ensures Soon(s, E.RecordPulseEnd(s, E.Now(s), reason), 0, until)
  {
  }

  lemma OffSoon(s: E.State, reason: E.Reason, until: int)
    requires Timely(s, until)
    ensures Soon(s, E.RecordOff(s, E.Now(s), reason), 0, until)
  {
    PulseEndSoon(s, reason, until);
  }

  lemma FinishBeginSoon(s: E.State, f: E.Finish, offOk: bool, until: int)
    requires Timely(s, until) && InTime(s, f.wait1, until)
    ensures Soon(s, E.FinishBegin(s, f, offOk).s, f.wait1, until)
    ensures var o := E.FinishBegin(s, f, offOk); o.ok ==>
      && o.s == E.Pass(E.SetBridge(s, E.Brake), f.wait1) && o.s.seg.on
      && E.Now(o.s) < o.s.seg.deadline && E.Now(o.s) < o.s.seg.rxDeadline
  {
    hide Timely;
    BridgeSoon(s, E.Brake, until);
    BridgeSoon(s, if offOk then E.Off else E.Lost, until);
    PassSoon(E.SetBridge(s, E.Brake), f.wait1, until);
  }

  lemma FinishCommitSoon(s: E.State, reason: E.Reason, f: E.Finish, until: int)
    requires Timely(s, until) && InTime(s, f.wait2, until) && s.seg.on
    ensures Soon(s, E.FinishCommit(s, reason, f).s, f.wait2, until)
  {
    PassSoon(s, f.wait2, until);
    PulseEndSoon(E.Pass(s, f.wait2), reason, until);
  }

  lemma TimerSoon(s: E.State, t: E.Timer, until: int)
    requires Timely(s, until)
    ensures Timely(s.(timer := t), until)
  {
  }

  lemma FinishPulseSoon(s: E.State, reason: E.Reason, f: E.Finish, offOk: bool, until: int)
    requires Timely(s, until) && InTime(s, Delay(f), until)
    ensures Soon(s, E.FinishPulse(s, reason, f, offOk).s, Delay(f), until)
  {
    hide Timely, E.FinishBegin, E.FinishCommit, E.Handoff;
    FinishBeginSoon(s, f, offOk, until);
    var o := E.FinishBegin(s, f, offOk);
    if o.ok {
      var a := E.Handoff(o.s.timer, o.s.clock, o.s.seg.rxDeadline - E.Now(o.s), f.gap);
      TimerSoon(o.s, a.t, until);
      PassSoon(o.s.(timer := a.t), f.gap, until);
      FinishCommitSoon(E.Pass(o.s.(timer := a.t), f.gap), reason, f, until);
    }
  }

  lemma ShutDownSoon(s: E.State, e: E.TimerEvent, offOk: bool, until: int)
    requires Timely(s, until)
    ensures Soon(s, E.ShutDown(s, e, offOk), 0, until)
  {
    hide E.RecordOff;
    var d := E.DisableBridge(s, offOk);
    BridgeSoon(s, d.bridge, until);
    OffSoon(d, if e.Normal? then E.EndedNormal else E.EndedDeadline, until);
  }

  lemma ExpiredSoon(s: E.State, e: E.TimerEvent, f: E.Finish, offOk: bool, until: int)
    requires Timely(s, until) && InTime(s, Delay(f), until)
    ensures Soon(s, E.Expired(s, e, f, offOk), Delay(f), until)
  {
    hide Timely, E.FinishPulse, E.ShutDown;
    FinishPulseSoon(s, E.EndedNormal, f, offOk, until);
    ShutDownSoon(E.FinishPulse(s, E.EndedNormal, f, offOk).s, E.Error, offOk, until);
    ShutDownSoon(s, E.Backstop, offOk, until);
    ShutDownSoon(s, e, offOk, until);
  }

  lemma IrqSoon(s: E.State, f: E.Finish, offOk: bool, until: int)
    requires Timely(s, until) && InTime(s, Delay(f), until)
    ensures Soon(s, E.Irq(s, f, offOk), Delay(f), until)
  {
    hide Timely, E.Expired, E.Classify;
    var e := E.Classify(s.timer, s.clock);
    var t := s.timer.(healthy := s.timer.healthy && !e.Error?,
                      acked := s.timer.acked || (e.Normal? && s.timer.oneShot));
    TimerSoon(s, t, until);
    ExpiredSoon(s.(timer := t), e, f, offOk, until);
  }

  lemma CommittedSoon(s: E.State, f: E.Finish, offOk: bool, until: int)
    requires Timely(s, until) && InTime(s, Delay(f), until)
    ensures var o := E.Committed(s, f, offOk);
      && Soon(s, o.s, Delay(f), until)
      && (o.ok ==> o.s == s.(timer := s.timer.(irq := true)))
  {
    hide Timely, E.Irq, E.Flagged;
    IrqSoon(s, f, offOk, until);
    TimerSoon(s, s.timer.(irq := true), until);
  }

  lemma RenewSoon(s: E.State, remaining: int, f: E.Finish, offOk: bool, until: int)
    requires Timely(s, until) && InTime(s, Delay(f), until)
    ensures var o := E.RenewLease(s, remaining, f, offOk);
      && Soon(s, o.s, Delay(f), until)
      && (o.ok ==> o.s == s.(timer := o.s.timer))
  {
    hide Timely, E.Irq, E.Flagged, E.IsArmed, E.Committed, E.Expired, E.MoveLease;
    IrqSoon(s, f, offOk, until);
    ExpiredSoon(s, E.Normal, f, offOk, until);
    var x := E.Expired(s, E.Normal, f, offOk);
    TimerSoon(x, E.Cancel(x.timer), until);
    TimerSoon(s, E.MoveLease(s.timer, s.clock, remaining), until);
    CommittedSoon(s.(timer := E.MoveLease(s.timer, s.clock, remaining)), f, offOk, until);
  }

  lemma RestSoon(s: E.State, until: int)
    requires Timely(s, until)
    ensures var r := E.RefreshRest(s);
      && Soon(s, r, 0, until)
      && r.seg == s.seg && r.brake == s.brake && r.timer == s.timer && r.bridge == s.bridge && r.motor == s.motor
  {
  }

  lemma ReadySoon(s: E.State, env: E.Env, until: int)
    requires Timely(s, until) && InTime(s, Delay(env.nested), until)
    ensures var o := E.StartReady(s, env);
      && Soon(s, o.s, Delay(env.nested), until)
      && (o.ok ==> E.Now(o.s) == E.Now(s) && o.s == s.(timer := o.s.timer))
      && (!s.seg.on && !s.brake.on ==> o.s == s)
  {
    hide Timely, E.Committed, E.DeadlinesPassed;
    CommittedSoon(s, env.nested, env.offOk, until);
  }

  lemma LeaveSoon(s: E.State, until: int)
    requires Timely(s, until)
    ensures var p := E.LeavePrevious(s);
      && Soon(s, p, 0, until) && !p.seg.on && !p.brake.on && p.timer == s.timer
      && (!s.seg.on && !s.brake.on ==> p == s)
  {
    PulseEndSoon(s, E.EndedReduced, until);
  }

  /** The approach account as admission keeps it: its words have not wrapped. */
  predicate Unwrapped(l: E.Ledger) {
    0 <= l.approachReserved < WORD && 0 <= l.approachCommand < HALF
  }

  /** A frame received at tick `at`, whose lease stays near until the call is over. */
  predicate Received(s: E.State, at: int, until: int) {
    at <= E.Now(s) && until - at < HALF
  }

  lemma ReserveSoon(s: E.State, r: Request, hard: int, sequence: U64, at: int, until: int)
    requires Timely(s, until) && Received(s, at, until) && !s.seg.on && !s.brake.on && 0 <= hard < HALF
    requires r.phase == PHASE_APPROACH ==>
      !E.ApproachExhausted(s.ledger) && hard == APPROACH_TOTAL_MS - s.ledger.approachReserved
    ensures Timely(E.Reserve(s, r, hard, sequence, at), until)
    ensures Timely(E.Begun(E.Reserve(s, r, hard, sequence, at), r, sequence, at), until)
  {
  }

  /** One call may meet two delays of its own, the rest of a tick, four commits and two hand-overs. */
  function Slowest(env: E.Env): nat {
    env.wait1 + env.wait2 + 1000 + 2 * Delay(env.finish) + 4 * Delay(env.nested)
  }

  lemma WithinSoon(s: E.State, gap: nat, until: int)
    requires Timely(s, until)
    ensures Soon(s, E.Pass(s, E.Within(s.clock, gap)), 999, until) &&
      E.Now(E.Pass(s, E.Within(s.clock, gap))) == E.Now(s)
  {
    Safety.SameTick(s.clock, gap);
  }

  lemma ArmSoon(s: E.State, r: Request, fromOff: bool, env: E.Env, until: int)
    requires Timely(s, until) && InTime(s, Delay(env.nested), until)
    ensures var o := E.ArmSegment(s, r, fromOff, env);
      && Soon(s, o.s, Delay(env.nested) + 999, until) && (o.ok ==> E.Now(o.s) == E.Now(s) && o.s.clock <= s.clock + 999)
      && (o.ok ==> o.s == E.Pass(s.(timer := o.s.timer), o.s.clock - s.clock))
  {
    hide Timely, E.Irq, E.Flagged, E.StartLease, E.Arm, E.PulseCutoffs, E.Within, E.Pass;
    if r.phase == PHASE_APPROACH {
      var a := E.StartLease(s.timer, s.clock, E.Least(s.seg.rxDeadline - E.Now(s), s.seg.hard));
      TimerSoon(s, a.t, until);
      TimerSoon(s, a.t.(irq := true), until);
      IrqSoon(s.(timer := a.t), env.nested, env.offOk, until);
      PassNothing(s.(timer := a.t.(irq := true)));
    } else {
      var gap := if fromOff then 0 else E.Within(s.clock, env.gap);
      var a := if fromOff then E.Arm(s.timer, s.clock, r.normalMs, s.seg.hard, env.startOk)
               else E.PulseCutoffs(s.timer, s.clock, r.normalMs, s.seg.hard, gap);
      TimerSoon(s, a.t, until);
      WithinSoon(s.(timer := a.t), env.gap, until);
      PassNothing(s.(timer := a.t));
      PassFor(s.(timer := a.t), gap);
    }
  }

  lemma PassNothing(s: E.State)
    ensures E.Pass(s, 0) == s
  {
  }

  lemma PassFor(s: E.State, us: nat)
    ensures E.Pass(s, us).clock == s.clock + us && E.Pass(s, us).timer == s.timer
  {
  }

  // ---------------------------------------------------------------- where a call may lead

  lemma FailOffSoon(s: E.State, reason: E.Reason, offOk: bool, until: int)
    requires Timely(s, until)
    ensures Soon(s, E.FailOff(s, reason, offOk), 0, until)
  {
    hide E.RecordOff;
    var d := E.DisableBridge(s, offOk);
    BridgeSoon(s, d.bridge, until);
    OffSoon(d, reason, until);
  }

  lemma EnergiseSoon(s: E.State, env: E.Env, until: int)
    requires Timely(s, until) && InTime(s, env.wait1 + env.wait2 + 2 * Delay(env.nested), until)
    ensures Soon(s, E.Energise(s, env).s, env.wait1 + env.wait2 + 2 * Delay(env.nested), until)
  {
    hide Timely, E.Committed, E.FailOff;
    PassSoon(s, env.wait1, until);
    var p := E.Pass(s, env.wait1);
    CommittedSoon(p, env.nested, env.offOk, until);
    var o := E.Committed(p, env.nested, env.offOk);
    FailOffSoon(o.s, E.EndedHardware, env.offOk, until);
    var d := o.s.(cool := o.s.cool.(offVerified := false));
    CoolSoon(o.s, d.cool, until);
    BridgeSoon(d, E.DisableBridge(d, env.offOk).bridge, until);
    FailOffSoon(E.DisableBridge(d, env.offOk), E.EndedHardware, env.offOk, until);
    if o.ok {
      var b := E.SetBridge(d, E.Drive(d.motor.duty));
      BridgeSoon(d, b.bridge, until);
      PassSoon(b, env.wait2, until);
      CommittedSoon(E.Pass(b, env.wait2), env.nested, env.offOk, until);
      FailOffSoon(E.Committed(E.Pass(b, env.wait2), env.nested, env.offOk).s, E.EndedHardware, env.offOk, until);
    }
  }

  lemma CoolSoon(s: E.State, c: E.Cool, until: int)
    requires Timely(s, until)
    ensures Timely(s.(cool := c), until)
  {
  }

  lemma BegunSoon(s: E.State, t: E.Timer, us: nat, r: Request, sequence: U64, at: int, until: int)
    requires Timely(E.Begun(s, r, sequence, at), until) && E.Now(E.Pass(s, us)) == E.Now(s)
    ensures var b := E.Begun(E.Pass(s.(timer := t), us), r, sequence, at); Timely(b, until) && b.clock == s.clock + us
  {
  }

  lemma ReserveFrame(s: E.State, r: Request, hard: int, sequence: U64, at: int)
    ensures var n := E.Reserve(s, r, hard, sequence, at);
      n.clock == s.clock && n.seg.hard == hard && n.seg.rxDeadline == at + LEASE_MS
  {
  }

  lemma LaunchSoon(s: E.State, r: Request, hard: int, sequence: U64, at: int, fromOff: bool, env: E.Env, until: int)
    requires Timely(s, until) && InTime(s, 999 + env.wait1 + env.wait2 + 3 * Delay(env.nested), until)
    requires Received(s, at, until) && !s.seg.on && !s.brake.on && 0 <= hard < HALF
    requires r.phase == PHASE_APPROACH ==>
      !E.ApproachExhausted(s.ledger) && hard == APPROACH_TOTAL_MS - s.ledger.approachReserved
    ensures Soon(s, E.Launch(s, r, hard, sequence, at, fromOff, env).s,
      999 + env.wait1 + env.wait2 + 3 * Delay(env.nested), until)
  {
    hide Timely, E.Reserve, E.Begun, E.ArmSegment, E.Energise, E.FailOff;
    var v := E.Reserve(s, r, hard, sequence, at);
    ReserveSoon(s, r, hard, sequence, at, until);
    ReserveFrame(s, r, hard, sequence, at);
    ArmSoon(v, r, fromOff, env, until);
    var o := E.ArmSegment(v, r, fromOff, env);
    if o.ok {
      BegunSoon(v, o.s.timer, o.s.clock - v.clock, r, sequence, at, until);
      EnergiseSoon(E.Begun(o.s, r, sequence, at), env, until);
    } else {
      FailOffSoon(o.s, E.EndedHardware, env.offOk, until);
    }
  }

  lemma AdmitSoon(s: E.State, r: Request, sequence: U64, at: int, env: E.Env, until: int)
    requires Timely(s, until) && InTime(s, 999 + env.wait1 + env.wait2 + 3 * Delay(env.nested), until)
    requires Received(s, at, until) && if r.phase == PHASE_APPROACH then !s.seg.on && !s.brake.on else r.hardMs < HALF
    ensures Soon(s, E.Admit(s, r, sequence, at, env).s, 999 + env.wait1 + env.wait2 + 3 * Delay(env.nested), until)
  {
    hide Timely, E.LeavePrevious, E.Launch, E.FailOff;
    var p := E.LeavePrevious(s);
    LeaveSoon(s, until);
    AccountLow(p, until);
    if r.phase != PHASE_APPROACH {
      LaunchSoon(p, r, r.hardMs, sequence, at, !s.seg.on && !s.brake.on, env, until);
    } else if E.ApproachExhausted(p.ledger) {
      CoolSoon(p, p.cool.(rest := true), until);
      FailOffSoon(p.(cool := p.cool.(rest := true)), E.EndedHardware, env.offOk, until);
    } else {
      LaunchSoon(p, r, APPROACH_TOTAL_MS - p.ledger.approachReserved, sequence, at, !s.seg.on && !s.brake.on, env,
        until);
    }
  }

  lemma AccountLow(s: E.State, until: int)
    requires Timely(s, until)
    ensures Unwrapped(s.ledger)
  {
  }

  lemma StartSoon(s: E.State, token: U32, r: Request, sequence: U64, at: int, env: E.Env, until: int)
    requires Timely(s, until) && InTime(s, Slowest(env), until) && Received(s, at, until)
    ensures Soon(s, E.StartSegment(s, token, r, sequence, at, env).s, Slowest(env), until)
  {
    hide Timely, E.RefreshRest, E.FailOff, E.StartReady, E.Admit, E.Healthy;
    RestSoon(s, until);
    var m := E.RefreshRest(s);
    FailOffSoon(m, E.EndedHardware, env.offOk, until);
    ReadySoon(m, env, until);
    var o := E.StartReady(m, env);
    FailOffSoon(o.s, E.EndedHardware, env.offOk, until);
    if o.ok && E.StartAdmitted(o.s, r, at) && !E.StartRefused(s, token, r, sequence) {
      assert r.phase == PHASE_APPROACH ==> !s.seg.on;
      AdmitSoon(o.s, r, sequence, at, env, until);
    }
  }

  lemma FinishApproachSoon(s: E.State, reason: E.Reason, env: E.Env, until: int)
    requires Timely(s, until) && InTime(s, Delay(env.finish) + Delay(env.nested), until)
    ensures Soon(s, E.FinishApproach(s, reason, env).s, Delay(env.finish) + Delay(env.nested), until)
  {
    hide Timely, E.FinishBegin, E.FinishCommit, E.RenewLease;
    FinishBeginSoon(s, env.finish, env.offOk, until);
    var o := E.FinishBegin(s, env.finish, env.offOk);
    if o.ok {
      RenewSoon(o.s, o.s.seg.rxDeadline - E.Now(o.s), env.nested, env.offOk, until);
      var n := E.RenewLease(o.s, o.s.seg.rxDeadline - E.Now(o.s), env.nested, env.offOk);
      if n.ok {
        FinishCommitSoon(n.s, reason, env.finish, until);
      }
    }
  }

  lemma EndLateSoon(s: E.State, env: E.Env, until: int)
    requires Timely(s, until)
    ensures Soon(s, E.EndLate(s, env), 0, until)
  {
    hide E.FailOff;
    FailOffSoon(s, E.EndedDeadline, env.offOk, until);
  }

  lemma EndReleasedSoon(s: E.State, env: E.Env, until: int)
    requires Timely(s, until) && InTime(s, Delay(env.nested), until)
    ensures Soon(s, E.EndReleased(s, env).s, Delay(env.nested), until)
  {
    hide E.Committed, E.EndLate, E.RecordOff;
    var d := E.DisableBridge(s, env.offOk);
    BridgeSoon(s, d.bridge, until);
    CommittedSoon(d, env.nested, env.offOk, until);
    var o := E.Committed(d, env.nested, env.offOk);
    EndLateSoon(o.s, env, until);
    OffSoon(o.s, E.EndedReduced, until);
  }

  lemma EndSoon(s: E.State, token: U32, env: E.Env, until: int)
    requires Timely(s, until) && InTime(s, Slowest(env), until)
    ensures Soon(s, E.EndSegment(s, token, env).s, Slowest(env), until)
  {
    hide Timely, E.Committed, E.EndLate, E.EndReleased, E.FinishApproach, E.FinishPulse, E.FailOff;
    EndReleasedSoon(s, env, until);
    CommittedSoon(s, env.nested, env.offOk, until);
    var o := E.Committed(s, env.nested, env.offOk);
    EndLateSoon(o.s, env, until);
    FinishApproachSoon(o.s, E.EndedReduced, env, until);
    FinishPulseSoon(o.s, E.EndedReduced, env.finish, env.offOk, until);
    FailOffSoon(E.FinishApproach(o.s, E.EndedReduced, env).s, E.EndedDeadline, env.offOk, until);
    FailOffSoon(E.FinishPulse(o.s, E.EndedReduced, env.finish, env.offOk).s, E.EndedDeadline, env.offOk, until);
  }

  lemma TakePostSoon(s: E.State, sequence: U64, at: int, until: int)
    requires Timely(s, until)
    ensures Soon(s, E.TakePost(s, sequence, at), 0, until)
  {
  }

  lemma PostSoon(s: E.State, token: U32, request: U32, sequence: U64, at: int, env: E.Env, until: int)
    requires Timely(s, until) && InTime(s, Slowest(env), until)
    ensures Soon(s, E.AcceptPost(s, token, request, sequence, at, env).s, Slowest(env), until)
  {
    hide Timely, E.PostDue, E.Committed, E.TakePost;
    TakePostSoon(s, sequence, at, until);
    CommittedSoon(s, env.nested, env.offOk, until);
    TakePostSoon(E.Committed(s, env.nested, env.offOk).s, sequence, at, until);
  }

  lemma ExtendSoon(s: E.State, deadline: int, sequence: U64, at: int, until: int)
    requires Timely(s, until) && Near(E.Now(s), deadline, until)
    ensures Soon(s, E.Extend(s, deadline, sequence, at), 0, until)
  {
  }

  lemma SawFrameSoon(s: E.State, o: E.Owner, until: int)
    requires Timely(s, until) && o.open == s.owner.open
    ensures Timely(s.(owner := o), until)
  {
  }

  lemma RenewalNear(s: E.State, at: int, until: int)
    requires Timely(s, until) && Received(s, at, until)
    ensures Near(E.Now(s), if s.seg.on then E.Least(at + LEASE_MS, s.seg.deadline) else at + LEASE_MS, until)
  {
  }

  lemma RefreshSoon(s: E.State, token: U32, sequence: U64, at: int, env: E.Env, until: int)
    requires Timely(s, until) && InTime(s, Slowest(env), until) && Received(s, at, until)
    ensures Soon(s, E.Refresh(s, token, sequence, at, env).s, Slowest(env), until)
  {
    hide Timely, E.LeaseBroken, E.RenewLease, E.FailOff, E.Extend;
    SawFrameSoon(s, s.owner.(feedback := sequence), until);
    FailOffSoon(s, E.EndedDeadline, env.offOk, until);
    RenewalNear(s, at, until);
    var deadline := if s.seg.on then E.Least(at + LEASE_MS, s.seg.deadline) else at + LEASE_MS;
    RenewSoon(s, deadline - E.Now(s), env.nested, env.offOk, until);
    var o := E.RenewLease(s, deadline - E.Now(s), env.nested, env.offOk);
    FailOffSoon(o.s, E.EndedDeadline, env.offOk, until);
    if o.ok {
      ExtendSoon(o.s, deadline, sequence, at, until);
    }
  }

  lemma DisableSoon(s: E.State, offOk: bool, until: int)
    requires Timely(s, until)
    ensures Soon(s, E.Disable(s, offOk).s, 0, until)
  {
    hide E.RecordOff;
    var d := E.DisableBridge(s, offOk);
    BridgeSoon(s, d.bridge, until);
    OffSoon(d, E.EndedStop, until);
  }

  lemma PublishSoon(s: E.State, e: E.TimerEvent, offOk: bool, until: int)
    requires Timely(s, until)
    ensures Soon(s, E.Publish(s, e, offOk).s, 0, until)
  {
    hide E.RecordOff;
    var d := E.DisableBridge(s, offOk);
    BridgeSoon(s, d.bridge, until);
    OffSoon(d, E.EndedDeadline, until);
  }

  lemma StoppedSoon(s: E.State, offOk: bool, until: int)
    requires Timely(s, until)
    ensures Soon(s, E.StopTimerAndBridge(s, offOk), 0, until)
  {
  }

  lemma ServiceSoon(s: E.State, offOk: bool, until: int)
    requires Timely(s, until)
    ensures Soon(s, E.Service(s, offOk).s, 0, until)
  {
    hide Timely, E.Publish, E.StopTimerAndBridge, E.IsArmed;
    LatchSoon(s, E.Clear, until);
    if s.latch.Latched? { PublishSoon(s.(latch := E.Clear), s.latch.event, offOk, until); }
    StoppedSoon(s, offOk, until);
    PublishSoon(E.StopTimerAndBridge(s, offOk), E.Error, offOk, until);
  }

  lemma LatchSoon(s: E.State, l: E.Latch, until: int)
    requires Timely(s, until)
    ensures Timely(s.(latch := l), until)
  {
  }

  lemma GuardSoon(s: E.State, readOk: bool, offOk: bool, until: int)
    requires Timely(s, until)
    ensures Soon(s, E.Guard(s, readOk, offOk).s, 0, until)
  {
    hide Timely, E.StopTimerAndBridge, E.RequestValid;
    StoppedSoon(s, offOk, until);
  }

  lemma BeginSoon(s: E.State, unlocked: bool, until: int)
    requires Timely(s, until) && Safety.Inv(s)
    ensures Soon(s, E.BeginBuild(s, unlocked).s, 0, until)
  {
    hide E.RefreshRest;
    RestSoon(s, until);
    IdleOwner(s);
  }

  /** Between owners no segment runs and BRAKE is off. */
  lemma IdleOwner(s: E.State)
    requires Safety.Inv(s)
    ensures !s.owner.open ==> !s.seg.on && !s.brake.on
  {
    hide Safety.OwnerAgrees, Safety.Reserved, Safety.Accounted, Safety.Running, Safety.Holding, Safety.Cooling;
  }

  /** Microseconds an event may take. */
  function Longest(e: E.Event): nat {
    match e
    case DoPass(us) => us
    case DoIrq(f, _) => Delay(f)
    case DoStart(_, _, _, _, env) => Slowest(env)
    case DoEnd(_, env) => Slowest(env)
    case DoPost(_, _, _, _, env) => Slowest(env)
    case DoRefresh(_, _, _, env) => Slowest(env)
    case _ => 0
  }

  /** The frame an event reports, if any, stays near until the call is over. */
  predicate Recent(s: E.State, e: E.Event, until: int) {
    match e
    case DoStart(_, _, _, age, _) => Received(s, E.Now(s) - age, until)
    case DoPost(_, _, _, age, _) => Received(s, E.Now(s) - age, until)
    case DoRefresh(_, _, age, _) => Received(s, E.Now(s) - age, until)
    case _ => true
  }

  /** An event leaves every mark near that may be compared later. */
  lemma StepSoon(s: E.State, e: E.Event, until: int)
    requires Timely(s, until) && InTime(s, Longest(e), until) && Recent(s, e, until) && Safety.Inv(s)
    ensures Soon(s, E.Step(s, e), Longest(e), until)
  {
    hide Timely, Safety.Inv, E.Pass, E.SetBridge, E.Irq, E.StartSegment, E.EndSegment, E.AcceptPost, E.Refresh,
      E.Disable, E.Service, E.Guard, E.BeginBuild, E.RefreshRest;
    match e
    case DoPass(us) => PassSoon(s, us, until);
    case DoIrq(f, offOk) => IrqSoon(s, f, offOk, until);
    case DoDrop(off) => BridgeSoon(s, if off then E.Off else E.Lost, until);
    case DoOverrun => TimerSoon(s, s.timer.(overrun := s.timer.armed), until);
    case DoBegin(unlocked) => BeginSoon(s, unlocked, until);
    case DoStart(token, r, sequence, age, env) => StartSoon(s, token, r, sequence, E.Now(s) - age, env, until);
    case DoEnd(token, env) => EndSoon(s, token, env, until);
    case DoPost(token, request, sequence, age, env) => PostSoon(s, token, request, sequence, E.Now(s) - age, env,
      until);
    case DoRefresh(token, sequence, age, env) => RefreshSoon(s, token, sequence, E.Now(s) - age, env, until);
    case DoDisable(offOk) => DisableSoon(s, offOk, until);
    case DoService(offOk) => ServiceSoon(s, offOk, until);
    case DoGuard(readOk, offOk) => GuardSoon(s, readOk, offOk, until);
    case DoSnapshot => RestSoon(s, until);
  }

  // ---------------------------------------------------------------- what a step does to the words

  function Charged(l: LedgerWords, elapsed: U32, excess: U32, approach: bool): LedgerWords {
    LedgerWords(l.epoch, Plus(l.reserved, excess),
                if approach then Plus(l.approachReserved, excess) else l.approachReserved,
                l.approachCommand, Plus(l.energized, elapsed))
  }

  /** The wrapped charge is the true one. */
  lemma ChargeWords(l: E.Ledger, approach: bool, hard: int, elapsed: int)
    requires 0 <= hard < HALF && 0 <= elapsed < WORD
    ensures LedgerOf(E.ChargeSegment(l, approach, hard, elapsed)) == Charged(LedgerOf(l), elapsed,
      E.Excess(elapsed, hard), approach)
  {
    var excess := E.Excess(elapsed, hard);
    LowOf(elapsed, elapsed, 0);
    LowOf(excess, excess, 0);
    PlusOfLow(l.energized, elapsed);
    PlusOfLow(l.reserved, excess);
    PlusOfLow(l.approachReserved, excess);
  }

  /** What a pulse's end does to each group of words. */
  lemma PulseWords(s: E.State, reason: E.Reason)
    requires s.seg.on && Timely(s, E.Now(s))
    ensures var r := E.RecordPulseEnd(s, E.Now(s), reason);
      var elapsed := Plus(Minus(Low(E.Now(s)), Low(s.seg.started)), 1);
      var late := elapsed > Low(s.seg.hard);
      var why := if late then E.EndedDeadline else reason;
      && SegOf(r.seg) == SegOf(s.seg).(on := false)
      && AfterOf(r.after) == AfterWords(true, Low(E.Now(s)), why)
      && LedgerOf(r.ledger) == Charged(LedgerOf(s.ledger), elapsed, if late then elapsed - Low(s.seg.hard) else 0,
        s.seg.kind.Approach?)
      && CoolOf(r.cool) == (if late then CoolOf(s.cool).(rest := true) else CoolOf(s.cool))
      && OwnerOf(r.owner) == (if E.Soft(why) then OwnerOf(s.owner) else OwnerOf(s.owner).(open := false))
      && r == s.(seg := r.seg, after := r.after, ledger := r.ledger, cool := r.cool, owner := r.owner)
  {
    hide Charged, E.ChargeSegment, LedgerOf;
    var elapsed := E.Now(s) - s.seg.started + 1;
    ElapsedExact(E.Now(s), s.seg.started);
    LowOf(s.seg.hard, s.seg.hard, 0);
    ChargeWords(s.ledger, s.seg.kind.Approach?, s.seg.hard, elapsed);
  }

  lemma PulseIdle(s: E.State, reason: E.Reason)
    requires !s.seg.on
    ensures E.RecordPulseEnd(s, E.Now(s), reason) == s
  {
  }

  lemma BrakeWord(s: E.State)
    requires s.brake.on ==> s.brake.started <= E.Now(s) && Near(E.Now(s), s.brake.started, E.Now(s))
    ensures var r := E.ChargeBrake(s, E.Now(s));
      && BrakeOf(s.brake).on == s.brake.on
      && (!s.brake.on ==> r == s)
      && (s.brake.on ==>
          && BrakeOf(r.brake) == BrakeOf(s.brake).(on := false)
          && LedgerOf(r.ledger) == LedgerOf(s.ledger).(energized :=
               Plus(LedgerOf(s.ledger).energized, Plus(Minus(Low(E.Now(s)), BrakeOf(s.brake).started), 1)))
          && r == s.(brake := r.brake, ledger := r.ledger))
  {
    if s.brake.on {
      var elapsed := E.Now(s) - s.brake.started + 1;
      ElapsedExact(E.Now(s), s.brake.started);
      LowOf(elapsed, elapsed, 0);
      PlusOfLow(s.ledger.energized, elapsed);
    }
  }

  lemma CoolWord(c: E.Cool, b: E.Bridge, now: int)
    ensures var r := E.ConfirmOff(c, b, now);
      CoolOf(r) == if !b.Off? then CoolOf(c).(offVerified := false)
                   else if !CoolOf(c).offVerified then CoolOf(c).(offAt := Low(now), offVerified := true) else CoolOf(c)
  {
  }

  lemma PulseEndFrame(s: E.State, reason: E.Reason)
    ensures var r := E.RecordPulseEnd(s, E.Now(s), reason);
      r.clock == s.clock && r.brake == s.brake && r.bridge == s.bridge && r.seg == s.seg.(on := false) &&
        r.motor == s.motor && r.latch == s.latch && r.timer == s.timer
    ensures Timely(s, E.Now(s)) && s.brake.on ==>
      s.brake.started <= E.Now(s) && Near(E.Now(s), s.brake.started, E.Now(s))
  {
  }

  lemma ChargeBrakeFrame(s: E.State)
    ensures var r := E.ChargeBrake(s, E.Now(s));
      r == s.(brake := r.brake, ledger := r.ledger)
  {
  }

  lemma BrakeReads(b: E.BrakeRun)
    ensures BrakeOf(b) == BrakeWords(b.on, Low(b.started), Low(b.deadline))
  {
  }

  lemma AfterReads(a: E.Aftermath)
    ensures AfterOf(a) == AfterWords(a.post, Low(a.ended), a.reason)
  {
  }

  lemma OwnerReads(o: E.Owner)
    ensures OwnerOf(o) == OwnerWords(o.open, o.token, o.haveSequence, o.used, o.feedback)
    ensures OwnerOf(E.Revoke(o)) == OwnerOf(o).(open := false)
  {
  }

  lemma SegReads(g: E.Seg)
    ensures SegOf(g) == SegWords(g.on, g.kind, Low(g.hard), g.settle, g.target, g.request, Low(g.started),
      Low(g.deadline), Low(g.rxDeadline))
  {
  }

  lemma MotorReads(m: E.Motor)
    ensures MotorOf(m) == MotorWords(m.active, m.press, m.duty, m.action, Low(m.backstop))
  {
  }

  lemma LedgerReads(l: E.Ledger)
    ensures LedgerOf(l) == LedgerWords(l.epoch, Low(l.reserved), Low(l.approachReserved), Low(l.approachCommand),
      Low(l.energized))
  {
  }

  /** The completed rest, read from the words. */
  lemma RestWord(s: E.State, c: E.Cool)
    ensures E.RestDone(s, c) <==>
      && !s.seg.on && !s.brake.on && s.bridge.Off? && (c.rest || LedgerOf(s.ledger).reserved != 0)
      && Minus(Low(E.Now(s)), CoolOf(c).offAt) >= FULL_REST_MS
  {
    MinusOfLow(E.Now(s), c.offAt);
  }

  /** The sign-bit tests of a running segment are the true comparisons. */
  lemma DeadlineWords(s: E.State, until: int)
    requires Timely(s, until)
    ensures var now, g := Low(E.Now(s)), SegOf(s.seg);
      s.seg.on || s.brake.on ==>
      && (s.seg.on ==> (Reached(now, g.deadline) <==> E.Now(s) >= s.seg.deadline))
      && (Reached(now, g.rxDeadline) <==> E.Now(s) >= s.seg.rxDeadline)
      && (E.Now(s) < s.seg.rxDeadline ==> Minus(g.rxDeadline, now) == s.seg.rxDeadline - E.Now(s))
  {
    if s.seg.on {
      AheadWord(E.Now(s), s.seg.deadline, until);
    }
    if s.seg.on || s.brake.on {
      AheadWord(E.Now(s), s.seg.rxDeadline, until);
    }
  }

  /** The comparisons made while BRAKE holds and while a request is active. */
  lemma BrakeTimes(s: E.State, until: int)
    requires Timely(s, until)
    ensures var now := Low(E.Now(s));
      && (s.brake.on ==>
          && (Reached(now, Low(s.brake.deadline)) <==> E.Now(s) >= s.brake.deadline)
          && Minus(now, Low(s.after.ended)) == E.Now(s) - s.after.ended)
      && (s.motor.active ==> (Reached(now, Low(s.motor.backstop)) <==> E.Now(s) >= s.motor.backstop))
  {
    if s.brake.on {
      AheadWord(E.Now(s), s.brake.deadline, until);
      ElapsedExact(E.Now(s), s.after.ended);
    }
    if s.motor.active {
      AheadWord(E.Now(s), s.motor.backstop, until);
    }
  }

  lemma AheadWord(now: int, mark: int, until: int)
    requires now <= until && Near(now, mark, until)
    ensures Reached(Low(now), Low(mark)) <==> now >= mark
    ensures now < mark ==> Minus(Low(mark), Low(now)) == mark - now
  {
    ReachedExact(now, mark);
    if now < mark {
      ElapsedExact(mark, now);
    }
  }

  lemma AgeWord(s: E.State, at: int, until: int)
    requires Timely(s, until) && Received(s, at, until)
    ensures Minus(Low(E.Now(s)), Low(at)) == E.Now(s) - at
  {
    ElapsedExact(E.Now(s), at);
  }

  /** The admission's words. */
  lemma ReserveWords(s: E.State, r: Request, hard: U32, sequence: U64, at: int)
    requires hard < HALF && APPROACH_COMMAND * hard < WORD
    ensures var n, now, approach := E.Reserve(s, r, hard, sequence, at), Low(E.Now(s)), r.phase == PHASE_APPROACH;
      && SegOf(n.seg) == SegWords(s.seg.on, E.KindOf(r), hard, r.settleMs, r.target, Plus(s.seg.request, 1),
                                  now, Plus(now, hard), Plus(Low(at), LEASE_MS))
      && AfterOf(n.after) == AfterOf(s.after).(reason := E.NotEnded)
      && LedgerOf(n.ledger) == Booked(LedgerOf(s.ledger), approach, hard)
      && OwnerOf(n.owner) == OwnerOf(s.owner).(used := sequence, feedback := sequence, haveSequence := true)
      && MotorOf(n.motor) == MotorWords(true, true, Duty(r.command), E.Segment, Plus(now, hard))
      && n == s.(seg := n.seg, after := n.after, ledger := n.ledger, owner := n.owner, motor := n.motor)
  {
    LowOf(hard, hard, 0);
    LowOf(LEASE_MS, LEASE_MS, 0);
    PlusOfLow(E.Now(s), hard);
    PlusOfLow(at, LEASE_MS);
    BookedWords(s.ledger, r.phase == PHASE_APPROACH, hard);
  }

  function Booked(l: LedgerWords, approach: bool, hard: U32): LedgerWords
    requires APPROACH_COMMAND * hard < WORD
  {
    LedgerWords(l.epoch, Plus(l.reserved, hard),
                if approach then Plus(l.approachReserved, hard) else l.approachReserved,
                if approach then Plus(l.approachCommand, APPROACH_COMMAND * hard) else l.approachCommand, l.energized)
  }

  lemma BookedWords(l: E.Ledger, approach: bool, hard: U32)
    requires APPROACH_COMMAND * hard < WORD
    ensures LedgerOf(E.ReserveLedger(l, approach, hard)) == Booked(LedgerOf(l), approach, hard)
  {
    LowOf(hard, hard, 0);
    LowOf(APPROACH_COMMAND * hard, APPROACH_COMMAND * hard, 0);
    PlusOfLow(l.reserved, hard);
    PlusOfLow(l.approachReserved, hard);
    PlusOfLow(l.approachCommand, APPROACH_COMMAND * hard);
  }

  /** The epoch's approach budget, tested on its words. */
  predicate Exhausted(l: LedgerWords) {
    || l.approachReserved >= APPROACH_TOTAL_MS || APPROACH_TOTAL_MS - l.approachReserved < 2
    || Plus(l.approachCommand, APPROACH_COMMAND * (APPROACH_TOTAL_MS - l.approachReserved)) > APPROACH_COMMAND_MS
  }

  lemma ExhaustedWord(l: E.Ledger)
    requires Unwrapped(l)
    ensures Exhausted(LedgerOf(l)) <==> E.ApproachExhausted(l)
    ensures LedgerOf(l).approachReserved == l.approachReserved
  {
    LowOf(l.approachReserved, l.approachReserved, 0);
    LowOf(l.approachCommand, l.approachCommand, 0);
  }

  /** Whether a frame was received after the pulse's end, by the sign of the difference. */
  lemma PostWord(s: E.State, at: int, until: int)
    requires Timely(s, until) && Received(s, at, until) && s.owner.open && s.after.post && E.Now(s) - at <= AGE_MS
    ensures Reached(Low(at), Low(s.after.ended)) <==> at >= s.after.ended
  {
    ReachedExact(at, s.after.ended);
  }

  /** The renewed receive deadline, no later than the segment's own. */
  lemma RenewalWord(s: E.State, at: int, until: int)
    requires Timely(s, until) && Received(s, at, until) && E.Now(s) - at <= AGE_MS
    requires s.seg.on ==> E.Now(s) < s.seg.deadline
    ensures var d := if s.seg.on then E.Least(at + LEASE_MS, s.seg.deadline) else at + LEASE_MS;
      && Low(d) == Renewal(SegOf(s.seg), Low(at))
      && Minus(Low(d), Low(E.Now(s))) == d - E.Now(s)
  {
    LowOf(LEASE_MS, LEASE_MS, 0);
    PlusOfLow(at, LEASE_MS);
    if s.seg.on {
      ReachedExact(at + LEASE_MS, s.seg.deadline);
    }
    ElapsedExact(if s.seg.on then E.Least(at + LEASE_MS, s.seg.deadline) else at + LEASE_MS, E.Now(s));
  }

  function Renewal(g: SegWords, received: U32): U32 {
    var deadline := Plus(received, LEASE_MS);
    if g.on && Minus(deadline, g.deadline) != 0 && Reached(deadline, g.deadline) then g.deadline else deadline
  }

  /** What is reported while a segment or BRAKE still runs. */
  lemma SnapshotWord(s: E.State, until: int)
    requires Timely(s, until)
    ensures var l, now := Low(s.ledger.energized), Low(E.Now(s));
      var a := if s.seg.on then Plus(l, Plus(Minus(now, Low(s.seg.started)), 1)) else l;
      var b := if s.brake.on then Plus(a, Plus(Minus(now, Low(s.brake.started)), 1)) else a;
      b == Low(s.ledger.energized + (if s.seg.on then E.Now(s) - s.seg.started + 1 else 0)
                                  + (if s.brake.on then E.Now(s) - s.brake.started + 1 else 0))
  {
    var l, now := s.ledger.energized, E.Now(s);
    if s.seg.on {
      AddElapsed(l, now, s.seg.started);
    }
    if s.brake.on {
      AddElapsed(l + (if s.seg.on then now - s.seg.started + 1 else 0), now, s.brake.started);
    }
  }

  lemma AddElapsed(l: int, now: int, started: int)
    requires 0 <= now - started < HALF
    ensures Plus(Low(l), Plus(Minus(Low(now), Low(started)), 1)) == Low(l + (now - started + 1))
  {
    ElapsedExact(now, started);
    LowOf(now - started + 1, now - started + 1, 0);
    PlusOfLow(l, now - started + 1);
  }
}
