/** Output that is not known to be OFF. Only a disable that is run and does not read back makes it so:
    which events run one, and what exactly then becomes of the cutoff, the account and the rest. */
module MissedDisable {
  import opened MachineWord
  import opened Admission
  import opened ExecutorSpec
  import opened ExecutorSafety
  import opened ExecutorTheorems
  import opened FailingCalls
  import OutputAuthority

  // ---------------------------------------------------------------- which events run a disable

  /** The compare interrupt of a running pulse, served in time: BRAKE instead of OFF. */
  predicate TurnsIntoBrake(s: State, f: Finish) {
    var t := s.(timer := s.timer.(acked := true));
    Classify(s.timer, s.clock).Normal? && PulseIntact(t, f) && InTime(t, f)
  }

  /** The check of the cutoff inside an accepted post meets its interrupt. */
  predicate PostMeetsCutoff(s: State, token: U32, request: U32, sequence: U64, received: int, readOk: bool) {
    && PostDue(s, token, request, sequence, received, readOk)
    && s.bridge.Brake? && readOk && Now(s) < s.brake.deadline && Now(s) < s.seg.rxDeadline
    && Flagged(s.timer, s.clock)
  }

  predicate ServiceStops(s: State) {
    match s.latch
    case Latched(event) =>
      !event.Normal? || (s.motor.action.Segment? && s.after.reason.EndedDeadline?) || !s.bridge.Off?
    case Clear =>
      if !s.motor.active then !s.bridge.Off? || IsArmed(s.timer, s.clock)
      else !s.timer.healthy || !IsArmed(s.timer, s.clock) || Now(s) >= s.motor.backstop || s.bridge.Off?
  }

  /** The event disables the bridge, or the bridge falls out of its commanded state by itself. */
  predicate RunsDisable(s: State, e: Event) {
    match e
    case DoIrq(f, _) => s.timer.irq && !TurnsIntoBrake(s, f)
    case DoDrop(_) => true
    case DoStart(token, r, sequence, age, env) => StartFails(s, token, r, sequence, Now(s) - age, env)
    case DoEnd(token, env) => EndFails(s, token, env.finish)
    case DoPost(token, request, sequence, age, env) => PostMeetsCutoff(s, token, request, sequence, Now(s) - age,
      env.readOk)
    case DoRefresh(token, sequence, age, env) => RefreshFails(s, token, sequence, Now(s) - age, env.readOk)
    case DoDisable(_) => true
    case DoService(_) => ServiceStops(s)
    case DoGuard(readOk, _) => !(s.latch.Clear? && s.motor.active && RequestValid(s, readOk))
    case _ => false
  }

  /** The state a run has reached after its first k events. */
  function At(clock: nat, es: seq<Event>, k: nat): State
    requires k <= |es|
  {
    Run(Boot(clock), es[..k])
  }

  predicate Missed(clock: nat, es: seq<Event>, j: nat)
    requires j < |es|
  {
    RunsDisable(At(clock, es, j), es[j]) && !ReadsBack(es[j])
  }

  /** Whether the last disable a run has run read back. */
  predicate LastAnswer(clock: nat, es: seq<Event>) {
    |es| > 0 ==>
      var front, e := es[..|es| - 1], es[|es| - 1];
      if RunsDisable(Run(Boot(clock), front), e) then ReadsBack(e) else LastAnswer(clock, front)
  }

  // ---------------------------------------------------------------- one event

  /** OFF or unknown, with nothing left running. */
  predicate Down(r: State, offOk: bool) {
    && r.bridge == (if offOk then Off else Lost) && !r.timer.armed && !r.seg.on && !r.brake.on
    && (r.cool.offVerified ==> offOk)
  }

  /** OFF is dated only where the bridge is OFF. */
  predicate Dated(s: State, r: State) {
    r.cool.offVerified ==> r.bridge.Off? || (s.cool.offVerified && s.cool.offAt == r.cool.offAt)
  }

  /** A disable decides what is known of the bridge and cancels the cutoff; all but the guard's also
      close the account. Nothing else changes what is known. */
  predicate Answered(s: State, e: Event, r: State) {
    && Dated(s, r)
    && if RunsDisable(s, e) then
         && r.bridge == (if ReadsBack(e) then Off else Lost)
         && (if e.DoDrop? then r.timer == s.timer else !r.timer.armed)
         && if e.DoDrop? || e.DoGuard? then r.seg == s.seg && r.brake == s.brake else !r.seg.on && !r.brake.on
       else
         && r.bridge.Lost? == s.bridge.Lost?
         && (s.bridge.Lost? ==> r.timer.armed == s.timer.armed && r.seg.on == s.seg.on && r.brake.on == s.brake.on)
  }

  lemma FailedIsDown(offOk: bool)
    ensures forall m: State, reason: Reason :: Down(FailOff(m, reason, offOk), offOk)
    ensures forall m: State, e: TimerEvent :: Down(ShutDown(m, e, offOk), offOk)
  {
  }

  lemma InterruptAnswers(s: State, f: Finish, offOk: bool)
    requires Inv(s) && s.timer.irq
    ensures var r := Irq(s, f, offOk);
      if TurnsIntoBrake(s, f) then s.bridge.Drive? && r.bridge.Brake? && !r.cool.offVerified else Down(r, offOk)
  {
    hide Core, FinishPulse, ShutDown, InTime;
    FailedIsDown(offOk);
    var t := s.(timer := s.timer.(acked := true));
    if Classify(s.timer, s.clock).Normal? && s.seg.on && s.seg.kind.Pulse? {
      OccupiedPresses(s);
      TimerIsFree(s, t.timer);
      FinishPulseKeeps(t, EndedNormal, f, offOk);
      FinishWhenIntact(t, EndedNormal, f, offOk);
    }
  }

  lemma FinishWhenIntact(s: State, reason: Reason, f: Finish, offOk: bool)
    requires Core(s) && s.seg.on && s.seg.kind.Pulse?
    ensures FinishPulse(s, reason, f, offOk).ok <==> PulseIntact(s, f) && InTime(s, f)
  {
    hide Core, InTime, IntoBrake, FinishCommit;
    if PulseIntact(s, f) {
      FinishExactly(s, reason, f, offOk);
    }
  }

  lemma StartAnswers(s: State, token: U32, r: Request, sequence: U64, age: nat, env: Env)
    requires Inv(s)
    ensures Answered(s, DoStart(token, r, sequence, age, env), StartSegment(s, token, r, sequence, Now(s) - age, env).s)
  {
    hide Inv, FailOff, ShutDown, StartRefused, StartReady, StartAdmitted, Healthy, RefreshRest, Admit, StartFails;
    StartFailsExactly(s, token, r, sequence, Now(s) - age, env);
    FailedIsDown(env.offOk);
    var o := StartReady(RefreshRest(s), env);
    AdmitAnswers(o.s, r, sequence, Now(s) - age, env);
    if o.ok { OutputAuthority.ReadyIsTame(RefreshRest(s), env); RestKeepsBridge(s); }
  }

  lemma RestKeepsBridge(s: State)
    ensures RefreshRest(s).bridge == s.bridge && Dated(s, RefreshRest(s))
  {
  }

  lemma AdmitAnswers(s: State, r: Request, sequence: U64, received: int, env: Env)
    ensures var a := Admit(s, r, sequence, received, env);
      match a.result
      case Ok => a.s.bridge.Drive? && !a.s.cool.offVerified
      case HardwareError => Down(a.s, env.offOk)
      case _ => false
  {
    hide FailOff, ShutDown, LeavePrevious, ArmSegment, Committed;
    FailedIsDown(env.offOk);
    forall b: State ensures var o := Committed(b, env.nested, env.offOk); o.ok ==> o.s == b.(timer := o.s.timer) {
      OutputAuthority.CommittedIsTame(b, env.nested, env.offOk);
    }
  }

  lemma EndAnswers(s: State, token: U32, env: Env)
    requires Inv(s)
    ensures Answered(s, DoEnd(token, env), EndSegment(s, token, env).s)
  {
    hide Core, FailOff, ShutDown, Committed, FinishPulse, FinishApproach, EndFails;
    EndFailsExactly(s, token, env);
    FailedIsDown(env.offOk);
    var o := Committed(s, env.nested, env.offOk);
    if s.seg.on {
      OccupiedPresses(s);
      CommittedKeeps(s, env.nested, env.offOk);
      if o.ok {
        if s.seg.kind.Approach? {
          FinishApproachKeeps(o.s, EndedReduced, env);
          FinishNeedsDrive(o.s, env);
        } else {
          FinishPulseKeeps(o.s, EndedReduced, env.finish, env.offOk);
          FinishNeedsDrive(o.s, env);
        }
      }
    }
  }

  lemma FinishNeedsDrive(s: State, env: Env)
    ensures FinishApproach(s, EndedReduced, env).ok || FinishPulse(s, EndedReduced, env.finish, env.offOk).ok ==>
      s.bridge.Drive?
  {
    hide FinishCommit, RenewLease, Handoff;
  }

  lemma PostAnswers(s: State, token: U32, request: U32, sequence: U64, age: nat, env: Env)
    requires Inv(s)
    ensures Answered(s, DoPost(token, request, sequence, age, env),
      AcceptPost(s, token, request, sequence, Now(s) - age, env).s)
  {
    hide Core, ShutDown, Healthy, FinishPulse;
    FailedIsDown(env.offOk);
    if s.after.post && s.owner.open {
      CoreOf(s);
      PostNeedsBrake(s);
    }
  }

  lemma RefreshAnswers(s: State, token: U32, sequence: U64, age: nat, env: Env)
    requires Inv(s)
    ensures Answered(s, DoRefresh(token, sequence, age, env), Refresh(s, token, sequence, Now(s) - age, env).s)
  {
    hide Core, FailOff, ShutDown, RenewLease, RefreshFails;
    RefreshFailsExactly(s, token, sequence, Now(s) - age, env);
    FailedIsDown(env.offOk);
    if Leased(s) {
      var deadline := if s.seg.on then Least(Now(s) - age + LEASE_MS, s.seg.deadline) else Now(s) - age + LEASE_MS;
      RenewKeeps(s, deadline, env.nested, env.offOk);
    }
  }

  lemma ServiceAnswers(s: State, offOk: bool)
    requires Inv(s)
    ensures Answered(s, DoService(offOk), Service(s, offOk).s)
  {
    hide Inv, Answered, Service;
    if s.latch.Latched? { PublishAnswers(s, offOk); } else { PollAnswers(s, offOk); }
  }

  lemma PublishAnswers(s: State, offOk: bool)
    requires Inv(s) && s.latch.Latched?
    ensures Answered(s, DoService(offOk), Service(s, offOk).s)
  {
    hide Core;
    ClosedIsDead(s);
  }

  lemma PollAnswers(s: State, offOk: bool)
    requires Inv(s) && s.latch.Clear?
    ensures Answered(s, DoService(offOk), Service(s, offOk).s)
  {
    hide Core;
    if s.seg.on || s.brake.on { OccupiedPresses(s); }
  }

  lemma GuardAnswers(s: State, readOk: bool, offOk: bool)
    requires Inv(s)
    ensures Answered(s, DoGuard(readOk, offOk), Guard(s, readOk, offOk).s)
  {
    hide Inv, RequestValid;
  }

  lemma StepAnswers(s: State, e: Event)
    requires Inv(s)
    ensures Answered(s, e, Step(s, e))
  {
    hide Inv, Irq, StartSegment, EndSegment, AcceptPost, Refresh, Service, Guard, TurnsIntoBrake, StartFails, EndFails,
      RefreshFails;
    match e
    case DoIrq(f, offOk) => if s.timer.irq { InterruptAnswers(s, f, offOk); }
    case DoStart(token, r, sequence, age, env) => StartAnswers(s, token, r, sequence, age, env);
    case DoEnd(token, env) => EndAnswers(s, token, env);
    case DoPost(token, request, sequence, age, env) => PostAnswers(s, token, request, sequence, age, env);
    case DoRefresh(token, sequence, age, env) => RefreshAnswers(s, token, sequence, age, env);
    case DoService(offOk) => ServiceAnswers(s, offOk);
    case DoGuard(readOk, offOk) => GuardAnswers(s, readOk, offOk);
    case _ =>
  }

  // ---------------------------------------------------------------- a run

  lemma Stepped(clock: nat, es: seq<Event>, j: nat)
    requires j < |es|
    ensures Inv(At(clock, es, j)) && Inv(At(clock, es, j + 1))
    ensures At(clock, es, j + 1) == Step(At(clock, es, j), es[j]) &&
      Answered(At(clock, es, j), es[j], At(clock, es, j + 1))
  {
    hide Inv, Step, Answered, Boot;
    RunKeeps(clock, es[..j]);
    RunKeeps(clock, es[..j + 1]);
    assert es[..j + 1][..j] == es[..j];
    StepAnswers(At(clock, es, j), es[j]);
  }

  lemma Prefix(clock: nat, es: seq<Event>, m: nat, k: nat)
    requires k <= m <= |es|
    ensures At(clock, es[..m], k) == At(clock, es, k)
  {
    hide Run;
    assert es[..m][..k] == es[..k];
  }

  /** Nothing is known of the bridge exactly when the last disable that was run did not read back. */
  lemma {:induction false} UnknownExactly(clock: nat, es: seq<Event>)
    ensures Run(Boot(clock), es).bridge.Lost? <==> !LastAnswer(clock, es)
  {
    hide Inv, Step, RunsDisable, ReadsBack;
    if |es| > 0 {
      var n := |es| - 1;
      UnknownExactly(clock, es[..n]);
      assert es[..|es|] == es;
      Stepped(clock, es, n);
    }
  }

  // ---------------------------------------------------------------- the cutoff

  lemma ArmedIsInForce(s: State)
    requires Inv(s)
    ensures s.timer.armed <==> InForce(s)
    ensures Lit(s.bridge) ==> InForce(s)
  {
    hide ModeOf, Authority, Reserved, Accounted;
  }

  /** At any moment the bridge is OFF or under a cutoff in force, exactly when the last disable that was
      run read back or a cutoff is still armed. */
  lemma CutoffExactly(clock: nat, es: seq<Event>)
    ensures var s := Run(Boot(clock), es);
      s.bridge.Off? || InForce(s) <==> LastAnswer(clock, es) || s.timer.armed
  {
    hide Inv, Step, InForce, LastAnswer;
    RunKeeps(clock, es);
    UnknownExactly(clock, es);
    ArmedIsInForce(Run(Boot(clock), es));
  }

  /** Throughout a run every bridge not known to be OFF is under a cutoff in force, exactly when the only
      disables missed are the bridge's own falls while a cutoff was armed. */
  lemma CutoffAlwaysInForce(clock: nat, es: seq<Event>)
    ensures
      (forall k: nat :: k <= |es| ==> At(clock, es, k).bridge.Off? || InForce(At(clock, es, k))) <==>
      (forall j: nat :: j < |es| && Missed(clock, es, j) ==> es[j].DoDrop? && At(clock, es, j).timer.armed)
  {
    hide Inv, At, InForce, Missed, ReadsBack;
    if forall k: nat :: k <= |es| ==> At(clock, es, k).bridge.Off? || InForce(At(clock, es, k)) {
      forall j: nat | j < |es| && Missed(clock, es, j) ensures es[j].DoDrop? && At(clock, es, j).timer.armed {
        MissedIs(clock, es, j);
        ArmedIsInForce(At(clock, es, j + 1));
      }
    }
    if forall j: nat :: j < |es| && Missed(clock, es, j) ==> es[j].DoDrop? && At(clock, es, j).timer.armed {
      forall k: nat | k <= |es| ensures At(clock, es, k).bridge.Off? || InForce(At(clock, es, k)) {
        StillArmed(clock, es, k);
        AtIsSafe(clock, es, k);
        ArmedIsInForce(At(clock, es, k));
      }
    }
  }

  lemma AtIsSafe(clock: nat, es: seq<Event>, k: nat)
    requires k <= |es|
    ensures Inv(At(clock, es, k)) && (k == 0 ==> At(clock, es, k) == Boot(clock))
  {
    hide Inv, Boot;
    RunKeeps(clock, es[..k]);
  }

  lemma MissedIs(clock: nat, es: seq<Event>, j: nat)
    requires j < |es| && Missed(clock, es, j)
    ensures var s, r := At(clock, es, j), At(clock, es, j + 1);
      && Inv(r) && r.bridge.Lost? && (if es[j].DoDrop? then r.timer == s.timer else !r.timer.armed)
      && (if es[j].DoDrop? || es[j].DoGuard? then r.seg == s.seg && r.brake == s.brake else !r.seg.on && !r.brake.on)
  {
    hide Inv, At, RunsDisable, ReadsBack, Dated;
    Stepped(clock, es, j);
  }

  lemma NotMissedIs(clock: nat, es: seq<Event>, j: nat)
    requires j < |es| && !Missed(clock, es, j)
    ensures var s, r := At(clock, es, j), At(clock, es, j + 1);
      r.bridge.Lost? ==>
        s.bridge.Lost? && r.timer.armed == s.timer.armed && r.seg.on == s.seg.on && r.brake.on == s.brake.on
  {
    hide Inv, At, RunsDisable, ReadsBack, Dated;
    Stepped(clock, es, j);
  }

  lemma {:induction false} StillArmed(clock: nat, es: seq<Event>, k: nat)
    requires k <= |es|
    requires forall j: nat :: j < |es| && Missed(clock, es, j) ==> es[j].DoDrop? && At(clock, es, j).timer.armed
    ensures At(clock, es, k).bridge.Lost? ==> At(clock, es, k).timer.armed
  {
    hide Inv, At, Missed;
    if k == 0 {
      AtIsSafe(clock, es, k);
    } else {
      StillArmed(clock, es, k - 1);
      if Missed(clock, es, k - 1) { MissedIs(clock, es, k - 1); } else { NotMissedIs(clock, es, k - 1); }
    }
  }

  // ---------------------------------------------------------------- the account

  /** All the time in which the bridge was not known to be OFF is charged. */
  predicate Charged(s: State) {
    s.ledger.lit <= 1000 * SnapshotEnergized(s)
  }

  /** The account of a running segment or BRAKE stays open across the event. */
  predicate KeepsAccount(s: State, e: Event) {
    (e.DoDrop? || e.DoGuard?) && Occupied(s)
  }

  /** In every run, and for as long after any of its moments as no further event comes, all time in which the
      bridge is not known to be OFF is charged, exactly when each missed disable kept an account open. */
  lemma LedgerIsConserved(clock: nat, es: seq<Event>)
    ensures
      (forall k: nat, us: nat :: k <= |es| ==> Charged(Pass(At(clock, es, k), us))) <==>
      (forall j: nat :: j < |es| && Missed(clock, es, j) ==> KeepsAccount(At(clock, es, j), es[j]))
  {
    hide Inv, At, Missed, ReadsBack, Charged, Pass;
    if forall k: nat, us: nat :: k <= |es| ==> Charged(Pass(At(clock, es, k), us)) {
      forall j: nat | j < |es| && Missed(clock, es, j) ensures KeepsAccount(At(clock, es, j), es[j]) {
        MissedIs(clock, es, j);
        if !KeepsAccount(At(clock, es, j), es[j]) { UnwatchedEscapes(At(clock, es, j + 1)); }
      }
    }
    if forall j: nat :: j < |es| && Missed(clock, es, j) ==> KeepsAccount(At(clock, es, j), es[j]) {
      forall k: nat, us: nat | k <= |es| ensures Charged(Pass(At(clock, es, k), us)) {
        StillWatched(clock, es, k);
        WatchedIsCharged(At(clock, es, k), us);
      }
    }
  }

  /** Output unknown with no account open: wait long enough and some of it goes uncharged. */
  lemma UnwatchedEscapes(s: State)
    requires Unwatched(s)
    ensures exists us: nat :: !Charged(Pass(s, us))
  {
    var owed := 1000 * SnapshotEnergized(s) - s.ledger.lit + 1;
    var us := if owed > 0 then owed else 0;
    assert !Charged(Pass(s, us));
  }

  lemma WatchedIsCharged(s: State, us: nat)
    requires Inv(s) && !Unwatched(s) && s.ledger.blind == 0
    ensures Charged(Pass(s, us))
  {
    hide ModeOf, Authority, Reserved, OwnerAgrees, Cooling;
    PassKeeps(s, us);
  }

  lemma {:induction false} StillWatched(clock: nat, es: seq<Event>, k: nat)
    requires k <= |es|
    requires forall j: nat :: j < |es| && Missed(clock, es, j) ==> KeepsAccount(At(clock, es, j), es[j])
    ensures var s := At(clock, es, k); Inv(s) && !Unwatched(s) && s.ledger.blind == 0
  {
    hide Inv, At, Missed, Step;
    AtIsSafe(clock, es, k);
    if k > 0 {
      StillWatched(clock, es, k - 1);
      Stepped(clock, es, k - 1);
      StepIsWatched(At(clock, es, k - 1), es[k - 1]);
      if Missed(clock, es, k - 1) { MissedIs(clock, es, k - 1); } else { NotMissedIs(clock, es, k - 1); }
    }
  }

  lemma StepIsWatched(s: State, e: Event)
    requires s.ledger.blind == 0 && !Unwatched(s)
    ensures Step(s, e).ledger.blind == 0
  {
    hide StartSegment;
    if e.DoStart? {
      OutputAuthority.StartIsPlanned(s, e.token, e.r, e.sequence, e.age, e.env);
    } else if !e.DoPass? {
      OutputAuthority.OthersAreTame(s, e);
    }
  }

  /** A STOP that does not read back, with a pulse running: the cutoff is cancelled, the account closed,
      and whatever the output still does from there on is neither cut off nor charged. */
  lemma MissedStopEscapes(us: nat)
    ensures var s := Pass(Step(OnePulse(0), DoDisable(false)), us);
      && s.bridge.Lost? && !s.timer.armed && Unwatched(s)
      && SnapshotEnergized(s) == 1 && s.ledger.lit == us
      && (us > 1000 ==> !Charged(s))
  {
    hide OnePulse;
    OnePulseIs(0);
  }

  // ---------------------------------------------------------------- the rest

  /** The first moment of the unbroken stretch in which OFF has been verified under its present date. */
  function VerifiedSince(clock: nat, es: seq<Event>): (v: nat)
    ensures v <= |es|
  {
    if |es| == 0 then 0 else
    var was, s := Run(Boot(clock), es[..|es| - 1]), Run(Boot(clock), es);
    if was.cool.offVerified && was.cool.offAt == s.cool.offAt then VerifiedSince(clock, es[..|es| - 1]) else |es|
  }

  /** OFF was verified in the stretch's first event or before it, and not lit since. */
  lemma {:induction false} VerifiedStretch(clock: nat, es: seq<Event>)
    requires Run(Boot(clock), es).cool.offVerified
    ensures var v, s := VerifiedSince(clock, es), Run(Boot(clock), es);
      && At(clock, es, v).bridge.Off?
      && (v > 0 ==> Now(At(clock, es, v - 1)) <= s.cool.offAt)
      && (forall k: nat :: v <= k <= |es| ==> !Lit(At(clock, es, k).bridge))
  {
    hide Inv, Step, Boot, RunsDisable;
    assert es[..|es|] == es;
    if |es| == 0 {
      BootIsOff(clock);
    } else {
      var n := |es| - 1;
      var v := VerifiedSince(clock, es);
      Stepped(clock, es, n);
      var was, s := At(clock, es, n), At(clock, es, |es|);
      StepKeeps(was, es[n]);
      VerifiedIsDark(s);
      if v < |es| {
        VerifiedStretch(clock, es[..n]);
        forall k: nat | v <= k <= |es| ensures !Lit(At(clock, es, k).bridge) {
          if k < |es| { Prefix(clock, es, n, k); }
        }
        Prefix(clock, es, n, v);
        if v > 0 { Prefix(clock, es, n, v - 1); }
      }
    }
  }

  lemma BootIsOff(clock: nat)
    ensures Boot(clock).bridge.Off?
  {
  }

  lemma VerifiedIsDark(s: State)
    requires Inv(s) && s.cool.offVerified
    ensures !Lit(s.bridge)
  {
  }

  /** A moment less than FULL_REST_MS before an epoch ends lies in the stretch in which OFF was verified. */
  lemma RestIsVerified(clock: nat, es: seq<Event>, e: Event, k: nat)
    requires k <= |es| && Step(Run(Boot(clock), es), e).ledger.epoch != Run(Boot(clock), es).ledger.epoch
    ensures Run(Boot(clock), es).cool.offVerified
    ensures Now(Run(Boot(clock), es)) - Run(Boot(clock), es).cool.offAt >= FULL_REST_MS
    ensures k < VerifiedSince(clock, es) ==> Now(Run(Boot(clock), es)) - Now(At(clock, es, k)) >= FULL_REST_MS
  {
    hide Inv, Step, Boot;
    RunKeeps(clock, es);
    StepKeeps(Run(Boot(clock), es), e);
    VerifiedStretch(clock, es);
    var v := VerifiedSince(clock, es);
    if k < v { TimeRuns(clock, es, k, v - 1); }
  }

  lemma {:induction false} TimeRuns(clock: nat, es: seq<Event>, k: nat, m: nat)
    requires k <= m <= |es|
    ensures At(clock, es, k).clock <= At(clock, es, m).clock
  {
    hide Inv, Step, At, Answered;
    if k < m {
      TimeRuns(clock, es, k, m - 1);
      Stepped(clock, es, m - 1);
      StepKeeps(At(clock, es, m - 1), es[m - 1]);
    }
  }

  /** When an epoch ends, the bridge has been OFF at every moment of the FULL_REST_MS before, exactly when
      no event since OFF was verified ran a disable that did not read back. */
  lemma RestIsOffExactly(clock: nat, es: seq<Event>, e: Event)
    requires Step(Run(Boot(clock), es), e).ledger.epoch != Run(Boot(clock), es).ledger.epoch
    ensures Now(Run(Boot(clock), es)) - Run(Boot(clock), es).cool.offAt >= FULL_REST_MS
    ensures var v := VerifiedSince(clock, es);
      && (forall k: nat :: k < v ==> Now(Run(Boot(clock), es)) - Now(At(clock, es, k)) >= FULL_REST_MS)
      && ((forall k: nat :: v <= k <= |es| ==> At(clock, es, k).bridge.Off?) <==>
          (forall j: nat :: v <= j < |es| ==> !Missed(clock, es, j)))
  {
    hide Inv, Step, At, Missed, Boot;
    var v := VerifiedSince(clock, es);
    forall k: nat | k < v ensures Now(Run(Boot(clock), es)) - Now(At(clock, es, k)) >= FULL_REST_MS {
      RestIsVerified(clock, es, e, k);
    }
    RestIsVerified(clock, es, e, 0);
    VerifiedStretch(clock, es);
    if forall k: nat :: v <= k <= |es| ==> At(clock, es, k).bridge.Off? {
      forall j: nat | v <= j < |es| ensures !Missed(clock, es, j) {
        assert At(clock, es, j + 1).bridge.Off?;
        if Missed(clock, es, j) { MissedIs(clock, es, j); }
      }
    }
    if forall j: nat :: v <= j < |es| ==> !Missed(clock, es, j) {
      forall k: nat | v <= k <= |es| ensures At(clock, es, k).bridge.Off? {
        StillKnown(clock, es, v, k);
      }
    }
  }

  lemma {:induction false} StillKnown(clock: nat, es: seq<Event>, v: nat, k: nat)
    requires v <= k <= |es| && !At(clock, es, v).bridge.Lost?
    requires forall j: nat :: v <= j < |es| ==> !Missed(clock, es, j)
    ensures !At(clock, es, k).bridge.Lost?
  {
    hide At, Missed;
    if v < k {
      StillKnown(clock, es, v, k - 1);
      NotMissedIs(clock, es, k - 1);
    }
  }

  /** When an epoch ends, no moment of the FULL_REST_MS before found the bridge anything but OFF, provided
      no disable missed since OFF was verified. */
  lemma EpochNeedsRest(clock: nat, es: seq<Event>, e: Event, k: nat)
    requires k <= |es| && !At(clock, es, k).bridge.Off?
    requires Step(Run(Boot(clock), es), e).ledger.epoch != Run(Boot(clock), es).ledger.epoch
    requires forall j: nat :: VerifiedSince(clock, es) <= j < |es| ==> !Missed(clock, es, j)
    ensures Now(Run(Boot(clock), es)) - Now(At(clock, es, k)) >= FULL_REST_MS
  {
    hide Inv, Step, Boot, At, Missed;
    RestIsOffExactly(clock, es, e);
  }
}
