/** One owner sees at most one new exposure epoch: a rest can complete only before its first segment, and
    leaves nothing reserved that a second one could clear. */
module OneRest {
  import opened MachineWord
  import opened Admission
  import opened ExecutorSpec
  import opened ExecutorSafety
  import opened ExecutorTheorems
  import opened MissedDisable
  import OutputAuthority

  /** No further rest can complete under this owner. */
  predicate Settled(s: State) {
    s.owner.haveSequence || s.ledger.reserved == 0
  }

  /** While it stays open, an owner keeps its token, is never forgotten to have been admitted, and has
      nothing reserved for it without an admission. */
  predicate Stays(s: State, r: State) {
    r.owner.open ==>
      && s.owner.open && r.owner.token == s.owner.token
      && (s.owner.haveSequence ==> r.owner.haveSequence)
      && (Settled(s) ==> Settled(r)) && (r.ledger.epoch != s.ledger.epoch ==> Settled(r))
  }

  lemma FailedIsClosed()
    ensures forall m: State, reason: Reason, offOk: bool :: !FailOff(m, reason, offOk).owner.open
    ensures forall m: State, e: TimerEvent, offOk: bool :: !e.Normal? ==> !ShutDown(m, e, offOk).owner.open
  {
  }

  lemma FinishStays(s: State, reason: Reason, f: Finish, env: Env)
    requires s.owner.haveSequence
    ensures var o := FinishPulse(s, reason, f, env.offOk); o.ok ==> Stays(s, o.s)
    ensures var o := FinishApproach(s, reason, env); o.ok ==> Stays(s, o.s)
  {
    hide RenewLease, Handoff;
    var b := FinishBegin(s, env.finish, env.offOk);
    OutputAuthority.RenewIsTame(b.s, b.s.seg.rxDeadline - Now(b.s), env.nested, env.offOk);
  }

  lemma AdmittedStays(s: State, r: Request, sequence: U64, received: int, env: Env)
    ensures var a := Admit(s, r, sequence, received, env);
      a.s.owner.open ==> a.s.owner.haveSequence && s.owner.open && a.s.owner.token == s.owner.token
  {
    hide FailOff, ShutDown, LeavePrevious, ArmSegment, Committed;
    FailedIsClosed();
    forall b: State ensures var o := Committed(b, env.nested, env.offOk); o.ok ==> o.s == b.(timer := o.s.timer) {
      OutputAuthority.CommittedIsTame(b, env.nested, env.offOk);
    }
    forall b: State, fromOff: bool ensures var o := ArmSegment(b, r, fromOff, env); o.ok ==> o.s.owner == b.owner {
      ArmedOwner(b, r, fromOff, env);
    }
    LeftOwner(s);
  }

  lemma ArmedOwner(s: State, r: Request, fromOff: bool, env: Env)
    ensures var o := ArmSegment(s, r, fromOff, env); o.ok ==> o.s.owner == s.owner
  {
    hide Irq;
  }

  lemma LeftOwner(s: State)
    ensures var p := LeavePrevious(s);
      p.owner.open ==> s.owner.open && p.owner.token == s.owner.token
  {
  }

  lemma RestStays(s: State)
    ensures Stays(s, RefreshRest(s)) && RefreshRest(s).owner.open == s.owner.open
  {
  }

  lemma StartStays(s: State, token: U32, r: Request, sequence: U64, received: int, env: Env)
    ensures Stays(s, StartSegment(s, token, r, sequence, received, env).s)
  {
    hide FailOff, StartReady, StartAdmitted, Healthy, RefreshRest, Admit, StartRefused;
    FailedIsClosed();
    RestStays(s);
    var m := RefreshRest(s);
    OutputAuthority.ReadyIsTame(m, env);
    AdmittedStays(StartReady(m, env).s, r, sequence, received, env);
  }

  lemma EndStays(s: State, token: U32, env: Env)
    requires Inv(s)
    ensures Stays(s, EndSegment(s, token, env).s)
  {
    hide Core, FailOff, Committed, FinishPulse, FinishApproach;
    FailedIsClosed();
    var o := Committed(s, env.nested, env.offOk);
    OutputAuthority.CommittedIsTame(s, env.nested, env.offOk);
    if s.seg.on {
      OccupiedPresses(s);
      WasAdmitted(s);
      if o.ok { FinishStays(o.s, EndedReduced, env.finish, env); }
    }
  }

  /** An open owner has been admitted exactly while something of its own is on. */
  lemma WasAdmitted(s: State)
    requires Inv(s) && s.owner.open
    ensures s.owner.haveSequence <==> Occupied(s)
  {
    hide Reserved, Accounted, Running, Holding, Cooling;
  }

  lemma IrqStays(s: State, f: Finish, env: Env)
    requires Inv(s) && s.timer.irq
    ensures Stays(s, Irq(s, f, env.offOk))
  {
    hide Core, FinishPulse, ShutDown;
    FailedIsClosed();
    var t := s.timer.(acked := true);
    if s.seg.on {
      OccupiedPresses(s);
      WasAdmitted(s);
      FinishStays(s.(timer := t), EndedNormal, f, env);
    }
  }

  lemma PostStays(s: State, token: U32, request: U32, sequence: U64, received: int, env: Env)
    requires Inv(s)
    ensures Stays(s, AcceptPost(s, token, request, sequence, received, env).s)
  {
    hide Core, Irq, Healthy;
    if s.owner.open && s.after.post {
      CoreOf(s);
      PostNeedsBrake(s);
      IrqKeeps(s, env.nested, env.offOk);
    }
  }

  lemma CallStays(s: State, e: Event)
    requires Inv(s) && (e.DoRefresh? || e.DoDisable? || e.DoService? || e.DoGuard?)
    ensures Stays(s, Step(s, e))
  {
    hide Core, FailOff, RenewLease, RequestValid, RecordOff;
    FailedIsClosed();
    match e
    case DoRefresh(token, sequence, age, env) =>
      var deadline := if s.seg.on then Least(Now(s) - age + LEASE_MS, s.seg.deadline) else Now(s) - age + LEASE_MS;
      OutputAuthority.RenewIsTame(s, deadline - Now(s), env.nested, env.offOk);
    case DoDisable(offOk) => OutputAuthority.OffCloses(DisableBridge(s, offOk), EndedStop);
    case DoService(offOk) =>
      OutputAuthority.OffCloses(DisableBridge(StopTimerAndBridge(s, offOk), offOk), EndedDeadline);
      if s.latch.Latched? {
        ClosedIsDead(s);
        OutputAuthority.OffCloses(DisableBridge(s.(latch := Clear), offOk), EndedDeadline);
      }
    case _ =>
  }

  lemma StepStays(s: State, e: Event)
    requires Inv(s) && s.owner.open
    ensures Stays(s, Step(s, e))
  {
    hide Inv, Irq, StartSegment, EndSegment, AcceptPost, Refresh, Disable, Service, Guard, RefreshRest;
    match e
    case DoIrq(f, offOk) => if s.timer.irq { IrqStays(s, f, WORKING.(offOk := offOk)); }
    case DoStart(token, r, sequence, age, env) => StartStays(s, token, r, sequence, Now(s) - age, env);
    case DoEnd(token, env) => EndStays(s, token, env);
    case DoPost(token, request, sequence, age, env) => PostStays(s, token, request, sequence, Now(s) - age, env);
    case DoSnapshot => RestStays(s);
    case DoBegin(_) => RestStays(s);
    case DoPass(_) =>
    case DoDrop(_) =>
    case DoOverrun =>
    case _ => CallStays(s, e);
  }

  /** Under a settled owner no epoch ends. */
  lemma SettledKeepsEpoch(s: State, e: Event)
    requires Inv(s) && s.owner.open && Settled(s)
    ensures Step(s, e).ledger.epoch == s.ledger.epoch
  {
    hide Core, Step;
    StepKeeps(s, e);
    CoreOf(s);
    WasAdmitted(s);
    OpenIsRested(s);
  }

  lemma OpenIsRested(s: State)
    requires Core(s) && s.owner.open
    ensures !s.cool.rest
  {
  }

  /** The call that opens an owner may itself complete a rest; then nothing is reserved. */
  lemma BegunIsSettled(s: State, e: Event)
    requires Inv(s) && !s.owner.open && Step(s, e).owner.open
    ensures Step(s, e).ledger.epoch != s.ledger.epoch ==> Settled(Step(s, e))
  {
  }

  /** The owner begun by the event at `b` is open at every moment up to the one at `k`. */
  predicate Owned(clock: nat, es: seq<Event>, b: nat, k: nat) {
    b < k <= |es| && !At(clock, es, b).owner.open && forall n: nat :: b < n <= k ==> At(clock, es, n).owner.open
  }

  lemma {:induction false} ChangedIsSettled(clock: nat, es: seq<Event>, b: nat, k: nat)
    requires Owned(clock, es, b, k)
    ensures At(clock, es, k).ledger.epoch != At(clock, es, b).ledger.epoch ==> Settled(At(clock, es, k))
  {
    hide Inv, Step, At, Answered, Settled;
    Stepped(clock, es, k - 1);
    if k == b + 1 {
      BegunIsSettled(At(clock, es, b), es[b]);
    } else {
      ChangedIsSettled(clock, es, b, k - 1);
      StepStays(At(clock, es, k - 1), es[k - 1]);
    }
  }

  /** While one owner is open, the exposure epoch changes once at most, the call that opens it included. */
  lemma {:induction false} OneRestPerOwner(clock: nat, es: seq<Event>, b: nat, n: nat, m: nat)
    requires Owned(clock, es, b, m) && b < n <= m
    requires At(clock, es, n).ledger.epoch != At(clock, es, b).ledger.epoch
    ensures At(clock, es, m).ledger.epoch == At(clock, es, n).ledger.epoch
  {
    hide Inv, Step, At, Answered, Settled;
    if n < m {
      OneRestPerOwner(clock, es, b, n, m - 1);
      ChangedIsSettled(clock, es, b, m - 1);
      Stepped(clock, es, m - 1);
      SettledKeepsEpoch(At(clock, es, m - 1), es[m - 1]);
    }
  }
}
