/** What every reachable state of the executor keeps. `Mode` reads an owner's log on
    its own and rejects any run out of order; `Owed` reads the exposures on its own. */
module ExecutorSafety {
  import opened MachineWord
  import opened Admission
  import opened ExecutorSpec

  // ---------------------------------------------------------------- reading the log

  datatype Mode =
    | Fresh(rested: bool)
    | Approaching(sequence: U64, at: int, hard: int, settle: nat)
    | Pulsing(sequence: U64, at: int, hard: int, settle: nat)
    | Waiting(sequence: U64, settle: nat, ended: int, posted: bool)   // in BRAKE
    | Over
    | Illegal

  /** The only orders of events an owner may live through. */
  function Next(m: Mode, i: Item): Mode {
    match i
    case Admitted(pulse, q, _, at, hard, settle) => (
      match m
      case Fresh(_) => if pulse then Pulsing(q, at, hard, settle) else Approaching(q, at, hard, settle)
      case Approaching(p, _, _, _) => if pulse && After(q, p) then Pulsing(q, at, hard, settle) else Illegal
      case Waiting(p, pause, ended, posted) =>
        if pulse && posted && After(q, p) && at - ended >= pause then Pulsing(q, at, hard, settle) else Illegal
      case _ => Illegal)
    case HandedOver(at, charged) => (
      match m
      case Approaching(p, from, hard, settle) =>
        if charged == at - from + 1 && 1 <= charged <= hard then Waiting(p, settle, at, false) else Illegal
      case Pulsing(p, from, hard, settle) =>
        if charged == at - from + 1 && 1 <= charged <= hard then Waiting(p, settle, at, false) else Illegal
      case _ => Illegal)
    case Posted(q, received) => (
      match m
      case Waiting(p, pause, ended, false) =>
        if After(q, p) && received >= ended then Waiting(p, pause, ended, true) else Illegal
      case _ => Illegal)
    case Renewed(_, _) => if m.Approaching? || m.Waiting? then m else Illegal
    case Rested => if m == Fresh(false) then Fresh(true) else Illegal
    case Closed => if m.Over? || m.Illegal? then Illegal else Over
  }

  function ModeOf(log: seq<Item>): Mode {
    if |log| == 0 then Fresh(false) else Next(ModeOf(log[..|log| - 1]), log[|log| - 1])
  }

  /** Receive tick of the frame that last authorised or renewed output. */
  function Authority(log: seq<Item>): int {
    if |log| == 0 then 0 else
    match log[|log| - 1]
    case Admitted(_, _, received, _, _, _) => received
    case Renewed(_, received) => received
    case _ => Authority(log[..|log| - 1])
  }

  lemma Appended(log: seq<Item>, i: Item)
    ensures ModeOf(log + [i]) == Next(ModeOf(log), i)
    ensures i.Admitted? || i.Renewed? ==> Authority(log + [i]) == i.received
    ensures !i.Admitted? && !i.Renewed? ==> Authority(log + [i]) == Authority(log)
  {
    assert (log + [i])[..|log|] == log;
  }

  // ---------------------------------------------------------------- reading the exposures

  function Max(a: int, b: int): int {
    if a < b then b else a
  }

  /** Exposure owed by the admitted segments: never less than what was reserved or used. */
  function Owed(es: seq<Exposure>): int {
    if |es| == 0 then 0 else Owed(es[..|es| - 1]) + Max(es[|es| - 1].hard, es[|es| - 1].charged)
  }

  function Approaches(es: seq<Exposure>): nat {
    if |es| == 0 then 0 else Approaches(es[..|es| - 1]) + (if es[|es| - 1].approach then 1 else 0)
  }

  lemma ExposureAdded(es: seq<Exposure>, e: Exposure)
    ensures Owed(es + [e]) == Owed(es) + Max(e.hard, e.charged)
    ensures Approaches(es + [e]) == Approaches(es) + (if e.approach then 1 else 0)
  {
    assert (es + [e])[..|es|] == es;
  }

  // ---------------------------------------------------------------- the invariant

  /** The flags are what the owner's log says they are. */
  predicate OwnerAgrees(o: Owner, seg: Seg, brake: BrakeRun, after: Aftermath, active: bool, reserved: int) {
    var m := ModeOf(o.log);
    if !o.open then !m.Illegal?
    else match m
      case Fresh(rested) =>
        !seg.on && !brake.on && !active && !o.haveSequence && !after.post && (rested ==> reserved == 0)
      case Approaching(q, at, hard, settle) =>
        && seg.on && seg.kind.Approach? && o.used == q && o.haveSequence && seg.started == at && seg.hard == hard
        && seg.settle == settle && !after.post
      case Pulsing(q, at, hard, settle) =>
        && seg.on && seg.kind.Pulse? && o.used == q && o.haveSequence && seg.started == at && seg.hard == hard
        && seg.settle == settle && !after.post
      case Waiting(q, settle, ended, posted) =>
        && brake.on && !seg.on && o.used == q && o.haveSequence && seg.settle == settle && after.ended == ended
        && after.post == !posted
      case _ => false
  }

  /** No reservation is refunded, and an epoch holds at most one approach, reserved in full. */
  predicate Reserved(l: Ledger) {
    && Owed(l.exposures) <= l.reserved
    && Approaches(l.exposures) <= 1
    && (forall i :: 0 <= i < |l.exposures| && l.exposures[i].approach ==> l.exposures[i].hard == APPROACH_TOTAL_MS)
    && l.approachCommand == APPROACH_COMMAND_MS * Approaches(l.exposures)
    && l.approachReserved >= APPROACH_TOTAL_MS * Approaches(l.exposures)
    && (Approaches(l.exposures) == 0 ==> l.approachReserved == 0)
  }

  /** No microsecond of driving or braking escapes the exposure count. */
  predicate Accounted(clock: int, l: Ledger, seg: Seg, brake: BrakeRun) {
    l.lit <= 1000 * l.energized + l.blind +
      (if seg.on then clock - 1000 * seg.started else if brake.on then clock - 1000 * brake.started else 0)
  }

  /** A running segment has its own exposure on top and, for a pulse, both deadlines in order. */
  predicate Running(clock: int, seg: Seg, es: seq<Exposure>, authority: int) {
    seg.on ==>
      && !seg.kind.Unused? && 3 <= seg.hard
      && seg.started <= Ms(clock) && seg.deadline == seg.started + seg.hard
      && seg.rxDeadline <= authority + LEASE_MS
      && |es| > 0 && es[|es| - 1] == Exposure(seg.kind.Approach?, seg.hard, 0)
      && (seg.kind.Pulse? ==> seg.deadline < seg.rxDeadline <= seg.started + LEASE_MS)
  }

  predicate Holding(clock: int, brake: BrakeRun, seg: Seg, after: Aftermath, authority: int) {
    brake.on ==>
      && brake.started == after.ended <= Ms(clock) && brake.deadline == seg.rxDeadline
      && seg.rxDeadline <= authority + LEASE_MS && Soft(after.reason)
  }

  predicate Cooling(clock: int, c: Cool, bridge: Bridge) {
    c.darkSince <= clock && (c.offVerified ==> !Lit(bridge) && Ms(c.darkSince) <= c.offAt <= Ms(clock))
  }

  predicate Exclusive(s: State) {
    && !(s.seg.on && s.brake.on)
    && (s.seg.on || s.brake.on ==> s.owner.open && s.motor.active && s.motor.press && !s.motor.action.Disabled?)
    && (s.owner.open ==> !s.cool.rest)
    && (Lit(s.bridge) ==> s.seg.on || s.brake.on)
  }

  /** Holds between calls and at every point inside one where a timer event can be met. */
  predicate Core(s: State) {
    && OwnerAgrees(s.owner, s.seg, s.brake, s.after, s.motor.active, s.ledger.reserved)
    && Reserved(s.ledger) && Accounted(s.clock, s.ledger, s.seg, s.brake)
    && Running(s.clock, s.seg, s.ledger.exposures, Authority(s.owner.log))
    && Holding(s.clock, s.brake, s.seg, s.after, Authority(s.owner.log))
    && Cooling(s.clock, s.cool, s.bridge) && Exclusive(s)
  }

  /** An armed cutoff that interrupts no later than the receive deadline in force. */
  predicate CutoffInForce(t: Timer, seg: Seg) {
    && t.armed && t.healthy && t.irq && !t.acked
    && Cutoff(t) <= 1000 * seg.rxDeadline
    && (t.oneShot <==> seg.on && seg.kind.Pulse?)
    && (t.oneShot ==> t.compareAt + 1000 <= t.overflowAt < 1000 * (seg.deadline + 1))
  }

  /** Holds between calls only. */
  predicate Output(s: State) {
    && (s.bridge.Drive? ==> s.seg.on)
    && (s.bridge.Brake? ==> s.brake.on)
    && (s.latch.Latched? ==> !s.owner.open)
    && (Lit(s.bridge) ==> s.timer.armed && !s.cool.offVerified)
    && (s.timer.irq ==> s.timer.armed)
    && (s.timer.armed ==> (s.seg.on || s.brake.on) && CutoffInForce(s.timer, s.seg))
  }

  predicate Inv(s: State) {
    Core(s) && Output(s)
  }

  /** No charge is ever taken back. */
  predicate Grows(l: Ledger, m: Ledger) {
    && l.epoch == m.epoch && |l.exposures| <= |m.exposures|
    && l.reserved <= m.reserved && l.energized <= m.energized && l.lit <= m.lit && l.blind <= m.blind
    && l.approachReserved <= m.approachReserved && l.approachCommand <= m.approachCommand
  }

  /** Time goes forward, what was lit is still lit or has gone dark since, and OFF is dated anew or kept. */
  predicate Darkens(s: State, r: State) {
    && (r.cool.offVerified ==> r.cool.offAt >= Now(s) || (s.cool.offVerified && r.cool.offAt == s.cool.offAt))
    && s.clock <= r.clock && s.cool.darkSince <= r.cool.darkSince
    && (Lit(s.bridge) ==> Lit(r.bridge) || s.clock <= r.cool.darkSince)
  }

  predicate Onward(s: State, r: State) {
    Grows(s.ledger, r.ledger) && Darkens(s, r)
  }

  /** Where every failing path ends. */
  predicate Dead(s: State) {
    !s.owner.open && !Lit(s.bridge) && !s.seg.on && !s.brake.on && !s.timer.armed && !s.timer.irq
  }

  /** With the bridge and the timer down nothing more is asked of the output. */
  lemma DarkIsSafe(s: State)
    requires Core(s) && !Lit(s.bridge) && !s.timer.armed && !s.timer.irq
    requires s.latch.Latched? ==> !s.owner.open
    ensures Inv(s)
  {
    hide OwnerAgrees, Reserved, Accounted, Running, Holding, Cooling;
  }

  // ---------------------------------------------------------------- pieces of a call

  lemma TimerIsFree(s: State, t: Timer)
    requires Core(s)
    ensures Core(s.(timer := t))
  {
  }

  lemma PassKeeps(s: State, us: nat)
    requires Core(s)
    ensures Core(Pass(s, us)) && Onward(s, Pass(s, us))
  {
  }

  lemma DisableKeeps(s: State, offOk: bool)
    requires Core(s)
    ensures var d := DisableBridge(s, offOk);
      Core(d) && !Lit(d.bridge) && Onward(s, d) && d == s.(bridge := d.bridge, cool := d.cool)
  {
  }

  lemma ChargedLast(es: seq<Exposure>, elapsed: int)
    requires |es| > 0 && es[|es| - 1].charged == 0 && es[|es| - 1].hard >= 0
    ensures Owed(ChargeLast(es, elapsed)) == Owed(es) + Excess(elapsed, es[|es| - 1].hard)
    ensures Approaches(ChargeLast(es, elapsed)) == Approaches(es)
    ensures |ChargeLast(es, elapsed)| == |es|
    ensures forall i :: 0 <= i < |es| ==>
      ChargeLast(es, elapsed)[i].hard == es[i].hard && ChargeLast(es, elapsed)[i].approach == es[i].approach
  {
    var n := |es| - 1;
    ExposureAdded(es[..n], es[n]);
    ExposureAdded(es[..n], es[n].(charged := elapsed));
    assert es == es[..n] + [es[n]];
  }

  lemma ChargeKeepsReserved(l: Ledger, elapsed: int)
    requires Reserved(l) && |l.exposures| > 0
    requires l.exposures[|l.exposures| - 1].charged == 0 && l.exposures[|l.exposures| - 1].hard >= 0
    ensures var e := l.exposures[|l.exposures| - 1];
      Reserved(ChargeSegment(l, e.approach, e.hard, elapsed))
  {
    var n := |l.exposures| - 1;
    ChargedLast(l.exposures, elapsed);
    ExposureAdded(l.exposures[..n], l.exposures[n]);
    assert l.exposures == l.exposures[..n] + [l.exposures[n]];
  }

  lemma RevokedLog(o: Owner)
    requires o.open ==> !ModeOf(o.log).Over? && !ModeOf(o.log).Illegal?
    requires !o.open ==> !ModeOf(o.log).Illegal?
    ensures !ModeOf(Revoke(o).log).Illegal? && !Revoke(o).open && Authority(Revoke(o).log) == Authority(o.log)
  {
    Appended(o.log, Closed);
  }

  /** What remains of the invariant while a segment or BRAKE is being closed down. */
  predicate Closing(s: State) {
    && Reserved(s.ledger) && Accounted(s.clock, s.ledger, s.seg, s.brake)
    && Cooling(s.clock, s.cool, s.bridge)
    && !ModeOf(s.owner.log).Illegal? && (s.owner.open ==> !ModeOf(s.owner.log).Over?)
  }

  lemma PulseEndClosing(s: State, reason: Reason)
    requires Core(s)
    ensures Closing(RecordPulseEnd(s, Now(s), reason)) && Onward(s, RecordPulseEnd(s, Now(s), reason))
  {
    if s.seg.on {
      ChargeKeepsReserved(s.ledger, Now(s) - s.seg.started + 1);
    }
    RevokedLog(s.owner);
  }

  /** A failing path: everything that ran is charged, the owner is revoked, the rest clock may start. */
  lemma RecordOffCloses(s: State, reason: Reason)
    requires Core(s) && !Lit(s.bridge) && !Soft(reason)
    ensures var r := RecordOff(s, Now(s), reason);
      && Core(r) && !r.owner.open && !r.seg.on && !r.brake.on
      && Onward(s, r)
      && r.bridge == s.bridge && r.timer == s.timer && r.clock == s.clock && r.latch == s.latch && r.motor == s.motor
  {
    PulseEndClosing(s, reason);
    RevokedLog(RecordPulseEnd(s, Now(s), reason).owner);
  }

  /** Failing after energising was tried leaves nothing on, whatever the hardware answers. */
  lemma FailOffIsDead(s: State, reason: Reason, offOk: bool)
    requires Core(s) && !Soft(reason)
    ensures var r := FailOff(s, reason, offOk); Core(r) && Dead(r) && r.latch.Latched? && Onward(s, r)
  {
    DisableKeeps(s, offOk);
    RecordOffCloses(DisableBridge(s, offOk), reason);
  }

  lemma ShutDownIsDead(s: State, e: TimerEvent, offOk: bool)
    requires Core(s) && !e.Normal?
    ensures var r := ShutDown(s, e, offOk); Core(r) && Dead(r) && r.latch.Latched? && Onward(s, r)
  {
    DisableKeeps(s, offOk);
    RecordOffCloses(DisableBridge(s, offOk), EndedDeadline);
  }

  // ---------------------------------------------------------------- the hand-over

  /** Mid hand-over: BRAKE is on under the segment's own cutoff. */
  predicate Braked(s: State) {
    Core(s) && s.seg.on && s.bridge.Brake? && s.owner.open && s.latch.Clear? && !s.cool.offVerified
  }

  /** After it: BRAKE lives on a receive lease. */
  predicate Leasing(s: State) {
    && Core(s) && s.brake.on && s.bridge.Brake? && s.owner.open && s.latch.Clear? && !s.cool.offVerified
    && s.timer.armed && s.timer.healthy && !s.timer.oneShot && !s.timer.acked
    && Cutoff(s.timer) <= 1000 * s.seg.rxDeadline
  }

  lemma LeasingIsSafe(s: State)
    requires Leasing(s)
    ensures !s.seg.on && (s.timer.irq ==> Inv(s))
  {
  }

  lemma BeginKeeps(s: State, f: Finish, offOk: bool)
    requires Core(s)
    ensures var o := FinishBegin(s, f, offOk);
      Core(o.s) && Onward(s, o.s) && o.s.timer == s.timer && (o.ok ==> Braked(o.s) && o.s.seg == s.seg)
  {
    if !(!s.owner.open || !s.seg.on || s.latch.Latched? || !s.motor.press || DeadlinesPassed(s) ||
       !(s.bridge == Drive(s.motor.duty) && f.planOk)) {
      if f.brakeOk {
        PassKeeps(SetBridge(s, Brake), f.wait1);
      } else {
        DisableKeeps(s, offOk);
      }
    }
  }

  lemma CommitKeeps(s: State, reason: Reason, f: Finish)
    requires Braked(s) && Soft(reason)
    ensures var o := FinishCommit(s, reason, f);
      && Core(o.s) && Onward(s, o.s) && o.s.timer == s.timer && o.s.seg.rxDeadline == s.seg.rxDeadline
      && (o.ok ==> o.s.brake.on && o.s.bridge.Brake? && o.s.owner.open && o.s.latch.Clear? && !o.s.cool.offVerified)
  {
    hide ModeOf, Reserved;
    PassKeeps(s, f.wait2);
    var p := Pass(s, f.wait2);
    if !DeadlinesPassed(p) {
      ChargeKeepsReserved(p.ledger, Now(p) - p.seg.started + 1);
      Appended(p.owner.log, HandedOver(Now(p), Now(p) - p.seg.started + 1));
    }
  }

  lemma HandoffBound(t: Timer, clock: int, rxDeadline: int, gap: Brief)
    ensures var a := Handoff(t, clock, rxDeadline - Ms(clock), gap);
      a.ok ==> a.t.armed && a.t.healthy && !a.t.oneShot && !a.t.acked && a.t.irq == t.irq &&
               Cutoff(a.t) <= 1000 * rxDeadline
  {
  }

  lemma FinishPulseKeeps(s: State, reason: Reason, f: Finish, offOk: bool)
    requires Core(s) && Soft(reason)
    ensures var o := FinishPulse(s, reason, f, offOk);
      Core(o.s) && Onward(s, o.s) && (o.ok ==> Leasing(o.s) && o.s.timer.irq == s.timer.irq)
  {
    hide FinishBegin, FinishCommit, Core, Onward;
    BeginKeeps(s, f, offOk);
    var b := FinishBegin(s, f, offOk);
    if b.ok {
      HandoffBound(b.s.timer, b.s.clock, b.s.seg.rxDeadline, f.gap);
      var a := Handoff(b.s.timer, b.s.clock, b.s.seg.rxDeadline - Now(b.s), f.gap);
      var h := b.s.(timer := a.t);
      TimerIsFree(b.s, a.t);
      PassKeeps(h, f.gap);
      OnwardOnward(s, b.s, Pass(h, f.gap));
      if a.ok {
        CommitKeeps(Pass(h, f.gap), reason, f);
        OnwardOnward(s, Pass(h, f.gap), FinishCommit(Pass(h, f.gap), reason, f).s);
      }
    }
  }

  /** A timer event ends in OFF, or turns a pulse it met in time into BRAKE. */
  lemma ExpiredKeeps(s: State, e: TimerEvent, f: Finish, offOk: bool)
    requires Core(s) && (e.Normal? ==> s.seg.on || s.brake.on)
    ensures Onward(s, Expired(s, e, f, offOk))
    ensures var r := Expired(s, e, f, offOk);
      || (Core(r) && Dead(r) && r.latch.Latched?)
      || (e.Normal? && s.seg.on && s.seg.kind.Pulse? && Leasing(r) && r.timer.irq == s.timer.irq)
  {
    if e.Normal? && s.seg.on && s.motor.press && s.seg.kind.Pulse? {
      FinishPulseKeeps(s, EndedNormal, f, offOk);
      var o := FinishPulse(s, EndedNormal, f, offOk);
      if !o.ok {
        ShutDownIsDead(o.s, Error, offOk);
      }
    } else if s.brake.on || (s.seg.on && s.seg.kind.Approach?) {
      ShutDownIsDead(s, Backstop, offOk);
    } else {
      ShutDownIsDead(s, e, offOk);
    }
  }

  lemma IrqKeeps(s: State, f: Finish, offOk: bool)
    requires Core(s) && (s.seg.on || s.brake.on || !s.timer.armed)
    ensures Onward(s, Irq(s, f, offOk))
    ensures var r := Irq(s, f, offOk);
      || (Core(r) && Dead(r) && r.latch.Latched?)
      || (s.seg.on && s.seg.kind.Pulse? && Leasing(r) && r.timer.irq == s.timer.irq)
  {
    var e := Classify(s.timer, s.clock);
    var t := s.timer.(healthy := s.timer.healthy && !e.Error?,
                      acked := s.timer.acked || (e.Normal? && s.timer.oneShot));
    ExpiredKeeps(s.(timer := t), e, f, offOk);
  }

  // ---------------------------------------------------------------- timer checks inside a call

  predicate Occupied(s: State) {
    s.seg.on || s.brake.on
  }

  lemma CommittedKeeps(s: State, f: Finish, offOk: bool)
    requires Core(s) && Occupied(s)
    ensures var o := Committed(s, f, offOk);
      && Core(o.s) && Onward(s, o.s)
      && (o.ok ==> o.s == s.(timer := s.timer.(irq := true)) && s.timer.armed && s.timer.healthy &&
                   !Flagged(s.timer, s.clock) && s.owner.open && s.latch.Clear?)
  {
    hide Expired;
    if s.timer.armed && s.timer.healthy && Flagged(s.timer, s.clock) {
      IrqKeeps(s, f, offOk);
    } else {
      TimerIsFree(s, s.timer.(irq := true));
    }
  }

  /** A pending or passed compare is never renewed; a renewed one interrupts before the new deadline. */
  lemma RenewKeeps(s: State, deadline: int, f: Finish, offOk: bool)
    requires Core(s) && Occupied(s)
    ensures var o := RenewLease(s, deadline - Now(s), f, offOk);
      && Core(o.s) && Onward(s, o.s)
      && (o.ok ==>
          && o.s == s.(timer := o.s.timer) && s.owner.open && s.latch.Clear?
          && !Flagged(s.timer, s.clock) && s.clock < s.timer.compareAt
          && o.s.timer.armed && o.s.timer.healthy && o.s.timer.irq && !o.s.timer.acked
          && o.s.timer.oneShot == s.timer.oneShot && Cutoff(o.s.timer) <= 1000 * deadline)
  {
    hide Expired, Core, Committed;
    if !IsArmed(s.timer, s.clock) || !s.timer.healthy || !LeaseLength(deadline - Now(s)) {
    } else if Flagged(s.timer, s.clock) {
      IrqKeeps(s, f, offOk);
    } else if s.clock >= s.timer.compareAt {
      ExpiredKeeps(s, Normal, f, offOk);
      TimerIsFree(Expired(s, Normal, f, offOk), Cancel(Expired(s, Normal, f, offOk).timer));
    } else {
      var t := MoveLease(s.timer, s.clock, deadline - Now(s));
      TimerIsFree(s, t);
      CommittedKeeps(s.(timer := t), f, offOk);
    }
  }

  lemma FinishApproachKeeps(s: State, reason: Reason, env: Env)
    requires Core(s) && Soft(reason) && !s.timer.oneShot
    ensures var o := FinishApproach(s, reason, env);
      Core(o.s) && Onward(s, o.s) && (o.ok ==> Leasing(o.s) && o.s.timer.irq)
  {
    hide FinishBegin, FinishCommit, Core, RenewLease;
    BeginKeeps(s, env.finish, env.offOk);
    var b := FinishBegin(s, env.finish, env.offOk);
    if b.ok {
      RenewKeeps(b.s, b.s.seg.rxDeadline, env.nested, env.offOk);
      var n := RenewLease(b.s, b.s.seg.rxDeadline - Now(b.s), env.nested, env.offOk);
      if n.ok {
        CommitKeeps(n.s, reason, env.finish);
      }
    }
  }

  // ---------------------------------------------------------------- rest

  /** A new epoch, begun only after FULL_REST_MS dark and as long after OFF was verified. */
  predicate NewEpoch(s: State, r: State) {
    && !Occupied(s) && s.bridge.Off? && Now(s) - Ms(s.cool.darkSince) >= FULL_REST_MS
    && s.cool.offVerified && Now(s) - s.cool.offAt >= FULL_REST_MS && (s.cool.rest || s.ledger.reserved != 0)
    && Grows(Ledger(Plus(s.ledger.epoch, 1), 0, 0, 0, 0, 0, 0, []), r.ledger)
  }

  /** What a call leaves: the invariant, and no charge taken back unless a rest completed. */
  predicate Kept(s: State, r: State) {
    Inv(r) && Darkens(s, r) && (Grows(s.ledger, r.ledger) || NewEpoch(s, r))
  }

  /** Confirming OFF or completing a rest leaves a running owner alone. */
  lemma RestKeeps(s: State)
    requires Inv(s)
    ensures var r := RefreshRest(s);
      && Kept(s, r)
      && r == s.(cool := r.cool, ledger := r.ledger, owner := r.owner)
      && r.owner == s.owner.(log := r.owner.log)
      && (s.owner.open && s.motor.active ==> r.ledger == s.ledger && r.owner == s.owner)
  {
    hide Inv, RestDone, ConfirmOff;
    ConfirmKeeps(s);
    var c := ConfirmOff(s.cool, s.bridge, Now(s));
    if RestDone(s, c) { RestedKeeps(s); }
  }

  lemma ConfirmKeeps(s: State)
    requires Inv(s)
    ensures var r := s.(cool := ConfirmOff(s.cool, s.bridge, Now(s))); Inv(r) && Onward(s, r)
  {
    hide OwnerAgrees, Reserved, Accounted, Running, Holding, CutoffInForce;
  }

  lemma RestedKeeps(s: State)
    requires Inv(s) && RestDone(s, ConfirmOff(s.cool, s.bridge, Now(s)))
    ensures Inv(RefreshRest(s)) && Darkens(s, RefreshRest(s)) && NewEpoch(s, RefreshRest(s))
    ensures !(s.owner.open && s.motor.active)
  {
    hide CutoffInForce;
    Appended(s.owner.log, Rested);
    assert Owed([]) == 0 && Approaches([]) == 0;
  }

  lemma FailSafe(s: State, reason: Reason, offOk: bool)
    requires Core(s) && !Soft(reason)
    ensures var r := FailOff(s, reason, offOk); Inv(r) && Dead(r) && Onward(s, r)
  {
    hide Core, FailOff;
    FailOffIsDead(s, reason, offOk);
    DarkIsSafe(FailOff(s, reason, offOk));
  }

  lemma OnwardOnward(s: State, m: State, r: State)
    requires Onward(s, m) && Onward(m, r)
    ensures Onward(s, r)
  {
  }

  lemma FailSafeFrom(s: State, m: State, offOk: bool)
    requires Core(m) && Onward(s, m)
    ensures var r := FailOff(m, EndedHardware, offOk); Inv(r) && Onward(s, r)
  {
    hide Core, FailOff, Onward, Dead, Inv;
    FailSafe(m, EndedHardware, offOk);
    OnwardOnward(s, m, FailOff(m, EndedHardware, offOk));
  }

  // ---------------------------------------------------------------- starting a segment

  /** A cutoff fit for the segment about to run, its interrupt perhaps not yet enabled. */
  predicate ArmedFor(t: Timer, seg: Seg) {
    CutoffInForce(t.(irq := true), seg.(on := true))
  }

  /** What is lit is charged to the end of the running tick. */
  predicate Covered(s: State) {
    && !s.bridge.Lost?
    && (Lit(s.bridge) ==> s.ledger.lit + 1000 * (Now(s) + 1) - s.clock <= 1000 * s.ledger.energized + s.ledger.blind)
  }

  /** Nothing runs any more; what ran is charged. */
  predicate Between(s: State) {
    && Closing(s) && !Occupied(s) && s.owner.open && !s.cool.rest && !s.after.post && s.latch.Clear? && Covered(s)
  }

  lemma FailBetween(s: State, offOk: bool)
    requires Closing(s) && !Occupied(s)
    ensures var r := FailOff(s, EndedHardware, offOk); Inv(r) && Dead(r) && Onward(s, r)
  {
    hide ModeOf, Reserved;
    RevokedLog(s.owner);
  }

  lemma LeaveKeeps(s: State)
    requires Core(s) && !s.bridge.Lost? && s.owner.open && !s.after.post && s.latch.Clear?
    requires s.seg.on ==> s.seg.kind.Approach? && !DeadlinesPassed(s)
    ensures var p := LeavePrevious(s);
      && Between(p) && Onward(s, p)
      && p == s.(seg := p.seg, brake := p.brake, after := p.after, ledger := p.ledger)
      && p.seg == s.seg.(on := false)
  {
    hide ModeOf;
    if s.seg.on {
      ChargeKeepsReserved(s.ledger, Now(s) - s.seg.started + 1);
    }
  }

  /** The rest of the tick may pass unrecorded: the charge before it already covers it. */
  lemma WithinKeeps(s: State, gap: nat)
    requires Between(s)
    ensures var p := Pass(s, Within(s.clock, gap)); Between(p) && Onward(s, p) && Now(p) == Now(s)
    ensures !s.bridge.Lost?
  {
    hide ModeOf;
    SameTick(s.clock, gap);
  }

  lemma SameTick(clock: int, gap: nat)
    ensures Ms(clock + Within(clock, gap)) == Ms(clock)
  {
    assert clock == 1000 * Ms(clock) + clock % 1000;
  }

  predicate Sized(r: Request, hard: int, l: Ledger) {
    && (if r.phase == PHASE_APPROACH then 2 else 3) <= hard
    && (r.phase == PHASE_APPROACH ==> !ApproachExhausted(l) && hard == APPROACH_TOTAL_MS - l.approachReserved)
  }

  lemma ReserveKeeps(l: Ledger, approach: bool, hard: int)
    requires Reserved(l) && 0 <= hard
    requires approach ==> !ApproachExhausted(l) && hard == APPROACH_TOTAL_MS - l.approachReserved
    ensures Reserved(ReserveLedger(l, approach, hard))
    ensures approach ==> hard == APPROACH_TOTAL_MS
  {
    ExposureAdded(l.exposures, Exposure(approach, hard, 0));
  }

  lemma ReservedCloses(s: State, r: Request, hard: int, sequence: U64, received: int)
    requires Between(s) && Sized(r, hard, s.ledger)
    ensures var v := Reserve(s, r, hard, sequence, received); Closing(v) && !Occupied(v) && Onward(s, v)
  {
    hide ModeOf, Reserved;
    ReserveKeeps(s.ledger, r.phase == PHASE_APPROACH, hard);
  }

  function Admitting(s: State, r: Request, hard: int, sequence: U64, received: int): Item {
    Admitted(r.phase != PHASE_APPROACH, sequence, received, Now(s), hard, r.settleMs)
  }

  /** An admission the log allows puts the segment under the invariant. */
  lemma BegunKeeps(s: State, r: Request, hard: int, sequence: U64, received: int, t: Timer)
    requires Between(s) && Sized(r, hard, s.ledger)
    requires !Next(ModeOf(s.owner.log), Admitting(s, r, hard, sequence, received)).Illegal?
    requires r.phase != PHASE_APPROACH ==> hard < LEASE_MS - (Now(s) - received) && received <= Now(s)
    ensures var b := Begun(Reserve(s, r, hard, sequence, received).(timer := t), r, sequence, received);
      Core(b) && b.seg.on && b.owner.open && b.latch.Clear?
  {
    hide Reserved, ModeOf;
    Appended(s.owner.log, Admitting(s, r, hard, sequence, received));
    ReserveKeeps(s.ledger, r.phase == PHASE_APPROACH, hard);
  }

  predicate Ready(s: State, r: Request) {
    && !s.seg.on && s.seg.deadline == Now(s) + s.seg.hard && s.seg.kind == KindOf(r)
    && (r.phase != PHASE_APPROACH ==> s.seg.hard < s.seg.rxDeadline - Now(s))
  }

  /** How long setting a segment's cutoffs takes. */
  function ArmGap(s: State, r: Request, fromOff: bool, env: Env): nat {
    if r.phase == PHASE_APPROACH || fromOff then 0 else Within(s.clock, env.gap)
  }

  lemma ArmKeeps(s: State, r: Request, fromOff: bool, env: Env)
    ensures var o := ArmSegment(s, r, fromOff, env);
      && o.s == Pass(s.(timer := o.s.timer), ArmGap(s, r, fromOff, env))
      && (o.ok && Ready(s, r) ==> ArmedFor(o.s.timer, s.seg))
  {
    hide Irq;
  }

  lemma CommittedFrom(s: State, us: nat, f: Finish, offOk: bool)
    requires Core(s) && s.seg.on
    ensures var p := Pass(s, us);
      var o := Committed(p, f, offOk);
      && Core(o.s) && Onward(s, o.s)
      && (o.ok ==>
        o.s == p.(timer := p.timer.(irq := true)) && p.timer.armed && p.timer.healthy && p.owner.open && p.latch.Clear?)
  {
    hide Core, Committed, Onward;
    PassKeeps(s, us);
    CommittedKeeps(Pass(s, us), f, offOk);
    OnwardOnward(s, Pass(s, us), Committed(Pass(s, us), f, offOk).s);
  }

  /** Drive is verified under a committed cutoff, or everything is off. */
  lemma EnergiseKeeps(s: State, env: Env)
    requires Core(s) && s.seg.on && ArmedFor(s.timer, s.seg)
    ensures Inv(Energise(s, env).s) && Onward(s, Energise(s, env).s)
  {
    hide Core, FailOff, Committed, Onward;
    CommittedFrom(s, env.wait1, env.nested, env.offOk);
    var o := Committed(Pass(s, env.wait1), env.nested, env.offOk);
    FailSafeFrom(s, o.s, env.offOk);
    if o.ok {
      var d := o.s.(cool := o.s.cool.(offVerified := false));
      UnverifiedKeeps(o.s);
      OnwardOnward(s, o.s, d);
      if !env.applyOk {
        DisableKeeps(d, env.offOk);
        OnwardOnward(s, d, DisableBridge(d, env.offOk));
        FailSafeFrom(s, DisableBridge(d, env.offOk), env.offOk);
      } else {
        var b := SetBridge(d, Drive(d.motor.duty));
        DriveKeeps(d, d.motor.duty);
        OnwardOnward(s, d, b);
        CommittedFrom(b, env.wait2, env.nested, env.offOk);
        var n := Committed(Pass(b, env.wait2), env.nested, env.offOk);
        OnwardOnward(s, b, n.s);
        FailSafeFrom(s, n.s, env.offOk);
      }
    }
  }

  lemma UnverifiedKeeps(s: State)
    requires Core(s)
    ensures var d := s.(cool := s.cool.(offVerified := false)); Core(d) && Onward(s, d)
  {
    hide OwnerAgrees, Reserved, Accounted, Running, Holding;
  }

  lemma DriveKeeps(s: State, duty: nat)
    requires Core(s) && s.seg.on && !s.cool.offVerified
    ensures var d := SetBridge(s, Drive(duty)); Core(d) && Onward(s, d)
  {
    hide OwnerAgrees, Reserved, Accounted, Running, Holding;
  }

  lemma LaunchKeeps(s: State, r: Request, hard: int, sequence: U64, received: int, fromOff: bool, env: Env)
    requires Between(s) && Sized(r, hard, s.ledger)
    requires !Next(ModeOf(s.owner.log), Admitting(s, r, hard, sequence, received)).Illegal?
    requires r.phase != PHASE_APPROACH ==> hard < LEASE_MS - (Now(s) - received) && received <= Now(s)
    ensures var l := Launch(s, r, hard, sequence, received, fromOff, env).s; Inv(l) && Onward(s, l)
  {
    hide Core, Energise, FailOff, Closing, Reserve, Covered;
    var v := Reserve(s, r, hard, sequence, received);
    ReserveNow(s, r, hard, sequence, received);
    ArmKeeps(v, r, fromOff, env);
    var o := ArmSegment(v, r, fromOff, env);
    var gap := ArmGap(v, r, fromOff, env);
    var p := Pass(s, gap);
    WithinKeeps(s, if gap == 0 then 0 else env.gap);
    ReservePassed(s, r, hard, sequence, received, o.s.timer, gap);
    ReservedCloses(p, r, hard, sequence, received);
    OnwardOnward(s, p, Reserve(p, r, hard, sequence, received));
    if !o.ok {
      TimerDoesNotClose(Reserve(p, r, hard, sequence, received), o.s.timer);
      FailBetween(o.s, env.offOk);
    } else {
      BegunKeeps(p, r, hard, sequence, received, o.s.timer);
      EnergiseKeeps(Begun(o.s, r, sequence, received), env);
    }
  }

  lemma ReserveNow(s: State, r: Request, hard: int, sequence: U64, received: int)
    ensures var v := Reserve(s, r, hard, sequence, received);
      v.clock == s.clock && v.seg.on == s.seg.on && v.seg.hard == hard && v.seg.deadline == Now(s) + hard
      && v.seg.kind == KindOf(r) && v.seg.rxDeadline == received + LEASE_MS
  {
  }

  /** Reserving before or after the rest of the tick is the same. */
  lemma ReservePassed(s: State, r: Request, hard: int, sequence: U64, received: int, t: Timer, gap: nat)
    requires Now(Pass(s, gap)) == Now(s) && !s.bridge.Lost?
    ensures Pass(Reserve(s, r, hard, sequence, received).(timer := t), gap)
         == Reserve(Pass(s, gap), r, hard, sequence, received).(timer := t)
  {
  }

  lemma TimerDoesNotClose(s: State, t: Timer)
    requires Closing(s)
    ensures Closing(s.(timer := t))
  {
  }

  /** Readiness changes nothing but the interrupt enable, and is what the log demands of a new segment. */
  lemma ReadyKeeps(s: State, r: Request, sequence: U64, env: Env)
    requires Inv(s) && s.owner.open && !s.after.post && s.latch.Clear?
    requires s.seg.on ==> FromApproach(s, r)
    requires s.motor.active ==> s.brake.on || FromApproach(s, r)
    requires s.owner.haveSequence ==> After(sequence, s.owner.used)
    ensures var o := StartReady(s, env);
      && Core(o.s) && Onward(s, o.s)
      && (o.ok ==> o.s == s.(timer := o.s.timer) && !s.bridge.Lost? && (s.seg.on ==> !DeadlinesPassed(s)))
      && (o.ok && (s.brake.on ==> r.phase != PHASE_APPROACH) ==>
          forall hard, received :: !Next(ModeOf(s.owner.log), Admitting(s, r, hard, sequence, received)).Illegal?)
  {
    hide Committed, ModeOf, Reserved, Accounted, Running, Holding;
    if Occupied(s) {
      CommittedKeeps(s, env.nested, env.offOk);
    }
  }

  lemma StartKeeps(s: State, token: U32, r: Request, sequence: U64, age: nat, env: Env)
    requires Inv(s)
    ensures Kept(s, StartSegment(s, token, r, sequence, Now(s) - age, env).s)
  {
    hide Core, Onward, RefreshRest, FailOff, StartReady, Admit, Healthy, Next, ModeOf, Grows, Darkens, NewEpoch;
    if StartRefused(s, token, r, sequence) {
      KeptItself(s);
    } else {
      RestKeeps(s);
      var m := RefreshRest(s);
      ReadyKeeps(m, r, sequence, env);
      var o := StartReady(m, env);
      FailSafe(m, EndedHardware, env.offOk);
      FailSafeFrom(m, o.s, env.offOk);
      if o.ok && StartAdmitted(o.s, r, Now(s) - age) && !m.cool.rest {
        StartsLegally(m, o.s, r, sequence, Now(s) - age, env);
        OnwardOnward(m, o.s, Admit(o.s, r, sequence, Now(s) - age, env).s);
      }
      KeptOnward(s, m, StartSegment(s, token, r, sequence, Now(s) - age, env).s);
    }
  }

  lemma KeptItself(s: State)
    requires Inv(s)
    ensures Kept(s, s)
  {
  }

  lemma KeptOnward(s: State, m: State, r: State)
    requires Kept(s, m) && Onward(m, r) && Inv(r)
    ensures Kept(s, r)
  {
    hide Core;
  }

  lemma StartsLegally(s: State, o: State, r: Request, sequence: U64, received: int, env: Env)
    requires Core(o) && !o.bridge.Lost? && o == s.(timer := o.timer) && o.owner.open && !o.after.post && o.latch.Clear?
    requires o.seg.on ==> o.seg.kind.Approach? && !DeadlinesPassed(o)
    requires StartAdmitted(o, r, received) && received <= Now(o)
    requires forall hard, at :: !Next(ModeOf(s.owner.log), Admitting(s, r, hard, sequence, at)).Illegal?
    ensures var l := Admit(o, r, sequence, received, env).s; Inv(l) && Onward(o, l)
  {
    hide Core, Inv, LeavePrevious, Launch, Next, ModeOf, FailOff, Reserved, Cooling, Accounted;
    LeaveKeeps(o);
    var p := LeavePrevious(o);
    var hard := if r.phase != PHASE_APPROACH then r.hardMs else APPROACH_TOTAL_MS - p.ledger.approachReserved;
    assert Admitting(p, r, hard, sequence, received) == Admitting(s, r, hard, sequence, received);
    if r.phase == PHASE_APPROACH && ApproachExhausted(p.ledger) {
      RestRequiredCloses(p);
      FailBetween(p.(cool := p.cool.(rest := true)), env.offOk);
    } else {
      LaunchKeeps(p, r, hard, sequence, received, !o.seg.on && !o.brake.on, env);
    }
  }

  lemma RestRequiredCloses(s: State)
    requires Closing(s)
    ensures Closing(s.(cool := s.cool.(rest := true)))
  {
  }

  // ---------------------------------------------------------------- the other calls

  lemma EndKeeps(s: State, token: U32, env: Env)
    requires Inv(s)
    ensures Kept(s, EndSegment(s, token, env).s)
    ensures var r := EndSegment(s, token, env); (r.result.Invalid? && r.s == s) || !r.s.seg.on
  {
    hide Core, Committed, FinishPulse, FinishApproach, FailOff, EndReleased;
    if s.owner.open && token == s.owner.token && s.seg.on && !s.latch.Latched? {
      assert s.motor.press by { OccupiedPresses(s); }
      CommittedKeeps(s, env.nested, env.offOk);
      var o := Committed(s, env.nested, env.offOk);
      if !o.ok || DeadlinesPassed(o.s) {
        LateIsSafe(o.s, env);
      } else {
        FinishApproachOrPulse(o.s, env);
      }
    }
  }

  lemma OccupiedPresses(s: State)
    requires Core(s) && Occupied(s)
    ensures s.motor.press && s.motor.active && s.owner.open && !s.motor.action.Disabled?
    ensures s.seg.on ==> !s.brake.on && (s.seg.kind.Pulse? || s.seg.kind.Approach?)
  {
    hide OwnerAgrees, Reserved, Accounted, Holding, Cooling;
  }

  lemma LateIsSafe(s: State, env: Env)
    requires Core(s)
    ensures var r := EndLate(s, env); Inv(r) && Dead(r) && Onward(s, r)
  {
    hide FailOff, Reserved, Accounted, ModeOf;
    FailOffIsDead(s, EndedDeadline, env.offOk);
  }

  lemma FinishApproachOrPulse(s: State, env: Env)
    requires Core(s) && s.timer.irq && (s.timer.oneShot ==> s.seg.kind.Pulse?)
    ensures var n := if s.seg.kind.Approach? then FinishApproach(s, EndedReduced, env)
                     else FinishPulse(s, EndedReduced, env.finish, env.offOk);
      var r := if n.ok then n.s else FailOff(n.s, EndedDeadline, env.offOk);
      Inv(r) && !r.seg.on && Onward(s, r)
  {
    hide Core, FailOff, FinishPulse, FinishApproach;
    if s.seg.kind.Approach? {
      FinishApproachKeeps(s, EndedReduced, env);
      var n := FinishApproach(s, EndedReduced, env);
      if n.ok { LeasingIsSafe(n.s); } else { FailSafe(n.s, EndedDeadline, env.offOk); }
    } else {
      FinishPulseKeeps(s, EndedReduced, env.finish, env.offOk);
      var n := FinishPulse(s, EndedReduced, env.finish, env.offOk);
      if n.ok { LeasingIsSafe(n.s); } else { FailSafe(n.s, EndedDeadline, env.offOk); }
    }
  }

  lemma PostKeeps(s: State, token: U32, request: U32, sequence: U64, age: nat, env: Env)
    requires Inv(s)
    ensures Kept(s, AcceptPost(s, token, request, sequence, Now(s) - age, env).s)
  {
    hide Core, Committed, Healthy;
    if PostDue(s, token, request, sequence, Now(s) - age, env.readOk) {
      PostNeedsBrake(s);
      CommittedKeeps(s, env.nested, env.offOk);
      var o := Committed(s, env.nested, env.offOk);
      if o.ok {
        TakePostKeeps(o.s, sequence, Now(s) - age);
      } else if !(s.bridge.Brake? && env.readOk) || Now(s) >= s.brake.deadline || Now(s) >= s.seg.rxDeadline {
      } else {
        BrokenIsSafe(s, env.nested, env.offOk);
      }
    }
  }

  lemma PostNeedsBrake(s: State)
    requires Core(s) && s.owner.open && s.after.post
    ensures s.brake.on && !s.seg.on
  {
    hide ModeOf, Reserved, Accounted, Running, Holding, Cooling;
  }

  /** A timer check that fails inside a call has either changed nothing or already shut everything down. */
  lemma BrokenIsSafe(s: State, f: Finish, offOk: bool)
    requires Inv(s) && Occupied(s) && !Committed(s, f, offOk).ok && !s.seg.on
    ensures Inv(Committed(s, f, offOk).s) && Onward(s, Committed(s, f, offOk).s)
  {
    hide Core, Irq, Dead;
    if s.timer.armed && s.timer.healthy && Flagged(s.timer, s.clock) {
      IrqKeeps(s, f, offOk);
      DeadIsSafe(Irq(s, f, offOk));
    } else {
      TimerIsFree(s, s.timer.(irq := true));
    }
  }

  lemma DeadIsSafe(s: State)
    requires Core(s) && Dead(s)
    ensures Inv(s)
  {
    hide Core;
    DarkIsSafe(s);
  }

  lemma TakePostKeeps(s: State, sequence: U64, received: int)
    requires Inv(s) && s.owner.open && s.after.post && After(sequence, s.owner.used) && received >= s.after.ended
    ensures Inv(TakePost(s, sequence, received))
  {
    hide ModeOf, Reserved, Accounted;
    Appended(s.owner.log, Posted(sequence, received));
  }

  lemma RefreshKeeps(s: State, token: U32, sequence: U64, age: nat, env: Env)
    requires Inv(s)
    ensures Kept(s, Refresh(s, token, sequence, Now(s) - age, env).s)
  {
    hide Core, RenewLease, FailOff;
    if !s.owner.open || token != s.owner.token || s.latch.Latched? || age > AGE_MS ||
       (s.owner.haveSequence && !After(sequence, s.owner.feedback)) {
    } else if !Leased(s) {
      FeedbackIsFree(s, sequence);
    } else if LeaseBroken(s, env.readOk) {
      FailSafe(s, EndedDeadline, env.offOk);
    } else {
      var received := Now(s) - age;
      var deadline := if s.seg.on then Least(received + LEASE_MS, s.seg.deadline) else received + LEASE_MS;
      RenewKeeps(s, deadline, env.nested, env.offOk);
      var o := RenewLease(s, deadline - Now(s), env.nested, env.offOk);
      if o.ok {
        ExtendKeeps(s, o.s.timer, deadline, sequence, received);
      } else {
        FailSafe(o.s, EndedDeadline, env.offOk);
      }
    }
  }

  lemma FeedbackIsFree(s: State, sequence: U64)
    requires Inv(s)
    ensures Inv(s.(owner := s.owner.(feedback := sequence)))
  {
    hide ModeOf, Reserved, Accounted, Running, Holding, Cooling;
  }

  lemma ExtendKeeps(s: State, t: Timer, deadline: int, sequence: U64, received: int)
    requires Inv(s) && Leased(s) && s.owner.open && deadline <= received + LEASE_MS
    requires t.armed && t.healthy && t.irq && !t.acked && t.oneShot == s.timer.oneShot && Cutoff(t) <= 1000 * deadline
    requires s.timer.armed
    ensures Inv(Extend(s.(timer := t), deadline, sequence, received))
  {
    hide ModeOf, Reserved;
    Appended(s.owner.log, Renewed(sequence, received));
  }

  lemma DisableCallKeeps(s: State, offOk: bool)
    requires Core(s)
    ensures var r := Disable(s, offOk).s; Inv(r) && Dead(r) && Onward(s, r)
  {
    hide DisableBridge, RecordOff, Reserved, Accounted, ModeOf, Cooling;
    DisableKeeps(s, offOk);
    RecordOffCloses(DisableBridge(s, offOk), EndedStop);
  }

  /** Publishing an error charges and closes whatever still ran. */
  lemma PublishKeeps(s: State, e: TimerEvent, offOk: bool)
    requires Core(s) && !Lit(s.bridge) && !s.timer.armed && !s.timer.irq && s.latch.Clear?
    requires e.Normal? ==> !s.owner.open
    ensures Inv(Publish(s, e, offOk).s) && Onward(s, Publish(s, e, offOk).s)
  {
    hide DisableBridge, RecordOff, Reserved, Accounted, ModeOf, Cooling;
    DisableKeeps(s, offOk);
    RecordOffCloses(DisableBridge(s, offOk), EndedDeadline);
    if (s.motor.action.Segment? && s.after.reason.EndedDeadline?) || !e.Normal? {
      PublishedIsSafe(RecordOff(DisableBridge(s, offOk), Now(s), EndedDeadline), offOk);
    } else {
      PublishedIsSafe(s, offOk);
    }
  }

  lemma PublishedIsSafe(s: State, offOk: bool)
    requires Core(s) && !s.owner.open && !s.timer.armed && !s.timer.irq && !Lit(s.bridge)
    ensures var m := s.motor.(active := false, duty := 0);
      Inv(s.(motor := m)) && Inv(DisableBridge(s, offOk).(motor := m)) && Onward(s, DisableBridge(s, offOk))
  {
    hide Reserved, Accounted, ModeOf;
  }

  lemma StoppedKeeps(s: State, offOk: bool)
    requires Core(s)
    ensures var d := StopTimerAndBridge(s, offOk);
      Core(d) && !Lit(d.bridge) && !d.timer.armed && !d.timer.irq && d.latch == s.latch && d.owner == s.owner &&
        Onward(s, d)
  {
    DisableKeeps(s, offOk);
  }

  /** With the owner gone nothing drives, brakes or counts. */
  lemma ClosedIsDead(s: State)
    requires Inv(s) && !s.owner.open
    ensures Dead(s)
  {
    hide Reserved, Accounted, ModeOf, Cooling;
  }

  lemma ServiceKeeps(s: State, offOk: bool)
    requires Inv(s)
    ensures Kept(s, Service(s, offOk).s)
  {
    hide Core, StopTimerAndBridge, Publish, Dead;
    StoppedKeeps(s, offOk);
    var d := StopTimerAndBridge(s, offOk);
    if s.latch.Latched? {
      ClosedIsDead(s);
      UnlatchKeeps(s);
      PublishKeeps(s.(latch := Clear), s.latch.event, offOk);
    } else {
      DarkIsSafe(d);
      PublishKeeps(d, Error, offOk);
    }
  }

  lemma UnlatchKeeps(s: State)
    requires Inv(s) && Dead(s)
    ensures Core(s.(latch := Clear)) && Dead(s.(latch := Clear))
  {
  }

  lemma GuardKeeps(s: State, readOk: bool, offOk: bool)
    requires Inv(s)
    ensures Kept(s, Guard(s, readOk, offOk).s)
  {
    hide Core, StopTimerAndBridge;
    StoppedKeeps(s, offOk);
    DarkIsSafe(StopTimerAndBridge(s, offOk));
  }

  lemma BeginOwnerKeeps(s: State, unlocked: bool)
    requires Inv(s)
    ensures Kept(s, BeginBuild(s, unlocked).s)
  {
    hide RefreshRest, Reserved, Accounted;
    RestKeeps(s);
  }

  lemma WorldKeeps(s: State, e: Event)
    requires Inv(s) && (e.DoPass? || e.DoDrop? || e.DoOverrun?)
    ensures Inv(Step(s, e)) && Onward(s, Step(s, e))
  {
    if e.DoPass? {
      PassKeeps(s, e.us);
    } else if e.DoDrop? {
      DisableKeeps(s, e.off);
    } else {
      TimerIsFree(s, s.timer.(overrun := s.timer.armed));
    }
  }

  lemma InterruptKeeps(s: State, f: Finish, offOk: bool)
    requires Inv(s) && s.timer.irq
    ensures Inv(Irq(s, f, offOk)) && Onward(s, Irq(s, f, offOk))
    ensures Dead(Irq(s, f, offOk)) || (s.seg.on && s.seg.kind.Pulse? && Leasing(Irq(s, f, offOk)))
  {
    hide Core, Irq, Dead;
    IrqKeeps(s, f, offOk);
    var r := Irq(s, f, offOk);
    if Dead(r) { DeadIsSafe(r); } else { LeasingIsSafe(r); }
  }

  /** Every call, interrupt and mishap keeps the invariant. */
  lemma StepKeeps(s: State, e: Event)
    requires Inv(s)
    ensures Kept(s, Step(s, e))
  {
    hide Inv, Pass, Irq, StartSegment, EndSegment, AcceptPost, Refresh, Disable, Service, Guard, BeginBuild,
      RefreshRest;
    match e
    case DoPass(_) => WorldKeeps(s, e);
    case DoDrop(_) => WorldKeeps(s, e);
    case DoOverrun => WorldKeeps(s, e);
    case DoIrq(f, offOk) => if s.timer.irq { InterruptKeeps(s, f, offOk); }
    case DoBegin(unlocked) => BeginOwnerKeeps(s, unlocked);
    case DoStart(token, r, sequence, age, env) => StartKeeps(s, token, r, sequence, age, env);
    case DoEnd(token, env) => EndKeeps(s, token, env);
    case DoPost(token, request, sequence, age, env) => PostKeeps(s, token, request, sequence, age, env);
    case DoRefresh(token, sequence, age, env) => RefreshKeeps(s, token, sequence, age, env);
    case DoDisable(offOk) => CoreOf(s); DisableCallKeeps(s, offOk);
    case DoService(offOk) => ServiceKeeps(s, offOk);
    case DoGuard(readOk, offOk) => GuardKeeps(s, readOk, offOk);
    case DoSnapshot => RestKeeps(s);
  }

  lemma CoreOf(s: State)
    requires Inv(s)
    ensures Core(s)
  {
    hide Core;
  }

  /** Any interleaving of calls, interrupts and mishaps from boot, of any length. */
  lemma {:induction false} RunKeeps(clock: nat, es: seq<Event>)
    ensures Inv(Run(Boot(clock), es))
  {
    hide Step, Inv;
    if |es| == 0 {
      BootIsSafe(clock);
    } else {
      RunKeeps(clock, es[..|es| - 1]);
      StepKeeps(Run(Boot(clock), es[..|es| - 1]), es[|es| - 1]);
    }
  }

  lemma BootIsSafe(clock: nat)
    ensures Inv(Boot(clock))
  {
  }
}
