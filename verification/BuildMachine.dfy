/** The build session above the source and the executor: its no-response budget, the target that
    turns everything off, and the one request it makes of the executor per frame. Executor calls are
    answers passed in; pressures are whole newtons. */
module BuildMachine {
  import opened MachineWord
  import Admission
  import Source
  import SourceLadder
  import SourcePush

  const GAP_MS := 125
  const PROGRESS_N := 2
  const CONTACT_N := 10
  const BOUNDARY_N := 3000
  const BUDGET_MS := Admission.NO_RESPONSE_MS
  const PHASE_TARGET_OFF := 4
  const END_DEADLINE := 4

  datatype State = Ready | Approaching | Building | Tapering | TargetReached | Faulted

  /** The executor's snapshot, and what else the machine asks it. */
  datatype Exec = Exec(
    epoch: U32, inhibited: bool, segment: bool, brake: bool, coarse: bool, endReason: nat, ended: U32,
    rxDeadline: U32, deadline: U32, brakeDeadline: U32, ownerValid: bool, off: bool)

  datatype Answers = Answers(refreshOk: bool, after: Exec, postOk: bool, endOk: bool, startOk: bool, disableOk: bool)

  /** Milliseconds of the response budget. */
  type Spent = n: nat | n <= BUDGET_MS

  datatype Option<T> = None | Some(value: T)

  function Least(a: int, b: int): int {
    if a <= b then a else b
  }

  /** The response clock after `dt` more milliseconds, up to its budget. */
  function Ticked(noResponse: nat, charging: bool, dt: nat): nat {
    if charging then Least(noResponse + dt, BUDGET_MS) else noResponse
  }

  /** Restarts of the response clock at a new epoch, by the epochs read so far. */
  function Changes(readings: seq<U32>): nat {
    if |readings| < 2 then 0
    else Changes(readings[..|readings| - 1]) + (if readings[|readings| - 1] != readings[|readings| - 2] then 1 else 0)
  }

  /** Whether the pair of what is left to the target and to the budget has become smaller. */
  predicate Lower(distance: int, left: int, oldDistance: int, oldLeft: int) {
    distance < oldDistance || (distance == oldDistance && left < oldLeft)
  }

  /** What a session has done so far. Times are in milliseconds. */
  datatype History = History(
    driven: int,            // driven outside the approach, all of it
    longest: nat,           // the longest of the looks that found such time
    charged: int,           // charged to the response clock
    gains: nat,             // times a post-pulse gain restarted the clock
    epochs: nat,            // times a completed rest restarted it
    readings: seq<U32>,     // exposure epochs read
    start: int)             // pressure the session began at

  function Most(a: nat, b: nat): nat {
    if a <= b then b else a
  }

  /** A look `dt` after the last, at a clock with `left` of its budget. */
  function Looked(h: History, timed: bool, left: nat, dt: nat): History {
    if !timed then h
    else h.(driven := h.driven + dt, longest := Most(h.longest, dt), charged := h.charged + Least(dt, left))
  }

  /** Time driven but not charged is that of so many looks at most. */
  predicate Metered(h: History, looks: nat) {
    h.driven - h.charged <= h.longest * looks
  }

  lemma LookIsMetered(h: History, timed: bool, left: nat, dt: nat, looks: nat)
    requires Metered(h, looks)
    ensures var l := Looked(h, timed, left, dt); Metered(l, looks + 1) && (!timed || dt <= left ==> Metered(l, looks))
    ensures Metered(h, looks + 1)
  {
    Scaled(h.longest, Most(h.longest, dt), looks);
  }

  function Read(h: History, e: U32, changed: bool): History {
    h.(epochs := h.epochs + (if changed then 1 else 0), readings := h.readings + [e])
  }

  /** What a look at the clock and the epoch leaves: one more look is forgiven by a new epoch. */
  lemma CaughtUp(h: History, driving: bool, timed: bool, left: nat, dt: nat, e: U32)
    requires Metered(h, if driving then h.epochs else h.epochs + 1) && (timed ==> driving)
    ensures forall changed :: var r := Read(Looked(h, timed, left, dt), e, changed);
      Metered(r, r.epochs + 1) &&
        (changed || !timed || dt <= left ==> Metered(r, if driving then r.epochs else r.epochs + 1))
  {
    LookIsMetered(h, timed, left, dt, if driving then h.epochs else h.epochs + 1);
    LookIsMetered(Looked(h, timed, left, dt), false, 0, 0, h.epochs + 1);
  }

  lemma MeteredBy(h: History, r: History, looks: nat)
    requires h.driven == r.driven && h.charged == r.charged && h.longest == r.longest
    ensures Metered(h, looks) ==> Metered(r, looks)
  {
  }

  lemma FreshIsMetered(epoch: U32, start: int)
    ensures Metered(History(0, 0, 0, 0, 0, [epoch], start), 0)
  {
  }

  lemma Scaled(a: int, b: int, n: nat)
    requires 0 <= a <= b
    ensures 0 <= a * n <= b * n && b * (n + 1) == b * n + b
  {
  }

  predicate Gains(anchor: int, raw: nat, post: bool) {
    post && raw - anchor >= PROGRESS_N
  }

  /** What a decision asks of the executor while `e` runs. */
  function Asked(d: Source.Decision, e: Exec, target: nat): Option<Admission.Request>
    requires d.command >= 0
  {
    if (d.action == Source.Pulse || d.action == Source.Approach) &&
      (!e.segment || (e.coarse && d.action == Source.Pulse))
    then Some(Source.RequestOf(d, target)) else None
  }

  lemma AskedPhase(d: Source.Decision, e: Exec, target: nat)
    requires d.command >= 0
    requires d.action == Source.Pulse || d.action == Source.Approach ==>
      (d.action == Source.Approach <==> d.phase == Admission.PHASE_APPROACH)
    ensures var r := Asked(d, e, target); r.Some? ==>
      && (d.action == Source.Pulse <==> r.value.phase != Admission.PHASE_APPROACH)
      && (e.segment ==> e.coarse && r.value.phase != Admission.PHASE_APPROACH)
  {
  }

  /** How the source takes a frame: refused, between two control ticks, with alarm, as one seen before, or with a
      decision and the phase it belongs to. */
  datatype Hearing = Refused | Early | Alarm | Seen | Heard(v: Source.Action, phase: nat)

  function Verdict(h: Hearing): Source.Action
    requires !h.Seen?
  {
    match h
    case Heard(v, _) => v
    case Alarm => Source.BrakeNow
    case _ => Source.Wait
  }

  /** The approach lasts until the pressure was 10 N once, or is 3 N from the target; the taper begins 50 N from it. */
  function PhaseOn(p: nat, target: nat, contacted: bool): nat {
    if !contacted && p < 10 && target - p > 3 then Admission.PHASE_APPROACH
    else if target - p <= 50 then Admission.PHASE_TAPER else Admission.PHASE_BUILD
  }

  /** A session's first frame, met while no pulse runs: it is approached or pulsed on, unless the last pulse ended less
      than 30 ms before, or ended at all and the target is a low one. */
  function FirstHearing(p: nat, at: U32, now: U32, e: Exec, target: nat): Hearing {
    if Minus(now, at) > Admission.AGE_MS then Refused
    else if at == 0 then Seen
    else
      var ended := if e.coarse then 0 else e.ended;
      Heard(if p < 10 && target - p > 3 then Source.Approach
            else if ended == 0 || (target > 200 && Minus(now, ended) >= 30) then Source.Pulse else Source.Wait,
            PhaseOn(p, target, false))
  }

  /** The decisions that become a request while `e` runs. */
  predicate Wanted(v: Source.Action, e: Exec) {
    (v == Source.Pulse && (!e.segment || e.coarse)) || (v == Source.Approach && !e.segment)
  }

  /** The snapshot a frame is judged by: taken again once the running output was renewed. */
  function Judged(e: Exec, a: Answers): Exec {
    if e.segment || e.brake then a.after else e
  }

  class Machine {
    var target: nat
    var state: State
    var active: bool
    var monitoring: bool
    var phase: nat
    var noResponse: Spent
    var accounted: U32
    var epoch: U32
    var anchor: int
    var anchored: bool
    var contacted: bool
    var postPending: bool
    var postSequence: U64
    var source: Source.Source?
    // the last frame
    var raw: nat
    var received: U32
    var sequence: U64
    ghost var past: History

    /** Every restart of the clock is a gain of PROGRESS_N or a new epoch, and the clock never holds
        more than its budget. */
    ghost predicate Budgeted()
      reads `noResponse, `past, `epoch, `anchor, `target
    {
      && past.epochs == Changes(past.readings) && |past.readings| > 0 && past.readings[|past.readings| - 1] == epoch
      && past.charged <= BUDGET_MS * (past.gains + past.epochs) + noResponse
      && PROGRESS_N * past.gains <= anchor - past.start
      && (past.gains > 0 ==> anchor < target)
    }

    /** A driving session has a source for its own target. */
    ghost predicate Sourced()
      reads `active, `monitoring, `source, `target, source
    {
      active && !monitoring ==> source != null && source.Valid() && source.target == target
    }

    ghost predicate Driving()
      reads `active, `monitoring
    {
      active && !monitoring
    }

    /** Looks whose time may have gone uncharged: one per new epoch, and the one that ended the driving. */
    ghost function Looks(): nat
      reads `active, `monitoring, `past
    {
      if Driving() then past.epochs else past.epochs + 1
    }

    ghost predicate Sound()
      reads this, source
    {
      1 <= target <= 3000 && Budgeted() && Sourced() && (active ==> state != Faulted) &&
        (monitoring && active ==> state == TargetReached)
    }

    ghost predicate Valid()
      reads this, source
    {
      Sound() && Metered(past, Looks())
    }

    /** Driving that the response clock is for. */
    ghost predicate Timed()
      reads `active, `monitoring, `phase
    {
      Driving() && phase != Admission.PHASE_APPROACH
    }

    constructor (units: nat, now: U32)
      requires 1 <= units <= 3000
      ensures Valid() && !active && noResponse == 0
    {
      target, state, active, monitoring, phase := units, Ready, false, false, 0;
      noResponse, accounted, epoch, anchor, anchored := 0, now, 0, 0, false;
      contacted, postPending, postSequence, source := false, false, 0, null;
      raw, received, sequence := 0, 0, 0;
      past := History(0, 0, 0, 0, 0, [0], 0);
    }

    /** A new frame of the pressure sensor. */
    method TakeFrame(measured: nat, at: U32, next: U64)
      requires Valid()
      modifies `raw, `received, `sequence
      ensures Valid() && raw == measured && received == at && sequence == next
    {
      raw, received, sequence := measured, at, next;
    }

    predicate Charging()
      reads this
    {
      active && !monitoring && phase != Admission.PHASE_APPROACH && noResponse < BUDGET_MS
    }

    /** `ForceBuildMachine_Account`: driving time outside the approach, up to the budget. What the budget
        no longer holds goes uncharged. */
    method Account(now: U32)
      requires Budgeted()
      modifies `noResponse, `accounted, `past
      ensures Budgeted() && accounted == now && old(noResponse) <= noResponse
      ensures noResponse == Ticked(old(noResponse), old(Charging()), Minus(now, old(accounted)))
      ensures past == Looked(old(past), Timed(), BUDGET_MS - old(noResponse), Minus(now, old(accounted)))
      ensures now == old(accounted) ==> noResponse == old(noResponse) && past == old(past)
    {
      var dt := Minus(now, accounted);
      past := Looked(past, Timed(), BUDGET_MS - noResponse, dt);
      accounted := now;
      if active && !monitoring && phase != Admission.PHASE_APPROACH && noResponse < BUDGET_MS {
        var remaining := BUDGET_MS - noResponse;
        noResponse := noResponse + if dt < remaining then dt else remaining;
      }
    }

    /** A completed rest restarts the response clock. */
    method SyncEpoch(e: U32)
      requires Budgeted()
      modifies `epoch, `noResponse, `anchored, `past
      ensures Budgeted() && epoch == e
      ensures if old(epoch) == e then unchanged(`noResponse, `anchored) else noResponse == 0
      ensures past == Read(old(past), e, old(epoch) != e)
    {
      past := Read(past, e, epoch != e);
      assert past.readings[..|past.readings| - 1] == old(past).readings;
      if epoch != e {
        epoch, noResponse, anchored := e, 0, false;
      }
    }

    /** A fault ends the session; the clock keeps what it has. */
    method Fail(now: U32)
      requires Sound() && (Metered(past, Looks()) || (now == accounted && Metered(past, past.epochs + 1)))
      modifies `noResponse, `accounted, `past, `active, `state
      ensures Valid() && !active && state == Faulted && accounted == now
      ensures noResponse == Ticked(old(noResponse), old(Charging()), Minus(now, old(accounted)))
      ensures past == Looked(old(past), old(Timed()), BUDGET_MS - old(noResponse), Minus(now, old(accounted)))
      ensures now == old(accounted) ==> noResponse == old(noResponse) && past == old(past)
    {
      hide Source.Source.Valid, Metered, Budgeted, Ticked;
      ghost var looks := if Metered(past, Looks()) then Looks() else past.epochs + 1;
      LookIsMetered(past, Timed(), BUDGET_MS - noResponse, Minus(now, accounted), looks);
      Account(now);
      active, state := false, Faulted;
    }

    /** STOP: nothing is refunded. */
    method Stop(now: U32, disableOk: bool)
      requires Valid()
      modifies `noResponse, `accounted, `past, `active, `state
      ensures Valid() && !active && state == (if !disableOk || old(state) == Faulted then Faulted else Ready)
      ensures noResponse == Ticked(old(noResponse), old(Charging()), Minus(now, old(accounted)))
      ensures past == Looked(old(past), old(Timed()), BUDGET_MS - old(noResponse), Minus(now, old(accounted)))
    {
      hide Source.Source.Valid, Metered, Budgeted, Ticked;
      LookIsMetered(past, Timed(), BUDGET_MS - noResponse, Minus(now, accounted), Looks());
      Account(now);
      active := false;
      if !disableOk { Fail(now); } else if state != Faulted { state := Ready; }
    }

    /** `target_off`: output off, and from now on only watching. */
    method TargetOff(now: U32, disableOk: bool)
      requires Valid()
      modifies `noResponse, `accounted, `past, `active, `state, `monitoring, `phase
      ensures Valid() && accounted == now &&
        noResponse == Ticked(old(noResponse), old(Charging()), Minus(now, old(accounted)))
      ensures past == Looked(old(past), old(Timed()), BUDGET_MS - old(noResponse), Minus(now, old(accounted)))
      ensures now == old(accounted) ==> noResponse == old(noResponse) && past == old(past)
      ensures if disableOk then active && monitoring && state == TargetReached && phase == PHASE_TARGET_OFF
              else !active && state == Faulted && monitoring == old(monitoring)
    {
      hide Source.Source.Valid, Metered, Budgeted, Ticked;
      LookIsMetered(past, Timed(), BUDGET_MS - noResponse, Minus(now, accounted), Looks());
      Account(now);
      if !disableOk { Fail(now); return; }
      active, monitoring, phase, state := true, true, PHASE_TARGET_OFF, TargetReached;
    }

    method StartReady(e: Exec) returns (ok: bool)
      requires Valid()
      modifies `epoch, `noResponse, `anchored, `past
      ensures Valid() && (ok <==> !e.inhibited && !postPending && noResponse < BUDGET_MS)
      ensures noResponse == if old(epoch) == e.epoch then old(noResponse) else 0
    {
      SyncEpoch(e.epoch);
      return !e.inhibited && !postPending && noResponse < BUDGET_MS;
    }

    predicate CutOff(e: Exec, now: U32) {
      || ((e.segment || e.brake) && Reached(now, e.rxDeadline))
      || (e.segment && Reached(now, e.deadline))
      || (e.brake && Reached(now, e.brakeDeadline))
    }

    /** The clock and the epoch brought up to date: what the budget could not take is the time of one look,
        forgiven by a new epoch or the end of the driving. */
    method CatchUp(now: U32, e: Exec)
      requires Valid()
      modifies `noResponse, `accounted, `past, `epoch, `anchored
      ensures Sound() && accounted == now && epoch == e.epoch
      ensures noResponse ==
        if old(epoch) != e.epoch then 0 else Ticked(old(noResponse), old(Charging()), Minus(now, old(accounted)))
      ensures past ==
        Read(Looked(old(past), Timed(), BUDGET_MS - old(noResponse), Minus(now, old(accounted))), e.epoch,
          old(epoch) != e.epoch)
      ensures Metered(past, past.epochs + 1) && ((Timed() ==> noResponse < BUDGET_MS) ==> Metered(past, Looks()))
    {
      hide Source.Source.Valid, Metered, Budgeted, Minus;
      CaughtUp(past, Driving(), Timed(), BUDGET_MS - noResponse, Minus(now, accounted), e.epoch);
      Account(now);
      SyncEpoch(e.epoch);
    }

    /** A driving session that its safety check lets go on. */
    predicate Survives(now: U32, e: Exec)
      reads this
    {
      && active && !monitoring && Minus(now, received) <= 125
      && e.ownerValid && e.endReason < END_DEADLINE
      && (e.segment || e.brake ==> !Reached(now, e.rxDeadline))
      && (e.segment ==> !Reached(now, e.deadline)) && (e.brake ==> !Reached(now, e.brakeDeadline))
      && (phase == Admission.PHASE_APPROACH || epoch != e.epoch
          || (noResponse < 45000 && noResponse + Minus(now, accounted) < 45000))
    }

    /** `ForceBuildMachine_Safety`: a session that survives it has response budget left outside the approach,
        and unless the epoch changed, all it has driven since the last look is charged. */
    method Safety(now: U32, e: Exec)
      requires Valid()
      modifies `noResponse, `accounted, `past, `active, `state, `epoch, `anchored
      ensures Valid() && accounted == now
      ensures active <==>
        && old(active) && Minus(now, received) <= GAP_MS
        && if monitoring then e.off
           else
             && e.ownerValid && e.endReason < END_DEADLINE && !CutOff(e, now)
             && (phase != Admission.PHASE_APPROACH ==> noResponse < BUDGET_MS)
      ensures noResponse ==
        if old(epoch) != e.epoch then 0 else Ticked(old(noResponse), old(Charging()), Minus(now, old(accounted)))
      ensures (Driving() <==> old(Survives(now, e))) && (old(active) && !active ==> state == Faulted)
      ensures old(epoch) == e.epoch ==> old(noResponse) <= noResponse
      ensures past ==
        Read(Looked(old(past), old(Timed()), BUDGET_MS - old(noResponse), Minus(now, old(accounted))), e.epoch,
          old(epoch) != e.epoch)
      ensures Timed() && old(epoch) == e.epoch ==>
        past.driven - old(past).driven == past.charged - old(past).charged == noResponse - old(noResponse)
          == Minus(now, old(accounted))
    {
      hide Source.Source.Valid, Metered, Budgeted, Reached, Minus;
      CatchUp(now, e);
      if !active { return; }
      if Minus(now, received) > GAP_MS { Fail(now); return; }
      if monitoring {
        if !e.off { Fail(now); }
        return;
      }
      if e.endReason >= END_DEADLINE { Fail(now); return; }
      if !e.ownerValid { Fail(now); return; }
      if CutOff(e, now) { Fail(now); return; }
      if phase != Admission.PHASE_APPROACH && noResponse >= BUDGET_MS { Fail(now); }
    }

    /** A gain of PROGRESS_N newtons after a pulse is the only thing in a frame that restarts the clock. */
    method Progress(post: bool)
      requires Budgeted() && raw < target
      modifies `anchor, `noResponse, `past
      ensures Budgeted()
      ensures if Gains(old(anchor), raw, post)
              then anchor == raw && noResponse == 0 && past == old(past).(gains := old(past).gains + 1)
              else unchanged(`anchor, `noResponse, `past)
    {
      if post && raw - anchor >= PROGRESS_N {
        anchor, noResponse := raw, 0;
        past := past.(gains := past.gains + 1);
      }
    }

    /** The frame that answers the last pulse. */
    predicate AnswersPulse(e: Exec)
      reads `postPending, `sequence, `postSequence, `received
    {
      AnswersPulseAt(postPending, postSequence, e)
    }

    predicate AnswersPulseAt(pending: bool, from: U64, e: Exec)
      reads `sequence, `received
    {
      pending && !e.segment && After(sequence, from) && Reached(received, e.ended)
    }

    /** What a frame calls for while `e` runs: nothing when the source refuses it or between two control ticks, BRAKE
        after a leap or in the pause that follows one, else the source's response to the pressure. A frame whose
        receive tick was seen before adds nothing to what came before it. */
    ghost function Hear(p: nat, at: U32, next: U64, now: U32, e: Exec): Hearing
      requires source != null
      reads source, `source
    {
      if source.Refused(p as real, next, at, now) then Refused
      else if !source.OnControl(now) then Early
      else if source.Alarming(p as real, at, now) then Alarm
      else if source.Level(p as real, at, now) then
        Heard(source.Response(p as real, at, now, e.segment && !e.coarse, if e.coarse then 0 else e.ended),
              PhaseOn(p, source.target, source.contacted))
      else Seen
    }

    /** The source's decision on it. */
    ghost predicate Decided(h: Hearing, d: Source.Decision, t: int)
      reads source, `source, `sequence
    {
      && (if h.Refused? then d == Source.NOTHING else Told(t))
      && (!h.Seen? ==> d.action == Verdict(h))
      && (h.Heard? ==> d.phase == h.phase != 0)
    }

    /** A pulse waits out the settling time of the last one. */
    ghost predicate OnTime(d: Source.Decision, now: U32, e: Exec)
      requires source != null
      reads source, `source
    {
      source.OnTime(d, now, e.segment && !e.coarse, if e.coarse then 0 else e.ended)
    }

    /** The settling time asked for with the last pulse has passed since the end the snapshot names, if it names one. */
    ghost predicate Waited(now: U32, e: Exec)
      reads source, `source
    {
      source != null && (e.coarse || e.ended == 0 || Minus(now, e.ended) >= source.asked)
    }

    /** A pulse is requested only after such a wait, with the settling time to ask for after it. */
    ghost predicate Spaced(request: Option<Admission.Request>, waited: bool)
      reads source, `source
    {
      request.Some? && request.value.phase != Admission.PHASE_APPROACH ==>
        waited && source != null && request.value.settleMs == source.asked
    }

    /** A pulse is requested at the volts and width the ladder stands for at the accepted pressure, or before precision
        work those of the boost. */
    ghost predicate Planned(request: Option<Admission.Request>)
      reads source, `source
    {
      request.Some? && request.value.phase != Admission.PHASE_APPROACH ==>
        source != null &&
        var r, near := request.value, source.target as real - source.current;
        if r.precision then
          && r.command == SourceLadder.Volts(source.ladder, source.target, near)
          && r.normalMs == SourceLadder.Width(source.ladder, source.target, near)
        else
          && r.command == Source.Millivolts(Source.BoostedVolts(near, source.push))
          && r.normalMs == SourcePush.Width(source.push, near <= 50.0, source.target <= 200)
    }

    /** The frame has reached the source, at this tick of the true clock. */
    ghost predicate Told(t: int)
      reads source, `source, `sequence
    {
      source != null && source.haveSequence && source.sequence == sequence && source.clock == t
    }

    method Consult(now: U32, e: Exec, ghost t: int) returns (d: Source.Decision)
      requires source != null && source.Valid() && source.target == target && raw < target && now == Low(t) &&
        source.clock <= t
      modifies source
      ensures source.Valid() && source.target == target && source.Sound(d) && d.action != Source.Off && d.command >= 0
      ensures source.ByLadder(d)
      ensures Decided(old(Hear(raw, received, sequence, now, e)), d, t)
      ensures d.action == Source.Pulse ==>
        d.settleMs == source.asked && old(OnTime(d, now, e)) && (old(Waited(now, e)) || (e.segment && !e.coarse))
    {
      hide Source.Source.Valid, Source.Source.Sound, Admission.Envelope, Source.Source.Refused, Source.Source.ByLadder,
        Source.Source.OnControl, Source.Source.Alarming, Source.Source.Level, Source.Source.Response,
        Source.Source.Started, Source.Source.Took, Source.Source.Far;
      var ended: U32 := if e.coarse then 0 else e.ended;
      d := source.Step(raw as real, sequence, received, now, e.segment && !e.coarse, ended, t);
    }

    /** The frame is charged, judged by the source and, after a pulse, weighed as progress. */
    method Judge(now: U32, e: Exec, post: bool, ghost t: int) returns (d: Source.Decision)
      requires Valid() && active && !monitoring && raw < target && now == Low(t) == accounted && source != null &&
        source.clock <= t
      modifies `noResponse, `accounted, `past, `anchor, `contacted, `phase, `state, source
      ensures Valid() && source.Sound(d) && source.ByLadder(d) && d.action != Source.Off && d.command >= 0
      ensures noResponse == if Gains(old(anchor), raw, post) then 0 else old(noResponse)
      ensures anchor == (if Gains(old(anchor), raw, post) then raw else old(anchor))
      ensures past == (if Gains(old(anchor), raw, post) then old(past).(gains := old(past).gains + 1) else old(past)) &&
        accounted == now
      ensures phase == (if d.phase != 0 then d.phase else old(phase)) && state == StateOf(phase)
      ensures Decided(old(Hear(raw, received, sequence, now, e)), d, t)
      ensures d.action == Source.Pulse ==>
        d.settleMs == source.asked && old(OnTime(d, now, e)) && (old(Waited(now, e)) || (e.segment && !e.coarse))
    {
      hide Source.Source.Valid, Source.Source.Sound, Admission.Envelope, Budgeted, Metered, Source.Source.Refused,
        OnTime, Hear, Told, Waited;
      hide Minus, Ticked, Low;
      LookIsMetered(past, Timed(), BUDGET_MS - noResponse, 0, past.epochs);
      Account(now);
      d := Consult(now, e, t);
      Weigh(d, post);
    }

    /** A frame that answers a pulse may be progress; the decision names the phase. */
    method Weigh(d: Source.Decision, post: bool)
      requires Valid() && Driving() && raw < target
      modifies `noResponse, `past, `anchor, `contacted, `phase, `state
      ensures Valid() && state == StateOf(phase) && phase == if d.phase != 0 then d.phase else old(phase)
      ensures if Gains(old(anchor), raw, post)
              then noResponse == 0 && anchor == raw && past == old(past).(gains := old(past).gains + 1)
              else unchanged(`noResponse, `anchor, `past)
    {
      hide Source.Source.Valid, Budgeted, Metered;
      ghost var p := past;
      Progress(post);
      MeteredBy(p, past, past.epochs);
      TakePhase(d);
    }

    static function StateOf(phase: nat): State {
      if phase == Admission.PHASE_APPROACH then Approaching
      else if phase == Admission.PHASE_BUILD then Building
      else Tapering
    }

    method TakePhase(d: Source.Decision)
      modifies `contacted, `phase, `state
      ensures contacted <==> old(contacted) || (d.mode != 0 && raw >= CONTACT_N)
      ensures phase == (if d.phase != 0 then d.phase else old(phase)) && state == StateOf(phase)
    {
      if d.mode != 0 && !contacted && raw >= CONTACT_N { contacted := true; }
      if d.phase != 0 { phase := d.phase; }
      state := if phase == Admission.PHASE_APPROACH then Approaching
               else if phase == Admission.PHASE_BUILD then Building
               else Tapering;
    }

    /** The source's decision on this frame becomes at most one request or one end. */
    method Decide(now: U32, e: Exec, a: Answers, post: bool, ghost t: int)
      returns (request: Option<Admission.Request>, ghost d: Source.Decision)
      requires Valid() && active && !monitoring && raw < target && now == Low(t) == accounted && source != null &&
        source.clock <= t
      modifies `noResponse, `accounted, `past, `anchor, `contacted, `phase, `state, `active, `postPending,
        `postSequence, source
      ensures Valid() && source.Sound(d) && d.command >= 0 && request == Asked(d, e, target)
      ensures d.action == Source.Pulse || d.action == Source.Approach ==>
        (d.action == Source.Approach <==> d.phase == Admission.PHASE_APPROACH)
      ensures request.Some? ==> Admission.Envelope(request.value) && request.value.target == target
      ensures active <==> (request.Some? ==> a.startOk) && (d.action == Source.BrakeNow && e.segment ==> a.endOk)
      ensures !active ==> state == Faulted
      ensures request.Some? && active ==> postSequence == sequence && (postPending <==> d.action == Source.Pulse)
      ensures request.None? ==> postPending == old(postPending)
      ensures noResponse == if Gains(old(anchor), raw, post) then 0 else old(noResponse)
      ensures anchor == if Gains(old(anchor), raw, post) then raw else old(anchor)
      ensures past == (if Gains(old(anchor), raw, post) then old(past).(gains := old(past).gains + 1) else old(past)) &&
        accounted == now
      ensures active ==> phase == (if d.phase != 0 then d.phase else old(phase)) && state == StateOf(phase)
      ensures Spaced(request, old(Waited(now, e))) && Planned(request)
      ensures Decided(old(Hear(raw, received, sequence, now, e)), d, t)
      ensures d.action == Source.Pulse ==>
        d.settleMs == source.asked && old(OnTime(d, now, e)) && (old(Waited(now, e)) || (e.segment && !e.coarse))
    {
      hide Source.Source.Valid, Source.Source.Sound, Admission.Envelope, Budgeted, Metered, Source.Source.Refused,
        Source.Source.OnTime, Hear, Told;
      request := None;
      var q := Judge(now, e, post, t);
      d := q;
      AskedIsSound(q, e);
      AskedIsPlanned(q, e);
      if q.action == Source.Off {
        assert false;
      } else if q.action == Source.BrakeNow && e.segment {
        if !a.endOk { Fail(now); }
      } else if (q.action == Source.Pulse || q.action == Source.Approach) &&
        (!e.segment || (e.coarse && q.action == Source.Pulse)) {
        request := Some(Source.RequestOf(q, target));
        if q.command <= 0 || !a.startOk { Fail(now); return; }
        postPending, postSequence := q.action == Source.Pulse, sequence;
      }
    }

    lemma AskedIsPlanned(d: Source.Decision, e: Exec)
      requires source != null && d.command >= 0 && source.target == target && source.ByLadder(d)
      requires d.action == Source.Pulse || d.action == Source.Approach ==>
        (d.action == Source.Approach <==> d.phase == Admission.PHASE_APPROACH)
      ensures Planned(Asked(d, e, target))
    {
      hide SourceLadder.Volts, SourceLadder.Width, Source.Millivolts, Source.BoostedVolts, SourcePush.Width;
    }

    lemma AskedIsSound(d: Source.Decision, e: Exec)
      requires source != null && source.Sound(d) && d.command >= 0 && source.target == target
      ensures var r := Asked(d, e, target);
        r.Some? ==> d.command > 0 && Admission.Envelope(r.value) && r.value.target == target
      ensures d.action == Source.Pulse || d.action == Source.Approach ==>
        (d.action == Source.Approach <==> d.phase == Admission.PHASE_APPROACH)
    {
    }

    /** What the executor answers to the calls a frame makes before it is decided on. */
    predicate Renewed(e: Exec, a: Answers, post: bool) {
      ((e.segment || e.brake) ==> a.refreshOk) && (post ==> a.postOk)
    }

    /** The frame's verdict `v` is passed on: the request it calls for, or the end of what runs, and nothing else. */
    predicate PassedOn(v: Source.Action, x: Exec, a: Answers, request: Option<Admission.Request>)
      reads `active
    {
      && (request.Some? <==> Wanted(v, x))
      && (request.Some? ==> (v == Source.Approach <==> request.value.phase == Admission.PHASE_APPROACH))
      && (active <==> (request.Some? ==> a.startOk) && (v == Source.BrakeNow && x.segment ==> a.endOk))
    }

    /** A frame the executor's answers let through reaches the source and is passed on; any other ends the session. */
    ghost predicate Handled(h: Hearing, e: Exec, a: Answers, post: bool, request: Option<Admission.Request>, t: int)
      reads `active, `phase, `state, source, `source, `sequence
    {
      && (!Renewed(e, a, post) ==> !active && request.None?)
      && (Renewed(e, a, post) && !h.Refused? ==> Told(t))
      && (Renewed(e, a, post) && !h.Seen? ==> PassedOn(Verdict(h), Judged(e, a), a, request))
      && (active && h.Heard? ==> phase == h.phase && state == StateOf(phase))
    }

    /** A driving session's frame renews what is running, answers the last pulse and is decided on. */
    method Respond(now: U32, e: Exec, a: Answers, ghost t: int)
      returns (request: Option<Admission.Request>, ghost post: bool)
      requires Valid() && Driving() && raw < target && now == Low(t) == accounted && source != null && source.clock <= t
      modifies `noResponse, `accounted, `past, `anchor, `contacted, `phase, `state, `active, `postPending,
        `postSequence, source
      ensures Valid() && (active ==> !monitoring && raw < target)
      ensures post == AnswersPulseAt(old(postPending), old(postSequence), Judged(e, a))
      ensures active ==>
        ((e.segment || e.brake) ==> a.refreshOk) && (post ==> a.postOk) && (request.Some? ==> a.startOk)
      ensures !active ==> state == Faulted
      ensures request.Some? ==>
        && Admission.Envelope(request.value) && request.value.target == target
        && (Judged(e, a).segment ==> Judged(e, a).coarse && request.value.phase != Admission.PHASE_APPROACH)
      ensures request.Some? && active ==>
        postSequence == sequence && (postPending <==> request.value.phase != Admission.PHASE_APPROACH)
      ensures request.None? && active ==> postPending == (old(postPending) && !post)
      ensures active ==>
        && noResponse == (if Gains(old(anchor), raw, post) then 0 else old(noResponse))
        && anchor == if Gains(old(anchor), raw, post) then raw else old(anchor)
      ensures accounted == now
      ensures || (noResponse == old(noResponse) && anchor == old(anchor) && past == old(past))
              || (noResponse == 0 && anchor == raw && Gains(old(anchor), raw, post) &&
                past == old(past).(gains := old(past).gains + 1))
      ensures Handled(old(Hear(raw, received, sequence, now, Judged(e, a))), e, a, post, request, t)
      ensures Spaced(request, old(Waited(now, Judged(e, a)))) && Planned(request)
    {
      hide Source.Source.Valid, Source.Source.Sound, Admission.Envelope, Budgeted, Metered, After, Reached,
        Source.Source.Refused, Source.Source.OnTime, Hear, Told;
      request, post := None, AnswersPulseAt(postPending, postSequence, Judged(e, a));
      var x := e;
      if e.segment || e.brake {
        if !a.refreshOk { Fail(now); return; }
        x := a.after;
      }
      var answers := AnswersPulse(x);
      if answers {
        if !a.postOk { Fail(now); return; }
        postPending := false;
      }
      ghost var d;
      request, d := Decide(now, x, a, answers, t);
      AskedPhase(d, x, target);
    }

    /** `ForceBuildMachine_Pressure`: at most one admissible request, made for this session's target,
        and at the target everything off. */
    method Pressure(now: U32, recent: bool, e: Exec, a: Answers, ghost t: int)
      returns (request: Option<Admission.Request>)
      requires Valid() && now == Low(t) && (active && !monitoring ==> source.clock <= t && accounted == now)
      modifies `noResponse, `accounted, `past, `anchor, `contacted, `phase, `state, `active, `monitoring, `postPending,
        `postSequence, source
      ensures Valid()
      ensures request.Some? ==>
        && old(Driving()) && recent && raw < target
        && Admission.Envelope(request.value) && request.value.target == target
      ensures Driving() ==> old(Driving()) && recent && raw < target && (request.Some? ==> a.startOk)
      ensures || (noResponse == old(noResponse) && anchor == old(anchor) && past == old(past))
              || (noResponse == 0 && old(anchor) + PROGRESS_N <= anchor == raw < target && old(postPending)
                  && past == old(past).(gains := old(past).gains + 1))
      ensures old(accounted) == now ==> accounted == now
      ensures !active && (old(active) || old(state) == Faulted) ==> state == Faulted
      ensures !old(active) ==> !active
      ensures request.Some? && !a.startOk ==> !active && state == Faulted
      ensures old(active) && !recent ==> !active && state == Faulted
      ensures recent && old(Driving()) && (target <= raw < BOUNDARY_N || target == raw) ==>
        if a.disableOk then active && monitoring && state == TargetReached else !active && state == Faulted
      ensures recent && raw < BOUNDARY_N && !old(Driving()) ==>
        postPending == (old(postPending) && !AnswersPulseAt(true, old(postSequence), e))
      ensures recent && raw >= BOUNDARY_N && !(target == BOUNDARY_N == raw && monitoring) ==>
        !active && state == Faulted
      ensures Driving() ==>
        if AnswersPulseAt(old(postPending), old(postSequence), Judged(e, a)) && raw - old(anchor) >= 2
        then noResponse == 0 && anchor == raw else noResponse == old(noResponse) && anchor == old(anchor)
      ensures recent && old(Driving()) && raw < target ==>
        Handled(old(Hear(raw, received, sequence, now, Judged(e, a))), e, a,
                AnswersPulseAt(old(postPending), old(postSequence), Judged(e, a)), request, t)
      ensures Spaced(request, old(Waited(now, Judged(e, a)))) && Planned(request)
    {
      hide Source.Source.Valid, Admission.Envelope, Budgeted, Metered, After, Reached, Hear, Handled, Waited;
      request := None;
      if !recent {
        if active { Fail(now); }
        return;
      }
      var on := AtBoundary(now, a);
      if !on { return; }
      if active && !monitoring && raw >= target { TargetOff(now, a.disableOk); return; }
      if !active || monitoring {
        if AnswersPulse(e) { postPending := false; }
        return;
      }
      ghost var post;
      request, post := Respond(now, e, a, t);
    }

    /** The end of the sensor's range is the target of a 3000 N session and a fault for any other. */
    method AtBoundary(now: U32, a: Answers) returns (on: bool)
      requires Valid() && (Driving() ==> accounted == now)
      modifies `noResponse, `accounted, `past, `state, `active, `monitoring, `phase
      ensures Valid() && noResponse == old(noResponse) && past == old(past) &&
        (old(accounted) == now ==> accounted == now)
      ensures raw < BOUNDARY_N ==> on && unchanged(`noResponse, `accounted, `past, `state, `active, `monitoring, `phase)
      ensures raw >= BOUNDARY_N && on ==> target == BOUNDARY_N == raw && monitoring && (old(active) || !active)
      ensures target == BOUNDARY_N == raw && old(Driving()) ==> on == a.disableOk && (on ==> state == TargetReached)
      ensures on ==> active == old(active) && (!active ==> state == old(state))
      ensures !on ==> !active && state == Faulted
    {
      hide Budgeted, Metered;
      if raw >= BOUNDARY_N {
        if active && target == BOUNDARY_N && !monitoring { TargetOff(now, a.disableOk); }
        if target != BOUNDARY_N || !monitoring || raw > BOUNDARY_N {
          Fail(now);
          return false;
        }
      }
      return true;
    }

    /** The old frame's deadline first, then the new frame. */
    method Check(measured: nat, at: U32, next: U64, now: U32, e: Exec)
      requires Valid()
      modifies `noResponse, `accounted, `past, `active, `state, `epoch, `anchored, `raw, `received, `sequence
      ensures Valid() && accounted == now && raw == measured && received == at && sequence == next
      ensures (Driving() <==> old(Survives(now, e))) && (Driving() ==> old(Driving()))
      ensures old(active) && !active ==> state == Faulted
      ensures past.driven == old(past).driven + (if old(Timed()) then Minus(now, old(accounted)) else 0)
      ensures past.readings == old(past).readings + [e.epoch]
      ensures Timed() && old(epoch) == e.epoch ==> noResponse == old(noResponse) + Minus(now, old(accounted))
    {
      hide Source.Source.Valid, Budgeted, Metered, CutOff, Reached, Survives;
      Safety(now, e);
      TakeFrame(measured, at, next);
    }

    /** The pulse whose answer is awaited, by the frame it was decided on. */
    function Awaiting(): Option<U64>
      reads `postPending, `postSequence
    {
      if postPending then Some(postSequence) else None
    }

    /** A newer frame received at or after the end of what ran answers it. */
    static predicate IsAnswered(awaited: Option<U64>, e: Exec, a: Answers, next: U64, at: U32) {
      var seen := if e.segment || e.brake then a.after else e;
      awaited.Some? && !seen.segment && After(next, awaited.value) && Reached(at, seen.ended)
    }

    /** What a valid, ordered frame does to a session: the old frame's deadline first, then the frame. While the
        session goes on driving outside the approach in one epoch, the pair of the distance still to gain
        and the budget still left goes down with every millisecond. */
    method HandleSample(measured: nat, at: U32, next: U64, now: U32, recent: bool, e: Exec, x: Exec, a: Answers,
      ghost t: int)
      returns (request: Option<Admission.Request>)
      requires Valid() && now == Low(t) && (Driving() ==> source.clock <= t)
      modifies this, source
      ensures Valid() && accounted == now && target == old(target)
      ensures request.Some? ==>
        old(Driving()) && recent && raw < target && Admission.Envelope(request.value) && request.value.target == target
      ensures request.Some? && !a.startOk ==> !active && state == Faulted
      ensures old(Driving()) && !active ==> state == Faulted
      ensures old(Survives(now, e)) && recent && (target <= measured < 3000 || measured == target) ==>
        request.None? && if a.disableOk then active && monitoring && state == TargetReached else !active
      ensures old(Driving()) && (!old(Survives(now, e)) || !recent) ==> !active
      ensures sequence == next
      ensures past.driven == old(past).driven + (if old(Timed()) then Minus(now, old(accounted)) else 0)
      ensures Driving() ==> old(Driving()) && raw < target && past.readings == old(past).readings + [e.epoch]
      ensures Driving() && old(Timed()) && old(epoch) == e.epoch ==>
        || (anchor == old(anchor) && noResponse == old(noResponse) + Minus(now, old(accounted)))
        || (old(anchor) + PROGRESS_N <= anchor < target && noResponse == 0)
      ensures Driving() && old(Timed()) && old(epoch) == e.epoch && now != old(accounted) ==>
        Lower(target - anchor, BUDGET_MS - noResponse, target - old(anchor), BUDGET_MS - old(noResponse))
      ensures old(Survives(now, e)) && recent && raw < target ==>
        Handled(old(Hear(measured, at, next, now, Judged(x, a))), x, a, IsAnswered(old(Awaiting()), x, a, next, at),
                request, t)
      ensures Driving() ==>
        if IsAnswered(old(Awaiting()), x, a, next, at) && measured - old(anchor) >= 2
        then anchor == measured && noResponse == 0 else anchor == old(anchor)
      ensures Spaced(request, old(Waited(now, Judged(x, a)))) && Planned(request)
    {
      hide Source.Source.Valid, Admission.Envelope, Budgeted, Metered, CutOff, Reached, Hear, Handled,
        Survives, Waited, Spaced, Planned;
      Check(measured, at, next, now, e);
      request := Pressure(now, recent, x, a, t);
    }

    lemma FirstHeard(s: Source.Source, p: nat, at: U32, next: U64, now: U32, e: Exec)
      requires s == source && s.Fresh(now) && p < s.target <= 3000 && !(e.segment && !e.coarse)
      ensures Hear(p, at, next, now, e) == FirstHearing(p, at, now, e, s.target)
    {
    }

    /** The first frame of an opened session. */
    method SetOff(now: U32, e: Exec, a: Answers, ghost t: int) returns (request: Option<Admission.Request>)
      requires Valid() && Driving() && raw < target && now == Low(t) == accounted && anchor == raw
      requires source.Fresh(now) && source.clock <= t
      modifies `noResponse, `accounted, `past, `anchor, `contacted, `phase, `state, `active, `monitoring, `postPending,
        `postSequence, source
      ensures Valid() && noResponse == old(noResponse) && past == old(past) && (active || state == Faulted)
      ensures request.Some? ==> Admission.Envelope(request.value) && request.value.target == target
      ensures !(Judged(e, a).segment && !Judged(e, a).coarse) ==>
        Handled(FirstHearing(raw, received, now, Judged(e, a), target), e, a,
                AnswersPulseAt(old(postPending), old(postSequence), Judged(e, a)), request, t)
    {
      hide Source.Source.Valid, Source.Source.Fresh, Admission.Envelope, Budgeted, Metered, Handled, FirstHearing, Hear,
        AnswersPulseAt;
      phase := if raw < CONTACT_N && target - raw > 3 then Admission.PHASE_APPROACH else Admission.PHASE_BUILD;
      state := if phase == Admission.PHASE_APPROACH then Approaching else Building;
      if !(Judged(e, a).segment && !Judged(e, a).coarse) {
        FirstHeard(source, raw, received, sequence, now, Judged(e, a));
      }
      request := Pressure(now, true, e, a, t);
    }

    /** `ForceBuildMachine_Begin`: a new session starts from the pressure of its first frame; the clock
        it carries is not refunded, only a new epoch clears it. */
    method Begin(now: U32, e: Exec, servoOk: bool, beginOk: bool, a: Answers, ghost t: int)
      returns (ok: bool, request: Option<Admission.Request>)
      requires Valid() && !active && state != Faulted && now == Low(t)
      modifies this, source
      ensures Valid() && (ok <==> state != Faulted) && (ok ==> active) && target == old(target)
      ensures noResponse == if old(epoch) == e.epoch then old(noResponse) else 0
      ensures past.start == raw && past.driven == past.charged == past.gains == past.epochs == 0 &&
        past.readings == [e.epoch]
      ensures request.Some? ==> raw < target && Admission.Envelope(request.value) && request.value.target == target
      ensures raw >= target ==> ok == a.disableOk && request.None? && (ok ==> monitoring)
      ensures raw < target && servoOk && beginOk && !(Judged(e, a).segment && !Judged(e, a).coarse) ==>
        Handled(FirstHearing(raw, received, now, Judged(e, a), target), e, a,
                AnswersPulseAt(old(postPending), old(postSequence), Judged(e, a)), request, t)
    {
      hide Source.Source.Valid, Admission.Envelope, Budgeted, Metered, Handled, FirstHearing, Hear;
      request := None;
      OpenSession(now, e.epoch, t);
      if raw >= target {
        TargetOff(now, a.disableOk);
        return state != Faulted, None;
      }
      if !servoOk || !beginOk { Fail(now); return false, None; }
      request := SetOff(now, e, a, t);
      return state != Faulted, request;
    }

    method OpenSession(now: U32, e: U32, ghost t: int)
      requires Valid() && !active && now == Low(t)
      modifies `epoch, `noResponse, `anchored, `past, `accounted, `monitoring, `contacted, `anchor, `active, `state,
        `source
      ensures Valid() && active && !monitoring && epoch == e && source != null && fresh(source) && source.clock == t
      ensures source.Fresh(now)
      ensures noResponse == (if old(epoch) == e then old(noResponse) else 0)
      ensures anchor == raw && past == History(0, 0, 0, 0, 0, [epoch], raw) && accounted == now
    {
      hide Source.Source.Valid, Budgeted, Low, Read, Metered;
      FreshIsMetered(e, raw);
      SyncEpoch(e);
      Rebase(now);
      Equip(now, t);
      active, state := true, Approaching;
    }

    /** `ForceBuildSource_Reset`: nothing learned outlives its session. */
    method Equip(now: U32, ghost t: int)
      requires 1 <= target <= 3000 && now == Low(t)
      modifies `source
      ensures source != null && fresh(source) && source.Valid() && source.target == target && source.clock == t
      ensures source.Fresh(now)
    {
      source := new Source.Source(target, now, t);
    }

    /** A session measures its progress from its own first frame. */
    method Rebase(now: U32)
      requires Budgeted()
      modifies `anchored, `past, `accounted, `monitoring, `contacted, `anchor
      ensures Budgeted() && !monitoring && anchor == raw && past == History(0, 0, 0, 0, 0, [epoch], raw) &&
        accounted == now
    {
      hide Source.Source.Valid;
      accounted, monitoring, contacted := now, false, raw >= CONTACT_N;
      anchor, anchored := raw, true;
      past := History(0, 0, 0, 0, 0, [epoch], raw);
    }

    /** A session's driving time outside the approach is bounded: one budget, one more for every PROGRESS_N
        newtons gained on the way to its target, one for every rest completed meanwhile, and the last look. */
    lemma ResponseTimeIsBounded()
      requires Valid()
      ensures past.driven <=
        BUDGET_MS * (1 + (if past.start < target then (target - past.start) / PROGRESS_N else 0) + past.epochs)
                             + past.longest * Looks()
      ensures past.epochs == Changes(past.readings)
    {
    }
  }
}
