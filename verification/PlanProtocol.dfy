/** The plan transaction on the register bus and the commands around it: begin, stage, commit, read
    back, acknowledge, arm, and one START. Bit masks are the sets of their bits. */
module PlanProtocol {
  import opened StartAuthority

  const PLAN_BEGIN := 0x500
  const PLAN_COMMIT := 0x501
  const PLAN_STAGE := 0x510
  const PLAN_ACK := 0x520
  const PLAN_ARM := 0x524

  const BEGIN_KEY := 0xB501
  const COMMIT_KEY := 0xC501
  const ARM_KEY := 0xA501

  const LAST_VERSION: U32 := 0xFFFF_FFFF
  const START_WAIT_MS := 250

  datatype Result = Accepted | InvalidValue | Busy | NotReady | NotAllowed | ExecutorFailed

  datatype State = Idle | Running | Fault

  /** Parts of the firmware this protocol only calls: plan validity, its digest, the target number in
      its first float, and the motor commands its percentages stand for. */
  datatype Rules = Rules(
    valid: seq<U32> -> bool, profileOk: seq<U32> -> bool, digest: seq<U32> -> U32,
    targetOf: seq<U32> -> nat, percent: U32 -> U16)

  /** What the executor answers at the moment of a call. */
  datatype Motor = Motor(off: bool, active: bool, healthy: bool, disables: bool)

  function Plan(words: seq<U16>): seq<U32>
    requires |words| == 10
  {
    [Join(words[0], words[1]), Join(words[2], words[3]), Join(words[4], words[5])]
  }

  /** The plan on offer and what the bus has done with it since its commit. */
  datatype Offer = Offer(version: U32, digest: U32, plan: seq<U32>, target: nat, read: set<nat>, acked: set<nat>,
    ack: seq<U16>)

  /** The trace holds the offer's commit, its words, and everything read and acknowledged since. */
  ghost predicate Holds(t: seq<Act>, c: nat, o: Offer)
    requires |o.ack| == 4
  {
    && InForce(t, c, |t|)
    && t[c].version == o.version && t[c].digest == o.digest && t[c].target == o.target
    && |t[c].words| == 10 && o.plan == Plan(t[c].words)
    && (forall i :: i in o.read ==> WordReadBetween(t, i, c, |t|))
    && (forall i :: i in o.acked && i < 4 ==> AckWord(t, i, c, |t|) == Some(o.ack[i]))
  }

  lemma HoldsFresh(t: seq<Act>, x: Act, ack: seq<U16>)
    requires x.Committed? && |x.words| == 10 && |ack| == 4
    ensures Holds(t + [x], |t|, Offer(x.version, x.digest, Plan(x.words), x.target, {}, {}, ack))
  {
  }

  /** One more act that leaves the plan in force: nothing read or acknowledged is forgotten. */
  lemma HoldsOn(t: seq<Act>, x: Act, c: nat, o: Offer)
    requires |o.ack| == 4 && Holds(t, c, o) && !Supersedes(x) && !x.Acked?
    ensures Holds(t + [x], c, o)
    ensures x.WordRead? ==> Holds(t + [x], c, o.(read := o.read + {x.slot}))
  {
    hide AckWord, WordReadBetween;
    InForceStays(t, x, c);
    forall i | i in o.read ensures WordReadBetween(t + [x], i, c, |t| + 1) {
      ReadStays(t, x, i, c);
    }
    if x.WordRead? { ReadNow(t, x.slot, c); }
    forall i | i in o.acked && i < 4 ensures AckWord(t + [x], i, c, |t| + 1) == Some(o.ack[i]) {
      AckWordNext(t, x, i, c);
    }
  }

  lemma HoldsAcked(t: seq<Act>, i: nat, v: U16, c: nat, o: Offer)
    requires |o.ack| == 4 && Holds(t, c, o) && i < 4
    ensures Holds(t + [Acked(i, v)], c, o.(acked := o.acked + {i}, ack := o.ack[i := v]))
  {
    hide AckWord, WordReadBetween, InForce;
    var x, u := Acked(i, v), t + [Acked(i, v)];
    InForceStays(t, x, c);
    assert InForce(u, c, |u|) && u[c] == t[c] by { InForceWithin(t, c); }
    forall j | j in o.read ensures WordReadBetween(u, j, c, |u|) {
      ReadStays(t, x, j, c);
    }
    InForceWithin(t, c);
    var p := o.(acked := o.acked + {i}, ack := o.ack[i := v]);
    forall j | j in p.acked && j < 4 ensures AckWord(u, j, c, |u|) == Some(p.ack[j]) {
      AckWordNext(t, x, j, c);
    }
  }

  lemma InForceWithin(t: seq<Act>, c: nat)
    requires InForce(t, c, |t|)
    ensures c < |t|
  {
  }

  lemma PlanIsThree(words: seq<U16>)
    requires |words| == 10
    ensures |Plan(words)| == 3
  {
  }

  /** What an accepted write other than a commit is recorded as. */
  function ActOf(a: nat, v: U16): Act {
    if PLAN_STAGE <= a < PLAN_STAGE + 10 then Staged(a - PLAN_STAGE, v)
    else if PLAN_ACK <= a < PLAN_ACK + 4 then Acked(a - PLAN_ACK, v)
    else if a == PLAN_ARM then Armed else Opened
  }

  class Desk {
    const rules: Rules
    const staging: array<U16>
    const ack: array<U16>
    var stagingOpen: bool
    var mask: set<nat>
    var readMask: set<nat>
    var ackMask: set<nat>
    var version: U32
    var digest: U32
    var plan: seq<U32>
    var available: bool
    var armed: bool
    var target: nat
    var targetValid: bool
    var state: State
    var active: bool
    var startPending: bool
    var session: U32
    // history
    ghost var trace: seq<Act>
    ghost var commit: nat            // the commit the plan in force came from
    ghost var request: nat           // the START a pending or running session came from

    ghost predicate Tables()
      reads `plan, `mask, `readMask, `ackMask
    {
      staging.Length == 10 && ack.Length == 4 && staging != ack && |plan| == 3
      && (forall i :: i in mask ==> i < 10) && (forall i :: i in readMask ==> i < 12) &&
        (forall i :: i in ackMask ==> i < 4)
    }

    ghost function Offering(): Offer
      reads `version, `digest, `plan, `target, `readMask, `ackMask, ack
    {
      Offer(version, digest, plan, target, readMask, ackMask, ack[..])
    }

    ghost predicate Offered()
      reads `version, `digest, `plan, `target, `readMask, `ackMask, ack, `available, `armed, `targetValid, `trace,
        `commit
    {
      && ack.Length == 4
      && (available ==> targetValid && Holds(trace, commit, Offering()))
      && (armed ==> available && Authorised(trace, commit, |trace|))
    }

    /** A waiting or running session has an authorised request of its own, and the target of its commit. */
    ghost predicate Owned()
      reads `startPending, `active, `state, `available, `request, `trace, `commit, `target
    {
      && !(startPending && active) && (startPending ==> state == Idle) && (active ==> state == Running)
      && (startPending || active ==>
          && !available && request < |trace| && trace[request].Requested? && Authorised(trace, commit, request)
          && commit < |trace| && trace[commit].Committed? && trace[commit].target == target
          && (forall j :: request < j < |trace| ==>
            !trace[j].Requested? && !trace[j].Revoked? && (startPending ==> !trace[j].Started?)))
    }

    ghost predicate Valid()
      reads this, ack
    {
      Tables() && Offered() && Owned() && VersionsUpTo(trace, version) && AllProper(trace)
    }

    constructor (r: Rules)
      ensures Valid() && trace == [] && rules == r && version == 0 && !available && !armed && !startPending && !active
      ensures fresh(staging) && fresh(ack) && state == Idle
    {
      rules, staging, ack := r, new U16[10], new U16[4];
      stagingOpen, mask, readMask, ackMask, version, digest, plan := false, {}, {}, {}, 0, 0, [0, 0, 0];
      available, armed, target, targetValid, state := false, false, 0, false, Idle;
      active, startPending, session := false, false, 0;
      trace, commit, request := [], 0, 0;
    }

    /** STOP and faults end the session and its authority. */
    method Withdraw(next: State)
      requires Valid() && next != Running
      modifies this`available, this`armed, this`trace, this`startPending, this`active, this`state
      ensures Valid() && !available && !armed && !startPending && !active && state == next
      ensures trace == old(trace) + [Revoked]
    {
      hide AllProper, VersionsUpTo, Authorised, Holds;
      AllStayProper(trace, Revoked);
      VersionsStay(trace, Revoked, version);
      available, armed, startPending, active, state := false, false, false, false, next;
      trace := trace + [Revoked];
    }

    /** An invalid plan write, or a target command, takes back the plan but not a running session. */
    method Drop()
      requires Valid()
      modifies this`available, this`armed, this`targetValid, this`trace
      ensures Valid() && !available && !armed && !targetValid && trace == old(trace) + [Dropped]
    {
      hide AllProper, VersionsUpTo, Authorised, Holds;
      AllStayProper(trace, Dropped);
      VersionsStay(trace, Dropped, version);
      if startPending || active { AuthorisedStays(trace, Dropped, commit, request); }
      available, armed, targetValid := false, false, false;
      trace := trace + [Dropped];
    }

    method Open()
      requires Valid() && !startPending && !active
      modifies this`stagingOpen, this`mask, this`readMask, this`ackMask, this`available, this`armed, this`targetValid,
        this`trace
      ensures Valid() && stagingOpen && mask == readMask == ackMask == {} && !available && !armed && !targetValid
      ensures trace == old(trace) + [Opened]
    {
      hide AllProper, VersionsUpTo, Authorised, Holds;
      AllStayProper(trace, Opened);
      VersionsStay(trace, Opened, version);
      armed, stagingOpen, mask, readMask, ackMask := false, true, {}, {}, {};
      available, targetValid := false, false;
      trace := trace + [Opened];
    }

    method Stage(i: nat, v: U16)
      requires Valid() && !startPending && !active && i < 10
      modifies this`mask, this`armed, this`trace, staging
      ensures Valid() && !armed && mask == old(mask) + {i} && trace == old(trace) + [Staged(i, v)]
      ensures staging[..] == old(staging[..])[i := v]
    {
      hide AllProper, VersionsUpTo, Authorised, Holds;
      AllStayProper(trace, Staged(i, v));
      VersionsStay(trace, Staged(i, v), version);
      if available { HoldsOn(trace, Staged(i, v), commit, Offering()); }
      armed := false;
      staging[i] := v;
      mask := mask + {i};
      trace := trace + [Staged(i, v)];
    }

    method Acknowledge(i: nat, v: U16)
      requires Valid() && !startPending && !active && i < 4 && available
      modifies this`ackMask, this`armed, this`trace, ack
      ensures Valid() && !armed && available && ackMask == old(ackMask) + {i} && trace == old(trace) + [Acked(i, v)]
      ensures ack[..] == old(ack[..])[i := v]
    {
      hide AllProper, VersionsUpTo, Authorised, Holds;
      AllStayProper(trace, Acked(i, v));
      VersionsStay(trace, Acked(i, v), version);
      HoldsAcked(trace, i, v, commit, Offering());
      armed := false;
      ack[i] := v;
      ackMask := ackMask + {i};
      trace := trace + [Acked(i, v)];
    }

    predicate Quiet(motor: Motor)
      reads this
    {
      state == Idle && !active && !startPending && motor.off && !motor.active
    }

    method Invalid() returns (r: Result)
      requires Valid() && !startPending && !active
      modifies this`available, this`armed, this`stagingOpen, this`targetValid, this`trace
      ensures Valid() && r == InvalidValue && !available && !armed && !stagingOpen && trace == old(trace) + [Dropped]
    {
      Drop();
      stagingOpen := false;
      return InvalidValue;
    }

    /** The staged words are whole, name the current version, are valid and digest as claimed. */
    predicate Committable()
      reads this, staging
    {
      && staging.Length == 10 && mask == Bits(10) && version != LAST_VERSION
      && Join(staging[6], staging[7]) == version
      && rules.valid(Plan(staging[..])) && rules.profileOk(Plan(staging[..]))
      && Join(staging[8], staging[9]) == rules.digest(Plan(staging[..]))
    }

    method CommitPlan(motor: Motor) returns (r: Result)
      requires Valid() && !startPending && !active && state == Idle
      modifies this`available, this`armed, this`stagingOpen, this`targetValid, this`trace, this`plan, this`digest,
        this`version,
               this`target, this`readMask, this`ackMask, this`commit
      ensures Valid() && !armed && !stagingOpen
      ensures r == (if old(Committable()) && old(Quiet(motor)) then Accepted else InvalidValue)
      ensures r == Accepted ==>
        && available && version == old(version) + 1 && plan == Plan(old(staging[..])) && target == rules.targetOf(plan)
        && targetValid && digest == rules.digest(plan)
        && trace == old(trace) + [Committed(version, rules.digest(plan), target, old(staging[..]))] &&
          commit == |old(trace)|
        && readMask == {} && ackMask == {}
      ensures r != Accepted ==> !available && version == old(version) && trace == old(trace) + [Dropped]
    {
      hide AllProper, VersionsUpTo, Authorised, Holds;
      if mask != Bits(10) || version == LAST_VERSION { r := Invalid(); return; }
      var p := Plan(staging[..]);
      var claimed, sum := Join(staging[6], staging[7]), Join(staging[8], staging[9]);
      if claimed != version || !rules.valid(p) || sum != rules.digest(p) { r := Invalid(); return; }
      if !rules.profileOk(p) { r := Invalid(); return; }
      if !(motor.off && !motor.active) { r := Invalid(); return; }
      Store(p, sum);
      return Accepted;
    }

    /** The new plan replaces the old one; nothing of it is read back or acknowledged yet. */
    method Replace(p: seq<U32>, sum: U32)
      requires version != LAST_VERSION && Tables() && |p| == 3
      modifies this`available, this`armed, this`stagingOpen, this`targetValid, this`plan, this`digest, this`version,
               this`target, this`readMask, this`ackMask
      ensures Tables() && plan == p && digest == sum && version == old(version) + 1 && target == rules.targetOf(p)
      ensures available && targetValid && !armed && !stagingOpen && readMask == {} && ackMask == {}
    {
      plan, digest, version := p, sum, version + 1;
      target, targetValid, available, armed, stagingOpen := rules.targetOf(p), true, true, false, false;
      readMask, ackMask := {}, {};
    }

    method Store(p: seq<U32>, sum: U32)
      requires Valid() && !startPending && !active && version != LAST_VERSION && p == Plan(staging[..])
      modifies this`available, this`armed, this`stagingOpen, this`targetValid, this`trace, this`plan, this`digest,
        this`version,
               this`target, this`readMask, this`ackMask, this`commit
      ensures Valid() && !armed && !stagingOpen && available && version == old(version) + 1 && plan == p
      ensures targetValid && digest == sum
      ensures target == rules.targetOf(plan) && commit == |old(trace)| && readMask == {} && ackMask == {}
      ensures trace == old(trace) + [Committed(version, sum, target, staging[..])]
    {
      hide Tables, AllProper, VersionsUpTo, Authorised, Holds, Plan;
      ghost var x := Committed(version + 1, sum, rules.targetOf(p), staging[..]);
      Sized();
      NewCommit(trace, x, version);
      HoldsFresh(trace, x, ack[..]);
      AllStayProper(trace, x);
      ghost var before := trace;
      PlanIsThree(staging[..]);
      Replace(p, sum);
      commit := |trace|;
      trace := trace + [x];
      assert Offering() == Offer(x.version, x.digest, Plan(x.words), x.target, {}, {}, ack[..]);
    }

    /** What ARM asks for: every word read back since the commit, and its version and digest acknowledged. */
    predicate Armable()
      reads this, ack
    {
      && ack.Length == 4 && available && readMask == Bits(12) && ackMask == Bits(4)
      && Join(ack[0], ack[1]) == version && Join(ack[2], ack[3]) == digest
    }

    method Arm()
      requires Valid() && !startPending && !active && Armable()
      modifies this`armed, this`trace
      ensures Valid() && armed && available && trace == old(trace) + [Armed]
    {
      hide Tables, AllProper, VersionsUpTo, Authorised, Holds;
      AllStayProper(trace, Armed);
      VersionsStay(trace, Armed, version);
      HoldsOn(trace, Armed, commit, Offering());
      ArmAuthorises();
      armed := true;
      trace := trace + [Armed];
    }

    lemma ArmAuthorises()
      requires Valid() && Armable()
      ensures Authorised(trace + [Armed], commit, |trace| + 1)
    {
      hide AllProper, VersionsUpTo, AckWord, WordReadBetween;
      var t := trace + [Armed];
      InForceStays(trace, Armed, commit);
      HalvesJoin(ack[0], ack[1]);
      HalvesJoin(ack[2], ack[3]);
      AckWordSame(trace, Armed, 0, commit, |trace|);
      AckWordSame(trace, Armed, 1, commit, |trace|);
      AckWordSame(trace, Armed, 2, commit, |trace|);
      AckWordSame(trace, Armed, 3, commit, |trace|);
      forall i | 0 <= i < 12 ensures WordReadBetween(t, i, commit, |trace|) {
        assert i in readMask;
        ReadStaysAt(trace, Armed, i, commit);
      }
      assert ArmedFor(t, commit, |trace|, |trace| + 1);
    }

    /** The writes `plan_write` takes; any other revokes the plan. */
    predicate Accepts(a: nat, v: U16, motor: Motor)
      reads this, staging, ack
    {
      || (a == PLAN_BEGIN && v == BEGIN_KEY)
      || (PLAN_STAGE <= a < PLAN_STAGE + 10 && stagingOpen)
      || (a == PLAN_COMMIT && v == COMMIT_KEY && stagingOpen && Committable() && motor.off && !motor.active)
      || (PLAN_ACK <= a < PLAN_ACK + 4 && available)
      || (a == PLAN_ARM && v == ARM_KEY && Armable())
    }

    /** `plan_write` behind the gate of `ForceServoProtocol_Write`: refused without effect unless idle and
        off; anything it does not recognise revokes the plan. */
    method Write(a: nat, v: U16, gate: Motor, motor: Motor) returns (r: Result)
      requires Valid()
      modifies this, staging, ack
      ensures Valid() && (r == Busy <==> !old(Quiet(gate)))
      ensures r == Accepted <==> old(Quiet(gate)) && old(Accepts(a, v, motor))
      ensures r == Accepted && a != PLAN_COMMIT ==> trace == old(trace) + [ActOf(a, v)]
      ensures staging[..] == if r == Accepted && ActOf(a, v).Staged? && a != PLAN_COMMIT then
        old(staging[..])[a - PLAN_STAGE := v] else old(staging[..])
      ensures r == Busy ==> trace == old(trace) && armed == old(armed) && available == old(available)
      ensures r != Busy ==> |trace| == |old(trace)| + 1 && old(trace) <= trace
      ensures r != Busy ==> (armed <==> a == PLAN_ARM && v == ARM_KEY && old(Armable()))
      ensures r == InvalidValue ==> !available && !armed && !stagingOpen && trace == old(trace) + [Dropped]
      ensures r == Accepted && a == PLAN_COMMIT ==> version == old(version) + 1 && trace[|old(trace)|].Committed?
      ensures !(r == Accepted && a == PLAN_COMMIT) ==> version == old(version)
      ensures state == old(state) && active == old(active) && startPending == old(startPending)
      ensures r == Accepted && a == PLAN_BEGIN ==> stagingOpen && mask == readMask == ackMask == {} && !available
      ensures r == Accepted && a == PLAN_COMMIT ==>
        && available && targetValid && readMask == ackMask == {} && commit == |old(trace)|
        && plan == Plan(staging[..]) && digest == rules.digest(plan) && target == rules.targetOf(plan)
      ensures r == Accepted && a != PLAN_BEGIN && a != PLAN_COMMIT ==>
        && plan == old(plan) && digest == old(digest) && target == old(target) && targetValid == old(targetValid)
        && available == old(available) && stagingOpen == old(stagingOpen) && readMask == old(readMask)
        && mask == (if ActOf(a, v).Staged? then old(mask) + {a - PLAN_STAGE} else old(mask))
        && ackMask == (if ActOf(a, v).Acked? then old(ackMask) + {a - PLAN_ACK} else old(ackMask))
        && ack[..] == if ActOf(a, v).Acked? then old(ack[..])[a - PLAN_ACK := v] else old(ack[..])
    {
      hide Tables, Offered, Owned, AllProper, VersionsUpTo;
      if !(state == Idle && !active && !startPending && gate.off && !gate.active) { return Busy; }
      Sized();
      if a == PLAN_BEGIN && v == BEGIN_KEY {
        Open();
        return Accepted;
      }
      if PLAN_STAGE <= a < PLAN_STAGE + 10 && stagingOpen {
        Stage(a - PLAN_STAGE, v);
        return Accepted;
      }
      if a == PLAN_COMMIT && v == COMMIT_KEY && stagingOpen {
        r := CommitPlan(motor);
        return;
      }
      if PLAN_ACK <= a < PLAN_ACK + 4 && available {
        Acknowledge(a - PLAN_ACK, v);
        return Accepted;
      }
      if a == PLAN_ARM && v == ARM_KEY && available && readMask == Bits(12) && ackMask == Bits(4) &&
         Join(ack[0], ack[1]) == version && Join(ack[2], ack[3]) == digest {
        Arm();
        return Accepted;
      }
      r := Invalid();
    }

    lemma Sized()
      requires Valid()
      ensures ack.Length == 4 && staging.Length == 10 && |plan| == 3
    {
    }

    /** Word i of the plan in force: its floats, its motor commands, its version and its digest. */
    function PlanWord(i: nat): U16
      reads this
      requires i < 12 && |plan| == 3
    {
      if i < 6 then (if i % 2 == 1 then Low16(plan[i / 2]) else High(plan[i / 2]))
      else if i == 6 then rules.percent(plan[1])
      else if i == 7 then rules.percent(plan[2])
      else
        var u := if i < 10 then version else digest;
        if i % 2 == 1 then Low16(u) else High(u)
    }

    /** The read-back. The float words that come back are the words that were staged. */
    method ReadWord(i: nat) returns (v: U16)
      requires Valid() && i < 12
      modifies this`readMask, this`trace
      ensures Valid() && readMask == old(readMask) + {i} && trace == old(trace) + [WordRead(i)]
      ensures armed == old(armed) && available == old(available)
      ensures v == old(PlanWord(i))
      ensures available && i < 6 ==> v == trace[commit].words[i]
    {
      hide AllProper, VersionsUpTo, Authorised, Holds;
      v := PlanWord(i);
      ghost var x := WordRead(i);
      AllStayProper(trace, x);
      VersionsStay(trace, x, version);
      if available {
        HoldsOn(trace, x, commit, Offering());
        if i < 6 { WordsReadBack(i); }
      }
      if armed { AuthorisedStays(trace, x, commit, |trace|); }
      if startPending || active { AuthorisedStays(trace, x, commit, request); }
      readMask := readMask + {i};
      trace := trace + [x];
    }

    lemma WordsReadBack(i: nat)
      requires Valid() && available && i < 6
      ensures commit < |trace| && trace[commit].Committed? && |trace[commit].words| == 10 &&
        PlanWord(i) == trace[commit].words[i]
    {
      hide AllProper, VersionsUpTo, Authorised;
      var w := trace[commit].words;
      HalvesJoin(w[0], w[1]);
      HalvesJoin(w[2], w[3]);
      HalvesJoin(w[4], w[5]);
    }

    /** START: accepted only on an armed plan, which it uses up. `ready` and `admissible` stand for the
        build budget and the plan rules met at this moment. */
    method Start(motor: Motor, cooling: bool, ready: bool, admissible: bool) returns (r: Result)
      requires Valid()
      modifies this`available, this`armed, this`startPending, this`trace, this`request
      ensures Valid() && version == old(version)
      ensures r == Accepted <==>
        && old(state) == Idle && !old(active) && !old(startPending) && !cooling && old(targetValid) && ready
        && old(armed) && old(available) && motor.healthy && motor.off && admissible
      ensures r == Accepted ==>
        && startPending && !armed && !available && trace == old(trace) + [Requested]
        && Authorised(trace, commit, request) && request == |old(trace)|
      ensures r != Accepted ==> trace == old(trace) && armed == old(armed) && startPending == old(startPending)
    {
      hide Tables, Holds, AllProper, VersionsUpTo, Authorised;
      if state != Idle || active || startPending { return Busy; }
      if cooling { return NotReady; }
      if !targetValid || !ready || !armed || !available || !motor.healthy || !motor.off { return NotReady; }
      if !admissible { return NotReady; }
      AllStayProper(trace, Requested);
      VersionsStay(trace, Requested, version);
      AuthorisedStays(trace, Requested, commit, |trace|);
      CommitStands();
      armed, available, startPending := false, false, true;
      request := |trace|;
      trace := trace + [Requested];
      return Accepted;
    }

    lemma CommitStands()
      requires Offered() && available
      ensures commit < |trace| && trace[commit].Committed? && trace[commit].target == target
    {
    }

    /** STOP is always taken. */
    method Stop(motor: Motor) returns (r: Result)
      requires Valid()
      modifies this`available, this`armed, this`trace, this`startPending, this`active, this`state
      ensures Valid() && !available && !armed && !startPending && !active && trace == old(trace) + [Revoked]
      ensures r == (if motor.disables then Accepted else ExecutorFailed)
      ensures state == if !motor.disables || old(state) == Fault then Fault else Idle
    {
      Withdraw(if !motor.disables || state == Fault then Fault else Idle);
      return if motor.disables then Accepted else ExecutorFailed;
    }

    method ReportFault()
      requires Valid()
      modifies this`available, this`armed, this`trace, this`startPending, this`active, this`state
      ensures Valid() && !available && !armed && !startPending && !active && state == Fault &&
        trace == old(trace) + [Revoked]
    {
      Withdraw(Fault);
    }

    /** Clearing a fault gives back no authority. */
    method Reset(motor: Motor) returns (r: Result)
      requires Valid()
      modifies this`state
      ensures Valid() && (r == Accepted <==> old(state) == Fault && motor.off && motor.healthy)
      ensures state == if r == Accepted then Idle else old(state)
    {
      hide Tables, Offered, AllProper, VersionsUpTo, Authorised;
      if state == Fault && motor.off && motor.healthy {
        state := Idle;
        return Accepted;
      }
      return NotAllowed;
    }

    method SetTarget() returns (r: Result)
      requires Valid()
      modifies this`available, this`armed, this`targetValid, this`trace
      ensures Valid() && r == NotAllowed && !available && !armed && !targetValid && target == old(target)
      ensures trace == old(trace) + [Dropped]
    {
      Drop();
      return NotAllowed;
    }

    /** A new session, never numbered zero, takes over the pending request. */
    method TakeRequest()
      requires Valid() && startPending
      modifies this`startPending, this`active, this`state, this`session, this`trace
      ensures Valid() && session != 0 && session == (if old(session) == LAST_VERSION then 1 else old(session) + 1)
      ensures active && trace == old(trace) + [Started(session, target)]
    {
      hide Tables, Holds, AllProper, VersionsUpTo, Authorised;
      session := if session == LAST_VERSION then 1 else session + 1;
      ghost var x := Started(session, target);
      RequestFollowsCommit();
      StartIsProper(trace, commit, request, x);
      VersionsStay(trace, x, version);
      AuthorisedStays(trace, x, commit, request);
      startPending, active, state := false, true, Running;
      trace := trace + [x];
    }

    /** `begin_session` on the pending request; `begun` is the executor's answer. */
    method Begin(begun: bool) returns (r: Result)
      requires Valid() && startPending
      modifies this`startPending, this`active, this`state, this`session, this`trace, this`available, this`armed
      ensures Valid() && session != 0 && session == (if old(session) == LAST_VERSION then 1 else old(session) + 1)
      ensures !startPending && active == begun && target == old(target) && state == (if begun then Running else Fault)
      ensures r == (if begun then Accepted else ExecutorFailed)
      ensures trace == old(trace) + [Started(session, target)] + (if begun then [] else [Revoked])
    {
      hide Tables, Offered, AllProper, VersionsUpTo, Authorised;
      TakeRequest();
      if !begun { ReportFault(); }
      return if begun then Accepted else ExecutorFailed;
    }

    lemma RequestFollowsCommit()
      requires Owned() && startPending
      ensures commit < request
    {
    }

    /** The first frame after START: recent and received since, it starts the session if everything still
        allows it, or faults; an older one changes nothing. The target 3000 at its boundary needs no recheck. */
    method FirstFrame(recent: bool, since: bool, boundary: bool, rechecked: bool, begun: bool)
      requires Valid() && startPending
      modifies this`startPending, this`active, this`state, this`session, this`trace, this`available, this`armed
      ensures Valid()
      ensures !(recent && since) ==> startPending && trace == old(trace)
      ensures active <==>
        recent && since && begun && ((boundary && target == 3000) || (old(targetValid) && 0 < target && rechecked))
      ensures recent && since ==> !startPending && (active || state == Fault)
    {
      if !(recent && since) { return; }
      if boundary && target == 3000 {
        var r := Begin(begun);
      } else if state != Idle || !targetValid || target == 0 || !rechecked {
        ReportFault();
      } else {
        var r := Begin(begun);
      }
    }

    /** A request unanswered for START_WAIT_MS, or met with an unquiet motor, is a fault. */
    method AwaitFrame(waited: nat, motor: Motor)
      requires Valid()
      modifies this`available, this`armed, this`trace, this`startPending, this`active, this`state
      ensures Valid()
      ensures if old(startPending) && (!motor.off || !motor.healthy || motor.active || waited >= START_WAIT_MS)
              then state == Fault && !startPending && !active
              else
                && trace == old(trace) && startPending == old(startPending)
                && active == old(active) && state == old(state)
    {
      if startPending && (!motor.off || !motor.healthy || motor.active || waited >= START_WAIT_MS) {
        ReportFault();
      }
    }

    /** The target of a running session is the one its own commit named, whatever was written since. */
    lemma TargetIsFixed()
      requires Valid() && active
      ensures commit < |trace| && trace[commit].Committed? && target == trace[commit].target && !armed && !available
    {
    }
  }

  const IDLE_MOTOR := Motor(true, false, true, true)

  /** The whole transaction works: a valid plan of the current version, staged, committed, read back, acknowledged and
      armed on a fresh desk, is a session for its own target once START and a new frame came. */
  method StartsASession(rules: Rules, words: seq<U16>) returns (active: bool, target: nat)
    requires |words| == 10 && rules.valid(Plan(words)) && rules.profileOk(Plan(words))
    requires Join(words[6], words[7]) == 0 && Join(words[8], words[9]) == rules.digest(Plan(words))
    requires 0 < rules.targetOf(Plan(words))
    ensures active && target == rules.targetOf(Plan(words))
  {
    hide Desk.Valid, Plan;
    var desk := new Desk(rules);
    Propose(desk, words);
    var read := ReadAll(desk);
    AcknowledgeAll(desk, read[8..]);
    desk.Sized();
    var r := desk.Write(PLAN_ARM, ARM_KEY, IDLE_MOTOR, IDLE_MOTOR);
    r := desk.Start(IDLE_MOTOR, false, true, true);
    desk.FirstFrame(true, true, false, true, true);
    return desk.active, desk.target;
  }

  method Propose(desk: Desk, words: seq<U16>)
    requires desk.Valid() && desk.Quiet(IDLE_MOTOR) && desk.version != LAST_VERSION
    requires |words| == 10 && desk.rules.valid(Plan(words)) && desk.rules.profileOk(Plan(words))
    requires Join(words[6], words[7]) == desk.version && Join(words[8], words[9]) == desk.rules.digest(Plan(words))
    modifies desk, desk.staging, desk.ack
    ensures desk.Valid() && desk.Quiet(IDLE_MOTOR) && desk.available && desk.targetValid
    ensures desk.readMask == desk.ackMask == {} && desk.target == desk.rules.targetOf(Plan(words))
  {
    hide Desk.Valid, Plan;
    var r := desk.Write(PLAN_BEGIN, BEGIN_KEY, IDLE_MOTOR, IDLE_MOTOR);
    StageAll(desk, words);
    desk.Sized();
    r := desk.Write(PLAN_COMMIT, COMMIT_KEY, IDLE_MOTOR, IDLE_MOTOR);
  }

  method StageAll(desk: Desk, words: seq<U16>)
    requires desk.Valid() && |words| == 10 && desk.Quiet(IDLE_MOTOR) && desk.stagingOpen && desk.mask == {}
    modifies desk, desk.staging, desk.ack
    ensures desk.Valid() && desk.Quiet(IDLE_MOTOR) && desk.stagingOpen && desk.mask == Bits(10)
    ensures desk.staging[..] == words && desk.version == old(desk.version)
  {
    hide Desk.Valid;
    desk.Sized();
    for i := 0 to 10
      invariant desk.Valid() && desk.Quiet(IDLE_MOTOR) && desk.stagingOpen && desk.mask == Bits(i)
      invariant desk.staging.Length == 10 && desk.staging[..i] == words[..i] && desk.version == old(desk.version)
    {
      var r := desk.Write(PLAN_STAGE + i, words[i], IDLE_MOTOR, IDLE_MOTOR);
      assert desk.staging[..i + 1] == desk.staging[..][..i + 1];
    }
  }

  /** The last four words are the halves of the version and of the digest. */
  method ReadAll(desk: Desk) returns (words: seq<U16>)
    requires desk.Valid() && desk.readMask == {}
    modifies desk`readMask, desk`trace
    ensures desk.Valid() && desk.readMask == Bits(12) && |words| == 12
    ensures Join(words[8], words[9]) == desk.version && Join(words[10], words[11]) == desk.digest
  {
    hide Desk.Valid;
    desk.Sized();
    words := [];
    for i := 0 to 12
      invariant desk.Valid() && desk.readMask == Bits(i) && |words| == i && |desk.plan| == 3
      invariant forall k :: 0 <= k < i ==> words[k] == desk.PlanWord(k)
    {
      var v := desk.ReadWord(i);
      words := words + [v];
    }
    JoinHalves(desk.version);
    JoinHalves(desk.digest);
  }

  /** Version and digest as they were read back. */
  method AcknowledgeAll(desk: Desk, words: seq<U16>)
    requires desk.Valid() && desk.Quiet(IDLE_MOTOR) && desk.available && desk.ackMask == {} && |words| == 4
    requires Join(words[0], words[1]) == desk.version && Join(words[2], words[3]) == desk.digest
    modifies desk, desk.staging, desk.ack
    ensures desk.Valid() && desk.Quiet(IDLE_MOTOR) && desk.available && desk.ackMask == Bits(4)
    ensures desk.readMask == old(desk.readMask) && desk.version == old(desk.version) && desk.digest == old(desk.digest)
    ensures desk.targetValid == old(desk.targetValid) && desk.target == old(desk.target)
    ensures desk.ack.Length == 4 && Join(desk.ack[0], desk.ack[1]) == desk.version
      && Join(desk.ack[2], desk.ack[3]) == desk.digest
  {
    hide Desk.Valid;
    desk.Sized();
    for i := 0 to 4
      invariant desk.Valid() && desk.Quiet(IDLE_MOTOR) && desk.available && desk.ackMask == Bits(i)
      invariant desk.readMask == old(desk.readMask) && desk.version == old(desk.version)
      invariant desk.digest == old(desk.digest) && desk.targetValid == old(desk.targetValid)
      invariant desk.target == old(desk.target) && desk.ack.Length == 4 && desk.ack[..i] == words[..i]
    {
      var r := desk.Write(PLAN_ACK + i, words[i], IDLE_MOTOR, IDLE_MOTOR);
      assert desk.ack[..i + 1] == desk.ack[..][..i + 1];
    }
    assert desk.ack[..] == words;
  }

  function Bits(n: nat): (s: set<nat>)
    ensures forall i :: i in s <==> 0 <= i < n
  {
    if n == 0 then {} else Bits(n - 1) + {n - 1}
  }
}
