/** The TIM5 cutoff timer: a 10 kHz 32-bit counter with one compare and one overflow. Its registers
    refine the unbounded instants of the executor's timer: wherever a 32-bit sum would not reach
    the instant it stands for, the transition is refused. */
module StopTimer {
  import opened MachineWord
  import opened Admission
  import E = ExecutorSpec

  const PER_MS := 10       // counts per millisecond
  const COUNT_US := 100    // microseconds per count
  const LAST: U32 := WORD - 1

  /** Counts since the counter read zero. */
  function Counts(origin: int, clock: int): int {
    (clock - origin) / COUNT_US
  }

  datatype Registers = Registers(
    cnt: U32, ccr1: U32, arr: U32, opm: bool, cen: bool, uif: bool, cc1if: bool, cc1of: bool)

  /** What the registers hold after n counts, with a compare at c and an overflow at v counts. */
  predicate Counting(r: Registers, acked: bool, n: int, c: int, v: int) {
    && 0 <= n && 0 < c && 1 <= v <= WORD
    && r.ccr1 == Low(c) && r.arr == v - 1
    && (if r.opm then c < v else v == WORD && !acked)
    && (n < c ==> !acked && (r.opm || c - n < HALF))
    && r.uif == (n >= v) && r.cc1if == (!acked && n >= c)
    && r.cen == !(r.opm && n >= v)
    && r.cnt == (if n < v then n else if r.opm then 0 else Low(n))
  }

  /** The hardware counts once. */
  function Up(r: Registers): Registers {
    if !r.cen then r else
    var over := r.cnt == r.arr;
    var cnt := if over then 0 else Plus(r.cnt, 1);
    r.(cnt := cnt, uif := r.uif || over, cen := !(over && r.opm), cc1if := r.cc1if || cnt == r.ccr1)
  }

  /** One count more, and every flag rises exactly at its instant. */
  lemma UpCounts(r: Registers, acked: bool, n: int, c: int, v: int)
    requires Counting(r, acked, n, c, v)
    ensures Counting(Up(r), acked, n + 1, c, v)
  {
    hide Low;
    LowSteps(n);
    LowSteps(c);
    if !(r.opm && n >= v) {
      LowMeets(n + 1, c);
    }
  }

  lemma LowMeets(n: int, c: int)
    requires 0 <= n && 0 < c
    ensures n == c ==> Low(n) == Low(c)
    ensures 0 < c - n < HALF ==> Low(n) != Low(c)
    ensures n < WORD && c < WORD && n != c ==> Low(n) != Low(c)
  {
  }

  ghost predicate Stands(r: Registers, t: E.Timer, clock: int) {
    && (t.compareAt - t.origin) % COUNT_US == 0 && (t.overflowAt - t.origin) % COUNT_US == 0
    && r.opm == t.oneShot && r.cc1of == t.overrun
    && Counting(r, t.acked, Counts(t.origin, clock), Counts(t.origin, t.compareAt), Counts(t.origin, t.overflowAt))
  }

  class StopTimer {
    // registers
    var cnt: U32
    var ccr1: U32
    var arr: U32
    var opm: bool
    var cen: bool
    var uif: bool
    var cc1if: bool
    var cc1of: bool
    var irq: bool
    var phase: nat           // microseconds into the current count: the prescaler
    // driver state
    var armed: bool
    var healthy: bool
    ghost var spec: E.Timer

    ghost predicate Flags()
      reads `armed, `healthy, `irq, `spec
    {
      armed == spec.armed && healthy == spec.healthy && irq == spec.irq
    }

    ghost function Regs(): Registers
      reads `cnt, `ccr1, `arr, `opm, `cen, `uif, `cc1if, `cc1of
    {
      Registers(cnt, ccr1, arr, opm, cen, uif, cc1if, cc1of)
    }

    /** The registers stand for the instants of `spec` at this clock. */
    ghost predicate Refines(clock: int)
      reads this
    {
      Flags() && (armed ==> Stands(Regs(), spec, clock) && phase == (clock - spec.origin) % COUNT_US)
    }

    constructor ()
      ensures !armed && healthy && Flags()
      ensures spec == E.Timer(false, true, false, false, 0, 0, false, 0, false)
    {
      cnt, ccr1, arr := 0, 0, LAST;
      opm, cen, uif, cc1if, cc1of, irq := true, false, false, false, false, false;
      armed, healthy, phase := false, true, 0;
      spec := E.Timer(false, true, false, false, 0, 0, false, 0, false);
    }

    method CountUp(ghost clock: int, ghost later: int)
      requires Flags() && armed && Stands(Regs(), spec, clock) &&
        Counts(spec.origin, later) == Counts(spec.origin, clock) + 1
      modifies `cnt, `cen, `uif, `cc1if
      ensures Stands(Regs(), spec, later)
    {
      hide Counting, Counts;
      UpCounts(Regs(), spec.acked, Counts(spec.origin, clock), Counts(spec.origin, spec.compareAt),
        Counts(spec.origin, spec.overflowAt));
      ghost var up := Up(Regs());
      if cen {
        var over := cnt == arr;
        cnt := if over then 0 else Plus(cnt, 1);
        if over { uif := true; }
        if over && opm { cen := false; }
        if cnt == ccr1 { cc1if := true; }
      }
      assert Regs() == up;
    }

    /** Microseconds pass; the counter advances each time the prescaler is full. */
    method Elapse(us: nat, ghost clock: int)
      requires Refines(clock)
      modifies `cnt, `cen, `uif, `cc1if, `phase
      ensures Refines(clock + us)
    {
      hide Stands, Up;
      if !armed { return; }
      var full := phase + us;
      ghost var at := clock - phase;
      EdgeStands(Regs(), spec, clock, at);
      while full >= COUNT_US
        invariant 0 <= full && at == clock + us - full && armed && Flags()
        invariant Stands(Regs(), spec, at) && (at - spec.origin) % COUNT_US == 0
        decreases full
      {
        NextEdge(spec.origin, at);
        CountUp(at, at + COUNT_US);
        full, at := full - COUNT_US, at + COUNT_US;
      }
      phase := full;
      EdgeStands(Regs(), spec, clock + us, at);
      WithinCount(spec.origin, at, clock + us);
    }

    method Cancel()
      modifies this
      ensures !armed && !irq && healthy == old(healthy) && spec == E.Cancel(old(spec))
      ensures old(Flags()) ==> forall clock :: Refines(clock)
    {
      irq, cen := false, false;
      uif, cc1if, cc1of, cnt := false, false, false, 0;
      armed := false;
      spec := E.Cancel(spec);
    }

    predicate IsArmed()
      reads `armed, `cen
    {
      armed && cen
    }

    predicate Flagged()
      reads `uif, `cc1if, `cc1of
    {
      uif || cc1if || cc1of
    }

    /** What the driver reads from its registers is what the instants say. */
    lemma ReadsTrue(clock: int)
      requires Refines(clock)
      ensures IsArmed() <==> E.IsArmed(spec, clock)
      ensures armed ==> (Flagged() <==> E.Flagged(spec, clock))
      ensures armed ==>
        (uif <==> E.Overflowed(spec, clock)) && (cc1if <==> E.Compared(spec, clock)) && cc1of == spec.overrun
    {
      if armed {
        CountsOrder(spec.origin, clock, spec.compareAt);
        CountsOrder(spec.origin, clock, spec.overflowAt);
      }
    }

    /** A counter restarted at zero with new cutoffs. */
    method Load(oneShot: bool, compare: U32, reload: U32, start: bool)
      modifies `opm, `arr, `ccr1, `cnt, `uif, `cc1if, `cc1of, `phase, `armed, `cen
      ensures Regs() == Registers(0, compare, reload, oneShot, start, false, false, false) && phase == 0 && armed
    {
      opm, arr, ccr1 := oneShot, reload, compare;
      cnt, uif, cc1if, cc1of, phase := 0, false, false, false, 0;
      armed, cen := true, start;
    }

    /** `MotorStopTimer_Arm`. */
    method Arm(normal: U32, hard: U32, startOk: bool, ghost clock: int) returns (ok: bool)
      requires Flags() && 0 <= clock
      modifies this
      ensures Refines(clock)
      ensures hard * PER_MS < WORD ==>
        && spec == E.Arm(old(spec), clock, normal, hard, startOk).t
        && ok == E.Arm(old(spec), clock, normal, hard, startOk).ok
      ensures hard * PER_MS >= WORD ==> !ok && !armed
    {
      hide Stands;
      Cancel();
      if !healthy || normal == 0 || hard <= normal { return false; }
      if normal * PER_MS > LAST || hard * PER_MS > LAST { return false; }
      Load(true, normal * PER_MS, hard * PER_MS - 1, startOk);
      if !startOk {
        healthy := false;
        spec := spec.(healthy := false, armed := true);
        Cancel();
        return false;
      }
      spec := E.Timer(true, true, false, true, clock, clock + normal * 1000, false, clock + hard * 1000, false);
      FreshStands(Regs(), spec, clock, normal * PER_MS, hard * PER_MS);
      return true;
    }

    /** `MotorStopTimer_ArmLease` up to its commit. */
    method StartLease(remaining: int, ghost clock: int) returns (ok: bool)
      requires Refines(clock) && 0 <= clock
      modifies this
      ensures Refines(clock)
      ensures spec == E.StartLease(old(spec), clock, remaining).t && ok == E.StartLease(old(spec), clock, remaining).ok
    {
      hide Stands;
      if !healthy || armed || remaining <= 1 || remaining > LEASE_MS { return false; }
      Cancel();
      Load(false, (remaining - 1) * PER_MS, LAST, true);
      spec := E.Timer(true, true, false, false, clock, clock + (remaining - 1) * 1000, false, clock + E.OVERFLOW_US,
        false);
      FreshStands(Regs(), spec, clock, (remaining - 1) * PER_MS, WORD);
      return true;
    }

    predicate TransitionReady()
      reads `armed, `cen, `healthy, `uif, `cc1if, `cc1of
    {
      IsArmed() && healthy && !Flagged()
    }

    /** The counter is the true count, and the edge it last advanced at is a whole number of counts. */
    lemma Counted(clock: int)
      requires Refines(clock) && E.TransitionReady(spec, clock)
      ensures var n := Counts(spec.origin, clock);
        && E.CounterEdge(spec, clock) == spec.origin + COUNT_US * n
        && cnt == Low(n) && 0 <= n && n < Counts(spec.origin, spec.overflowAt) <= WORD && cnt == n
        && spec.compareAt == spec.origin + COUNT_US * Counts(spec.origin, spec.compareAt)
        && spec.overflowAt == spec.origin + COUNT_US * Counts(spec.origin, spec.overflowAt)
        && (!spec.acked ==> n < Counts(spec.origin, spec.compareAt))
    {
      CountsOrder(spec.origin, clock, spec.compareAt);
      CountsOrder(spec.origin, clock, spec.overflowAt);
      LowSteps(Counts(spec.origin, clock));
    }

    /** A compare `more` counts ahead of the counter, in the registers and on the clock. */
    lemma Ahead(clock: int, more: int)
      requires Refines(clock) && E.TransitionReady(spec, clock) && 0 <= more < WORD
      ensures Plus(cnt, more) == Low(Counts(spec.origin, clock) + more)
      ensures Counts(spec.origin, E.CounterEdge(spec, clock) + COUNT_US * more) == Counts(spec.origin, clock) + more
      ensures (E.CounterEdge(spec, clock) + COUNT_US * more - spec.origin) % COUNT_US == 0
    {
      Counted(clock);
      PlusOfLow(Counts(spec.origin, clock), more);
      LowSteps(more);
    }

    /** `MotorStopTimer_BuildHandoff`: the hard cutoff of a pulse becomes a receive lease, the counter never
        stops. `gap` passes before the registers are written; what it let happen is found by the second
        check. Only `Cancel` may follow a refusal. */
    method Handoff(remaining: int, gap: E.Brief, ghost clock: int) returns (ok: bool)
      requires Refines(clock)
      modifies `cnt, `cen, `uif, `cc1if, `phase, `ccr1, `arr, `opm, `spec
      ensures Flags() && (ok ==> Refines(clock + gap))
      ensures spec == E.Handoff(old(spec), clock, remaining, gap).t &&
        ok == E.Handoff(old(spec), clock, remaining, gap).ok
    {
      hide Counting, Counts, Stands;
      ReadsTrue(clock);
      if !TransitionReady() || !opm || cnt >= arr || remaining <= 1 || remaining > LEASE_MS {
        HandoffRefused(clock, remaining, gap);
        Elapse(gap, clock);
        return false;
      }
      Ahead(clock, (remaining - 1) * PER_MS);
      HandoffStarts(clock);
      var counter := cnt;
      Elapse(gap, clock);
      HandoffStands(clock, remaining, gap, counter);
      ccr1 := Plus(counter, (remaining - 1) * PER_MS);
      arr, opm := LAST, false;
      if !TransitionReady() || Reached(cnt, ccr1) { return false; }
      spec := E.Handoff(spec, clock, remaining, gap).t;
      return true;
    }

    lemma HandoffRefused(clock: int, remaining: int, gap: E.Brief)
      requires Refines(clock) && (!TransitionReady() || !opm || cnt >= arr || remaining <= 1 || remaining > LEASE_MS)
      ensures E.Handoff(spec, clock, remaining, gap) == E.Armed(spec, false)
    {
      ReadsTrue(clock);
      if E.TransitionReady(spec, clock) { Counted(clock); }
    }

    lemma HandoffStarts(clock: int)
      requires Refines(clock) && TransitionReady() && opm && cnt < arr
      ensures E.TransitionReady(spec, clock) && spec.oneShot && E.CounterEdge(spec, clock) + 100 < spec.overflowAt
      ensures cnt == Counts(spec.origin, clock) && 0 <= cnt
      ensures E.CounterEdge(spec, clock) == spec.origin + COUNT_US * Counts(spec.origin, clock)
    {
      ReadsTrue(clock);
      Counted(clock);
    }

    /** The second check on the written registers is the one on the instants. */
    lemma HandoffStands(clock: int, remaining: int, gap: E.Brief, counter: U32)
      requires Refines(clock + gap) && E.TransitionReady(spec, clock) && spec.oneShot &&
        counter == Counts(spec.origin, clock)
      requires E.CounterEdge(spec, clock) + 100 < spec.overflowAt && 1 < remaining <= LEASE_MS
      requires E.CounterEdge(spec, clock) == spec.origin + COUNT_US * Counts(spec.origin, clock)
      ensures var h := E.Handoff(spec, clock, remaining, gap);
        var c := Plus(counter, (remaining - 1) * PER_MS);
        && (h.ok <==> TransitionReady() && !Reached(cnt, c))
        && h.t.armed == armed && h.t.healthy == healthy && h.t.irq == irq
        && (h.ok ==> Stands(Regs().(ccr1 := c, arr := LAST, opm := false), h.t, clock + gap))
    {
      hide Counting, Counts, E.Flagged, E.IsArmed, E.CounterEdge;
      var n, c := Counts(spec.origin, clock + gap), counter + (remaining - 1) * PER_MS;
      ReadsTrue(clock + gap);
      CountsGrow(spec.origin, clock, gap);
      CountsAt(spec.origin, c);
      PlusOfLow(counter, (remaining - 1) * PER_MS);
      LowSteps(counter);
      LowSteps((remaining - 1) * PER_MS);
      if E.TransitionReady(spec, clock + gap) {
        Counted(clock + gap);
        ReachedExact(n, c);
        LowSteps(n);
        CountsOrder(spec.origin, clock + gap, spec.origin + COUNT_US * c);
        CountsAt(spec.origin, WORD);
        if n < c { CountingOn(Regs(), n, c, WORD, false); }
      }
    }

    /** `MotorStopTimer_BuildPulse`: a receive lease becomes a pulse's two cutoffs. A hard cutoff that
        would wrap past the last count is refused, and so is a lease that ended before the registers were
        written; only `Cancel` may follow a refusal. The writes end before the compare they set. */
    method PulseCutoffs(normal: nat, hard: nat, gap: E.Brief, ghost clock: int) returns (ok: bool)
      requires Refines(clock) && (normal > 0 ==> gap + COUNT_US < normal * 1000)
      modifies `cnt, `cen, `uif, `cc1if, `phase, `ccr1, `arr, `opm, `spec
      ensures ok == E.PulseCutoffs(old(spec), clock, normal, hard, gap).ok &&
        spec == E.PulseCutoffs(old(spec), clock, normal, hard, gap).t
      ensures Flags() && (ok ==> Refines(clock + gap))
    {
      hide Counting, Counts, Stands;
      ReadsTrue(clock);
      if !TransitionReady() || opm || Reached(cnt, ccr1) || normal == 0 || hard <= normal || hard > LEASE_MS {
        PulseRefused(clock, normal, hard, gap);
        Elapse(gap, clock);
        return false;
      }
      PulseStarts(clock);
      var counter := cnt;
      Elapse(gap, clock);
      PulseStands(clock, normal, hard, gap, counter);
      ccr1 := Plus(counter, normal * PER_MS);
      arr := Plus(counter, hard * PER_MS - 1);
      opm := true;
      if !TransitionReady() || cnt >= arr { return false; }
      spec := E.PulseCutoffs(spec, clock, normal, hard, gap).t;
      return true;
    }

    lemma PulseRefused(clock: int, normal: nat, hard: nat, gap: E.Brief)
      requires Refines(clock)
      requires !TransitionReady() || opm || Reached(cnt, ccr1) || normal == 0 || hard <= normal || hard > LEASE_MS
      ensures E.PulseCutoffs(spec, clock, normal, hard, gap) == E.Armed(spec, false)
    {
      ReadsTrue(clock);
      if E.TransitionReady(spec, clock) && !spec.oneShot {
        Counted(clock);
        BehindCompare(Counts(spec.origin, clock), Counts(spec.origin, spec.compareAt));
      }
    }

    /** A compare that lies ahead is never read as reached. */
    lemma BehindCompare(n: int, c: int)
      requires n < c && c - n < HALF
      ensures !Reached(Low(n), Low(c))
    {
      ReachedExact(n, c);
    }

    lemma PulseStarts(clock: int)
      requires Refines(clock) && TransitionReady() && !opm && !Reached(cnt, ccr1)
      ensures E.TransitionReady(spec, clock) && !spec.oneShot && clock < spec.compareAt
      ensures cnt == Counts(spec.origin, clock) && 0 <= cnt
      ensures E.CounterEdge(spec, clock) == spec.origin + COUNT_US * Counts(spec.origin, clock)
    {
      ReadsTrue(clock);
      Counted(clock);
    }

    lemma PulseStands(clock: int, normal: nat, hard: nat, gap: E.Brief, counter: U32)
      requires Refines(clock + gap) && E.TransitionReady(spec, clock) && !spec.oneShot && clock < spec.compareAt
      requires counter == Counts(spec.origin, clock) && 0 < normal < hard <= LEASE_MS && gap + COUNT_US < normal * 1000
      requires E.CounterEdge(spec, clock) == spec.origin + COUNT_US * Counts(spec.origin, clock)
      ensures var h := E.PulseCutoffs(spec, clock, normal, hard, gap);
        var c, v := Plus(counter, normal * PER_MS), Plus(counter, hard * PER_MS - 1);
        && (h.ok <==> TransitionReady() && cnt < v)
        && h.t.armed == armed && h.t.healthy == healthy && h.t.irq == irq
        && (h.ok ==> Stands(Regs().(ccr1 := c, arr := v, opm := true), h.t, clock + gap))
    {
      hide Counting, Counts, E.Flagged, E.IsArmed;
      var n, c, v := Counts(spec.origin, clock + gap), counter + normal * PER_MS, counter + hard * PER_MS;
      ReadsTrue(clock + gap);
      CountsGrow(spec.origin, clock, gap);
      CountsAt(spec.origin, c);
      CountsAt(spec.origin, v);
      PlusOfLow(counter, normal * PER_MS);
      LowSteps(counter);
      LowSteps(normal * PER_MS);
      if E.TransitionReady(spec, clock + gap) {
        Counted(clock + gap);
        LowSteps(n);
        assert n < c;
        if v <= WORD { CountingOn(Regs(), n, c, v, true); }
      }
    }

    /** An unflagged lease has its compare ahead, and the counter's sign test agrees. */
    lemma LeaseAhead(clock: int)
      requires Refines(clock) && E.IsArmed(spec, clock) && !E.Flagged(spec, clock) && !spec.oneShot
      ensures clock < spec.compareAt && !Reached(cnt, ccr1)
    {
      CountsOrder(spec.origin, clock, spec.compareAt);
      BehindCompare(Counts(spec.origin, clock), Counts(spec.origin, spec.compareAt));
    }

    lemma OneShotReads(clock: int)
      requires Refines(clock) && armed
      ensures opm == spec.oneShot
    {
    }

    /** The renewal of a lease: only the compare moves, and only while it is still ahead. */
    method MoveLease(remaining: int, ghost clock: int)
      requires Refines(clock) && E.TransitionReady(spec, clock) && !opm && 1 < remaining <= LEASE_MS
      modifies `ccr1, `spec
      ensures Refines(clock) && spec == E.MoveLease(old(spec), clock, remaining)
    {
      Ahead(clock, (remaining - 1) * PER_MS);
      Counted(clock);
      ccr1 := Plus(cnt, (remaining - 1) * PER_MS);
      spec := E.MoveLease(spec, clock, remaining);
    }

    /** The front half of `MotorStopTimer_IrqHandler`: what happened, and the acknowledgement of a normal compare. */
    method Classify(ghost clock: int) returns (event: E.TimerEvent)
      requires Refines(clock)
      modifies `healthy, `cc1if, `spec
      ensures event == E.Classify(old(spec), clock)
      ensures spec == old(spec).(healthy := old(spec).healthy && !event.Error?,
                                 acked := old(spec).acked || (event.Normal? && old(spec).oneShot))
      ensures Refines(clock)
    {
      ReadsTrue(clock);
      event := if !armed || cc1of then E.Error else if uif then E.Backstop else if cc1if then E.Normal else E.Error;
      if event.Error? { healthy := false; }
      if event.Normal? && opm { cc1if := false; }
      spec := spec.(healthy := spec.healthy && !event.Error?, acked := spec.acked || (event.Normal? && spec.oneShot));
    }

    /** A spurious overcapture, which only a running counter can show. */
    method Overrun(ghost clock: int)
      requires Refines(clock)
      modifies `cc1of, `spec
      ensures Refines(clock) && spec == old(spec).(overrun := old(spec).armed)
    {
      cc1of := armed;
      spec := spec.(overrun := spec.armed);
    }

    method EnableIrq(ghost clock: int)
      requires Refines(clock)
      modifies `irq, `spec
      ensures Refines(clock) && spec == old(spec).(irq := true)
    {
      irq := true;
      spec := spec.(irq := true);
    }
  }

  lemma LowSteps(n: int)
    requires 0 <= n
    ensures Low(n + 1) == if Low(n) == LAST then 0 else Low(n) + 1
    ensures n < WORD ==> Low(n) == n
  {
  }

  lemma FreshStands(r: Registers, t: E.Timer, clock: int, c: int, v: int)
    requires 0 < c && (c < HALF || t.oneShot) && (if t.oneShot then c < v <= WORD else v == WORD)
    requires r == Registers(0, c, v - 1, t.oneShot, true, false, false, false)
    requires t.origin == clock && t.compareAt == clock + c * COUNT_US && t.overflowAt == clock + v * COUNT_US &&
      !t.acked && !t.overrun
    ensures Stands(r, t, clock)
  {
    LowSteps(c);
  }

  lemma NextEdge(origin: int, at: int)
    requires (at - origin) % COUNT_US == 0
    ensures Counts(origin, at + COUNT_US) == Counts(origin, at) + 1 && (at + COUNT_US - origin) % COUNT_US == 0
  {
  }

  lemma CountsAt(origin: int, c: int)
    ensures Counts(origin, origin + COUNT_US * c) == c && (origin + COUNT_US * c - origin) % COUNT_US == 0
  {
  }

  /** New cutoffs ahead of an unflagged counter. */
  lemma CountingOn(r: Registers, n: int, c: int, v: int, oneShot: bool)
    requires r.cen && !r.uif && !r.cc1if && r.cnt == n && 0 <= n < c && n < v && 1 <= v <= WORD
    requires if oneShot then c < v else v == WORD && c - n < HALF
    ensures Counting(r.(ccr1 := Low(c), arr := v - 1, opm := oneShot), false, n, c, v)
  {
  }

  /** Counts while `gap` microseconds pass. */
  lemma CountsGrow(origin: int, clock: int, gap: nat)
    ensures Counts(origin, clock) <= Counts(origin, clock + gap)
    ensures COUNT_US * (Counts(origin, clock + gap) - Counts(origin, clock)) < gap + COUNT_US
  {
  }

  lemma WithinCount(origin: int, edge: int, clock: int)
    requires (edge - origin) % COUNT_US == 0 && edge <= clock < edge + COUNT_US
    ensures Counts(origin, clock) == Counts(origin, edge) && (clock - origin) % COUNT_US == clock - edge
  {
  }

  /** Between two counts the registers do not change. */
  lemma EdgeStands(r: Registers, t: E.Timer, clock: int, edge: int)
    requires edge <= clock < edge + COUNT_US && (edge - t.origin) % COUNT_US == 0
    ensures Stands(r, t, clock) <==> Stands(r, t, edge)
  {
    hide Counting;
    WithinCount(t.origin, edge, clock);
  }

  lemma CountsOrder(origin: int, clock: int, at: int)
    requires (at - origin) % COUNT_US == 0
    ensures clock >= at <==> Counts(origin, clock) >= Counts(origin, at)
  {
  }
}
