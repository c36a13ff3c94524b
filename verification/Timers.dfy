/** The software timer task: two ordered lists of 32-bit expiry times, swapped when the tick
    count wraps. The ghost `era` counts wraps and gives every listed time its true value. */
module Timers {
  import opened MachineWord
  import opened OrderedList

  datatype Entry = Entry(id: nat, at: U32, period: U32, reload: bool)

  datatype Lists = Lists(current: seq<Entry>, overflow: seq<Entry>)

  const LAST_TICK: U32 := WORD - 1

  function Keys(s: seq<Entry>): (k: seq<int>)
    ensures |k| == |s| && forall i :: 0 <= i < |s| ==> k[i] == s[i].at
  {
    seq(|s|, i requires 0 <= i < |s| => s[i].at)
  }

  function Filed(s: seq<Entry>, e: Entry): seq<Entry> {
    Put(s, Position(Keys(s), e.at), e)
  }

  predicate InOrder(s: seq<Entry>) {
    forall i, j :: 0 <= i < j < |s| ==> s[i].at <= s[j].at
  }

  lemma FiledKeeps(s: seq<Entry>, e: Entry)
    ensures |Filed(s, e)| == |s| + 1
    ensures forall x :: x in Filed(s, e) <==> x == e || x in s
    ensures InOrder(s) ==> InOrder(Filed(s, e))
  {
    hide Put;
    var p := Position(Keys(s), e.at);
    forall x ensures x in Filed(s, e) <==> x == e || x in s {
      PutContains(s, p, e, x);
    }
    FiledKeys(s, e);
    if InOrder(s) {
      PutKeepsOrder(Keys(s), e.at);
      var r := Filed(s, e);
      assert Ordered(Keys(r));
      forall i, j | 0 <= i < j < |r| ensures r[i].at <= r[j].at {
        assert Keys(r)[i] <= Keys(r)[j];
      }
    }
  }

  lemma FiledKeys(s: seq<Entry>, e: Entry)
    ensures |Filed(s, e)| == |s| + 1
    ensures Keys(Filed(s, e)) == Put(Keys(s), Position(Keys(s), e.at), e.at)
  {
  }

  /** Files an entry by its true due time. */
  function File(l: Lists, era: int, e: Entry, due: int): Lists {
    if due / WORD == era then l.(current := Filed(l.current, e.(at := Low(due))))
    else l.(overflow := Filed(l.overflow, e.(at := Low(due))))
  }

  lemma AtLeastOnce(m: int, p: int)
    requires 1 <= m && 0 <= p
    ensures p <= m * p
  {
  }

  lemma FloorIs(a: int, p: int, k: int)
    requires 0 < p && k * p <= a < k * p + p
    ensures a / p == k
  {
    var q := a / p;
    assert q * p <= a < q * p + p;
    assert (q - k) * p == q * p - k * p && (k - q) * p == k * p - q * p;
    if q < k {
      AtLeastOnce(k - q, p);
    } else if q > k {
      AtLeastOnce(q - k, p);
    }
  }

  /** The time k periods take. */
  function Span(k: nat, period: int): int {
    k * period
  }

  lemma SpanStep(k: nat, period: int)
    ensures Span(0, period) == 0 && Span(k + 1, period) == Span(k, period) + period
  {
  }

  /** How often a timer was called. */
  function Count(calls: seq<nat>, id: nat): nat {
    if |calls| == 0 then 0 else Count(calls[..|calls| - 1], id) + (if calls[|calls| - 1] == id then 1 else 0)
  }

  function Times(id: nat, n: nat): (s: seq<nat>)
    ensures |s| == n
  {
    seq(n, _ => id)
  }

  lemma CountOneMore(calls: seq<nat>, id: nat, k: nat)
    ensures Count(calls + [id], k) == Count(calls, k) + (if k == id then 1 else 0)
  {
    assert (calls + [id])[..|calls|] == calls;
  }

  lemma {:induction false} CountTimes(calls: seq<nat>, id: nat, n: nat, k: nat)
    ensures Count(calls + Times(id, n), k) == Count(calls, k) + (if k == id then n else 0)
  {
    if n == 0 {
      assert calls + Times(id, n) == calls;
    } else {
      CountTimes(calls, id, n - 1, k);
      assert calls + Times(id, n) == (calls + Times(id, n - 1)) + [id];
      CountOneMore(calls + Times(id, n - 1), id, k);
    }
  }

  predicate DistinctIds(s: seq<Entry>) {
    forall i, j :: 0 <= i < j < |s| ==> s[i].id != s[j].id
  }

  predicate Lacks(s: seq<Entry>, id: nat) {
    forall e :: e in s ==> e.id != id
  }

  lemma FiledDistinct(s: seq<Entry>, e: Entry)
    requires DistinctIds(s) && Lacks(s, e.id)
    ensures DistinctIds(Filed(s, e))
  {
    var p := Position(Keys(s), e.at);
    var r := Filed(s, e);
    forall i, j | 0 <= i < j < |r| ensures r[i].id != r[j].id {
      if i == p {
        assert r[j] == s[j - 1];
      } else if j == p {
        assert r[i] == s[i];
      } else {
        assert r[i] == s[if i < p then i else i - 1] && r[j] == s[if j < p then j else j - 1];
      }
    }
  }

  /** The list without a timer: `uxListRemove` through the timer's own item. */
  function Without(s: seq<Entry>, id: nat): seq<Entry> {
    if |s| == 0 then [] else if s[0].id == id then Without(s[1..], id) else [s[0]] + Without(s[1..], id)
  }

  lemma {:induction false} WithoutContains(s: seq<Entry>, id: nat, e: Entry)
    ensures e in Without(s, id) <==> e in s && e.id != id
  {
    if |s| > 0 {
      WithoutContains(s[1..], id, e);
      assert s == [s[0]] + s[1..];
    }
  }

  lemma {:induction false} WithoutOrdered(s: seq<Entry>, id: nat)
    requires InOrder(s)
    ensures InOrder(Without(s, id))
  {
    if |s| > 0 {
      WithoutOrdered(s[1..], id);
      var w := Without(s[1..], id);
      forall i | 0 <= i < |w| ensures s[0].at <= w[i].at {
        WithoutContains(s[1..], id, w[i]);
      }
    }
  }

  lemma {:induction false} WithoutDistinct(s: seq<Entry>, id: nat)
    requires DistinctIds(s)
    ensures DistinctIds(Without(s, id))
  {
    if |s| > 0 {
      WithoutDistinct(s[1..], id);
      var w := Without(s[1..], id);
      forall i | 0 <= i < |w| ensures s[0].id != w[i].id {
        WithoutContains(s[1..], id, w[i]);
      }
    }
  }

  // ---------------------------------------------------------------- the schedule

  /** A listed timer is due one period after its last call, and that call was due by `upto`. */
  ghost predicate OnSchedule(e: Entry, due: int, calls: seq<nat>, base: map<nat, int>, upto: int) {
    && e.id in base && 0 < e.period
    && due == base[e.id] + Span(Count(calls, e.id), e.period) + e.period
    && base[e.id] + Span(Count(calls, e.id), e.period) <= upto
  }

  /** Both lists in order, no timer twice. */
  ghost predicate Shaped(l: Lists) {
    && InOrder(l.current) && InOrder(l.overflow) && DistinctIds(l.current) && DistinctIds(l.overflow)
    && forall e :: e in l.current ==> Lacks(l.overflow, e.id)
  }

  /** The current list holds due times of this era, the overflow list of the next. */
  ghost predicate Scheduled(l: Lists, era: int, calls: seq<nat>, base: map<nat, int>, upto: int) {
    && Shaped(l)
    && (forall e :: e in l.current ==> OnSchedule(e, era * WORD + e.at, calls, base, upto))
    && (forall e :: e in l.overflow ==> OnSchedule(e, (era + 1) * WORD + e.at, calls, base, upto))
  }

  predicate Unlisted(l: Lists, id: nat) {
    Lacks(l.current, id) && Lacks(l.overflow, id)
  }

  /** Every other timer is listed as it was. */
  ghost predicate OthersStay(l: Lists, r: Lists, id: nat) {
    forall e: Entry :: e.id != id ==> (e in r.current <==> e in l.current) && (e in r.overflow <==> e in l.overflow)
  }

  lemma FilingKeepsOthers(l: Lists, era: int, t: Entry, due: int)
    ensures OthersStay(l, File(l, era, t, due), t.id)
  {
    hide Filed;
    FiledKeeps(l.current, t.(at := Low(due)));
    FiledKeeps(l.overflow, t.(at := Low(due)));
  }

  lemma HeadOut(l: Lists, era: int, calls: seq<nat>, base: map<nat, int>, upto: int)
    requires Scheduled(l, era, calls, base, upto) && |l.current| > 0
    ensures var rest := l.(current := l.current[1..]);
      Scheduled(rest, era, calls, base, upto) && Unlisted(rest, l.current[0].id)
  {
    hide OnSchedule;
    var rest := l.current[1..];
    assert l.current == [l.current[0]] + rest;
    forall e | e in rest ensures e.id != l.current[0].id {
      var i :| 0 <= i < |rest| && rest[i] == e;
      assert l.current[i + 1] == e;
    }
  }

  /** Calling a timer that is out of the lists leaves the others on schedule. */
  lemma CalledOut(l: Lists, era: int, calls: seq<nat>, base: map<nat, int>, upto: int, id: nat, k: nat)
    requires Scheduled(l, era, calls, base, upto) && Unlisted(l, id)
    ensures Scheduled(l, era, calls + Times(id, k), base, upto)
  {
    forall e | e in l.current || e in l.overflow ensures Count(calls + Times(id, k), e.id) == Count(calls, e.id) {
      CountTimes(calls, id, k, e.id);
    }
  }

  /** Filing the missing timer at its next due time completes the lists. */
  lemma FiledIn(l: Lists, era: int, calls: seq<nat>, base: map<nat, int>, upto: int, t: Entry, due: int)
    requires Scheduled(l, era, calls, base, upto) && Unlisted(l, t.id)
    requires OnSchedule(t, due, calls, base, upto) && (due / WORD == era || due / WORD == era + 1)
    ensures Scheduled(File(l, era, t, due), era, calls, base, upto)
  {
    hide OnSchedule, Filed, InOrder, DistinctIds;
    var e := t.(at := Low(due));
    assert due == WORD * (due / WORD) + e.at;
    SameSchedule(t, e, due, calls, base, upto);
    if due / WORD == era {
      FiledKeeps(l.current, e);
      FiledDistinct(l.current, e);
    } else {
      FiledKeeps(l.overflow, e);
      FiledDistinct(l.overflow, e);
    }
  }

  lemma SameSchedule(t: Entry, e: Entry, due: int, calls: seq<nat>, base: map<nat, int>, upto: int)
    requires e == t.(at := e.at)
    ensures OnSchedule(t, due, calls, base, upto) <==> OnSchedule(e, due, calls, base, upto)
  {
  }

  lemma Later(l: Lists, era: int, calls: seq<nat>, base: map<nat, int>, upto: int, later: int)
    requires Scheduled(l, era, calls, base, upto) && upto <= later
    ensures Scheduled(l, era, calls, base, later)
  {
  }

  class TimerTask {
    var current: seq<Entry>
    var overflow: seq<Entry>
    var lastTime: U32
    ghost var era: int
    ghost var last: int              // unwrapped `lastTime`
    ghost var calls: seq<nat>        // ids in the order of their callbacks
    ghost var base: map<nat, int>    // when the first period of a listed timer began, had it run from the first call

    ghost function Content(): Lists
      reads `current, `overflow
    {
      Lists(current, overflow)
    }

    constructor ()
      ensures current == [] && overflow == [] && lastTime == 0 && era == 0 && last == 0 && calls == []
    {
      current, overflow, lastTime := [], [], 0;
      era, last, calls, base := 0, 0, [], map[];
    }

    /** `prvInsertTimerInActiveList`: true exactly when the due time has truly passed; otherwise
        the timer is filed for the era its due time falls in, the running one or the next. */
    method Insert(t: Entry, next: U32, now: U32, command: U32, ghost due: int, ghost n: int, ghost c: int)
      returns (passed: bool)
      requires 0 < t.period && due == c + t.period && c <= n < c + WORD && n / WORD == era
      requires next == Low(due) && now == Low(n) && command == Low(c)
      modifies `current, `overflow
      ensures passed <==> due <= n
      ensures Content() == if passed then old(Content()) else File(old(Content()), era, t, due)
      ensures !passed ==> due / WORD == era || due / WORD == era + 1
    {
      ElapsedExact(n, c);
      assert due == WORD * (due / WORD) + next && n == WORD * era + now && c == WORD * (c / WORD) + command;
      passed := false;
      if next <= now {
        if Minus(now, command) >= t.period {
          passed := true;
        } else {
          overflow := Filed(overflow, t.(at := next));
        }
      } else {
        if now < command && next >= command {
          passed := true;
        } else {
          current := Filed(current, t.(at := next));
        }
      }
    }

    ghost predicate OnTime(upto: int)
      reads `current, `overflow, `calls, `base, `era
    {
      Scheduled(Content(), era, calls, base, upto)
    }

    /** `prvReloadTimer`: one call per period that has passed, and the next one is filed. */
    method Reload(t: Entry, expired: U32, now: U32, ghost x: int, ghost n: int) returns (ghost k: nat)
      requires 0 < t.period && x <= n < x + WORD && n / WORD == era && expired == Low(x) && now == Low(n)
      modifies `current, `overflow, `calls
      ensures Span(k, t.period) <= n - x < Span(k, t.period) + t.period
      ensures calls == old(calls) + Times(t.id, k)
      ensures Content() == File(old(Content()), era, t, x + Span(k, t.period) + t.period)
      ensures (x + Span(k, t.period) + t.period) / WORD == era || (x + Span(k, t.period) + t.period) / WORD == era + 1
    {
      hide Span, File, Low, Plus;
      var at := expired;
      ghost var due := x + t.period;
      k := 0;
      SpanStep(0, t.period);
      Advance(x, t.period);
      assert calls + Times(t.id, 0) == calls;
      var again := Insert(t, Plus(at, t.period), now, at, due, n, x);
      while again
        invariant due == x + Span(k, t.period) + t.period && at == Low(due - t.period) && due - t.period <= n
        invariant again <==> due <= n
        invariant calls == old(calls) + Times(t.id, k)
        invariant Content() == if again then old(Content()) else File(old(Content()), era, t, due)
        invariant !again ==> due / WORD == era || due / WORD == era + 1
        decreases n - due
      {
        at := Plus(at, t.period);
        k := k + 1;
        calls := calls + [t.id];
        assert old(calls) + Times(t.id, k) == old(calls) + Times(t.id, k - 1) + [t.id];
        SpanStep(k - 1, t.period);
        Advance(due - t.period, t.period);
        Advance(due, t.period);
        due := due + t.period;
        again := Insert(t, Plus(at, t.period), now, at, due, n, due - t.period);
      }
    }

    lemma Advance(x: int, p: U32)
      ensures Plus(Low(x), p) == Low(x + p)
    {
      PlusOfLow(x, p);
      LowOf(p, p, 0);
    }

    /** `prvProcessExpiredTimer`: the head of the current list is called once for each of its
        periods that have passed, and filed again if it reloads. */
    method ProcessExpired(expire: U32, now: U32, ghost n: int) returns (ghost k: nat)
      requires OnTime(n) && |current| > 0 && expire == current[0].at && now == Low(n) && n / WORD == era
      requires era * WORD + expire <= n
      modifies `current, `overflow, `calls
      ensures OnTime(n)
      ensures var h, due, rest := old(current)[0], era * WORD + expire, Lists(old(current)[1..], old(overflow));
        if h.reload then
          && Span(k, h.period) <= n - due < Span(k, h.period) + h.period
          && calls == old(calls) + Times(h.id, k) + [h.id]
          && Content() == File(rest, era, h, due + Span(k, h.period) + h.period)
          && era <= (due + Span(k, h.period) + h.period) / WORD <= era + 1
        else k == 0 && calls == old(calls) + [h.id] && Content() == rest
    {
      hide Scheduled, Span, File, Low;
      var t := current[0];
      ghost var due, was, whole := era * WORD + expire, calls, Content();
      HeadOut(whole, era, was, base, n);
      HeadDue(whole, era, was, base, n);
      LowOf(due, expire, era);
      k := 0;
      current := current[1..];
      ghost var rest := Content();
      if t.reload {
        k := Reload(t, expire, now, due, n);
      }
      calls := calls + [t.id];
      assert calls == was + Times(t.id, k + 1);
      CalledOut(rest, era, was, base, n, t.id, k + 1);
      if t.reload {
        CalledAgain(t, due, was, base, n, k);
        FiledIn(rest, era, calls, base, n, t, due + Span(k, t.period) + t.period);
      }
    }

    /** At the end of an era the head leaves the current list for good. */
    method DrainHead()
      requires OnTime((era + 1) * WORD - 1) && |current| > 0
      modifies `current, `overflow, `calls
      ensures OnTime((era + 1) * WORD - 1) && current == old(current)[1..]
      ensures forall e :: e in old(overflow) ==> e in overflow
      ensures forall f :: f in overflow ==> f in old(overflow) || (f.id == old(current)[0].id && old(current)[0].reload)
      ensures old(current)[0].reload ==> exists f :: f in overflow && f.id == old(current)[0].id
      ensures !old(current)[0].reload ==> Unlisted(Content(), old(current)[0].id)
      ensures forall id :: id != old(current)[0].id ==> Count(calls, id) == Count(old(calls), id)
      ensures !old(current)[0].reload ==> Count(calls, old(current)[0].id) == Count(old(calls), old(current)[0].id) + 1
    {
      hide Scheduled, OnSchedule, Span, Filed;
      ghost var end, h, was, whole := (era + 1) * WORD - 1, current[0], calls, Content();
      var expire := current[0].at;
      HeadOut(whole, era, was, base, end);
      LowOf(end, LAST_TICK, era);
      var k := ProcessExpired(expire, LAST_TICK, end);
      ghost var e := h.(at := Low(era * WORD + expire + Span(k, h.period) + h.period));
      if h.reload {
        FiledKeeps(whole.overflow, e);
        assert e in overflow;
      }
      forall id ensures Count(calls, id) == Count(was, id) + (if id == h.id then k + 1 else 0) {
        CountTimes(was, h.id, k, id);
        CountOneMore(was + Times(h.id, k), h.id, id);
      }
    }

    method DrainAll()
      requires OnTime((era + 1) * WORD - 1)
      modifies `current, `overflow, `calls
      ensures OnTime((era + 1) * WORD - 1) && current == []
      ensures Drained(old(Content()), old(calls), |old(current)|, overflow, calls)
    {
      hide Scheduled, Count, Drained;
      ghost var i, was, before := 0, calls, Content();
      IsDistinct(before, era, calls, base, (era + 1) * WORD - 1);
      NoneDrained(before, was);
      while |current| > 0
        invariant i <= |before.current| && current == before.current[i..]
        invariant OnTime((era + 1) * WORD - 1)
        invariant Drained(before, was, i, overflow, calls)
        decreases |before.current| - i
      {
        ghost var so, left := calls, overflow;
        assert current[0] == before.current[i];
        DrainHead();
        OneMoreDrained(before, was, i, left, so, overflow, calls);
        i := i + 1;
      }
    }

    /** `prvSwitchTimerLists`: every timer still on the current list is called for each period of the
        era that has ended, and what remains is due in the next. */
    method SwitchLists()
      requires OnTime((era + 1) * WORD - 1)
      modifies `current, `overflow, `calls, `era
      ensures era == old(era) + 1 && overflow == [] && OnTime(era * WORD - 1)
      ensures Drained(old(Content()), old(calls), |old(current)|, current, calls)
    {
      hide Scheduled, Drained;
      DrainAll();
      Swapped(Content(), era, calls, base, (era + 1) * WORD - 1);
      var emptied := current;
      current, overflow := overflow, emptied;
      era := era + 1;
    }

    /** `prvSampleTimeNow`: the wrap of the tick count is noticed exactly when it happened. */
    method SampleTime(now: U32, ghost n: int) returns (switched: bool)
      requires OnTime(last) && lastTime == Low(last) && era == last / WORD && last <= n < last + WORD && now == Low(n)
      modifies `current, `overflow, `calls, `era, `lastTime, `last
      ensures OnTime(n) && lastTime == Low(last) && era == last / WORD && last == n
      ensures switched <==> n / WORD != old(last) / WORD
      ensures !switched ==> unchanged(`current, `overflow, `calls)
      ensures switched ==>
        overflow == [] && Drained(old(Content()), old(calls), |old(current)|, current, calls)
      ensures forall id :: old(Unlisted(Content(), id)) ==>
        Count(calls, id) == Count(old(calls), id) && Unlisted(Content(), id)
    {
      hide Scheduled, Drained, Count;
      assert last == WORD * era + lastTime && n == WORD * (n / WORD) + now;
      switched := now < lastTime;
      if switched {
        Later(Content(), era, calls, base, last, (era + 1) * WORD - 1);
        ghost var before, was := Content(), calls;
        SwitchLists();
        Later(Content(), era, calls, base, era * WORD - 1, n);
        forall id | Unlisted(before, id) ensures Count(calls, id) == Count(was, id) && Unlisted(Content(), id) {
          DrainedAll(before, was, current, calls, id);
        }
      } else {
        Later(Content(), era, calls, base, last, n);
      }
      lastTime := now;
      last := n;
    }

    ghost predicate Valid()
      reads this
    {
      OnTime(last) && lastTime == Low(last) && era == last / WORD
    }

    /** One turn of the timer task: process one expired timer, switch lists, or block. It blocks only
        when every period that has passed was called, once each, however often the tick wrapped. */
    method ProcessOrBlock(now: U32, ghost n: int) returns (blocked: bool)
      requires Valid() && last <= n < last + WORD && now == Low(n)
      modifies `current, `overflow, `calls, `era, `lastTime, `last
      ensures Valid() && last == n
      ensures blocked <==> n / WORD == old(last) / WORD && (old(current) == [] || n % WORD < old(current)[0].at)
      ensures !blocked && n / WORD == old(last) / WORD ==>
        old(calls) < calls && calls[|calls| - 1] == old(current)[0].id
      ensures blocked ==>
        && current == old(current) && overflow == old(overflow) && calls == old(calls)
        && forall e :: e in current || e in overflow ==>
             e.id in base && 0 < e.period && Count(calls, e.id) == (n - base[e.id]) / e.period
    {
      hide Scheduled;
      var empty := |current| == 0;
      var next := if empty then 0 else current[0].at;
      var switched := SampleTime(now, n);
      blocked := false;
      if !switched {
        if !empty && next <= now {
          assert n == WORD * era + now;
          var k := ProcessExpired(next, now, n);
        } else {
          blocked := true;
          NothingDue(Content(), era, calls, base, n);
        }
      }
    }

    method Remove(id: nat)
      requires OnTime(last)
      modifies `current, `overflow
      ensures OnTime(last) && Unlisted(Content(), id) && OthersStay(old(Content()), Content(), id)
    {
      hide Scheduled;
      ghost var was := Content();
      Removed(was, era, calls, base, last, id);
      current, overflow := Without(current, id), Without(overflow, id);
      forall e ensures e in current <==> e in was.current && e.id != id { WithoutContains(was.current, id, e); }
      forall e ensures e in overflow <==> e in was.overflow && e.id != id { WithoutContains(was.overflow, id, e); }
    }

    /** The expiry a start command was too late for, and every later one up to now. */
    method CatchUp(t: Entry, at: U32, now: U32, ghost c: int, ghost n: int)
      requires OnTime(n) && Unlisted(Content(), t.id) && n / WORD == era && OnSchedule(t, c + t.period, calls, base, n)
      requires c + t.period <= n < c + WORD && at == Low(c + t.period) && now == Low(n)
      modifies `current, `overflow, `calls
      ensures OnTime(n) && (Unlisted(Content(), t.id) <==> !t.reload)
      ensures Count(calls, t.id) == Count(old(calls), t.id) + (if t.reload then (n - c) / t.period else 1)
      ensures OthersStay(old(Content()), Content(), t.id)
    {
      hide Scheduled, OnSchedule, Span, File, Low, Times, Unlisted, OthersStay;
      NoneMoved(Content(), t.id);
      ghost var was, rest := calls, Content();
      Periodic(t, c + t.period, was, base, n);
      if t.reload {
        ghost var k := Reload(t, at, now, c + t.period, n);
        calls := calls + [t.id];
        OneMoreCall(was, t.id, k, calls);
        CalledUp(rest, era, was, base, n, t, c, k);
        FilingKeepsOthers(rest, era, t, c + t.period + Span(k, t.period) + t.period);
      } else {
        calls := calls + [t.id];
        NoCall(was, t.id, calls);
        OneMoreCall(was, t.id, 0, calls);
        CountTimes(was, t.id, 1, t.id);
        CalledOut(rest, era, was, base, n, t.id, 1);
      }
    }

    /** tmrCOMMAND_START and RESET: a command met late makes up exactly the periods it missed. */
    method Start(t: Entry, command: U32, now: U32, ghost c: int, ghost n: int)
      requires Valid() && 0 < t.period && command == Low(c) && now == Low(n)
      requires c <= n < c + WORD && last <= n < last + WORD
      modifies this
      ensures Valid() && last == n
      ensures Count(calls, t.id) == Count(old(calls), t.id) +
        (if t.reload then (n - c) / t.period else if c + t.period <= n then 1 else 0)
      ensures base == old(base)[t.id := c - Span(Count(old(calls), t.id), t.period)]
      ensures Unlisted(Content(), t.id) <==> !t.reload && c + t.period <= n
      ensures n / WORD == old(last) / WORD ==> OthersStay(old(Content()), Content(), t.id)
    {
      hide Scheduled, OnSchedule, Span, Filed, OthersStay, Drained;
      ghost var first := Content();
      Remove(t.id);
      ghost var second := Content();
      var switched := SampleTime(now, n);
      ghost var was, rest := calls, Content();
      Rebased(rest, era, was, base, n, t.id, c - Span(Count(was, t.id), t.period));
      base := base[t.id := c - Span(Count(was, t.id), t.period)];
      FreshSchedule(t, c, was, base, n);
      Advance(c, t.period);
      var passed := Insert(t, Plus(command, t.period), now, command, c + t.period, n, c);
      if !passed {
        FiledIn(rest, era, was, base, n, t, c + t.period);
        FiledListed(rest, era, t, c + t.period);
        FloorIsZero(n - c, t.period);
        FilingKeepsOthers(rest, era, t, c + t.period);
      } else {
        CatchUp(t, Plus(command, t.period), now, c, n);
      }
      if !switched { StaysOn(first, second, Content(), t.id); }
    }

    /** tmrCOMMAND_STOP. */
    method StopTimer(id: nat, now: U32, ghost n: int)
      requires Valid() && now == Low(n) && last <= n < last + WORD
      modifies this
      ensures Valid() && last == n && Unlisted(Content(), id) && base == old(base)
      ensures Count(calls, id) == Count(old(calls), id)
      ensures n / WORD == old(last) / WORD ==> OthersStay(old(Content()), Content(), id) && calls == old(calls)
    {
      hide Scheduled, Drained;
      Remove(id);
      var switched := SampleTime(now, n);
    }

    /** tmrCOMMAND_CHANGE_PERIOD: the first expiry is a whole new period away. */
    method ChangePeriod(t: Entry, period: U32, now: U32, ghost n: int)
      requires Valid() && 0 < period && now == Low(n) && last <= n < last + WORD
      modifies this
      ensures Valid() && last == n && !Unlisted(Content(), t.id)
      ensures Count(calls, t.id) == Count(old(calls), t.id)
      ensures base == old(base)[t.id := n - Span(Count(old(calls), t.id), period)]
      ensures n / WORD == old(last) / WORD ==> OthersStay(old(Content()), Content(), t.id) && calls == old(calls)
    {
      hide Scheduled, OnSchedule, Span, Filed, OthersStay, Drained;
      var e := t.(period := period);
      ghost var first := Content();
      Remove(t.id);
      ghost var second := Content();
      var switched := SampleTime(now, n);
      ghost var rest := Content();
      Rebased(rest, era, calls, base, n, t.id, n - Span(Count(calls, t.id), period));
      base := base[t.id := n - Span(Count(calls, t.id), period)];
      FreshSchedule(e, n, calls, base, n);
      Advance(n, period);
      var passed := Insert(e, Plus(now, period), now, now, n + period, n, n);
      FiledIn(rest, era, calls, base, n, e, n + period);
      FiledListed(rest, era, e, n + period);
      FilingKeepsOthers(rest, era, e, n + period);
      if !switched { StaysOn(first, second, Content(), t.id); }
    }
  }

  lemma NoneMoved(l: Lists, id: nat)
    ensures OthersStay(l, l, id)
  {
  }

  lemma StaysOn(l: Lists, m: Lists, r: Lists, id: nat)
    requires OthersStay(l, m, id) && OthersStay(m, r, id)
    ensures OthersStay(l, r, id)
  {
  }

  lemma Removed(l: Lists, era: int, calls: seq<nat>, base: map<nat, int>, upto: int, id: nat)
    requires Scheduled(l, era, calls, base, upto)
    ensures Scheduled(Lists(Without(l.current, id), Without(l.overflow, id)), era, calls, base, upto)
    ensures Unlisted(Lists(Without(l.current, id), Without(l.overflow, id)), id)
  {
    hide OnSchedule, InOrder, DistinctIds;
    WithoutOrdered(l.current, id);
    WithoutOrdered(l.overflow, id);
    WithoutDistinct(l.current, id);
    WithoutDistinct(l.overflow, id);
    forall e ensures e in Without(l.current, id) <==> e in l.current && e.id != id {
      WithoutContains(l.current, id, e);
    }
    forall e ensures e in Without(l.overflow, id) <==> e in l.overflow && e.id != id {
      WithoutContains(l.overflow, id, e);
    }
  }

  lemma Rebased(l: Lists, era: int, calls: seq<nat>, base: map<nat, int>, upto: int, id: nat, b: int)
    requires Scheduled(l, era, calls, base, upto) && Unlisted(l, id)
    ensures Scheduled(l, era, calls, base[id := b], upto)
  {
  }

  lemma FreshSchedule(t: Entry, c: int, calls: seq<nat>, base: map<nat, int>, n: int)
    requires 0 < t.period && c <= n && t.id in base && base[t.id] == c - Span(Count(calls, t.id), t.period)
    ensures OnSchedule(t, c + t.period, calls, base, n)
  {
    hide Span;
  }

  lemma Periodic(t: Entry, due: int, calls: seq<nat>, base: map<nat, int>, n: int)
    requires OnSchedule(t, due, calls, base, n)
    ensures 0 < t.period
  {
  }

  lemma FiledListed(l: Lists, era: int, t: Entry, due: int)
    ensures !Unlisted(File(l, era, t, due), t.id)
  {
    var e := t.(at := Low(due));
    FiledKeeps(l.current, e);
    FiledKeeps(l.overflow, e);
  }

  lemma FloorIsZero(a: int, p: int)
    requires 0 < p && 0 <= a < p
    ensures a / p == 0
  {
    FloorIs(a, p, 0);
  }

  lemma FloorIsSpan(a: int, p: int, k: nat)
    requires 0 < p && p + Span(k, p) <= a < p + Span(k, p) + p
    ensures a / p == k + 1
  {
    FloorIs(a, p, k + 1);
  }

  /** With no due time up to now, each timer was called once for each of its periods. */
  lemma NothingDue(l: Lists, era: int, calls: seq<nat>, base: map<nat, int>, n: int)
    requires Scheduled(l, era, calls, base, n) && n / WORD == era
    requires |l.current| == 0 || n < era * WORD + l.current[0].at
    ensures forall e :: e in l.current || e in l.overflow ==>
      e.id in base && 0 < e.period && Count(calls, e.id) == (n - base[e.id]) / e.period
  {
    forall e | e in l.current || e in l.overflow
      ensures e.id in base && 0 < e.period && Count(calls, e.id) == (n - base[e.id]) / e.period
    {
      var due := if e in l.current then era * WORD + e.at else (era + 1) * WORD + e.at;
      if e in l.current {
        var i :| 0 <= i < |l.current| && l.current[i] == e;
        assert l.current[0].at <= e.at;
      }
      CallsAreFloor(e, due, calls, base, n);
    }
  }

  lemma CallsAreFloor(e: Entry, due: int, calls: seq<nat>, base: map<nat, int>, n: int)
    requires OnSchedule(e, due, calls, base, n) && n < due
    ensures Count(calls, e.id) == (n - base[e.id]) / e.period
  {
    FloorIs(n - base[e.id], e.period, Count(calls, e.id));
  }

  /** The first i timers of the old current list have left it: a reloading one is filed for the next
      era, a one-shot one was called exactly once; nobody else was called or lost. */
  ghost predicate Drained(l: Lists, was: seq<nat>, i: nat, overflow: seq<Entry>, calls: seq<nat>) {
    && i <= |l.current|
    && (forall e :: e in l.overflow ==> e in overflow)
    && (forall f :: f in overflow ==>
      f in l.overflow || exists j :: 0 <= j < i && f.id == l.current[j].id && l.current[j].reload)
    && (forall j :: 0 <= j < i && l.current[j].reload ==> !Lacks(overflow, l.current[j].id))
    && (forall j :: 0 <= j < |l.current| && !l.current[j].reload ==>
          Count(calls, l.current[j].id) == Count(was, l.current[j].id) + (if j < i then 1 else 0))
    && (forall id :: Lacks(l.current, id) ==> Count(calls, id) == Count(was, id))
  }

  lemma NoneDrained(l: Lists, was: seq<nat>)
    ensures Drained(l, was, 0, l.overflow, was)
  {
  }

  lemma OneMoreDrained(l: Lists, was: seq<nat>, i: nat, left: seq<Entry>, so: seq<nat>, overflow: seq<Entry>,
    calls: seq<nat>)
    requires Drained(l, was, i, left, so) && i < |l.current| && DistinctIds(l.current)
    requires forall e :: e in left ==> e in overflow
    requires forall f :: f in overflow ==> f in left || (f.id == l.current[i].id && l.current[i].reload)
    requires l.current[i].reload ==> exists f :: f in overflow && f.id == l.current[i].id
    requires forall id :: id != l.current[i].id ==> Count(calls, id) == Count(so, id)
    requires !l.current[i].reload ==> Count(calls, l.current[i].id) == Count(so, l.current[i].id) + 1
    ensures Drained(l, was, i + 1, overflow, calls)
  {
    hide Count;
  }

  lemma DrainedAll(l: Lists, was: seq<nat>, overflow: seq<Entry>, calls: seq<nat>, id: nat)
    requires Drained(l, was, |l.current|, overflow, calls) && Unlisted(l, id)
    ensures Count(calls, id) == Count(was, id) && Lacks(overflow, id)
  {
    hide Count;
  }

  lemma IsDistinct(l: Lists, era: int, calls: seq<nat>, base: map<nat, int>, upto: int)
    requires Scheduled(l, era, calls, base, upto)
    ensures DistinctIds(l.current) && forall e :: e in l.current ==> Lacks(l.overflow, e.id)
  {
  }

  lemma Swapped(l: Lists, era: int, calls: seq<nat>, base: map<nat, int>, upto: int)
    requires Scheduled(l, era, calls, base, upto) && l.current == []
    ensures Scheduled(Lists(l.overflow, []), era + 1, calls, base, upto)
  {
  }

  lemma HeadDue(l: Lists, era: int, calls: seq<nat>, base: map<nat, int>, upto: int)
    requires Scheduled(l, era, calls, base, upto) && |l.current| > 0
    ensures OnSchedule(l.current[0], era * WORD + l.current[0].at, calls, base, upto)
  {
  }

  /** After k + 1 calls a timer is due k + 1 periods later. */
  lemma CalledAgain(t: Entry, due: int, calls: seq<nat>, base: map<nat, int>, n: int, k: nat)
    requires OnSchedule(t, due, calls, base, n) && due + Span(k, t.period) <= n
    ensures OnSchedule(t, due + Span(k, t.period) + t.period, calls + Times(t.id, k + 1), base, n)
  {
    hide Span;
    CountTimes(calls, t.id, k + 1, t.id);
    SpanAdds(Count(calls, t.id), k + 1, t.period);
    SpanStep(k, t.period);
  }

  lemma OneMoreCall(was: seq<nat>, id: nat, k: nat, calls: seq<nat>)
    requires calls == was + Times(id, k) + [id]
    ensures calls == was + Times(id, k + 1)
  {
    assert Times(id, k) + [id] == Times(id, k + 1);
    assert was + Times(id, k) + [id] == was + (Times(id, k) + [id]);
  }

  lemma NoCall(was: seq<nat>, id: nat, calls: seq<nat>)
    requires calls == was + [id]
    ensures calls == was + Times(id, 0) + [id]
  {
    assert was + Times(id, 0) == was;
  }

  /** k + 1 late calls and the next expiry filed put a reloading timer back on schedule. */
  lemma CalledUp(l: Lists, era: int, calls: seq<nat>, base: map<nat, int>, n: int, t: Entry, c: int, k: nat)
    requires Scheduled(l, era, calls, base, n) && Unlisted(l, t.id) && OnSchedule(t, c + t.period, calls, base, n)
    requires Span(k, t.period) <= n - (c + t.period) < Span(k, t.period) + t.period
    requires var due := c + t.period + Span(k, t.period) + t.period; due / WORD == era || due / WORD == era + 1
    ensures var r := File(l, era, t, c + t.period + Span(k, t.period) + t.period);
      Scheduled(r, era, calls + Times(t.id, k + 1), base, n) && !Unlisted(r, t.id)
    ensures 0 < t.period && Count(calls + Times(t.id, k + 1), t.id) == Count(calls, t.id) + (n - c) / t.period
  {
    hide Scheduled, OnSchedule, Span, File, Times, Unlisted;
    var due := c + t.period + Span(k, t.period) + t.period;
    Periodic(t, c + t.period, calls, base, n);
    CountTimes(calls, t.id, k + 1, t.id);
    CalledOut(l, era, calls, base, n, t.id, k + 1);
    CalledAgain(t, c + t.period, calls, base, n, k);
    FiledIn(l, era, calls + Times(t.id, k + 1), base, n, t, due);
    FiledListed(l, era, t, due);
    FloorIsSpan(n - c, t.period, k);
  }

  lemma {:induction false} SpanAdds(a: nat, b: nat, period: int)
    ensures Span(a + b, period) == Span(a, period) + Span(b, period)
  {
  }
}
