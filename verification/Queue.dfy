/** The copy-in queue: a fixed block of slots, a place to write next and the place last read. */
module Queue {
  import opened RingCells

  datatype Where = ToBack | ToFront | Overwrite

  /** Slot positions and the number of items waiting. */
  datatype Cursor = Cursor(length: nat, writeTo: nat, readFrom: nat, waiting: nat)

  predicate InBounds(c: Cursor) {
    c.writeTo < c.length && c.readFrom < c.length && c.waiting <= c.length
  }

  /** The write position stands behind the items that wait after the read position. */
  predicate Linked(c: Cursor) {
    InBounds(c) && c.writeTo == Cell(c.length, Cell(c.length, c.readFrom, 1), c.waiting)
  }

  /** `prvCopyDataToQueue` on the positions. */
  function Moved(c: Cursor, where: Where): Cursor
    requires InBounds(c)
  {
    match where
    case ToBack => c.(writeTo := Cell(c.length, c.writeTo, 1), waiting := c.waiting + 1)
    case ToFront => c.(readFrom := Before(c.length, c.readFrom), waiting := c.waiting + 1)
    case Overwrite => c.(readFrom := Before(c.length, c.readFrom), waiting := if c.waiting > 0 then c.waiting else 1)
  }

  /** Back and front sends with room keep the positions in step; an overwrite keeps them exactly when
      the queue has one slot or was empty. */
  lemma MovesStayLinked(c: Cursor, where: Where)
    requires Linked(c) && (c.waiting < c.length || where.Overwrite?)
    ensures Linked(Moved(c, where)) <==> (where.Overwrite? ==> c.length == 1 || c.waiting == 0)
  {
  }

  /** In a queue of two slots an overwrite leaves the write position on the wrong side of the item. */
  lemma OverwriteLosesItsPlace()
    ensures var c := Cursor(2, 1, 1, 1); Linked(c) && !Linked(Moved(c, Overwrite))
  {
  }

  /** The items behind the read position, oldest first. */
  function Items<T>(slots: seq<T>, readFrom: nat, n: nat): (s: seq<T>)
    requires readFrom < |slots| && n <= |slots|
    ensures |s| == n && forall k :: 0 <= k < n ==> s[k] == slots[Cell(|slots|, readFrom, k + 1)]
  {
    if n == 0 then [] else Items(slots, readFrom, n - 1) + [slots[Cell(|slots|, readFrom, n)]]
  }

  lemma ItemsBehind<T>(slots: seq<T>, c: Cursor, x: T)
    requires Linked(c) && |slots| == c.length && c.waiting < c.length
    ensures Items(slots[c.writeTo := x], c.readFrom, c.waiting + 1) == Items(slots, c.readFrom, c.waiting) + [x]
  {
  }

  lemma ItemsAhead<T>(slots: seq<T>, c: Cursor, x: T, n: nat)
    requires InBounds(c) && |slots| == c.length && n < c.length && n <= c.waiting
    ensures Items(slots[c.readFrom := x], Before(c.length, c.readFrom), n + 1) == [x] + Items(slots, c.readFrom,
      c.waiting)[..n]
  {
  }

  lemma ItemsAfterFirst<T>(slots: seq<T>, readFrom: nat, n: nat)
    requires readFrom < |slots| && 0 < n <= |slots|
    ensures var s := Items(slots, readFrom, n); s == [s[0]] + Items(slots, Cell(|slots|, readFrom, 1), n - 1)
  {
  }

  class Queue<T(0)> {
    const slots: array<T>
    const length: nat
    var writeTo: nat
    var readFrom: nat
    var waiting: nat

    ghost function Positions(): Cursor
      reads this
    {
      Cursor(length, writeTo, readFrom, waiting)
    }

    ghost predicate Shaped()
      reads this
    {
      slots.Length == length && InBounds(Positions())
    }

    ghost predicate Valid()
      reads this
    {
      Shaped() && Linked(Positions())
    }

    /** The items in the order they will be received. */
    ghost function Contents(): seq<T>
      reads this, slots
      requires Shaped()
    {
      Items(slots[..], readFrom, waiting)
    }

    constructor (n: nat)
      requires 1 <= n
      ensures Valid() && Contents() == [] && length == n && fresh(slots)
    {
      slots, length := new T[n], n;
      writeTo, readFrom, waiting := 0, n - 1, 0;
    }

    /** `xQueueGenericReset`. */
    method Reset()
      requires Shaped()
      modifies this
      ensures Valid() && Contents() == []
    {
      waiting, writeTo, readFrom := 0, 0, length - 1;
    }

    /** `prvCopyDataToQueue`. */
    method CopyIn(x: T, where: Where)
      requires Valid() && (waiting < length || where.Overwrite?)
      modifies this, slots
      ensures Shaped() && Positions() == Moved(old(Positions()), where)
      ensures Contents() == match where
        case ToBack => old(Contents()) + [x]
        case ToFront => [x] + old(Contents())
        case Overwrite => [x] + old(Contents())[..if old(waiting) > 0 then old(waiting) - 1 else 0]
    {
      hide Items;
      var count: int := waiting;
      ghost var was, c := slots[..], Positions();
      if where == ToBack {
        ItemsBehind(was, c, x);
        slots[writeTo] := x;
        writeTo := writeTo + 1;
        if writeTo >= length { writeTo := 0; }
      } else {
        ItemsAhead(was, c, x, if where == ToFront then waiting else if waiting > 0 then waiting - 1 else 0);
        slots[readFrom] := x;
        readFrom := if readFrom == 0 then length - 1 else readFrom - 1;
        if where == Overwrite {
          if count > 0 { count := count - 1; }
        }
      }
      waiting := count + 1;
    }

    /** The send functions without waiting: refused only when full, and never for an overwrite. */
    method Send(x: T, where: Where) returns (ok: bool)
      requires Valid()
      modifies this, slots
      ensures ok <==> old(waiting) < length || where.Overwrite?
      ensures !ok ==> Valid() && Contents() == old(Contents())
      ensures ok ==> Shaped() && (Valid() <==> (where.Overwrite? ==> length == 1 || old(waiting) == 0))
      ensures ok ==> Contents() == match where
        case ToBack => old(Contents()) + [x]
        case ToFront => [x] + old(Contents())
        case Overwrite => [x] + old(Contents())[..if old(waiting) > 0 then old(waiting) - 1 else 0]
    {
      ok := waiting < length || where == Overwrite;
      if ok {
        MovesStayLinked(Positions(), where);
        CopyIn(x, where);
      }
    }

    /** `prvCopyDataFromQueue`: steps to the oldest item and reads it. */
    method CopyOut() returns (x: T)
      requires Shaped() && waiting > 0
      modifies this`readFrom
      ensures x == old(Contents())[0] && readFrom == Cell(length, old(readFrom), 1)
    {
      readFrom := readFrom + 1;
      if readFrom >= length { readFrom := 0; }
      x := slots[readFrom];
    }

    method Receive() returns (ok: bool, x: T)
      requires Valid()
      modifies this
      ensures Valid() && (ok <==> |old(Contents())| > 0)
      ensures ok ==> old(Contents()) == [x] + Contents()
      ensures !ok ==> Contents() == old(Contents())
    {
      ok := waiting > 0;
      if ok {
        ItemsAfterFirst(slots[..], readFrom, waiting);
        x := CopyOut();
        waiting := waiting - 1;
      } else {
        x := *;
      }
    }

    /** Peeking reads the oldest item and puts the read position back. */
    method Peek() returns (ok: bool, x: T)
      requires Valid()
      modifies this`readFrom
      ensures Valid() && Contents() == old(Contents()) && readFrom == old(readFrom)
      ensures (ok <==> |Contents()| > 0) && (ok ==> x == Contents()[0])
    {
      ok := waiting > 0;
      if ok {
        var original := readFrom;
        x := CopyOut();
        readFrom := original;
      } else {
        x := *;
      }
    }
  }
}
