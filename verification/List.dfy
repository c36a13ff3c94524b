/** The kernel's circular doubly linked list: an end marker holding the largest value, items
    that know their list, and an index that walks the ring. */
module List {
  import opened MachineWord
  import opened OrderedList

  const MAX_VALUE: U32 := WORD - 1

  class Item {
    var value: U32
    var next: Item?
    var prev: Item?
    var container: List?

    constructor (v: U32)
      ensures value == v && container == null
    {
      value, next, prev, container := v, null, null, null;
    }
  }

  /** The k-th node of the ring, cut open at its end marker. */
  ghost function Node(items: seq<Item>, end: Item, k: nat): Item
    requires k <= |items| + 1
  {
    if k == 0 || k == |items| + 1 then end else items[k - 1]
  }

  ghost function ValuesOf(s: seq<Item>): (v: seq<int>)
    reads (set y | y in s)`value
    ensures |v| == |s| && forall i :: 0 <= i < |s| ==> v[i] == s[i].value
  {
    if |s| == 0 then [] else [s[0].value as int] + ValuesOf(s[1..])
  }

  lemma PutNodes(s: seq<Item>, end: Item, p: nat, x: Item, k: nat)
    requires p <= |s| && k <= |s| + 2
    ensures Node(Put(s, p, x), end, k) == if k <= p then Node(s, end, k) else if k == p + 1 then x
      else Node(s, end, k - 1)
  {
  }

  lemma PutDistinct(s: seq<Item>, p: nat, x: Item)
    requires p <= |s| && x !in s && forall i, j :: 0 <= i < j < |s| ==> s[i] != s[j]
    ensures forall i, j :: 0 <= i < j < |s| + 1 ==> Put(s, p, x)[i] != Put(s, p, x)[j]
  {
    forall i, j | 0 <= i < j < |s| + 1 ensures Put(s, p, x)[i] != Put(s, p, x)[j] {
      PutNodes(s, x, p, x, i + 1);
      PutNodes(s, x, p, x, j + 1);
    }
  }

  class List {
    const end: Item
    var index: Item
    var count: nat
    ghost var items: seq<Item>

    ghost predicate Distinct()
      reads `items
    {
      && end !in items
      && forall i, j :: 0 <= i < j < |items| ==> items[i] != items[j]
    }

    ghost predicate Linked()
      reads `items, end, items
    {
      && (forall k :: 0 <= k <= |items| ==> Node(items, end, k).next == Node(items, end, k + 1))
      && (forall k :: 0 <= k <= |items| ==> Node(items, end, k + 1).prev == Node(items, end, k))
    }

    /** A finite ring with a correct count and owned items. */
    ghost predicate Ringed()
      reads this, end, items
    {
      && Distinct() && Linked() && count == |items|
      && end.value == MAX_VALUE && end.container == null
      && (forall x :: x in items ==> x.container == this)
    }

    /** The index stands on the ring. */
    ghost predicate Valid()
      reads this, end, items
    {
      Ringed() && (index == end || index in items)
    }

    ghost function Values(): seq<int>
      reads `items, (set y | y in items)`value
    {
      ValuesOf(items)
    }

    /** `vListInitialise`. */
    constructor ()
      ensures Valid() && items == [] && index == end && fresh(end)
    {
      var e := new Item(MAX_VALUE);
      end, index, count, items := e, e, 0, [];
      new;
      end.next, end.prev := end, end;
    }

    /** Splices x into the ring behind its k-th node. */
    method Splice(x: Item, ghost p: nat, left: Item, right: Item)
      requires Valid() && p <= |items| && left == Node(items, end, p) && right == Node(items, end, p + 1)
      requires x != end && x !in items && x.container == null
      modifies this`count, this`items, x`next, x`prev, x`container, left`next, right`prev
      ensures Valid() && items == Put(old(items), p, x)
    {
      hide Put;
      ghost var was := items;
      x.next, x.prev := right, left;
      left.next := x;
      right.prev := x;
      x.container := this;
      count := count + 1;
      items := Put(items, p, x);
      PutDistinct(was, p, x);
      forall y ensures y in items <==> y == x || y in was { PutContains(was, p, x, y); }
      forall k | 0 <= k <= |was| + 1
        ensures Node(items, end, k).next == Node(items, end, k + 1) &&
          Node(items, end, k + 1).prev == Node(items, end, k)
      {
        PutNodes(was, end, p, x, k);
        PutNodes(was, end, p, x, k + 1);
      }
    }

    /** What the links around the p-th gap of the ring say. */
    lemma Gap(p: nat)
      requires Valid() && p <= |items|
      ensures Node(items, end, p).next == Node(items, end, p + 1) && Node(items, end, p + 1).prev == Node(items, end, p)
      ensures forall k :: 0 <= k <= |items| + 1 ==> Node(items, end, k) == end || Node(items, end, k) in items
    {
    }

    /** `vListInsertEnd`: behind every item the index has yet to visit, whatever the values. */
    method InsertEnd(x: Item)
      requires Valid() && x != end && x !in items && x.container == null
      modifies this`count, this`items, x`next, x`prev, x`container, end`next, end`prev, (set y | y in items)`next,
        (set y | y in items)`prev
      ensures Valid()
      ensures items == Put(old(items), if index == end then |old(items)| else IndexOf(old(items), index), x)
    {
      ghost var p := if index == end then |items| else IndexOf(items, index);
      Gap(p);
      Splice(x, p, index.prev, index);
    }

    /** The last node before the place of a value: the search loop ends at the end marker at the latest. */
    method Find(v: U32) returns (node: Item, ghost k: nat)
      requires Valid()
      ensures k == Position(Values(), v) && k <= |items| && node == Node(items, end, k)
    {
      if v == MAX_VALUE {
        Gap(|items|);
        node, k := end.prev, |items|;
      } else {
        node, k := end, 0;
        Gap(0);
        while node.next.value <= v
          invariant k <= |items| && node == Node(items, end, k) && node.next == Node(items, end, k + 1)
          invariant forall i :: 0 <= i < k ==> items[i].value <= v
          decreases |items| - k
        {
          k := k + 1;
          node := node.next;
          Gap(k);
        }
      }
      PositionIs(Values(), v, k);
    }

    /** `vListInsert`: in ascending order behind its equals, the largest value included. */
    method Insert(x: Item)
      requires Valid() && x != end && x !in items && x.container == null
      modifies this`count, this`items, x`next, x`prev, x`container, end`next, end`prev, (set y | y in items)`next,
        (set y | y in items)`prev
      ensures Valid()
      ensures items == Put(old(items), Position(old(Values()), x.value), x)
      ensures old(Ordered(Values())) ==> Ordered(Values())
    {
      hide ValuesOf, Put, Position;
      var node, k := Find(x.value);
      Gap(k);
      ghost var was := items;
      Splice(x, k, node, node.next);
      PutOrdered(was, k, x);
    }

    /** Takes x, the p-th item, out of the ring. */
    method Unlink(x: Item, ghost p: nat, left: Item, right: Item)
      requires Ringed() && p < |items| && x == items[p] && left == Node(items, end, p) &&
        right == Node(items, end, p + 2)
      modifies this`count, this`items, x`container, left`next, right`prev
      ensures Ringed() && items == Cut(old(items), p) && x.container == null
    {
      hide Cut;
      ghost var was := items;
      right.prev := left;
      left.next := right;
      x.container := null;
      count := count - 1;
      items := Cut(was, p);
      CutDistinct(was, p);
      forall y ensures y in items <==> y in was && y != x { CutContains(was, p, y); }
      forall k | 0 <= k <= |items|
        ensures Node(items, end, k).next == Node(items, end, k + 1) &&
          Node(items, end, k + 1).prev == Node(items, end, k)
      {
        CutNodes(was, end, p, k);
        CutNodes(was, end, p, k + 1);
      }
    }

    /** `uxListRemove`: exactly this item goes; the index steps back if it stood there. */
    method Remove(x: Item) returns (left: nat)
      requires Valid() && x in items
      modifies this`count, this`items, this`index, x`container, end`next, end`prev, (set y | y in items)`next,
        (set y | y in items)`prev
      ensures Valid() && left == |items| && x.container == null
      ensures var p := IndexOf(old(items), x);
        && items == Cut(old(items), p)
        && index == if old(index) != x then old(index) else Node(old(items), end, p)
    {
      hide Cut;
      ghost var was, p := items, IndexOf(items, x);
      Gap(p);
      Gap(p + 1);
      Unlink(x, p, x.prev, x.next);
      if index == x { index := x.prev; }
      CutContains(was, p, index);
      left := count;
    }
  }

  function IndexOf(s: seq<Item>, x: Item): (i: nat)
    requires x in s
    ensures i < |s| && s[i] == x
  {
    if s[0] == x then 0 else 1 + IndexOf(s[1..], x)
  }

  lemma PutValues(s: seq<Item>, p: nat, x: Item)
    requires p <= |s|
    ensures ValuesOf(Put(s, p, x)) == Put(ValuesOf(s), p, x.value as int)
  {
    hide ValuesOf, Put;
    var v: int := x.value;
    forall i | 0 <= i <= |s| ensures ValuesOf(Put(s, p, x))[i] == Put(ValuesOf(s), p, v)[i] {
      PutAt(s, p, x, i);
      PutAt(ValuesOf(s), p, v, i);
    }
  }

  lemma PutOrdered(s: seq<Item>, p: nat, x: Item)
    requires p == Position(ValuesOf(s), x.value)
    ensures Ordered(ValuesOf(s)) ==> Ordered(ValuesOf(Put(s, p, x)))
  {
    hide ValuesOf, Put;
    PutValues(s, p, x);
    if Ordered(ValuesOf(s)) {
      PutKeepsOrder(ValuesOf(s), x.value);
    }
  }

  lemma PositionIs(keys: seq<int>, v: int, k: nat)
    requires k <= |keys| && (forall i :: 0 <= i < k ==> keys[i] <= v) && (k < |keys| ==> v < keys[k])
    ensures Position(keys, v) == k
  {
  }

  function Cut(s: seq<Item>, p: nat): (r: seq<Item>)
    requires p < |s|
    ensures |r| == |s| - 1
  {
    s[..p] + s[p + 1..]
  }

  lemma CutNodes(s: seq<Item>, end: Item, p: nat, k: nat)
    requires p < |s| && k <= |s|
    ensures Node(Cut(s, p), end, k) == if k <= p then Node(s, end, k) else Node(s, end, k + 1)
  {
  }

  lemma CutDistinct(s: seq<Item>, p: nat)
    requires p < |s| && forall i, j :: 0 <= i < j < |s| ==> s[i] != s[j]
    ensures forall i, j :: 0 <= i < j < |s| - 1 ==> Cut(s, p)[i] != Cut(s, p)[j]
  {
  }

  lemma CutContains(s: seq<Item>, p: nat, y: Item)
    requires p < |s| && forall i, j :: 0 <= i < j < |s| ==> s[i] != s[j]
    ensures y in Cut(s, p) <==> y in s && y != s[p]
  {
    if y in s && y != s[p] {
      var i :| 0 <= i < |s| && s[i] == y;
      assert Cut(s, p)[if i < p then i else i - 1] == y;
    }
  }
}
