/** Where a value belongs in a list kept in ascending order: after its equals. */
module OrderedList {
  predicate Ordered(keys: seq<int>) {
    forall i, j :: 0 <= i < j < |keys| ==> keys[i] <= keys[j]
  }

  /** The first place whose key is larger. */
  function Position(keys: seq<int>, k: int): (p: nat)
    ensures p <= |keys|
    ensures forall i :: 0 <= i < p ==> keys[i] <= k
    ensures p < |keys| ==> k < keys[p]
  {
    if |keys| == 0 || k < keys[0] then 0 else 1 + Position(keys[1..], k)
  }

  function Put<T>(s: seq<T>, p: nat, x: T): (r: seq<T>)
    requires p <= |s|
    ensures |r| == |s| + 1
  {
    s[..p] + [x] + s[p..]
  }

  lemma PutAt<T>(s: seq<T>, p: nat, x: T, i: nat)
    requires p <= |s| && i <= |s|
    ensures Put(s, p, x)[i] == if i < p then s[i] else if i == p then x else s[i - 1]
  {
  }

  lemma PutKeepsOrder(keys: seq<int>, k: int)
    requires Ordered(keys)
    ensures Ordered(Put(keys, Position(keys, k), k))
  {
    var p := Position(keys, k);
    var r := Put(keys, p, k);
    forall i, j | 0 <= i < j < |r| ensures r[i] <= r[j] {
      if i == p {
        assert r[j] == keys[j - 1];
      } else if j == p {
        assert r[i] == keys[i];
      } else {
        assert r[i] == keys[if i < p then i else i - 1];
        assert r[j] == keys[if j < p then j else j - 1];
      }
    }
  }

  lemma PutContains<T>(s: seq<T>, p: nat, x: T, y: T)
    requires p <= |s|
    ensures y in Put(s, p, x) <==> y == x || y in s
  {
    var r := Put(s, p, x);
    assert r[p] == x;
    if y in s {
      var i :| 0 <= i < |s| && s[i] == y;
      assert r[if i < p then i else i + 1] == y;
    }
    if y in r {
      var j :| 0 <= j < |r| && r[j] == y;
      if j != p {
        assert s[if j < p then j else j - 1] == y;
      }
    }
  }
}
