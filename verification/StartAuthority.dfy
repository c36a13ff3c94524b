/** What must have happened before a session may start, read off the list of what did happen. */
module StartAuthority {
  type U16 = x: int | 0 <= x < 0x1_0000
  type U32 = x: int | 0 <= x < 0x1_0000_0000

  datatype Act =
    | Opened
    | Staged(slot: nat, word: U16)
    | Committed(version: U32, digest: U32, target: nat, words: seq<U16>)
    | WordRead(slot: nat)
    | Acked(slot: nat, word: U16)
    | Armed
    | Dropped                          // an invalid plan write or a target command
    | Revoked                          // STOP or a fault
    | Requested                        // START accepted
    | Started(session: U32, target: nat)

  datatype Option = None | Some(word: U16)

  function High(v: U32): U16 {
    v / 0x1_0000
  }

  function Low16(v: U32): U16 {
    v % 0x1_0000
  }

  function Join(high: U16, low: U16): U32 {
    high * 0x1_0000 + low
  }

  lemma HalvesJoin(high: U16, low: U16)
    ensures High(Join(high, low)) == high && Low16(Join(high, low)) == low
  {
  }

  lemma JoinHalves(v: U32)
    ensures Join(High(v), Low16(v)) == v
  {
  }

  /** Ends the authority of an earlier commit. */
  predicate Supersedes(a: Act) {
    a.Opened? || a.Committed? || a.Dropped? || a.Revoked? || a.Requested?
  }

  predicate WritesPlan(a: Act) {
    a.Opened? || a.Staged? || a.Committed? || a.Acked? || a.Dropped? || a.Revoked?
  }

  /** The commit at c is the one in force before position k. */
  ghost predicate InForce(t: seq<Act>, c: nat, k: nat) {
    c < k <= |t| && t[c].Committed? && forall j :: c < j < k ==> !Supersedes(t[j])
  }

  ghost predicate WordsRead(t: seq<Act>, c: nat, k: nat) {
    forall i :: 0 <= i < 12 ==> WordReadBetween(t, i, c, k)
  }

  ghost predicate WordReadBetween(t: seq<Act>, i: nat, c: nat, k: nat) {
    exists j :: c < j < k && j < |t| && t[j] == WordRead(i)
  }

  /** The last acknowledgement written to a slot between c and k. */
  function AckWord(t: seq<Act>, i: nat, c: nat, k: nat): Option
    requires k <= |t|
    decreases k
  {
    if k <= c + 1 then None
    else if t[k - 1].Acked? && t[k - 1].slot == i then Some(t[k - 1].word)
    else AckWord(t, i, c, k - 1)
  }

  ghost predicate AckMatches(t: seq<Act>, c: nat, k: nat)
    requires c < k <= |t| && t[c].Committed?
  {
    && AckWord(t, 0, c, k) == Some(High(t[c].version)) && AckWord(t, 1, c, k) == Some(Low16(t[c].version))
    && AckWord(t, 2, c, k) == Some(High(t[c].digest)) && AckWord(t, 3, c, k) == Some(Low16(t[c].digest))
  }

  /** Armed at a, after everything was read back and acknowledged, and no plan write since. */
  ghost predicate ArmedFor(t: seq<Act>, c: nat, a: nat, k: nat) {
    && c < a < k <= |t| && t[c].Committed? && t[a].Armed? && (forall j :: a < j < k ==> !WritesPlan(t[j]))
    && WordsRead(t, c, a) && AckMatches(t, c, a)
  }

  ghost predicate Authorised(t: seq<Act>, c: nat, k: nat) {
    InForce(t, c, k) && exists a :: ArmedFor(t, c, a, k)
  }

  /** The session at s has a request at q of its own, which has a commit at c of its own. */
  ghost predicate Proper(t: seq<Act>, c: nat, q: nat, s: nat) {
    && c < q < s < |t| && t[q].Requested? && Authorised(t, c, q)
    && t[s].Started? && t[s].target == t[c].target
    && forall j :: q < j < s ==> !t[j].Requested? && !t[j].Started? && !t[j].Revoked?
  }

  ghost predicate AllProper(t: seq<Act>) {
    forall s :: 0 <= s < |t| && t[s].Started? ==> exists c, q :: Proper(t, c, q, s)
  }

  ghost predicate VersionsRise(t: seq<Act>) {
    forall i, j :: 0 <= i < j < |t| && t[i].Committed? && t[j].Committed? ==> t[i].version < t[j].version
  }

  /** Versions rise, and none is above the current one. */
  ghost predicate VersionsUpTo(t: seq<Act>, v: U32) {
    VersionsRise(t) && forall i :: 0 <= i < |t| && t[i].Committed? ==> t[i].version <= v
  }

  // ---------------------------------------------------------------- one act more

  lemma NewCommit(t: seq<Act>, x: Act, v: U32)
    requires VersionsUpTo(t, v) && x.Committed? && x.version == v + 1
    ensures VersionsUpTo(t + [x], x.version) && InForce(t + [x], |t|, |t| + 1)
  {
  }

  lemma VersionsStay(t: seq<Act>, x: Act, v: U32)
    requires VersionsUpTo(t, v) && !x.Committed?
    ensures VersionsUpTo(t + [x], v)
  {
  }

  lemma AckWordSame(t: seq<Act>, x: Act, i: nat, c: nat, k: nat)
    requires k <= |t|
    ensures AckWord(t + [x], i, c, k) == AckWord(t, i, c, k)
    decreases k
  {
    if k > c + 1 {
      AckWordSame(t, x, i, c, k - 1);
    }
  }

  lemma AckWordNext(t: seq<Act>, x: Act, i: nat, c: nat)
    requires c < |t|
    ensures AckWord(t + [x], i, c, |t| + 1) == if x.Acked? && x.slot == i then Some(x.word) else AckWord(t, i, c, |t|)
  {
    AckWordSame(t, x, i, c, |t|);
  }

  lemma InForceStays(t: seq<Act>, x: Act, c: nat)
    requires InForce(t, c, |t|) && !Supersedes(x)
    ensures InForce(t + [x], c, |t| + 1)
  {
  }

  lemma ReadStays(t: seq<Act>, x: Act, i: nat, c: nat)
    requires WordReadBetween(t, i, c, |t|)
    ensures WordReadBetween(t + [x], i, c, |t| + 1)
  {
    var j :| c < j < |t| && t[j] == WordRead(i);
    assert (t + [x])[j] == WordRead(i);
  }

  lemma ReadStaysAt(t: seq<Act>, x: Act, i: nat, c: nat)
    requires WordReadBetween(t, i, c, |t|)
    ensures WordReadBetween(t + [x], i, c, |t|)
  {
    var j :| c < j < |t| && t[j] == WordRead(i);
    assert (t + [x])[j] == WordRead(i);
  }

  lemma ReadNow(t: seq<Act>, i: nat, c: nat)
    requires c < |t|
    ensures WordReadBetween(t + [WordRead(i)], i, c, |t| + 1)
  {
    assert (t + [WordRead(i)])[|t|] == WordRead(i);
  }

  lemma ArmedStays(t: seq<Act>, x: Act, c: nat, a: nat, k: nat)
    requires ArmedFor(t, c, a, k)
    ensures ArmedFor(t + [x], c, a, k)
    ensures k == |t| && !WritesPlan(x) ==> ArmedFor(t + [x], c, a, k + 1)
  {
    hide AckWord;
    AckWordSame(t, x, 0, c, a);
    AckWordSame(t, x, 1, c, a);
    AckWordSame(t, x, 2, c, a);
    AckWordSame(t, x, 3, c, a);
    forall i | 0 <= i < 12 ensures WordReadBetween(t + [x], i, c, a) {
      assert WordReadBetween(t, i, c, a);
      var j :| c < j < a && t[j] == WordRead(i);
      assert (t + [x])[j] == WordRead(i);
    }
  }

  /** What was authorised stays so, up to now while nothing supersedes or rewrites it. */
  lemma AuthorisedStays(t: seq<Act>, x: Act, c: nat, k: nat)
    requires Authorised(t, c, k)
    ensures Authorised(t + [x], c, k)
    ensures k == |t| && !WritesPlan(x) && !Supersedes(x) ==> Authorised(t + [x], c, k + 1)
  {
    hide ArmedFor;
    var a :| ArmedFor(t, c, a, k);
    ArmedStays(t, x, c, a, k);
  }

  lemma ProperStays(t: seq<Act>, x: Act, c: nat, q: nat, s: nat)
    requires Proper(t, c, q, s)
    ensures Proper(t + [x], c, q, s)
  {
    hide Authorised;
    AuthorisedStays(t, x, c, q);
  }

  lemma AllStayProper(t: seq<Act>, x: Act)
    requires AllProper(t)
    requires x.Started? ==> exists c, q :: Proper(t + [x], c, q, |t|)
    ensures AllProper(t + [x])
  {
    hide Proper;
    forall s | 0 <= s < |t| + 1 && (t + [x])[s].Started? ensures exists c, q :: Proper(t + [x], c, q, s) {
      if s < |t| {
        var c, q :| Proper(t, c, q, s);
        ProperStays(t, x, c, q, s);
      }
    }
  }

  /** Two sessions never share a request or a commit. */
  lemma SessionsShareNothing(t: seq<Act>, c: nat, q: nat, s: nat, c2: nat, q2: nat, s2: nat)
    requires Proper(t, c, q, s) && Proper(t, c2, q2, s2) && s < s2
    ensures s < q2 && c < q < c2 < q2
  {
    assert InForce(t, c2, q2) && InForce(t, c, q);
  }

  /** A session that starts on an untouched request is proper. */
  lemma StartIsProper(t: seq<Act>, c: nat, q: nat, x: Act)
    requires c < q < |t| && t[q].Requested? && Authorised(t, c, q) && x.Started? && x.target == t[c].target &&
      t[c].Committed?
    requires forall j :: q < j < |t| ==> !t[j].Requested? && !t[j].Started? && !t[j].Revoked?
    ensures Proper(t + [x], c, q, |t|) && (AllProper(t) ==> AllProper(t + [x]))
  {
    hide Authorised;
    AuthorisedStays(t, x, c, q);
    if AllProper(t) {
      assert Proper(t + [x], c, q, |t|);
      AllStayProper(t, x);
    }
  }
}
