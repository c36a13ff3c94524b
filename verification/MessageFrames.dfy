/** How messages lie in a message buffer: a four-byte little-endian length, then the bytes. */
module MessageFrames {
  type Byte = x: int | 0 <= x < 256

  const HEADER := 4
  const LIMIT := 0x1_0000_0000

  function Header(n: nat): (h: seq<Byte>)
    requires n < LIMIT
    ensures |h| == HEADER
  {
    [n % 256, (n / 256) % 256, (n / 65536) % 256, n / 16777216]
  }

  function Length(h: seq<Byte>): nat
    requires |h| == HEADER
  {
    var b0: int, b1: int, b2: int, b3: int := h[0], h[1], h[2], h[3];
    b0 + 256 * b1 + 65536 * b2 + 16777216 * b3
  }

  lemma HeaderReadsBack(n: nat)
    requires n < LIMIT
    ensures Length(Header(n)) == n
    ensures Header(n)[0] == n % 256 && Header(n)[1] == n / 256 % 256
    ensures Header(n)[2] == n / 65536 % 256 && Header(n)[3] == n / 16777216
  {
    var a := n / 256;
    var b := a / 256;
    var c := b / 256;
    assert n / 65536 == b && n / 16777216 == c && c < 256;
  }

  function Frame(m: seq<Byte>): seq<Byte>
    requires |m| < LIMIT
  {
    Header(|m|) + m
  }

  /** Only non-empty messages are ever stored. */
  predicate Storable(ms: seq<seq<Byte>>) {
    forall i :: 0 <= i < |ms| ==> 0 < |ms[i]| < LIMIT
  }

  function Framed(ms: seq<seq<Byte>>): seq<Byte>
    requires Storable(ms)
  {
    if |ms| == 0 then [] else Frame(ms[0]) + Framed(ms[1..])
  }

  datatype Parsed = Bad | Messages(ms: seq<seq<Byte>>)

  /** Reads a byte string as messages, and rejects one that ends inside a message. */
  function Parse(bytes: seq<Byte>): Parsed {
    if |bytes| == 0 then Messages([])
    else if |bytes| < HEADER then Bad
    else
      var n := Length(bytes[..HEADER]);
      if n == 0 || HEADER + n > |bytes| then Bad
      else match Parse(bytes[HEADER + n..])
           case Bad => Bad
           case Messages(ms) => Messages([bytes[HEADER..HEADER + n]] + ms)
  }

  lemma FrameAhead(m: seq<Byte>, rest: seq<Byte>)
    requires 0 < |m| < LIMIT
    ensures var s := Frame(m) + rest;
      |s| >= HEADER + |m| && Length(s[..HEADER]) == |m| && s[HEADER..HEADER + |m|] == m && s[HEADER + |m|..] == rest
  {
    HeaderReadsBack(|m|);
    var s := Frame(m) + rest;
    assert s[..HEADER] == Header(|m|);
  }

  lemma {:induction false} FramesParseBack(ms: seq<seq<Byte>>)
    requires Storable(ms)
    ensures Parse(Framed(ms)) == Messages(ms)
  {
    if |ms| > 0 {
      FramesParseBack(ms[1..]);
      FrameAhead(ms[0], Framed(ms[1..]));
      assert ms == [ms[0]] + ms[1..];
    }
  }

  lemma {:induction false} FrameBehind(ms: seq<seq<Byte>>, m: seq<Byte>)
    requires Storable(ms) && 0 < |m| < LIMIT
    ensures Storable(ms + [m]) && Framed(ms + [m]) == Framed(ms) + Frame(m)
  {
    if |ms| == 0 {
      assert [m][1..] == [];
    } else {
      FrameBehind(ms[1..], m);
      assert (ms + [m])[1..] == ms[1..] + [m];
      assert (ms + [m])[0] == ms[0];
    }
  }

  lemma {:induction false} FramedIsLong(ms: seq<seq<Byte>>)
    requires Storable(ms)
    ensures |ms| == 0 ==> Framed(ms) == []
    ensures |ms| > 0 ==> |Framed(ms)| >= HEADER + |ms[0]| > HEADER
  {
  }
}
