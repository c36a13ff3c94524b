/** The stream and message buffer: a byte ring with one cell always free, filled and emptied by
    copies that may wrap once. */
module StreamBuffer {
  import opened MessageFrames
  import opened RingCells

  function Held(size: nat, head: nat, tail: nat): (n: nat)
    requires head < size && tail < size
    ensures n < size && Cell(size, tail, n) == head
  {
    if head >= tail then head - tail else size + head - tail
  }

  function Read(a: seq<Byte>, at: nat, n: nat): (r: seq<Byte>)
    requires at < |a| && n <= |a|
    ensures |r| == n && forall k :: 0 <= k < n ==> r[k] == a[Cell(|a|, at, k)]
  {
    if at + n <= |a| then a[at..at + n] else a[at..] + a[..at + n - |a|]
  }

  /** Reading n + m cells is reading n and then m from where that ends. */
  lemma ReadOn(a: seq<Byte>, at: nat, n: nat, m: nat)
    requires at < |a| && n + m <= |a|
    ensures Read(a, at, n + m) == Read(a, at, n) + Read(a, Cell(|a|, at, n), m)
  {
    hide Read;
    var both, first := Read(a, at, n + m), Read(a, at, n);
    var rest := Read(a, Cell(|a|, at, n), m);
    forall k | 0 <= k < n + m ensures both[k] == (first + rest)[k] {
      if k >= n {
        assert Cell(|a|, Cell(|a|, at, n), k - n) == Cell(|a|, at, k);
      }
    }
    assert both == first + rest;
  }

  /** Dropping what was read leaves the rest. */
  lemma ReadRest(a: seq<Byte>, head: nat, tail: nat, n: nat)
    requires head < |a| && tail < |a| && n <= Held(|a|, head, tail)
    ensures Held(|a|, head, Cell(|a|, tail, n)) == Held(|a|, head, tail) - n
    ensures Read(a, tail, Held(|a|, head, tail)) == Read(a, tail, n) + Read(a, Cell(|a|, tail, n),
      Held(|a|, head, tail) - n)
  {
    ReadOn(a, tail, n, Held(|a|, head, tail) - n);
  }

  /** Writing into free cells behind the head extends what is read. */
  lemma Extended(a: seq<Byte>, b: seq<Byte>, tail: nat, count: nat, data: seq<Byte>)
    requires |a| == |b| && tail < |a| && count + |data| < |a|
    requires Read(b, Cell(|a|, tail, count), |data|) == data
    requires forall k :: |data| <= k < |a| ==>
      b[Cell(|a|, Cell(|a|, tail, count), k)] == a[Cell(|a|, Cell(|a|, tail, count), k)]
    ensures Read(b, tail, count + |data|) == Read(a, tail, count) + data
    ensures Held(|a|, Cell(|a|, Cell(|a|, tail, count), |data|), tail) == count + |data|
  {
    hide Cell, Read, Held;
    ReadOn(b, tail, count, |data|);
    HeldIsKept(a, b, tail, count, |data|);
    HeldBetween(|a|, tail, count, |data|);
  }

  /** The cells already held are not among the free ones written. */
  lemma HeldIsKept(a: seq<Byte>, b: seq<Byte>, tail: nat, count: nat, n: nat)
    requires |a| == |b| && tail < |a| && count + n < |a|
    requires forall k :: n <= k < |a| ==>
      b[Cell(|a|, Cell(|a|, tail, count), k)] == a[Cell(|a|, Cell(|a|, tail, count), k)]
    ensures Read(b, tail, count) == Read(a, tail, count)
  {
    hide Cell, Read;
    var r, s, free := Read(b, tail, count), Read(a, tail, count), Cell(|a|, tail, count);
    forall k | 0 <= k < count ensures r[k] == s[k] {
      Around(|a|, tail, count, k);
      assert b[Cell(|a|, free, k + |a| - count)] == a[Cell(|a|, free, k + |a| - count)];
    }
  }

  /** The k-th cell from the tail is as far from the head, going round. */
  lemma Around(size: nat, tail: nat, count: nat, k: nat)
    requires tail < size && k < count < size
    ensures Cell(size, Cell(size, tail, count), k + size - count) == Cell(size, tail, k)
  {
  }

  lemma HeldBetween(size: nat, tail: nat, count: nat, n: nat)
    requires tail < size && count + n < size
    ensures Held(size, Cell(size, Cell(size, tail, count), n), tail) == count + n
  {
  }

  class StreamBuffer {
    const storage: array<Byte>
    const messages: bool
    var head: nat
    var tail: nat
    ghost var accepted: seq<Byte>           // stream mode: bytes ever accepted
    ghost var delivered: seq<Byte>          // and received
    ghost var sent: seq<seq<Byte>>          // message mode: messages ever accepted
    ghost var taken: seq<seq<Byte>>         // and received
    ghost var pending: seq<seq<Byte>>       // and still in the ring

    ghost predicate Ring()
      reads this, storage
    {
      head < storage.Length && tail < storage.Length && storage.Length < LIMIT
    }

    ghost function Contents(): seq<Byte>
      reads this, storage
      requires Ring()
    {
      Read(storage[..], tail, Held(storage.Length, head, tail))
    }

    /** A stream loses and invents nothing; a message buffer holds whole messages in order. */
    ghost predicate Valid()
      reads this, storage
    {
      && Ring()
      && (!messages ==> accepted == delivered + Contents())
      && (messages ==> Storable(pending) && Contents() == Framed(pending) && sent == taken + pending)
    }

    constructor (size: nat, isMessage: bool)
      requires 1 <= size < LIMIT
      ensures Valid() && Contents() == [] && storage.Length == size && messages == isMessage && fresh(storage)
    {
      storage, messages, head, tail := new Byte[size], isMessage, 0, 0;
      accepted, delivered, sent, taken, pending := [], [], [], [], [];
    }

    method BytesInBuffer() returns (n: nat)
      requires Ring()
      ensures n == |Contents()|
    {
      n := storage.Length + head - tail;
      if n >= storage.Length { n := n - storage.Length; }
    }

    /** `xStreamBufferSpacesAvailable`: one cell short of the ring. */
    method SpacesAvailable() returns (space: nat)
      requires Ring()
      ensures space == storage.Length - 1 - |Contents()|
    {
      space := storage.Length + tail - head;
      space := space - 1;
      if space >= storage.Length { space := space - storage.Length; }
    }

    /** `prvWriteBytesToBuffer`: up to two copies; every other cell is left alone. */
    method WriteBytes(data: seq<Byte>, at: nat) returns (next: nat)
      requires Ring() && at < storage.Length && 0 < |data| < storage.Length
      modifies storage
      ensures next == Cell(storage.Length, at, |data|)
      ensures Read(storage[..], at, |data|) == data
      ensures forall k :: |data| <= k < storage.Length ==>
        storage[Cell(storage.Length, at, k)] == old(storage[Cell(storage.Length, at, k)])
    {
      var first := if storage.Length - at < |data| then storage.Length - at else |data|;
      forall i | 0 <= i < first { storage[at + i] := data[i]; }
      if |data| > first {
        forall i | 0 <= i < |data| - first { storage[i] := data[first + i]; }
      }
      next := at + |data|;
      if next >= storage.Length { next := next - storage.Length; }
    }

    method ReadBytes(count: nat, at: nat) returns (data: seq<Byte>, next: nat)
      requires Ring() && at < storage.Length && 0 < count < storage.Length
      ensures data == Read(storage[..], at, count) && next == Cell(storage.Length, at, count)
    {
      var first := if storage.Length - at < count then storage.Length - at else count;
      data := storage[at..at + first];
      if count > first {
        data := data + storage[..count - first];
      }
      next := at + count;
      if next >= storage.Length { next := next - storage.Length; }
    }

    /** `prvWriteMessageToBuffer` and the sends around it: as much of a stream as fits, a message
        whole or not at all. An empty message is never stored. */
    method Send(data: seq<Byte>) returns (n: nat)
      requires Valid() && (messages ==> |data| + HEADER < LIMIT)
      modifies this`head, this`accepted, this`sent, this`pending, storage
      ensures Valid() && tail == old(tail)
      ensures var space := storage.Length - 1 - |old(Contents())|;
        if messages then n == (if |data| + HEADER <= space then |data| else 0)
        else n == if |data| < space then |data| else space
      ensures !messages ==> accepted == old(accepted) + data[..n] && Contents() == old(Contents()) + data[..n]
      ensures messages && n > 0 ==> pending == old(pending) + [data] && sent == old(sent) + [data]
      ensures messages && n == 0 ==> Contents() == old(Contents()) && pending == old(pending) && sent == old(sent)
    {
      hide Read, Cell, Framed;
      var space := SpacesAvailable();
      if messages {
        n := SendMessage(data, space);
      } else {
        n := SendStream(data, space);
      }
    }

    method SendStream(data: seq<Byte>, space: nat) returns (n: nat)
      requires Valid() && !messages && space == storage.Length - 1 - |Contents()|
      modifies this`head, this`accepted, storage
      ensures Valid() && n == if |data| < space then |data| else space
      ensures accepted == old(accepted) + data[..n] && Contents() == old(Contents()) + data[..n]
    {
      hide Read, Cell, Framed;
      n := if |data| < space then |data| else space;
      if n != 0 {
        var part := data[..n];
        ghost var before, count := storage[..], |Contents()|;
        head := WriteBytes(part, head);
        Extended(before, storage[..], tail, count, part);
        assert accepted + part == delivered + Contents();
        accepted := accepted + part;
      }
    }

    method SendMessage(data: seq<Byte>, space: nat) returns (n: nat)
      requires Valid() && messages && |data| + HEADER < LIMIT && space == storage.Length - 1 - |Contents()|
      modifies this`head, this`sent, this`pending, storage
      ensures Valid()
      ensures n == if |data| + HEADER <= space then |data| else 0
      ensures n > 0 ==> pending == old(pending) + [data] && sent == old(sent) + [data]
      ensures n == 0 ==> Contents() == old(Contents()) && pending == old(pending) && sent == old(sent)
    {
      hide Read, Cell, Framed, Header, Storable, Held;
      n := |data|;
      var next := head;
      ghost var before, count := storage[..], |Contents()|;
      if space >= |data| + HEADER {
        next := WriteBytes(Header(|data|), next);
        Extended(before, storage[..], tail, count, Header(|data|));
      } else {
        n := 0;
      }
      if n != 0 {
        ghost var between := storage[..];
        head := WriteBytes(data, next);
        Extended(between, storage[..], tail, count + HEADER, data);
        FrameBehind(pending, data);
        pending := pending + [data];
        sent := sent + [data];
      } else if space >= |data| + HEADER {
        Untouched(before, storage[..], tail, count, Header(|data|));
      }
    }

    /** `prvReadMessageFromBuffer` and the receives around it: the oldest message whole, or nothing
        when none is there or it is longer than the receiver's room. */
    method Receive(limit: nat) returns (data: seq<Byte>)
      requires Valid()
      modifies this`tail, this`delivered, this`taken, this`pending
      ensures Valid() && head == old(head) && storage[..] == old(storage[..])
      ensures !messages ==> data == old(Contents())[..if limit < |old(Contents())| then limit else |old(Contents())|] &&
                            delivered == old(delivered) + data
      ensures messages && |old(pending)| > 0 && |old(pending)[0]| <= limit ==>
        data == old(pending)[0] && pending == old(pending)[1..] && taken == old(taken) + [data]
      ensures messages && (|old(pending)| == 0 || |old(pending)[0]| > limit) ==>
        data == [] && tail == old(tail) && pending == old(pending) && taken == old(taken)
    {
      hide Read, Cell, Framed;
      var available := BytesInBuffer();
      data := [];
      if messages {
        data := ReceiveMessage(limit, available);
      } else if available > 0 {
        data := ReceiveStream(limit, available);
      }
    }

    method ReceiveStream(limit: nat, available: nat) returns (data: seq<Byte>)
      requires Valid() && !messages && available == |Contents()|
      modifies this`tail, this`delivered
      ensures Valid() && storage[..] == old(storage[..])
      ensures data == old(Contents())[..if limit < available then limit else available] &&
        delivered == old(delivered) + data
    {
      hide Read, Cell, Framed;
      data := [];
      var count := if limit < available then limit else available;
      if count != 0 {
        ReadRest(storage[..], head, tail, count);
        ghost var whole := Contents();
        data, tail := ReadBytes(count, tail);
        assert whole == data + Contents();
        assert accepted == delivered + data + Contents();
        delivered := delivered + data;
      }
    }

    /** The length prefix of the oldest message, and where its bytes start. */
    method ReadHeader() returns (length: nat, next: nat)
      requires Valid() && messages && |pending| > 0
      ensures |Contents()| >= HEADER + |pending[0]| && length == |pending[0]| &&
        next == Cell(storage.Length, tail, HEADER)
    {
      hide Read, Cell, Frame, Length;
      FrameAhead(pending[0], Framed(pending[1..]));
      ReadRest(storage[..], head, tail, HEADER);
      var header;
      header, next := ReadBytes(HEADER, tail);
      assert header == Contents()[..HEADER];
      length := Length(header);
    }

    /** The bytes of the oldest message leave the ring with their length prefix. */
    method TakeFirst(count: nat, next: nat) returns (data: seq<Byte>)
      requires Valid() && messages && |pending| > 0 && count == |pending[0]| &&
        next == Cell(storage.Length, tail, HEADER)
      modifies this`tail, this`taken, this`pending
      ensures Valid() && data == old(pending)[0] && pending == old(pending)[1..] && taken == old(taken) + [data]
    {
      hide Read, Cell, Frame, Length;
      FramedIsLong(pending);
      FrameAhead(pending[0], Framed(pending[1..]));
      ReadRest(storage[..], head, tail, HEADER);
      ReadRest(storage[..], head, next, count);
      ghost var whole, header := Contents(), Read(storage[..], tail, HEADER);
      data, tail := ReadBytes(count, next);
      assert whole == header + (data + Contents());
      assert data == whole[HEADER..HEADER + count] && Contents() == whole[HEADER + count..];
      taken := taken + [data];
      assert sent == taken + pending[1..];
      pending := pending[1..];
    }

    method ReceiveMessage(limit: nat, available: nat) returns (data: seq<Byte>)
      requires Valid() && messages && available == |Contents()|
      modifies this`tail, this`taken, this`pending
      ensures Valid() && storage[..] == old(storage[..])
      ensures |old(pending)| > 0 && |old(pending)[0]| <= limit ==>
        data == old(pending)[0] && pending == old(pending)[1..] && taken == old(taken) + [data]
      ensures |old(pending)| == 0 || |old(pending)[0]| > limit ==>
        data == [] && tail == old(tail) && pending == old(pending) && taken == old(taken)
    {
      hide Read, Cell, Framed, Frame, Length;
      data := [];
      FramedIsLong(pending);
      if available > HEADER {
        var length, next := ReadHeader();
        var rest := available - HEADER;
        if length > limit { length := 0; }
        var count := if length < rest then length else rest;
        if count != 0 { data := TakeFirst(count, next); }
      }
    }

    /** `xStreamBufferNextMessageLengthBytes`. */
    method NextMessageLength() returns (n: nat)
      requires Valid()
      ensures n == if messages && |pending| > 0 then |pending[0]| else 0
    {
      hide Read, Cell, Frame, Length;
      n := 0;
      if messages {
        FramedIsLong(pending);
        var available := BytesInBuffer();
        if available > HEADER {
          var length, next := ReadHeader();
          n := length;
        }
      }
    }
  }

  /** A header left behind the head by an empty message is not part of the contents. */
  lemma Untouched(a: seq<Byte>, b: seq<Byte>, tail: nat, count: nat, data: seq<Byte>)
    requires |a| == |b| && tail < |a| && count + |data| < |a|
    requires Read(b, tail, count + |data|) == Read(a, tail, count) + data
    ensures Read(b, tail, count) == Read(a, tail, count)
  {
    ReadOn(b, tail, count, |data|);
    assert Read(b, tail, count) == Read(b, tail, count + |data|)[..count];
  }
}
