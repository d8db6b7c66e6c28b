/**
 De-framing of the local-socket stream: each message starts with its own length as
 a 32-bit little-endian signed integer, and recv may cut the stream anywhere.
 */
module Deframer {
  import opened Common

  const MAX: nat := 256
  const MIN: nat := 4
  const HEADER: nat := 8

  /** The length field, as int32_t. */
  function Length(b: seq<Byte>): int
    requires |b| >= MIN
  {
    var u := FromLe32(b);
    if u < 0x8000_0000 then u else u - 0x1_0000_0000
  }

  /** The four bytes in which a little-endian machine keeps an int32_t. */
  function Int32(n: int): (b: seq<Byte>)
    requires -0x8000_0000 <= n < 0x8000_0000
    ensures |b| == MIN
  {
    Le32(if n < 0 then n + 0x1_0000_0000 else n)
  }

  /** The length read is the number that the sender stored, whatever follows it. */
  lemma LengthOfInt32(n: int, rest: seq<Byte>)
    requires -0x8000_0000 <= n < 0x8000_0000
    ensures Length(Int32(n) + rest) == n
  {
    Le32RoundTrip(if n < 0 then n + 0x1_0000_0000 else n, rest);
  }

  /** A message as the two sides build it: a header that starts with its own length, at most MAX in all. */
  predicate Message(m: seq<Byte>) { HEADER <= |m| <= MAX && m[..MIN] == Int32(|m|) }

  lemma MessageLength(m: seq<Byte>, b: seq<Byte>)
    requires Message(m) && |b| >= MIN && b[..MIN] == m[..MIN]
    ensures Length(b) == |m|
  {
    LengthOfInt32(|m|, b[MIN..]);
    assert b == b[..MIN] + b[MIN..];
  }

  predicate Messages(ms: seq<seq<Byte>>) { forall i :: 0 <= i < |ms| ==> Message(ms[i]) }

  lemma {:induction false} ConcatSplit(ms: seq<seq<Byte>>, k: nat)
    requires k <= |ms|
    ensures Concat(ms) == Concat(ms[..k]) + Concat(ms[k..])
  {
    if k > 0 {
      ConcatSplit(ms[1..], k - 1);
      assert ms[1..][..k - 1] == ms[..k][1..] && ms[1..][k - 1..] == ms[k..];
    } else {
      assert ms[0..] == ms;
    }
  }

  // -------------------------------------------------------- how far a stream was cut

  /** Of the messages sent, `taken` bytes have arrived, `got` was delivered and the rest waits. */
  predicate Progress(ms: seq<seq<Byte>>, taken: seq<Byte>, got: seq<seq<Byte>>, pending: seq<Byte>) {
    taken <= Concat(ms) && got <= ms && taken == Concat(got) + pending
  }

  /** And what waits is a part of the next message, and not all of it. */
  predicate Settled(ms: seq<seq<Byte>>, taken: seq<Byte>, got: seq<seq<Byte>>, pending: seq<Byte>) {
    && Progress(ms, taken, got, pending)
    && if |got| < |ms| then |pending| < |ms[|got|]| && pending <= ms[|got|] else pending == []
  }

  lemma PendingIsNext(ms: seq<seq<Byte>>, taken: seq<Byte>, got: seq<seq<Byte>>, pending: seq<Byte>)
    requires Progress(ms, taken, got, pending)
    ensures pending <= Concat(ms[|got|..])
  {
    ConcatSplit(ms, |got|);
    assert ms[..|got|] == got;
    DropPrefix(Concat(got), pending, Concat(ms[|got|..]));
  }

  lemma DropPrefix(a: seq<Byte>, x: seq<Byte>, y: seq<Byte>)
    requires a + x <= a + y
    ensures x <= y
  {
    assert forall i :: 0 <= i < |x| ==> x[i] == (a + x)[|a| + i] == (a + y)[|a| + i] == y[i];
  }

  /** The length that the loop reads is that of the next message. */
  lemma NextMessage(ms: seq<seq<Byte>>, taken: seq<Byte>, got: seq<seq<Byte>>, pending: seq<Byte>)
    requires Messages(ms) && Progress(ms, taken, got, pending)
    ensures pending != [] ==> |got| < |ms|
    ensures |pending| >= MIN ==> Length(pending) == |ms[|got|]|
    ensures |got| < |ms| && |pending| >= |ms[|got|]| ==> pending[..|ms[|got|]|] == ms[|got|]
    ensures |got| < |ms| && |pending| < |ms[|got|]| ==> pending <= ms[|got|]
  {
    PendingIsNext(ms, taken, got, pending);
    if |got| < |ms| {
      var m, tail := ms[|got|], Concat(ms[|got|..][1..]);
      assert Concat(ms[|got|..]) == m + tail;
      assert forall i :: 0 <= i < |pending| && i < |m| ==> pending[i] == (m + tail)[i] == m[i];
      if |pending| >= MIN { MessageLength(m, pending); }
    }
  }

  /** One turn of the loop delivers the next message. */
  lemma TurnKeeps(ms: seq<seq<Byte>>, taken: seq<Byte>, got: seq<seq<Byte>>, pending: seq<Byte>)
    requires Messages(ms) && Progress(ms, taken, got, pending)
    requires |pending| >= MIN && |pending| >= Length(pending)
    ensures HEADER <= Length(pending) <= MAX
    ensures Progress(ms, taken, got + [pending[..Length(pending)]], pending[Length(pending)..])
  {
    NextMessage(ms, taken, got, pending);
    var m := ms[|got|];
    assert Message(m);
    ConcatSnoc(got, m);
    assert pending == m + pending[|m|..];
    assert Concat(got) + pending == Concat(got) + m + pending[|m|..];
  }

  /** The loop ends with less than a message, so there is always room for recv. */
  lemma LoopEnds(ms: seq<seq<Byte>>, taken: seq<Byte>, got: seq<seq<Byte>>, pending: seq<Byte>)
    requires Messages(ms) && Progress(ms, taken, got, pending)
    requires |pending| < MIN || |pending| < Length(pending)
    ensures Settled(ms, taken, got, pending) && |pending| < MAX
  {
    NextMessage(ms, taken, got, pending);
    assert |got| < |ms| ==> Message(ms[|got|]);
  }

  lemma MoreArrived(ms: seq<seq<Byte>>, taken: seq<Byte>, got: seq<seq<Byte>>, pending: seq<Byte>, chunk: seq<Byte>)
    requires Progress(ms, taken, got, pending) && taken + chunk <= Concat(ms)
    ensures Progress(ms, taken + chunk, got, pending + chunk)
  {
    assert Concat(got) + pending + chunk == Concat(got) + (pending + chunk);
  }

  /**
   What was delivered and what waits depend only on the bytes that arrived, not on
   how they were cut, nor on what is still to come.
   */
  lemma {:induction false} CutsDoNotMatter(ms: seq<seq<Byte>>, ms': seq<seq<Byte>>, taken: seq<Byte>,
                                           got: seq<seq<Byte>>, pending: seq<Byte>, got': seq<seq<Byte>>, pending': seq<Byte>)
    requires Messages(ms) && Messages(ms')
    requires Settled(ms, taken, got, pending) && Settled(ms', taken, got', pending')
    ensures got == got' && pending == pending'
  {
    if got == [] || got' == [] {
      OneIsEmpty(ms, ms', taken, got, pending, got', pending');
      OneIsEmpty(ms', ms, taken, got', pending', got, pending);
    } else {
      var m := got[0];
      FirstDelivered(ms, taken, got, pending);
      FirstDelivered(ms', taken, got', pending');
      assert Length(taken) == |m| && got'[0] == taken[..|m|] == m;
      CutsDoNotMatter(ms[1..], ms'[1..], taken[|m|..], got[1..], pending, got'[1..], pending');
      assert got == [m] + got[1..] && got' == [m] + got'[1..];
    }
  }

  /** The first message delivered is the front of the stream. */
  lemma FirstDelivered(ms: seq<seq<Byte>>, taken: seq<Byte>, got: seq<seq<Byte>>, pending: seq<Byte>)
    requires Messages(ms) && Settled(ms, taken, got, pending) && got != []
    ensures |taken| >= |got[0]| >= HEADER && taken[..|got[0]|] == got[0] && Length(taken) == |got[0]|
    ensures Messages(ms[1..]) && Settled(ms[1..], taken[|got[0]|..], got[1..], pending)
  {
    var m := got[0];
    assert m == ms[0] && Message(m);
    var tail := Concat(got[1..]) + pending;
    assert taken == m + tail;
    assert taken[|m|..] == tail && taken[..|m|] == m;
    assert taken[..MIN] == m[..MIN];
    MessageLength(m, taken);
    DropPrefix(m, tail, Concat(ms[1..]));
    SettledTail(ms, got);
  }

  lemma SettledTail(ms: seq<seq<Byte>>, got: seq<seq<Byte>>)
    requires Messages(ms) && got <= ms && got != []
    ensures Messages(ms[1..]) && got[1..] <= ms[1..]
    ensures |got| < |ms| ==> ms[1..][|got[1..]|] == ms[|got|]
  {
    assert forall i :: 0 <= i < |got| - 1 ==> got[1..][i] == got[i + 1] == ms[i + 1] == ms[1..][i];
  }

  lemma OneIsEmpty(ms: seq<seq<Byte>>, ms': seq<seq<Byte>>, taken: seq<Byte>,
                   got: seq<seq<Byte>>, pending: seq<Byte>, got': seq<seq<Byte>>, pending': seq<Byte>)
    requires Messages(ms) && Messages(ms')
    requires Settled(ms, taken, got, pending) && Settled(ms', taken, got', pending')
    ensures got == [] ==> got' == [] && pending == pending'
  {
    if got == [] {
      assert taken == pending;
      NextMessage(ms, taken, got, pending);
      if got' != [] {
        FirstDelivered(ms', taken, got', pending');
        assert false;
      }
    }
  }

  // ----------------------------------------------------- streams that are not messages

  /** The loop's test. */
  predicate Whole(pending: seq<Byte>) { |pending| >= MIN && |pending| >= Length(pending) }

  /** What the buffer holds after n more turns, as long as the loop's test holds. */
  function Turns(pending: seq<Byte>, n: nat): seq<Byte>
    decreases n
  {
    if n == 0 || !Whole(pending) || Length(pending) < 0 then pending
    else Turns(pending[Length(pending)..], n - 1)
  }

  /** With a length of zero the loop never ends: every turn leaves the buffer as it was. */
  lemma {:induction false} ZeroLengthSpins(pending: seq<Byte>, n: nat)
    requires |pending| >= MIN && Length(pending) == 0
    ensures Turns(pending, n) == pending && Whole(Turns(pending, n))
  {
    if n > 0 {
      assert pending[0..] == pending;
      ZeroLengthSpins(pending, n - 1);
    }
  }

  /** With a positive length each turn takes at least one byte, so the loop ends. */
  lemma {:induction false} PositiveLengthsEnd(pending: seq<Byte>, n: nat)
    requires n >= |pending|
    requires forall k :: 0 <= k && Whole(Turns(pending, k)) ==> Length(Turns(pending, k)) > 0
    ensures !Whole(Turns(pending, n))
    decreases n
  {
    assert Turns(pending, 0) == pending;
    if Whole(pending) {
      var rest := pending[Length(pending)..];
      forall k | 0 <= k && Whole(Turns(rest, k)) ensures Length(Turns(rest, k)) > 0 {
        assert Turns(pending, k + 1) == Turns(rest, k);
      }
      PositiveLengthsEnd(rest, n - 1);
    }
  }

  /** The front of a stream whose first length is more than the buffer holds. */
  predicate Oversize(front: seq<Byte>) { |front| >= MIN ==> Length(front) > MAX }

  lemma OversizeFront(stream: seq<Byte>, k: nat)
    requires |stream| >= MIN && Length(stream) > MAX && k <= |stream|
    ensures Oversize(stream[..k])
  {
  }

  /** How many of the calls have data to give. */
  function DataCalls(calls: seq<Recv>): nat {
    if calls == [] then 0
    else
      var last := calls[|calls| - 1];
      DataCalls(calls[..|calls| - 1]) + (if last.Data? && last.limit > 0 then 1 else 0)
  }

  // --------------------------------------------------------------- the recv loops

  /**
   What one recv meets: a limit on the bytes it gets, nothing there, or an error or the
   end.  Data from an exhausted stream is the same as nothing there.
   */
  datatype Recv = Data(limit: nat) | WouldBlock | Closed

  /** How many bytes recv returns from a stream at a position, given room for some. */
  function Amount(r: Recv, stream: seq<Byte>, pos: nat, room: nat): nat
    requires pos <= |stream|
  {
    var left := |stream| - pos;
    var n := if r.Data? then r.limit else 0;
    if n <= left && n <= room then n else if left <= room then left else room
  }

  class Receiver {
    const buffer: array<Byte>
    var dataLen: nat
    /** The calls of OnMessage. */
    var delivered: seq<seq<Byte>>

    ghost predicate Valid()
      reads this
    {
      buffer.Length == MAX && dataLen <= MAX
    }

    /** The bytes that wait for the rest of their message. */
    ghost function Pending(): seq<Byte>
      reads this, buffer
      requires Valid()
    {
      buffer[..dataLen]
    }

    /** Since `before`, the messages that arrived whole were delivered. */
    ghost predicate Parsed(ms: seq<seq<Byte>>, before: seq<seq<Byte>>, taken: seq<Byte>)
      reads this, buffer
    {
      Valid() && before <= delivered && Settled(ms, taken, delivered[|before|..], Pending()) && dataLen < MAX
    }

    constructor ()
      ensures Valid() && fresh(buffer) && Pending() == [] && delivered == []
    {
      buffer := new Byte[MAX](i => 0);
      dataLen, delivered := 0, [];
    }

    /** recv: the new bytes go behind those that wait. */
    method Store(chunk: seq<Byte>)
      requires Valid() && |chunk| <= MAX - dataLen
      modifies this`dataLen, buffer
      ensures Valid() && Pending() == old(Pending()) + chunk
    {
      forall i | 0 <= i < |chunk| { buffer[dataLen + i] := chunk[i]; }
      dataLen := dataLen + |chunk|;
    }

    /** OnMessage for the first message, then the memmove of the bytes behind it to the front. */
    method DeliverOne()
      requires Valid() && |Pending()| >= MIN && 0 < Length(Pending()) <= |Pending()|
      modifies this, buffer
      ensures Valid()
      ensures delivered == old(delivered) + [old(Pending())[..Length(old(Pending()))]]
      ensures Pending() == old(Pending())[Length(old(Pending()))..]
    {
      var length := Length(buffer[..dataLen]);
      delivered := delivered + [buffer[..dataLen][..length]];
      dataLen := dataLen - length;
      if dataLen > 0 {
        forall i | 0 <= i < dataLen { buffer[i] := buffer[i + length]; }
      }
    }

    /** Everything taken so far waits in the buffer, and its first length is more than the buffer holds. */
    ghost predicate Clogged(before: seq<seq<Byte>>, taken: seq<Byte>)
      reads this, buffer
    {
      Valid() && delivered == before && Pending() == taken && Oversize(taken)
    }

    /** One recv that returned data: every message that is now whole is delivered. */
    method Receive(chunk: seq<Byte>, ghost ms: seq<seq<Byte>>, ghost before: seq<seq<Byte>>, ghost taken: seq<Byte>)
      requires Messages(ms) && Parsed(ms, before, taken)
      requires |chunk| <= MAX - dataLen && taken + chunk <= Concat(ms)
      modifies this, buffer
      ensures Parsed(ms, before, taken + chunk)
    {
      MoreArrived(ms, taken, delivered[|before|..], Pending(), chunk);
      Store(chunk);
      DeliverWhole(ms, before, taken + chunk);
    }

    /** The loop over the messages; a length above the buffer's size ends it at once. */
    method DeliverWhole(ghost ms: seq<seq<Byte>>, ghost before: seq<seq<Byte>>, ghost taken: seq<Byte>)
      requires Valid() && before <= delivered
      requires (Messages(ms) && Progress(ms, taken, delivered[|before|..], Pending())) || Oversize(Pending())
      modifies this, buffer
      ensures old(Oversize(Pending())) ==> Valid() && Pending() == old(Pending()) && delivered == old(delivered)
      ensures old(Messages(ms) && Progress(ms, taken, delivered[|before|..], Pending())) ==> Parsed(ms, before, taken)
    {
      ghost var messages := Messages(ms) && Progress(ms, taken, delivered[|before|..], Pending());
      while dataLen >= MIN && dataLen >= Length(buffer[..dataLen])
        invariant Valid() && before <= delivered
        invariant messages ==> Progress(ms, taken, delivered[|before|..], Pending())
        invariant messages || Oversize(Pending())
        invariant old(Oversize(Pending())) ==> Pending() == old(Pending()) && delivered == old(delivered)
        decreases dataLen
      {
        TurnKeeps(ms, taken, delivered[|before|..], Pending());
        ghost var d := delivered;
        DeliverOne();
        assert delivered[|before|..] == d[|before|..] + [delivered[|d|]];
      }
      if messages { LoopEnds(ms, taken, delivered[|before|..], Pending()); }
    }

    /** One recv of a stream whose first length is too large: the bytes pile up, and a full buffer takes none. */
    method RecvOversize(stream: seq<Byte>, pos: nat, r: Recv, ghost before: seq<seq<Byte>>) returns (pos': nat)
      requires |stream| >= MIN && Length(stream) > MAX && pos <= |stream| && Clogged(before, stream[..pos])
      modifies this, buffer
      ensures pos <= pos' <= |stream| && pos' <= MAX && Clogged(before, stream[..pos'])
      ensures pos == MAX ==> pos' == pos
      ensures pos < MAX && pos < |stream| && r.Data? && r.limit > 0 ==> pos' > pos
    {
      var result := Amount(r, stream, pos, MAX - dataLen);
      pos' := pos + result;
      var chunk := stream[pos..pos'];
      assert stream[..pos] + chunk == stream[..pos'];
      OversizeFront(stream, pos');
      if result > 0 {
        Store(chunk);
        DeliverWhole([], delivered, []);
      }
    }

    /**
     A stream whose first length is above MAX: nothing is ever delivered; as soon as enough
     calls had data the buffer is full, and every later recv is asked for nothing.
     */
    method OversizeStalls(stream: seq<Byte>, calls: seq<Recv>) returns (pos: nat)
      requires |stream| >= MAX && Length(stream) > MAX && Valid() && Pending() == []
      modifies this, buffer
      ensures pos <= MAX && Clogged(old(delivered), stream[..pos])
      ensures DataCalls(calls) >= MAX ==> pos == MAX && dataLen == MAX
    {
      pos := 0;
      var n := 0;
      assert stream[..0] == [];
      while n < |calls|
        invariant 0 <= n <= |calls| && pos <= MAX && Clogged(old(delivered), stream[..pos])
        invariant pos >= DataCalls(calls[..n]) || pos == MAX
      {
        assert calls[..n + 1][..n] == calls[..n];
        pos := RecvOversize(stream, pos, calls[n], old(delivered));
        n := n + 1;
      }
      assert calls[..n] == calls;
    }

    /**
     The proxy's loop, up to the end of the stream: however recv cuts it, the bytes
     that arrived are the messages delivered and a part of the next one.
     */
    method ProxyLoop(stream: seq<Byte>, calls: seq<Recv>, ghost ms: seq<seq<Byte>>) returns (n: nat, pos: nat)
      requires Messages(ms) && stream <= Concat(ms)
      requires Valid() && Pending() == []
      modifies this, buffer
      ensures n <= |calls| && pos <= |stream| && Parsed(ms, old(delivered), stream[..pos])
      ensures (forall i :: 0 <= i < n ==> !calls[i].Closed?) && (n < |calls| ==> calls[n].Closed?)
      ensures pos == |stream| || pos >= DataCalls(calls[..n])
    {
      n, pos := 0, 0;
      NothingYet(ms);
      assert delivered[|delivered|..] == [];
      while n < |calls| && !calls[n].Closed?
        invariant 0 <= n <= |calls| && pos <= |stream| && Parsed(ms, old(delivered), stream[..pos])
        invariant forall i :: 0 <= i < n ==> !calls[i].Closed?
        invariant pos == |stream| || pos >= DataCalls(calls[..n])
      {
        assert calls[..n + 1][..n] == calls[..n];
        pos := Recv1(stream, pos, calls[n], ms, old(delivered));
        n := n + 1;
      }
    }

    /** One recv and, if it returned data, the loop over the messages. */
    method Recv1(stream: seq<Byte>, pos: nat, r: Recv, ghost ms: seq<seq<Byte>>, ghost before: seq<seq<Byte>>) returns (pos': nat)
      requires Messages(ms) && stream <= Concat(ms) && pos <= |stream|
      requires Parsed(ms, before, stream[..pos])
      modifies this, buffer
      ensures pos <= pos' <= |stream| && Parsed(ms, before, stream[..pos'])
      ensures pos < |stream| && r.Data? && r.limit > 0 ==> pos < pos'
    {
      var result := Amount(r, stream, pos, MAX - dataLen);
      pos' := pos + result;
      var chunk := stream[pos..pos'];
      assert stream[..pos] + chunk == stream[..pos'];
      if result > 0 {
        Receive(chunk, ms, before, stream[..pos]);
      }
    }

    /**
     The agent's handling of one readable connection.  All connections share the
     buffer, but the agent keeps reading this one until nothing waits or it is closed,
     so the next connection starts with an empty buffer again.
     */
    method AgentEvent(stream: seq<Byte>, calls: seq<Recv>, ghost ms: seq<seq<Byte>>)
      returns (n: nat, pos: nat, left: bool, ghost got: seq<seq<Byte>>, ghost rest: seq<Byte>)
      requires Messages(ms) && stream <= Concat(ms)
      requires Valid() && Pending() == []
      modifies this, buffer
      ensures Valid() && n <= |calls| && pos <= |stream|
      ensures delivered == old(delivered) + got && Settled(ms, stream[..pos], got, rest)
      ensures left ==> Pending() == [] && n > 0 && !calls[n - 1].Data? && (calls[n - 1].WouldBlock? ==> rest == [])
      ensures !left ==> n == |calls| && Pending() == rest && forall i :: 0 <= i < n ==> !calls[i].Closed?
      ensures !left && n > 0 && calls[n - 1].WouldBlock? ==> rest != []
      ensures pos == |stream| || pos >= DataCalls(calls[..n])
    {
      n, pos, left := 0, 0, false;
      NothingYet(ms);
      assert delivered[|delivered|..] == [];
      while n < |calls| && !left
        invariant 0 <= n <= |calls| && pos <= |stream| && Parsed(ms, old(delivered), stream[..pos])
        invariant left ==> n > 0 && !calls[n - 1].Data? && (calls[n - 1].WouldBlock? ==> dataLen == 0)
        invariant !left ==> forall i :: 0 <= i < n ==> !calls[i].Closed?
        invariant !left && n > 0 && calls[n - 1].WouldBlock? ==> dataLen > 0
        invariant pos == |stream| || pos >= DataCalls(calls[..n])
        decreases |calls| - n
      {
        assert calls[..n + 1][..n] == calls[..n];
        if calls[n].Data? {
          pos := Recv1(stream, pos, calls[n], ms, old(delivered));
        } else {
          left := calls[n].Closed? || dataLen == 0;
        }
        n := n + 1;
      }
      got, rest := delivered[|old(delivered)|..], Pending();
      if left { dataLen := 0; }
    }
  }

  lemma NothingYet(ms: seq<seq<Byte>>)
    requires Messages(ms)
    ensures Settled(ms, [], [], [])
  {
    assert |ms| > 0 ==> Message(ms[0]);
  }
}
