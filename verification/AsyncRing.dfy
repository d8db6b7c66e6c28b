/**
 The ring buffer of `AsyncSendThreadMain`.  Records are written in one piece at
 position modulo the ring size, and a record that reaches the end runs on into
 a spill area instead of wrapping.  The ring refines a FIFO queue of messages
 as long as no record is written over an unread one.
 */
module AsyncRing {
  import opened Common

  const RING_SIZE: nat := 32 * 1024 * 1024
  const SPILL_SIZE: nat := 1024 * 1024
  const HEADER_SIZE: nat := 8

  /** A message as the leader orders it: the handler it goes to and its bytes. */
  datatype Msg = Msg(hdl: nat, data: seq<Byte>)

  /** Handler ids and sizes fit the 32-bit header fields. */
  predicate Fits32(m: Msg) { m.hdl < 0x1_0000_0000 && |m.data| < 0x1_0000_0000 }

  /** What goes over the wire: the handler id, then the data. */
  function Payload(m: Msg): seq<Byte>
    requires Fits32(m)
  {
    Le32(m.hdl) + m.data
  }

  /** A record in the ring: data_size, hdl_id, data. */
  function Record(m: Msg): (r: seq<Byte>)
    requires Fits32(m)
    ensures |r| == RecordSize(m)
  {
    Le32(|m.data|) + Payload(m)
  }

  function RecordSize(m: Msg): nat { HEADER_SIZE + |m.data| }

  /** What a replica does with a wire message: strip the handler id. */
  function Strip(bytes: seq<Byte>): Msg
    requires |bytes| >= 4
  {
    Msg(FromLe32(bytes), bytes[4..])
  }

  lemma StripUndoesPayload(m: Msg)
    requires Fits32(m)
    ensures |Payload(m)| >= 4 && Strip(Payload(m)) == m
  {
    Le32RoundTrip(m.hdl, m.data);
    assert Payload(m)[4..] == m.data;
  }

  // -------------------------------------------------------------------- layout

  function Total(q: seq<Msg>): nat {
    if q == [] then 0 else RecordSize(q[0]) + Total(q[1..])
  }

  predicate AllFit(q: seq<Msg>) { forall i :: 0 <= i < |q| ==> Fits32(q[i]) }

  /** The record of m is in the buffer at index `at`. */
  predicate RecordAt(buf: seq<Byte>, at: nat, m: Msg) {
    Fits32(m) && at + RecordSize(m) <= |buf| && buf[at..at + RecordSize(m)] == Record(m)
  }

  /** The unread messages are in the buffer, one after the other from `pos`. */
  predicate Intact(buf: seq<Byte>, size: nat, pos: nat, q: seq<Msg>)
    requires size > 0
    decreases |q|
  {
    q == [] || (RecordAt(buf, pos % size, q[0]) && Intact(buf, size, pos + RecordSize(q[0]), q[1..]))
  }

  function Write(buf: seq<Byte>, at: nat, r: seq<Byte>): (buf': seq<Byte>)
    requires at + |r| <= |buf|
    ensures |buf'| == |buf|
    ensures forall i :: 0 <= i < |buf| ==> buf'[i] == if at <= i < at + |r| then r[i - at] else buf[i]
  {
    buf[..at] + r + buf[at + |r|..]
  }

  /**
   A record of length len at `end` touches no unread byte of begin..end: the
   ring is empty, or both ends are in the same lap, or the record stops short
   of the oldest unread one.
   */
  predicate Safe(size: nat, begin: nat, end: nat, len: nat)
    requires size > 0
  {
    begin == end || end / size == begin / size || end + len <= begin + size
  }

  /** Two pieces of memory have a byte in common. */
  predicate Overlap(a: nat, aLen: nat, b: nat, bLen: nat) { a < b + bLen && b < a + aLen }

  lemma Multiples(size: int, d: int)
    requires size >= 0
    ensures d >= 2 ==> size * d >= 2 * size
    ensures d <= -1 ==> size * d <= -1 * size
  {
    if d >= 2 { assert size * (d - 2) >= 0; }
    if d <= -1 { assert size * (-1 - d) >= 0; }
  }

  lemma DivBounds(x: nat, y: nat, size: nat)
    requires size > 0 && x <= y < x + size
    ensures x == size * (x / size) + x % size
    ensures y / size == x / size || y / size == x / size + 1
    ensures size * (x / size + 1) == size * (x / size) + size
  {
    var d := y / size - x / size;
    assert y - x == size * d + y % size - x % size;
    Multiples(size, d);
  }

  /** The guard lets a record in; it clears the unread one at p exactly as Safe says. */
  lemma SafeClearsRecord(size: nat, begin: nat, p: nat, len: nat, end: nat, newLen: nat)
    requires size > 0 && begin <= p < p + len <= end < begin + size && Safe(size, begin, end, newLen)
    ensures !Overlap(p % size, len, end % size, newLen)
  {
    DivBounds(begin, end, size);
    DivBounds(begin, p, size);
    DivBounds(p, end, size);
    DivBounds(end, end, size);
  }

  /** A record that is not safe lands on the oldest unread one. */
  lemma UnsafeHitsOldest(size: nat, begin: nat, len: nat, end: nat, newLen: nat)
    requires size > 0 && 0 < len && begin + len <= end < begin + size && !Safe(size, begin, end, newLen)
    ensures Overlap(begin % size, len, end % size, newLen)
  {
    DivBounds(begin, end, size);
    DivBounds(end, end, size);
  }

  /** A safe copy keeps every unread record and adds the new one behind them. */
  lemma {:induction false} SafeCopyIsIntact(buf: seq<Byte>, size: nat, begin: nat, pos: nat, q: seq<Msg>,
                                            end: nat, m: Msg)
    requires size > 0 && begin <= pos && pos + Total(q) == end && (q != [] ==> end < begin + size)
    requires Intact(buf, size, pos, q) && Fits32(m) && end % size + RecordSize(m) <= |buf|
    requires q != [] ==> Safe(size, begin, end, RecordSize(m))
    ensures Intact(Write(buf, end % size, Record(m)), size, pos, q + [m])
    decreases |q|
  {
    var buf' := Write(buf, end % size, Record(m));
    if q == [] {
      assert buf'[end % size..end % size + RecordSize(m)] == Record(m);
      assert (q + [m])[1..] == [];
    } else {
      var len := RecordSize(q[0]);
      SafeClearsRecord(size, begin, pos, len, end, RecordSize(m));
      assert buf'[pos % size..pos % size + len] == buf[pos % size..pos % size + len];
      assert (q + [m])[1..] == q[1..] + [m];
      SafeCopyIsIntact(buf, size, begin, pos + len, q[1..], end, m);
    }
  }

  /** A record of length newLen behind q would not touch record i of q. */
  predicate ClearOf(size: nat, begin: nat, q: seq<Msg>, newLen: nat, i: nat)
    requires size > 0 && i < |q|
  {
    !Overlap((begin + Total(q[..i])) % size, RecordSize(q[i]), (begin + Total(q)) % size, newLen)
  }

  lemma SafeIsClear(size: nat, begin: nat, q: seq<Msg>, newLen: nat, i: nat)
    requires size > 0 && i < |q| && Total(q) < size && Safe(size, begin, begin + Total(q), newLen)
    ensures ClearOf(size, begin, q, newLen, i)
  {
    TotalSplit(q, i);
    SafeClearsRecord(size, begin, begin + Total(q[..i]), RecordSize(q[i]), begin + Total(q), newLen);
  }

  lemma UnsafeIsNotClear(size: nat, begin: nat, q: seq<Msg>, newLen: nat)
    requires size > 0 && q != [] && Total(q) < size && !Safe(size, begin, begin + Total(q), newLen)
    ensures !ClearOf(size, begin, q, newLen, 0)
  {
    TotalSplit(q, 0);
    assert q[..0] == [];
    UnsafeHitsOldest(size, begin, RecordSize(q[0]), begin + Total(q), newLen);
  }

  /** For every state in which the guard admits a copy, Safe is the exact condition. */
  lemma SafeIsExact(size: nat, begin: nat, q: seq<Msg>, newLen: nat)
    requires size > 0 && Total(q) < size
    ensures Safe(size, begin, begin + Total(q), newLen) <==>
            forall i :: 0 <= i < |q| ==> ClearOf(size, begin, q, newLen, i)
  {
    if Safe(size, begin, begin + Total(q), newLen) {
      forall i | 0 <= i < |q| ensures ClearOf(size, begin, q, newLen, i) {
        SafeIsClear(size, begin, q, newLen, i);
      }
    } else if q != [] {
      UnsafeIsNotClear(size, begin, q, newLen);
    }
  }

  lemma {:induction false} TotalSplit(q: seq<Msg>, i: nat)
    requires i < |q|
    ensures Total(q[..i]) + RecordSize(q[i]) <= Total(q)
  {
    if i > 0 {
      TotalSplit(q[1..], i - 1);
      assert q[..i][1..] == q[1..][..i - 1];
    } else {
      assert q[..0] == [];
    }
  }

  lemma {:induction false} TotalSnoc(q: seq<Msg>, m: Msg)
    ensures Total(q + [m]) == Total(q) + RecordSize(m)
  {
    if q == [] {
      assert (q + [m])[1..] == [];
    } else {
      assert (q + [m])[1..] == q[1..] + [m];
      TotalSnoc(q[1..], m);
    }
  }

  // ------------------------------------------------------------ the sender side

  /** The local variables of the async send thread, and what it has sent. */
  class AsyncSender {
    const size: nat
    const localBuf: array<Byte>
    var posBegin: nat
    var posEnd: nat
    var sent: seq<seq<Byte>>

    /** The messages copied and not sent yet. */
    ghost var unread: seq<Msg>

    ghost predicate Valid()
      reads this
    {
      size > 0 && localBuf.Length >= size
    }

    /** The ring holds the unread messages, each in one piece. */
    ghost predicate Holds()
      reads this, localBuf
    {
      Valid() && posEnd == posBegin + Total(unread) && Intact(localBuf[..], size, posBegin, unread)
    }

    constructor ()
      ensures Holds() && unread == [] && sent == [] && posBegin == 0 && fresh(localBuf)
      ensures size == RING_SIZE && localBuf.Length == RING_SIZE + SPILL_SIZE
    {
      size := RING_SIZE;
      localBuf := new Byte[RING_SIZE + SPILL_SIZE](_ => 0);
      posBegin, posEnd, sent, unread := 0, 0, [], [];
    }

    /**
     Copies one message, which the guard admits, into the ring and spill.  A ring that
     holds its unread messages still does if the record is Safe.
     */
    method Copy(m: Msg)
      requires Valid() && Fits32(m) && posEnd < posBegin + size
      requires posEnd % size + RecordSize(m) <= localBuf.Length
      modifies this`posEnd, this`unread, localBuf
      ensures Valid() && posEnd == old(posEnd) + RecordSize(m) && unread == old(unread) + [m]
      ensures localBuf[..] == Write(old(localBuf[..]), old(posEnd) % size, Record(m))
      ensures old(Holds()) && Safe(size, posBegin, old(posEnd), RecordSize(m)) ==> Holds()
    {
      var endIndex := posEnd % size;
      var r := Record(m);
      if Holds() && Safe(size, posBegin, posEnd, RecordSize(m)) {
        SafeCopyIsIntact(localBuf[..], size, posBegin, posBegin, unread, posEnd, m);
        TotalSnoc(unread, m);
      }
      forall i | 0 <= i < |r| {
        localBuf[endIndex + i] := r[i];
      }
      assert localBuf[..] == Write(old(localBuf[..]), endIndex, r);
      posEnd := posEnd + RecordSize(m);
      unread := unread + [m];
    }

    /** The length field of the record that is next to be sent. */
    function NextSize(): nat
      reads this, localBuf
      requires Valid() && posBegin % size + HEADER_SIZE <= localBuf.Length
    {
      FromLe32(localBuf[posBegin % size..posBegin % size + 4])
    }

    /** Sends the bytes of the record at posBegin, by the length it finds there. */
    method SendOne()
      requires Valid() && posEnd > posBegin && posBegin % size + HEADER_SIZE <= localBuf.Length
      requires posBegin % size + HEADER_SIZE + NextSize() <= localBuf.Length
      modifies this`posBegin, this`unread, this`sent
      ensures Valid() && posBegin == old(posBegin) + HEADER_SIZE + old(NextSize())
      ensures unread == if old(unread) == [] then [] else old(unread)[1..]
      ensures old(Holds()) ==> Holds() && old(unread) != [] && Fits32(old(unread)[0])
      ensures old(Holds()) ==> sent == old(sent) + [Payload(old(unread)[0])]
    {
      var beginIndex := posBegin % size;
      var dataSize := NextSize();
      if Holds() { OldestRecord(localBuf[..], size, posBegin, unread); }
      sent := sent + [localBuf[beginIndex + 4..beginIndex + 8 + dataSize]];
      assert localBuf[..][beginIndex + 4..beginIndex + 8 + dataSize] == localBuf[beginIndex + 4..beginIndex + 8 + dataSize];
      posBegin := posBegin + dataSize + HEADER_SIZE;
      unread := if unread == [] then [] else unread[1..];
    }
  }

  /** What is read back from a ring that holds its messages: the length and the payload of the oldest. */
  lemma OldestRecord(buf: seq<Byte>, size: nat, pos: nat, q: seq<Msg>)
    requires size > 0 && q != [] && Intact(buf, size, pos, q)
    ensures var i := pos % size;
            && i + RecordSize(q[0]) <= |buf| && Fits32(q[0]) && FromLe32(buf[i..i + 4]) == |q[0].data|
            && buf[i + 4..i + RecordSize(q[0])] == Payload(q[0])
            && Intact(buf, size, pos + RecordSize(q[0]), q[1..])
            && Total(q) == RecordSize(q[0]) + Total(q[1..])
  {
    var i, m := pos % size, q[0];
    var r := buf[i..i + RecordSize(m)];
    assert r == Record(m);
    Le32RoundTrip(|m.data|, []);
    assert buf[i..i + 4] == r[..4] && Record(m)[..4] == Le32(|m.data|) + [];
    assert buf[i + 4..i + RecordSize(m)] == r[4..] && Record(m)[4..] == Payload(m);
  }

  // ------------------------------------------------------- the guard is not enough

  /** A message whose record is one spill long, all its bytes the same. */
  function Big(b: Byte): Msg { Msg(0, seq(SPILL_SIZE - HEADER_SIZE, _ => b)) }

  const SMALL := Msg(0, seq(8, _ => 0))

  /** A ring of the code's size, with the ends where they are and the oldest message first. */
  ghost predicate Filled(s: AsyncSender, begin: nat, end: nat)
    reads s, s.localBuf
  {
    && s.size == RING_SIZE && s.localBuf.Length == RING_SIZE + SPILL_SIZE && s.Holds()
    && s.posBegin == begin && s.posEnd == end && (begin < end ==> s.unread != [] && s.unread[0] == Big(0))
  }

  /** A safe copy of at most a spill; the first message stays the oldest. */
  method AddRecord(s: AsyncSender, m: Msg, ghost begin: nat, ghost end: nat)
    requires Filled(s, begin, end) && begin <= end && (begin == end ==> m == Big(0)) && Fits32(m)
    requires RecordSize(m) <= SPILL_SIZE && end < begin + RING_SIZE && Safe(RING_SIZE, begin, end, RecordSize(m))
    modifies s, s.localBuf
    ensures Filled(s, begin, end + RecordSize(m))
  {
    assert begin == end ==> s.unread == [] by { Nonempty(s.unread); }
    s.Copy(m);
  }

  lemma Nonempty(q: seq<Msg>)
    ensures Total(q) == 0 ==> q == []
  {
  }

  /** The first record is sent. */
  method SendFirst() returns (s: AsyncSender)
    ensures fresh(s) && fresh(s.localBuf) && Filled(s, SPILL_SIZE, SPILL_SIZE)
  {
    s := new AsyncSender();
    AddRecord(s, Big(0), 0, 0);
    OldestRecord(s.localBuf[..], s.size, s.posBegin, s.unread);
    assert s.localBuf[0..4] == s.localBuf[..][0..4];
    s.SendOne();
  }

  /** The ring then takes 31 more and a small one, each of them Safe. */
  method FillRing() returns (s: AsyncSender)
    ensures fresh(s) && fresh(s.localBuf) && Filled(s, SPILL_SIZE, RING_SIZE + 16)
  {
    s := SendFirst();
    var k := 0;
    while k < 31
      invariant 0 <= k <= 31 && fresh(s) && fresh(s.localBuf)
      invariant Filled(s, SPILL_SIZE, SPILL_SIZE * (k + 1))
    {
      AddRecord(s, Big(0), SPILL_SIZE, SPILL_SIZE * (k + 1));
      k := k + 1;
    }
    AddRecord(s, SMALL, SPILL_SIZE, RING_SIZE);
  }

  /**
   The code's guard (pos_end < pos_begin + size) is not enough: from a new ring, with
   records of at most a spill, the last copy below passes the guard and overwrites the
   oldest unread record.
   */
  method GuardAdmitsOverrun() returns (s: AsyncSender)
    ensures s.size == RING_SIZE && s.localBuf.Length == RING_SIZE + SPILL_SIZE
    ensures s.unread != [] && !RecordAt(s.localBuf[..], s.posBegin % s.size, s.unread[0]) && !s.Holds()
  {
    s := FillRing();
    OverwriteFirst(s);
  }

  method OverwriteFirst(s: AsyncSender)
    requires Filled(s, SPILL_SIZE, RING_SIZE + 16)
    modifies s, s.localBuf
    ensures s.unread != [] && !RecordAt(s.localBuf[..], s.posBegin % s.size, s.unread[0]) && !s.Holds()
  {
    ghost var buf := s.localBuf[..];
    ghost var first := s.unread[0];
    Overwrites(buf);
    Indices();
    var m := Big(255);
    s.Copy(m);
    assert s.unread[0] == first;
    assert !RecordAt(s.localBuf[..], s.posBegin % s.size, first);
    FirstRecord(s.localBuf[..], s.size, s.posBegin, s.unread);
  }

  lemma Indices()
    ensures (RING_SIZE + 16) % RING_SIZE == 16 && SPILL_SIZE % RING_SIZE == SPILL_SIZE
  {
  }

  lemma FirstRecord(buf: seq<Byte>, size: nat, pos: nat, q: seq<Msg>)
    requires size > 0 && q != [] && !RecordAt(buf, pos % size, q[0])
    ensures !Intact(buf, size, pos, q)
  {
  }

  lemma Overwrites(buf: seq<Byte>)
    requires |buf| == RING_SIZE + SPILL_SIZE
    ensures !RecordAt(Write(buf, 16, Record(Big(255))), SPILL_SIZE, Big(0))
  {
    var buf' := Write(buf, 16, Record(Big(255)));
    assert Record(Big(255))[SPILL_SIZE - 16] == 255 && buf'[SPILL_SIZE] == 255;
    assert Record(Big(0))[0] == 248;
    assert buf'[SPILL_SIZE..SPILL_SIZE + SPILL_SIZE][0] == 255;
  }
}
