/**
 `ReorderBuffer`: a ring of sequence numbers plus an overflow set, compared with
 the plain set of numbers received (0 counts as received).
 */
module ReorderBuffer {

  const SIZE: nat := 8192

  // ------------------------------------------------- the set the buffer stands for

  /** All of 0..n received, and n + 1 not. */
  predicate IsFrontier(s: set<nat>, n: nat) {
    (forall k :: 0 <= k <= n ==> k in s) && n + 1 !in s
  }

  predicate AllReceived(s: set<nat>, k: nat, n: nat) { forall i :: k < i <= n ==> i in s }

  /** The largest n with all of k + 1..n received. */
  function FrontierFrom(s: set<nat>, k: nat): (n: nat)
    ensures k <= n && n + 1 !in s && AllReceived(s, k, n)
    decreases |s|
  {
    if k + 1 in s then
      var n := FrontierFrom(s - {k + 1}, k + 1);
      WithNext(s, s - {k + 1}, k, n);
      n
    else k
  }

  lemma WithNext(s: set<nat>, rest: set<nat>, k: nat, n: nat)
    requires k + 1 in s && rest == s - {k + 1} && AllReceived(rest, k + 1, n)
    ensures AllReceived(s, k, n)
  {
    forall i | k < i <= n ensures i in s {
      assert i == k + 1 || i in rest;
    }
  }

  /** The largest contiguous number received. */
  function Frontier(s: set<nat>): (n: nat)
    requires 0 in s
    ensures IsFrontier(s, n)
  {
    var n := FrontierFrom(s, 0);
    assert forall k :: 0 <= k <= n ==> k == 0 || k in s;
    n
  }

  lemma FrontierUnique(s: set<nat>, m: nat, n: nat)
    requires IsFrontier(s, m) && IsFrontier(s, n)
    ensures m == n
  {
    assert m < n ==> m + 1 in s;
    assert n < m ==> n + 1 in s;
  }

  /** Two numbers of one slot inside a window of the ring's size are the same number. */
  lemma SameSlot(lo: nat, r: nat, s: nat)
    requires lo <= r < lo + SIZE && lo <= s < lo + SIZE && r % SIZE == s % SIZE
    ensures r == s
  {
    var a, b := r / SIZE, s / SIZE;
    assert r - s == SIZE * (a - b);
  }

  predicate Least(s: set<nat>, m: nat) { m in s && forall x :: x in s ==> m <= x }

  lemma {:induction false} LeastExists(s: set<nat>, y: nat) returns (m: nat)
    requires y in s
    ensures Least(s, m)
    decreases y
  {
    if x :| x in s && x < y {
      m := LeastExists(s, x);
    } else {
      m := y;
    }
  }

  /**
   What one GetNextSqn returns: the frontier, unless that is more than a ring's
   length beyond the frontier of the numbers that were not waiting in overflow.
   */
  function Answer(received: set<nat>, waiting: set<nat>): nat
    requires 0 in received && 0 !in waiting
  {
    var reach := Frontier(received - waiting) + SIZE;
    if Frontier(received) <= reach then Frontier(received) else reach
  }

  /** With only the numbers beyond one lap waiting, the head stops where Answer says. */
  lemma OneLap(received: set<nat>, waiting: set<nat>, rest: set<nat>)
    requires 0 in received && 0 !in waiting && 0 !in rest
    requires forall x :: x in rest <==> x in received && x >= Frontier(received - waiting) + 1 + SIZE
    ensures Frontier(received - rest) == Answer(received, waiting)
  {
    FrontierUnique(received - rest, Frontier(received - rest), Answer(received, waiting));
  }

  /** The answer is at most the frontier, and equals it unless the whole lap was used. */
  lemma Reaches(received: set<nat>, waiting: set<nat>)
    requires 0 in received && 0 !in waiting
    ensures Answer(received, waiting) <= Frontier(received)
    ensures Answer(received, waiting) == Frontier(received) <==> Answer(received, waiting) + 1 !in received
  {
  }

  /** Three laps received in ascending order before the first call: one call answers with two. */
  lemma AnswerFallsShort(received: set<nat>, waiting: set<nat>)
    requires forall x: nat :: x in received <==> x < 3 * SIZE
    requires forall x: nat :: x in waiting <==> SIZE <= x < 3 * SIZE
    ensures Answer(received, waiting) == 2 * SIZE - 1
    ensures Frontier(received) == 3 * SIZE - 1
  {
    FrontierUnique(received - waiting, Frontier(received - waiting), SIZE - 1);
    FrontierUnique(received, Frontier(received), 3 * SIZE - 1);
  }

  class Buffer {
    var head: nat
    const slots: array<nat>
    var overflow: set<nat>
    ghost var received: set<nat>

    ghost predicate Valid()
      reads this, slots
    {
      && slots.Length == SIZE
      && 0 in received && 0 !in overflow
      && (forall x :: x in overflow ==> x in received)
      && (forall k :: 0 <= k < head ==> k in received)
      && (forall r :: r in received && r >= head && r !in overflow ==> r < head + SIZE && slots[r % SIZE] == r)
      && (forall i :: 0 <= i < SIZE ==> slots[i] < head + SIZE && (slots[i] == 0 || (slots[i] % SIZE == i && slots[i] in received)))
    }

    /** The numbers that are in overflow only. */
    ghost function Waiting(): set<nat>
      reads this, slots
      requires Valid()
    {
      set x | x in overflow && x >= head && slots[x % SIZE] != x
    }

    constructor ()
      ensures Valid() && fresh(slots)
      ensures head == 0 && received == {0} && overflow == {}
    {
      slots := new nat[SIZE](i => 0);
      head, overflow, received := 0, {}, {0};
    }

    /** Nothing received is lost; a number that does not fit goes to overflow. */
    method PutSqn(handleOverflow: bool, sqn: nat) returns (placed: bool)
      requires Valid()
      modifies this`overflow, this`received, slots
      ensures Valid()
      ensures placed <==> sqn < head + SIZE
      ensures received == old(received) + (if placed || handleOverflow then {sqn} else {})
      ensures overflow == old(overflow) + (if !placed && handleOverflow then {sqn} else {})
      ensures placed && head <= sqn ==> slots[sqn % SIZE] == sqn
    {
      if sqn < head {
        assert received == received + {sqn};
        return true;
      }
      if head + SIZE > sqn {
        forall r | r in received && r >= head && r !in overflow && r % SIZE == sqn % SIZE ensures r == sqn {
          SameSlot(head, r, sqn);
        }
        slots[sqn % SIZE] := sqn;
        received := received + {sqn};
        return true;
      } else {
        if handleOverflow {
          overflow := overflow + {sqn};
          received := received + {sqn};
        }
        return false;
      }
    }

    /** The head moves to the end of what is contiguous in the ring, at most one lap. */
    method PushHead()
      requires Valid()
      modifies this`head
      ensures Valid()
      ensures old(head) <= head <= old(head) + SIZE && head >= 1
      ensures Waiting() == old(Waiting())
      ensures head - 1 == Frontier(received - Waiting())
    {
      ghost var start := head;
      while true
        invariant Valid()
        invariant start <= head <= start + SIZE
        invariant forall k :: start <= k < head ==> slots[k % SIZE] == k
        decreases start + SIZE - head
      {
        if head == slots[head % SIZE] {
          Lap(start, head);
          head := head + 1;
          continue;
        }
        break;
      }
      assert IsFrontier(received - Waiting(), head - 1);
      FrontierUnique(received - Waiting(), head - 1, Frontier(received - Waiting()));
    }

    /** The least overflow number moves into the ring if it fits. */
    method MoveLeast() returns (placed: bool, ghost it: nat)
      requires Valid() && overflow != {}
      modifies this`overflow, this`received, slots
      ensures Valid() && received == old(received)
      ensures Least(old(overflow), it) && (placed <==> it < head + SIZE)
      ensures overflow == if placed then old(overflow) - {it} else old(overflow)
    {
      ghost var y :| y in overflow;
      ghost var least := LeastExists(overflow, y);
      var first :| Least(overflow, first);
      it := first;
      assert Least(overflow, first);
      assert first in overflow;
      assert first in received;
      assert received + {first} == received;
      placed := PutSqn(false, first);
      if placed {
        overflow := overflow - {first};
      }
    }

    /** The overflow numbers that fit move into the ring, in ascending order. */
    method MoveOverflow()
      requires Valid()
      modifies this`overflow, this`received, slots
      ensures Valid() && received == old(received)
      ensures overflow == set x | x in old(overflow) && x >= head + SIZE
      ensures Waiting() == overflow && forall x :: x in overflow <==> x in received && x >= head + SIZE
    {
      while overflow != {}
        invariant Valid() && received == old(received)
        invariant overflow <= old(overflow)
        invariant forall x :: x in old(overflow) && x !in overflow ==> x < head + SIZE
        decreases |overflow|
      {
        var placed, _ := MoveLeast();
        if !placed {
          break;
        }
      }
    }

    /**
     The answer is the frontier of the plain set, cut after one lap; it is the frontier
     itself exactly when the new head is not waiting in overflow, so whenever overflow
     is empty and whenever the call does not move the head.
     */
    method GetNextSqn() returns (sqn: nat)
      requires Valid()
      modifies this`head, this`overflow, this`received, slots
      ensures Valid() && received == old(received)
      ensures sqn == head - 1 == Answer(received, old(Waiting()))
      ensures overflow == set x | x in old(overflow) && x >= Frontier(received - old(Waiting())) + 1 + SIZE
      ensures sqn <= Frontier(received)
      ensures sqn == Frontier(received) <==> head !in overflow
      ensures head == old(head) ==> sqn == Frontier(received)
    {
      PushHead();
      if overflow == {} {
        assert received - Waiting() == received;
        return head - 1;
      }
      ghost var waiting := Waiting();
      MoveOverflow();
      OneLap(received, waiting, overflow);
      PushHead();
      sqn := head - 1;
      Reaches(received, waiting);
    }
  }

  /** A slot holds one number, so the head cannot pass it twice. */
  lemma Lap(start: nat, head: nat)
    ensures head == start + SIZE ==> head % SIZE == start % SIZE && head != start
  {
  }

  /** A buffer that receives 0..n - 1 before its first GetNextSqn. */
  method PutBelow(n: nat) returns (b: Buffer)
    ensures fresh(b) && fresh(b.slots) && b.Valid() && b.head == 0
    ensures forall x: nat :: x in b.received <==> x < n || x == 0
    ensures forall x: nat :: x in b.overflow <==> SIZE <= x < n
  {
    b := new Buffer();
    var k := 0;
    while k < n
      invariant 0 <= k <= n && fresh(b) && fresh(b.slots) && b.Valid() && b.head == 0
      invariant forall x: nat :: x in b.received <==> x < k || x == 0
      invariant forall x: nat :: x in b.overflow <==> SIZE <= x < k
    {
      var placed := b.PutSqn(true, k);
      k := k + 1;
    }
  }

  /** Three laps received before the first call: it returns the end of the second, one short of a lap. */
  method ThreeLaps() returns (sqn: nat)
    ensures sqn == 2 * SIZE - 1
  {
    var b := PutBelow(3 * SIZE);
    ghost var received, waiting := b.received, b.Waiting();
    SlotsHoldNoOverflow(b);
    AnswerFallsShort(received, waiting);
    sqn := b.GetNextSqn();
    assert sqn < Frontier(b.received);
  }

  lemma SlotsHoldNoOverflow(b: Buffer)
    requires b.Valid() && b.head == 0 && forall x :: x in b.overflow ==> x >= SIZE
    ensures b.Waiting() == b.overflow
  {
    assert forall x :: x in b.overflow ==> b.slots[x % SIZE] < SIZE;
  }
}
