/**
 `ShmSeqLock` with whole calls as atomic steps.  The lock refines a plain set
 of unlocked numbers: the word, when free, is the largest k such that 1..k are
 all unlocked, as long as no two pending numbers share an entry of the ring.
 */
module SeqLock {
  import opened Common

  /** Every number in 1..k is unlocked. */
  ghost predicate AllIn(u: set<int>, k: int) {
    forall i :: 1 <= i <= k ==> i in u
  }

  /** k is the largest number such that 1..k are all unlocked. */
  ghost predicate IsFrontier(u: set<int>, k: int) {
    k >= 0 && AllIn(u, k) && k + 1 !in u
  }

  /** Unlocked numbers that the frontier has not reached yet. */
  ghost function Pending(u: set<int>, base: int): set<int> {
    set v | v in u && v > base
  }

  /** Number n is behind the frontier, or has a ring entry of its own. */
  ghost predicate OwnEntry(u: set<int>, base: int, size: nat, n: Sqn)
    requires size > 0
  {
    n <= base || forall v :: v in Pending(u, base) && v != n ==> v % size != n % size
  }

  /** There is one frontier, and it decides which numbers may be locked. */
  lemma FrontierDecidesLock(u: set<int>, k: int, k': int, n: Sqn)
    requires IsFrontier(u, k)
    ensures IsFrontier(u, k') ==> k' == k
    ensures AllIn(u, n - 1) <==> n - 1 <= k
  {
    assert AllIn(u, k') && k < k' ==> k + 1 in u;
    assert AllIn(u, k) && 0 <= k' < k ==> k' + 1 in u;
    assert AllIn(u, n - 1) && k < n - 1 ==> k + 1 in u;
  }

  lemma Multiple(k: int, size: nat)
    ensures k >= 1 ==> k * size >= size
    ensures k <= 0 ==> k * size <= 0
  {
    if k >= 1 { assert (k - 1) * size >= 0; } else { assert -k * size >= 0; }
  }

  lemma ModWindow(a: int, b: int, size: nat)
    requires size > 0 && a < b < a + size
    ensures a % size != b % size
  {
    Multiple(b / size - a / size, size);
  }

  /** Unlocks at most a ring's length ahead of the frontier never share an entry. */
  lemma WithinRing(u: set<int>, base: int, size: nat, n: Sqn)
    requires size > 0 && base >= 0
    requires n <= base + size && forall v :: v in u ==> v <= base + size
    ensures OwnEntry(u, base, size, n)
  {
    if n > base {
      forall v | v in Pending(u, base) && v != n ensures v % size != n % size {
        if v < n { ModWindow(v, n, size); } else { ModWindow(n, v, size); }
      }
    }
  }

  /** Each entry is empty or holds an unlocked number in its own slot. */
  ghost predicate EntriesOk(u: set<int>, e: seq<int>) {
    forall i :: 0 <= i < |e| ==> e[i] == 0 || (e[i] >= 1 && e[i] in u && e[i] % |e| == i)
  }

  /** Every number ahead of the frontier is in its entry. */
  ghost predicate KeptIn(u: set<int>, base: int, e: seq<int>)
    requires |e| > 0
  {
    forall v :: v in Pending(u, base) ==> e[v % |e|] == v
  }

  /** The entries after UnlockCache(total). */
  function Cached(e: seq<int>, total: Sqn): (e': seq<int>)
    requires |e| > 0
    ensures |e'| == |e|
  {
    var i := total % |e|;
    if e[i] < total then e[i := total] else e
  }

  /**
   Caching the unlock of n (as total, which is n unless n is long released)
   keeps every pending number exactly when n has an entry of its own.
   */
  lemma CacheKeeps(u: set<int>, base: int, e: seq<int>, n: Sqn, total: Sqn)
    requires |e| > 0 && base >= 0 && EntriesOk(u, e) && KeptIn(u, base, e)
    requires n <= total && (total == n || total <= base)
    ensures KeptIn(u + {n}, base, Cached(e, total)) <==> OwnEntry(u, base, |e|, n)
  {
    var e' := Cached(e, total);
    if OwnEntry(u, base, |e|, n) {
      forall v | v in Pending(u + {n}, base) ensures e'[v % |e|] == v {
        if v != n {
          assert v in Pending(u, base) && e[v % |e|] == v;
        } else {
          var w := e[n % |e|];
          assert w > n ==> w in Pending(u, base);
        }
      }
    } else {
      var v :| v in Pending(u, base) && v != n && v % |e| == n % |e|;
      assert v in Pending(u + {n}, base) && n in Pending(u + {n}, base);
    }
  }

  /** An unlock that shares its entry leaves the free word where it is. */
  lemma ClashStays(u: set<int>, base: int, e: seq<int>, n: Sqn)
    requires |e| > 0 && IsFrontier(u, base) && EntriesOk(u, e) && KeptIn(u, base, e)
    requires !OwnEntry(u, base, |e|, n)
    ensures Cached(e, n)[(base + 1) % |e|] != base + 1
  {
    var v :| v in Pending(u, base) && v != n && v % |e| == n % |e|;
    assert e[v % |e|] == v;
  }

  /** The number just behind the word is in its own entry only, before the entry is cleared. */
  lemma PassedOne(was: seq<int>, now: seq<int>, from: int, word: int)
    requires 0 <= from <= word && |was| == |now| > 0
    requires forall i :: 0 <= i < |now| ==> now[i] == if from < was[i] <= word then 0 else was[i]
    requires forall i :: 0 <= i < |was| ==> was[i] == 0 || was[i] % |was| == i
    requires now[(word + 1) % |now|] == word + 1
    ensures var now' := now[(word + 1) % |now| := 0];
            forall i :: 0 <= i < |now| ==> now'[i] == if from < was[i] <= word + 1 then 0 else was[i]
  {
  }

  class ShmSeqLock {
    var lockSqn: int
    var prevLockSqn: int
    const entries: array<int>

    /** The numbers UnLock has been called for. */
    ghost var unlocked: set<int>

    /** The released frontier: the free word, or what the holder locked from. */
    function Base(): int
      reads this
    {
      if lockSqn >= 0 then lockSqn else prevLockSqn
    }

    ghost predicate Valid()
      reads this, entries
    {
      && entries.Length > 0
      && 0 <= prevLockSqn <= Base()
      && AllIn(unlocked, Base())
      && EntriesOk(unlocked, entries[..])
      && (lockSqn < 0 ==> prevLockSqn >= -lockSqn - 1)
    }

    /** No unlock is lost: each number ahead of the frontier is in its entry. */
    ghost predicate Kept()
      reads this, entries
      requires entries.Length > 0
    {
      KeptIn(unlocked, Base(), entries[..])
    }

    /** The word is exact: nothing is lost, and a free word is the frontier. */
    ghost predicate Exact()
      reads this, entries
      requires entries.Length > 0
    {
      Kept() && (lockSqn >= 0 ==> IsFrontier(unlocked, lockSqn))
    }

    /** `queueSize` is the cache size after rounding up to a power of two, so that
        the mask of the index is the remainder by it. */
    constructor (queueSize: nat)
      requires queueSize >= 2
      ensures Valid() && Exact() && lockSqn == 0 && unlocked == {}
      ensures fresh(entries) && entries.Length == queueSize
    {
      lockSqn, prevLockSqn, unlocked := 0, 0, {};
      entries := new int[queueSize](_ => 0);
    }

    /** Exactly the entries of the numbers that the word has passed were cleared. */
    ghost predicate ClearedUpTo(was: seq<int>, from: int)
      reads this`lockSqn, entries
    {
      && |was| == entries.Length
      && forall i :: 0 <= i < entries.Length ==> entries[i] == if from < was[i] <= lockSqn then 0 else was[i]
    }

    /** Moves the free word over the entries that follow it. */
    method TryRelease()
      requires Valid() && lockSqn >= 0
      modifies this`lockSqn, entries
      ensures Valid() && lockSqn >= old(lockSqn)
      ensures ClearedUpTo(old(entries[..]), old(lockSqn))
      ensures old(Kept()) ==> Exact()
      ensures old(Exact()) ==> lockSqn == old(lockSqn) && entries[..] == old(entries[..])
      ensures old(entries[(lockSqn + 1) % entries.Length] != lockSqn + 1) ==>
                lockSqn == old(lockSqn) && entries[..] == old(entries[..])
    {
      var currLock := lockSqn;
      while entries[(currLock + 1) % entries.Length] == currLock + 1
        invariant Valid() && currLock == lockSqn >= old(lockSqn)
        invariant ClearedUpTo(old(entries[..]), old(lockSqn))
        invariant old(Kept()) ==> Kept()
        invariant lockSqn > old(lockSqn) ==>
                    old(entries[(lockSqn + 1) % entries.Length] == lockSqn + 1 && lockSqn + 1 in unlocked)
        invariant lockSqn == old(lockSqn) ==> entries[..] == old(entries[..])
        decreases Pending(unlocked, lockSqn)
      {
        ghost var before, was := Pending(unlocked, lockSqn), entries[..];
        PassedOne(old(entries[..]), was, old(lockSqn), lockSqn);
        ReleaseOne();
        currLock := currLock + 1;
        assert currLock in before && currLock !in Pending(unlocked, lockSqn);
      }
    }

    /** One round of TryRelease: take c + 1 out of the ring into the word. */
    method ReleaseOne()
      requires Valid() && lockSqn >= 0 && entries[(lockSqn + 1) % entries.Length] == lockSqn + 1
      modifies this`lockSqn, entries
      ensures Valid() && lockSqn == old(lockSqn) + 1 && lockSqn in unlocked
      ensures entries[..] == old(entries[..])[lockSqn % entries.Length := 0]
      ensures old(Kept()) ==> Kept()
    {
      lockSqn := lockSqn + 1;
      entries[lockSqn % entries.Length] := 0;
    }

    /** Remembers total in its entry unless a larger number is there. */
    method UnlockCache(total: Sqn)
      requires entries.Length > 0 && forall i :: 0 <= i < entries.Length ==> entries[i] >= 0
      modifies entries
      ensures entries[..] == Cached(old(entries[..]), total)
    {
      var i := total % entries.Length;
      if entries[i] == 0 {
        entries[i] := total;
      } else if entries[i] < total {
        entries[i] := total;
      }
    }

    /** UnLock(n) by a caller that does not hold the lock. */
    method UnlockOutside(n: Sqn, total: Sqn)
      requires Valid() && lockSqn != 0 - n
      requires total == if n < prevLockSqn then prevLockSqn else n
      modifies this`lockSqn, this`unlocked, entries
      ensures Valid() && unlocked == old(unlocked) + {n}
      ensures Base() >= old(Base()) && (lockSqn < 0 <==> old(lockSqn) < 0)
      ensures old(Exact()) ==> (Exact() <==> old(OwnEntry(unlocked, Base(), entries.Length, n)))
    {
      if Exact() {
        CacheKeeps(unlocked, Base(), entries[..], n, total);
        if lockSqn >= 0 && !OwnEntry(unlocked, lockSqn, entries.Length, n) {
          ClashStays(unlocked, lockSqn, entries[..], n);
        }
      }
      unlocked := unlocked + {n};
      UnlockCache(total);
      if 0 <= lockSqn < total {
        TryRelease();
      }
    }

    /**
     UnLock(n), by the holder if the word is -n.  If no unlock was lost before,
     none is lost now exactly when the caller holds the lock or n has an entry
     of its own.
     */
    method UnLock(n: Sqn)
      requires Valid()
      modifies this`lockSqn, this`unlocked, entries
      ensures Valid() && unlocked == old(unlocked) + {n}
      ensures Base() >= old(Base())
      ensures lockSqn < 0 <==> old(lockSqn) < 0 && old(lockSqn) != 0 - n
      ensures old(Exact()) ==>
                (Exact() <==> old(lockSqn) == 0 - n || old(OwnEntry(unlocked, Base(), entries.Length, n)))
    {
      var total := if n < prevLockSqn then prevLockSqn else n;
      if lockSqn == 0 - n {
        unlocked := unlocked + {n};
        lockSqn := total;
        TryRelease();
      } else {
        UnlockOutside(n, total);
      }
    }

    /**
     Lock(n).  `ok` is false when the loop would spin until another call moves
     the word.  On an exact word it succeeds exactly when the word is free and
     every smaller number is unlocked.
     */
    method Lock(n: Sqn) returns (ok: bool)
      requires Valid()
      modifies this`lockSqn, this`prevLockSqn, entries
      ensures Valid() && Base() >= old(Base())
      ensures ok ==> lockSqn == 0 - n && AllIn(unlocked, n - 1)
      ensures old(Exact()) ==> Exact() && Base() == old(Base())
      ensures old(Exact()) ==> (ok <==> old(lockSqn) >= 0 && AllIn(unlocked, n - 1))
    {
      var from := n - 1;
      while lockSqn != from
        invariant Valid() && from >= n - 1 && prevLockSqn == old(prevLockSqn)
        invariant Base() >= old(Base()) && (from > n - 1 ==> from == lockSqn)
        invariant old(Exact()) ==> Exact() && lockSqn == old(lockSqn)
        decreases Pending(unlocked, lockSqn), lockSqn != from
      {
        var currLock := lockSqn;
        if currLock < 0 {
          return false;
        }
        if n <= currLock {
          from := currLock;
        } else {
          TryRelease();
          if lockSqn == currLock {
            if old(Exact()) { FrontierDecidesLock(unlocked, lockSqn, lockSqn, n); }
            return false;
          }
          assert currLock + 1 in Pending(unlocked, currLock);
        }
      }
      lockSqn := 0 - n;
      prevLockSqn := from;
      return true;
    }
  }
}
