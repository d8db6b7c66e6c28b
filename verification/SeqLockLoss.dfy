/**
 When single accesses lose an unlock.  In every disciplined schedule whose unlocks are at
 most a ring's length ahead of the frontier, nothing is lost unless an unlock that is
 still ahead is cached in an entry which another thread, having moved the word over
 the number in that entry, has not cleared yet.
 */
module SeqLockLoss {
  import opened SeqLockSteps
  import SeqLock

  /** The thread has entered UnLock(v) and not stored v yet. */
  predicate Carries(p: Pc, v: int) {
    || (p.UnlockCas? && p.n == v && p.total == v)
    || (p.CacheCas? && p.total == v)
    || (p.CacheLoad? && p.total == v)
    || (p.CacheSwap? && p.total == v)
  }

  ghost predicate Carried(s: State, v: int) { exists t :: 0 <= t < |s.pc| && Carries(s.pc[t], v) }

  /** The unlock of v is in its entry or on its way there. */
  ghost predicate Remembered(s: State, v: int)
    requires |s.ring| > 0
  {
    s.ring[Slot(s, v)] == v || Carried(s, v)
  }

  /** No unlock ahead of the frontier is lost. */
  ghost predicate Kept(s: State)
    requires |s.ring| > 0
  {
    forall v :: v in s.called && v > Frontier(s) ==> Remembered(s, v)
  }

  /** An unlock is at most a ring's length ahead of the frontier. */
  predicate InWindow(s: State, m: Move)
    requires Enabled(s, m)
  {
    s.pc[m.t].Idle? && m.call.CallUnlock? ==> m.call.n <= Frontier(s) + |s.ring|
  }

  /** The step stores its total in an entry. */
  predicate Stores(s: State, m: Move)
    requires Enabled(s, m)
  {
    var p := s.pc[m.t];
    || (p.CacheCas? && s.ring[Slot(s, p.total)] == 0)
    || (p.CacheSwap? && s.ring[Slot(s, p.total)] == p.cur)
  }

  /** Thread u is between moving the word to c + 1 and clearing the entry of total. */
  predicate AboutToClear(s: State, u: nat, total: int)
    requires |s.ring| > 0
  {
    u < |s.pc| && s.pc[u].RelClear? && Slot(s, s.pc[u].c + 1) == Slot(s, total)
  }

  /** The step stores an unlock ahead of the frontier in an entry that is about to be cleared. */
  ghost predicate Clash(s: State, m: Move)
    requires Enabled(s, m)
  {
    Stores(s, m) && s.pc[m.t].total > Frontier(s) && exists u :: AboutToClear(s, u, s.pc[m.t].total)
  }

  // ------------------------------------------------------------------ invariant

  ghost predicate Near(s: State) { forall v :: v in s.called ==> v <= Frontier(s) + |s.ring| }

  predicate Slots(s: State) {
    forall i :: 0 <= i < |s.ring| && s.ring[i] > 0 ==> s.ring[i] % |s.ring| == i
  }

  predicate PcKeeps(s: State, p: Pc)
    requires |s.ring| > 0
  {
    match p
    case UnlockCas(n, total) => total == n || n <= Frontier(s)
    case CacheSwap(total, _, cur) => cur < total
    case RelClear(c, _) => c + 1 <= Frontier(s) && s.ring[Slot(s, c + 1)] <= Frontier(s)
    case _ => true
  }

  ghost predicate PcsKeep(s: State)
    requires |s.ring| > 0
  {
    forall t :: 0 <= t < |s.pc| ==> PcKeeps(s, s.pc[t])
  }

  ghost predicate LossInv(s: State) { Inv(s) && Near(s) && Slots(s) && PcsKeep(s) && Kept(s) }

  /** Two numbers of one entry are at least a ring's length apart. */
  lemma Apart(x: int, y: int, size: nat)
    requires size > 0 && x % size == y % size && x < y
    ensures x + size <= y
  {
    if y < x + size { SeqLock.ModWindow(x, y, size); }
  }

  /** In an entry whose next number is the frontier's successor there is nothing beyond it. */
  lemma EntryNear(s: State, c: int)
    requires Inv(s) && Near(s) && Slots(s) && Frontier(s) == c
    ensures s.ring[Slot(s, c + 1)] <= c + 1
  {
    var x := s.ring[Slot(s, c + 1)];
    if x > c + 1 { Apart(c + 1, x, |s.ring|); }
  }

  // ----------------------------------------------------------------- each step

  /** Every other thread still carries what it carried. */
  lemma OthersCarry(s: State, s': State, t: nat, v: int)
    requires t < |s.pc| == |s'.pc| && s'.pc == s.pc[t := s'.pc[t]]
    requires Carried(s, v) && (Carries(s.pc[t], v) ==> Carries(s'.pc[t], v))
    ensures Carried(s', v)
  {
    var u :| 0 <= u < |s.pc| && Carries(s.pc[u], v);
    assert Carries(s'.pc[u], v);
  }

  /** A step that stores nothing in the ring and leaves nothing pending behind. */
  lemma NoStore(s: State, m: Move)
    requires LossInv(s) && Enabled(s, m) && Disciplined(s, m) && InWindow(s, m)
    requires Exec(s, m).ring == s.ring
    requires PcKeeps(Exec(s, m), Exec(s, m).pc[m.t])
    requires forall v :: Carries(s.pc[m.t], v) && v > Frontier(Exec(s, m)) ==>
               s.ring[Slot(s, v)] == v || Carries(Exec(s, m).pc[m.t], v)
    requires forall v :: v in Exec(s, m).called && v !in s.called && v > Frontier(s) ==> Carries(Exec(s, m).pc[m.t], v)
    ensures LossInv(Exec(s, m))
  {
    var s' := Exec(s, m);
    StepKeeps(s, m);
    StepFrame(s, m);
    PcsStill(s, s', m.t);
    StillKept(s, s', m.t);
  }

  /** One step changes the place of one thread and adds at most one number called. */
  lemma StepFrame(s: State, m: Move)
    requires Enabled(s, m) && InWindow(s, m)
    ensures var s' := Exec(s, m);
            && |s'.pc| == |s.pc| && s'.pc == s.pc[m.t := s'.pc[m.t]] && |s'.ring| == |s.ring|
            && (forall v :: v in s'.called && v !in s.called ==> v <= Frontier(s) + |s.ring|)
            && s.called <= s'.called
  {
  }

  lemma PcsStill(s: State, s': State, t: nat)
    requires |s.ring| > 0 && PcsKeep(s) && t < |s.pc| == |s'.pc| && s'.pc == s.pc[t := s'.pc[t]]
    requires s'.ring == s.ring && Frontier(s) <= Frontier(s') && PcKeeps(s', s'.pc[t])
    ensures PcsKeep(s')
  {
    forall u | 0 <= u < |s'.pc| ensures PcKeeps(s', s'.pc[u]) {
      assert u != t ==> PcKeeps(s, s.pc[u]);
    }
  }

  lemma StillKept(s: State, s': State, t: nat)
    requires |s.ring| > 0 && Kept(s) && t < |s.pc| == |s'.pc| && s'.pc == s.pc[t := s'.pc[t]]
    requires s'.ring == s.ring && Frontier(s) <= Frontier(s')
    requires forall v :: Carries(s.pc[t], v) && v > Frontier(s') ==> s.ring[Slot(s, v)] == v || Carries(s'.pc[t], v)
    requires forall v :: v in s'.called && v !in s.called && v > Frontier(s) ==> Carries(s'.pc[t], v)
    ensures Kept(s')
  {
    forall v | v in s'.called && v > Frontier(s') ensures Remembered(s', v) {
      if v !in s.called {
        assert Carries(s'.pc[t], v);
      } else if s.ring[Slot(s, v)] != v {
        assert Remembered(s, v);
        OthersCarry(s, s', t, v);
      }
    }
  }

  lemma CallKeeps(s: State, m: Move)
    requires LossInv(s) && Enabled(s, m) && Disciplined(s, m) && InWindow(s, m) && s.pc[m.t].Idle?
    ensures LossInv(Exec(s, m))
  {
    NoStore(s, m);
  }

  lemma LockKeeps(s: State, m: Move)
    requires LossInv(s) && Enabled(s, m) && Disciplined(s, m) && InWindow(s, m)
    requires s.pc[m.t].LockCas? || s.pc[m.t].StorePrev? || s.pc[m.t].RelLoad?
    ensures LossInv(Exec(s, m))
  {
    NoStore(s, m);
  }

  lemma UnlockKeeps(s: State, m: Move)
    requires LossInv(s) && Enabled(s, m) && Disciplined(s, m) && InWindow(s, m) && s.pc[m.t].UnlockCas?
    ensures LossInv(Exec(s, m))
  {
    assert PcKeeps(s, s.pc[m.t]);
    assert PcOk(s, m.t, s.pc[m.t]);
    StepKeeps(s, m);
    NoStore(s, m);
  }

  lemma RelCasKeeps(s: State, m: Move)
    requires LossInv(s) && Enabled(s, m) && Disciplined(s, m) && InWindow(s, m) && s.pc[m.t].RelCas?
    ensures LossInv(Exec(s, m))
  {
    if s.word == s.pc[m.t].c {
      assert PcOk(s, m.t, s.pc[m.t]);
      EntryNear(s, s.pc[m.t].c);
    }
    NoStore(s, m);
  }

  lemma CacheLoadKeeps(s: State, m: Move)
    requires LossInv(s) && Enabled(s, m) && Disciplined(s, m) && InWindow(s, m) && s.pc[m.t].CacheLoad?
    ensures LossInv(Exec(s, m))
  {
    var total := s.pc[m.t].total;
    var cur := s.ring[Slot(s, total)];
    assert PcOk(s, m.t, s.pc[m.t]);
    if cur > total { Apart(total, cur, |s.ring|); }
    NoStore(s, m);
  }

  /** A store of total, where no thread is about to clear the entry unless total is behind the frontier. */
  lemma StoreKeeps(s: State, m: Move)
    requires LossInv(s) && Enabled(s, m) && Disciplined(s, m) && Stores(s, m) && !Clash(s, m)
    ensures LossInv(Exec(s, m))
  {
    var s' := Exec(s, m);
    var total := s.pc[m.t].total;
    var i := Slot(s, total);
    StepKeeps(s, m);
    assert PcOk(s, m.t, s.pc[m.t]) && PcKeeps(s, s.pc[m.t]);
    assert s'.ring == s.ring[i := total] && Frontier(s') == Frontier(s) && s'.called == s.called;
    forall u | 0 <= u < |s'.pc| ensures PcKeeps(s', s'.pc[u]) {
      assert u != m.t ==> PcKeeps(s, s.pc[u]);
      assert u != m.t && s.pc[u].RelClear? && Slot(s, s.pc[u].c + 1) == i ==> AboutToClear(s, u, total);
    }
    forall v | v in s'.called && v > Frontier(s') ensures Remembered(s', v) {
      assert Remembered(s, v);
      StoreRemembers(s, s', m.t, total, v);
    }
  }

  /** What the store replaces is behind the frontier. */
  lemma StoreRemembers(s: State, s': State, t: nat, total: int, v: int)
    requires Inv(s) && Near(s) && total in s.called && total >= 1 && t < |s.pc| == |s'.pc|
    requires Remembered(s, v) && v > Frontier(s) && v in s.called
    requires s'.ring == s.ring[Slot(s, total) := total] && s'.pc == s.pc[t := s'.pc[t]]
    requires s.ring[Slot(s, total)] < total && (Carries(s.pc[t], v) ==> v == total)
    ensures Remembered(s', v)
  {
    if v == total {
    } else if s.ring[Slot(s, v)] == v {
      if Slot(s, v) == Slot(s, total) {
        Apart(v, total, |s.ring|);
      }
    } else {
      OthersCarry(s, s', t, v);
    }
  }

  /** The entry that is cleared holds nothing ahead of the frontier. */
  lemma ClearKeeps(s: State, m: Move)
    requires LossInv(s) && Enabled(s, m) && Disciplined(s, m) && s.pc[m.t].RelClear?
    ensures LossInv(Exec(s, m))
  {
    var s' := Exec(s, m);
    var i := Slot(s, s.pc[m.t].c + 1);
    StepKeeps(s, m);
    assert PcKeeps(s, s.pc[m.t]);
    assert s'.ring == s.ring[i := 0] && Frontier(s') == Frontier(s) && s'.called == s.called;
    forall u | 0 <= u < |s'.pc| ensures PcKeeps(s', s'.pc[u]) {
      assert u != m.t ==> PcKeeps(s, s.pc[u]);
    }
    forall v | v in s'.called && v > Frontier(s') ensures Remembered(s', v) {
      assert Remembered(s, v);
      if s.ring[Slot(s, v)] != v { OthersCarry(s, s', m.t, v); }
    }
  }

  lemma LossStepKeeps(s: State, m: Move)
    requires LossInv(s) && Enabled(s, m) && Disciplined(s, m) && InWindow(s, m) && !Clash(s, m)
    ensures LossInv(Exec(s, m))
  {
    var p := s.pc[m.t];
    if Stores(s, m) { StoreKeeps(s, m); }
    else if p.Idle? { CallKeeps(s, m); }
    else if p.UnlockCas? { UnlockKeeps(s, m); }
    else if p.RelCas? { RelCasKeeps(s, m); }
    else if p.RelClear? { ClearKeeps(s, m); }
    else if p.CacheLoad? { CacheLoadKeeps(s, m); }
    else if p.CacheCas? || p.CacheSwap? { NoStore(s, m); }
    else { LockKeeps(s, m); }
  }

  // ------------------------------------------------------------- every schedule

  /** Every unlock is within the window and no step clashes. */
  ghost predicate Careful(s: State, sched: seq<Move>)
    requires IsRun(s, sched, false)
    decreases |sched|
  {
    sched == [] || (InWindow(s, sched[0]) && !Clash(s, sched[0]) && Careful(Exec(s, sched[0]), sched[1..]))
  }

  lemma {:induction false} LossRunKeeps(s: State, sched: seq<Move>)
    requires LossInv(s) && IsRun(s, sched, true) && IsRun(s, sched, false) && Careful(s, sched)
    ensures LossInv(Run(s, sched))
    decreases |sched|
  {
    if sched != [] {
      LossStepKeeps(s, sched[0]);
      LossRunKeeps(Exec(s, sched[0]), sched[1..]);
    }
  }

  /**
   In every disciplined schedule within the window and without a clash no unlock is lost:
   each number ahead of the frontier is on its way to its entry or in it, and in it once
   all calls have returned.
   */
  lemma NothingLostWithoutClash(queueSize: nat, threads: nat, sched: seq<Move>)
    requires queueSize > 0 && IsRun(Init(queueSize, threads), sched, true)
    requires IsRun(Init(queueSize, threads), sched, false) && Careful(Init(queueSize, threads), sched)
    ensures var s := Run(Init(queueSize, threads), sched);
            && |s.ring| > 0 && Kept(s)
            && ((forall t :: 0 <= t < |s.pc| ==> s.pc[t].Idle?) ==>
                  forall v :: v in s.called && v > Frontier(s) ==> s.ring[Slot(s, v)] == v)
  {
    InitInv(queueSize, threads);
    LossRunKeeps(Init(queueSize, threads), sched);
    var s := Run(Init(queueSize, threads), sched);
    if forall t :: 0 <= t < |s.pc| ==> s.pc[t].Idle? {
      forall v | v in s.called && v > Frontier(s) ensures s.ring[Slot(s, v)] == v {
        assert Remembered(s, v);
      }
    }
  }

  /** No thread but t has the unlock of v on its way. */
  predicate OnlyCarrier(s: State, t: nat, v: int) { forall u :: 0 <= u < |s.pc| && u != t ==> !Carries(s.pc[u], v) }

  /** After a clash, the clearing thread's next step loses the unlock just stored. */
  lemma ClashErases(s: State, m: Move, u: nat, next: Move)
    requires Inv(s) && Enabled(s, m) && Stores(s, m) && s.pc[m.t].total > Frontier(s)
    requires AboutToClear(s, u, s.pc[m.t].total) && next.t == u && OnlyCarrier(s, m.t, s.pc[m.t].total)
    ensures Enabled(Exec(s, m), next)
    ensures var total, s' := s.pc[m.t].total, Exec(Exec(s, m), next);
            && |s'.ring| > 0 && total in s'.called && total > Frontier(s') && !Remembered(s', total) && !Kept(s')
  {
    var total, s1 := s.pc[m.t].total, Exec(s, m);
    assert PcOk(s, m.t, s.pc[m.t]);
    var s' := Exec(s1, next);
    assert s1.ring[Slot(s1, total)] == total && s'.ring[Slot(s', total)] == 0;
    assert Frontier(s') == Frontier(s);
    forall t | 0 <= t < |s'.pc| ensures !Carries(s'.pc[t], total) {}
    assert !Remembered(s', total);
  }
}
