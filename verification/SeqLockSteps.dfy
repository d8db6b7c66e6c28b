/**
 `ShmSeqLock` at the granularity of single shared-memory accesses: every
 compare-and-swap, load and store of `Lock`, `UnLock`, `UnlockCache` and
 `TryRelease` is one step, and the steps of any number of threads interleave
 freely.  `Exec` is one step of one thread, a schedule is a list of thread
 choices, and the theorems speak of every schedule.
 */
module SeqLockSteps {
  import opened Common

  /** Where `TryRelease` returns to. */
  datatype Return = ToLock(n: Sqn, base: int) | ToIdle

  /** The next access a thread makes. */
  datatype Pc =
    | Idle
    | LockCas(n: Sqn, base: int)               // CAS lock_sqn_: base -> -n
    | StorePrev(n: Sqn, base: int)             // prev_lock_sqn_ := base
    | UnlockCas(n: Sqn, total: int)              // CAS lock_sqn_: -n -> total
    | CacheCas(total: int, seen: int)            // CAS entry: 0 -> total
    | CacheLoad(total: int, seen: int)           // load the entry
    | CacheSwap(total: int, seen: int, cur: int) // CAS entry: cur -> total
    | RelLoad(c: int, ret: Return)               // load the entry of c + 1
    | RelCas(c: int, ret: Return)                // CAS lock_sqn_: c -> c + 1
    | RelClear(c: int, ret: Return)              // store 0 into the entry of c + 1

  /** A thread that has acquired the lock with number n and not released it. */
  datatype Hold = Hold(t: nat, n: Sqn, base: int)

  /**
   `word`, `prev` and `ring` are the shared fields.  `holders` and `called` are
   history: who is inside the lock, and for which numbers UnLock was entered.
   No access of the protocol depends on them.
   */
  datatype State = State(
    word: int,
    prev: int,
    ring: seq<int>,
    pc: seq<Pc>,
    holders: seq<Hold>,
    called: set<int>)

  /** What an idle thread calls next. */
  datatype Call = CallLock(n: Sqn) | CallUnlock(n: Sqn)

  /** One entry of a schedule: thread t moves; the call matters if t is idle. */
  datatype Move = Move(t: nat, call: Call)

  function Max(a: int, b: int): int { if a < b then b else a }

  function Slot(s: State, i: int): nat
    requires |s.ring| > 0
  {
    i % |s.ring|
  }

  function Init(queueSize: nat, threads: nat): State {
    State(0, 0, seq(queueSize, _ => 0), seq(threads, _ => Idle), [], {})
  }

  function Goto(s: State, t: nat, p: Pc): State
    requires t < |s.pc|
  {
    s.(pc := s.pc[t := p])
  }

  function PutEntry(s: State, i: int, v: int): State
    requires |s.ring| > 0
  {
    s.(ring := s.ring[Slot(s, i) := v])
  }

  /** Drops the hold of thread t on number n, if it has one. */
  function Leave(hs: seq<Hold>, t: nat, n: Sqn): seq<Hold> {
    if hs == [] then []
    else if hs[0].t == t && hs[0].n == n then hs[1..]
    else [hs[0]] + Leave(hs[1..], t, n)
  }

  /** The end of UnlockCache inside UnLock. */
  function AfterCache(total: int, seen: int): Pc {
    if 0 <= seen < total then RelLoad(seen, ToIdle) else Idle
  }

  function AfterRelease(ret: Return): Pc {
    match ret
    case ToLock(n, base) => LockCas(n, base)
    case ToIdle => Idle
  }

  /** Threads of a schedule entry exist. */
  predicate Enabled(s: State, m: Move) {
    m.t < |s.pc| && |s.ring| > 0
  }

  /** One shared-memory access of thread m.t. */
  function Exec(s: State, m: Move): State
    requires Enabled(s, m)
  {
    var t := m.t;
    match s.pc[t]
    case Idle =>
      (match m.call
       case CallLock(n) => Goto(s, t, LockCas(n, n - 1))
       case CallUnlock(n) => Goto(s.(called := s.called + {n}), t, UnlockCas(n, Max(n, s.prev))))
    case LockCas(n, base) =>
      if s.word == base then
        Goto(s.(word := 0 - n, holders := s.holders + [Hold(t, n, base)]), t, StorePrev(n, base))
      else if s.word < 0 then s
      else if n <= s.word then Goto(s, t, LockCas(n, s.word))
      else Goto(s, t, RelLoad(s.word, ToLock(n, base)))
    case StorePrev(n, base) => Goto(s.(prev := base), t, Idle)
    case UnlockCas(n, total) =>
      if s.word == 0 - n then
        Goto(s.(word := total, holders := Leave(s.holders, t, n)), t, RelLoad(total, ToIdle))
      else Goto(s, t, CacheCas(total, s.word))
    case CacheCas(total, seen) =>
      if s.ring[Slot(s, total)] == 0 then Goto(PutEntry(s, total, total), t, AfterCache(total, seen))
      else Goto(s, t, CacheLoad(total, seen))
    case CacheLoad(total, seen) =>
      var cur := s.ring[Slot(s, total)];
      if cur <= 0 then Goto(s, t, CacheCas(total, seen))
      else if cur < total then Goto(s, t, CacheSwap(total, seen, cur))
      else Goto(s, t, AfterCache(total, seen))
    case CacheSwap(total, seen, cur) =>
      if s.ring[Slot(s, total)] == cur then Goto(PutEntry(s, total, total), t, AfterCache(total, seen))
      else Goto(s, t, CacheCas(total, seen))
    case RelLoad(c, ret) =>
      if s.ring[Slot(s, c + 1)] == c + 1 then Goto(s, t, RelCas(c, ret))
      else Goto(s, t, AfterRelease(ret))
    case RelCas(c, ret) =>
      if s.word == c then Goto(s.(word := c + 1), t, RelClear(c, ret))
      else Goto(s, t, AfterRelease(ret))
    case RelClear(c, ret) => Goto(PutEntry(s, c + 1, 0), t, RelLoad(c + 1, ret))
  }

  /**
   The client rule: the UnLock(n) that finds the word at -n is the holder's own.
   */
  predicate Disciplined(s: State, m: Move)
    requires Enabled(s, m)
  {
    s.pc[m.t].UnlockCas? && s.word == 0 - s.pc[m.t].n
    ==> exists h :: h in s.holders && h.t == m.t && h.n == s.pc[m.t].n
  }

  predicate IsRun(s: State, sched: seq<Move>, disciplined: bool)
    decreases |sched|
  {
    sched == [] || (Enabled(s, sched[0]) && (disciplined ==> Disciplined(s, sched[0]))
                    && IsRun(Exec(s, sched[0]), sched[1..], disciplined))
  }

  function Run(s: State, sched: seq<Move>): State
    requires IsRun(s, sched, false)
    decreases |sched|
  {
    if sched == [] then s else Run(Exec(s, sched[0]), sched[1..])
  }

  // ---------------------------------------------------------------- invariant

  /** Every number in 1..k has had UnLock called. */
  ghost predicate AllCalled(called: set<int>, k: int) {
    forall i :: 1 <= i <= k ==> i in called
  }

  /** The released frontier: the free word, or what the holder locked from. */
  function Frontier(s: State): int {
    if s.word >= 0 || s.holders == [] then s.word else s.holders[0].base
  }

  predicate ReturnOk(ret: Return) {
    ret.ToLock? ==> ret.base >= ret.n - 1
  }

  predicate PcOk(s: State, t: nat, p: Pc) {
    match p
    case Idle => true
    case LockCas(n, base) => base >= n - 1
    case StorePrev(n, base) => s.holders == [Hold(t, n, base)]
    case UnlockCas(n, total) =>
      && n <= total && total in s.called && n in s.called
      && (|s.holders| == 1 && s.holders[0].t == t && s.holders[0].n == n ==> total == Max(n, s.holders[0].base))
    case CacheCas(total, _) => total >= 1 && total in s.called
    case CacheLoad(total, _) => total >= 1 && total in s.called
    case CacheSwap(total, _, cur) => total >= 1 && total in s.called && cur > 0
    case RelLoad(c, ret) => c >= 0 && ReturnOk(ret)
    case RelCas(c, ret) => c >= 0 && c + 1 in s.called && ReturnOk(ret)
    case RelClear(c, ret) => c >= 0 && ReturnOk(ret)
  }

  ghost predicate RingOk(s: State) {
    forall i :: 0 <= i < |s.ring| ==> s.ring[i] >= 0 && (s.ring[i] > 0 ==> s.ring[i] in s.called)
  }

  ghost predicate PcsOk(s: State) {
    forall t :: 0 <= t < |s.pc| ==> PcOk(s, t, s.pc[t])
  }

  /** The word is negative exactly while one thread is inside the lock. */
  predicate HoldersOk(s: State) {
    && |s.holders| <= 1
    && (s.word >= 0 <==> s.holders == [])
    && (s.holders != [] ==>
          var h := s.holders[0];
          && s.word == 0 - h.n && h.t < |s.pc| && h.base >= h.n - 1
          && (s.pc[h.t] == StorePrev(h.n, h.base) || s.prev == h.base))
  }

  ghost predicate Inv(s: State) {
    && |s.ring| > 0
    && HoldersOk(s)
    && RingOk(s)
    && PcsOk(s)
    && 0 <= s.prev <= Frontier(s)
    && AllCalled(s.called, Frontier(s))
  }

  /** A step that touches neither the word, prev nor the holders. */
  lemma QuietStep(s: State, s': State, t: nat)
    requires Inv(s) && t < |s.pc| == |s'.pc|
    requires s' == s.(pc := s'.pc, called := s'.called, ring := s'.ring) && |s'.ring| > 0
    requires s.called <= s'.called && RingOk(s')
    requires s'.pc == s.pc[t := s'.pc[t]] && PcOk(s', t, s'.pc[t]) && !s.pc[t].StorePrev?
    ensures Inv(s') && Frontier(s') == Frontier(s)
  {
    forall u | 0 <= u < |s'.pc| ensures PcOk(s', u, s'.pc[u]) {
      assert PcOk(s, u, s.pc[u]);
    }
  }

  /** A released word moves up to a number whose predecessors are all called. */
  lemma WordMoves(s: State, s': State, t: nat)
    requires Inv(s) && t < |s.pc| && s.word >= 0
    requires s' == s.(pc := s'.pc, word := s.word + 1) && s.word + 1 in s.called
    requires |s'.pc| == |s.pc| && s'.pc == s.pc[t := s'.pc[t]] && PcOk(s', t, s'.pc[t])
    ensures Inv(s') && Frontier(s) <= Frontier(s')
  {
    forall u | 0 <= u < |s'.pc| ensures PcOk(s', u, s'.pc[u]) {
      assert PcOk(s, u, s.pc[u]);
    }
  }

  lemma Acquires(s: State, m: Move)
    requires Inv(s) && Enabled(s, m) && s.pc[m.t].LockCas? && s.word == s.pc[m.t].base
    ensures Inv(Exec(s, m)) && Frontier(s) == Frontier(Exec(s, m))
  {
    var s' := Exec(s, m);
    assert PcOk(s, m.t, s.pc[m.t]);
    assert s'.holders == [Hold(m.t, s.pc[m.t].n, s.pc[m.t].base)];
    forall u | 0 <= u < |s'.pc| ensures PcOk(s', u, s'.pc[u]) {
      assert PcOk(s, u, s.pc[u]);
    }
  }

  lemma StoresPrev(s: State, m: Move)
    requires Inv(s) && Enabled(s, m) && s.pc[m.t].StorePrev?
    ensures Inv(Exec(s, m)) && Frontier(s) == Frontier(Exec(s, m))
  {
    var s' := Exec(s, m);
    assert PcOk(s, m.t, s.pc[m.t]);
    forall u | 0 <= u < |s'.pc| ensures PcOk(s', u, s'.pc[u]) {
      assert PcOk(s, u, s.pc[u]);
    }
  }

  lemma Releases(s: State, m: Move)
    requires Inv(s) && Enabled(s, m) && Disciplined(s, m)
    requires s.pc[m.t].UnlockCas? && s.word == 0 - s.pc[m.t].n
    ensures Inv(Exec(s, m)) && Frontier(s) <= Frontier(Exec(s, m))
  {
    var s' := Exec(s, m);
    assert PcOk(s, m.t, s.pc[m.t]);
    assert s.holders == [s.holders[0]] && s'.holders == [];
    forall u | 0 <= u < |s'.pc| ensures PcOk(s', u, s'.pc[u]) {
      assert PcOk(s, u, s.pc[u]);
    }
  }

  lemma CacheStep(s: State, m: Move)
    requires Inv(s) && Enabled(s, m)
    requires s.pc[m.t].CacheCas? || s.pc[m.t].CacheLoad? || s.pc[m.t].CacheSwap?
    ensures Inv(Exec(s, m)) && Frontier(s) == Frontier(Exec(s, m))
  {
    assert PcOk(s, m.t, s.pc[m.t]);
    QuietStep(s, Exec(s, m), m.t);
  }

  lemma ReleaseStep(s: State, m: Move)
    requires Inv(s) && Enabled(s, m)
    requires s.pc[m.t].RelLoad? || s.pc[m.t].RelCas? || s.pc[m.t].RelClear?
    ensures Inv(Exec(s, m)) && Frontier(s) <= Frontier(Exec(s, m))
  {
    assert PcOk(s, m.t, s.pc[m.t]);
    if s.pc[m.t].RelCas? && s.word == s.pc[m.t].c {
      WordMoves(s, Exec(s, m), m.t);
    } else {
      QuietStep(s, Exec(s, m), m.t);
    }
  }

  lemma CallStep(s: State, m: Move)
    requires Inv(s) && Enabled(s, m)
    requires s.pc[m.t].Idle? || (s.pc[m.t].LockCas? && s.word != s.pc[m.t].base)
             || (s.pc[m.t].UnlockCas? && s.word != 0 - s.pc[m.t].n)
    ensures Inv(Exec(s, m)) && Frontier(s) == Frontier(Exec(s, m))
  {
    assert PcOk(s, m.t, s.pc[m.t]);
    QuietStep(s, Exec(s, m), m.t);
  }

  /** One step keeps the invariant and never moves the frontier back. */
  lemma StepKeeps(s: State, m: Move)
    requires Inv(s) && Enabled(s, m) && Disciplined(s, m)
    ensures Inv(Exec(s, m))
    ensures Frontier(s) <= Frontier(Exec(s, m))
  {
    var p := s.pc[m.t];
    if p.LockCas? && s.word == p.base { Acquires(s, m); }
    else if p.StorePrev? { StoresPrev(s, m); }
    else if p.UnlockCas? && s.word == 0 - p.n { Releases(s, m); }
    else if p.Idle? || p.LockCas? || p.UnlockCas? { CallStep(s, m); }
    else if p.RelLoad? || p.RelCas? || p.RelClear? { ReleaseStep(s, m); }
    else { CacheStep(s, m); }
  }

  lemma {:induction false} RunKeeps(s: State, sched: seq<Move>)
    requires Inv(s) && IsRun(s, sched, true)
    ensures IsRun(s, sched, false)
    ensures Inv(Run(s, sched))
    ensures Frontier(s) <= Frontier(Run(s, sched))
    decreases |sched|
  {
    if sched != [] {
      StepKeeps(s, sched[0]);
      RunKeeps(Exec(s, sched[0]), sched[1..]);
    }
  }

  // ------------------------------------------------------------- every schedule

  lemma InitInv(queueSize: nat, threads: nat)
    requires queueSize > 0
    ensures Inv(Init(queueSize, threads))
  {
  }

  /**
   Safety of every disciplined schedule: at most one thread is inside the lock,
   and the word is negative exactly then; the thread inside with number n got
   in after UnLock had been called for every smaller number; and so has every
   number up to the frontier.
   */
  lemma LockIsSafe(queueSize: nat, threads: nat, sched: seq<Move>)
    requires queueSize > 0 && IsRun(Init(queueSize, threads), sched, true)
    ensures IsRun(Init(queueSize, threads), sched, false)
    ensures var s := Run(Init(queueSize, threads), sched);
            && |s.holders| <= 1
            && (s.word < 0 <==> s.holders != [])
            && (forall h :: h in s.holders ==> s.word == 0 - h.n && AllCalled(s.called, h.n - 1))
            && AllCalled(s.called, Frontier(s))
  {
    InitInv(queueSize, threads);
    RunKeeps(Init(queueSize, threads), sched);
  }

  /** The frontier never decreases, however a run is continued. */
  lemma FrontierIsMonotone(queueSize: nat, threads: nat, sched: seq<Move>, more: seq<Move>)
    requires queueSize > 0 && IsRun(Init(queueSize, threads), sched, true)
    requires IsRun(Init(queueSize, threads), sched, false)
    requires IsRun(Run(Init(queueSize, threads), sched), more, true)
    ensures IsRun(Run(Init(queueSize, threads), sched), more, false)
    ensures 0 <= Frontier(Run(Init(queueSize, threads), sched))
              <= Frontier(Run(Run(Init(queueSize, threads), sched), more))
  {
    InitInv(queueSize, threads);
    RunKeeps(Init(queueSize, threads), sched);
    RunKeeps(Run(Init(queueSize, threads), sched), more);
  }

  // ------------------------------------------------------------ one thread alone

  /** k steps of one thread. */
  function Alone(s: State, m: Move, k: nat): State
    requires Enabled(s, m)
    decreases k
  {
    if k == 0 then s else Alone(Exec(s, m), m, k - 1)
  }

  /**
   A waiting Lock helps itself: if the next number's unlock is in its entry, the waiting thread moves
   the free word over it, clears the entry and looks again.
   */
  lemma WaiterReleases(s: State, m: Move)
    requires Inv(s) && Enabled(s, m) && s.pc[m.t].LockCas?
    requires s.word >= 0 && s.word != s.pc[m.t].base && s.pc[m.t].n > s.word
    requires s.ring[Slot(s, s.word + 1)] == s.word + 1
    ensures var s', p := Alone(s, m, 4), s.pc[m.t];
            && s'.word == s.word + 1 && s'.ring == s.ring[Slot(s, s.word + 1) := 0]
            && s'.pc == s.pc[m.t := RelLoad(s.word + 1, ToLock(p.n, p.base))]
            && s'.holders == s.holders && s'.prev == s.prev
  {
    var p, c := s.pc[m.t], s.word;
    var s1 := Exec(s, m);
    assert s1 == Goto(s, m.t, RelLoad(c, ToLock(p.n, p.base)));
    var s2 := Exec(s1, m);
    assert s2 == Goto(s, m.t, RelCas(c, ToLock(p.n, p.base)));
    var s3 := Exec(s2, m);
    assert s3.word == c + 1 && s3.ring == s.ring && s3.pc == s.pc[m.t := RelClear(c, ToLock(p.n, p.base))];
    var s4 := Exec(s3, m);
    assert Alone(s4, m, 0) == s4 && Alone(s3, m, 1) == s4 && Alone(s2, m, 2) == s4 && Alone(s1, m, 3) == s4;
  }

  /** A Lock that finds the word it expects takes it, and one whose number is already released after one more look. */
  lemma WaiterTakes(s: State, m: Move)
    requires Inv(s) && Enabled(s, m) && s.pc[m.t].LockCas? && s.word >= 0
    requires s.word == s.pc[m.t].base || s.pc[m.t].n <= s.word
    ensures var s', p := Alone(s, m, if s.word == s.pc[m.t].base then 1 else 2), s.pc[m.t];
            s'.word == 0 - p.n && s'.holders == [Hold(m.t, p.n, s.word)] && s'.pc[m.t] == StorePrev(p.n, s.word)
  {
    var s1 := Exec(s, m);
    assert Alone(s1, m, 0) == s1 && Alone(s, m, 1) == s1;
    if s.word != s.pc[m.t].base {
      assert s1 == Goto(s, m.t, LockCas(s.pc[m.t].n, s.word));
      var s2 := Exec(s1, m);
      assert Alone(s2, m, 0) == s2 && Alone(s1, m, 1) == s2;
    }
  }

  /** The thread is inside a call of Lock(n). */
  predicate InLock(p: Pc, n: Sqn) {
    match p
    case LockCas(m, _) => m == n
    case StorePrev(m, _) => m == n
    case RelLoad(_, ret) => ret.ToLock? && ret.n == n
    case RelCas(_, ret) => ret.ToLock? && ret.n == n
    case RelClear(_, ret) => ret.ToLock? && ret.n == n
    case _ => false
  }

  /** A call of Lock returns only with the lock. */
  lemma LockReturnsHolding(s: State, m: Move, n: Sqn)
    requires Inv(s) && Enabled(s, m) && InLock(s.pc[m.t], n)
    ensures var s' := Exec(s, m);
            InLock(s'.pc[m.t], n) || (s'.pc[m.t].Idle? && |s'.holders| == 1 && s'.holders[0].t == m.t && s'.holders[0].n == n)
  {
    assert PcOk(s, m.t, s.pc[m.t]);
  }

  /** A call of UnLock returns with its number freed or in its entry, or with a larger one there. */
  lemma UnlockReturnsStored(s: State, m: Move)
    requires Inv(s) && Enabled(s, m) && (s.pc[m.t].CacheCas? || s.pc[m.t].CacheLoad? || s.pc[m.t].CacheSwap?)
    ensures var total, s' := s.pc[m.t].total, Exec(s, m);
            || ((s'.pc[m.t].CacheCas? || s'.pc[m.t].CacheLoad? || s'.pc[m.t].CacheSwap?) && s'.pc[m.t].total == total)
            || s'.ring[Slot(s', total)] >= total
  {
  }

  // ------------------------------------------------- what the steps do not promise

  ghost predicate ReachedBy(s0: State, sched: seq<Move>, disciplined: bool, s: State) {
    IsRun(s0, sched, disciplined) && IsRun(s0, sched, false) && Run(s0, sched) == s
  }

  ghost predicate Reachable(s0: State, disciplined: bool, s: State) {
    exists sched :: ReachedBy(s0, sched, disciplined, s)
  }

  lemma {:induction false} RunSnoc(s0: State, sched: seq<Move>, m: Move, disciplined: bool)
    requires IsRun(s0, sched, disciplined) && IsRun(s0, sched, false)
    requires Enabled(Run(s0, sched), m) && (disciplined ==> Disciplined(Run(s0, sched), m))
    ensures ReachedBy(s0, sched + [m], disciplined, Exec(Run(s0, sched), m))
    decreases |sched|
  {
    if sched == [] {
      assert IsRun(Exec(s0, m), [], disciplined);
      assert (sched + [m])[1..] == [];
    } else {
      assert (sched + [m])[1..] == sched[1..] + [m];
      RunSnoc(Exec(s0, sched[0]), sched[1..], m, disciplined);
    }
  }

  /** Equality of states, field by field. */
  predicate Same(a: State, b: State) {
    && a.word == b.word && a.prev == b.prev && a.ring == b.ring
    && a.pc == b.pc && a.holders == b.holders && a.called == b.called
  }

  lemma Extend(s0: State, disciplined: bool, s: State, m: Move, s': State)
    requires Reachable(s0, disciplined, s)
    requires Enabled(s, m) && (disciplined ==> Disciplined(s, m))
    requires Same(s', Exec(s, m))
    ensures Reachable(s0, disciplined, s')
  {
    var sched :| ReachedBy(s0, sched, disciplined, s);
    RunSnoc(s0, sched, m, disciplined);
  }

  /** Two entries, two threads, nothing called yet. */
  const S0 := State(0, 0, [0, 0], [Idle, Idle], [], {})

  lemma Start(disciplined: bool)
    ensures S0 == Init(2, 2) && Reachable(S0, disciplined, S0)
  {
    assert ReachedBy(S0, [], disciplined, S0);
  }

  /** Thread 0 enters UnLock(1) and caches 1. */
  lemma LostCalls()
    requires Reachable(S0, true, S0)
    ensures Reachable(S0, true, State(0, 0, [0, 1], [RelLoad(0, ToIdle), Idle], [], {1}))
  {
    var a := Move(0, CallUnlock(1));
    Extend(S0, true, S0, a,
           State(0, 0, [0, 0], [UnlockCas(1, 1), Idle], [], {1}));
    Extend(S0, true, State(0, 0, [0, 0], [UnlockCas(1, 1), Idle], [], {1}), a,  // the word is 0, not -1
           State(0, 0, [0, 0], [CacheCas(1, 0), Idle], [], {1}));
    Extend(S0, true, State(0, 0, [0, 0], [CacheCas(1, 0), Idle], [], {1}), a,  // entry := 1
           State(0, 0, [0, 1], [RelLoad(0, ToIdle), Idle], [], {1}));
  }

  /** It moves the word to 1; the entry is still to be cleared. */
  lemma LostFreesOne()
    requires Reachable(S0, true, State(0, 0, [0, 1], [RelLoad(0, ToIdle), Idle], [], {1}))
    ensures Reachable(S0, true, State(1, 0, [0, 1], [RelClear(0, ToIdle), Idle], [], {1}))
  {
    var a := Move(0, CallUnlock(1));
    Extend(S0, true, State(0, 0, [0, 1], [RelLoad(0, ToIdle), Idle], [], {1}), a,  // TryRelease(0) reads 1
           State(0, 0, [0, 1], [RelCas(0, ToIdle), Idle], [], {1}));
    Extend(S0, true, State(0, 0, [0, 1], [RelCas(0, ToIdle), Idle], [], {1}), a,  // word := 1
           State(1, 0, [0, 1], [RelClear(0, ToIdle), Idle], [], {1}));
  }

  /** Thread 1 enters UnLock(3) and finds the stale 1 in the same entry. */
  lemma LostCallsThree()
    requires Reachable(S0, true, State(1, 0, [0, 1], [RelClear(0, ToIdle), Idle], [], {1}))
    ensures Reachable(S0, true, State(1, 0, [0, 1], [RelClear(0, ToIdle), CacheLoad(3, 1)], [], {1, 3}))
  {
    var b := Move(1, CallUnlock(3));
    Extend(S0, true, State(1, 0, [0, 1], [RelClear(0, ToIdle), Idle], [], {1}), b,
           State(1, 0, [0, 1], [RelClear(0, ToIdle), UnlockCas(3, 3)], [], {1, 3}));
    Extend(S0, true, State(1, 0, [0, 1], [RelClear(0, ToIdle), UnlockCas(3, 3)], [], {1, 3}), b,  // the word is 1, not -3
           State(1, 0, [0, 1], [RelClear(0, ToIdle), CacheCas(3, 1)], [], {1, 3}));
    Extend(S0, true, State(1, 0, [0, 1], [RelClear(0, ToIdle), CacheCas(3, 1)], [], {1, 3}), b,  // the entry is not 0
           State(1, 0, [0, 1], [RelClear(0, ToIdle), CacheLoad(3, 1)], [], {1, 3}));
  }

  /** It replaces the 1 by 3. */
  lemma LostStoresThree()
    requires Reachable(S0, true, State(1, 0, [0, 1], [RelClear(0, ToIdle), CacheLoad(3, 1)], [], {1, 3}))
    ensures Reachable(S0, true, State(1, 0, [0, 3], [RelClear(0, ToIdle), Idle], [], {1, 3}))
  {
    var b := Move(1, CallUnlock(3));
    Extend(S0, true, State(1, 0, [0, 1], [RelClear(0, ToIdle), CacheLoad(3, 1)], [], {1, 3}), b,  // the entry is 1
           State(1, 0, [0, 1], [RelClear(0, ToIdle), CacheSwap(3, 1, 1)], [], {1, 3}));
    Extend(S0, true, State(1, 0, [0, 1], [RelClear(0, ToIdle), CacheSwap(3, 1, 1)], [], {1, 3}), b,  // entry := 3
           State(1, 0, [0, 3], [RelClear(0, ToIdle), RelLoad(1, ToIdle)], [], {1, 3}));
    Extend(S0, true, State(1, 0, [0, 3], [RelClear(0, ToIdle), RelLoad(1, ToIdle)], [], {1, 3}), b,  // TryRelease(1) finds no 2
           State(1, 0, [0, 3], [RelClear(0, ToIdle), Idle], [], {1, 3}));
  }

  /** Thread 0 clears the entry, erasing the 3. */
  lemma LostErasesThree()
    requires Reachable(S0, true, State(1, 0, [0, 3], [RelClear(0, ToIdle), Idle], [], {1, 3}))
    ensures Reachable(S0, true, State(1, 0, [0, 0], [Idle, Idle], [], {1, 3}))
  {
    var a := Move(0, CallUnlock(1));
    Extend(S0, true, State(1, 0, [0, 3], [RelClear(0, ToIdle), Idle], [], {1, 3}), a,  // entry := 0
           State(1, 0, [0, 0], [RelLoad(1, ToIdle), Idle], [], {1, 3}));
    Extend(S0, true, State(1, 0, [0, 0], [RelLoad(1, ToIdle), Idle], [], {1, 3}), a,  // TryRelease(1) finds no 2
           State(1, 0, [0, 0], [Idle, Idle], [], {1, 3}));
  }

  /**
   The store that clears an entry (the RelClear step) can erase a later unlock,
   even one at most a ring's length ahead.  After the run above, 1 and 3 are
   unlocked, every thread is idle and the word is 1, but no entry remembers 3.
   */
  lemma ClearLosesUnlock()
    ensures exists s :: Reachable(Init(2, 2), true, s)
              && s.pc == [Idle, Idle] && s.called == {1, 3}
              && s.word == 1 && s.ring == [0, 0]
  {
    Start(true);
    LostCalls();
    LostFreesOne();
    LostCallsThree();
    LostStoresThree();
    LostErasesThree();
  }

  /** Thread 0 locks 1. */
  lemma StrayLocks()
    requires Reachable(S0, false, S0)
    ensures Reachable(S0, false, State(-1, 0, [0, 0], [Idle, Idle], [Hold(0, 1, 0)], {}))
  {
    var l := Move(0, CallLock(1));
    Extend(S0, false, S0, l,
           State(0, 0, [0, 0], [LockCas(1, 0), Idle], [], {}));
    Extend(S0, false, State(0, 0, [0, 0], [LockCas(1, 0), Idle], [], {}), l,  // word := -1
           State(-1, 0, [0, 0], [StorePrev(1, 0), Idle], [Hold(0, 1, 0)], {}));
    Extend(S0, false, State(-1, 0, [0, 0], [StorePrev(1, 0), Idle], [Hold(0, 1, 0)], {}), l,  // prev := 0
           State(-1, 0, [0, 0], [Idle, Idle], [Hold(0, 1, 0)], {}));
  }

  /** Thread 0 unlocks 1. */
  lemma StrayUnlocks()
    requires Reachable(S0, false, State(-1, 0, [0, 0], [Idle, Idle], [Hold(0, 1, 0)], {}))
    ensures Reachable(S0, false, State(1, 0, [0, 0], [Idle, Idle], [], {1}))
  {
    var u := Move(0, CallUnlock(1));
    Extend(S0, false, State(-1, 0, [0, 0], [Idle, Idle], [Hold(0, 1, 0)], {}), u,
           State(-1, 0, [0, 0], [UnlockCas(1, 1), Idle], [Hold(0, 1, 0)], {1}));
    Extend(S0, false, State(-1, 0, [0, 0], [UnlockCas(1, 1), Idle], [Hold(0, 1, 0)], {1}), u,  // word := 1
           State(1, 0, [0, 0], [RelLoad(1, ToIdle), Idle], [], {1}));
    Extend(S0, false, State(1, 0, [0, 0], [RelLoad(1, ToIdle), Idle], [], {1}), u,  // TryRelease(1) finds no 2
           State(1, 0, [0, 0], [Idle, Idle], [], {1}));
  }

  /** Thread 1 locks 1 again through the re-lock path. */
  lemma StrayRelocks()
    requires Reachable(S0, false, State(1, 0, [0, 0], [Idle, Idle], [], {1}))
    ensures Reachable(S0, false, State(-1, 1, [0, 0], [Idle, Idle], [Hold(1, 1, 1)], {1}))
  {
    var k := Move(1, CallLock(1));
    Extend(S0, false, State(1, 0, [0, 0], [Idle, Idle], [], {1}), k,
           State(1, 0, [0, 0], [Idle, LockCas(1, 0)], [], {1}));
    Extend(S0, false, State(1, 0, [0, 0], [Idle, LockCas(1, 0)], [], {1}), k,  // the word is 1: lock from 1
           State(1, 0, [0, 0], [Idle, LockCas(1, 1)], [], {1}));
    Extend(S0, false, State(1, 0, [0, 0], [Idle, LockCas(1, 1)], [], {1}), k,  // word := -1
           State(-1, 0, [0, 0], [Idle, StorePrev(1, 1)], [Hold(1, 1, 1)], {1}));
    Extend(S0, false, State(-1, 0, [0, 0], [Idle, StorePrev(1, 1)], [Hold(1, 1, 1)], {1}), k,  // prev := 1
           State(-1, 1, [0, 0], [Idle, Idle], [Hold(1, 1, 1)], {1}));
  }

  /** A second UnLock(1) of thread 0 frees the word. */
  lemma StrayFrees()
    requires Reachable(S0, false, State(-1, 1, [0, 0], [Idle, Idle], [Hold(1, 1, 1)], {1}))
    ensures Reachable(S0, false, State(1, 1, [0, 0], [Idle, Idle], [Hold(1, 1, 1)], {1}))
  {
    var u := Move(0, CallUnlock(1));
    Extend(S0, false, State(-1, 1, [0, 0], [Idle, Idle], [Hold(1, 1, 1)], {1}), u,
           State(-1, 1, [0, 0], [UnlockCas(1, 1), Idle], [Hold(1, 1, 1)], {1}));
    Extend(S0, false, State(-1, 1, [0, 0], [UnlockCas(1, 1), Idle], [Hold(1, 1, 1)], {1}), u,  // frees the word of thread 1
           State(1, 1, [0, 0], [RelLoad(1, ToIdle), Idle], [Hold(1, 1, 1)], {1}));
    Extend(S0, false, State(1, 1, [0, 0], [RelLoad(1, ToIdle), Idle], [Hold(1, 1, 1)], {1}), u,
           State(1, 1, [0, 0], [Idle, Idle], [Hold(1, 1, 1)], {1}));
  }

  /** Thread 0 locks 2 while thread 1 is still inside. */
  lemma StrayLocksTwo()
    requires Reachable(S0, false, State(1, 1, [0, 0], [Idle, Idle], [Hold(1, 1, 1)], {1}))
    ensures Reachable(S0, false, State(-2, 1, [0, 0], [StorePrev(2, 1), Idle], [Hold(1, 1, 1), Hold(0, 2, 1)], {1}))
  {
    var m := Move(0, CallLock(2));
    Extend(S0, false, State(1, 1, [0, 0], [Idle, Idle], [Hold(1, 1, 1)], {1}), m,
           State(1, 1, [0, 0], [LockCas(2, 1), Idle], [Hold(1, 1, 1)], {1}));
    Extend(S0, false, State(1, 1, [0, 0], [LockCas(2, 1), Idle], [Hold(1, 1, 1)], {1}), m,  // word := -2
           State(-2, 1, [0, 0], [StorePrev(2, 1), Idle], [Hold(1, 1, 1), Hold(0, 2, 1)], {1}));
  }

  /**
   Without the client rule mutual exclusion fails: a second UnLock(1) of a
   thread that is not inside frees the word under the thread that is.
   */
  lemma StrayUnlockBreaksExclusion()
    ensures exists s :: Reachable(Init(2, 2), false, s) && |s.holders| == 2
              && s.holders[0].t != s.holders[1].t
  {
    Start(false);
    StrayLocks();
    StrayUnlocks();
    StrayRelocks();
    StrayFrees();
    StrayLocksTwo();
  }
}
