/**
 The advance follower of one shard: a trial process runs every rx item first
 and publishes its progress in the shared launch block; the realtime process
 runs an item only after the trial has finished it.  When a trial dies inside
 an application callback, realtime discards the message that killed it and
 forks a new trial.  Agent, trial and realtime interleave step by step.
 */
module Follower {

  /** An entry of an rx queue. */
  datatype Item = Msg(sqn: int) | Event | Post

  /** An entry of the realtime tx queue. */
  datatype Tx = Send(x: int) | Done(sqn: int) | Discard(sqn: int)

  /** Under its lock the agent posts each item to both queues, one after the other. */
  datatype Owe = Nothing | OweRealtime(item: Item) | OweTrial(item: Item)

  datatype TrialPc =
    | TPoll
    | TInside(item: Item)    // inside the application callback
    | TReturned              // the callback has returned
    | TCommitted             // progress is published, the entry not yet freed
    | TDead

  datatype RealtimePc =
    | RPoll
    | RWait                  // holds an entry, waits for the trial
    | RInside(item: Item)    // inside the application callback
    | RFix(idle: bool)       // has seen the trial dead; idle: found no entry
    | RFork(idle: bool)      // about to fork

  /** What realtime did with one item. */
  datatype Outcome = Handled(sends: seq<int>) | Discarded

  /**
   `postedT`/`postedR` are all entries ever posted to the trial and realtime rx
   queues, `freedT`/`freedR` how many were freed.  `delivered`, `processed` and
   `shm` are the launch block.  `trialOnRealtime` says which queue the trial's
   local queue address designates.  `log`, `completed` and `crashed` are history.
   */
  datatype State = State(
    postedT: seq<Item>, freedT: nat,
    postedR: seq<Item>, freedR: nat,
    owe: Owe, lastSqn: int,
    delivered: int, processed: int, shm: int,
    trial: TrialPc, trialShm: int, trialOnRealtime: bool,
    rt: RealtimePc, rtShm: int, sending: seq<int>,
    tx: seq<Tx>,
    log: seq<Outcome>, completed: set<nat>, crashed: set<nat>)

  datatype Act =
    | PostMsg(sqn: int)      // first half: to the trial queue
    | PostOther(item: Item)  // first half: to the realtime queue
    | PostSecond             // second half
    | TrialBegin | TrialCrash | TrialReturn | TrialCommit | TrialFree
    | RtSee | RtBegin | RtSend(x: int) | RtFinish
    | RtFixWaiting           // WaitTrialProcess finds the trial dead
    | RtFixIdle              // CheckAndFixTrial finds the trial dead
    | RtSkip | RtNoSkip | RtFork

  const Init := State([], 0, [], 0, Nothing, 0, 0, 0, 0, TPoll, 0, false, RPoll, 0, [], [], [], {}, {})

  // ------------------------------------------------------------------- the steps

  /** The position in its queue of the entry the trial looks at. */
  function TrialAt(s: State): nat { if s.trialOnRealtime then s.freedR else s.freedT }

  function TrialQueue(s: State): seq<Item> { if s.trialOnRealtime then s.postedR else s.postedT }

  function SqnOf(i: Item): int { if i.Msg? then i.sqn else 0 }

  predicate Can(s: State, a: Act) {
    match a
    case PostMsg(sqn) => s.owe.Nothing? && sqn > s.lastSqn
    case PostOther(item) => s.owe.Nothing? && !item.Msg?
    case PostSecond => !s.owe.Nothing?
    case TrialBegin => s.trial.TPoll? && TrialAt(s) < |TrialQueue(s)|
    case TrialCrash => s.trial.TInside?
    case TrialReturn => s.trial.TInside?
    case TrialCommit => s.trial.TReturned?
    case TrialFree => s.trial.TCommitted?
    case RtSee => s.rt.RPoll? && s.freedR < |s.postedR|
    case RtBegin => s.rt.RWait? && s.rtShm < s.shm && s.freedR < |s.postedR|
    case RtSend(_) => s.rt.RInside?
    case RtFinish => s.rt.RInside?
    case RtFixWaiting => s.rt.RWait? && s.trial.TDead? && s.rtShm >= s.shm
    case RtFixIdle => s.rt.RPoll? && s.freedR >= |s.postedR| && s.trial.TDead? && s.rtShm >= s.shm
    case RtSkip => s.rt.RFix? && s.processed != s.delivered
                   && s.freedR < |s.postedR| && s.freedT < |s.postedT|
    case RtNoSkip => s.rt.RFix? && s.processed == s.delivered
    case RtFork => s.rt.RFork?
  }

  function Do(s: State, a: Act): State
    requires Can(s, a)
  {
    match a
    case PostMsg(sqn) =>
      s.(postedT := s.postedT + [Msg(sqn)], owe := OweRealtime(Msg(sqn)), lastSqn := sqn)
    case PostOther(item) => s.(postedR := s.postedR + [item], owe := OweTrial(item))
    case PostSecond =>
      (match s.owe
       case OweRealtime(item) => s.(postedR := s.postedR + [item], owe := Nothing)
       case OweTrial(item) => s.(postedT := s.postedT + [item], owe := Nothing))
    case TrialBegin =>
      var item := TrialQueue(s)[TrialAt(s)];
      s.(trial := TInside(item), delivered := if item.Msg? then item.sqn else s.delivered)
    case TrialCrash => s.(trial := TDead, crashed := s.crashed + {TrialAt(s)})
    case TrialReturn =>
      s.(trial := TReturned, processed := if s.trial.item.Msg? then s.trial.item.sqn else s.processed)
    case TrialCommit =>
      s.(trial := TCommitted, trialShm := s.trialShm + 1, shm := s.trialShm + 1,
         completed := s.completed + {TrialAt(s)})
    case TrialFree =>
      if s.trialOnRealtime then s.(trial := TPoll, freedR := s.freedR + 1)
      else s.(trial := TPoll, freedT := s.freedT + 1)
    case RtSee => s.(rt := RWait)
    case RtBegin => s.(rt := RInside(s.postedR[s.freedR]), sending := [])
    case RtSend(x) => s.(tx := s.tx + [Send(x)], sending := s.sending + [x])
    case RtFinish =>
      s.(rt := RPoll, rtShm := s.rtShm + 1, freedR := s.freedR + 1,
         tx := s.tx + (if s.rt.item.Msg? then [Done(s.rt.item.sqn)] else []),
         log := s.log + [Handled(s.sending)], sending := [])
    case RtFixWaiting => s.(rt := RFix(false))
    case RtFixIdle => s.(rt := RFix(true))
    case RtSkip =>
      var sqn := SqnOf(s.postedR[s.freedR]);
      s.(rt := RFork(s.rt.idle), freedR := s.freedR + 1, freedT := s.freedT + 1,
         processed := sqn, rtShm := s.rtShm + 1, shm := s.rtShm + 1,
         tx := s.tx + [Discard(sqn), Done(sqn)], log := s.log + [Discarded])
    case RtNoSkip => s.(rt := RFork(s.rt.idle))
    case RtFork =>
      // In the child, the waiting path reloads the local queue address after
      // the fork; the idle path continues with the realtime queue it was polling.
      s.(rt := RPoll, trial := TPoll, trialShm := s.rtShm, trialOnRealtime := s.rt.idle)
  }

  // ----------------------------------------------------------------- correctness

  /** The tx entries that the outcomes of items[0..|log|] amount to. */
  function Render(items: seq<Item>, log: seq<Outcome>): seq<Tx>
    requires |log| <= |items|
  {
    if log == [] then []
    else
      var k := |log| - 1;
      Render(items, log[..k]) + RenderOne(items[k], log[k])
  }

  function Sends(xs: seq<int>): seq<Tx> { seq(|xs|, i requires 0 <= i < |xs| => Send(xs[i])) }

  /** A handled item: its sends, then one Done; a discarded one: Discard and Done. */
  function RenderOne(item: Item, o: Outcome): seq<Tx> {
    match o
    case Handled(sends) => Sends(sends) + (if item.Msg? then [Done(item.sqn)] else [])
    case Discarded => [Discard(SqnOf(item)), Done(SqnOf(item))]
  }

  /** Both queues receive the same items in the same order. */
  ghost predicate QueuesOk(s: State) {
    && (match s.owe
        case Nothing => s.postedT == s.postedR
        case OweRealtime(item) => item.Msg? && s.postedT == s.postedR + [item]
        case OweTrial(item) => !item.Msg? && s.postedR == s.postedT + [item])
    && s.freedT <= |s.postedT| && s.freedR <= |s.postedR|
    && Increasing(s.postedT, s.lastSqn)
  }

  /** Message numbers grow along the queue, from 1 to `last`. */
  ghost predicate Increasing(items: seq<Item>, last: int) {
    && last >= 0
    && (forall i :: 0 <= i < |items| && items[i].Msg? ==> 1 <= items[i].sqn <= last)
    && (forall i, j :: 0 <= i < j < |items| && items[i].Msg? && items[j].Msg? ==> items[i].sqn < items[j].sqn)
  }

  /** The trial holds an entry: the head of its queue. */
  predicate Busy(t: TrialPc) { t.TInside? || t.TReturned? || t.TCommitted? || t.TDead? }

  /** Messages from position `at` on are numbered above `processed`. */
  ghost predicate Ahead(items: seq<Item>, at: int, processed: int) {
    forall i :: at <= i < |items| && 0 <= i && items[i].Msg? ==> items[i].sqn > processed
  }

  /** Realtime has dealt with the crash and is about to fork. */
  predicate Skipped(s: State) { s.rt.RFork? }

  ghost predicate TrialOk(s: State) {
    && !s.trialOnRealtime
    && s.shm == (if s.trial.TCommitted? then s.freedT + 1 else s.freedT)
    && (!s.trial.TDead? ==> s.trialShm == s.shm)
    && (Busy(s.trial) && !(s.trial.TDead? && Skipped(s)) ==> s.freedT < |s.postedT|)
    && s.processed <= s.lastSqn
    && (match s.trial
        case TPoll => s.delivered == s.processed && Ahead(s.postedT, s.freedT, s.processed)
        case TInside(item) => item == s.postedT[s.freedT] && InCallback(s)
        case TReturned => s.delivered == s.processed && Ahead(s.postedT, s.freedT + 1, s.processed)
        case TCommitted => s.delivered == s.processed && Ahead(s.postedT, s.freedT + 1, s.processed)
        case TDead => if Skipped(s) then s.delivered == s.processed && Ahead(s.postedT, s.freedT, s.processed)
                      else InCallback(s))
  }

  /** The launch block while a callback runs on the head of the trial queue. */
  ghost predicate InCallback(s: State)
    requires s.freedT < |s.postedT|
  {
    var item := s.postedT[s.freedT];
    && Ahead(s.postedT, s.freedT, s.processed)
    && s.delivered == (if item.Msg? then item.sqn else s.processed)
  }

  predicate RealtimeOk(s: State) {
    && s.rtShm == s.freedR == |s.log|
    && s.freedR <= s.shm
    && (match s.rt
        case RPoll => s.sending == []
        case RWait => s.freedR < |s.postedR| && s.sending == []
        case RInside(item) => s.freedR < |s.postedR| && item == s.postedR[s.freedR] && s.freedR < s.shm
        case RFix(idle) => !idle && s.trial.TDead? && s.rtShm == s.shm && s.freedR < |s.postedR| && s.sending == []
        case RFork(idle) => !idle && s.trial.TDead? && s.rtShm == s.shm && s.sending == [])
  }

  ghost predicate HistoryOk(s: State) {
    && (forall i :: 0 <= i < |s.log| && s.log[i].Handled? ==> i in s.completed)
    && (forall i :: 0 <= i < |s.log| && s.log[i].Discarded? ==> i < |s.postedT| && s.postedT[i].Msg? && i in s.crashed)
    && (forall i :: |s.log| <= i < s.shm ==> i in s.completed)
    && (forall i :: i in s.completed ==> i < s.shm)
    && (forall i :: i in s.crashed ==> CrashOk(s, i))
    && (s.trial.TDead? && !Skipped(s) ==> s.freedT in s.crashed)
  }

  /** A message that killed a trial is discarded, or still waits to be. */
  predicate CrashOk(s: State, i: nat) {
    && i < |s.postedT| && i <= s.freedT
    && (s.postedT[i].Msg? ==>
          if i < |s.log| then s.log[i].Discarded?
          else i == s.freedT && s.trial.TDead? && !Skipped(s))
  }

  ghost predicate TxOk(s: State) {
    |s.log| <= |s.postedR| && s.tx == Render(s.postedR, s.log) + Sends(s.sending)
  }

  ghost predicate Inv(s: State) {
    QueuesOk(s) && TrialOk(s) && RealtimeOk(s) && HistoryOk(s) && TxOk(s)
  }

  /** s' has more entries posted than s, and differs in nothing else. */
  ghost predicate Longer(s: State, s': State) {
    && s' == s.(postedT := s'.postedT, postedR := s'.postedR, owe := s'.owe, lastSqn := s'.lastSqn)
    && s.postedT <= s'.postedT && s.postedR <= s'.postedR && s.lastSqn <= s'.lastSqn
  }

  lemma PostTrialOk(s: State, s': State)
    requires QueuesOk(s) && TrialOk(s) && Longer(s, s')
    requires forall i :: |s.postedT| <= i < |s'.postedT| && s'.postedT[i].Msg? ==> s'.postedT[i].sqn > s.processed
    ensures TrialOk(s')
  {
    assert forall i :: 0 <= i < |s.postedT| ==> s'.postedT[i] == s.postedT[i];
  }

  lemma PostOthersOk(s: State, s': State)
    requires Inv(s) && Longer(s, s')
    ensures RealtimeOk(s') && HistoryOk(s') && TxOk(s')
  {
    RenderPrefix(s.postedR, s'.postedR, s.log);
    assert forall i :: 0 <= i < |s.postedT| ==> s'.postedT[i] == s.postedT[i];
    assert forall i :: i in s.crashed ==> CrashOk(s, i) && CrashOk(s', i);
  }

  lemma PostKeeps(s: State, a: Act)
    requires Inv(s) && Can(s, a) && (a.PostMsg? || a.PostOther? || a.PostSecond?)
    ensures Inv(Do(s, a))
  {
    var s' := Do(s, a);
    PostQueuesOk(s, a);
    PostTrialOk(s, s');
    PostOthersOk(s, s');
  }

  lemma PostQueuesOk(s: State, a: Act)
    requires QueuesOk(s) && TrialOk(s) && Can(s, a) && (a.PostMsg? || a.PostOther? || a.PostSecond?)
    ensures QueuesOk(Do(s, a)) && Longer(s, Do(s, a))
    ensures var s' := Do(s, a);
            forall i :: |s.postedT| <= i < |s'.postedT| && s'.postedT[i].Msg? ==> s'.postedT[i].sqn > s.processed
  {
  }

  lemma {:induction false} RenderPrefix(items: seq<Item>, items': seq<Item>, log: seq<Outcome>)
    requires |log| <= |items| && items <= items'
    ensures Render(items, log) == Render(items', log)
  {
    if log != [] {
      RenderPrefix(items, items', log[..|log| - 1]);
    }
  }

  lemma TrialKeeps(s: State, a: Act)
    requires Inv(s) && Can(s, a)
    requires a.TrialBegin? || a.TrialCrash? || a.TrialReturn? || a.TrialCommit? || a.TrialFree?
    ensures Inv(Do(s, a))
  {
    var s' := Do(s, a);
    TrialCrashes(s, a);
    assert QueuesOk(s') && RealtimeOk(s') && TxOk(s');
    assert TrialOk(s');
  }

  lemma TrialCrashes(s: State, a: Act)
    requires Inv(s) && Can(s, a)
    requires a.TrialBegin? || a.TrialCrash? || a.TrialReturn? || a.TrialCommit? || a.TrialFree?
    ensures HistoryOk(Do(s, a))
  {
    var s' := Do(s, a);
    assert forall i :: i in s.crashed ==> CrashOk(s, i);
    assert forall i :: i in s'.crashed ==> CrashOk(s', i);
  }

  lemma RealtimeKeeps(s: State, a: Act)
    requires Inv(s) && Can(s, a)
    requires a.RtSee? || a.RtBegin? || a.RtSend? || a.RtFixWaiting?
    ensures Inv(Do(s, a))
  {
    var s' := Do(s, a);
    RealtimeHistory(s, a);
    RealtimeTx(s, a);
    assert QueuesOk(s') && TrialOk(s');
    assert RealtimeOk(s');
  }

  lemma RealtimeTx(s: State, a: Act)
    requires RealtimeOk(s) && TxOk(s) && Can(s, a)
    requires a.RtSee? || a.RtBegin? || a.RtSend? || a.RtFixWaiting?
    ensures TxOk(Do(s, a))
  {
    if a.RtSend? {
      assert Sends(Do(s, a).sending) == Sends(s.sending) + [Send(a.x)];
    }
  }

  lemma RealtimeHistory(s: State, a: Act)
    requires Inv(s) && Can(s, a)
    requires a.RtSee? || a.RtBegin? || a.RtSend? || a.RtFixWaiting?
    ensures HistoryOk(Do(s, a))
  {
    var s' := Do(s, a);
    assert forall i :: i in s.crashed ==> CrashOk(s, i) && CrashOk(s', i);
  }

  lemma ForkKeeps(s: State, a: Act)
    requires Inv(s) && Can(s, a) && (a.RtNoSkip? || a.RtFork?)
    ensures Inv(Do(s, a))
  {
    var s' := Do(s, a);
    assert HistoryOk(s') by { assert forall i :: i in s.crashed ==> CrashOk(s, i) && CrashOk(s', i); }
  }

  lemma FinishKeeps(s: State)
    requires Inv(s) && Can(s, RtFinish)
    ensures Inv(Do(s, RtFinish))
  {
    var s' := Do(s, RtFinish);
    assert QueuesOk(s') && TrialOk(s') && RealtimeOk(s');
    FinishHistory(s);
    FinishTx(s);
  }

  lemma FinishHistory(s: State)
    requires Inv(s) && Can(s, RtFinish)
    ensures HistoryOk(Do(s, RtFinish))
  {
    var s' := Do(s, RtFinish);
    assert forall i :: i in s.crashed ==> CrashOk(s, i) && CrashOk(s', i);
  }

  lemma FinishTx(s: State)
    requires Inv(s) && Can(s, RtFinish)
    ensures TxOk(Do(s, RtFinish))
  {
    var s' := Do(s, RtFinish);
    assert s'.log[..|s.log|] == s.log;
  }

  /** The asserts of OnTrialError and StartTrialProcess. */
  predicate AssertsHold(s: State) {
    s.rt.RFix? && s.processed != s.delivered ==>
      && s.delivered >= s.processed + 1
      && s.freedT < |s.postedT| && s.freedR < |s.postedR|
      && s.postedR[s.freedR].Msg? && s.postedT[s.freedT].Msg?
      && s.postedR[s.freedR].sqn == s.postedT[s.freedT].sqn == s.delivered
      && s.rtShm == s.shm
  }

  lemma FixAsserts(s: State)
    requires Inv(s)
    ensures AssertsHold(s)
    ensures s.rt.RFork? ==> s.delivered == s.processed
  {
  }

  lemma SkipKeeps(s: State)
    requires Inv(s) && Can(s, RtSkip)
    ensures Inv(Do(s, RtSkip))
  {
    var s' := Do(s, RtSkip);
    FixAsserts(s);
    SkipHistory(s);
    SkipTx(s);
    assert QueuesOk(s') && RealtimeOk(s');
    assert TrialOk(s');
  }

  lemma SkipTx(s: State)
    requires RealtimeOk(s) && TxOk(s) && Can(s, RtSkip) && s.postedR[s.freedR].Msg?
    ensures TxOk(Do(s, RtSkip))
  {
    var s' := Do(s, RtSkip);
    assert s'.log[..|s.log|] == s.log;
  }

  lemma SkipHistory(s: State)
    requires Inv(s) && Can(s, RtSkip)
    ensures HistoryOk(Do(s, RtSkip))
  {
    var s' := Do(s, RtSkip);
    FixAsserts(s);
    assert forall i :: i in s.crashed ==> CrashOk(s, i) && CrashOk(s', i);
  }

  lemma StepKeeps(s: State, a: Act)
    requires Inv(s) && Can(s, a) && !a.RtFixIdle?
    ensures Inv(Do(s, a))
  {
    match a
    case PostMsg(_) => PostKeeps(s, a);
    case PostOther(_) => PostKeeps(s, a);
    case PostSecond => PostKeeps(s, a);
    case RtFinish => FinishKeeps(s);
    case RtSkip => SkipKeeps(s);
    case RtNoSkip => ForkKeeps(s, a);
    case RtFork => ForkKeeps(s, a);
    case RtSee => RealtimeKeeps(s, a);
    case RtBegin => RealtimeKeeps(s, a);
    case RtSend(_) => RealtimeKeeps(s, a);
    case RtFixWaiting => RealtimeKeeps(s, a);
    case _ => TrialKeeps(s, a);
  }

  // ------------------------------------------------------------------- every run

  predicate IsRun(s: State, acts: seq<Act>)
    decreases |acts|
  {
    acts == [] || (Can(s, acts[0]) && IsRun(Do(s, acts[0]), acts[1..]))
  }

  function Run(s: State, acts: seq<Act>): State
    requires IsRun(s, acts)
    decreases |acts|
  {
    if acts == [] then s else Run(Do(s, acts[0]), acts[1..])
  }

  lemma {:induction false} RunKeeps(s: State, acts: seq<Act>)
    requires Inv(s) && IsRun(s, acts) && RtFixIdle !in acts
    ensures Inv(Run(s, acts))
    decreases |acts|
  {
    if acts != [] {
      StepKeeps(s, acts[0]);
      RunKeeps(Do(s, acts[0]), acts[1..]);
    }
  }

  /** The numbers of the Done entries, in order. */
  function Dones(tx: seq<Tx>): seq<int> {
    if tx == [] then []
    else Dones(tx[..|tx| - 1]) + (if tx[|tx| - 1].Done? then [tx[|tx| - 1].sqn] else [])
  }

  /** The numbers of the messages among the items, in order. */
  function Sqns(items: seq<Item>): seq<int> {
    if items == [] then []
    else Sqns(items[..|items| - 1]) + (if items[|items| - 1].Msg? then [items[|items| - 1].sqn] else [])
  }

  lemma {:induction false} DonesConcat(a: seq<Tx>, b: seq<Tx>)
    ensures Dones(a + b) == Dones(a) + Dones(b)
  {
    if b == [] {
      assert a + b == a;
    } else {
      assert (a + b)[..|a + b| - 1] == a + b[..|b| - 1];
      DonesConcat(a, b[..|b| - 1]);
    }
  }

  lemma {:induction false} SendsHaveNoDone(xs: seq<int>)
    ensures Dones(Sends(xs)) == []
  {
    if xs != [] {
      assert Sends(xs)[..|xs| - 1] == Sends(xs[..|xs| - 1]);
      SendsHaveNoDone(xs[..|xs| - 1]);
    }
  }

  lemma DonesOfOne(item: Item, o: Outcome)
    requires o.Discarded? ==> item.Msg?
    ensures Dones(RenderOne(item, o)) == if item.Msg? then [item.sqn] else []
  {
    match o
    case Handled(sends) =>
      var d := if item.Msg? then [Done(item.sqn)] else [];
      DonesConcat(Sends(sends), d);
      SendsHaveNoDone(sends);
      assert item.Msg? ==> d[..0] == [] && Dones(d) == Dones([]) + [item.sqn];
    case Discarded =>
      var d := [Discard(item.sqn), Done(item.sqn)];
      assert d[..1] == [Discard(item.sqn)] && d[..1][..0] == [];
      assert Dones(d[..1]) == Dones(d[..1][..0]) + [];
  }

  /** One Done for each message dealt with, in queue order. */
  lemma {:induction false} DonesOfRender(items: seq<Item>, log: seq<Outcome>)
    requires |log| <= |items|
    requires forall i :: 0 <= i < |log| && log[i].Discarded? ==> items[i].Msg?
    ensures Dones(Render(items, log)) == Sqns(items[..|log|])
  {
    if log != [] {
      var k := |log| - 1;
      DonesOfRender(items, log[..k]);
      DonesConcat(Render(items, log[..k]), RenderOne(items[k], log[k]));
      DonesOfOne(items[k], log[k]);
      assert items[..|log|][..k] == items[..k];
    }
  }

  /**
   Every run that never restarts a trial from the idle poll: realtime runs an
   item only after a trial has completed it; a message that killed a trial is
   never run but discarded, and only such messages are; each entry freed from
   the realtime queue has one outcome, and the tx queue holds those outcomes,
   with one Done for each message in order; the asserts of the restart hold.
   */
  lemma FollowerIsSafe(acts: seq<Act>)
    requires IsRun(Init, acts) && RtFixIdle !in acts
    ensures var s := Run(Init, acts);
            && (s.postedR <= s.postedT || s.postedT <= s.postedR)
            && -1 <= |s.postedT| - |s.postedR| <= 1
            && |s.log| == s.freedR <= |s.postedR| && s.freedR <= s.shm
            && (s.rt.RInside? ==> s.freedR in s.completed)
            && (s.rt.RInside? && s.rt.item.Msg? ==> s.freedR !in s.crashed)
            && (forall i :: 0 <= i < |s.log| && s.log[i].Handled? ==> i in s.completed)
            && (forall i :: 0 <= i < |s.log| && i < |s.postedT| && s.postedT[i].Msg? ==>
                  (s.log[i].Discarded? <==> i in s.crashed))
            && s.tx == Render(s.postedR, s.log) + Sends(s.sending)
            && Dones(s.tx) == Sqns(s.postedR[..s.freedR])
            && AssertsHold(s) && (s.rt.RFork? ==> s.delivered == s.processed)
  {
    RunKeeps(Init, acts);
    var s := Run(Init, acts);
    FixAsserts(s);
    assert forall i :: i in s.crashed ==> CrashOk(s, i);
    SafeDones(s);
  }

  lemma SafeDones(s: State)
    requires Inv(s)
    ensures Dones(s.tx) == Sqns(s.postedR[..s.freedR])
  {
    DonesOfRender(s.postedR, s.log);
    DonesConcat(Render(s.postedR, s.log), Sends(s.sending));
    SendsHaveNoDone(s.sending);
  }

  // ------------------------------------------------------- what the acts ask for

  /** What the agent posts, by the acts. */
  function ItemOf(a: Act): seq<Item> {
    if a.PostMsg? then [Msg(a.sqn)] else if a.PostOther? then [a.item] else []
  }

  function ItemsOf(acts: seq<Act>): seq<Item>
    decreases |acts|
  {
    if acts == [] then [] else ItemOf(acts[0]) + ItemsOf(acts[1..])
  }

  /** What realtime's callbacks send, by the acts. */
  function SendOf(a: Act): seq<int> { if a.RtSend? then [a.x] else [] }

  function SendsOf(acts: seq<Act>): seq<int>
    decreases |acts|
  {
    if acts == [] then [] else SendOf(acts[0]) + SendsOf(acts[1..])
  }

  /** The queue that has received everything posted. */
  function Posted(s: State): seq<Item> { if s.owe.OweTrial? then s.postedR else s.postedT }

  /** What the handled items sent, in order. */
  function AllSends(log: seq<Outcome>): seq<int> {
    if log == [] then []
    else
      var last := log[|log| - 1];
      AllSends(log[..|log| - 1]) + (if last.Handled? then last.sends else [])
  }

  lemma AllSendsSnoc(log: seq<Outcome>, o: Outcome)
    ensures AllSends(log + [o]) == AllSends(log) + (if o.Handled? then o.sends else [])
  {
    assert (log + [o])[..|log|] == log;
  }

  /** One step posts and sends exactly what its act says. */
  lemma ActStep(s: State, a: Act)
    requires Inv(s) && Can(s, a) && !a.RtFixIdle?
    ensures var s' := Do(s, a);
            && Posted(s') == Posted(s) + ItemOf(a)
            && AllSends(s'.log) + s'.sending == AllSends(s.log) + s.sending + SendOf(a)
  {
    PostStep(s, a);
    SendStep(s, a);
  }

  lemma PostStep(s: State, a: Act)
    requires QueuesOk(s) && Can(s, a) && !a.RtFixIdle?
    ensures Posted(Do(s, a)) == Posted(s) + ItemOf(a)
  {
    EmptyJoins(Posted(s));
  }

  lemma SendStep(s: State, a: Act)
    requires RealtimeOk(s) && Can(s, a) && !a.RtFixIdle?
    ensures var s' := Do(s, a); AllSends(s'.log) + s'.sending == AllSends(s.log) + s.sending + SendOf(a)
  {
    var s' := Do(s, a);
    if a.RtFinish? {
      AllSendsSnoc(s.log, Handled(s.sending));
    } else if a.RtSkip? {
      AllSendsSnoc(s.log, Discarded);
    } else if a.RtSend? {
      assert s'.sending == s.sending + [a.x] && s'.log == s.log;
    } else {
      assert s'.log == s.log && s'.sending == s.sending;
    }
  }

  lemma Assoc<T>(a: seq<T>, b: seq<T>, c: seq<T>)
    ensures a + b + c == a + (b + c)
  {
  }

  lemma {:induction false} ActRun(s: State, acts: seq<Act>)
    requires Inv(s) && IsRun(s, acts) && RtFixIdle !in acts
    ensures var s' := Run(s, acts);
            && Posted(s') == Posted(s) + ItemsOf(acts)
            && AllSends(s'.log) + s'.sending == AllSends(s.log) + s.sending + SendsOf(acts)
    decreases |acts|
  {
    if acts != [] {
      var a, s1 := acts[0], Do(s, acts[0]);
      assert !a.RtFixIdle? by { assert a in acts; }
      StepKeeps(s, a);
      ActStep(s, a);
      ActRun(s1, acts[1..]);
      assert Run(s, acts) == Run(s1, acts[1..]);
      Assoc(Posted(s), ItemOf(a), ItemsOf(acts[1..]));
      Assoc(AllSends(s.log) + s.sending, SendOf(a), SendsOf(acts[1..]));
    }
  }

  /**
   In every run without an idle restart the queues hold exactly what the agent posted, in order,
   and the outcomes hold exactly what realtime's callbacks sent, in order.
   */
  lemma NothingIsLost(acts: seq<Act>)
    requires IsRun(Init, acts) && RtFixIdle !in acts
    ensures var s := Run(Init, acts);
            && Posted(s) == ItemsOf(acts) && AllSends(s.log) + s.sending == SendsOf(acts)
            && (s.owe.Nothing? ==> s.postedT == ItemsOf(acts) && s.postedR == ItemsOf(acts))
  {
    InitHolds();
    ActRun(Init, acts);
    RunKeeps(Init, acts);
    if Run(Init, acts).owe.Nothing? { PostedBoth(Run(Init, acts)); }
    EmptyJoins(ItemsOf(acts));
    EmptyJoins(SendsOf(acts));
  }

  lemma InitHolds()
    ensures Inv(Init) && Posted(Init) == [] && AllSends(Init.log) + Init.sending == []
  {
  }

  lemma EmptyJoins<T>(a: seq<T>)
    ensures [] + a == a && a + [] == a
  {
  }

  lemma PostedBoth(s: State)
    requires Inv(s) && s.owe.Nothing?
    ensures s.postedT == Posted(s) && s.postedR == Posted(s)
  {
  }

  /** Agent, trial and realtime can do nothing more until something new is posted. */
  ghost predicate Quiet(s: State) {
    && !Can(s, PostSecond) && !Can(s, TrialBegin) && !Can(s, TrialReturn) && !Can(s, TrialCommit) && !Can(s, TrialFree)
    && !Can(s, RtSee) && !Can(s, RtBegin) && !Can(s, RtFinish) && !Can(s, RtFixWaiting) && !Can(s, RtFixIdle)
    && !Can(s, RtSkip) && !Can(s, RtNoSkip) && !Can(s, RtFork)
  }

  lemma QuietIsDone(s: State)
    requires Inv(s) && Quiet(s)
    ensures s.freedR == |s.postedR| == |s.log| && s.freedT == |s.postedT| && s.owe.Nothing? && s.sending == []
  {
    assert s.owe.Nothing?;
    assert s.trial.TPoll? || s.trial.TDead?;
    assert s.trial.TPoll? ==> s.freedT == |s.postedT|;
  }

  /**
   Nothing gets stuck: when nobody can move, every item posted was dealt with, by a handler or by a
   discard, and every message was reported done once.
   */
  lemma QuietIsComplete(acts: seq<Act>)
    requires IsRun(Init, acts) && RtFixIdle !in acts && Quiet(Run(Init, acts))
    ensures var s := Run(Init, acts);
            && s.postedR == ItemsOf(acts) && |s.log| == |s.postedR| && s.tx == Render(s.postedR, s.log)
            && Dones(s.tx) == Sqns(ItemsOf(acts)) && AllSends(s.log) == SendsOf(acts)
  {
    NothingIsLost(acts);
    RunKeeps(Init, acts);
    var s := Run(Init, acts);
    QuietIsDone(s);
    SafeDones(s);
    CompleteFrom(s, ItemsOf(acts), SendsOf(acts));
  }

  lemma CompleteFrom(s: State, items: seq<Item>, sends: seq<int>)
    requires TxOk(s) && s.freedR == |s.postedR| == |s.log| && s.sending == [] && s.postedR == items
    requires Dones(s.tx) == Sqns(s.postedR[..s.freedR]) && AllSends(s.log) + s.sending == sends
    ensures s.tx == Render(s.postedR, s.log) && Dones(s.tx) == Sqns(items) && AllSends(s.log) == sends
  {
    NoneSending();
    EmptyJoins(Render(s.postedR, s.log));
    EmptyJoins(AllSends(s.log));
    assert s.postedR[..s.freedR] == s.postedR;
  }

  lemma NoneSending()
    ensures Sends([]) == []
  {
  }

  // ------------------------------------------------------ the idle restart

  /**
   The idle poll restarts a trial only when a message was posted to the trial
   queue, killed the trial, and has not reached the realtime queue yet.
   */
  lemma IdleRestartNeedsSplitPost(s: State)
    requires Inv(s) && Can(s, RtFixIdle)
    ensures s.owe.OweRealtime? && s.freedT + 1 == |s.postedT| && s.postedT[s.freedT] == s.owe.item
    ensures s.freedT in s.crashed && s.freedR == s.freedT && s.processed != s.delivered
  {
  }

  lemma {:induction false} Snoc(s: State, acts: seq<Act>, a: Act)
    requires IsRun(s, acts) && Can(Run(s, acts), a)
    ensures IsRun(s, acts + [a]) && Run(s, acts + [a]) == Do(Run(s, acts), a)
    decreases |acts|
  {
    if acts == [] {
      assert IsRun(Do(s, a), []) && (acts + [a])[1..] == [];
    } else {
      assert (acts + [a])[1..] == acts[1..] + [a];
      Snoc(Do(s, acts[0]), acts[1..], a);
    }
  }

  /** The restart itself, after the agent's second post. */
  lemma IdleRestart(s: State) returns (acts: seq<Act>)
    requires Inv(s) && Can(s, RtFixIdle)
    ensures acts != [] && acts[0] == RtFixIdle && IsRun(s, acts)
    ensures var s' := Run(s, acts);
            && s'.owe.Nothing? && s'.trial.TPoll? && s'.trialOnRealtime && s'.rt.RPoll?
            && s'.freedR == |s'.postedR| == |s'.log|
  {
    IdleRestartNeedsSplitPost(s);
    acts := [RtFixIdle];
    assert IsRun(Do(s, RtFixIdle), []) && acts[1..] == [];
    Snoc(s, acts, PostSecond);
    acts := acts + [PostSecond];
    Snoc(s, acts, RtSkip);
    acts := acts + [RtSkip];
    Snoc(s, acts, RtFork);
    acts := acts + [RtFork];
  }

  /** The new trial polls the realtime queue, whose next entry is a message. */
  predicate StrayTrial(s: State) {
    && s.trial.TPoll? && s.trialOnRealtime && s.rt.RPoll?
    && s.freedR + 1 == |s.postedR| && s.freedR == |s.log| && s.postedR[s.freedR].Msg?
  }

  /** An entry was freed from the realtime queue that realtime never dealt with. */
  predicate MessageLost(s: State) {
    s.rt.RPoll? && s.freedR == |s.postedR| == |s.log| + 1 && s.postedR[s.freedR - 1].Msg?
  }

  /** After the restart the agent posts one more message. */
  lemma StrayPost(s: State) returns (acts: seq<Act>)
    requires Inv(s) && Can(s, RtFixIdle)
    ensures acts != [] && acts[0] == RtFixIdle && IsRun(s, acts) && StrayTrial(Run(s, acts))
  {
    acts := IdleRestart(s);
    var next := PostMsg(Run(s, acts).lastSqn + 1);
    Snoc(s, acts, next);
    acts := acts + [next];
    Snoc(s, acts, PostSecond);
    acts := acts + [PostSecond];
  }

  lemma StrayTrialTakes(s: State, acts: seq<Act>) returns (all: seq<Act>)
    requires IsRun(s, acts) && StrayTrial(Run(s, acts))
    ensures acts <= all && IsRun(s, all) && MessageLost(Run(s, all))
  {
    Snoc(s, acts, TrialBegin);
    all := acts + [TrialBegin];
    Snoc(s, all, TrialReturn);
    all := all + [TrialReturn];
    Snoc(s, all, TrialCommit);
    all := all + [TrialCommit];
    Snoc(s, all, TrialFree);
    all := all + [TrialFree];
  }

  /**
   After any idle restart the property fails: the new trial polls the realtime
   queue, so some continuation lets it free the next message there, which
   realtime then never runs, discards or reports as done.
   */
  lemma IdleRestartLosesMessage(s: State)
    requires Inv(s) && Can(s, RtFixIdle)
    ensures exists acts :: acts != [] && acts[0] == RtFixIdle && IsRun(s, acts) && MessageLost(Run(s, acts))
  {
    var acts := StrayPost(s);
    var all := StrayTrialTakes(s, acts);
    assert all[0] == RtFixIdle;
  }

  /** The idle restart does happen: one message, posted to the trial queue only. */
  lemma IdleRestartIsReachable()
    ensures exists acts :: IsRun(Init, acts) && RtFixIdle !in acts && Can(Run(Init, acts), RtFixIdle)
  {
    var acts: seq<Act> := [];
    Snoc(Init, acts, PostMsg(1));
    acts := acts + [PostMsg(1)];
    Snoc(Init, acts, TrialBegin);
    acts := acts + [TrialBegin];
    Snoc(Init, acts, TrialCrash);
    acts := acts + [TrialCrash];
  }
}
