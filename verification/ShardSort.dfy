/**
 Sharded execution with ordered output.  The agent pushes each delivery to the
 sort queue and then to the rx queue of its shard; shards run concurrently and
 post to their own tx queues; the sorter follows the sort queue and drains one
 shard's tx queue up to a Done for each entry.  All steps interleave freely.
 Shard k of the source is index k - 1 here.
 */
module ShardSort {
  import opened Common

  /** An rx entry: a delivered message, or an event or post. */
  datatype Rx = Msg(sqn: int) | Other

  /** A tx entry; also what the agent does with it. */
  datatype Tx = Send(x: int) | Request(x: int) | Discard(sqn: int) | Done(sqn: int)

  /** An entry of the sort queue. */
  datatype Elem = Elem(sqn: int, shard: nat)

  datatype ShardPc = Idle | Handling(sqn: int) | InOther

  /**
   `rx`, `pc` and `tx` are the shard.  The rest is history: the numbers
   delivered to it; for each Done it posted, everything posted since the Done
   before (`blocks`) and what was posted inside that delivery's handler
   (`sent`); and the same for the delivery not closed yet (`open`, `sending`).
   */
  datatype Shard = Shard(
    rx: seq<Rx>, pc: ShardPc, tx: seq<Tx>,
    delivered: seq<int>,
    blocks: seq<seq<Tx>>, open: seq<Tx>,
    sent: seq<seq<Tx>>, sending: seq<Tx>)

  /** The agent is between messages, or has shards left to deliver to. */
  datatype AgentPc = Ready | ToSort(sqn: int, targets: seq<nat>) | ToRx(sqn: int, targets: seq<nat>)

  /**
   `sort` is every entry ever pushed to the sort queue, `freed` how many were
   freed; `out` is what the sorter has done, `partial` its part for the entry
   being drained.  `stray` records that some shard posted outside a delivery.
   */
  datatype State = State(
    shards: seq<Shard>, agent: AgentPc,
    sort: seq<Elem>, freed: nat, draining: bool, partial: seq<Tx>,
    out: seq<Tx>, stray: bool)

  datatype Act =
    | OnMessage(sqn: int, dst: int) // the agent routes a message
    | PushSort                      // next target: sort queue entry
    | PushRx                        // next target: rx entry
    | PushOther(shard: nat)         // event or post to one shard
    | Take(shard: nat)              // the shard starts on its next rx entry
    | Post(shard: nat, item: Tx)    // the shard posts to its tx queue
    | Finish(shard: nat)            // its callback returns
    | SortTake                      // the sorter looks at the next entry
    | SortDrain                     // it takes one tx entry of that shard

  const EmptyShard := Shard([], Idle, [], [], [], [], [], [])

  function Init(n: nat): State {
    State(seq(n, _ => EmptyShard), Ready, [], 0, false, [], [], false)
  }

  /** Where DoRoute's answer sends a message: nowhere, one shard, or all. */
  function Targets(dst: int, n: nat): seq<nat> {
    if dst < 0 || dst > n then []
    else if dst > 0 then [dst - 1]
    else seq(n, i => i)
  }

  function Put(s: State, k: nat, h: Shard): State
    requires k < |s.shards|
  {
    s.(shards := s.shards[k := h])
  }

  predicate Can(s: State, a: Act) {
    match a
    case OnMessage(_, _) => s.agent.Ready?
    case PushSort => s.agent.ToSort? && s.agent.targets != [] && s.agent.targets[0] < |s.shards|
    case PushRx => s.agent.ToRx? && s.agent.targets != [] && s.agent.targets[0] < |s.shards|
    case PushOther(k) => k < |s.shards|
    case Take(k) => k < |s.shards| && s.shards[k].pc.Idle? && s.shards[k].rx != []
    case Post(k, item) => k < |s.shards| && !item.Done?
    case Finish(k) => k < |s.shards| && !s.shards[k].pc.Idle?
    case SortTake => !s.draining && s.freed < |s.sort|
    case SortDrain => s.draining && s.freed < |s.sort| && s.sort[s.freed].shard < |s.shards|
                      && s.shards[s.sort[s.freed].shard].tx != []
  }

  function Do(s: State, a: Act): State
    requires Can(s, a)
  {
    match a
    case OnMessage(sqn, dst) =>
      var ts := Targets(dst, |s.shards|);
      if ts == [] then s else s.(agent := ToSort(sqn, ts))
    case PushSort =>
      s.(sort := s.sort + [Elem(s.agent.sqn, s.agent.targets[0])], agent := ToRx(s.agent.sqn, s.agent.targets))
    case PushRx =>
      var k, rest := s.agent.targets[0], s.agent.targets[1..];
      var h := s.shards[k];
      Put(s, k, h.(rx := h.rx + [Msg(s.agent.sqn)], delivered := h.delivered + [s.agent.sqn]))
      .(agent := if rest == [] then Ready else ToSort(s.agent.sqn, rest))
    case PushOther(k) => Put(s, k, s.shards[k].(rx := s.shards[k].rx + [Other]))
    case Take(k) =>
      var h := s.shards[k];
      Put(s, k, h.(rx := h.rx[1..], pc := if h.rx[0].Msg? then Handling(h.rx[0].sqn) else InOther))
    case Post(k, item) =>
      var h := s.shards[k];
      var inside := h.pc.Handling?;
      Put(s, k, h.(tx := h.tx + [item], open := h.open + [item],
                   sending := if inside then h.sending + [item] else h.sending))
      .(stray := s.stray || !inside)
    case Finish(k) => Put(s, k, Finished(s.shards[k]))
    case SortTake => s.(draining := true)
    case SortDrain =>
      var k := s.sort[s.freed].shard;
      var h := s.shards[k];
      var item := h.tx[0];
      Put(s, k, h.(tx := h.tx[1..]))
      .(out := s.out + [item],
        partial := if item.Done? then [] else s.partial + [item],
        draining := !item.Done?,
        freed := if item.Done? then s.freed + 1 else s.freed)
  }

  /** The callback returns; after a message the shard posts its Done. */
  function Finished(h: Shard): Shard {
    if h.pc.Handling? then
      var done := Done(h.pc.sqn);
      h.(pc := Idle, tx := h.tx + [done],
         blocks := h.blocks + [h.open + [done]], open := [],
         sent := h.sent + [h.sending], sending := [])
    else h.(pc := Idle)
  }

  // ------------------------------------------------------------- specification

  /** How many of the entries are for shard k. */
  function Count(es: seq<Elem>, k: nat): nat {
    if es == [] then 0
    else Count(es[..|es| - 1], k) + (if es[|es| - 1].shard == k then 1 else 0)
  }

  /** The numbers of the entries for shard k, in order. */
  function Mine(es: seq<Elem>, k: nat): (r: seq<int>)
    ensures |r| == Count(es, k)
  {
    if es == [] then []
    else Mine(es[..|es| - 1], k) + (if es[|es| - 1].shard == k then [es[|es| - 1].sqn] else [])
  }

  /** The messages among rx entries. */
  function Messages(rx: seq<Rx>): seq<int> {
    if rx == [] then []
    else (if rx[0].Msg? then [rx[0].sqn] else []) + Messages(rx[1..])
  }

  predicate NoDone(b: seq<Tx>) { forall i :: 0 <= i < |b| ==> !b[i].Done? }

  /** A block: entries without a Done, then the Done of that delivery. */
  predicate IsBlock(b: seq<Tx>, sqn: int) {
    |b| > 0 && b[|b| - 1] == Done(sqn) && NoDone(b[..|b| - 1])
  }

  /** The block of sort entry i: the next one of its shard. */
  function BlockOf(s: State, i: nat): seq<Tx>
    requires i < |s.sort|
  {
    var k, j := s.sort[i].shard, Count(s.sort[..i], s.sort[i].shard);
    if k < |s.shards| && j < |s.shards[k].blocks| then s.shards[k].blocks[j] else []
  }

  /** The blocks of the first m sort entries, in sort order. */
  function Emitted(s: State, m: nat): seq<Tx>
    requires m <= |s.sort|
  {
    if m == 0 then [] else Emitted(s, m - 1) + BlockOf(s, m - 1)
  }

  // ----------------------------------------------------------------- invariant

  /** Deliveries of a shard: closed ones, the one in progress, those waiting. */
  ghost predicate ShardOk(h: Shard) {
    && |h.blocks| == |h.sent|
    && (if h.pc.Handling?
        then |h.blocks| < |h.delivered| && h.pc.sqn == h.delivered[|h.blocks|]
             && h.delivered[|h.blocks| + 1..] == Messages(h.rx)
        else |h.blocks| <= |h.delivered| && h.delivered[|h.blocks|..] == Messages(h.rx))
    && (forall j :: 0 <= j < |h.blocks| ==> IsBlock(h.blocks[j], h.delivered[j]))
    && NoDone(h.open)
  }

  /** With no post outside a delivery, a block is what its handler posted. */
  ghost predicate OnlyHandlers(h: Shard) {
    && |h.blocks| == |h.sent| <= |h.delivered|
    && (forall j :: 0 <= j < |h.blocks| ==> h.blocks[j] == h.sent[j] + [Done(h.delivered[j])])
    && h.open == h.sending && (!h.pc.Handling? ==> h.open == [])
  }

  /** Entry being drained, if any, belongs to shard k. */
  predicate Draining(s: State, k: nat) {
    s.draining && s.freed < |s.sort| && s.sort[s.freed].shard == k
  }

  /** What the sorter has taken of shard k's next block. */
  function Taken(s: State, k: nat): seq<Tx> { if Draining(s, k) then s.partial else [] }

  /** The tx queue holds exactly what the sorter has not taken of blocks f, f + 1, ... */
  ghost predicate TxHolds(h: Shard, f: nat, taken: seq<Tx>) {
    f <= |h.blocks| && taken + h.tx == Concat(h.blocks[f..]) + h.open
  }

  ghost predicate TxOk(s: State, k: nat)
    requires k < |s.shards| && s.freed <= |s.sort|
  {
    TxHolds(s.shards[k], Count(s.sort[..s.freed], k), Taken(s, k))
  }

  /** The sort entries of shard k are its deliveries, in order. */
  ghost predicate SortOk(s: State, k: nat)
    requires k < |s.shards|
  {
    Mine(s.sort, k) == s.shards[k].delivered
                       + (if s.agent.ToRx? && s.agent.targets != [] && s.agent.targets[0] == k then [s.agent.sqn] else [])
  }

  predicate AgentOk(s: State) {
    !s.agent.Ready? ==> s.agent.targets != [] && forall i :: 0 <= i < |s.agent.targets| ==> s.agent.targets[i] < |s.shards|
  }

  ghost predicate Inv(s: State) {
    && s.freed <= |s.sort| && (s.draining ==> s.freed < |s.sort|)
    && AgentOk(s)
    && (forall i :: 0 <= i < |s.sort| ==> s.sort[i].shard < |s.shards|)
    && (forall k :: 0 <= k < |s.shards| ==> ShardOk(s.shards[k]))
    && (forall k :: 0 <= k < |s.shards| ==> TxOk(s, k))
    && (forall k :: 0 <= k < |s.shards| ==> SortOk(s, k))
    && (!s.stray ==> forall k :: 0 <= k < |s.shards| ==> OnlyHandlers(s.shards[k]))
    && NoDone(s.partial) && (!s.draining ==> s.partial == [])
    && s.out == Emitted(s, s.freed) + s.partial
  }

  // ------------------------------------------------------------- sequence facts

  lemma {:induction false} MessagesSnoc(rx: seq<Rx>, x: Rx)
    ensures Messages(rx + [x]) == Messages(rx) + (if x.Msg? then [x.sqn] else [])
  {
    if rx == [] {
      assert (rx + [x])[1..] == [];
    } else {
      var first, tail := if rx[0].Msg? then [rx[0].sqn] else [], rx[1..];
      var last := if x.Msg? then [x.sqn] else [];
      assert (rx + [x])[1..] == tail + [x] && (rx + [x])[0] == rx[0];
      MessagesSnoc(tail, x);
      assert first + (Messages(tail) + last) == first + Messages(tail) + last;
    }
  }

  lemma {:induction false} CountBelow(es: seq<Elem>, i: nat, m: nat)
    requires i < m <= |es|
    ensures Count(es[..i], es[i].shard) < Count(es[..m], es[i].shard)
    decreases m
  {
    assert es[..m][..m - 1] == es[..m - 1];
    if i < m - 1 {
      CountBelow(es, i, m - 1);
    }
  }

  lemma {:induction false} MinePrefix(es: seq<Elem>, k: nat, m: nat)
    requires m <= |es|
    ensures Mine(es[..m], k) <= Mine(es, k)
    decreases |es| - m
  {
    if m < |es| {
      assert es[..m + 1][..m] == es[..m];
      MinePrefix(es, k, m + 1);
    } else {
      assert es[..m] == es;
    }
  }

  /** There is one way to cut a sequence at its first Done. */
  lemma FirstDone(a: seq<Tx>, d: Tx, r: seq<Tx>, b: seq<Tx>, e: Tx, q: seq<Tx>)
    requires NoDone(a) && NoDone(b) && d.Done? && e.Done?
    requires a + [d] + r == b + [e] + q
    ensures a == b && d == e && r == q
  {
    var w := a + [d] + r;
    assert w[|a|] == d && w[|b|] == e;
    assert forall i :: 0 <= i < |a| ==> w[i] == a[i] && !w[i].Done?;
    assert forall i :: 0 <= i < |b| ==> w[i] == b[i] && !w[i].Done?;
    assert a == w[..|a|] && b == w[..|b|] && r == w[|a| + 1..] && q == w[|b| + 1..];
  }

  // ----------------------------------------------------------------- each step

  /** s' has at least the blocks and sort entries of s. */
  ghost predicate Grows(s: State, s': State) {
    && s.sort <= s'.sort && |s.shards| == |s'.shards|
    && (forall k :: 0 <= k < |s.shards| ==> s.shards[k].blocks <= s'.shards[k].blocks)
  }

  /** Each shard has closed at least as many blocks as were emitted of it. */
  ghost predicate Closed(s: State) {
    && s.freed <= |s.sort|
    && (forall i :: 0 <= i < |s.sort| ==> s.sort[i].shard < |s.shards|)
    && (forall k :: 0 <= k < |s.shards| ==> Count(s.sort[..s.freed], k) <= |s.shards[k].blocks|)
  }

  lemma InvClosed(s: State)
    requires Inv(s)
    ensures Closed(s)
  {
    forall k | 0 <= k < |s.shards| ensures Count(s.sort[..s.freed], k) <= |s.shards[k].blocks| {
      assert TxOk(s, k);
    }
  }

  lemma {:induction false} EmittedStable(s: State, s': State, m: nat)
    requires Closed(s) && Grows(s, s') && m <= s.freed
    ensures Emitted(s, m) == Emitted(s', m)
    decreases m
  {
    if m > 0 {
      EmittedStable(s, s', m - 1);
      CountBelow(s.sort, m - 1, s.freed);
      assert s'.sort[..m - 1] == s.sort[..m - 1];
    }
  }

  /** A step of shard k alone, or of the agent on it. */
  lemma ShardStep(s: State, s': State, k: nat)
    requires Inv(s) && k < |s.shards|
    requires s' == s.(shards := s'.shards, agent := s'.agent, stray := s'.stray)
    requires |s'.shards| == |s.shards| && s'.shards == s.shards[k := s'.shards[k]]
    requires s.shards[k].blocks <= s'.shards[k].blocks
    requires ShardOk(s'.shards[k]) && TxOk(s', k) && AgentOk(s')
    requires forall i :: 0 <= i < |s.shards| ==> SortOk(s', i)
    requires !s'.stray ==> !s.stray && OnlyHandlers(s'.shards[k])
    ensures Inv(s')
  {
    InvClosed(s);
    EmittedStable(s, s', s.freed);
    forall i | 0 <= i < |s'.shards| && i != k ensures TxOk(s', i) {
      assert TxOk(s, i);
    }
  }

  lemma OnMessageKeeps(s: State, a: Act)
    requires Inv(s) && Can(s, a) && a.OnMessage?
    ensures Inv(Do(s, a))
  {
    var s' := Do(s, a);
    InvClosed(s);
    EmittedStable(s, s', s.freed);
    forall k | 0 <= k < |s'.shards| ensures TxOk(s', k) && SortOk(s', k) {
      TxStays(s, s', k);
      assert SortOk(s, k);
    }
  }

  /** A step that leaves shard k, the sorter and the freed entries alone. */
  lemma TxStays(s: State, s': State, k: nat)
    requires k < |s.shards| == |s'.shards| && s.freed <= |s.sort| && TxOk(s, k)
    requires s'.shards[k] == s.shards[k] && s'.freed == s.freed && s.sort <= s'.sort
    requires s'.partial == s.partial && s'.draining == s.draining && (s.draining ==> s.freed < |s.sort|)
    ensures s'.freed <= |s'.sort| && TxOk(s', k)
  {
    assert s'.sort[..s.freed] == s.sort[..s.freed];
    assert Draining(s', k) == Draining(s, k);
  }

  lemma PushSortMine(s: State, k: nat)
    requires Can(s, PushSort) && k < |s.shards| && SortOk(s, k)
    ensures SortOk(Do(s, PushSort), k)
  {
    var s' := Do(s, PushSort);
    assert s'.sort[..|s'.sort| - 1] == s.sort;
  }

  lemma PushSortKeeps(s: State)
    requires Inv(s) && Can(s, PushSort)
    ensures Inv(Do(s, PushSort))
  {
    var s' := Do(s, PushSort);
    InvClosed(s);
    EmittedStable(s, s', s.freed);
    forall k | 0 <= k < |s'.shards| ensures TxOk(s', k) && SortOk(s', k) {
      TxStays(s, s', k);
      PushSortMine(s, k);
    }
  }

  /** Shard h' is shard h with one more rx entry. */
  lemma ReceivedOk(h: Shard, h': Shard, x: Rx)
    requires ShardOk(h)
    requires h' == h.(rx := h.rx + [x], delivered := h.delivered + (if x.Msg? then [x.sqn] else []))
    ensures ShardOk(h') && (OnlyHandlers(h) ==> OnlyHandlers(h'))
  {
    MessagesSnoc(h.rx, x);
  }

  lemma PushRxKeeps(s: State)
    requires Inv(s) && Can(s, PushRx)
    ensures Inv(Do(s, PushRx))
  {
    var s' := Do(s, PushRx);
    var k := s.agent.targets[0];
    ReceivedOk(s.shards[k], s'.shards[k], Msg(s.agent.sqn));
    assert TxOk(s, k) && TxOk(s', k);
    forall i | 0 <= i < |s.shards| ensures SortOk(s', i) {
      assert SortOk(s, i);
    }
    ShardStep(s, s', k);
  }

  /** A step that leaves the agent alone and delivers nothing. */
  lemma OwnStep(s: State, s': State, k: nat)
    requires Inv(s) && k < |s.shards|
    requires s' == s.(shards := s'.shards, stray := s'.stray)
    requires |s'.shards| == |s.shards| && s'.shards == s.shards[k := s'.shards[k]]
    requires s.shards[k].blocks <= s'.shards[k].blocks && s'.shards[k].delivered == s.shards[k].delivered
    requires ShardOk(s'.shards[k])
    requires TxHolds(s'.shards[k], Count(s.sort[..s.freed], k), Taken(s, k))
    requires !s'.stray ==> !s.stray && OnlyHandlers(s'.shards[k])
    ensures Inv(s')
  {
    forall i | 0 <= i < |s.shards| ensures SortOk(s', i) {
      assert SortOk(s, i);
    }
    assert TxOk(s', k);
    ShardStep(s, s', k);
  }

  lemma PushOtherKeeps(s: State, k: nat)
    requires Inv(s) && Can(s, PushOther(k))
    ensures Inv(Do(s, PushOther(k)))
  {
    var s' := Do(s, PushOther(k));
    assert s'.shards[k].delivered == s.shards[k].delivered + [];
    ReceivedOk(s.shards[k], s'.shards[k], Other);
    assert TxOk(s, k);
    OwnStep(s, s', k);
  }

  /** The next rx entry is the delivery after the closed ones. */
  lemma TookOk(h: Shard, h': Shard)
    requires ShardOk(h) && h.pc.Idle? && h.rx != []
    requires h' == h.(rx := h.rx[1..], pc := if h.rx[0].Msg? then Handling(h.rx[0].sqn) else InOther)
    ensures ShardOk(h') && (OnlyHandlers(h) ==> OnlyHandlers(h'))
  {
    if h.rx[0].Msg? {
      assert Messages(h.rx) == [h.rx[0].sqn] + Messages(h.rx[1..]);
      assert h.delivered[|h.blocks|..][0] == h.rx[0].sqn;
      assert h.delivered[|h.blocks| + 1..] == h.delivered[|h.blocks|..][1..];
    } else {
      assert Messages(h.rx) == [] + Messages(h.rx[1..]);
    }
  }

  lemma TakeKeeps(s: State, k: nat)
    requires Inv(s) && Can(s, Take(k))
    ensures Inv(Do(s, Take(k)))
  {
    var s' := Do(s, Take(k));
    TookOk(s.shards[k], s'.shards[k]);
    assert TxOk(s, k);
    OwnStep(s, s', k);
  }

  lemma PostTx(h: Shard, h': Shard, f: nat, taken: seq<Tx>, item: Tx)
    requires TxHolds(h, f, taken) && h' == h.(tx := h.tx + [item], open := h.open + [item], sending := h'.sending)
    ensures TxHolds(h', f, taken)
  {
    assert taken + h'.tx == taken + h.tx + [item];
  }

  lemma PostKeeps(s: State, k: nat, item: Tx)
    requires Inv(s) && Can(s, Post(k, item))
    ensures Inv(Do(s, Post(k, item)))
  {
    var s' := Do(s, Post(k, item));
    assert ShardOk(s.shards[k]) && TxOk(s, k);
    PostTx(s.shards[k], s'.shards[k], Count(s.sort[..s.freed], k), Taken(s, k), item);
    OwnStep(s, s', k);
  }

  lemma FinishedOk(h: Shard)
    requires ShardOk(h) && !h.pc.Idle?
    ensures ShardOk(Finished(h)) && (OnlyHandlers(h) ==> OnlyHandlers(Finished(h)))
  {
    if h.pc.Handling? {
      var b := h.open + [Done(h.pc.sqn)];
      assert b[..|b| - 1] == h.open;
    }
  }

  lemma FinishedTx(h: Shard, f: nat, taken: seq<Tx>)
    requires TxHolds(h, f, taken) && !h.pc.Idle?
    ensures TxHolds(Finished(h), f, taken)
  {
    if h.pc.Handling? {
      var b := h.open + [Done(h.pc.sqn)];
      ConcatSnoc(h.blocks[f..], b);
      assert (h.blocks + [b])[f..] == h.blocks[f..] + [b];
      assert taken + Finished(h).tx == taken + h.tx + [Done(h.pc.sqn)];
    }
  }

  lemma FinishKeeps(s: State, k: nat)
    requires Inv(s) && Can(s, Finish(k))
    ensures Inv(Do(s, Finish(k)))
  {
    assert ShardOk(s.shards[k]) && TxOk(s, k);
    FinishedOk(s.shards[k]);
    FinishedTx(s.shards[k], Count(s.sort[..s.freed], k), Taken(s, k));
    OwnStep(s, Do(s, Finish(k)), k);
  }

  lemma SortTakeKeeps(s: State)
    requires Inv(s) && Can(s, SortTake)
    ensures Inv(Do(s, SortTake))
  {
    var s' := Do(s, SortTake);
    InvClosed(s);
    EmittedStable(s, s', s.freed);
    forall k | 0 <= k < |s'.shards| ensures TxOk(s', k) && SortOk(s', k) {
      assert TxOk(s, k) && SortOk(s, k);
    }
  }

  /** A drain step touches the tx queue of one shard. */
  lemma DrainFrame(s: State)
    requires Inv(s) && Can(s, SortDrain)
    ensures var s' := Do(s, SortDrain);
            var k := s.sort[s.freed].shard;
            && Emitted(s', s.freed) == Emitted(s, s.freed) && s'.freed <= |s'.sort|
            && (forall i :: 0 <= i < |s'.shards| && i != k ==> TxOk(s', i))
            && (forall i :: 0 <= i < |s'.shards| ==> SortOk(s', i))
  {
    var s' := Do(s, SortDrain);
    InvClosed(s);
    EmittedStable(s, s', s.freed);
    assert s.sort[..s.freed + 1][..s.freed] == s.sort[..s.freed];
    forall i | 0 <= i < |s'.shards| ensures SortOk(s', i) {
      assert SortOk(s, i);
    }
    forall i | 0 <= i < |s'.shards| && i != s.sort[s.freed].shard ensures TxOk(s', i) {
      assert TxOk(s, i);
    }
  }

  /** The pieces of the invariant after a drain step. */
  lemma DrainStep(s: State)
    requires Inv(s) && Can(s, SortDrain)
    requires TxOk(Do(s, SortDrain), s.sort[s.freed].shard)
    requires var s' := Do(s, SortDrain); s'.freed <= |s'.sort| && s'.out == Emitted(s', s'.freed) + s'.partial
    ensures Inv(Do(s, SortDrain))
  {
    var s' := Do(s, SortDrain);
    var k := s.sort[s.freed].shard;
    DrainFrame(s);
    forall i | 0 <= i < |s'.shards|
      ensures ShardOk(s'.shards[i]) && (!s'.stray ==> OnlyHandlers(s'.shards[i]))
    {
      TxAside(s.shards[i], s'.shards[i].tx);
      assert s'.shards[i] == s.shards[i].(tx := s'.shards[i].tx);
    }
  }

  /** What is left in the tx queue says nothing about the deliveries. */
  lemma TxAside(h: Shard, tx: seq<Tx>)
    requires ShardOk(h)
    ensures ShardOk(h.(tx := tx)) && (OnlyHandlers(h) ==> OnlyHandlers(h.(tx := tx)))
  {
  }

  /** A Done at the head of the tx queue closes exactly the next block. */
  lemma NextBlock(h: Shard, f: nat, taken: seq<Tx>)
    requires ShardOk(h) && TxHolds(h, f, taken) && NoDone(taken) && h.tx != [] && h.tx[0].Done?
    ensures f < |h.blocks| && h.blocks[f] == taken + [h.tx[0]]
    ensures TxHolds(h.(tx := h.tx[1..]), f + 1, [])
  {
    var w := taken + h.tx;
    assert w == taken + [h.tx[0]] + h.tx[1..];
    assert w[|taken|].Done?;
    var blocks := h.blocks[f..];
    assert blocks == [] ==> Concat(blocks) + h.open == h.open;
    var b := h.blocks[f];
    assert h.blocks[f..][1..] == h.blocks[f + 1..];
    var rest := Concat(h.blocks[f + 1..]) + h.open;
    var body := b[..|b| - 1];
    assert IsBlock(b, h.delivered[f]) && b == body + [b[|b| - 1]];
    assert w == body + [b[|b| - 1]] + rest;
    FirstDone(taken, h.tx[0], h.tx[1..], body, b[|b| - 1], rest);
    assert [] + h.tx[1..] == h.tx[1..];
  }

  lemma NextItem(h: Shard, f: nat, taken: seq<Tx>)
    requires TxHolds(h, f, taken) && h.tx != []
    ensures TxHolds(h.(tx := h.tx[1..]), f, taken + [h.tx[0]])
  {
    assert taken + [h.tx[0]] + h.tx[1..] == taken + h.tx;
  }

  lemma DrainTx(s: State)
    requires Inv(s) && Can(s, SortDrain)
    ensures TxOk(Do(s, SortDrain), s.sort[s.freed].shard)
  {
    var s' := Do(s, SortDrain);
    var k := s.sort[s.freed].shard;
    var h, f := s.shards[k], Count(s.sort[..s.freed], k);
    assert ShardOk(h);
    assert TxHolds(h, f, s.partial) by { assert TxOk(s, k); }
    assert s'.shards[k] == h.(tx := h.tx[1..]);
    assert s.sort[..s.freed + 1][..s.freed] == s.sort[..s.freed];
    if h.tx[0].Done? {
      NextBlock(h, f, s.partial);
      assert Taken(s', k) == [] && Count(s'.sort[..s'.freed], k) == f + 1;
    } else {
      NextItem(h, f, s.partial);
      assert Taken(s', k) == s.partial + [h.tx[0]] && Count(s'.sort[..s'.freed], k) == f;
    }
  }

  /** A Done puts the whole block out. */
  lemma DrainOut(s: State)
    requires Inv(s) && Can(s, SortDrain)
    ensures var s' := Do(s, SortDrain); s'.freed <= |s'.sort| && s'.out == Emitted(s', s'.freed) + s'.partial
  {
    var s' := Do(s, SortDrain);
    var k := s.sort[s.freed].shard;
    var h := s.shards[k];
    assert ShardOk(h) && TxOk(s, k);
    InvClosed(s);
    EmittedStable(s, s', s.freed);
    assert s'.out == Emitted(s, s.freed) + (s.partial + [h.tx[0]]);
    if h.tx[0].Done? {
      NextBlock(h, Count(s.sort[..s.freed], k), s.partial);
      assert BlockOf(s', s.freed) == s.partial + [h.tx[0]];
    }
  }

  lemma DrainKeeps(s: State)
    requires Inv(s) && Can(s, SortDrain)
    ensures Inv(Do(s, SortDrain))
  {
    DrainTx(s);
    DrainOut(s);
    DrainStep(s);
  }

  lemma StepKeeps(s: State, a: Act)
    requires Inv(s) && Can(s, a)
    ensures Inv(Do(s, a))
  {
    match a
    case OnMessage(_, _) => OnMessageKeeps(s, a);
    case PushSort => PushSortKeeps(s);
    case PushRx => PushRxKeeps(s);
    case PushOther(k) => PushOtherKeeps(s, k);
    case Take(k) => TakeKeeps(s, k);
    case Post(k, item) => PostKeeps(s, k, item);
    case Finish(k) => FinishKeeps(s, k);
    case SortTake => SortTakeKeeps(s);
    case SortDrain => DrainKeeps(s);
  }

  // ------------------------------------------------------------------- every run

  predicate IsRun(s: State, acts: seq<Act>)
    decreases |acts|
  {
    acts == [] || (Can(s, acts[0]) && IsRun(Do(s, acts[0]), acts[1..]))
  }

  function Run(s: State, acts: seq<Act>): State
    requires IsRun(s, acts)
    decreases |acts|
  {
    if acts == [] then s else Run(Do(s, acts[0]), acts[1..])
  }

  lemma {:induction false} RunKeeps(s: State, acts: seq<Act>)
    requires Inv(s) && IsRun(s, acts)
    ensures Inv(Run(s, acts))
    decreases |acts|
  {
    if acts != [] {
      StepKeeps(s, acts[0]);
      RunKeeps(Do(s, acts[0]), acts[1..]);
    }
  }

  lemma InitInv(n: nat)
    ensures Inv(Init(n))
  {
    var s := Init(n);
    assert s.sort[..0] == [];
    forall k | 0 <= k < n ensures TxOk(s, k) && SortOk(s, k) && ShardOk(s.shards[k]) {
      assert s.shards[k] == EmptyShard;
    }
  }

  /** Sort entry i is the delivery that its block closes. */
  lemma BlockIsDelivery(s: State, i: nat)
    requires Inv(s) && i < s.freed
    ensures IsBlock(BlockOf(s, i), s.sort[i].sqn)
    ensures !s.stray ==> BlockOf(s, i) == SentBy(s, i) + [Done(s.sort[i].sqn)]
  {
    var k := s.sort[i].shard;
    var j := Count(s.sort[..i], k);
    assert TxOk(s, k) && SortOk(s, k) && ShardOk(s.shards[k]);
    CountBelow(s.sort, i, s.freed);
    MineAt(s.sort, i);
    assert s.shards[k].delivered[j] == s.sort[i].sqn;
    assert IsBlock(s.shards[k].blocks[j], s.shards[k].delivered[j]);
  }

  lemma MineAt(es: seq<Elem>, i: nat)
    requires i < |es|
    ensures var k := es[i].shard; var j := Count(es[..i], k); j < |Mine(es, k)| && Mine(es, k)[j] == es[i].sqn
  {
    MinePrefix(es, es[i].shard, i + 1);
    assert es[..i + 1][..i] == es[..i];
  }

  /** What the handler of sort entry i posted. */
  function SentBy(s: State, i: nat): seq<Tx>
    requires i < |s.sort|
  {
    var k, j := s.sort[i].shard, Count(s.sort[..i], s.sort[i].shard);
    if k < |s.shards| && j < |s.shards[k].sent| then s.shards[k].sent[j] else []
  }

  /** What the handlers of the first m sort entries posted, each closed by its Done. */
  function Expected(s: State, m: nat): seq<Tx>
    requires m <= |s.sort|
  {
    if m == 0 then [] else Expected(s, m - 1) + (SentBy(s, m - 1) + [Done(s.sort[m - 1].sqn)])
  }

  lemma {:induction false} EmittedIsExpected(s: State, m: nat)
    requires m <= |s.sort| && forall i :: 0 <= i < m ==> BlockOf(s, i) == SentBy(s, i) + [Done(s.sort[i].sqn)]
    ensures Emitted(s, m) == Expected(s, m)
  {
    if m > 0 {
      EmittedIsExpected(s, m - 1);
    }
  }

  /**
   In every run the agent has emitted, in sort order, one block for each freed
   sort entry: everything that shard posted since its Done before, closed by
   this delivery's own Done.  If shards posted only inside message handlers,
   that is exactly what the handlers sent.
   */
  lemma OutputIsOrdered(n: nat, acts: seq<Act>)
    requires IsRun(Init(n), acts)
    ensures var s := Run(Init(n), acts);
            && s.freed <= |s.sort| && NoDone(s.partial)
            && s.out == Emitted(s, s.freed) + s.partial
            && (forall i :: 0 <= i < s.freed ==> IsBlock(BlockOf(s, i), s.sort[i].sqn))
            && (!s.stray ==> s.out == Expected(s, s.freed) + s.partial)
            && (if s.draining then s.freed < |s.sort| && PartOfNext(s, s.sort[s.freed].shard) else s.partial == [])
  {
    InitInv(n);
    RunKeeps(Init(n), acts);
    var s := Run(Init(n), acts);
    forall i | 0 <= i < s.freed
      ensures IsBlock(BlockOf(s, i), s.sort[i].sqn)
      ensures !s.stray ==> BlockOf(s, i) == SentBy(s, i) + [Done(s.sort[i].sqn)]
    {
      BlockIsDelivery(s, i);
    }
    if !s.stray { EmittedIsExpected(s, s.freed); }
    if s.draining { PartialIsPart(s); }
  }

  /**
   What was emitted of the entry being drained is the front of its shard's next block, or of
   what that shard has posted since its last Done.
   */
  ghost predicate PartOfNext(s: State, k: nat)
    requires s.freed <= |s.sort|
  {
    && k < |s.shards| && Count(s.sort[..s.freed], k) <= |s.shards[k].blocks|
    && var f := Count(s.sort[..s.freed], k);
       s.partial <= if f < |s.shards[k].blocks| then s.shards[k].blocks[f] else s.shards[k].open
  }

  lemma PartialIsPart(s: State)
    requires Inv(s) && s.draining
    ensures PartOfNext(s, s.sort[s.freed].shard)
  {
    var k := s.sort[s.freed].shard;
    assert TxOk(s, k) && ShardOk(s.shards[k]);
    PartOfBlock(s.shards[k], Count(s.sort[..s.freed], k), s.partial);
  }

  lemma PartOfBlock(h: Shard, f: nat, taken: seq<Tx>)
    requires ShardOk(h) && TxHolds(h, f, taken) && NoDone(taken)
    ensures taken <= if f < |h.blocks| then h.blocks[f] else h.open
  {
    if f < |h.blocks| {
      var b := h.blocks[f];
      assert IsBlock(b, h.delivered[f]);
      var w := taken + h.tx;
      assert w == b + (Concat(h.blocks[f..][1..]) + h.open);
      assert w[|b| - 1] == b[|b| - 1];
      assert forall i :: 0 <= i < |taken| ==> w[i] == taken[i] && !w[i].Done?;
      assert taken == w[..|taken|] && b == w[..|b|];
    } else {
      assert Concat(h.blocks[f..]) == [];
      assert taken == (taken + h.tx)[..|taken|];
    }
  }

  /**
   The sorter never waits for nothing: if the next sort entry has no tx entry
   to take, its delivery is being handled, waits in that shard's rx queue, or
   is about to be pushed there.
   */
  lemma SorterWaitsForWork(n: nat, acts: seq<Act>)
    requires IsRun(Init(n), acts)
    ensures var s := Run(Init(n), acts);
            s.freed < |s.sort| ==>
              var k := s.sort[s.freed].shard;
              && k < |s.shards|
              && (s.shards[k].tx == [] ==>
                    || s.shards[k].pc.Handling?
                    || Messages(s.shards[k].rx) != []
                    || (s.agent.ToRx? && s.agent.targets != [] && s.agent.targets[0] == k))
  {
    InitInv(n);
    RunKeeps(Init(n), acts);
    var s := Run(Init(n), acts);
    if s.freed < |s.sort| {
      var k := s.sort[s.freed].shard;
      var h := s.shards[k];
      var f := Count(s.sort[..s.freed], k);
      assert ShardOk(h) && TxOk(s, k) && SortOk(s, k);
      CountBelow(s.sort, s.freed, |s.sort|);
      assert s.sort[..|s.sort|] == s.sort;
      if h.tx == [] && f < |h.blocks| { BlockHasDone(h, f, Taken(s, k)); }
    }
  }

  /** A tx queue that holds a closed block is not empty. */
  lemma BlockHasDone(h: Shard, f: nat, taken: seq<Tx>)
    requires ShardOk(h) && TxHolds(h, f, taken) && NoDone(taken) && f < |h.blocks|
    ensures h.tx != []
  {
    var b := h.blocks[f];
    assert IsBlock(b, h.delivered[f]);
    assert (taken + h.tx)[|b| - 1] == b[|b| - 1];
    assert taken + [] == taken;
  }

  // ------------------------------------------------------------------ completeness

  /** What DoRoute's answer sends to shard k: the message if it names the shard, from one, or is zero for all. */
  function RoutedOne(a: Act, k: nat): seq<int> {
    if a.OnMessage? && (a.dst == k + 1 || a.dst == 0) then [a.sqn] else []
  }

  function Routed(acts: seq<Act>, k: nat): seq<int>
    decreases |acts|
  {
    if acts == [] then [] else RoutedOne(acts[0], k) + Routed(acts[1..], k)
  }

  /** What the agent still has to deliver to shard k of the message it is routing. */
  function Owed(a: AgentPc, k: nat): seq<int> {
    if a.Ready? then [] else if k in a.targets then [a.sqn] else []
  }

  /** The message being routed goes to each shard at most once. */
  predicate Once(a: AgentPc) { a.Ready? || NoDup(a.targets) }

  /** One step of the agent adds exactly what was routed to the shard. */
  lemma RouteStep(s: State, a: Act, k: nat)
    requires Can(s, a) && Once(s.agent) && k < |s.shards|
    ensures var s' := Do(s, a);
            && Once(s'.agent) && k < |s'.shards| == |s.shards|
            && s'.shards[k].delivered + Owed(s'.agent, k) == s.shards[k].delivered + Owed(s.agent, k) + RoutedOne(a, k)
  {
    match a {
      case OnMessage(sqn, dst) => { RouteMessage(s, sqn, dst, k); }
      case PushRx => { RoutePush(s, k); }
      case _ => {}
    }
  }

  lemma RouteMessage(s: State, sqn: int, dst: int, k: nat)
    requires s.agent.Ready? && k < |s.shards|
    ensures var s' := Do(s, OnMessage(sqn, dst));
            && Once(s'.agent) && s'.shards == s.shards
            && Owed(s'.agent, k) == if dst == k + 1 || dst == 0 then [sqn] else []
  {
    var ts := Targets(dst, |s.shards|);
    assert dst == 0 ==> |ts| == |s.shards| && ts[k] == k;
    assert dst == k + 1 ==> ts[0] == k;
  }

  lemma RoutePush(s: State, k: nat)
    requires Can(s, PushRx) && Once(s.agent) && k < |s.shards|
    ensures var s' := Do(s, PushRx);
            && Once(s'.agent) && |s'.shards| == |s.shards|
            && s'.shards[k].delivered + Owed(s'.agent, k) == s.shards[k].delivered + Owed(s.agent, k)
  {
    var ts := s.agent.targets;
    assert ts == [ts[0]] + ts[1..];
    assert forall i :: 0 <= i < |ts| - 1 ==> ts[1..][i] == ts[i + 1];
    assert k in ts <==> k == ts[0] || k in ts[1..];
  }

  lemma {:induction false} RouteRun(s: State, acts: seq<Act>, k: nat)
    requires IsRun(s, acts) && Once(s.agent) && k < |s.shards|
    ensures var s' := Run(s, acts);
            && k < |s'.shards| == |s.shards|
            && s'.shards[k].delivered + Owed(s'.agent, k) == s.shards[k].delivered + Owed(s.agent, k) + Routed(acts, k)
    decreases |acts|
  {
    if acts != [] {
      var s1 := Do(s, acts[0]);
      RouteStep(s, acts[0], k);
      RouteRun(s1, acts[1..], k);
      assert Run(s, acts) == Run(s1, acts[1..]);
      ThreeParts(s.shards[k].delivered + Owed(s.agent, k), RoutedOne(acts[0], k), Routed(acts[1..], k));
    }
  }

  /**
   In every run each shard is delivered, with what the agent is about to deliver to it, exactly
   the messages routed to it or to all shards, in order.
   */
  lemma EachShardGetsItsOwn(n: nat, acts: seq<Act>, k: nat)
    requires IsRun(Init(n), acts) && k < n
    ensures var s := Run(Init(n), acts);
            k < |s.shards| && s.shards[k].delivered + Owed(s.agent, k) == Routed(acts, k)
  {
    RouteRun(Init(n), acts, k);
  }

  function PostedOne(a: Act, k: nat): seq<Tx> { if a.Post? && a.shard == k then [a.item] else [] }

  /** The items shard k posts, by the acts. */
  function PostedBy(acts: seq<Act>, k: nat): seq<Tx>
    decreases |acts|
  {
    if acts == [] then [] else PostedOne(acts[0], k) + PostedBy(acts[1..], k)
  }

  /** The entries that are no Done. */
  function Items(tx: seq<Tx>): seq<Tx> {
    if tx == [] then []
    else Items(tx[..|tx| - 1]) + (if tx[|tx| - 1].Done? then [] else [tx[|tx| - 1]])
  }

  lemma ItemsSnoc(tx: seq<Tx>, e: Tx)
    ensures Items(tx + [e]) == Items(tx) + (if e.Done? then [] else [e])
  {
    assert (tx + [e])[..|tx|] == tx;
  }

  /** Everything a shard has posted, closed blocks first. */
  function All(h: Shard): seq<Tx> { Concat(h.blocks) + h.open }

  /** Everything its handlers have sent. */
  function AllSent(h: Shard): seq<Tx> { Concat(h.sent) + h.sending }

  /** One step adds to them exactly what is posted. */
  lemma PostStep(s: State, a: Act, k: nat)
    requires Can(s, a) && k < |s.shards|
    ensures var s' := Do(s, a);
            && |s'.shards| == |s.shards|
            && Items(All(s'.shards[k])) == Items(All(s.shards[k])) + PostedOne(a, k)
            && (s.stray ==> s'.stray) && (!s'.stray ==> AllSent(s'.shards[k]) == AllSent(s.shards[k]) + PostedOne(a, k))
  {
    var h, h' := s.shards[k], Do(s, a).shards[k];
    match a {
      case Post(j, item) => { if j == k { PostOne(h, h', item); } }
      case Finish(j) => { if j == k { FinishPosts(h); } }
      case _ => { assert h'.blocks == h.blocks && h'.open == h.open && h'.sent == h.sent && h'.sending == h.sending; }
    }
  }

  lemma PostOne(h: Shard, h': Shard, item: Tx)
    requires !item.Done? && h'.blocks == h.blocks && h'.open == h.open + [item] && h'.sent == h.sent
    ensures Items(All(h')) == Items(All(h)) + [item]
    ensures h'.sending == h.sending + [item] ==> AllSent(h') == AllSent(h) + [item]
  {
    assert All(h') == All(h) + [item];
    ItemsSnoc(All(h), item);
  }

  lemma FinishPosts(h: Shard)
    ensures Items(All(Finished(h))) == Items(All(h)) && AllSent(Finished(h)) == AllSent(h)
  {
    if h.pc.Handling? {
      var done := Done(h.pc.sqn);
      ConcatSnoc(h.blocks, h.open + [done]);
      ConcatSnoc(h.sent, h.sending);
      assert All(Finished(h)) == All(h) + [done];
      ItemsSnoc(All(h), done);
      assert AllSent(Finished(h)) == AllSent(h);
    }
  }

  lemma ThreeParts<T>(a: seq<T>, b: seq<T>, c: seq<T>)
    ensures a + b + c == a + (b + c)
  {
  }

  lemma {:induction false} PostRun(s: State, acts: seq<Act>, k: nat)
    requires IsRun(s, acts) && k < |s.shards|
    ensures var s' := Run(s, acts);
            && k < |s'.shards| == |s.shards| && (s.stray ==> s'.stray)
            && Items(All(s'.shards[k])) == Items(All(s.shards[k])) + PostedBy(acts, k)
            && (!s'.stray ==> AllSent(s'.shards[k]) == AllSent(s.shards[k]) + PostedBy(acts, k))
    decreases |acts|
  {
    if acts != [] {
      var s1 := Do(s, acts[0]);
      PostStep(s, acts[0], k);
      PostRun(s1, acts[1..], k);
      var one, rest := PostedOne(acts[0], k), PostedBy(acts[1..], k);
      assert Run(s, acts) == Run(s1, acts[1..]) && PostedBy(acts, k) == one + rest;
      ThreeParts(Items(All(s.shards[k])), one, rest);
      ThreeParts(AllSent(s.shards[k]), one, rest);
    }
  }

  /**
   In every run the blocks of a shard, with what it has posted since, hold exactly what it
   posted, in order; and if all posts were inside handlers, so do its handlers' sends.
   */
  lemma NothingPostedIsLost(n: nat, acts: seq<Act>, k: nat)
    requires IsRun(Init(n), acts) && k < n
    ensures var s := Run(Init(n), acts);
            && k < |s.shards| && Items(All(s.shards[k])) == PostedBy(acts, k)
            && (!s.stray ==> AllSent(s.shards[k]) == PostedBy(acts, k))
  {
    PostRun(Init(n), acts, k);
  }

  /** Nothing is left to do for agent, shards and sorter until something new arrives. */
  ghost predicate Quiet(s: State) {
    && !Can(s, PushSort) && !Can(s, PushRx) && !Can(s, SortTake) && !Can(s, SortDrain)
    && forall k: nat :: !Can(s, Take(k)) && !Can(s, Finish(k))
  }

  /**
   Nothing gets stuck: when agent, shards and sorter can do nothing more, every delivery has been
   handled and its block emitted, and no tx entry of a delivery is left.
   */
  lemma QuietIsComplete(n: nat, acts: seq<Act>)
    requires IsRun(Init(n), acts) && Quiet(Run(Init(n), acts))
    ensures var s := Run(Init(n), acts);
            && s.agent.Ready? && s.freed == |s.sort| && !s.draining && s.out == Emitted(s, |s.sort|)
            && (forall k :: 0 <= k < |s.shards| ==>
                  s.shards[k].rx == [] && |s.shards[k].blocks| == |s.shards[k].delivered| && s.shards[k].tx == s.shards[k].open)
            && (forall k: nat :: k < n ==> k < |s.shards| && s.shards[k].delivered == Routed(acts, k))
  {
    InitInv(n);
    RunKeeps(Init(n), acts);
    var s := Run(Init(n), acts);
    QuietIsDone(s);
    forall k: nat | k < n ensures k < |s.shards| && s.shards[k].delivered == Routed(acts, k) {
      EachShardGetsItsOwn(n, acts, k);
      assert s.shards[k].delivered + [] == s.shards[k].delivered;
    }
  }

  lemma QuietIsDone(s: State)
    requires Inv(s) && Quiet(s)
    ensures s.agent.Ready? && s.freed == |s.sort| && !s.draining && s.out == Emitted(s, |s.sort|)
    ensures forall k :: 0 <= k < |s.shards| ==>
              s.shards[k].rx == [] && |s.shards[k].blocks| == |s.shards[k].delivered| && s.shards[k].tx == s.shards[k].open
  {
    AgentIsDone(s);
    forall k | 0 <= k < |s.shards| ensures s.shards[k].rx == [] && s.shards[k].pc.Idle? {
      assert !Can(s, Take(k)) && !Can(s, Finish(k));
    }
    SorterIsDone(s);
    forall k | 0 <= k < |s.shards|
      ensures |s.shards[k].blocks| == |s.shards[k].delivered| && s.shards[k].tx == s.shards[k].open
    {
      ShardIsDone(s, k);
    }
    assert s.out == Emitted(s, s.freed) + [];
  }

  lemma AgentIsDone(s: State)
    requires Inv(s) && !Can(s, PushSort) && !Can(s, PushRx)
    ensures s.agent.Ready?
  {
  }

  lemma SorterIsDone(s: State)
    requires Inv(s) && s.agent.Ready? && !Can(s, SortTake) && !Can(s, SortDrain)
    requires forall k :: 0 <= k < |s.shards| ==> s.shards[k].rx == [] && s.shards[k].pc.Idle?
    ensures s.freed == |s.sort| && !s.draining
  {
    if s.freed < |s.sort| {
      var k := s.sort[s.freed].shard;
      assert Can(s, SortTake) || s.draining;
      NextHasBlock(s, k);
    }
  }

  /** The next entry's block is closed, so its Done is in the tx queue. */
  lemma NextHasBlock(s: State, k: nat)
    requires Inv(s) && s.agent.Ready? && s.freed < |s.sort| && k == s.sort[s.freed].shard
    requires s.shards[k].rx == [] && s.shards[k].pc.Idle?
    ensures s.shards[k].tx != []
  {
    var h, f := s.shards[k], Count(s.sort[..s.freed], k);
    assert ShardOk(h) && SortOk(s, k);
    assert TxHolds(h, f, Taken(s, k)) by { assert TxOk(s, k); }
    CountBelow(s.sort, s.freed, |s.sort|);
    assert s.sort[..|s.sort|] == s.sort;
    assert |h.blocks| == |h.delivered| == Count(s.sort, k);
    BlockHasDone(h, f, Taken(s, k));
  }

  lemma ShardIsDone(s: State, k: nat)
    requires Inv(s) && s.agent.Ready? && s.freed == |s.sort| && !s.draining && k < |s.shards|
    requires s.shards[k].rx == [] && s.shards[k].pc.Idle?
    ensures |s.shards[k].blocks| == |s.shards[k].delivered| && s.shards[k].tx == s.shards[k].open
  {
    var h := s.shards[k];
    assert ShardOk(h) && TxOk(s, k) && SortOk(s, k);
    assert s.sort[..|s.sort|] == s.sort;
    assert h.blocks[|h.blocks|..] == [] && [] + h.tx == h.tx;
    assert Concat(h.blocks[|h.blocks|..]) + h.open == h.open;
  }

  // --------------------------------------------------- the sorter's inner loop

  /** The agent's side of the tx queues while no shard moves. */
  class Agent {
    var tx: seq<seq<Tx>>
    var out: seq<Tx>
    var lastDone: int

    /**
     ProcessTxMsg: takes entries of shard k up to and including the first
     Done.  `n` entries were taken; with no Done in the queue it takes them all
     and waits for more.
     */
    method ProcessTxMsg(k: nat) returns (closed: bool, n: nat)
      requires k < |tx|
      modifies this
      ensures n <= |old(tx)[k]| && tx == old(tx)[k := old(tx)[k][n..]]
      ensures out == old(out) + old(tx)[k][..n]
      ensures closed <==> !NoDone(old(tx)[k])
      ensures closed ==> IsBlock(old(tx)[k][..n], lastDone)
      ensures !closed ==> n == |old(tx)[k]| && lastDone == old(lastDone)
    {
      n := 0;
      var q := tx[k];
      while n < |q|
        invariant n <= |q| && q == old(tx)[k] && NoDone(q[..n])
        invariant tx == old(tx)[k := q[n..]] && out == old(out) + q[..n] && lastDone == old(lastDone)
      {
        var entry := tx[k][0];
        out := out + [entry];
        tx := tx[k := tx[k][1..]];
        n := n + 1;
        assert q[..n] == q[..n - 1] + [entry];
        if entry.Done? {
          lastDone := entry.sqn;
          return true, n;
        }
      }
      assert q[..n] == q;
      return false, n;
    }
  }
}
