/**
 `AsyncAmiExecutor` as state-machine replication.  An active leader orders messages
 under a lock and runs their handlers; its async thread copies each message into
 the bytes of its ring and sends the ring's records on the loop-back topic; every node
 receives that topic in order, and a follower strips the handler id and re-runs the
 handler.  A disaster node can take over, and a recovering leader can become active.
 Callers, async threads and receivers of all nodes interleave freely.
 */
module Replication {
  import opened Common
  import opened AsyncRing

  datatype WorkState = UseAmi | LeaderBypassAmi | DisasterBypassAmi | QeBypassAmi

  /** What OnMessage does with a message. */
  datatype Action = Loopback | Rerun | Drop | Ignore

  /** The branches of OnMessage, by work state, recovery and topic. */
  function OnMessage(work: WorkState, recovering: bool, isHook: bool): Action {
    match work
    case LeaderBypassAmi =>
      if recovering then (if isHook then Rerun else Drop)
      else (if isHook then Drop else Loopback)
    case DisasterBypassAmi => if isHook then Rerun else Drop
    case QeBypassAmi => if isHook then Rerun else Drop
    case UseAmi => Ignore
  }

  /** A caller inside the lock: has set os_buf_, then runs its handler. */
  datatype Caller = Unlocked | Locked(m: Msg, ran: bool)

  /** os_buf_: is_done is false exactly while a message is outstanding. */
  datatype Outstanding = IsDone | Pending(m: Msg)

  /**
   One process.  `got` counts the loop-back messages it received, `handled` are its
   handler runs.  The last five fields are history: what it ran as a follower, the order
   in which callers took its lock, its own handler runs, the messages in its ring, and
   whether it began a recovery after it had been at work as a leader.
   */
  datatype Node = Node(
    work: WorkState, recovering: bool, caller: Caller, os: Outstanding,
    buf: seq<Byte>, posBegin: nat, posEnd: nat,
    got: nat, handled: seq<Msg>, dropped: nat,
    followed: seq<Msg>, order: seq<Msg>, ran: seq<Msg>, ring: seq<Msg>, strayed: bool)

  /** A message on the loop-back topic: who sent it and what it was made of. */
  datatype Sent = Sent(from: nat, msg: Msg)

  /** `wire` is every byte message sent on the loop-back topic; `sent` is its history. */
  datatype State = State(nodes: seq<Node>, wire: seq<seq<Byte>>, sent: seq<Sent>)

  datatype Act =
    | ReceiveOther(i: nat, m: Msg)   // OnMessage, not from the loop-back topic
    | SendMsg(i: nat, m: Msg)        // the application's own call
    | RunHandler(i: nat)             // the caller inside the lock runs the handler
    | Leave(i: nat)                  // is_done: it releases the lock
    | Copy(i: nat)                   // async thread: os_buf_ into the ring
    | Flush(i: nat)                  // async thread: oldest record onto the topic
    | ReceiveHook(i: nat)            // OnMessage, the next message of the loop-back topic
    | Failover(i: nat) | RecoveryBegin(i: nat) | RecoverySuccess(i: nat)

  function NewNode(work: WorkState): Node {
    Node(work, false, Unlocked, IsDone, seq(RING_SIZE + SPILL_SIZE, _ => 0), 0, 0, 0, [], 0, [], [], [], [], false)
  }

  function Init(works: seq<WorkState>): State {
    State(seq(|works|, i requires 0 <= i < |works| => NewNode(works[i])), [], [])
  }

  /** It is to re-run what the loop-back topic brings: a disaster or QE node, or a recovering leader. */
  predicate Following(n: Node) {
    n.work.DisasterBypassAmi? || n.work.QeBypassAmi? || (n.work.LeaderBypassAmi? && n.recovering)
  }

  /** It is to order messages itself. */
  predicate Active(n: Node) { n.work.LeaderBypassAmi? && !n.recovering }

  /** The length field of the record at posBegin. */
  function NextSize(n: Node): nat
    requires n.posBegin % RING_SIZE + HEADER_SIZE <= |n.buf|
  {
    FromLe32(n.buf[n.posBegin % RING_SIZE..n.posBegin % RING_SIZE + 4])
  }

  /** What a node can do next; the copy guard is the code's, and memory is not left. */
  predicate NodeCan(n: Node, a: Act) {
    match a
    case ReceiveOther(_, m) => Fits32(m) && (Active(n) ==> n.caller.Unlocked?)
    case SendMsg(_, m) => Fits32(m) && Active(n) && n.caller.Unlocked?
    case RunHandler(_) => n.caller.Locked? && !n.caller.ran
    case Leave(_) => n.caller.Locked? && n.caller.ran && n.os.IsDone?
    case Copy(_) => n.os.Pending? && Fits32(n.os.m) && n.posEnd < n.posBegin + RING_SIZE
                    && n.posEnd % RING_SIZE + RecordSize(n.os.m) <= |n.buf|
    case Flush(_) => n.posEnd > n.posBegin && n.posBegin % RING_SIZE + HEADER_SIZE <= |n.buf|
                     && n.posBegin % RING_SIZE + HEADER_SIZE + NextSize(n) <= |n.buf|
    case _ => true
  }

  predicate Can(s: State, a: Act) {
    a.i < |s.nodes| && NodeCan(s.nodes[a.i], a) && (a.ReceiveHook? ==> s.nodes[a.i].got < |s.wire|)
  }

  /** LoopBackSendMsg or SendMsg takes the lock and sets os_buf_. */
  function Enter(n: Node, m: Msg): Node { n.(caller := Locked(m, false), os := Pending(m), order := n.order + [m]) }

  /** A message of the loop-back topic, or none if it is too short to have a handler id. */
  function TakeHook(n: Node, stripped: seq<Msg>): Node {
    match OnMessage(n.work, n.recovering, true)
    case Rerun => n.(got := n.got + 1, handled := n.handled + stripped, followed := n.followed + stripped)
    case Drop => n.(got := n.got + 1, dropped := n.dropped + 1)
    case _ => n.(got := n.got + 1)
  }

  function Stripped(bytes: seq<Byte>): seq<Msg> { if |bytes| < 4 then [] else [Strip(bytes)] }

  /** A message of any other topic. */
  function TakeOther(n: Node, m: Msg): Node {
    match OnMessage(n.work, n.recovering, false)
    case Loopback => Enter(n, m)
    case Drop => n.(dropped := n.dropped + 1)
    case _ => n
  }

  function WriteRecord(n: Node): Node
    requires NodeCan(n, Copy(0))
  {
    n.(buf := Write(n.buf, n.posEnd % RING_SIZE, Record(n.os.m)), posEnd := n.posEnd + RecordSize(n.os.m),
       ring := n.ring + [n.os.m], os := IsDone)
  }

  /** The bytes that go on the wire: handler id and data of the record at posBegin. */
  function ReadRecord(n: Node): seq<Byte>
    requires NodeCan(n, Flush(0))
  {
    var at := n.posBegin % RING_SIZE;
    n.buf[at + 4..at + HEADER_SIZE + NextSize(n)]
  }

  function NodeDo(n: Node, a: Act, hook: seq<Byte>): Node
    requires NodeCan(n, a)
  {
    match a
    case ReceiveOther(_, m) => TakeOther(n, m)
    case SendMsg(_, m) => Enter(n, m)
    case RunHandler(_) => n.(caller := Locked(n.caller.m, true), handled := n.handled + [n.caller.m], ran := n.ran + [n.caller.m])
    case Leave(_) => n.(caller := Unlocked)
    case Copy(_) => WriteRecord(n)
    case Flush(_) => n.(posBegin := n.posBegin + HEADER_SIZE + NextSize(n), ring := if n.ring == [] then [] else n.ring[1..])
    case ReceiveHook(_) => TakeHook(n, Stripped(hook))
    case Failover(_) => if n.work.DisasterBypassAmi? then n.(work := LeaderBypassAmi) else n
    case RecoveryBegin(_) => n.(recovering := true, strayed := n.strayed || (n.work.LeaderBypassAmi? && !n.recovering && (n.got > 0 || n.order != [])))
    case RecoverySuccess(_) => n.(recovering := false)
  }

  function Do(s: State, a: Act): State
    requires Can(s, a)
  {
    var n := s.nodes[a.i];
    var hook := if a.ReceiveHook? then s.wire[n.got] else [];
    var s' := s.(nodes := s.nodes[a.i := NodeDo(n, a, hook)]);
    if a.Flush? then
      s'.(wire := s.wire + [ReadRecord(n)], sent := s.sent + (if n.ring == [] then [] else [Sent(a.i, n.ring[0])]))
    else s'
  }

  // ----------------------------------------------------------------- invariant

  function Msgs(sent: seq<Sent>): (r: seq<Msg>)
    ensures |r| == |sent|
  {
    seq(|sent|, k requires 0 <= k < |sent| => sent[k].msg)
  }

  /** What one node has sent, in order. */
  function By(sent: seq<Sent>, i: nat): seq<Msg> {
    if sent == [] then []
    else
      var last := sent[|sent| - 1];
      By(sent[..|sent| - 1], i) + (if last.from == i then [last.msg] else [])
  }

  function OsSeq(os: Outstanding): seq<Msg> { if os.Pending? then [os.m] else [] }

  /** The caller inside the lock that has not run its handler yet. */
  function Waiting(c: Caller): seq<Msg> { if c.Locked? && !c.ran then [c.m] else [] }

  /** The bytes of the ring are the records of its messages. */
  predicate RingOk(n: Node) {
    && |n.buf| == RING_SIZE + SPILL_SIZE && n.posEnd == n.posBegin + Total(n.ring)
    && Intact(n.buf, RING_SIZE, n.posBegin, n.ring)
  }

  /** The lock order: sent, then in the ring, then outstanding; and run, then about to be. */
  predicate OrderOk(n: Node, i: nat, sent: seq<Sent>) {
    && n.order == By(sent, i) + n.ring + OsSeq(n.os)
    && n.order == n.ran + Waiting(n.caller)
    && (n.os.Pending? ==> n.caller.Locked? && n.caller.m == n.os.m)
    && (n.caller.Locked? ==> n.order != []) && AllFit(n.order)
    && (!n.strayed ==> n.handled == n.followed + n.ran)
    && multiset(n.handled) == multiset(n.followed) + multiset(n.ran)
  }

  /** What a node ran as a follower is what the topic brought it; an idle node ran nothing. */
  predicate FollowOk(n: Node, i: nat, sent: seq<Sent>) {
    && |n.followed| <= n.got <= |sent| && (n.strayed ==> n.work.LeaderBypassAmi?)
    && (!n.strayed ==>
          && n.followed == Msgs(sent[..|n.followed|]) && By(sent[..|n.followed|], i) == []
          && (!Active(n) ==> n.order == []) && (Following(n) ==> |n.followed| == n.got))
  }

  predicate NodeOk(n: Node, i: nat, sent: seq<Sent>) { RingOk(n) && OrderOk(n, i, sent) && FollowOk(n, i, sent) }

  predicate WireOk(s: State) {
    && |s.wire| == |s.sent|
    && (forall k :: 0 <= k < |s.sent| ==> s.sent[k].from < |s.nodes|)
    && (forall k :: 0 <= k < |s.sent| ==> Fits32(s.sent[k].msg) && s.wire[k] == Payload(s.sent[k].msg))
  }

  ghost predicate Inv(s: State) {
    WireOk(s) && forall i :: 0 <= i < |s.nodes| ==> NodeOk(s.nodes[i], i, s.sent)
  }

  /** The copy overwrites no unread record. */
  predicate CopySafe(s: State, a: Act)
    requires Can(s, a)
  {
    a.Copy? ==> var n := s.nodes[a.i]; Safe(RING_SIZE, n.posBegin, n.posEnd, RecordSize(n.os.m))
  }

  lemma BySnoc(sent: seq<Sent>, e: Sent, i: nat)
    ensures By(sent + [e], i) == By(sent, i) + (if e.from == i then [e.msg] else [])
  {
    assert (sent + [e])[..|sent|] == sent;
  }

  // ----------------------------------------------------------------- each step

  /** A step that sends nothing and changes one node. */
  lemma OneNode(s: State, a: Act)
    requires Inv(s) && Can(s, a) && !a.Flush?
    requires NodeOk(Do(s, a).nodes[a.i], a.i, s.sent)
    ensures Inv(Do(s, a))
  {
    var s' := Do(s, a);
    assert WireOk(s');
    forall j | 0 <= j < |s'.nodes| ensures NodeOk(s'.nodes[j], j, s'.sent) {
      if j != a.i { assert NodeOk(s.nodes[j], j, s.sent); }
    }
  }

  lemma EnterOrder(n: Node, i: nat, sent: seq<Sent>, m: Msg)
    requires OrderOk(n, i, sent) && n.caller.Unlocked? && Fits32(m)
    ensures OrderOk(Enter(n, m), i, sent)
  {
    assert n.os.IsDone? && OsSeq(n.os) == [] && Waiting(n.caller) == [];
    assert n.order == By(sent, i) + n.ring && n.order == n.ran;
  }

  lemma RunOrder(n: Node, n': Node, i: nat, sent: seq<Sent>)
    requires OrderOk(n, i, sent) && n.caller.Locked? && !n.caller.ran
    requires var m := n.caller.m;
             n' == n.(caller := Locked(m, true), handled := n.handled + [m], ran := n.ran + [m])
    ensures OrderOk(n', i, sent)
  {
    assert n'.ran + [] == n'.ran;
    assert !n.strayed ==> n.followed + n.ran + [n.caller.m] == n.followed + n'.ran;
    assert multiset(n'.handled) == multiset(n.handled) + multiset([n.caller.m]);
  }

  lemma LeaveOrder(n: Node, i: nat, sent: seq<Sent>)
    requires OrderOk(n, i, sent) && n.caller.Locked? && n.caller.ran && n.os.IsDone?
    ensures OrderOk(n.(caller := Unlocked), i, sent)
  {
  }

  lemma EnterOk(n: Node, i: nat, sent: seq<Sent>, m: Msg)
    requires NodeOk(n, i, sent) && n.caller.Unlocked? && Fits32(m) && Active(n)
    ensures NodeOk(Enter(n, m), i, sent)
  {
    RingSame(n, Enter(n, m));
    EnterOrder(n, i, sent, m);
  }

  /** A message of another topic is ordered by an active node and dropped or ignored by any other. */
  lemma OtherOk(n: Node, i: nat, sent: seq<Sent>, m: Msg)
    requires NodeOk(n, i, sent) && NodeCan(n, ReceiveOther(i, m))
    ensures NodeOk(TakeOther(n, m), i, sent)
    ensures Active(n) ==> TakeOther(n, m).order == n.order + [m] && TakeOther(n, m).os == Pending(m)
    ensures !Active(n) ==> TakeOther(n, m) == n.(dropped := n.dropped + (if Following(n) then 1 else 0))
  {
    OtherEffect(n, m);
    if Active(n) {
      EnterOk(n, i, sent, m);
    } else {
      OtherDropped(n, TakeOther(n, m), i, sent);
    }
  }

  lemma OtherEffect(n: Node, m: Msg)
    ensures Active(n) ==> TakeOther(n, m) == Enter(n, m)
    ensures !Active(n) ==> TakeOther(n, m) == n.(dropped := n.dropped + (if Following(n) then 1 else 0))
  {
  }

  lemma OtherDropped(n: Node, n': Node, i: nat, sent: seq<Sent>)
    requires NodeOk(n, i, sent) && n' == n.(dropped := n'.dropped)
    ensures NodeOk(n', i, sent)
  {
    RingSame(n, n');
  }

  lemma CallerOk(n: Node, i: nat, sent: seq<Sent>, a: Act)
    requires NodeOk(n, i, sent) && NodeCan(n, a) && (a.RunHandler? || a.Leave?)
    ensures NodeOk(NodeDo(n, a, []), i, sent)
  {
    var n' := NodeDo(n, a, []);
    RingSame(n, n');
    if a.RunHandler? { RunOrder(n, n', i, sent); } else { LeaveOrder(n, i, sent); }
    assert FollowOk(n', i, sent);
  }

  /** A safe copy keeps every unread record in the ring. */
  lemma CopyOk(n: Node, i: nat, sent: seq<Sent>)
    requires NodeOk(n, i, sent) && NodeCan(n, Copy(i)) && Safe(RING_SIZE, n.posBegin, n.posEnd, RecordSize(n.os.m))
    ensures NodeOk(WriteRecord(n), i, sent)
  {
    SafeCopyIsIntact(n.buf, RING_SIZE, n.posBegin, n.posBegin, n.ring, n.posEnd, n.os.m);
    TotalSnoc(n.ring, n.os.m);
    assert By(sent, i) + n.ring + [n.os.m] == By(sent, i) + (n.ring + [n.os.m]) + [];
  }

  /** A follower that strips a loop-back message runs the next message that was sent. */
  lemma HookOk(n: Node, i: nat, sent: seq<Sent>)
    requires NodeOk(n, i, sent) && n.got < |sent|
    ensures NodeOk(TakeHook(n, [sent[n.got].msg]), i, sent)
    ensures var n' := TakeHook(n, [sent[n.got].msg]);
            && n'.got == n.got + 1
            && n'.handled == n.handled + (if Following(n) then [sent[n.got].msg] else [])
            && n'.dropped == n.dropped + (if Active(n) then 1 else 0)
  {
    var n' := TakeHook(n, [sent[n.got].msg]);
    TakeHookIs(n, [sent[n.got].msg]);
    RingSame(n, n');
    if Following(n) { HookRerun(n, n', i, sent); } else { HookDropped(n, n', i, sent); }
  }

  lemma TakeHookIs(n: Node, m: seq<Msg>)
    ensures Following(n) ==> TakeHook(n, m) == n.(got := n.got + 1, handled := n.handled + m, followed := n.followed + m)
    ensures !Following(n) ==> TakeHook(n, m) == n.(got := n.got + 1, dropped := TakeHook(n, m).dropped)
  {
  }

  lemma RingSame(n: Node, n': Node)
    requires RingOk(n) && n'.buf == n.buf && n'.posBegin == n.posBegin && n'.posEnd == n.posEnd && n'.ring == n.ring
    ensures RingOk(n')
  {
  }

  lemma HookDropped(n: Node, n': Node, i: nat, sent: seq<Sent>)
    requires OrderOk(n, i, sent) && FollowOk(n, i, sent) && !Following(n) && n.got < |sent|
    requires n' == n.(got := n.got + 1, dropped := n'.dropped)
    ensures OrderOk(n', i, sent) && FollowOk(n', i, sent)
  {
  }

  lemma HookRerun(n: Node, n': Node, i: nat, sent: seq<Sent>)
    requires OrderOk(n, i, sent) && FollowOk(n, i, sent) && Following(n) && n.got < |sent|
    requires var m := [sent[n.got].msg]; n' == n.(got := n.got + 1, handled := n.handled + m, followed := n.followed + m)
    ensures OrderOk(n', i, sent) && FollowOk(n', i, sent)
  {
    HookFollows(n, n', i, sent);
    HookOrder(n, n', i, sent);
  }

  lemma HookFollows(n: Node, n': Node, i: nat, sent: seq<Sent>)
    requires OrderOk(n, i, sent) && FollowOk(n, i, sent) && Following(n) && n.got < |sent|
    requires n' == n.(got := n.got + 1, handled := n'.handled, followed := n.followed + [sent[n.got].msg])
    ensures FollowOk(n', i, sent)
  {
    if !n.strayed {
      assert By(sent, i) == [];
      MsgsSnoc(sent, n.got);
      ByPrefix(sent, n.got + 1, i);
    }
  }

  lemma HookOrder(n: Node, n': Node, i: nat, sent: seq<Sent>)
    requires OrderOk(n, i, sent) && n.got < |sent| && (!n.strayed ==> n.order == [])
    requires var m := [sent[n.got].msg]; n' == n.(got := n.got + 1, handled := n.handled + m, followed := n.followed + m)
    ensures OrderOk(n', i, sent)
  {
    assert !n.strayed ==> n.ran == [] && n.handled == n.followed;
    assert multiset(n'.handled) == multiset(n.handled) + multiset([sent[n.got].msg]);
    assert multiset(n'.followed) == multiset(n.followed) + multiset([sent[n.got].msg]);
  }

  lemma MsgsSnoc(sent: seq<Sent>, k: nat)
    requires k < |sent|
    ensures Msgs(sent[..k + 1]) == Msgs(sent[..k]) + [sent[k].msg]
  {
  }

  lemma SwitchOk(n: Node, i: nat, sent: seq<Sent>, a: Act)
    requires NodeOk(n, i, sent) && NodeCan(n, a) && (a.Failover? || a.RecoveryBegin? || a.RecoverySuccess?)
    ensures NodeOk(NodeDo(n, a, []), i, sent)
  {
  }

  /** The record read from the ring is the oldest message, so it is what goes on the wire. */
  lemma FlushOk(n: Node, i: nat, sent: seq<Sent>)
    requires NodeOk(n, i, sent) && NodeCan(n, Flush(i))
    ensures n.ring != [] && Fits32(n.ring[0]) && ReadRecord(n) == Payload(n.ring[0])
    ensures NodeOk(NodeDo(n, Flush(i), []), i, sent + [Sent(i, n.ring[0])])
  {
    FlushRing(n);
    var n' := NodeDo(n, Flush(i), []);
    FlushOrder(n, n', i, sent);
    assert FollowOk(n', i, sent);
    SentGrows(n', i, sent, Sent(i, n.ring[0]));
  }

  lemma FlushRing(n: Node)
    requires RingOk(n) && NodeCan(n, Flush(0))
    ensures n.ring != [] && Fits32(n.ring[0]) && ReadRecord(n) == Payload(n.ring[0])
    ensures RingOk(NodeDo(n, Flush(0), []))
  {
    OldestRecord(n.buf, RING_SIZE, n.posBegin, n.ring);
  }

  lemma FlushOrder(n: Node, n': Node, i: nat, sent: seq<Sent>)
    requires OrderOk(n, i, sent) && n.ring != []
    requires n' == n.(posBegin := n'.posBegin, ring := n.ring[1..])
    ensures OrderOk(n', i, sent + [Sent(i, n.ring[0])])
  {
    BySnoc(sent, Sent(i, n.ring[0]), i);
    assert n.ring == [n.ring[0]] + n.ring[1..];
    assert By(sent, i) + n.ring == By(sent, i) + [n.ring[0]] + n.ring[1..];
  }

  lemma {:induction false} ByPrefix(sent: seq<Sent>, k: nat, i: nat)
    requires k <= |sent| && By(sent, i) == []
    ensures By(sent[..k], i) == []
  {
    if k < |sent| {
      assert sent[..|sent| - 1][..k] == sent[..k];
      ByPrefix(sent[..|sent| - 1], k, i);
    } else {
      assert sent[..k] == sent;
    }
  }

  lemma SentGrows(n: Node, i: nat, sent: seq<Sent>, e: Sent)
    requires FollowOk(n, i, sent)
    ensures FollowOk(n, i, sent + [e])
  {
    assert (sent + [e])[..|n.followed|] == sent[..|n.followed|];
  }

  lemma FlushKeeps(s: State, i: nat)
    requires Inv(s) && Can(s, Flush(i))
    ensures Inv(Do(s, Flush(i)))
  {
    var s' := Do(s, Flush(i));
    var n := s.nodes[i];
    FlushOk(n, i, s.sent);
    var e := Sent(i, n.ring[0]);
    WireGrows(s, s', e);
    forall j | 0 <= j < |s'.nodes| ensures NodeOk(s'.nodes[j], j, s'.sent) {
      if j != i {
        assert NodeOk(s.nodes[j], j, s.sent);
        OthersOk(s.nodes[j], j, s.sent, e);
      }
    }
  }

  lemma WireGrows(s: State, s': State, e: Sent)
    requires WireOk(s) && |s'.nodes| == |s.nodes| && e.from < |s.nodes| && Fits32(e.msg)
    requires s'.sent == s.sent + [e] && s'.wire == s.wire + [Payload(e.msg)]
    ensures WireOk(s')
  {
  }

  lemma OthersOk(n: Node, j: nat, sent: seq<Sent>, e: Sent)
    requires NodeOk(n, j, sent) && e.from != j
    ensures NodeOk(n, j, sent + [e])
  {
    BySnoc(sent, e, j);
    assert By(sent, j) + [] == By(sent, j);
    SentGrows(n, j, sent, e);
  }

  lemma HookKeeps(s: State, i: nat)
    requires Inv(s) && Can(s, ReceiveHook(i))
    ensures Inv(Do(s, ReceiveHook(i)))
  {
    var n := s.nodes[i];
    assert NodeOk(n, i, s.sent);
    StripUndoesPayload(s.sent[n.got].msg);
    HookOk(n, i, s.sent);
    OneNode(s, ReceiveHook(i));
  }

  /** Every step whose copies are safe keeps the invariant. */
  lemma StepKeeps(s: State, a: Act)
    requires Inv(s) && Can(s, a) && CopySafe(s, a)
    ensures Inv(Do(s, a))
  {
    var n := s.nodes[a.i];
    assert NodeOk(n, a.i, s.sent);
    match a {
      case Flush(i) => { FlushKeeps(s, i); }
      case Copy(i) => { CopyOk(n, i, s.sent); OneNode(s, a); }
      case ReceiveHook(i) => { HookKeeps(s, i); }
      case Failover(i) => { SwitchOk(n, i, s.sent, a); OneNode(s, a); }
      case RecoveryBegin(i) => { SwitchOk(n, i, s.sent, a); OneNode(s, a); }
      case RecoverySuccess(i) => { SwitchOk(n, i, s.sent, a); OneNode(s, a); }
      case ReceiveOther(i, m) => { OtherOk(n, i, s.sent, m); OneNode(s, a); }
      case SendMsg(i, m) => { EnterOk(n, i, s.sent, m); OneNode(s, a); }
      case _ => { CallerOk(n, a.i, s.sent, a); OneNode(s, a); }
    }
  }

  // ------------------------------------------------------------------- every run

  /** A run in which every copy is safe. */
  predicate IsRun(s: State, acts: seq<Act>)
    decreases |acts|
  {
    acts == [] || (Can(s, acts[0]) && CopySafe(s, acts[0]) && IsRun(Do(s, acts[0]), acts[1..]))
  }

  function Run(s: State, acts: seq<Act>): State
    requires IsRun(s, acts)
    decreases |acts|
  {
    if acts == [] then s else Run(Do(s, acts[0]), acts[1..])
  }

  lemma {:induction false} RunKeeps(s: State, acts: seq<Act>)
    requires Inv(s) && IsRun(s, acts)
    ensures Inv(Run(s, acts))
    decreases |acts|
  {
    if acts != [] {
      StepKeeps(s, acts[0]);
      RunKeeps(Do(s, acts[0]), acts[1..]);
    }
  }

  lemma InitInv(works: seq<WorkState>)
    ensures Inv(Init(works))
  {
    forall i | 0 <= i < |works| ensures NodeOk(Init(works).nodes[i], i, []) {
      assert Init(works).nodes[i] == NewNode(works[i]);
    }
  }

  /** No other node has ordered a message. */
  predicate OnlyLeader(s: State, l: nat) { forall j :: 0 <= j < |s.nodes| && j != l ==> s.nodes[j].order == [] }

  /** What the theorem says of one node. */
  predicate NodeFollows(n: Node, i: nat, sent: seq<Sent>) {
    && n.order == By(sent, i) + n.ring + OsSeq(n.os)
    && n.ran <= n.order && |n.order| - 1 <= |n.ran| && (n.caller.Unlocked? ==> n.ran == n.order && n.os.IsDone?)
    && multiset(n.handled) == multiset(n.followed) + multiset(n.ran) && |n.followed| <= n.got <= |sent|
    && (!n.strayed ==> n.handled == n.followed + n.ran && n.followed == Msgs(sent[..|n.followed|]))
    && (n.work.DisasterBypassAmi? || n.work.QeBypassAmi? ==> n.handled == Msgs(sent[..n.got]))
    && (n.work.LeaderBypassAmi? && n.recovering && !n.strayed ==> n.handled == Msgs(sent[..n.got]))
  }

  /**
   In every run whose copies are safe, and for every node: the messages in its lock order
   are those it sent, then those in its ring, then at most one outstanding, and it has
   run them in that order, all but possibly the last; before that it ran what the topic
   brought it as a follower; and a node that still follows has run exactly what it
   received, in the order of the topic.  If one node only has ordered messages, what any
   other node has run is a prefix of its lock order.  A node that began a recovery while it
   was at work as a leader keeps its own order, but mixes it with what the topic brings.
   */
  lemma ReplicasFollowLeader(works: seq<WorkState>, acts: seq<Act>)
    requires IsRun(Init(works), acts)
    ensures var s := Run(Init(works), acts);
            && |s.wire| == |s.sent|
            && (forall k :: 0 <= k < |s.sent| ==> Fits32(s.sent[k].msg) && s.wire[k] == Payload(s.sent[k].msg))
            && (forall i :: 0 <= i < |s.nodes| ==> NodeFollows(s.nodes[i], i, s.sent))
            && (forall l, i :: 0 <= l < |s.nodes| && 0 <= i < |s.nodes| && i != l && OnlyLeader(s, l) && !s.nodes[i].strayed ==>
                  s.nodes[i].handled <= s.nodes[l].order)
  {
    InitInv(works);
    RunKeeps(Init(works), acts);
    var s := Run(Init(works), acts);
    forall l, i | 0 <= l < |s.nodes| && 0 <= i < |s.nodes| && i != l && OnlyLeader(s, l) && !s.nodes[i].strayed
      ensures s.nodes[i].handled <= s.nodes[l].order
    {
      OneLeader(s, l, i);
    }
    forall i | 0 <= i < |s.nodes| ensures NodeFollows(s.nodes[i], i, s.sent) {
      NodeOkFollows(s.nodes[i], i, s.sent);
    }
  }

  lemma NodeOkFollows(n: Node, i: nat, sent: seq<Sent>)
    requires NodeOk(n, i, sent)
    ensures NodeFollows(n, i, sent)
  {
    if Following(n) && !n.strayed { assert n.ran == [] && n.followed + [] == n.followed; }
  }

  lemma {:induction false} AllBy(sent: seq<Sent>, i: nat)
    requires forall k :: 0 <= k < |sent| ==> sent[k].from == i
    ensures By(sent, i) == Msgs(sent)
  {
    if sent != [] {
      var k := |sent| - 1;
      AllBy(sent[..k], i);
      assert sent[..k + 1] == sent;
      MsgsSnoc(sent, k);
    }
  }

  lemma {:induction false} SentIsBy(sent: seq<Sent>, k: nat)
    requires k < |sent|
    ensures By(sent, sent[k].from) != []
  {
    if k < |sent| - 1 { SentIsBy(sent[..|sent| - 1], k); }
  }

  /** Then everything on the topic is the leader's. */
  lemma OnlySender(s: State, leader: nat, k: nat)
    requires Inv(s) && leader < |s.nodes| && OnlyLeader(s, leader) && k < |s.sent|
    ensures s.sent[k].from == leader
  {
    SentIsBy(s.sent, k);
    var j := s.sent[k].from;
    assert NodeOk(s.nodes[j], j, s.sent);
  }

  /** With one node that orders messages, what any other node has run is a prefix of its order. */
  lemma OneLeader(s: State, leader: nat, i: nat)
    requires Inv(s) && leader < |s.nodes| && i < |s.nodes| && i != leader
    requires OnlyLeader(s, leader) && !s.nodes[i].strayed
    ensures s.nodes[i].handled <= s.nodes[leader].order
  {
    forall k | 0 <= k < |s.sent| ensures s.sent[k].from == leader { OnlySender(s, leader, k); }
    AllBy(s.sent, leader);
    FollowerIsPrefix(s.nodes[i], i, s.sent);
    LeaderHasSent(s.nodes[leader], leader, s.sent);
  }

  lemma FollowerIsPrefix(n: Node, i: nat, sent: seq<Sent>)
    requires NodeOk(n, i, sent) && !n.strayed && n.order == []
    ensures n.handled <= Msgs(sent)
  {
    assert n.ran == [] && n.handled == n.followed;
    assert n.followed == Msgs(sent)[..|n.followed|];
  }

  lemma LeaderHasSent(n: Node, i: nat, sent: seq<Sent>)
    requires NodeOk(n, i, sent)
    ensures By(sent, i) <= n.order
  {
  }

  // ------------------------------------------------------------------- taking over

  /** What a node runs or will run, with the sender of each message. */
  function Log(n: Node, i: nat, sent: seq<Sent>): seq<Sent>
    requires |n.followed| <= |sent|
  {
    sent[..|n.followed|] + seq(|n.order|, k requires 0 <= k < |n.order| => Sent(i, n.order[k]))
  }

  predicate OwnFrom(sent: seq<Sent>, at: nat, i: nat) { forall k :: at <= k < |sent| ==> sent[k].from == i }

  lemma {:induction false} ByTail(sent: seq<Sent>, at: nat, i: nat)
    requires at <= |sent| && OwnFrom(sent, at, i) && By(sent[..at], i) == []
    ensures By(sent, i) == Msgs(sent)[at..]
    decreases |sent|
  {
    if at == |sent| {
      assert sent[..at] == sent;
    } else {
      var k := |sent| - 1;
      assert sent[..k][..at] == sent[..at];
      ByTail(sent[..k], at, i);
      assert sent[..k + 1] == sent;
      MsgsSnoc(sent, k);
      assert Msgs(sent)[at..] == Msgs(sent[..k])[at..] + [sent[k].msg];
    }
  }

  /**
   A node that took over agrees with the topic exactly when all messages that it did not
   run as a follower are its own.
   */
  lemma TakeoverAgrees(s: State, i: nat)
    requires Inv(s) && i < |s.nodes| && !s.nodes[i].strayed
    ensures |s.nodes[i].followed| <= |s.sent|
    ensures s.sent <= Log(s.nodes[i], i, s.sent) <==> OwnFrom(s.sent, |s.nodes[i].followed|, i)
  {
    var n, f := s.nodes[i], |s.nodes[i].followed|;
    assert NodeOk(n, i, s.sent);
    if OwnFrom(s.sent, f, i) {
      ByTail(s.sent, f, i);
      assert Msgs(s.sent)[f..] <= n.order;
      OwnLog(n, i, s.sent);
    } else {
      var k :| f <= k < |s.sent| && s.sent[k].from != i;
      var log := Log(n, i, s.sent);
      assert k < |log| ==> log[k].from == i;
    }
  }

  lemma OwnLog(n: Node, i: nat, sent: seq<Sent>)
    requires |n.followed| <= |sent| && OwnFrom(sent, |n.followed|, i) && Msgs(sent)[|n.followed|..] <= n.order
    ensures sent <= Log(n, i, sent)
  {
    var f, log := |n.followed|, Log(n, i, sent);
    forall k | f <= k < |sent| ensures k < |log| && sent[k] == log[k] {
      assert Msgs(sent)[f..][k - f] == sent[k].msg;
    }
    assert sent == log[..|sent|];
  }

  /** Then every node that still follows has run a prefix of what it runs. */
  lemma FollowersOfTakeover(s: State, i: nat, j: nat)
    requires Inv(s) && i < |s.nodes| && j < |s.nodes| && Following(s.nodes[j])
    requires !s.nodes[i].strayed && !s.nodes[j].strayed
    requires OwnFrom(s.sent, |s.nodes[i].followed|, i)
    ensures s.nodes[j].handled <= s.nodes[i].followed + s.nodes[i].order
  {
    TakeoverAgrees(s, i);
    NodeOkFollows(s.nodes[i], i, s.sent);
    NodeOkFollows(s.nodes[j], j, s.sent);
    LogPrefix(s.nodes[i], i, s.sent, s.nodes[j].got);
  }

  lemma LogPrefix(n: Node, i: nat, sent: seq<Sent>, k: nat)
    requires |n.followed| <= |sent| && n.followed == Msgs(sent[..|n.followed|])
    requires k <= |sent| && sent <= Log(n, i, sent)
    ensures Msgs(sent[..k]) <= n.followed + n.order
  {
    var log := Log(n, i, sent);
    assert Msgs(log) == n.followed + n.order;
    assert forall j :: 0 <= j < k ==> sent[j] == log[j] && Msgs(sent[..k])[j] == Msgs(log)[j];
  }

  /** An active node never runs another message of the topic, whatever happens next. */
  lemma {:induction false} ActiveFollowsNoMore(s: State, acts: seq<Act>, i: nat)
    requires IsRun(s, acts) && i < |s.nodes| && Active(s.nodes[i]) && RecoveryBegin(i) !in acts
    ensures var s' := Run(s, acts);
            && |s'.nodes| == |s.nodes| && Active(s'.nodes[i])
            && s'.nodes[i].followed == s.nodes[i].followed && s'.nodes[i].strayed == s.nodes[i].strayed
    decreases |acts|
  {
    if acts != [] {
      ActiveFollowsNoMore(Do(s, acts[0]), acts[1..], i);
    }
  }

  /** The topic only grows, and by own messages only if no other node flushes. */
  lemma {:induction false} TopicGrows(s: State, acts: seq<Act>, i: nat)
    requires IsRun(s, acts)
    ensures s.sent <= Run(s, acts).sent
    ensures (forall k :: 0 <= k < |acts| && acts[k].Flush? ==> acts[k].i == i) ==> OwnFrom(Run(s, acts).sent, |s.sent|, i)
    decreases |acts|
  {
    if acts != [] {
      TopicGrows(Do(s, acts[0]), acts[1..], i);
      assert forall k :: 0 <= k < |acts| - 1 ==> acts[1..][k] == acts[k + 1];
    }
  }

  /** A disaster node that takes over, and the run that follows. */
  ghost predicate TakesOver(s: State, i: nat, acts: seq<Act>) {
    && Inv(s) && i < |s.nodes| && s.nodes[i].work.DisasterBypassAmi? && !s.nodes[i].recovering
    && IsRun(Do(s, Failover(i)), acts) && RecoveryBegin(i) !in acts
  }

  /** It never runs more of the topic than it had received. */
  lemma TakeoverFreezes(s: State, i: nat, acts: seq<Act>)
    requires TakesOver(s, i, acts)
    ensures var s' := Run(Do(s, Failover(i)), acts);
            && Inv(s') && |s'.nodes| == |s.nodes| && Active(s'.nodes[i]) && !s'.nodes[i].strayed
            && s'.nodes[i].followed == Msgs(s.sent[..s.nodes[i].got]) && s.nodes[i].got <= |s.sent|
  {
    assert NodeOk(s.nodes[i], i, s.sent);
    StepKeeps(s, Failover(i));
    RunKeeps(Do(s, Failover(i)), acts);
    ActiveFollowsNoMore(Do(s, Failover(i)), acts, i);
  }

  /**
   Known at the takeover: as long as no other node sends, the new leader agrees with the topic in
   every continuation if and only if it has received all of the topic when it takes over.
   */
  lemma TakeoverIsExact(s: State, i: nat, acts: seq<Act>)
    requires TakesOver(s, i, acts) && forall k :: 0 <= k < |acts| && acts[k].Flush? ==> acts[k].i == i
    ensures var s' := Run(Do(s, Failover(i)), acts);
            && i < |s'.nodes| && |s'.nodes[i].followed| <= |s'.sent|
            && (s'.sent <= Log(s'.nodes[i], i, s'.sent) <==> s.nodes[i].got == |s.sent|)
  {
    var s' := Run(Do(s, Failover(i)), acts);
    TakeoverFreezes(s, i, acts);
    TakeoverAgrees(s', i);
    TopicGrows(Do(s, Failover(i)), acts, i);
    if s.nodes[i].got < |s.sent| { NotOwn(s, i, s.nodes[i].got); }
    OwnFromExactly(s.sent, s'.sent, s.nodes[i].got, i);
  }

  lemma OwnFromExactly(sent: seq<Sent>, sent': seq<Sent>, got: nat, i: nat)
    requires sent <= sent' && got <= |sent| && OwnFrom(sent', |sent|, i) && (got < |sent| ==> sent[got].from != i)
    ensures OwnFrom(sent', got, i) <==> got == |sent|
  {
    assert got < |sent| ==> sent'[got] == sent[got];
  }

  /** A follower has sent nothing. */
  lemma NotOwn(s: State, i: nat, k: nat)
    requires Inv(s) && i < |s.nodes| && Following(s.nodes[i]) && !s.nodes[i].strayed && k < |s.sent|
    ensures s.sent[k].from != i
  {
    assert NodeOk(s.nodes[i], i, s.sent);
    SentIsBy(s.sent, k);
  }

  /**
   A disaster node that takes over before it has received all of the topic never runs the next
   message, which every other follower that receives it runs in that place.
   */
  lemma LateTakeoverDrops(s: State, i: nat, acts: seq<Act>)
    requires TakesOver(s, i, acts) && s.nodes[i].got < |s.sent|
    ensures var s', k := Run(Do(s, Failover(i)), acts), s.nodes[i].got;
            && i < |s'.nodes| && |s'.nodes[i].followed| == k && s'.nodes[i].handled == Msgs(s.sent[..k]) + s'.nodes[i].ran
            && (forall j :: 0 <= j < |s'.nodes| && Following(s'.nodes[j]) && !s'.nodes[j].strayed && k < s'.nodes[j].got ==>
                  k < |s'.nodes[j].handled| && s'.nodes[j].handled[k] == s.sent[k].msg)
  {
    var s', k := Run(Do(s, Failover(i)), acts), s.nodes[i].got;
    TakeoverFreezes(s, i, acts);
    TopicGrows(Do(s, Failover(i)), acts, i);
    NodeOkFollows(s'.nodes[i], i, s'.sent);
    forall j | 0 <= j < |s'.nodes| && Following(s'.nodes[j]) && !s'.nodes[j].strayed && k < s'.nodes[j].got
      ensures k < |s'.nodes[j].handled| && s'.nodes[j].handled[k] == s.sent[k].msg
    {
      FollowerRan(s'.nodes[j], j, s'.sent, k);
      assert s'.sent[k] == s.sent[k];
    }
  }

  lemma FollowerRan(n: Node, j: nat, sent: seq<Sent>, k: nat)
    requires NodeOk(n, j, sent) && Following(n) && !n.strayed && k < n.got
    ensures k < |n.handled| && k < |sent| && n.handled[k] == sent[k].msg
  {
    NodeOkFollows(n, j, sent);
    assert Msgs(sent[..n.got])[k] == sent[k].msg;
  }

  const LeaderAndDisaster: seq<WorkState> := [LeaderBypassAmi, DisasterBypassAmi]

  /** One message sent and not received yet: from a new leader and disaster node this is three steps away. */
  lemma LateTakeoverHappens(m: Msg) returns (acts: seq<Act>)
    requires Fits32(m) && RecordSize(m) <= RING_SIZE + SPILL_SIZE
    ensures IsRun(Init(LeaderAndDisaster), acts)
    ensures var s := Run(Init(LeaderAndDisaster), acts);
            TakesOver(s, 1, []) && s.nodes[1].got < |s.sent| && s.sent[0] == Sent(0, m)
  {
    var s0 := Init(LeaderAndDisaster);
    InitInv(LeaderAndDisaster);
    var s1 := FirstSend(s0, m);
    var s2 := FirstCopy(s1, m);
    FirstFlush(s2);
    var s3 := Do(s2, Flush(0));
    AfterFlush(s2, s3, m);
    acts := [SendMsg(0, m), Copy(0), Flush(0)];
    ThreeSteps(s0, SendMsg(0, m), s1, Copy(0), s2, Flush(0), s3);
  }

  /** The first node has an empty ring; the second, a disaster node, has seen nothing yet. */
  predicate JustStarted(s: State) {
    && |s.nodes| == 2 && s.sent == []
    && s.nodes[0].posBegin == 0 && s.nodes[0].posEnd == 0 && s.nodes[0].ring == []
    && DisasterWaits(s.nodes[1])
  }

  predicate DisasterWaits(n: Node) { n.work.DisasterBypassAmi? && !n.recovering && n.got == 0 }

  lemma FirstSend(s: State, m: Msg) returns (s': State)
    requires Inv(s) && JustStarted(s) && Active(s.nodes[0]) && s.nodes[0].caller.Unlocked? && Fits32(m)
    ensures Can(s, SendMsg(0, m)) && s' == Do(s, SendMsg(0, m))
    ensures Inv(s') && JustStarted(s') && s'.nodes[0].os == Pending(m)
  {
    s' := Do(s, SendMsg(0, m));
    StepKeeps(s, SendMsg(0, m));
  }

  lemma FirstCopy(s: State, m: Msg) returns (s': State)
    requires Inv(s) && JustStarted(s) && s.nodes[0].os == Pending(m)
    requires Fits32(m) && RecordSize(m) <= RING_SIZE + SPILL_SIZE
    ensures Can(s, Copy(0)) && CopySafe(s, Copy(0)) && s' == Do(s, Copy(0))
    ensures Inv(s') && |s'.nodes| == 2 && s'.nodes[0].ring == [m] && s'.nodes[0].posBegin == 0
    ensures s'.sent == [] && DisasterWaits(s'.nodes[1])
  {
    assert NodeOk(s.nodes[0], 0, s.sent);
    s' := Do(s, Copy(0));
    StepKeeps(s, Copy(0));
  }

  lemma AfterFlush(s: State, s': State, m: Msg)
    requires Inv(s) && Can(s, Flush(0)) && s' == Do(s, Flush(0))
    requires |s.nodes| == 2 && s.nodes[0].ring == [m] && s.sent == [] && DisasterWaits(s.nodes[1])
    ensures TakesOver(s', 1, []) && s'.sent == [Sent(0, m)] && s'.nodes[1].got == 0
  {
    StepKeeps(s, Flush(0));
    assert IsRun(Do(s', Failover(1)), []);
  }

  lemma FirstFlush(s: State)
    requires Inv(s) && |s.nodes| > 0 && s.nodes[0].ring != [] && s.nodes[0].posBegin == 0
    ensures Can(s, Flush(0))
  {
    var n := s.nodes[0];
    assert NodeOk(n, 0, s.sent);
    OldestRecord(n.buf, RING_SIZE, n.posBegin, n.ring);
  }

  lemma ThreeSteps(s: State, a: Act, s1: State, b: Act, s2: State, c: Act, s3: State)
    requires Can(s, a) && CopySafe(s, a) && s1 == Do(s, a)
    requires Can(s1, b) && CopySafe(s1, b) && s2 == Do(s1, b)
    requires Can(s2, c) && CopySafe(s2, c) && s3 == Do(s2, c)
    ensures IsRun(s, [a, b, c]) && Run(s, [a, b, c]) == s3
  {
    assert IsRun(s3, []);
    assert [a, b, c][1..] == [b, c] && [b, c][1..] == [c] && [c][1..] == [];
    assert IsRun(s2, [c]) && Run(s2, [c]) == s3;
    assert IsRun(s1, [b, c]) && Run(s1, [b, c]) == s3;
  }

  // ------------------------------------------------------------------ completeness

  /** What an act adds to the lock order of node i. */
  function Ordered(n: Node, a: Act): seq<Msg> {
    if a.SendMsg? || (a.ReceiveOther? && n.work.LeaderBypassAmi? && !n.recovering) then [a.m] else []
  }

  /** Every message that an active leader gets, from its application or another topic, is ordered. */
  lemma OrderIsCalls(s: State, a: Act, i: nat)
    requires Can(s, a) && i < |s.nodes|
    ensures Do(s, a).nodes[i].order == s.nodes[i].order + (if a.i == i then Ordered(s.nodes[i], a) else [])
  {
  }

  /** The handler of an ordered message runs at once, whether or not the message was copied. */
  lemma HandlerRunsAtOnce(n: Node, i: nat, m: Msg)
    requires Active(n) && n.caller.Unlocked? && Fits32(m)
    ensures NodeCan(n, SendMsg(i, m)) && NodeCan(n, ReceiveOther(i, m))
    ensures NodeCan(Enter(n, m), RunHandler(i)) && NodeCan(Enter(n, m).(os := IsDone), RunHandler(i))
  {
  }

  /** Whose turn it is to order messages: after a failover, or when a recovery has succeeded. */
  lemma RolesSwitch(s: State, i: nat)
    requires i < |s.nodes|
    ensures Can(s, Failover(i)) && Can(s, RecoveryBegin(i)) && Can(s, RecoverySuccess(i))
    ensures s.nodes[i].work.DisasterBypassAmi? && !s.nodes[i].recovering ==>
              !Active(s.nodes[i]) && Active(Do(s, Failover(i)).nodes[i])
    ensures !s.nodes[i].work.DisasterBypassAmi? ==> Do(s, Failover(i)) == s
    ensures Active(s.nodes[i]) ==> Following(Do(s, RecoveryBegin(i)).nodes[i])
    ensures s.nodes[i].work.LeaderBypassAmi? ==> Active(Do(s, RecoverySuccess(i)).nodes[i])
  {
    assert s.nodes[i := s.nodes[i]] == s.nodes;
  }

  /** No node can run a handler, leave its lock, copy, send or receive from the topic. */
  ghost predicate Quiet(s: State) {
    forall i: nat :: i < |s.nodes| ==>
      !Can(s, RunHandler(i)) && !Can(s, Leave(i)) && !Can(s, Copy(i)) && !Can(s, Flush(i)) && !Can(s, ReceiveHook(i))
  }

  /**
   Nothing gets stuck: when no node can move, and records are at most a spill long, every message
   ordered has been run and sent, and every node has received all of the topic.
   */
  lemma QuietIsComplete(works: seq<WorkState>, acts: seq<Act>, i: nat)
    requires IsRun(Init(works), acts) && Quiet(Run(Init(works), acts)) && i < |Run(Init(works), acts).nodes|
    requires var n := Run(Init(works), acts).nodes[i]; n.os.Pending? ==> RecordSize(n.os.m) <= SPILL_SIZE
    ensures var s := Run(Init(works), acts);
            var n := s.nodes[i];
            n.ran == n.order == By(s.sent, i) && n.caller.Unlocked? && n.got == |s.sent|
  {
    InitInv(works);
    RunKeeps(Init(works), acts);
    QuietAt(Run(Init(works), acts), i);
  }

  lemma QuietAt(s: State, i: nat)
    requires Inv(s) && Quiet(s) && i < |s.nodes|
    requires var n := s.nodes[i]; n.os.Pending? ==> RecordSize(n.os.m) <= SPILL_SIZE
    ensures var n := s.nodes[i]; n.ran == n.order == By(s.sent, i) && n.caller.Unlocked? && n.got == |s.sent|
  {
    var n := s.nodes[i];
    assert NodeOk(n, i, s.sent);
    assert !Can(s, RunHandler(i)) && !Can(s, Leave(i)) && !Can(s, Copy(i)) && !Can(s, Flush(i)) && !Can(s, ReceiveHook(i));
    QuietNode(n, i, s.sent);
  }

  lemma QuietNode(n: Node, i: nat, sent: seq<Sent>)
    requires NodeOk(n, i, sent) && (n.os.Pending? ==> RecordSize(n.os.m) <= SPILL_SIZE)
    requires !NodeCan(n, RunHandler(i)) && !NodeCan(n, Leave(i)) && !NodeCan(n, Copy(i)) && !NodeCan(n, Flush(i))
    ensures n.ran == n.order == By(sent, i) && n.caller.Unlocked?
  {
    if n.ring != [] { OldestRecord(n.buf, RING_SIZE, n.posBegin, n.ring); }
    assert n.ring == [] && n.posEnd == n.posBegin;
    if n.os.Pending? { PendingFits(n, i, sent); }
    assert n.os.IsDone?;
    assert By(sent, i) + [] + [] == By(sent, i);
  }

  lemma PendingFits(n: Node, i: nat, sent: seq<Sent>)
    requires NodeOk(n, i, sent) && n.os.Pending? && RecordSize(n.os.m) <= SPILL_SIZE && n.posEnd == n.posBegin
    ensures NodeCan(n, Copy(i))
  {
    assert n.order[|n.order| - 1] == n.os.m;
    assert n.posEnd % RING_SIZE < RING_SIZE;
  }
}
