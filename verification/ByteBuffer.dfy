/**
 The single-producer single-consumer double byte buffer: RenewBuffer and
 UpdateBuffer as separate loads and stores, in every interleaving.
 */
module ByteBuffer {
  import opened Common

  /** Where the producer stands inside RenewBuffer. */
  datatype Renewing = Outside | Checked | Copied | Zeroed

  /** Where the consumer stands inside UpdateBuffer. */
  datatype Updating = Idle | Loaded(index: nat) | Leaving | Switched | Entered

  /**
   Shared: the two memories, their `used` words and the two indices.  Producer: the
   buffer it fills, position and visible bytes.  Consumer: the buffer it reads,
   position and total.  The three streams are history: bytes appended and not
   cleared, bytes declared valid, bytes consumed.
   */
  datatype State = State(
    mem: seq<seq<Byte>>, used: seq<nat>, producerIndex: nat, consumerIndex: nat,
    renewing: Renewing, fill: nat, position: nat, visible: nat,
    updating: Updating, read: nat, at: nat, total: nat,
    written: seq<Byte>, validated: seq<Byte>, consumed: seq<Byte>)

  datatype Step =
    | Append(bytes: seq<Byte>) | SetValid(upto: nat) | Clear
    | Check | Copy | Zero | Publish
    | LoadIndex | LoadUsed | Switch | Enter | Refill | Consume(n: nat)

  function Init(cap: nat): State {
    var blank := seq(cap, i => 0);
    State([blank, blank], [0, 0], 0, 0, Outside, 0, 0, 0, Idle, 0, 0, 0, [], [], [])
  }

  /** The other of two buffers. */
  function Other(b: nat): nat { (b + 1) % 2 }

  predicate Shape(s: State, cap: nat) {
    && |s.mem| == 2 && |s.used| == 2 && s.fill < 2 && s.read < 2
    && (forall b :: 0 <= b < 2 ==> |s.mem[b]| == cap && s.used[b] <= cap)
    && s.visible <= s.position <= cap
  }

  /** The callers' side: appends stay inside the memory, validity only grows, reads stay below remaining(). */
  predicate Client(s: State, st: Step, cap: nat) {
    match st
    case Append(bytes) => s.position + |bytes| <= cap
    case SetValid(upto) => s.visible <= upto <= s.position
    case Consume(n) => s.at + n <= s.total
    case _ => true
  }

  /** Overwrites memory from a position on. */
  function Written(m: seq<Byte>, at: nat, bytes: seq<Byte>): (r: seq<Byte>)
    requires at + |bytes| <= |m|
    ensures |r| == |m| && r[..at] == m[..at] && r[at..at + |bytes|] == bytes
  {
    m[..at] + bytes + m[at + |bytes|..]
  }

  function ProducerStep(s: State, st: Step, cap: nat): State
    requires Shape(s, cap) && Client(s, st, cap)
  {
    match st
    case Append(bytes) =>
      if s.renewing != Outside then s else
      s.(mem := s.mem[s.fill := Written(s.mem[s.fill], s.position, bytes)],
         position := s.position + |bytes|, written := s.written + bytes)
    case SetValid(upto) =>
      if s.renewing != Outside then s else
      s.(visible := upto, used := s.used[s.fill := upto],
         validated := s.validated + s.mem[s.fill][s.visible..upto])
    case Clear =>
      if s.renewing != Outside then s else s.(position := s.visible, written := s.validated)
    case Check =>
      if s.renewing == Outside && s.producerIndex + 1 - s.consumerIndex <= 1
      then s.(renewing := Checked) else s
    case Copy =>
      if s.renewing != Checked then s else
      var next := (s.producerIndex + 1) % 2;
      s.(mem := s.mem[next := Written(s.mem[next], 0, s.mem[s.fill][s.visible..s.position])], renewing := Copied)
    case Zero =>
      if s.renewing != Copied then s else
      var next := (s.producerIndex + 1) % 2;
      s.(fill := next, position := s.position - s.visible, used := s.used[next := 0], visible := 0, renewing := Zeroed)
    case Publish =>
      if s.renewing != Zeroed then s else s.(producerIndex := s.producerIndex + 1, renewing := Outside)
    case _ => s
  }

  function ConsumerStep(s: State, st: Step, cap: nat): State
    requires Shape(s, cap) && Client(s, st, cap)
  {
    match st
    case LoadIndex =>
      if s.updating == Idle && s.total == s.at then s.(updating := Loaded(s.producerIndex)) else s
    case LoadUsed =>
      if !s.updating.Loaded? then s else
      s.(total := s.used[s.read],
         updating := if s.updating.index != s.consumerIndex && s.used[s.read] == s.at then Leaving else Idle)
    case Switch =>
      if s.updating != Leaving then s else
      s.(read := (s.consumerIndex + 1) % 2, at := 0, updating := Switched)
    case Enter =>
      if s.updating != Switched then s else s.(consumerIndex := s.consumerIndex + 1, updating := Entered)
    case Refill =>
      if s.updating != Entered then s else s.(total := s.used[s.read], updating := Idle)
    case Consume(n) =>
      if s.updating != Idle || s.total > cap then s else
      s.(at := s.at + n, consumed := s.consumed + s.mem[s.read][s.at..s.at + n])
    case _ => s
  }

  predicate ByProducer(st: Step) {
    st.Append? || st.SetValid? || st.Clear? || st.Check? || st.Copy? || st.Zero? || st.Publish?
  }

  function Exec(s: State, st: Step, cap: nat): State
    requires Shape(s, cap) && Client(s, st, cap)
  {
    if ByProducer(st) then ProducerStep(s, st, cap) else ConsumerStep(s, st, cap)
  }

  // --------------------------------------------------------------------- invariant

  /** How many buffers the producer has moved on to, its own view. */
  function Filling(s: State): nat { s.producerIndex + if s.renewing == Zeroed then 1 else 0 }

  /** How many buffers the consumer has moved on to, its own view. */
  function Reading(s: State): nat { s.consumerIndex + if s.updating == Switched then 1 else 0 }

  /** The validated bytes the consumer has not consumed. */
  function Readable(s: State, cap: nat): seq<Byte>
    requires Shape(s, cap) && s.at <= s.used[s.read]
  {
    s.mem[s.read][s.at..s.used[s.read]]
    + if Reading(s) == Filling(s) then [] else s.mem[s.fill][..s.visible]
  }

  /** The two sides are in the same buffer or one apart. */
  predicate Places(s: State) {
    && s.fill == Filling(s) % 2 && s.read == Reading(s) % 2
    && s.consumerIndex <= s.producerIndex <= s.consumerIndex + 1
    && (s.renewing != Outside ==> s.producerIndex == s.consumerIndex)
    && (s.updating.Loaded? ==> s.consumerIndex <= s.updating.index <= s.producerIndex)
    && (s.updating == Leaving || s.updating == Switched ==> s.producerIndex == s.consumerIndex + 1)
  }

  predicate Cursor(s: State, cap: nat)
    requires Shape(s, cap)
  {
    && s.used[s.fill] == s.visible
    && s.at <= s.used[s.read]
    && (s.updating != Switched && s.updating != Entered ==> s.at <= s.total <= s.used[s.read])
    && (s.updating == Leaving ==> s.at == s.used[s.read])
    && (s.renewing == Zeroed ==> s.visible == 0)
    && (s.renewing == Copied ==>
          s.mem[Other(s.fill)][..s.position - s.visible] == s.mem[s.fill][s.visible..s.position])
  }

  predicate Inv(s: State, cap: nat) {
    && Shape(s, cap) && Places(s) && Cursor(s, cap)
    && s.consumed + Readable(s, cap) == s.validated
    && s.validated + s.mem[s.fill][s.visible..s.position] == s.written
  }

  lemma InitHolds(cap: nat)
    ensures Inv(Init(cap), cap)
  {
  }

  lemma AppendKeeps(s: State, bytes: seq<Byte>, cap: nat)
    requires Inv(s, cap) && Client(s, Append(bytes), cap)
    ensures Inv(ProducerStep(s, Append(bytes), cap), cap)
  {
    if s.renewing == Outside {
      var s' := ProducerStep(s, Append(bytes), cap);
      var m, m' := s.mem[s.fill], s'.mem[s.fill];
      assert m'[s.visible..s'.position] == m[s.visible..s.position] + bytes;
      assert forall k :: 0 <= k <= s.position ==> m'[..k] == m[..k];
      assert s.used[s.read] <= s.position || s.read != s.fill;
      assert s'.mem[s.read][s.at..s.used[s.read]] == s.mem[s.read][s.at..s.used[s.read]];
      assert m'[..s.visible] == m[..s.visible];
      assert Readable(s', cap) == Readable(s, cap);
    }
  }

  lemma SetValidKeeps(s: State, upto: nat, cap: nat)
    requires Inv(s, cap) && Client(s, SetValid(upto), cap)
    ensures Inv(ProducerStep(s, SetValid(upto), cap), cap)
  {
    if s.renewing == Outside {
      var s' := ProducerStep(s, SetValid(upto), cap);
      var m := s.mem[s.fill];
      SetValidReadable(s, upto, cap);
      assert m[s.visible..s.position] == m[s.visible..upto] + m[upto..s.position];
      Moves(s.consumed, Readable(s, cap), s.validated, m[s.visible..upto]);
      assert Cursor(s', cap);
    }
  }

  /** What a step adds to the readable bytes it adds to the validated ones. */
  lemma Moves(consumed: seq<Byte>, readable: seq<Byte>, validated: seq<Byte>, more: seq<Byte>)
    requires consumed + readable == validated
    ensures consumed + (readable + more) == validated + more
  {
  }

  lemma SetValidReadable(s: State, upto: nat, cap: nat)
    requires Inv(s, cap) && Client(s, SetValid(upto), cap) && s.renewing == Outside
    ensures var s' := ProducerStep(s, SetValid(upto), cap);
            && Shape(s', cap) && s'.at <= s'.used[s'.read]
            && Readable(s', cap) == Readable(s, cap) + s.mem[s.fill][s.visible..upto]
  {
    var m := s.mem[s.fill];
    if Reading(s) == Filling(s) {
      assert m[s.at..upto] == m[s.at..s.visible] + m[s.visible..upto];
    } else {
      assert m[..upto] == m[..s.visible] + m[s.visible..upto];
    }
  }

  /** The buffer copied into is neither the one being filled nor the one being read. */
  lemma TargetIsOther(s: State, cap: nat)
    requires Inv(s, cap) && s.renewing == Checked
    ensures (s.producerIndex + 1) % 2 == Other(s.fill) && Other(s.fill) != s.fill == s.read
    ensures Reading(s) == Filling(s)
  {
  }

  lemma CopyKeeps(s: State, cap: nat)
    requires Inv(s, cap)
    ensures Inv(ProducerStep(s, Copy, cap), cap)
  {
    if s.renewing == Checked {
      TargetIsOther(s, cap);
      var s' := ProducerStep(s, Copy, cap);
      var bytes := s.mem[s.fill][s.visible..s.position];
      assert s'.mem[s.fill] == s.mem[s.fill];
      assert s'.mem[Other(s.fill)] == Written(s.mem[Other(s.fill)], 0, bytes);
      assert Written(s.mem[Other(s.fill)], 0, bytes)[..|bytes|] == bytes;
      assert Readable(s', cap) == Readable(s, cap);
    }
  }

  lemma ZeroKeeps(s: State, cap: nat)
    requires Inv(s, cap)
    ensures Inv(ProducerStep(s, Zero, cap), cap)
  {
    if s.renewing == Copied {
      var s' := ProducerStep(s, Zero, cap);
      assert s'.fill == Other(s.fill) && s.read == s.fill;
      assert Readable(s', cap) == Readable(s, cap);
    }
  }

  lemma ProducerKeeps(s: State, st: Step, cap: nat)
    requires Inv(s, cap) && Client(s, st, cap) && ByProducer(st)
    ensures Inv(ProducerStep(s, st, cap), cap)
  {
    match st {
      case Append(bytes) => { AppendKeeps(s, bytes, cap); }
      case SetValid(upto) => { SetValidKeeps(s, upto, cap); }
      case Copy => { CopyKeeps(s, cap); }
      case Zero => { ZeroKeeps(s, cap); }
      case _ => {}
    }
  }

  lemma LoadUsedKeeps(s: State, cap: nat)
    requires Inv(s, cap)
    ensures Inv(ConsumerStep(s, LoadUsed, cap), cap)
  {
  }

  lemma SwitchKeeps(s: State, cap: nat)
    requires Inv(s, cap)
    ensures Inv(ConsumerStep(s, Switch, cap), cap)
  {
    if s.updating == Leaving {
      var s' := ConsumerStep(s, Switch, cap);
      assert s'.read == s.fill && s.read != s.fill;
      assert Readable(s, cap) == s.mem[s.fill][..s.visible];
      assert Readable(s', cap) == s.mem[s.fill][..s.visible];
    }
  }

  lemma ConsumeKeeps(s: State, n: nat, cap: nat)
    requires Inv(s, cap) && Client(s, Consume(n), cap)
    ensures Inv(ConsumerStep(s, Consume(n), cap), cap)
  {
    if s.updating == Idle {
      var s' := ConsumerStep(s, Consume(n), cap);
      var m := s.mem[s.read];
      assert m[s.at..s.used[s.read]] == m[s.at..s.at + n] + m[s.at + n..s.used[s.read]];
      assert Readable(s, cap) == m[s.at..s.at + n] + Readable(s', cap);
    }
  }

  lemma ConsumerKeeps(s: State, st: Step, cap: nat)
    requires Inv(s, cap) && Client(s, st, cap) && !ByProducer(st)
    ensures Inv(ConsumerStep(s, st, cap), cap)
  {
    match st {
      case LoadUsed => { LoadUsedKeeps(s, cap); }
      case Switch => { SwitchKeeps(s, cap); }
      case Consume(n) => { ConsumeKeeps(s, n, cap); }
      case _ => {}
    }
  }

  /** Every step of either side keeps the invariant. */
  lemma StepKeeps(s: State, st: Step, cap: nat)
    requires Inv(s, cap) && Client(s, st, cap)
    ensures Inv(Exec(s, st, cap), cap)
  {
    if ByProducer(st) { ProducerKeeps(s, st, cap); } else { ConsumerKeeps(s, st, cap); }
  }

  // ------------------------------------------------------------------- whole runs

  /** A run from the initial state whose calls keep to the callers' side. */
  predicate IsRun(cap: nat, steps: seq<Step>, states: seq<State>) {
    && |states| == |steps| + 1 && states[0] == Init(cap)
    && forall i :: 0 <= i < |steps| ==>
      Shape(states[i], cap) && Client(states[i], steps[i], cap) && states[i + 1] == Exec(states[i], steps[i], cap)
  }

  lemma {:induction false} RunKeeps(cap: nat, steps: seq<Step>, states: seq<State>, i: nat)
    requires IsRun(cap, steps, states) && i < |states|
    ensures Inv(states[i], cap)
  {
    if i == 0 {
      InitHolds(cap);
    } else {
      RunKeeps(cap, steps, states, i - 1);
      StepKeeps(states[i - 1], steps[i - 1], cap);
    }
  }

  /** What was consumed is a prefix of what was validated, and that of what was written. */
  lemma StreamIsFifo(cap: nat, steps: seq<Step>, states: seq<State>, i: nat)
    requires IsRun(cap, steps, states) && i < |states|
    ensures Shape(states[i], cap) && states[i].at <= states[i].used[states[i].read]
    ensures states[i].consumed + Readable(states[i], cap) == states[i].validated
    ensures states[i].consumed <= states[i].validated <= states[i].written
  {
    RunKeeps(cap, steps, states, i);
  }

  /** The streams only grow, except for what Clear drops. */
  lemma StreamsGrow(s: State, st: Step, cap: nat)
    requires Inv(s, cap) && Client(s, st, cap)
    ensures s.consumed <= Exec(s, st, cap).consumed && s.validated <= Exec(s, st, cap).validated
    ensures st != Clear ==> s.written <= Exec(s, st, cap).written
  {
  }

  /** What a producer call outside RenewBuffer does to the streams and to what is not yet valid. */
  lemma ProducerCalls(s: State, st: Step, cap: nat)
    requires Inv(s, cap) && Client(s, st, cap) && s.renewing == Outside
    ensures var s' := Exec(s, st, cap);
            && Shape(s', cap)
            && (st.Append? ==> s'.written == s.written + st.bytes && s'.validated == s.validated
                               && s'.mem[s'.fill][s'.visible..s'.position] == s.mem[s.fill][s.visible..s.position] + st.bytes)
            && (st.SetValid? ==> s'.written == s.written && s'.visible == st.upto
                                 && |s'.validated| == |s.validated| + st.upto - s.visible)
            && (st.Clear? ==> s'.written == s.validated == s'.validated && s'.position == s'.visible)
  {
    if st.Append? { AppendPends(s, st.bytes, cap); }
  }

  lemma AppendPends(s: State, bytes: seq<Byte>, cap: nat)
    requires Inv(s, cap) && Client(s, Append(bytes), cap) && s.renewing == Outside
    ensures var s' := ProducerStep(s, Append(bytes), cap);
            && Shape(s', cap)
            && s'.mem[s'.fill][s'.visible..s'.position] == s.mem[s.fill][s.visible..s.position] + bytes
  {
    var m := s.mem[s.fill];
    var m' := Written(m, s.position, bytes);
    assert m'[s.visible..s.position + |bytes|] == m'[..s.position][s.visible..] + m'[s.position..s.position + |bytes|];
    assert m[..s.position][s.visible..] == m[s.visible..s.position];
  }

  /** The bytes that the producer's calls append, those of renewals in progress aside. */
  function Appended(steps: seq<Step>, states: seq<State>, i: nat): seq<Byte>
    requires i <= |steps| && |states| > |steps|
  {
    if i == 0 then []
    else Appended(steps, states, i - 1)
         + (if steps[i - 1].Append? && states[i - 1].renewing == Outside then steps[i - 1].bytes else [])
  }

  /** Without Clear the stream written is what was appended, and only SetValid lets the rest of it be read. */
  lemma {:induction false} WrittenIsAppended(cap: nat, steps: seq<Step>, states: seq<State>, i: nat)
    requires IsRun(cap, steps, states) && i < |states| && forall k :: 0 <= k < i ==> !steps[k].Clear?
    ensures states[i].written == Appended(steps, states, i)
  {
    if i > 0 {
      WrittenIsAppended(cap, steps, states, i - 1);
      RunKeeps(cap, steps, states, i - 1);
      OneAppend(states[i - 1], steps[i - 1], cap);
    }
  }

  lemma OneAppend(s: State, st: Step, cap: nat)
    requires Shape(s, cap) && Client(s, st, cap) && !st.Clear?
    ensures Exec(s, st, cap).written == s.written + (if st.Append? && s.renewing == Outside then st.bytes else [])
  {
    assert s.written + [] == s.written;
  }

  /**
   RenewBuffer goes through exactly when the consumer has caught up with the buffer being filled; it
   then fills the other buffer, which starts with the bytes that are not yet valid.
   */
  lemma RenewSucceeds(s: State, cap: nat)
    requires Inv(s, cap) && s.renewing == Outside
    ensures s.producerIndex == s.consumerIndex <==> ProducerStep(s, Check, cap).renewing == Checked
    ensures s.producerIndex != s.consumerIndex ==> ProducerStep(s, Check, cap) == s
    ensures s.producerIndex == s.consumerIndex ==>
              var s' := Renewed(s, cap);
              && Inv(s', cap) && s'.renewing == Outside && s'.producerIndex == s.producerIndex + 1
              && s'.fill == Other(s.fill) && s'.visible == 0 && s'.position == s.position - s.visible
              && s'.written == s.written && s'.validated == s.validated && Readable(s', cap) == Readable(s, cap)
              && s'.mem[s'.fill][..s'.position] == s.mem[s.fill][s.visible..s.position]
  {
    if s.producerIndex == s.consumerIndex {
      RenewKeeps(s, cap);
      SameReadable(s, Renewed(s, cap), cap);
    }
  }

  lemma RenewKeeps(s: State, cap: nat)
    requires Inv(s, cap) && s.renewing == Outside && s.producerIndex == s.consumerIndex
    ensures var s' := Renewed(s, cap);
            && Inv(s', cap) && s'.renewing == Outside && s'.producerIndex == s.producerIndex + 1
            && s'.fill == Other(s.fill) && s'.visible == 0 && s'.position == s.position - s.visible
            && s'.written == s.written && s'.validated == s.validated && s'.consumed == s.consumed
            && s'.mem[s'.fill][..s'.position] == s.mem[s.fill][s.visible..s.position]
  {
    var s1 := ProducerStep(s, Check, cap);
    ProducerKeeps(s, Check, cap);
    assert s1 == s.(renewing := Checked);
    var s2 := ProducerStep(s1, Copy, cap);
    CopyKeeps(s1, cap);
    CopyLeaves(s1, cap);
    RenewEnds(s2, cap);
  }

  lemma RenewEnds(s: State, cap: nat)
    requires Inv(s, cap) && s.renewing == Copied
    ensures var s' := RenewedFrom(s, cap);
            && Inv(s', cap) && s'.renewing == Outside && s'.producerIndex == s.producerIndex + 1
            && s'.fill == Other(s.fill) && s'.visible == 0 && s'.position == s.position - s.visible
            && s'.written == s.written && s'.validated == s.validated && s'.consumed == s.consumed
            && s'.mem == s.mem && s'.mem[s'.fill][..s'.position] == s.mem[s.fill][s.visible..s.position]
  {
    ZeroKeeps(s, cap);
    ProducerKeeps(ProducerStep(s, Zero, cap), Publish, cap);
    assert (s.producerIndex + 1) % 2 == Other(s.fill);
  }

  /** The steps of RenewBuffer, one after the other. */
  function Renewed(s: State, cap: nat): State
    requires Inv(s, cap)
  {
    RenewedFrom(ProducerStep(ProducerStep(s, Check, cap), Copy, cap), cap)
  }

  function RenewedFrom(s: State, cap: nat): State
    requires Shape(s, cap)
  {
    ProducerStep(ProducerStep(s, Zero, cap), Publish, cap)
  }

  lemma CopyLeaves(s: State, cap: nat)
    requires Inv(s, cap) && s.renewing == Checked
    ensures var s' := ProducerStep(s, Copy, cap);
            s'.mem[s.fill] == s.mem[s.fill] && s'.renewing == Copied
            && s' == s.(mem := s'.mem, renewing := Copied)
  {
    TargetIsOther(s, cap);
    CopyChangesOne(s, (s.producerIndex + 1) % 2, cap);
  }

  lemma CopyChangesOne(s: State, next: nat, cap: nat)
    requires Shape(s, cap) && s.renewing == Checked && next == (s.producerIndex + 1) % 2 && next != s.fill
    ensures var s' := ProducerStep(s, Copy, cap);
            s'.mem[s.fill] == s.mem[s.fill] && s' == s.(mem := s'.mem, renewing := Copied)
  {
  }

  lemma SameReadable(s: State, s': State, cap: nat)
    requires Inv(s, cap) && Inv(s', cap) && s'.consumed == s.consumed && s'.validated == s.validated
    ensures Readable(s', cap) == Readable(s, cap)
  {
    assert s.consumed + Readable(s, cap) == s.consumed + Readable(s', cap);
    SameTail(s.consumed, Readable(s, cap), Readable(s', cap));
  }

  lemma SameTail(a: seq<Byte>, x: seq<Byte>, y: seq<Byte>)
    requires a + x == a + y
    ensures x == y
  {
    assert x == (a + x)[|a|..] == (a + y)[|a|..] == y;
  }

  /** While the producer renews, the buffer it copies into is one the consumer has left. */
  lemma RenewIsExclusive(cap: nat, steps: seq<Step>, states: seq<State>, i: nat)
    requires IsRun(cap, steps, states) && i < |states| && states[i].renewing != Outside
    ensures (states[i].producerIndex + 1) % 2 != states[i].read
    ensures states[i].updating != Leaving && states[i].updating != Switched
  {
    RunKeeps(cap, steps, states, i);
  }

  lemma AppendIsAhead(s: State, bytes: seq<Byte>, cap: nat)
    requires Inv(s, cap) && Client(s, Append(bytes), cap)
    ensures var s' := ProducerStep(s, Append(bytes), cap);
            |s'.mem| == 2 && |s'.mem[s.read]| == cap && s'.mem[s.read][..s.used[s.read]] == s.mem[s.read][..s.used[s.read]]
  {
    if s.renewing == Outside && s.read == s.fill {
      var m := s.mem[s.fill];
      var m' := Written(m, s.position, bytes);
      assert m'[..s.visible] == m'[..s.position][..s.visible];
      assert m[..s.visible] == m[..s.position][..s.visible];
    }
  }

  lemma CopyIsElsewhere(s: State, cap: nat)
    requires Inv(s, cap)
    ensures var s' := ProducerStep(s, Copy, cap);
            |s'.mem| == 2 && s'.mem[s.read] == s.mem[s.read]
  {
    if s.renewing == Checked { TargetIsOther(s, cap); }
  }

  /** No producer step changes a validated byte of the buffer the consumer reads. */
  lemma ViewIsStable(s: State, st: Step, cap: nat)
    requires Inv(s, cap) && Client(s, st, cap) && ByProducer(st)
    ensures var s' := Exec(s, st, cap);
            && |s'.mem| == 2 && |s'.mem[s.read]| == cap
            && s'.read == s.read && s'.at == s.at && s'.total == s.total
            && s'.mem[s.read][..s.used[s.read]] == s.mem[s.read][..s.used[s.read]]
  {
    match st {
      case Append(bytes) => { AppendIsAhead(s, bytes, cap); }
      case Copy => { CopyIsElsewhere(s, cap); }
      case _ => {}
    }
  }

  /** The assert in UpdateBuffer: the index loaded is never behind the consumer's. */
  lemma LoadedIsAhead(cap: nat, steps: seq<Step>, states: seq<State>, i: nat)
    requires IsRun(cap, steps, states) && i < |states| && states[i].updating.Loaded?
    ensures states[i].updating.index == states[i].consumerIndex
         || states[i].updating.index > states[i].consumerIndex
  {
    RunKeeps(cap, steps, states, i);
  }

  /** remaining() run alone, from the first load: up to the decision to leave the buffer. */
  function Looked(s: State, cap: nat): State
    requires Inv(s, cap)
  {
    ConsumerStep(ConsumerStep(s, LoadIndex, cap), LoadUsed, cap)
  }

  /** The rest of it: moving to the next buffer. */
  function Moved(s: State, cap: nat): State
    requires Inv(s, cap)
  {
    ConsumerStep(ConsumerStep(ConsumerStep(s, Switch, cap), Enter, cap), Refill, cap)
  }

  lemma LookedKeeps(s: State, cap: nat)
    requires Inv(s, cap) && s.updating == Idle
    ensures var t := Looked(s, cap);
            && Inv(t, cap) && t.consumed == s.consumed && t.validated == s.validated
            && (t.updating == Idle || t.updating == Leaving)
            && (t.updating == Idle ==> (t.total == t.at <==> Readable(t, cap) == []))
  {
    ConsumerKeeps(s, LoadIndex, cap);
    ConsumerKeeps(ConsumerStep(s, LoadIndex, cap), LoadUsed, cap);
  }

  lemma MovedKeeps(s: State, cap: nat)
    requires Inv(s, cap) && s.updating == Leaving
    ensures var t := Moved(s, cap);
            && Inv(t, cap) && t.consumed == s.consumed && t.validated == s.validated && t.updating == Idle
            && (t.total == t.at <==> Readable(t, cap) == [])
  {
    ConsumerKeeps(s, Switch, cap);
    var s1 := ConsumerStep(s, Switch, cap);
    ConsumerKeeps(s1, Enter, cap);
    var s2 := ConsumerStep(s1, Enter, cap);
    ConsumerKeeps(s2, Refill, cap);
  }

  /** remaining(): reports nothing exactly when every validated byte was consumed. */
  function Remaining(s: State, cap: nat): (t: State)
    requires Inv(s, cap) && s.updating == Idle
    ensures Inv(t, cap) && t.updating == Idle && t.consumed == s.consumed && t.validated == s.validated
    ensures t.total == t.at <==> s.consumed == s.validated
  {
    LookedKeeps(s, cap);
    var looked := Looked(s, cap);
    if looked.updating == Idle then
      NothingReadable(looked.consumed, Readable(looked, cap), looked.validated);
      looked
    else
      MovedKeeps(looked, cap);
      var moved := Moved(looked, cap);
      NothingReadable(moved.consumed, Readable(moved, cap), moved.validated);
      moved
  }

  lemma NothingReadable(consumed: seq<Byte>, readable: seq<Byte>, validated: seq<Byte>)
    requires consumed + readable == validated
    ensures readable == [] <==> consumed == validated
  {
    assert |validated| == |consumed| + |readable|;
  }
}
