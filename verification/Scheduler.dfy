/**
 The message scheduler of `ThreadBase`.  A tag can be blocked and released from
 inside handlers; messages of a blocked tag wait in the tag's cache queue, and
 released cache queues are served round robin.  A handler is any list of calls
 it makes; new messages may arrive between them.
 */
module Scheduler {
  import opened Common

  datatype Message = Message(id: int, tag: nat)

  /** What happens while a handler runs. */
  datatype Call = Block(tag: nat) | Release(tag: nat) | Accept(msg: Message) | AcceptOob(msg: Message)

  /** The messages that arrive on the normal queue during the calls. */
  function Accepted(calls: seq<Call>): seq<Message> {
    if calls == [] then []
    else
      var last := calls[|calls| - 1];
      Accepted(calls[..|calls| - 1]) + (if last.Accept? then [last.msg] else [])
  }

  /** The messages that arrive on the out-of-band queue during the calls. */
  function AcceptedOob(calls: seq<Call>): seq<Message> {
    if calls == [] then []
    else
      var last := calls[|calls| - 1];
      AcceptedOob(calls[..|calls| - 1]) + (if last.AcceptOob? then [last.msg] else [])
  }

  predicate NoBlocks(calls: seq<Call>) { forall i :: 0 <= i < |calls| ==> !calls[i].Block? }

  /** Whose turn it is among the released cache queues, who waits, and how many pops the turn has had. */
  datatype Turn = Turn(current: Option<nat>, queue: seq<nat>, count: int)

  function Chosen(t: Turn): nat
    requires t.current.Some? || t.queue != []
  {
    if t.current.Some? then t.current.value else t.queue[0]
  }

  /** The turn after one pop; `empty` is whether the chosen cache queue had nothing. */
  function Popped(t: Turn, budget: int, empty: bool): Turn
    requires t.current.Some? || t.queue != []
  {
    var tag := Chosen(t);
    var rest := if t.current.Some? then t.queue else t.queue[1..];
    var count := (if t.current.Some? then t.count else 0) + 1;
    if empty then Turn(None, rest, count)
    else if count >= budget then Turn(None, rest + [tag], 0)
    else Turn(Some(tag), rest, count)
  }

  /** Only newly released tags have joined, behind the others. */
  predicate Joined(t: Turn, t': Turn) { t'.current == t.current && t'.count == t.count && t.queue <= t'.queue }

  /** Which tags are blocked, cached and scheduled. */
  datatype Maps = Maps(blocked: set<nat>, cached: set<nat>, alert: set<nat>)

  function AfterCall(m: Maps, c: Call): Maps {
    match c
    case Block(tag) => Maps(m.blocked + {tag}, m.cached + {tag}, m.alert - {tag})
    case Release(tag) => if tag in m.blocked then m.(blocked := m.blocked - {tag}, alert := m.alert + {tag}) else m
    case _ => m
  }

  /** What a handler's calls do to them. */
  function AfterCalls(m: Maps, calls: seq<Call>): Maps {
    if calls == [] then m else AfterCall(AfterCalls(m, calls[..|calls| - 1]), calls[|calls| - 1])
  }

  lemma AcceptedSnoc(calls: seq<Call>, i: nat)
    requires i < |calls|
    ensures Accepted(calls[..i + 1]) == Accepted(calls[..i]) + (if calls[i].Accept? then [calls[i].msg] else [])
    ensures AcceptedOob(calls[..i + 1]) == AcceptedOob(calls[..i]) + (if calls[i].AcceptOob? then [calls[i].msg] else [])
    ensures forall m :: AfterCalls(m, calls[..i + 1]) == AfterCall(AfterCalls(m, calls[..i]), calls[i])
  {
    assert calls[..i + 1][..i] == calls[..i];
  }

  /** The messages of one tag, in order. */
  function Of(ms: seq<Message>, tag: nat): seq<Message> {
    if ms == [] then []
    else Of(ms[..|ms| - 1], tag) + (if ms[|ms| - 1].tag == tag then [ms[|ms| - 1]] else [])
  }

  lemma {:induction false} OfConcat(a: seq<Message>, b: seq<Message>, tag: nat)
    ensures Of(a + b, tag) == Of(a, tag) + Of(b, tag)
  {
    if b == [] {
      assert a + b == a;
    } else {
      assert (a + b)[..|a + b| - 1] == a + b[..|b| - 1];
      OfConcat(a, b[..|b| - 1], tag);
    }
  }

  lemma OfOne(m: Message, tag: nat)
    ensures Of([m], tag) == if m.tag == tag then [m] else []
  {
    assert [m][..0] == [];
  }

  lemma OfCons(m: Message, b: seq<Message>, tag: nat)
    ensures Of([m] + b, tag) == (if m.tag == tag then [m] else []) + Of(b, tag)
  {
    OfConcat([m], b, tag);
    OfOne(m, tag);
  }

  /** For one tag: completed, then cached, then pending is the order of arrival. */
  predicate InOrder(completed: seq<Message>, cached: seq<Message>, pending: seq<Message>,
                    arrived: seq<Message>, tag: nat)
  {
    Of(completed, tag) + cached + Of(pending, tag) == Of(arrived, tag)
  }

  lemma ArrivedInOrder(completed: seq<Message>, cached: seq<Message>, pending: seq<Message>,
                       arrived: seq<Message>, more: seq<Message>, tag: nat)
    requires InOrder(completed, cached, pending, arrived, tag)
    ensures InOrder(completed, cached, pending + more, arrived + more, tag)
  {
    OfConcat(pending, more, tag);
    OfConcat(arrived, more, tag);
  }

  /** The first pending message moves to the end of its cache queue. */
  lemma CachedInOrder(completed: seq<Message>, cached: seq<Message>, m: Message, rest: seq<Message>,
                      arrived: seq<Message>, tag: nat)
    requires InOrder(completed, cached, [m] + rest, arrived, tag)
    ensures InOrder(completed, if m.tag == tag then cached + [m] else cached, rest, arrived, tag)
  {
    OfCons(m, rest, tag);
  }

  /** The first pending message is completed; its cache queue is empty. */
  lemma CompletedInOrder(completed: seq<Message>, cached: seq<Message>, m: Message, rest: seq<Message>,
                         arrived: seq<Message>, tag: nat)
    requires InOrder(completed, cached, [m] + rest, arrived, tag) && (m.tag == tag ==> cached == [])
    ensures InOrder(completed + [m], cached, rest, arrived, tag)
  {
    OfCons(m, rest, tag);
    OfConcat(completed, [m], tag);
    OfOne(m, tag);
    var before, after := Of(completed, tag), Of(rest, tag);
    if m.tag == tag {
      assert before + [] + ([m] + after) == before + [m] + [] + after;
    } else {
      assert before + [] == before && [] + after == after;
    }
  }

  /** The head of its cache queue is completed. */
  lemma PoppedInOrder(completed: seq<Message>, cached: seq<Message>, cached': seq<Message>, m: Message,
                      pending: seq<Message>, arrived: seq<Message>, tag: nat)
    requires InOrder(completed, cached, pending, arrived, tag)
    requires cached == if m.tag == tag then [m] + cached' else cached'
    ensures InOrder(completed + [m], cached', pending, arrived, tag)
  {
    OfConcat(completed, [m], tag);
    OfOne(m, tag);
  }

  predicate AllTagged(ms: seq<Message>, tag: nat) { forall i :: 0 <= i < |ms| ==> ms[i].tag == tag }

  /** The first position of tag. */
  ghost function IndexOf(q: seq<nat>, tag: nat): (p: nat)
    requires tag in q
    ensures p < |q| && q[p] == tag && tag !in q[..p]
  {
    if q[0] == tag then 0
    else
      assert forall p :: 0 <= p < |q| - 1 ==> q[1..][..p] == q[1..p + 1] && q[..p + 1] == [q[0]] + q[1..p + 1];
      1 + IndexOf(q[1..], tag)
  }

  /** The queue after rotating tag to the front and taking it out. */
  ghost function Rotated(q: seq<nat>, tag: nat): (r: seq<nat>)
    requires tag in q
    ensures |r| == |q| - 1
    ensures NoDup(q) ==> NoDup(r) && forall t :: t in r <==> t in q && t != tag
  {
    var p := IndexOf(q, tag);
    var r := q[p + 1..] + q[..p];
    assert forall t :: t in q && t != tag ==> t in r by {
      forall t | t in q && t != tag ensures t in r {
        var i :| 0 <= i < |q| && q[i] == t;
        if i < p { assert r[|q| - p - 1 + i] == t; } else { assert r[i - p - 1] == t; }
      }
    }
    r
  }

  // ------------------------------------------------------------- poll events

  /**
   What a poll does: it polls the out-of-band queue or delivers from it; it attempts
   the normal queue, or skips it because the limit of consecutive deliveries is
   reached; it attempts a cache queue; and it delivers.
   */
  datatype Ev = OobPoll | OobDelivery | Attempt | Skip | Normal | CacheAttempt | Cached

  function Tally(t: seq<Ev>, counted: set<Ev>): nat {
    if t == [] then 0 else Tally(t[..|t| - 1], counted) + (if t[|t| - 1] in counted then 1 else 0)
  }

  /** How many counted events there were since the last reset event. */
  function Since(t: seq<Ev>, counted: set<Ev>, resets: set<Ev>): nat {
    if t == [] || t[|t| - 1] in resets then 0
    else Since(t[..|t| - 1], counted, resets) + (if t[|t| - 1] in counted then 1 else 0)
  }

  predicate Without(t: seq<Ev>, es: set<Ev>) { forall i :: 0 <= i < |t| ==> t[i] !in es }

  /** At no point of the trace were there more than `bound` since a reset. */
  ghost predicate Bypass(t: seq<Ev>, counted: set<Ev>, resets: set<Ev>, bound: int) {
    forall j :: 0 <= j <= |t| ==> Since(t[..j], counted, resets) <= bound
  }

  lemma BypassSnoc(t: seq<Ev>, e: Ev, counted: set<Ev>, resets: set<Ev>, bound: int)
    requires Bypass(t, counted, resets, bound) && Since(t + [e], counted, resets) <= bound
    ensures Bypass(t + [e], counted, resets, bound)
  {
    forall j | 0 <= j <= |t| + 1 ensures Since((t + [e])[..j], counted, resets) <= bound {
      if j <= |t| { assert (t + [e])[..j] == t[..j]; } else { assert (t + [e])[..j] == t + [e]; }
    }
  }

  lemma {:induction false} TallySince(t: seq<Ev>, i: nat, j: nat, counted: set<Ev>, resets: set<Ev>)
    requires i <= j <= |t| && Without(t[i..j], resets)
    ensures Tally(t[i..j], counted) <= Since(t[..j], counted, resets)
    decreases j
  {
    if i < j {
      assert t[i..j][..j - i - 1] == t[i..j - 1] && t[..j][..j - 1] == t[..j - 1];
      assert t[j - 1] == t[i..j][j - i - 1];
      TallySince(t, i, j - 1, counted, resets);
    }
  }

  /** Any stretch of the trace without a reset has at most `bound` counted events. */
  lemma BypassWindow(t: seq<Ev>, i: nat, j: nat, counted: set<Ev>, resets: set<Ev>, bound: int)
    requires i <= j <= |t| && Bypass(t, counted, resets, bound) && Without(t[i..j], resets)
    ensures Tally(t[i..j], counted) <= bound
  {
    TallySince(t, i, j, counted, resets);
  }

  /** The service counters of the poll loop, and their budgets. */
  datatype Counters = Counters(mq: nat, oob: nat, cont: nat)
  datatype Budgets = Budgets(msg: nat, oob: nat, cont: nat)

  function AtLeastOne(n: nat): nat { if n == 0 then 1 else n }

  /** Normal and cached deliveries since the last out-of-band poll, and so on. */
  function Served(t: seq<Ev>): nat { Since(t, {Normal, Cached}, {OobPoll}) }
  function OobServed(t: seq<Ev>): nat { Since(t, {OobDelivery}, {Attempt, Skip}) }
  function NormalServed(t: seq<Ev>): nat { Since(t, {Normal}, {CacheAttempt}) }
  function Skips(t: seq<Ev>): nat { Since(t, {Skip}, {Attempt}) }

  /** The bounds hold at every point of the trace. */
  ghost predicate AllBounds(t: seq<Ev>, b: Budgets) {
    && Bypass(t, {Normal, Cached}, {OobPoll}, AtLeastOne(b.msg))
    && Bypass(t, {OobDelivery}, {Attempt, Skip}, b.oob)
    && Bypass(t, {Normal}, {CacheAttempt}, b.cont)
    && (b.cont > 0 ==> Bypass(t, {Skip}, {Attempt}, 1))
    && (b.cont == 0 ==> Without(t, {Attempt}))
  }

  /** The events of a poll that reaches the queues: may the normal one be tried, was it served, was a cached one. */
  function ServeEvents(tried: bool, normal: bool, ok: bool): seq<Ev> {
    if tried && normal then [Attempt] + [Normal]
    else [if tried then Attempt else Skip] + [CacheAttempt] + (if ok then [Cached] else [])
  }

  /** Between two polls: the counters cover what the trace has done. */
  ghost predicate Counted(t: seq<Ev>, c: Counters, b: Budgets) {
    && AllBounds(t, b)
    && Served(t) <= c.mq <= AtLeastOne(b.msg)
    && OobServed(t) <= c.oob <= b.oob
    && NormalServed(t) <= c.cont <= b.cont
    && (c.cont > 0 ==> Skips(t) == 0)
  }

  /** Inside a poll, just before the queues are tried. */
  ghost predicate MayServe(t: seq<Ev>, c: Counters, b: Budgets) {
    && AllBounds(t, b)
    && Served(t) <= c.mq < AtLeastOne(b.msg) && c.oob <= b.oob
    && NormalServed(t) <= c.cont <= b.cont
    && (c.cont > 0 ==> Skips(t) == 0)
  }

  lemma AddEvent(t: seq<Ev>, e: Ev)
    ensures Served(t + [e]) == if e == OobPoll then 0 else Served(t) + (if e in {Normal, Cached} then 1 else 0)
    ensures OobServed(t + [e]) == if e in {Attempt, Skip} then 0 else OobServed(t) + (if e == OobDelivery then 1 else 0)
    ensures NormalServed(t + [e]) == if e == CacheAttempt then 0 else NormalServed(t) + (if e == Normal then 1 else 0)
    ensures Skips(t + [e]) == if e == Attempt then 0 else Skips(t) + (if e == Skip then 1 else 0)
  {
    assert (t + [e])[..|t|] == t;
  }

  lemma AddBounds(t: seq<Ev>, e: Ev, b: Budgets)
    requires AllBounds(t, b)
    requires Served(t + [e]) <= AtLeastOne(b.msg) && OobServed(t + [e]) <= b.oob && NormalServed(t + [e]) <= b.cont
    requires if b.cont > 0 then Skips(t + [e]) <= 1 else e != Attempt
    ensures AllBounds(t + [e], b)
  {
    BypassSnoc(t, e, {Normal, Cached}, {OobPoll}, AtLeastOne(b.msg));
    BypassSnoc(t, e, {OobDelivery}, {Attempt, Skip}, b.oob);
    BypassSnoc(t, e, {Normal}, {CacheAttempt}, b.cont);
    if b.cont > 0 { BypassSnoc(t, e, {Skip}, {Attempt}, 1); }
  }

  lemma BoundsNow(t: seq<Ev>, b: Budgets)
    requires AllBounds(t, b)
    ensures Served(t) <= AtLeastOne(b.msg) && OobServed(t) <= b.oob && NormalServed(t) <= b.cont
    ensures b.cont > 0 ==> Skips(t) <= 1
  {
    assert t[..|t|] == t;
  }

  /** An out-of-band poll that delivers a message. */
  lemma OobOutcome(t: seq<Ev>, c: Counters, b: Budgets)
    requires Counted(t, c, b) && c.oob < b.oob
    ensures Counted(t + [OobPoll] + [OobDelivery], c.(oob := c.oob + 1), b)
  {
    BoundsNow(t, b);
    AddEvent(t, OobPoll);
    AddBounds(t, OobPoll, b);
    AddEvent(t + [OobPoll], OobDelivery);
    AddBounds(t + [OobPoll], OobDelivery, b);
  }

  /** An out-of-band poll that delivers nothing resets two counters. */
  lemma OobEmpty(t: seq<Ev>, c: Counters, b: Budgets)
    requires Counted(t, c, b)
    ensures MayServe(t + [OobPoll], Counters(0, 0, c.cont), b)
  {
    BoundsNow(t, b);
    AddEvent(t, OobPoll);
    AddBounds(t, OobPoll, b);
  }

  lemma NormalOutcome(t: seq<Ev>, c: Counters, b: Budgets)
    requires MayServe(t, c, b) && c.cont < b.cont
    ensures Counted(t + ServeEvents(true, true, true), Counters(c.mq + 1, c.oob, c.cont + 1), b)
  {
    assert t + ServeEvents(true, true, true) == t + [Attempt] + [Normal];
    BoundsNow(t, b);
    AddEvent(t, Attempt);
    AddBounds(t, Attempt, b);
    AddEvent(t + [Attempt], Normal);
    AddBounds(t + [Attempt], Normal, b);
  }

  /** The limit is reached or the normal queue is empty: the attempt or skip, and the cache attempt. */
  lemma CacheTried(t: seq<Ev>, c: Counters, b: Budgets)
    requires MayServe(t, c, b)
    ensures var e := if c.cont < b.cont then Attempt else Skip;
            var t' := t + [e] + [CacheAttempt];
            && AllBounds(t', b) && Served(t') == Served(t) && OobServed(t') == 0 && NormalServed(t') == 0
  {
    var e := if c.cont < b.cont then Attempt else Skip;
    BoundsNow(t, b);
    AddEvent(t, e);
    AddBounds(t, e, b);
    AddEvent(t + [e], CacheAttempt);
    AddBounds(t + [e], CacheAttempt, b);
  }

  lemma CacheOutcome(t: seq<Ev>, c: Counters, b: Budgets)
    requires MayServe(t, c, b)
    ensures Counted(t + ServeEvents(c.cont < b.cont, false, true), Counters(c.mq + 1, c.oob, 0), b)
    ensures Counted(t + ServeEvents(c.cont < b.cont, false, false), Counters(b.msg, c.oob, 0), b)
  {
    var e := if c.cont < b.cont then Attempt else Skip;
    var t' := t + [e] + [CacheAttempt];
    CacheTried(t, c, b);
    assert t + ServeEvents(c.cont < b.cont, false, true) == t' + [Cached];
    assert t + ServeEvents(c.cont < b.cont, false, false) == t';
    BoundsNow(t', b);
    AddEvent(t', Cached);
    AddBounds(t', Cached, b);
  }

  /** What waits when a poll starts; `cached` is whether a cache queue would deliver. */
  datatype Waiting = Waiting(oob: bool, normal: bool, cached: bool)

  const OobWaits := Waiting(true, false, false)
  const NormalWaits := Waiting(false, true, false)
  const CachedWaits := Waiting(false, false, true)

  predicate TakesOob(c: Counters, b: Budgets, w: Waiting) { c.mq >= b.msg && c.oob < b.oob && w.oob }

  /** The counters when the queues are tried: an out-of-band poll that delivered nothing has reset two. */
  function BeforeServe(c: Counters, b: Budgets): Counters {
    if c.mq >= b.msg then Counters(0, 0, c.cont) else c
  }

  /** The events of one poll. */
  function PollEvents(c: Counters, b: Budgets, w: Waiting): seq<Ev> {
    if TakesOob(c, b, w) then [OobPoll] + [OobDelivery]
    else (if c.mq >= b.msg then [OobPoll] else []) + ServeEvents(c.cont < b.cont, w.normal, w.cached)
  }

  /** The service counters after the queues were tried. */
  function AfterServe(c: Counters, b: Budgets, normal: bool, cached: bool): Counters {
    if c.cont < b.cont && normal then Counters(c.mq + 1, c.oob, c.cont + 1)
    else if cached then Counters(c.mq + 1, c.oob, 0)
    else Counters(b.msg, c.oob, 0)
  }

  function PollCounters(c: Counters, b: Budgets, w: Waiting): Counters {
    if TakesOob(c, b, w) then c.(oob := c.oob + 1) else AfterServe(BeforeServe(c, b), b, w.normal, w.cached)
  }

  /** The events of a poll that delivers no out-of-band message, in the order they happen. */
  lemma PollJoins(t: seq<Ev>, t': seq<Ev>, c: Counters, b: Budgets, w: Waiting)
    requires !TakesOob(c, b, w) && t' == if c.mq >= b.msg then t + [OobPoll] else t
    ensures t' + ServeEvents(c.cont < b.cont, w.normal, w.cached) == t + PollEvents(c, b, w)
  {
  }

  datatype Polled = Polled(trace: seq<Ev>, counters: Counters)

  function Step(b: Budgets, r: Polled, w: Waiting): Polled {
    Polled(r.trace + PollEvents(r.counters, b, w), PollCounters(r.counters, b, w))
  }

  /** A run of the poll loop, by what waits at each poll. */
  function Run(b: Budgets, ws: seq<Waiting>): Polled {
    if ws == [] then Polled([], Counters(0, 0, 0)) else Step(b, Run(b, ws[..|ws| - 1]), ws[|ws| - 1])
  }

  lemma ServeCounts(t: seq<Ev>, c: Counters, b: Budgets, w: Waiting)
    requires MayServe(t, c, b)
    ensures Counted(t + ServeEvents(c.cont < b.cont, w.normal, w.cached), AfterServe(c, b, w.normal, w.cached), b)
  {
    if c.cont < b.cont && w.normal { NormalOutcome(t, c, b); } else { CacheOutcome(t, c, b); }
  }

  lemma PollCounts(t: seq<Ev>, c: Counters, b: Budgets, w: Waiting)
    requires Counted(t, c, b)
    ensures Counted(t + PollEvents(c, b, w), PollCounters(c, b, w), b)
  {
    if TakesOob(c, b, w) {
      OobOutcome(t, c, b);
      OobJoins(t, c, b, w);
    } else {
      var t' := if c.mq >= b.msg then t + [OobPoll] else t;
      if c.mq >= b.msg { OobEmpty(t, c, b); }
      ServeCounts(t', BeforeServe(c, b), b, w);
      PollJoins(t, t', c, b, w);
    }
  }

  lemma OobJoins(t: seq<Ev>, c: Counters, b: Budgets, w: Waiting)
    requires TakesOob(c, b, w)
    ensures t + PollEvents(c, b, w) == t + [OobPoll] + [OobDelivery]
  {
  }

  /** The counters cover the trace in every run of the poll loop. */
  lemma {:induction false} RunIsCounted(b: Budgets, ws: seq<Waiting>)
    ensures Counted(Run(b, ws).trace, Run(b, ws).counters, b)
  {
    if ws != [] {
      RunIsCounted(b, ws[..|ws| - 1]);
      var r := Run(b, ws[..|ws| - 1]);
      PollCounts(r.trace, r.counters, b, ws[|ws| - 1]);
    }
  }

  /** Each skipped attempt adds at most one budget of out-of-band deliveries. */
  lemma {:induction false} OobPerSkip(t: seq<Ev>, bound: nat)
    requires Bypass(t, {OobDelivery}, {Attempt, Skip}, bound)
    ensures Since(t, {OobDelivery}, {Attempt}) <= bound * Skips(t) + OobServed(t)
  {
    if t != [] {
      var front := t[..|t| - 1];
      assert forall j :: 0 <= j <= |front| ==> front[..j] == t[..j];
      OobPerSkip(front, bound);
      assert front[..|front|] == front && OobServed(front) <= bound;
    }
  }

  /**
   Bounded bypass over any stretch of a counted trace: at most msg_budget_ (at least one)
   normal or cached deliveries without an out-of-band poll; at most
   mq_cont_process_limit_ normal deliveries without a cache-queue attempt; at most
   oob_msg_budget_ out-of-band deliveries without an attempt or a skipped attempt on the
   normal queue, and at most twice that without an attempt if the limit is not zero.
   With a limit of zero there never is an attempt.
   */
  lemma BypassIsBounded(t: seq<Ev>, c: Counters, b: Budgets, i: nat, j: nat)
    requires Counted(t, c, b) && i <= j <= |t|
    ensures Without(t[i..j], {OobPoll}) ==> Tally(t[i..j], {Normal, Cached}) <= AtLeastOne(b.msg)
    ensures Without(t[i..j], {CacheAttempt}) ==> Tally(t[i..j], {Normal}) <= b.cont
    ensures Without(t[i..j], {Attempt, Skip}) ==> Tally(t[i..j], {OobDelivery}) <= b.oob
    ensures b.cont > 0 && Without(t[i..j], {Attempt}) ==>
              Tally(t[i..j], {Skip}) <= 1 && Tally(t[i..j], {OobDelivery}) <= 2 * b.oob
    ensures b.cont == 0 ==> Without(t, {Attempt})
  {
    if Without(t[i..j], {OobPoll}) { BypassWindow(t, i, j, {Normal, Cached}, {OobPoll}, AtLeastOne(b.msg)); }
    if Without(t[i..j], {CacheAttempt}) { BypassWindow(t, i, j, {Normal}, {CacheAttempt}, b.cont); }
    if Without(t[i..j], {Attempt, Skip}) { BypassWindow(t, i, j, {OobDelivery}, {Attempt, Skip}, b.oob); }
    if b.cont > 0 && Without(t[i..j], {Attempt}) {
      BypassWindow(t, i, j, {Skip}, {Attempt}, 1);
      TwoBudgets(t, i, j, b);
    }
  }

  lemma TwoBudgets(t: seq<Ev>, i: nat, j: nat, b: Budgets)
    requires AllBounds(t, b) && i <= j <= |t| && b.cont > 0 && Without(t[i..j], {Attempt})
    ensures Tally(t[i..j], {OobDelivery}) <= 2 * b.oob
  {
    var u := t[..j];
    assert forall k :: 0 <= k <= |u| ==> u[..k] == t[..k];
    assert Bypass(u, {OobDelivery}, {Attempt, Skip}, b.oob);
    OobPerSkip(u, b.oob);
    TallySince(t, i, j, {OobDelivery}, {Attempt});
    assert u[..|u|] == u;
    var k := Skips(u);
    assert k == 0 || k == 1;
    assert b.oob * k <= b.oob;
  }

  // --------------------------------------------------------------- the thread

  class ThreadBase {
    var blockMap: set<nat>
    var cacheMap: set<nat>
    var cacheQueues: map<nat, seq<Message>>
    var releaseAlert: set<nat>
    var releaseQueue: seq<nat>
    var current: Option<nat>
    var nrReleaseCacheQueues: int
    var nrCqSrvCnt: int
    const nrCqSrvBudget: int
    var mq: seq<Message>
    var oobMq: seq<Message>
    var counters: Counters
    const budgets: Budgets

    /** What the polls have done so far. */
    ghost var trace: seq<Ev>
    /** Every message accepted, and every one whose reference was dropped. */
    ghost var arrived: seq<Message>
    ghost var completed: seq<Message>

    function Queue(tag: nat): seq<Message>
      reads this`cacheQueues
    {
      if tag in cacheQueues then cacheQueues[tag] else []
    }

    ghost predicate Valid()
      reads this`blockMap, this`cacheMap, this`cacheQueues, this`releaseAlert, this`releaseQueue, this`current,
            this`nrReleaseCacheQueues, this`nrCqSrvCnt
    {
      Books() && InTurn()
    }

    /** The bookkeeping of blocked, cached and released tags. */
    ghost predicate Books()
      reads this`blockMap, this`cacheMap, this`cacheQueues, this`releaseAlert, this`releaseQueue, this`current, this`nrReleaseCacheQueues
    {
      && NoDup(releaseQueue)
      && (current.Some? ==> current.value !in releaseQueue)
      && (forall t :: t in releaseAlert <==> t in releaseQueue || current == Some(t))
      && nrReleaseCacheQueues == |releaseQueue| + (if current.Some? then 1 else 0)
      && (forall t :: t in cacheMap <==> t in blockMap || t in releaseAlert)
      && blockMap !! releaseAlert
      && (forall t :: t !in cacheMap ==> Queue(t) == [])
      && (forall t: nat :: AllTagged(Queue(t), t))
    }

    function View(): Maps
      reads this`blockMap, this`cacheMap, this`releaseAlert
    {
      Maps(blockMap, cacheMap, releaseAlert)
    }

    function TurnNow(): Turn
      reads this`current, this`releaseQueue, this`nrCqSrvCnt
    {
      Turn(current, releaseQueue, nrCqSrvCnt)
    }

    /** A turn that goes on has had some, but not all of its pops. */
    predicate InTurn()
      reads this`current, this`nrCqSrvCnt
    {
      current.Some? ==> 0 < nrCqSrvCnt < nrCqSrvBudget
    }

    /** The cache queue whose turn it is. */
    function NextTag(): nat
      reads this`current, this`releaseQueue
      requires current.Some? || releaseQueue != []
    {
      if current.Some? then current.value else releaseQueue[0]
    }

    /** Per tag: completed, then cached, then pending is the order of arrival. */
    ghost predicate Fifo()
      reads this`completed, this`cacheQueues, this`mq, this`arrived
    {
      forall t: nat :: InOrder(completed, Queue(t), mq, arrived, t)
    }

    /** Fifo while message m has been popped and is being delivered. */
    ghost predicate FifoHolding(m: Message)
      reads this`completed, this`cacheQueues, this`mq, this`arrived
    {
      forall t: nat :: InOrder(completed, Queue(t), [m] + mq, arrived, t)
    }

    constructor (cacheBudget: int, budgets: Budgets)
      ensures Valid() && Fifo() && mq == [] && completed == [] && arrived == []
      ensures this.budgets == budgets && nrCqSrvBudget == cacheBudget && Counted(trace, counters, budgets)
      ensures oobMq == [] && trace == [] && counters == Counters(0, 0, 0) && View() == Maps({}, {}, {})
    {
      oobMq, counters, trace, this.budgets := [], Counters(0, 0, 0), [], budgets;
      blockMap, cacheMap, releaseAlert := {}, {}, {};
      cacheQueues, releaseQueue, current := map[], [], None;
      nrReleaseCacheQueues, nrCqSrvCnt, nrCqSrvBudget := 0, 0, cacheBudget;
      mq, arrived, completed := [], [], [];
    }

    method AllocCacheQueue(tag: nat)
      modifies this`cacheQueues
      ensures tag in cacheQueues && forall t: nat :: Queue(t) == old(Queue(t))
    {
      if tag !in cacheQueues {
        cacheQueues := cacheQueues[tag := []];
      }
    }

    method ReleaseMessageProcess(tag: nat)
      requires Valid()
      modifies this`cacheQueues, this`blockMap, this`releaseQueue, this`releaseAlert, this`nrReleaseCacheQueues
      ensures Valid() && (forall t: nat :: Queue(t) == old(Queue(t)))
      ensures View() == AfterCall(old(View()), Release(tag))
      ensures releaseQueue == old(releaseQueue) + (if tag in old(blockMap) then [tag] else [])
    {
      AllocCacheQueue(tag);
      if tag in blockMap {
        blockMap := blockMap - {tag};
        if tag !in releaseAlert {
          releaseQueue := releaseQueue + [tag];
          nrReleaseCacheQueues := nrReleaseCacheQueues + 1;
          releaseAlert := releaseAlert + {tag};
        }
      }
    }

    /** Takes a scheduled tag out of the release queue by rotating it. */
    method Unschedule(tag: nat)
      requires tag in releaseQueue
      modifies this`releaseQueue
      ensures releaseQueue == Rotated(old(releaseQueue), tag)
    {
      ghost var q := releaseQueue;
      ghost var p := IndexOf(q, tag);
      ghost var i := 0;
      var found := false;
      while releaseQueue != []
        invariant 0 <= i <= p && !found && releaseQueue == q[i..] + q[..i]
        decreases p - i
      {
        var head := releaseQueue[0];
        assert head == q[i];
        releaseQueue := releaseQueue[1..];
        assert releaseQueue == q[i + 1..] + q[..i];
        if head == tag {
          found := true;
          assert i == p;
          break;
        }
        releaseQueue := releaseQueue + [head];
        assert i < p by { assert i != p; }
        i := i + 1;
      }
      assert found;
    }

    method BlockMessageProcess(tag: nat)
      requires Valid()
      modifies this`cacheQueues, this`blockMap, this`cacheMap, this`releaseQueue, this`current,
               this`releaseAlert, this`nrReleaseCacheQueues
      ensures Valid() && (forall t: nat :: Queue(t) == old(Queue(t)))
      ensures View() == AfterCall(old(View()), Block(tag))
      ensures current == if old(current) == Some(tag) then None else old(current)
      ensures releaseQueue == if tag in old(releaseQueue) then Rotated(old(releaseQueue), tag) else old(releaseQueue)
    {
      AllocCacheQueue(tag);
      cacheMap := cacheMap + {tag};
      blockMap := blockMap + {tag};
      if tag in releaseAlert {
        if current == Some(tag) {
          current := None;
        } else {
          Unschedule(tag);
        }
        nrReleaseCacheQueues := nrReleaseCacheQueues - 1;
        releaseAlert := releaseAlert - {tag};
      }
    }

    /** A message reaches the thread's queue. */
    method AcceptMessage(m: Message)
      modifies this`mq, this`arrived
      ensures mq == old(mq) + [m] && arrived == old(arrived) + [m]
      ensures old(Fifo()) ==> Fifo()
    {
      mq := mq + [m];
      arrived := arrived + [m];
      if old(Fifo()) {
        forall t: nat ensures InOrder(completed, Queue(t), mq, arrived, t) {
          ArrivedInOrder(completed, Queue(t), old(mq), old(arrived), [m], t);
        }
      }
    }

    /** An out-of-band message reaches the thread. */
    method AcceptOobMessage(m: Message)
      modifies this`oobMq
      ensures oobMq == old(oobMq) + [m]
    {
      oobMq := oobMq + [m];
    }

    /**
     An application handler: any calls, in any order.  It leaves the cache
     queues and the completed messages alone, and messages only arrive.
     */
    method RunHandler(calls: seq<Call>)
      requires Valid()
      modifies this`cacheQueues, this`blockMap, this`cacheMap, this`releaseQueue, this`current,
               this`releaseAlert, this`nrReleaseCacheQueues, this`mq, this`arrived, this`oobMq
      ensures Valid() && (forall t: nat :: Queue(t) == old(Queue(t)))
      ensures mq == old(mq) + Accepted(calls) && arrived == old(arrived) + Accepted(calls)
      ensures oobMq == old(oobMq) + AcceptedOob(calls) && View() == AfterCalls(old(View()), calls)
      ensures NoBlocks(calls) ==> Joined(old(TurnNow()), TurnNow())
    {
      var i := 0;
      while i < |calls|
        invariant i <= |calls| && Valid() && (forall t: nat :: Queue(t) == old(Queue(t)))
        invariant mq == old(mq) + Accepted(calls[..i]) && arrived == old(arrived) + Accepted(calls[..i])
        invariant oobMq == old(oobMq) + AcceptedOob(calls[..i]) && View() == AfterCalls(old(View()), calls[..i])
        invariant NoBlocks(calls) ==> Joined(old(TurnNow()), TurnNow())
      {
        AcceptedSnoc(calls, i);
        RunCall(calls[i]);
        i := i + 1;
      }
      assert calls[..i] == calls;
    }

    /** One call of a handler. */
    method RunCall(call: Call)
      requires Valid()
      modifies this`cacheQueues, this`blockMap, this`cacheMap, this`releaseQueue, this`current,
               this`releaseAlert, this`nrReleaseCacheQueues, this`mq, this`arrived, this`oobMq
      ensures Valid() && (forall t: nat :: Queue(t) == old(Queue(t)))
      ensures var more := if call.Accept? then [call.msg] else []; mq == old(mq) + more && arrived == old(arrived) + more
      ensures oobMq == old(oobMq) + (if call.AcceptOob? then [call.msg] else []) && View() == AfterCall(old(View()), call)
      ensures !call.Block? ==> Joined(old(TurnNow()), TurnNow())
    {
      match call {
        case Block(tag) => BlockMessageProcess(tag);
        case Release(tag) => ReleaseMessageProcess(tag);
        case Accept(m) => AcceptMessage(m);
        case AcceptOob(m) => AcceptOobMessage(m);
      }
    }

    /** Runs the handler of a message popped from the normal queue. */
    method HandleMessage(m: Message, calls: seq<Call>)
      requires Valid() && FifoHolding(m)
      modifies this`cacheQueues, this`blockMap, this`cacheMap, this`releaseQueue, this`current,
               this`releaseAlert, this`nrReleaseCacheQueues, this`mq, this`arrived, this`oobMq
      ensures Valid() && FifoHolding(m) && (forall t: nat :: Queue(t) == old(Queue(t)))
      ensures mq == old(mq) + Accepted(calls) && oobMq == old(oobMq) + AcceptedOob(calls)
      ensures View() == AfterCalls(old(View()), calls)
      ensures NoBlocks(calls) ==> Joined(old(TurnNow()), TurnNow())
    {
      RunHandler(calls);
      forall t: nat ensures InOrder(completed, Queue(t), [m] + mq, arrived, t) {
        assert [m] + mq == [m] + old(mq) + Accepted(calls);
        ArrivedInOrder(completed, Queue(t), [m] + old(mq), old(arrived), Accepted(calls), t);
      }
    }

    /** Appends the message being delivered to its cache queue. */
    method CacheMessage(m: Message)
      requires Valid() && FifoHolding(m) && m.tag in cacheMap
      modifies this`cacheQueues
      ensures Valid() && Fifo()
      ensures forall t: nat :: Queue(t) == old(Queue(t)) + (if t == m.tag then [m] else [])
    {
      AllocCacheQueue(m.tag);
      cacheQueues := cacheQueues[m.tag := cacheQueues[m.tag] + [m]];
      forall t: nat ensures AllTagged(Queue(t), t) {
        assert AllTagged(old(Queue(t)), t);
      }
      forall t: nat ensures InOrder(completed, Queue(t), mq, arrived, t) {
        CachedInOrder(completed, old(Queue(t)), m, mq, arrived, t);
      }
    }

    /** Drops the reference of the message being delivered. */
    method Complete(m: Message)
      requires Valid() && FifoHolding(m) && Queue(m.tag) == []
      modifies this`completed
      ensures Valid() && Fifo() && completed == old(completed) + [m]
    {
      completed := completed + [m];
      forall t: nat ensures InOrder(completed, Queue(t), mq, arrived, t) {
        CompletedInOrder(old(completed), Queue(t), m, mq, arrived, t);
      }
    }

    /**
     Delivers a message popped from the normal queue.  It is completed once, or
     it goes to the end of its tag's cache queue, without or after a run of its
     handler.
     */
    method DeliverMessage(m: Message, calls: seq<Call>)
      requires Valid() && FifoHolding(m)
      modifies this`cacheQueues, this`blockMap, this`cacheMap, this`releaseQueue, this`current,
               this`releaseAlert, this`nrReleaseCacheQueues, this`mq, this`arrived, this`oobMq, this`completed
      ensures Valid() && Fifo()
      ensures completed == old(completed) + [m] || (completed == old(completed) && m in Queue(m.tag))
      ensures m.tag !in old(cacheMap) ==> mq == old(mq) + Accepted(calls) && oobMq == old(oobMq) + AcceptedOob(calls)
      ensures m.tag !in old(cacheMap) ==> View() == AfterCalls(old(View()), calls)
      ensures NoBlocks(calls) ==> Joined(old(TurnNow()), TurnNow())
      ensures m.tag in old(cacheMap) ==> completed == old(completed) && mq == old(mq) && oobMq == old(oobMq) && View() == old(View())
      ensures forall t: nat :: Queue(t) == old(Queue(t)) + (if t == m.tag && m.tag in cacheMap then [m] else [])
    {
      if m.tag !in cacheMap {
        HandleMessage(m, calls);
      }
      if m.tag in cacheMap {
        CacheMessage(m);
      } else {
        Complete(m);
      }
    }

    /**
     Delivers the head of a released cache queue.  It is completed and taken
     out once, unless its handler has blocked its tag again.
     */
    method DeliverCachedMessage(m: Message, calls: seq<Call>)
      requires Valid() && Fifo() && Queue(m.tag) != [] && Queue(m.tag)[0] == m
      requires m.tag !in blockMap
      modifies this`cacheQueues, this`blockMap, this`cacheMap, this`releaseQueue, this`current,
               this`releaseAlert, this`nrReleaseCacheQueues, this`mq, this`arrived, this`oobMq, this`completed
      ensures Valid() && Fifo()
      ensures mq == old(mq) + Accepted(calls) && oobMq == old(oobMq) + AcceptedOob(calls)
      ensures View() == AfterCalls(old(View()), calls)
      ensures NoBlocks(calls) ==> Joined(old(TurnNow()), TurnNow())
      ensures m.tag in blockMap ==> completed == old(completed) && Queue(m.tag) == old(Queue(m.tag))
      ensures m.tag !in blockMap ==> completed == old(completed) + [m] && Queue(m.tag) == old(Queue(m.tag))[1..]
      ensures forall t: nat :: t != m.tag ==> Queue(t) == old(Queue(t))
    {
      RunHandler(calls);
      forall t: nat ensures InOrder(completed, Queue(t), mq, arrived, t) {
        ArrivedInOrder(completed, Queue(t), old(mq), old(arrived), Accepted(calls), t);
      }
      if m.tag in blockMap {
        return;
      }
      PopHead(m);
    }

    /** Takes the head of a cache queue out and drops its reference. */
    method PopHead(m: Message)
      requires Valid() && Fifo() && Queue(m.tag) != [] && Queue(m.tag)[0] == m
      modifies this`cacheQueues, this`completed
      ensures Valid() && Fifo()
      ensures completed == old(completed) + [m] && Queue(m.tag) == old(Queue(m.tag))[1..]
      ensures forall t: nat :: t != m.tag ==> Queue(t) == old(Queue(t))
    {
      assert m.tag in cacheMap;
      cacheQueues := cacheQueues[m.tag := cacheQueues[m.tag][1..]];
      completed := completed + [m];
      forall t: nat ensures AllTagged(Queue(t), t) {
        assert AllTagged(old(Queue(t)), t);
      }
      forall t: nat ensures InOrder(completed, Queue(t), mq, arrived, t) {
        PoppedInOrder(old(completed), old(Queue(t)), Queue(t), m, mq, arrived, t);
      }
    }

    /** Makes a released cache queue current, the first in turn if none is. */
    method ChooseQueue()
      requires Valid() && nrReleaseCacheQueues > 0
      modifies this`current, this`releaseQueue, this`nrCqSrvCnt
      ensures Books() && current.Some? && current.value in releaseAlert
      ensures current == if old(current).Some? then old(current) else Some(old(releaseQueue)[0])
      ensures releaseQueue == if old(current).Some? then old(releaseQueue) else old(releaseQueue)[1..]
      ensures nrCqSrvCnt == if old(current).Some? then old(nrCqSrvCnt) else 0
    {
      if current.None? {
        assert releaseQueue == [releaseQueue[0]] + releaseQueue[1..];
        current := Some(releaseQueue[0]);
        releaseQueue := releaseQueue[1..];
        nrCqSrvCnt := 0;
      }
    }

    /** Sends the current cache queue to the end of the release queue. */
    method Requeue()
      requires Books() && current.Some?
      modifies this`current, this`releaseQueue, this`nrCqSrvCnt
      ensures Valid() && current.None? && releaseQueue == old(releaseQueue) + [old(current).value] && nrCqSrvCnt == 0
    {
      releaseQueue := releaseQueue + [current.value];
      current := None;
      nrCqSrvCnt := 0;
    }

    /** The current cache queue is drained: its tag is no longer cached. */
    method Retire()
      requires Books() && current.Some? && Queue(current.value) == []
      modifies this`current, this`nrReleaseCacheQueues, this`releaseAlert, this`cacheMap
      ensures Valid() && current.None?
      ensures cacheMap == old(cacheMap) - {old(current).value}
      ensures releaseAlert == old(releaseAlert) - {old(current).value}
    {
      var tag := current.value;
      nrReleaseCacheQueues := nrReleaseCacheQueues - 1;
      releaseAlert := releaseAlert - {tag};
      cacheMap := cacheMap - {tag};
      current := None;
    }

    /**
     Chooses the head of the current or next released cache queue.  When that
     queue is empty, its tag leaves the schedule and is no longer cached.
     */
    method PopCachedMessage() returns (r: Option<Message>)
      requires Valid() && Fifo() && nrReleaseCacheQueues > 0
      modifies this`current, this`releaseQueue, this`nrCqSrvCnt, this`nrReleaseCacheQueues,
               this`releaseAlert, this`cacheMap
      ensures Valid() && Fifo()
      ensures var tag := old(NextTag());
              if Queue(tag) != []
              then r == Some(Queue(tag)[0]) && r.value.tag == tag && tag !in blockMap
                   && cacheMap == old(cacheMap) && releaseAlert == old(releaseAlert)
              else r == None && cacheMap == old(cacheMap) - {tag} && releaseAlert == old(releaseAlert) - {tag}
      ensures TurnNow() == Popped(old(TurnNow()), nrCqSrvBudget, r.None?)
    {
      ChooseQueue();
      nrCqSrvCnt := nrCqSrvCnt + 1;
      r := PopCurrent();
    }

    /** The head of the current cache queue; an empty queue leaves the schedule. */
    method PopCurrent() returns (r: Option<Message>)
      requires Books() && Fifo() && current.Some? && nrCqSrvCnt > 0
      modifies this`current, this`releaseQueue, this`nrCqSrvCnt, this`nrReleaseCacheQueues,
               this`releaseAlert, this`cacheMap
      ensures Valid() && Fifo()
      ensures var tag := old(current).value;
              if Queue(tag) != []
              then r == Some(Queue(tag)[0]) && r.value.tag == tag && tag !in blockMap
                   && cacheMap == old(cacheMap) && releaseAlert == old(releaseAlert)
              else r == None && cacheMap == old(cacheMap) - {tag} && releaseAlert == old(releaseAlert) - {tag}
      ensures TurnNow() == if r.None? then Turn(None, old(releaseQueue), old(nrCqSrvCnt))
                           else if old(nrCqSrvCnt) >= nrCqSrvBudget
                           then Turn(None, old(releaseQueue) + [old(current).value], 0)
                           else old(TurnNow())
    {
      var tag := current.value;
      var q := Queue(tag);
      CurrentIsFree();
      if q != [] {
        r := Some(q[0]);
        EndTurn();
      } else {
        Retire();
        r := None;
      }
    }

    /** The tag whose turn it is is not blocked, and its cache queue holds its own messages. */
    lemma CurrentIsFree()
      requires Books() && current.Some?
      ensures current.value !in blockMap && AllTagged(Queue(current.value), current.value)
    {
      assert current.value in releaseAlert;
    }

    /** The turn ends exactly when the count has reached the budget. */
    method EndTurn()
      requires Books() && current.Some? && nrCqSrvCnt > 0
      modifies this`current, this`releaseQueue, this`nrCqSrvCnt
      ensures Valid()
      ensures TurnNow() == if old(nrCqSrvCnt) >= nrCqSrvBudget
                           then Turn(None, old(releaseQueue) + [old(current).value], 0)
                           else old(TurnNow())
    {
      if nrCqSrvCnt >= nrCqSrvBudget {
        Requeue();
      }
    }

    /** Takes the next message off the normal queue. */
    method PopMessage() returns (m: Message)
      requires Fifo() && mq != []
      modifies this`mq
      ensures old(mq) == [m] + mq && FifoHolding(m)
    {
      m := mq[0];
      mq := mq[1..];
      assert [m] + mq == old(mq);
    }

    /** Runs the handler of an out-of-band message. */
    method RunSignalHandler(calls: seq<Call>)
      requires Valid() && Fifo()
      modifies this`cacheQueues, this`blockMap, this`cacheMap, this`releaseQueue, this`current,
               this`releaseAlert, this`nrReleaseCacheQueues, this`mq, this`arrived, this`oobMq
      ensures Valid() && Fifo() && (forall t: nat :: Queue(t) == old(Queue(t)))
      ensures mq == old(mq) + Accepted(calls) && oobMq == old(oobMq) + AcceptedOob(calls)
      ensures View() == AfterCalls(old(View()), calls)
      ensures NoBlocks(calls) ==> Joined(old(TurnNow()), TurnNow())
    {
      RunHandler(calls);
      forall t: nat ensures InOrder(completed, Queue(t), mq, arrived, t) {
        ArrivedInOrder(completed, Queue(t), old(mq), old(arrived), Accepted(calls), t);
      }
    }

    /** Counts and delivers the next out-of-band message. */
    method DeliverOOBMessage(calls: seq<Call>)
      requires Valid() && Fifo() && oobMq != []
      modifies this`cacheQueues, this`blockMap, this`cacheMap, this`releaseQueue, this`current,
               this`releaseAlert, this`nrReleaseCacheQueues, this`mq, this`arrived,
               this`oobMq, this`counters, this`trace
      ensures Valid() && Fifo() && (forall t: nat :: Queue(t) == old(Queue(t)))
      ensures View() == AfterCalls(old(View()), calls) && (NoBlocks(calls) ==> Joined(old(TurnNow()), TurnNow()))
      ensures oobMq == old(oobMq)[1..] + AcceptedOob(calls) && mq == old(mq) + Accepted(calls)
      ensures counters == old(counters).(oob := old(counters).oob + 1) && trace == old(trace) + [OobDelivery]
    {
      counters := counters.(oob := counters.oob + 1);
      oobMq := oobMq[1..];
      trace := trace + [OobDelivery];
      RunSignalHandler(calls);
    }

    /** Polls the out-of-band queue; a signal handler may block and release. */
    method PollOOBMessage(calls: seq<Call>) returns (delivered: bool)
      requires Valid() && Fifo() && Counted(trace, counters, budgets)
      modifies this`cacheQueues, this`blockMap, this`cacheMap, this`releaseQueue, this`current,
               this`releaseAlert, this`nrReleaseCacheQueues, this`mq, this`arrived,
               this`oobMq, this`counters, this`trace
      ensures Valid() && Fifo() && (forall t: nat :: Queue(t) == old(Queue(t)))
      ensures View() == (if delivered then AfterCalls(old(View()), calls) else old(View()))
      ensures NoBlocks(calls) ==> Joined(old(TurnNow()), TurnNow())
      ensures !delivered ==> current == old(current) && releaseQueue == old(releaseQueue)
                             && nrReleaseCacheQueues == old(nrReleaseCacheQueues)
      ensures delivered <==> old(counters).oob < budgets.oob && old(oobMq) != []
      ensures delivered ==> oobMq == old(oobMq)[1..] + AcceptedOob(calls) && mq == old(mq) + Accepted(calls)
      ensures delivered ==> counters == old(counters).(oob := old(counters).oob + 1) && Counted(trace, counters, budgets)
      ensures delivered ==> trace == old(trace) + [OobPoll] + [OobDelivery]
      ensures !delivered ==> counters == Counters(0, 0, old(counters).cont) && trace == old(trace) + [OobPoll]
      ensures !delivered ==> oobMq == old(oobMq) && mq == old(mq)
    {
      trace := trace + [OobPoll];
      if counters.oob < budgets.oob && oobMq != [] {
        OobOutcome(old(trace), counters, budgets);
        DeliverOOBMessage(calls);
        delivered := true;
      } else {
        counters := Counters(0, 0, counters.cont);
        delivered := false;
      }
    }

    /** The next poll delivers an out-of-band message. */
    predicate PollsOob()
      reads this`counters, this`oobMq
    {
      counters.mq >= budgets.msg && counters.oob < budgets.oob && oobMq != []
    }

    /** The next poll pops a released cache queue. */
    predicate PollsCached()
      reads this
    {
      !PollsOob() && (counters.cont >= budgets.cont || mq == []) && nrReleaseCacheQueues != 0
    }

    /** What the delivery of message m of the normal queue did to the queues and maps. */
    predicate NormalEffect(m: Message, calls: seq<Call>, view: Maps, mq0: seq<Message>, oob0: seq<Message>)
      reads this
    {
      && mq0 != []
      && (if m.tag in view.cached then View() == view && mq == mq0[1..] && oobMq == oob0
          else View() == AfterCalls(view, calls) && mq == mq0[1..] + Accepted(calls) && oobMq == oob0 + AcceptedOob(calls))
    }

    /** What the turn of a cache queue did: its head was delivered, or it was empty and is no longer scheduled. */
    predicate CachedEffect(ok: bool, tag: nat, calls: seq<Call>, view: Maps, mq0: seq<Message>, oob0: seq<Message>)
      reads this
    {
      if ok then View() == AfterCalls(view, calls) && mq == mq0 + Accepted(calls) && oobMq == oob0 + AcceptedOob(calls)
      else View() == view.(cached := view.cached - {tag}, alert := view.alert - {tag}) && mq == mq0 && oobMq == oob0
    }

    /**
     One call of the poll lambda.  Whatever it serves, the bookkeeping, the
     per-tag order and the service bounds are kept.
     */
    method Poll(calls: seq<Call>) returns (ok: bool)
      requires Valid() && Fifo() && Counted(trace, counters, budgets)
      modifies this
      ensures Valid() && Fifo() && Counted(trace, counters, budgets)
      ensures var w := Waiting(old(oobMq) != [], old(mq) != [], ok);
              trace == old(trace) + PollEvents(old(counters), budgets, w) && counters == PollCounters(old(counters), budgets, w)
      ensures ok || old(mq) == [] || old(counters).cont >= budgets.cont
      ensures old(PollsOob()) ==>
                && View() == AfterCalls(old(View()), calls) && (forall t: nat :: Queue(t) == old(Queue(t)))
                && mq == old(mq) + Accepted(calls) && oobMq == old(oobMq)[1..] + AcceptedOob(calls)
      ensures !old(PollsOob()) && old(counters).cont < budgets.cont && old(mq) != [] ==> NormalEffect(old(mq)[0], calls, old(View()), old(mq), old(oobMq))
      ensures !old(PollsOob()) && old(counters).cont < budgets.cont && old(mq) != [] ==>
                var m := old(mq)[0];
                forall t: nat :: Queue(t) == old(Queue(t)) + (if t == m.tag && m.tag in cacheMap then [m] else [])
      ensures !old(PollsOob()) && (old(counters).cont >= budgets.cont || old(mq) == []) && old(nrReleaseCacheQueues) == 0 ==>
                !ok && View() == old(View()) && mq == old(mq) && oobMq == old(oobMq) && forall t: nat :: Queue(t) == old(Queue(t))
      ensures !old(PollsOob()) && (old(counters).cont >= budgets.cont || old(mq) == []) && old(nrReleaseCacheQueues) != 0 ==>
                var tag := old(NextTag());
                (ok <==> old(Queue(tag)) != []) && CachedEffect(ok, tag, calls, old(View()), old(mq), old(oobMq))
      ensures !old(PollsOob()) && (old(counters).cont >= budgets.cont || old(mq) == []) && old(nrReleaseCacheQueues) != 0 ==>
                var tag := old(NextTag());
                forall t: nat :: Queue(t) == if t == tag && ok && tag !in blockMap then old(Queue(t))[1..] else old(Queue(t))
      ensures NoBlocks(calls) ==> Joined(if old(PollsCached()) then Popped(old(TurnNow()), nrCqSrvBudget, !ok) else old(TurnNow()), TurnNow())
    {
      if counters.mq >= budgets.msg {
        ghost var t, c := trace, counters;
        var delivered := PollOOBMessage(calls);
        if delivered {
          assert trace == t + ([OobPoll] + [OobDelivery]);
          return true;
        }
        OobEmpty(t, c, budgets);
      }
      ghost var before := trace;
      ok := Serve(calls);
      PollJoins(old(trace), before, old(counters), budgets, Waiting(old(oobMq) != [], old(mq) != [], ok));
    }

    /** The rest of a poll: the normal queue unless its limit is reached, then the released cache queues. */
    method Serve(calls: seq<Call>) returns (ok: bool)
      requires Valid() && Fifo() && MayServe(trace, counters, budgets)
      modifies this
      ensures Valid() && Fifo() && Counted(trace, counters, budgets)
      ensures var tried, normal := old(counters).cont < budgets.cont, old(mq) != [];
              && trace == old(trace) + ServeEvents(tried, normal, ok)
              && counters == AfterServe(old(counters), budgets, normal, ok)
              && (tried && normal ==> ok)
      ensures old(counters).cont < budgets.cont && old(mq) != [] ==> NormalEffect(old(mq)[0], calls, old(View()), old(mq), old(oobMq))
      ensures old(counters).cont < budgets.cont && old(mq) != [] ==>
                var m := old(mq)[0];
                forall t: nat :: Queue(t) == old(Queue(t)) + (if t == m.tag && m.tag in cacheMap then [m] else [])
      ensures (old(counters).cont >= budgets.cont || old(mq) == []) && old(nrReleaseCacheQueues) == 0 ==>
                !ok && View() == old(View()) && mq == old(mq) && oobMq == old(oobMq) && forall t: nat :: Queue(t) == old(Queue(t))
      ensures (old(counters).cont >= budgets.cont || old(mq) == []) && old(nrReleaseCacheQueues) != 0 ==>
                var tag := old(NextTag());
                (ok <==> old(Queue(tag)) != []) && CachedEffect(ok, tag, calls, old(View()), old(mq), old(oobMq))
      ensures (old(counters).cont >= budgets.cont || old(mq) == []) && old(nrReleaseCacheQueues) != 0 ==>
                var tag := old(NextTag());
                forall t: nat :: Queue(t) == if t == tag && ok && tag !in blockMap then old(Queue(t))[1..] else old(Queue(t))
      ensures NoBlocks(calls) ==>
                Joined(if (old(counters).cont >= budgets.cont || old(mq) == []) && old(nrReleaseCacheQueues) != 0
                       then Popped(old(TurnNow()), nrCqSrvBudget, !ok) else old(TurnNow()), TurnNow())
    {
      if counters.cont < budgets.cont && mq != [] {
        NormalOutcome(trace, counters, budgets);
        ServeNormal(calls);
        Record(trace + ServeEvents(true, true, true), Counters(counters.mq + 1, counters.oob, counters.cont + 1));
        return true;
      }
      ok := ServeReleased(calls);
      RecordOthers(ok);
    }

    /** The events and counters of a poll that served no normal message. */
    method RecordOthers(ok: bool)
      requires Valid() && Fifo() && MayServe(trace, counters, budgets)
      modifies this`trace, this`counters
      ensures Counted(trace, counters, budgets)
      ensures trace == old(trace) + ServeEvents(old(counters).cont < budgets.cont, false, ok)
      ensures counters == (if ok then Counters(old(counters).mq + 1, old(counters).oob, 0) else Counters(budgets.msg, old(counters).oob, 0))
    {
      CacheOutcome(trace, counters, budgets);
      if ok {
        Record(trace + ServeEvents(counters.cont < budgets.cont, false, true), Counters(counters.mq + 1, counters.oob, 0));
      } else {
        Record(trace + ServeEvents(counters.cont < budgets.cont, false, false), Counters(budgets.msg, counters.oob, 0));
      }
    }

    /** The released cache queues, if there are any. */
    method ServeReleased(calls: seq<Call>) returns (ok: bool)
      requires Valid() && Fifo()
      modifies this`cacheQueues, this`blockMap, this`cacheMap, this`releaseQueue, this`current, this`nrCqSrvCnt,
               this`releaseAlert, this`nrReleaseCacheQueues, this`mq, this`arrived, this`oobMq, this`completed
      ensures Valid() && Fifo()
      ensures old(nrReleaseCacheQueues) == 0 ==>
                !ok && View() == old(View()) && mq == old(mq) && oobMq == old(oobMq) && forall t: nat :: Queue(t) == old(Queue(t))
      ensures old(nrReleaseCacheQueues) != 0 ==>
                var tag := old(NextTag());
                (ok <==> old(Queue(tag)) != []) && CachedEffect(ok, tag, calls, old(View()), old(mq), old(oobMq))
      ensures old(nrReleaseCacheQueues) != 0 ==>
                var tag := old(NextTag());
                forall t: nat :: Queue(t) == if t == tag && ok && tag !in blockMap then old(Queue(t))[1..] else old(Queue(t))
      ensures NoBlocks(calls) ==>
                Joined(if old(nrReleaseCacheQueues) == 0 then old(TurnNow()) else Popped(old(TurnNow()), nrCqSrvBudget, !ok),
                       TurnNow())
    {
      ok := false;
      if nrReleaseCacheQueues > 0 {
        ok := ServeCached(calls);
      }
    }

    /** Sets the service counters at the end of a poll. */
    method Record(ghost t: seq<Ev>, c: Counters)
      requires Valid() && Fifo() && Counted(t, c, budgets)
      modifies this`trace, this`counters
      ensures Valid() && Fifo() && trace == t && counters == c
    {
      trace, counters := t, c;
    }

    /** Delivers the next message of the normal queue. */
    method ServeNormal(calls: seq<Call>)
      requires Valid() && Fifo() && mq != []
      modifies this`cacheQueues, this`blockMap, this`cacheMap, this`releaseQueue, this`current,
               this`releaseAlert, this`nrReleaseCacheQueues, this`mq, this`arrived, this`oobMq, this`completed
      ensures Valid() && Fifo()
      ensures var m := old(mq)[0];
              completed == old(completed) + [m] || (completed == old(completed) && m in Queue(m.tag))
      ensures NormalEffect(old(mq)[0], calls, old(View()), old(mq), old(oobMq))
      ensures var m := old(mq)[0];
              forall t: nat :: Queue(t) == old(Queue(t)) + (if t == m.tag && m.tag in cacheMap then [m] else [])
      ensures NoBlocks(calls) ==> Joined(old(TurnNow()), TurnNow())
    {
      var m := PopMessage();
      DeliverMessage(m, calls);
    }

    /** Delivers from a released cache queue, if the one in turn has a message. */
    method ServeCached(calls: seq<Call>) returns (ok: bool)
      requires Valid() && Fifo() && nrReleaseCacheQueues > 0
      modifies this`cacheQueues, this`blockMap, this`cacheMap, this`releaseQueue, this`current, this`nrCqSrvCnt,
               this`releaseAlert, this`nrReleaseCacheQueues, this`mq, this`arrived, this`oobMq, this`completed
      ensures Valid() && Fifo()
      ensures NoBlocks(calls) ==> Joined(Popped(old(TurnNow()), nrCqSrvBudget, !ok), TurnNow())
      ensures (ok <==> old(Queue(NextTag())) != []) && CachedEffect(ok, old(NextTag()), calls, old(View()), old(mq), old(oobMq))
      ensures var tag := old(NextTag());
              forall t: nat :: Queue(t) == if t == tag && ok && tag !in blockMap then old(Queue(t))[1..] else old(Queue(t))
    {
      var r := PopCachedMessage();
      match r
      case Some(m) =>
        DeliverCachedMessage(m, calls);
        ok := true;
      case None =>
        ok := false;
    }
  }
}
