/**
 How tight the bounds of the scheduler are: runs of a new `ThreadBase` that reach them.
 Messages arrive between polls; handlers do nothing unless said otherwise.
 */
module SchedulerRuns {
  import opened Common
  import opened Scheduler

  // ------------------------------------------------------------------- the events

  /** k polls that each deliver an out-of-band message. */
  function Burst(k: nat): seq<Ev> { if k == 0 then [] else Burst(k - 1) + [OobPoll] + [OobDelivery] }

  lemma {:induction false} TallyConcat(t: seq<Ev>, u: seq<Ev>, counted: set<Ev>)
    ensures Tally(t + u, counted) == Tally(t, counted) + Tally(u, counted)
  {
    if u == [] {
      assert t + u == t;
    } else {
      assert (t + u)[..|t + u| - 1] == t + u[..|u| - 1];
      TallyConcat(t, u[..|u| - 1], counted);
    }
  }

  lemma TallyOne(e: Ev, counted: set<Ev>)
    ensures Tally([e], counted) == if e in counted then 1 else 0
  {
    assert [e][..0] == [];
  }

  lemma {:induction false} BurstDelivers(k: nat)
    ensures Tally(Burst(k), {OobDelivery}) == k && Without(Burst(k), {Attempt})
  {
    if k > 0 {
      BurstDelivers(k - 1);
      var t := Burst(k - 1) + [OobPoll];
      assert Burst(k)[..|Burst(k)| - 1] == t && t[..|t| - 1] == Burst(k - 1);
    }
  }

  /** The events between two attempts when the limit is reached: two bursts around a skipped attempt. */
  function TwoBursts(k: nat): seq<Ev> { Burst(k) + [OobPoll] + ([Skip] + [CacheAttempt]) + Burst(k) + [OobPoll] }

  lemma TwoBurstsDeliver(k: nat)
    ensures Tally(TwoBursts(k), {OobDelivery}) == 2 * k && Without(TwoBursts(k), {Attempt})
  {
    BurstDelivers(k);
    var c := {OobDelivery};
    TallyOne(OobPoll, c);
    TallyOne(Skip, c);
    TallyOne(CacheAttempt, c);
    TallyConcat([Skip], [CacheAttempt], c);
    TallyConcat(Burst(k), [OobPoll], c);
    TallyConcat(Burst(k) + [OobPoll], [Skip] + [CacheAttempt], c);
    TallyConcat(Burst(k) + [OobPoll] + ([Skip] + [CacheAttempt]), Burst(k), c);
    TallyConcat(Burst(k) + [OobPoll] + ([Skip] + [CacheAttempt]) + Burst(k), [OobPoll], c);
  }

  predicate EndsNormal(t: seq<Ev>) { |t| >= 2 && t[|t| - 2] == Attempt && t[|t| - 1] == Normal }

  const NothingWaits := Waiting(false, false, false)

  /** The events of a poll that skips the attempt and finds nothing else. */
  const Skipping: seq<Ev> := [OobPoll] + ([Skip] + [CacheAttempt] + [])

  lemma Assoc(t: seq<Ev>, e: seq<Ev>, e': seq<Ev>)
    ensures t + e + e' == t + (e + e')
  {
  }

  lemma BetweenAttempts(t1: seq<Ev>, t: seq<Ev>, k: nat) returns (i: nat, j: nat)
    requires EndsNormal(t1)
    requires t == t1 + (Burst(k) + (Skipping + Burst(k)) + ([OobPoll] + ([Attempt] + [Normal])))
    ensures 2 <= i <= j < |t| && t[i - 2] == Attempt && t[j] == Attempt
    ensures Without(t[i..j], {Attempt}) && Tally(t[i..j], {OobDelivery}) == 2 * k
  {
    i, j := |t1|, |t1| + |TwoBursts(k)|;
    TwoBurstsDeliver(k);
    assert t == t1 + TwoBursts(k) + ([Attempt] + [Normal]);
    assert t[i..j] == TwoBursts(k);
  }

  lemma TallyBurst(t: seq<Ev>)
    ensures Tally(t + ([OobPoll] + [OobDelivery]), {OobDelivery}) == Tally(t, {OobDelivery}) + 1
  {
    TallyConcat(t, [OobPoll] + [OobDelivery], {OobDelivery});
    TallyConcat([OobPoll], [OobDelivery], {OobDelivery});
    TallyOne(OobPoll, {OobDelivery});
    TallyOne(OobDelivery, {OobDelivery});
  }

  /** A poll that finds nothing delivers nothing. */
  lemma TallyServe(b: Budgets, t: seq<Ev>, c: Counters)
    ensures Tally(t + PollEvents(c, b, NothingWaits), {OobDelivery}) == Tally(t, {OobDelivery})
  {
    var e := PollEvents(c, b, NothingWaits);
    TallyConcat(t, e, {OobDelivery});
    TallyNone(e, {OobDelivery});
  }

  lemma {:induction false} TallyNone(t: seq<Ev>, counted: set<Ev>)
    requires Without(t, counted)
    ensures Tally(t, counted) == 0
  {
    if t != [] { TallyNone(t[..|t| - 1], counted); }
  }

  // ---------------------------------------------------------------- single polls

  /** The tag whose messages are cached. */
  const TAG: nat := 1

  ghost predicate Sound(t: ThreadBase)
    reads t
  {
    t.Valid() && t.Fifo() && Counted(t.trace, t.counters, t.budgets)
  }

  /** Nothing waits in the two message queues. */
  predicate Quiet(t: ThreadBase)
    reads t
  {
    t.mq == [] && t.oobMq == []
  }

  /** One poll of the loop that found w. */
  ghost predicate Did(t: ThreadBase, trace: seq<Ev>, c: Counters, w: Waiting)
    reads t
  {
    t.trace == trace + PollEvents(c, t.budgets, w) && t.counters == PollCounters(c, t.budgets, w)
  }

  lemma NoMembers(q: seq<nat>)
    ensures (forall u :: u !in q) ==> q == []
  {
    if q != [] { assert q[0] in q; }
  }

  lemma NothingReleased(t: ThreadBase)
    requires t.Valid() && t.releaseAlert == {}
    ensures t.nrReleaseCacheQueues == 0
  {
    NoMembers(t.releaseQueue);
  }

  /** A poll that finds nothing, with no cache queue released. */
  method PollIdle(t: ThreadBase)
    requires Sound(t) && Quiet(t) && t.releaseAlert == {}
    modifies t
    ensures Sound(t) && Quiet(t) && t.View() == old(t.View()) && t.Queue(TAG) == old(t.Queue(TAG))
    ensures Did(t, old(t.trace), old(t.counters), NothingWaits)
  {
    NothingReleased(t);
    var ok := t.Poll([]);
  }

  /** A normal message arrives and is delivered or cached. */
  method PollNormal(t: ThreadBase, tag: nat, calls: seq<Call>)
    requires Sound(t) && Quiet(t) && t.counters.cont < t.budgets.cont
    requires Accepted(calls) == [] && AcceptedOob(calls) == []
    modifies t
    ensures Sound(t) && Quiet(t) && Did(t, old(t.trace), old(t.counters), NormalWaits)
    ensures t.View() == if tag in old(t.cacheMap) then old(t.View()) else AfterCalls(old(t.View()), calls)
    ensures forall u: nat :: t.Queue(u) == old(t.Queue(u)) + (if u == tag && tag in t.cacheMap then [Message(0, tag)] else [])
  {
    t.AcceptMessage(Message(0, tag));
    PollOne(t, Message(0, tag), calls);
  }

  /** The poll that finds one normal message. */
  method PollOne(t: ThreadBase, ghost m: Message, calls: seq<Call>)
    requires Sound(t) && t.mq == [m] && t.oobMq == [] && t.counters.cont < t.budgets.cont
    requires Accepted(calls) == [] && AcceptedOob(calls) == []
    modifies t
    ensures Sound(t) && Quiet(t) && Did(t, old(t.trace), old(t.counters), NormalWaits)
    ensures t.View() == if m.tag in old(t.cacheMap) then old(t.View()) else AfterCalls(old(t.View()), calls)
    ensures forall u: nat :: t.Queue(u) == old(t.Queue(u)) + (if u == m.tag && m.tag in t.cacheMap then [m] else [])
  {
    var ok := t.Poll(calls);
    assert PollEvents(old(t.counters), t.budgets, Waiting(false, true, ok)) == PollEvents(old(t.counters), t.budgets, NormalWaits);
  }

  /** The cache queue of TAG is released and alone. */
  predicate Released(t: ThreadBase)
    reads t
  {
    t.View() == Maps({}, {TAG}, {TAG})
  }

  lemma TagIsNext(t: ThreadBase)
    requires t.Valid() && Released(t)
    ensures t.nrReleaseCacheQueues != 0 && (t.current.Some? || t.releaseQueue != []) && t.NextTag() == TAG
  {
    assert TAG in t.releaseAlert;
    assert t.current.Some? ==> t.current == Some(t.current.value) && t.current.value in t.releaseAlert;
    assert t.current.None? ==> t.releaseQueue[0] in t.releaseAlert;
  }

  /** The head of the released cache queue is delivered. */
  method PollCached(t: ThreadBase)
    requires Sound(t) && Quiet(t) && Released(t) && t.Queue(TAG) != []
    modifies t
    ensures Sound(t) && Quiet(t) && Released(t) && t.Queue(TAG) == old(t.Queue(TAG))[1..]
    ensures Did(t, old(t.trace), old(t.counters), CachedWaits)
  {
    TagIsNext(t);
    var ok := t.Poll([]);
  }

  /** The released cache queue is empty: it leaves the schedule. */
  method PollDrained(t: ThreadBase)
    requires Sound(t) && Quiet(t) && Released(t) && t.Queue(TAG) == []
    modifies t
    ensures Sound(t) && Quiet(t) && t.View() == Maps({}, {}, {})
    ensures Did(t, old(t.trace), old(t.counters), NothingWaits)
  {
    TagIsNext(t);
    var ok := t.Poll([]);
  }

  /** An out-of-band message arrives and is delivered. */
  method PollOob(t: ThreadBase)
    requires Sound(t) && Quiet(t) && t.counters.mq >= t.budgets.msg && t.counters.oob < t.budgets.oob
    modifies t
    ensures Sound(t) && Quiet(t) && t.View() == old(t.View()) && t.Queue(TAG) == old(t.Queue(TAG))
    ensures t.trace == old(t.trace) + ([OobPoll] + [OobDelivery])
    ensures t.counters == old(t.counters).(oob := old(t.counters).oob + 1)
  {
    t.AcceptOobMessage(Message(0, 0));
    var ok := t.Poll([]);
  }

  // ------------------------------------------------------ where the counter stands

  function Top(b: Budgets): nat { AtLeastOne(b.msg) }

  /** The first counter after one more delivery that is not out of band. */
  function Next(b: Budgets, m: nat): nat { if m >= Top(b) then 1 else m + 1 }

  /** Where it stands after k deliveries from one. */
  function After(b: Budgets, k: nat): nat { if k == 0 then 1 else Next(b, After(b, k - 1)) }

  /** Where it has to stand so that k deliveries lead to the top. */
  function Back(b: Budgets, k: nat): nat {
    if k == 0 then Top(b) else if Back(b, k - 1) == 1 then Top(b) else Back(b, k - 1) - 1
  }

  lemma {:induction false} BackLeads(b: Budgets, k: nat)
    ensures 1 <= Back(b, k) <= Top(b) && Next(b, Back(b, k + 1)) == Back(b, k)
  {
    if k > 0 { BackLeads(b, k - 1); }
  }

  lemma {:induction false} FirstLap(b: Budgets, k: nat)
    requires k < Top(b)
    ensures After(b, k) == k + 1
  {
    if k > 0 { FirstLap(b, k - 1); }
  }

  lemma {:induction false} SecondLap(b: Budgets, k: nat)
    requires k < Top(b)
    ensures After(b, Top(b) + k) == k + 1
  {
    if k > 0 { SecondLap(b, k - 1); } else { FirstLap(b, Top(b) - 1); }
  }

  /** How many messages to cache: their deliveries lead from one to where the normal ones have to start. */
  function ToCache(b: Budgets): nat { Top(b) + Back(b, b.cont) - 1 }

  lemma CacheLeads(b: Budgets)
    ensures ToCache(b) > 0 && After(b, ToCache(b)) == Back(b, b.cont)
  {
    BackLeads(b, b.cont);
    SecondLap(b, Back(b, b.cont) - 1);
  }

  /** Counters of a run without out-of-band deliveries. */
  predicate Plain(c: Counters, b: Budgets) { c.oob == 0 && c.mq <= Top(b) && c.cont <= b.cont }

  lemma IdleCounters(c: Counters, b: Budgets)
    requires Plain(c, b)
    ensures PollCounters(c, b, NothingWaits) == Counters(b.msg, 0, 0)
  {
  }

  lemma ServeCounters(c: Counters, b: Budgets)
    requires Plain(c, b) && c.mq >= 1
    ensures c.cont < b.cont ==> PollCounters(c, b, NormalWaits) == Counters(Next(b, c.mq), 0, c.cont + 1)
    ensures PollCounters(c, b, CachedWaits) == Counters(Next(b, c.mq), 0, 0)
  {
  }

  lemma NormalEnds(t: seq<Ev>, c: Counters, b: Budgets)
    requires c.cont < b.cont
    ensures EndsNormal(t + PollEvents(c, b, NormalWaits))
  {
    var e := PollEvents(c, b, NormalWaits);
    assert |e| >= 2 && e[|e| - 2] == Attempt && e[|e| - 1] == Normal;
  }

  // -------------------------------------------------------------------- the phases

  /** OnRun blocks TAG; then n of its messages arrive and are cached. */
  method CacheSome(t: ThreadBase, n: nat)
    requires Sound(t) && Quiet(t) && t.View() == Maps({}, {}, {}) && t.counters == Counters(0, 0, 0) && t.budgets.cont > 0
    modifies t
    ensures Sound(t) && Quiet(t) && t.View() == Maps({TAG}, {TAG}, {}) && |t.Queue(TAG)| == n
    ensures Plain(t.counters, t.budgets)
  {
    BlockTag(t);
    var k := 0;
    while k < n
      invariant 0 <= k <= n && Sound(t) && Quiet(t) && t.View() == Maps({TAG}, {TAG}, {}) && |t.Queue(TAG)| == k
      invariant Plain(t.counters, t.budgets)
    {
      if t.counters.cont >= t.budgets.cont {
        IdleCounters(t.counters, t.budgets);
        PollIdle(t);
      }
      CacheOne(t);
      k := k + 1;
    }
  }

  method BlockTag(t: ThreadBase)
    requires Sound(t) && Quiet(t) && t.View() == Maps({}, {}, {})
    modifies t
    ensures Sound(t) && Quiet(t) && t.View() == Maps({TAG}, {TAG}, {}) && t.Queue(TAG) == []
    ensures t.counters == old(t.counters)
  {
    t.BlockMessageProcess(TAG);
  }

  method CacheOne(t: ThreadBase)
    requires Sound(t) && Quiet(t) && t.View() == Maps({TAG}, {TAG}, {}) && Plain(t.counters, t.budgets)
    requires t.counters.cont < t.budgets.cont
    modifies t
    ensures Sound(t) && Quiet(t) && t.View() == Maps({TAG}, {TAG}, {}) && |t.Queue(TAG)| == |old(t.Queue(TAG))| + 1
    ensures Plain(t.counters, t.budgets)
  {
    PollNormal(t, TAG, []);
  }

  /** A message whose handler releases TAG. */
  method ReleaseTag(t: ThreadBase)
    requires Sound(t) && Quiet(t) && t.View() == Maps({TAG}, {TAG}, {}) && t.counters == Counters(t.budgets.msg, 0, 0)
    requires t.budgets.cont > 0
    modifies t
    ensures Sound(t) && Quiet(t) && Released(t) && t.Queue(TAG) == old(t.Queue(TAG)) && t.counters == Counters(1, 0, 1)
  {
    var calls := [Release(TAG)];
    assert calls[..0] == [];
    assert AfterCalls(t.View(), calls) == AfterCall(AfterCalls(t.View(), []), Release(TAG));
    assert Accepted(calls) == Accepted([]) + [] && AcceptedOob(calls) == AcceptedOob([]) + [];
    PollNormal(t, 0, calls);
  }

  /** The cached messages are delivered. */
  method DrainCached(t: ThreadBase)
    requires Sound(t) && Quiet(t) && Released(t) && t.counters == Counters(1, 0, 1) && t.Queue(TAG) != [] && t.budgets.cont > 0
    modifies t
    ensures Sound(t) && Quiet(t) && Released(t) && t.Queue(TAG) == []
    ensures t.counters == Counters(After(t.budgets, |old(t.Queue(TAG))|), 0, 0)
  {
    ghost var k, n := 0, |t.Queue(TAG)|;
    while t.Queue(TAG) != []
      invariant 0 <= k <= n && Draining(t, k, n)
      decreases n - k
    {
      DrainOne(t, k, n);
      k := k + 1;
    }
  }

  /** k of n cached messages were delivered. */
  ghost predicate Draining(t: ThreadBase, k: nat, n: nat)
    reads t
  {
    && Sound(t) && Quiet(t) && Released(t) && |t.Queue(TAG)| == n - k
    && t.counters == Counters(After(t.budgets, k), 0, if k == 0 then 1 else 0)
    && 1 <= After(t.budgets, k) <= Top(t.budgets) && t.budgets.cont > 0
  }

  method DrainOne(t: ThreadBase, ghost k: nat, ghost n: nat)
    requires k < n && Draining(t, k, n)
    modifies t
    ensures Draining(t, k + 1, n)
  {
    ServeCounters(t.counters, t.budgets);
    PollCached(t);
  }

  /** Normal messages up to the limit. */
  method UseLimit(t: ThreadBase)
    requires Sound(t) && Quiet(t) && Released(t) && t.Queue(TAG) == [] && t.budgets.cont > 0
    requires t.counters == Counters(Back(t.budgets, t.budgets.cont), 0, 0)
    modifies t
    ensures Sound(t) && Quiet(t) && Released(t) && t.Queue(TAG) == []
    ensures t.counters == Counters(Top(t.budgets), 0, t.budgets.cont) && EndsNormal(t.trace)
  {
    var k := 0;
    while k < t.budgets.cont
      invariant 0 <= k <= t.budgets.cont && Sound(t) && Quiet(t) && Released(t) && t.Queue(TAG) == []
      invariant t.counters == Counters(Back(t.budgets, t.budgets.cont - k), 0, k) && (k > 0 ==> EndsNormal(t.trace))
    {
      OneNormal(t, t.budgets.cont - k);
      k := k + 1;
    }
  }

  method OneNormal(t: ThreadBase, ghost left: nat)
    requires Sound(t) && Quiet(t) && Released(t) && t.Queue(TAG) == [] && 0 < left <= t.budgets.cont
    requires t.counters == Counters(Back(t.budgets, left), 0, t.budgets.cont - left)
    modifies t
    ensures Sound(t) && Quiet(t) && Released(t) && t.Queue(TAG) == []
    ensures t.counters == Counters(Back(t.budgets, left - 1), 0, t.budgets.cont - left + 1) && EndsNormal(t.trace)
  {
    BackLeads(t.budgets, left - 1);
    BackLeads(t.budgets, left);
    ServeCounters(t.counters, t.budgets);
    NormalEnds(t.trace, t.counters, t.budgets);
    PollNormal(t, 0, []);
  }

  /** A whole budget of out-of-band messages. */
  method DeliverBudget(t: ThreadBase)
    requires Sound(t) && Quiet(t) && t.counters.mq >= t.budgets.msg && t.counters.oob == 0
    modifies t
    ensures Sound(t) && Quiet(t) && t.View() == old(t.View()) && t.Queue(TAG) == old(t.Queue(TAG))
    ensures t.trace == old(t.trace) + Burst(t.budgets.oob) && t.counters == old(t.counters).(oob := t.budgets.oob)
  {
    ghost var t0, view, q, c := t.trace, t.View(), t.Queue(TAG), t.counters;
    var k := 0;
    assert t.trace == t0 + Burst(0);
    while k < t.budgets.oob
      invariant 0 <= k <= t.budgets.oob && Bursting(t, t0, view, q, c, k)
    {
      OneOfBurst(t, t0, view, q, c, k);
      k := k + 1;
    }
  }

  /** k out-of-band messages were delivered since t0, and nothing else happened. */
  ghost predicate Bursting(t: ThreadBase, t0: seq<Ev>, view: Maps, q: seq<Message>, c: Counters, k: nat)
    reads t
  {
    && Sound(t) && Quiet(t) && t.View() == view && t.Queue(TAG) == q
    && t.trace == t0 + Burst(k) && t.counters == c.(oob := k)
  }

  method OneOfBurst(t: ThreadBase, ghost t0: seq<Ev>, ghost view: Maps, ghost q: seq<Message>, ghost c: Counters, ghost k: nat)
    requires Bursting(t, t0, view, q, c, k) && c.mq >= t.budgets.msg && k < t.budgets.oob
    modifies t
    ensures Bursting(t, t0, view, q, c, k + 1)
  {
    BurstJoins(t0, k);
    PollOob(t);
  }

  lemma BurstJoins(t: seq<Ev>, k: nat)
    ensures t + Burst(k) + ([OobPoll] + [OobDelivery]) == t + Burst(k + 1)
  {
    Assoc(t, Burst(k), [OobPoll] + [OobDelivery]);
    Assoc(Burst(k), [OobPoll], [OobDelivery]);
  }

  /** A new thread, brought to its limit with the first counter at the top. */
  method Prepare(cacheBudget: int, b: Budgets) returns (t: ThreadBase)
    requires b.cont > 0
    ensures fresh(t) && t.budgets == b && Sound(t) && Quiet(t) && Released(t) && t.Queue(TAG) == []
    ensures t.counters == Counters(Top(b), 0, b.cont) && EndsNormal(t.trace)
  {
    t := new ThreadBase(cacheBudget, b);
    CacheLeads(b);
    CacheSome(t, ToCache(b));
    IdleCounters(t.counters, b);
    PollIdle(t);
    ReleaseTag(t);
    DrainCached(t);
    UseLimit(t);
  }

  /** From there: a budget, a poll that skips the attempt, a second budget, and the next attempt. */
  method TwoBudgets(t: ThreadBase)
    requires Sound(t) && Quiet(t) && Released(t) && t.Queue(TAG) == [] && t.budgets.cont > 0
    requires t.counters == Counters(Top(t.budgets), 0, t.budgets.cont)
    modifies t
    ensures Sound(t)
    ensures t.trace == old(t.trace)
            + (Burst(t.budgets.oob) + (Skipping + Burst(t.budgets.oob)) + ([OobPoll] + ([Attempt] + [Normal])))
  {
    ghost var t0, burst := t.trace, Burst(t.budgets.oob);
    ghost var last := [OobPoll] + ([Attempt] + [Normal]);
    DeliverBudget(t);
    assert PollEvents(t.counters, t.budgets, NothingWaits) == Skipping;
    PollDrained(t);
    assert t.trace == t0 + burst + Skipping && t.counters == Counters(t.budgets.msg, 0, 0);
    DeliverBudget(t);
    assert PollEvents(t.counters, t.budgets, NormalWaits) == last;
    PollNormal(t, 0, []);
    FourJoin(t0, burst, Skipping, burst, last);
  }

  lemma FourJoin(t: seq<Ev>, a: seq<Ev>, b: seq<Ev>, c: seq<Ev>, d: seq<Ev>)
    ensures t + a + b + c + d == t + (a + (b + c) + d)
  {
  }

  /**
   For every choice of budgets with a limit of at least one, a new thread can make a run with
   twice oob_msg_budget_ out-of-band deliveries between two attempts on the normal queue, so the
   budget itself bounds all runs only when it is zero.
   */
  method TwiceTheBudget(cacheBudget: int, b: Budgets) returns (t: ThreadBase, ghost i: nat, ghost j: nat)
    requires b.cont > 0
    ensures fresh(t) && t.budgets == b && Sound(t)
    ensures 2 <= i <= j < |t.trace| && t.trace[i - 2] == Attempt && t.trace[j] == Attempt
    ensures Without(t.trace[i..j], {Attempt}) && Tally(t.trace[i..j], {OobDelivery}) == 2 * b.oob
  {
    t := Prepare(cacheBudget, b);
    ghost var t0 := t.trace;
    TwoBudgets(t);
    i, j := BetweenAttempts(t0, t.trace, b.oob);
  }

  /** With a limit of zero there is no bound: any number of out-of-band deliveries and no attempt at all. */
  method NoAttemptAtAll(cacheBudget: int, b: Budgets, n: nat) returns (t: ThreadBase)
    requires b.cont == 0 && b.oob > 0
    ensures fresh(t) && t.budgets == b && Sound(t)
    ensures Tally(t.trace, {OobDelivery}) == n && Without(t.trace, {Attempt})
  {
    t := new ThreadBase(cacheBudget, b);
    TallyServe(b, [], t.counters);
    PollIdle(t);
    var k := 0;
    while k < n
      invariant 0 <= k <= n && fresh(t) && t.budgets == b && Sound(t) && Quiet(t) && t.releaseAlert == {}
      invariant t.counters == Counters(b.msg, 0, 0) && Tally(t.trace, {OobDelivery}) == k
    {
      OneMore(t);
      k := k + 1;
    }
  }

  method OneMore(t: ThreadBase)
    requires Sound(t) && Quiet(t) && t.releaseAlert == {} && t.budgets.cont == 0 && t.budgets.oob > 0
    requires t.counters == Counters(t.budgets.msg, 0, 0)
    modifies t
    ensures Sound(t) && Quiet(t) && t.releaseAlert == {} && t.counters == Counters(t.budgets.msg, 0, 0)
    ensures Tally(t.trace, {OobDelivery}) == old(Tally(t.trace, {OobDelivery})) + 1
  {
    TallyBurst(t.trace);
    PollOob(t);
    TallyServe(t.budgets, t.trace, t.counters);
    PollIdle(t);
  }
}
