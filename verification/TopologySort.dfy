/**
 `topologySort` of the pipeline: Kahn's algorithm over the connectors of the
 stages reachable from a base stage.  Stages are the indices of a sequence.  The base
 stage is expanded first whatever connects into it, and again once all its
 connectors were seen; the counters are unsigned 32-bit integers.
 */
module TopologySort {
  import opened Common

  /** A stage: for each output channel, the targets of its connectors. */
  datatype Stage = Stage(outputs: seq<seq<nat>>)

  type Graph = seq<Stage>

  /** All connector targets of a stage, in the order the sort visits them. */
  function Targets(g: Graph, u: nat): seq<nat>
    requires u < |g|
  {
    Concat(g[u].outputs)
  }

  /** Connectors lead to stages of the graph. */
  predicate WellFormed(g: Graph) {
    forall u, i :: 0 <= u < |g| && 0 <= i < |Targets(g, u)| ==> Targets(g, u)[i] < |g|
  }

  predicate Edge(g: Graph, u: nat, v: nat) { u < |g| && v in Targets(g, u) }

  /** How many of the targets are v. */
  function Hits(ts: seq<nat>, v: nat): nat {
    if ts == [] then 0 else Hits(ts[..|ts| - 1], v) + (if ts[|ts| - 1] == v then 1 else 0)
  }

  /** How many connectors lead to v from the stages below k. */
  function InCount(g: Graph, v: nat, k: nat): nat
    requires k <= |g|
  {
    if k == 0 then 0 else InCount(g, v, k - 1) + Hits(Targets(g, k - 1), v)
  }

  /** GetPrevConnectorsCount: the connectors that lead to v. */
  function PrevCount(g: Graph, v: nat): nat { InCount(g, v, |g|) }

  /** The same, counting only stages of a set. */
  function HitsIn(g: Graph, us: set<nat>, v: nat, k: nat): nat
    requires k <= |g|
  {
    if k == 0 then 0
    else HitsIn(g, us, v, k - 1) + (if k - 1 in us then Hits(Targets(g, k - 1), v) else 0)
  }

  lemma {:induction false} HitsPositive(ts: seq<nat>, v: nat)
    ensures Hits(ts, v) > 0 <==> v in ts
  {
    if ts != [] {
      HitsPositive(ts[..|ts| - 1], v);
      assert ts == ts[..|ts| - 1] + [ts[|ts| - 1]];
    }
  }

  lemma {:induction false} HitsPrefix(ts: seq<nat>, j: nat, v: nat)
    requires j <= |ts|
    ensures Hits(ts[..j], v) <= Hits(ts, v)
    decreases |ts| - j
  {
    if j < |ts| {
      assert ts[..j + 1][..j] == ts[..j];
      HitsPrefix(ts, j + 1, v);
    } else {
      assert ts[..j] == ts;
    }
  }

  lemma {:induction false} AddStage(g: Graph, us: set<nat>, u: nat, v: nat, k: nat)
    requires k <= |g| && u < |g| && u !in us
    ensures HitsIn(g, us + {u}, v, k) == HitsIn(g, us, v, k) + (if u < k then Hits(Targets(g, u), v) else 0)
  {
    if k > 0 {
      AddStage(g, us, u, v, k - 1);
    }
  }

  /** All connectors to v are counted exactly when no other stage has one. */
  lemma {:induction false} FullCount(g: Graph, us: set<nat>, v: nat, k: nat)
    requires k <= |g|
    ensures HitsIn(g, us, v, k) <= InCount(g, v, k)
    ensures HitsIn(g, us, v, k) == InCount(g, v, k) <==> forall u :: 0 <= u < k && Edge(g, u, v) ==> u in us
  {
    if k > 0 {
      FullCount(g, us, v, k - 1);
      HitsPositive(Targets(g, k - 1), v);
    }
  }

  lemma {:induction false} CountPositive(g: Graph, us: set<nat>, v: nat, k: nat)
    requires k <= |g|
    ensures HitsIn(g, us, v, k) > 0 <==> exists u :: 0 <= u < k && u in us && Edge(g, u, v)
  {
    if k > 0 {
      CountPositive(g, us, v, k - 1);
      HitsPositive(Targets(g, k - 1), v);
    }
  }

  lemma {:induction false} ConcatPrefix(xs: seq<seq<nat>>, i: nat)
    requires i < |xs|
    ensures Concat(xs[..i]) + xs[i] <= Concat(xs)
    decreases |xs| - i
  {
    assert xs[..i + 1] == xs[..i] + [xs[i]];
    ConcatSnoc(xs[..i], xs[i]);
    if i + 1 < |xs| {
      ConcatPrefix(xs, i + 1);
    } else {
      assert xs[..i + 1] == xs;
    }
  }

  /** Connectors counted in two disjoint sets of stages. */
  lemma {:induction false} TwoParts(g: Graph, a: set<nat>, b: set<nat>, v: nat, k: nat)
    requires k <= |g| && a !! b
    ensures HitsIn(g, a, v, k) + HitsIn(g, b, v, k) <= InCount(g, v, k)
    ensures (forall u :: 0 <= u < k ==> u in a || u in b) ==> HitsIn(g, a, v, k) + HitsIn(g, b, v, k) == InCount(g, v, k)
  {
    if k > 0 { TwoParts(g, a, b, v, k - 1); }
  }

  // ---------------------------------------------------------- what the sort decides

  /** A walk along connectors. */
  predicate Walk(g: Graph, p: seq<nat>) {
    forall i :: 0 <= i < |p| - 1 ==> Edge(g, p[i], p[i + 1])
  }

  ghost predicate Reachable(g: Graph, base: nat, v: nat) {
    exists p :: WalkBetween(g, p, base, v)
  }

  predicate WalkBetween(g: Graph, p: seq<nat>, u: nat, v: nat) {
    |p| > 0 && p[0] == u && p[|p| - 1] == v && Walk(g, p)
  }

  /** A closed walk with at least one connector. */
  predicate Cycle(g: Graph, p: seq<nat>) { |p| > 1 && p[0] == p[|p| - 1] && Walk(g, p) }

  /** No cycle goes through a reachable stage. */
  ghost predicate Acyclic(g: Graph, base: nat) {
    forall p :: Cycle(g, p) ==> !Reachable(g, base, p[0])
  }

  /** Connectors into reachable stages other than base start at reachable stages. */
  ghost predicate ClosedBack(g: Graph, base: nat) {
    forall u, v :: Edge(g, u, v) && Reachable(g, base, v) && v != base ==> Reachable(g, base, u)
  }

  /** The order lists each reachable stage but base once, after its predecessors. */
  ghost predicate IsOrder(g: Graph, base: nat, order: seq<nat>) {
    && (forall i, j :: 0 <= i < j < |order| ==> order[i] != order[j])
    && (forall v :: v in order <==> Reachable(g, base, v) && v != base)
    && (forall u, j :: 0 <= j < |order| && Edge(g, u, order[j]) ==> u == base || u in order[..j])
  }

  /** A reachable stage connects into base, so base is on a cycle. */
  ghost predicate Returns(g: Graph, base: nat) {
    exists u :: Reachable(g, base, u) && Edge(g, u, base)
  }

  /** The stages of a set and those that are not reachable. */
  ghost function Outside(g: Graph, base: nat, us: set<nat>): set<nat> {
    set u | u in Below(|g|) && (u in us || !Reachable(g, base, u))
  }

  /** A set of stages that keep each other, and base, from losing their last connector. */
  ghost predicate Keeps(g: Graph, base: nat, us: set<nat>) {
    && base !in us
    && (forall v {:trigger HasPredecessorIn(g, Outside(g, base, us), v)} ::
          v in us ==> HasPredecessorIn(g, Outside(g, base, us), v))
    && HasPredecessorIn(g, Outside(g, base, us), base)
  }

  /** A set of reachable stages, each with more connectors from the set or from elsewhere than from base. */
  ghost predicate Outweighs(g: Graph, base: nat, us: set<nat>) {
    && us != {} && base !in us
    && (forall v :: v in us ==> v < |g| && Reachable(g, base, v))
    && (forall v :: v in us ==> HitsIn(g, Outside(g, base, us), v, |g|) > Out(g, base, v))
  }

  /** What makes the sort fail when base is on a cycle. */
  ghost predicate Blocked(g: Graph, base: nat) {
    exists us :: Keeps(g, base, us) || Outweighs(g, base, us)
  }

  /** The verdict of the sort. */
  ghost predicate Accepted(g: Graph, base: nat) {
    if Returns(g, base) then !Blocked(g, base) else Acyclic(g, base) && ClosedBack(g, base)
  }

  ghost predicate HasPredecessorIn(g: Graph, us: set<nat>, v: nat) { exists u :: Edge(g, u, v) && u in us }

  // ------------------------------------------------------------------- pigeonhole

  function Elems(s: seq<nat>): set<nat> { set i | 0 <= i < |s| :: s[i] }

  lemma {:induction false} NoDupCard(s: seq<nat>)
    requires NoDup(s)
    ensures |Elems(s)| == |s|
  {
    if s != [] {
      var r := s[..|s| - 1];
      NoDupCard(r);
      assert s == r + [s[|s| - 1]];
      ElemsSnoc(r, s[|s| - 1]);
    }
  }

  lemma ElemsSnoc(s: seq<nat>, x: nat)
    ensures Elems(s + [x]) == Elems(s) + {x}
  {
    var t := s + [x];
    forall y | y in Elems(s) + {x} ensures y in Elems(t) {
      if y == x { assert t[|s|] == y; } else {
        var i :| 0 <= i < |s| && s[i] == y;
        assert t[i] == y;
      }
    }
  }

  lemma {:induction false} SubsetCard(a: set<nat>, b: set<nat>)
    requires a <= b
    ensures |a| <= |b| && (|a| == |b| ==> a == b)
  {
    assert b == a + (b - a);
  }

  function Below(n: nat): (r: set<nat>)
    ensures |r| == n && forall i :: i in r <==> 0 <= i < n
  {
    if n == 0 then {} else Below(n - 1) + {n - 1}
  }

  lemma NoDupBound(s: seq<nat>, n: nat)
    requires NoDup(s) && forall i :: 0 <= i < |s| ==> s[i] < n
    ensures |s| <= n
  {
    NoDupCard(s);
    SubsetCard(Elems(s), Below(n));
  }

  // ------------------------------------------------------------- the loop's state

  const WRAP: nat := 0x1_0000_0000

  /** The connector counts fit their type. */
  predicate Fits(g: Graph) { forall v :: 0 <= v < |g| ==> PrevCount(g, v) < WRAP }

  /** An unsigned counter less one. */
  function Less(x: nat): nat { if x == 0 then WRAP - 1 else x - 1 }

  /** How many connectors lead from u to v. */
  function Out(g: Graph, u: nat, v: nat): nat { if u < |g| then Hits(Targets(g, u), v) else 0 }

  /** Connectors to v seen when the stages of p were expanded, in that order. */
  function Seen(g: Graph, p: seq<nat>, v: nat): nat {
    if p == [] then 0 else Seen(g, p[..|p| - 1], v) + Out(g, p[|p| - 1], v)
  }

  /** The same, and `done` of the stage being expanded. */
  function SeenBy(g: Graph, p: seq<nat>, done: seq<nat>, v: nat): nat { Seen(g, p, v) + Hits(done, v) }

  lemma SeenSnoc(g: Graph, p: seq<nat>, u: nat, v: nat)
    ensures Seen(g, p + [u], v) == Seen(g, p, v) + Out(g, u, v)
  {
    assert (p + [u])[..|p|] == p;
  }

  lemma {:induction false} SeenPrefix(g: Graph, p: seq<nat>, q: seq<nat>, v: nat)
    ensures Seen(g, p, v) <= Seen(g, p + q, v)
  {
    if q == [] {
      assert p + q == p;
    } else {
      assert (p + q)[..|p + q| - 1] == p + q[..|q| - 1];
      SeenPrefix(g, p, q[..|q| - 1], v);
    }
  }

  lemma {:induction false} SeenCons(g: Graph, u: nat, q: seq<nat>, v: nat)
    ensures Seen(g, [u] + q, v) == Out(g, u, v) + Seen(g, q, v)
  {
    if q == [] {
      assert [u] + q == [u] && [u][..0] == [];
    } else {
      assert ([u] + q)[..|q|] == [u] + q[..|q| - 1];
      SeenCons(g, u, q[..|q| - 1], v);
    }
  }

  predicate Stages(g: Graph, p: seq<nat>) { forall i :: 0 <= i < |p| ==> p[i] < |g| }

  /** Without repetition, what was seen is what comes from the set of stages. */
  lemma {:induction false} SeenSet(g: Graph, p: seq<nat>, v: nat)
    requires NoDup(p) && Stages(g, p)
    ensures Seen(g, p, v) == HitsIn(g, Elems(p), v, |g|) <= PrevCount(g, v)
  {
    if p == [] {
      NothingIn(g, v, |g|);
      assert Elems(p) == {};
    } else {
      var front, u := p[..|p| - 1], p[|p| - 1];
      SeenSet(g, front, v);
      assert p == front + [u];
      ElemsSnoc(front, u);
      AddStage(g, Elems(front), u, v, |g|);
    }
    FullCount(g, Elems(p), v, |g|);
  }

  lemma {:induction false} NothingIn(g: Graph, v: nat, k: nat)
    requires k <= |g|
    ensures HitsIn(g, {}, v, k) == 0
  {
    if k > 0 { NothingIn(g, v, k - 1); }
  }

  lemma {:induction false} OutBound(g: Graph, u: nat, v: nat, k: nat)
    requires u < k <= |g|
    ensures Out(g, u, v) <= InCount(g, v, k)
  {
    if u < k - 1 { OutBound(g, u, v, k - 1); }
  }

  /** Base is expanded at most twice, the others once. */
  lemma SeenTwice(g: Graph, base: nat, order: seq<nat>, v: nat)
    requires base < |g| && NoDup(order) && Stages(g, order)
    ensures Seen(g, [base] + order, v) <= 2 * PrevCount(g, v)
  {
    SeenCons(g, base, order, v);
    SeenSet(g, order, v);
    OutBound(g, base, v, |g|);
  }

  /** The value of v's counter when `seen` of its `prev` connectors were seen. */
  function Left(prev: nat, seen: nat): int { if seen <= prev then prev - seen else WRAP + prev - seen }

  /** The map counts what is left; `order` lists the stages whose last connector was seen. */
  ghost predicate Counts(g: Graph, popped: seq<nat>, done: seq<nat>, stages: map<nat, nat>, order: seq<nat>) {
    && (forall v :: v in stages <==> SeenBy(g, popped, done, v) > 0)
    && (forall v :: v in stages ==> stages[v] == Left(PrevCount(g, v), SeenBy(g, popped, done, v)))
    && (forall v :: v in order <==> v in stages && SeenBy(g, popped, done, v) >= PrevCount(g, v))
    && NoDup(order)
  }

  /** The stage map after one more connector to v. */
  function Visited(g: Graph, stages: map<nat, nat>, v: nat): map<nat, nat> {
    stages[v := Less(if v in stages then stages[v] else PrevCount(g, v))]
  }

  lemma VisitSeen(g: Graph, popped: seq<nat>, done: seq<nat>, v: nat, w: nat)
    ensures SeenBy(g, popped, done + [v], w) == SeenBy(g, popped, done, w) + (if w == v then 1 else 0)
  {
    assert (done + [v])[..|done|] == done;
  }

  /** The counter of v goes on counting, and becomes zero exactly with the last connector. */
  lemma VisitValue(prev: nat, seen: nat)
    requires 0 < prev < WRAP && seen + 1 <= 2 * prev
    ensures Left(prev, seen) >= 0 && Less(Left(prev, seen)) == Left(prev, seen + 1)
    ensures Left(prev, seen + 1) == 0 <==> seen + 1 == prev
  {
  }

  lemma VisitMap(g: Graph, popped: seq<nat>, done: seq<nat>, stages: map<nat, nat>, order: seq<nat>, v: nat)
    requires Counts(g, popped, done, stages, order)
    requires 0 < PrevCount(g, v) < WRAP && SeenBy(g, popped, done + [v], v) <= 2 * PrevCount(g, v)
    ensures var stages' := Visited(g, stages, v);
            && (forall w :: w in stages' <==> SeenBy(g, popped, done + [v], w) > 0)
            && (forall w :: w in stages' ==> stages'[w] == Left(PrevCount(g, w), SeenBy(g, popped, done + [v], w)))
            && (stages'[v] == 0 <==> SeenBy(g, popped, done + [v], v) == PrevCount(g, v))
  {
    VisitSeen(g, popped, done, v, v);
    VisitValue(PrevCount(g, v), SeenBy(g, popped, done, v));
    forall w ensures SeenBy(g, popped, done + [v], w) == SeenBy(g, popped, done, w) + (if w == v then 1 else 0) {
      VisitSeen(g, popped, done, v, w);
    }
  }

  /** The stages listed after one more connector to v. */
  function Full(g: Graph, stages: map<nat, nat>, v: nat): seq<nat> { if Visited(g, stages, v)[v] == 0 then [v] else [] }

  lemma VisitOrder(g: Graph, popped: seq<nat>, done: seq<nat>, stages: map<nat, nat>, order: seq<nat>, v: nat)
    requires Counts(g, popped, done, stages, order)
    requires 0 < PrevCount(g, v) < WRAP && SeenBy(g, popped, done + [v], v) <= 2 * PrevCount(g, v)
    ensures Counts(g, popped, done + [v], Visited(g, stages, v), order + Full(g, stages, v))
  {
    VisitMap(g, popped, done, stages, order, v);
    var stages', order' := Visited(g, stages, v), order + Full(g, stages, v);
    VisitSeen(g, popped, done, v, v);
    forall w ensures w in order' <==> w in stages' && SeenBy(g, popped, done + [v], w) >= PrevCount(g, w) {
      VisitSeen(g, popped, done, v, w);
      assert w in order' <==> w in order || w in Full(g, stages, v);
    }
    assert stages'[v] == 0 ==> v !in order;
  }

  /** When a stage was listed, its last connector had been seen from base and the stages before it. */
  ghost predicate Released(g: Graph, base: nat, order: seq<nat>) {
    forall j {:trigger Seen(g, [base] + order[..j], order[j])} ::
      0 <= j < |order| ==> Seen(g, [base] + order[..j], order[j]) >= PrevCount(g, order[j])
  }

  lemma ReleasedSnoc(g: Graph, base: nat, order: seq<nat>, v: nat)
    requires Released(g, base, order) && Seen(g, [base] + order, v) >= PrevCount(g, v)
    ensures Released(g, base, order + [v])
  {
    var order' := order + [v];
    forall j | 0 <= j < |order'| ensures Seen(g, [base] + order'[..j], order'[j]) >= PrevCount(g, order'[j]) {
      if j < |order| { assert order'[..j] == order[..j]; } else { assert order'[..j] == order; }
    }
  }

  ghost predicate Setup(g: Graph, base: nat) { WellFormed(g) && base < |g| && Fits(g) }

  ghost predicate AllReached(g: Graph, base: nat, stages: map<nat, nat>) {
    forall v :: v in stages ==> v < |g| && Reachable(g, base, v)
  }

  /** The invariant inside the body: `current` is being expanded. */
  ghost predicate Expanding(g: Graph, base: nat, popped: seq<nat>, current: nat, done: seq<nat>,
                            targets: seq<nat>, stages: map<nat, nat>, elements: int, order: seq<nat>)
  {
    && Setup(g, base)
    && [base] + order == popped + [current] + targets
    && current < |g| && done <= Targets(g, current)
    && Counts(g, popped, done, stages, order)
    && elements == |stages| - |order|
    && Released(g, base, order) && AllReached(g, base, stages)
  }

  /** The invariant between two stages. */
  ghost predicate Between(g: Graph, base: nat, popped: seq<nat>, targets: seq<nat>,
                          stages: map<nat, nat>, elements: int, order: seq<nat>)
  {
    && Setup(g, base)
    && [base] + order == popped + targets
    && Counts(g, popped, [], stages, order)
    && elements == |stages| - |order|
    && Released(g, base, order) && AllReached(g, base, stages)
  }

  lemma ReachStep(g: Graph, base: nat, u: nat, v: nat)
    requires Reachable(g, base, u) && Edge(g, u, v)
    ensures Reachable(g, base, v)
  {
    var p :| WalkBetween(g, p, base, u);
    assert WalkBetween(g, p + [v], base, v);
  }

  lemma ReachBase(g: Graph, base: nat)
    ensures Reachable(g, base, base)
  {
    assert WalkBetween(g, [base], base, base);
  }

  lemma OrderStages(g: Graph, base: nat, popped: seq<nat>, done: seq<nat>, stages: map<nat, nat>, order: seq<nat>)
    requires Counts(g, popped, done, stages, order) && AllReached(g, base, stages)
    ensures Stages(g, order) && forall i :: 0 <= i < |order| ==> Reachable(g, base, order[i])
  {
    assert forall i :: 0 <= i < |order| ==> order[i] in order && order[i] in stages;
  }

  /** The current stage is base or listed, so it is reachable, and so is what it connects to. */
  lemma CurrentReached(g: Graph, base: nat, popped: seq<nat>, current: nat, targets: seq<nat>, order: seq<nat>, v: nat)
    requires [base] + order == popped + [current] + targets && WellFormed(g) && Edge(g, current, v)
    requires forall i :: 0 <= i < |order| ==> Reachable(g, base, order[i])
    ensures v < |g| && Reachable(g, base, v)
  {
    assert ([base] + order)[|popped|] == current;
    if |popped| == 0 { ReachBase(g, base); } else { assert order[|popped| - 1] == current; }
    ReachStep(g, base, current, v);
    var i :| 0 <= i < |Targets(g, current)| && Targets(g, current)[i] == v;
  }

  /** One more connector of the current stage: how much was seen stays within bounds. */
  lemma SeenBounds(g: Graph, base: nat, popped: seq<nat>, current: nat, done: seq<nat>, targets: seq<nat>, order: seq<nat>, v: nat)
    requires [base] + order == popped + [current] + targets && base < |g| && current < |g|
    requires NoDup(order) && Stages(g, order) && done + [v] <= Targets(g, current)
    ensures SeenBy(g, popped, done + [v], v) <= Seen(g, [base] + order, v) <= 2 * PrevCount(g, v)
    ensures PrevCount(g, v) > 0 && Edge(g, current, v)
  {
    var ts := Targets(g, current);
    assert ts[..|done| + 1] == done + [v] && ts[|done|] == v;
    HitsPrefix(ts, |done| + 1, v);
    SeenSnoc(g, popped, current, v);
    SeenPrefix(g, popped + [current], targets, v);
    SeenTwice(g, base, order, v);
    HitsPositive(ts, v);
    OutBound(g, current, v, |g|);
  }

  /** What is pushed on both ends keeps the queue in step with the order. */
  lemma Pushed(base: seq<nat>, order: seq<nat>, gone: seq<nat>, targets: seq<nat>, full: seq<nat>)
    requires base + order == gone + targets
    ensures base + (order + full) == gone + (targets + full)
  {
    assert base + (order + full) == (base + order) + full;
    assert gone + (targets + full) == (gone + targets) + full;
  }

  lemma VisitReleased(g: Graph, base: nat, order: seq<nat>, full: seq<nat>, v: nat)
    requires Released(g, base, order) && (full == [] || full == [v])
    requires full == [v] ==> Seen(g, [base] + order, v) >= PrevCount(g, v)
    ensures Released(g, base, order + full)
  {
    if full == [] { assert order + full == order; } else { ReleasedSnoc(g, base, order, v); }
  }

  lemma VisitKeeps(g: Graph, base: nat, popped: seq<nat>, current: nat, done: seq<nat>,
                   targets: seq<nat>, stages: map<nat, nat>, elements: int, order: seq<nat>, v: nat)
    requires Expanding(g, base, popped, current, done, targets, stages, elements, order)
    requires done + [v] <= Targets(g, current)
    ensures var full := Full(g, stages, v);
            Expanding(g, base, popped, current, done + [v], targets + full, Visited(g, stages, v),
                      elements + (if v in stages then 0 else 1) - |full|, order + full)
  {
    OrderStages(g, base, popped, done, stages, order);
    SeenBounds(g, base, popped, current, done, targets, order, v);
    CurrentReached(g, base, popped, current, targets, order, v);
    VisitMap(g, popped, done, stages, order, v);
    VisitOrder(g, popped, done, stages, order, v);
    VisitReleased(g, base, order, Full(g, stages, v), v);
    assert Visited(g, stages, v).Keys == stages.Keys + {v};
    Pushed([base], order, popped + [current], targets, Full(g, stages, v));
  }

  lemma StageBegins(g: Graph, base: nat, popped: seq<nat>, targets: seq<nat>,
                    stages: map<nat, nat>, elements: int, order: seq<nat>)
    requires Between(g, base, popped, targets, stages, elements, order) && targets != []
    ensures Expanding(g, base, popped, targets[0], [], targets[1..], stages, elements, order)
    ensures |popped| <= |g|
  {
    OrderStages(g, base, popped, [], stages, order);
    assert targets == [targets[0]] + targets[1..];
    assert ([base] + order)[|popped|] == targets[0];
    NoDupBound(order, |g|);
  }

  lemma StageEnds(g: Graph, base: nat, popped: seq<nat>, current: nat,
                  targets: seq<nat>, stages: map<nat, nat>, elements: int, order: seq<nat>)
    requires current < |g|
    requires Expanding(g, base, popped, current, Targets(g, current), targets, stages, elements, order)
    ensures Between(g, base, popped + [current], targets, stages, elements, order)
  {
    forall v ensures SeenBy(g, popped + [current], [], v) == SeenBy(g, popped, Targets(g, current), v) {
      SeenSnoc(g, popped, current, v);
    }
  }

  // ------------------------------------------------------------- the end of the sort

  /** The stages listed so far: reachable, each once, each released when it was listed. */
  ghost predicate Listed(g: Graph, base: nat, order: seq<nat>) {
    && WellFormed(g) && base < |g| && NoDup(order) && Stages(g, order) && Released(g, base, order)
    && (forall i :: 0 <= i < |order| ==> Reachable(g, base, order[i]))
  }

  /** When the queue is empty: everything listed was expanded, base first. */
  ghost predicate Ended(g: Graph, base: nat, seen: set<nat>, order: seq<nat>) {
    && Listed(g, base, order)
    && (forall v :: v in seen ==> v < |g| && Reachable(g, base, v))
    && (forall v :: v in seen <==> Seen(g, [base] + order, v) > 0)
    && (forall v :: v in order <==> v in seen && Seen(g, [base] + order, v) >= PrevCount(g, v))
  }

  lemma EndState(g: Graph, base: nat, stages: map<nat, nat>, elements: int, order: seq<nat>)
    requires Between(g, base, [base] + order, [], stages, elements, order)
    ensures Ended(g, base, stages.Keys, order)
    ensures elements == 0 <==> forall v :: v in stages.Keys ==> v in order
  {
    OrderStages(g, base, [base] + order, [], stages, order);
    forall v ensures SeenBy(g, [base] + order, [], v) == Seen(g, [base] + order, v) {}
    NoDupCard(order);
    assert forall v :: v in Elems(order) ==> v in order && v in stages;
    SubsetCard(Elems(order), stages.Keys);
    assert (forall v :: v in stages.Keys ==> v in order) <==> stages.Keys == Elems(order);
  }

  /** A connector was seen exactly when an expanded stage has one. */
  lemma {:induction false} SeenPositive(g: Graph, p: seq<nat>, v: nat)
    ensures Seen(g, p, v) > 0 <==> exists i :: 0 <= i < |p| && Edge(g, p[i], v)
  {
    if p != [] {
      var front, u := p[..|p| - 1], p[|p| - 1];
      SeenPositive(g, front, v);
      if u < |g| { HitsPositive(Targets(g, u), v); }
      assert forall i :: 0 <= i < |front| ==> front[i] == p[i];
      assert Edge(g, p[|p| - 1], v) <==> Out(g, u, v) > 0;
    }
  }

  /** Every expanded stage is reachable. */
  lemma ExpandedReached(g: Graph, base: nat, order: seq<nat>, i: nat)
    requires Listed(g, base, order) && i <= |order|
    ensures var u := ([base] + order)[i]; u < |g| && Reachable(g, base, u)
  {
    ReachBase(g, base);
    if i > 0 { assert ([base] + order)[i] == order[i - 1]; }
  }

  /** If all stages seen were listed, all reachable stages were expanded. */
  lemma {:induction false} WalkListed(g: Graph, base: nat, seen: set<nat>, order: seq<nat>, p: seq<nat>, k: nat)
    requires Ended(g, base, seen, order) && (forall v :: v in seen ==> v in order)
    requires Walk(g, p) && k < |p| && p[0] == base
    ensures p[k] in [base] + order
  {
    if k == 0 {
      assert ([base] + order)[0] == base;
    } else {
      WalkListed(g, base, seen, order, p, k - 1);
      assert Edge(g, p[k - 1], p[k - 1 + 1]);
      NextListed(g, base, seen, order, p[k - 1], p[k]);
    }
  }

  lemma NextListed(g: Graph, base: nat, seen: set<nat>, order: seq<nat>, u: nat, v: nat)
    requires Ended(g, base, seen, order) && (forall w :: w in seen ==> w in order)
    requires u in [base] + order && Edge(g, u, v)
    ensures v in order && v in [base] + order
  {
    SeenPositive(g, [base] + order, v);
    assert v in order;
    var i :| 0 <= i < |order| && order[i] == v;
    assert ([base] + order)[i + 1] == v;
  }

  lemma ReachedListed(g: Graph, base: nat, seen: set<nat>, order: seq<nat>, v: nat)
    requires Ended(g, base, seen, order) && (forall w :: w in seen ==> w in order) && Reachable(g, base, v)
    ensures v in [base] + order
  {
    var p :| WalkBetween(g, p, base, v);
    WalkListed(g, base, seen, order, p, |p| - 1);
  }

  /** A reachable stage other than base has a reachable predecessor. */
  lemma ReachedFrom(g: Graph, base: nat, v: nat) returns (u: nat)
    requires Reachable(g, base, v) && v != base
    ensures Edge(g, u, v) && Reachable(g, base, u)
  {
    var p :| WalkBetween(g, p, base, v);
    u := p[|p| - 2];
    assert Edge(g, p[|p| - 2], p[|p| - 2 + 1]);
    assert WalkBetween(g, p[..|p| - 1], base, u);
  }

  /** A stage whose connectors all start at stages expanded once has seen its last one, and no other has. */
  lemma SeenAll(g: Graph, p: seq<nat>, v: nat)
    requires NoDup(p) && Stages(g, p)
    ensures Seen(g, p, v) >= PrevCount(g, v) <==> forall u :: Edge(g, u, v) ==> u in Elems(p)
  {
    SeenSet(g, p, v);
    FullCount(g, Elems(p), v, |g|);
  }

  // ------------------------------------------------------ when base is on no cycle

  lemma NoReturn(g: Graph, base: nat, seen: set<nat>, order: seq<nat>)
    requires Ended(g, base, seen, order) && !Returns(g, base)
    ensures base !in seen && base !in order && NoDup([base] + order) && Stages(g, [base] + order)
  {
    SeenPositive(g, [base] + order, base);
    forall i | 0 <= i < |[base] + order| ensures !Edge(g, ([base] + order)[i], base) {
      ExpandedReached(g, base, order, i);
    }
    assert forall i :: 0 <= i < |order| ==> order[i] in order && order[i] != base;
  }

  /** Every predecessor of a listed stage is base or listed before it. */
  lemma ListedBefore(g: Graph, base: nat, order: seq<nat>, j: nat, u: nat)
    requires Listed(g, base, order) && NoDup([base] + order)
    requires j < |order| && Edge(g, u, order[j])
    ensures u == base || u in order[..j]
  {
    PrefixNoDup(base, order, j);
    assert Stages(g, [base] + order[..j]);
    SeenHas(g, [base] + order[..j], order[j], u);
    InPrefix(base, order[..j], u);
  }

  lemma SeenHas(g: Graph, p: seq<nat>, v: nat, u: nat)
    requires NoDup(p) && Stages(g, p) && Seen(g, p, v) >= PrevCount(g, v) && Edge(g, u, v)
    ensures u in Elems(p)
  {
    SeenAll(g, p, v);
  }

  lemma InPrefix(base: nat, q: seq<nat>, u: nat)
    requires u in Elems([base] + q)
    ensures u == base || u in q
  {
  }

  lemma PrefixNoDup(base: nat, order: seq<nat>, j: nat)
    requires NoDup([base] + order) && j <= |order|
    ensures NoDup([base] + order[..j])
  {
    assert [base] + order[..j] == ([base] + order)[..j + 1];
  }

  /** One connector along a complete order: the position grows. */
  lemma StepClimbs(g: Graph, base: nat, seen: set<nat>, order: seq<nat>, i: nat, v: nat) returns (j: nat)
    requires Ended(g, base, seen, order) && NoDup([base] + order) && (forall w :: w in seen ==> w in order)
    requires i <= |order| && Edge(g, ([base] + order)[i], v)
    ensures i < j <= |order| && ([base] + order)[j] == v
  {
    var all := [base] + order;
    SeenPositive(g, all, v);
    assert v in order;
    var m :| 0 <= m < |order| && order[m] == v;
    j := m + 1;
    ListedBefore(g, base, order, m, all[i]);
    if all[i] != base {
      var n :| 0 <= n < m && order[n] == all[i];
      assert all[n + 1] == all[i];
    } else {
      assert all[0] == all[i];
    }
  }

  /** Along a walk that starts in the order, positions strictly grow. */
  lemma {:induction false} WalkClimbs(g: Graph, base: nat, seen: set<nat>, order: seq<nat>, p: seq<nat>, i: nat, k: nat)
    returns (j: nat)
    requires Ended(g, base, seen, order) && NoDup([base] + order) && (forall w :: w in seen ==> w in order)
    requires Walk(g, p) && k < |p| && i <= |order| && p[0] == ([base] + order)[i]
    ensures i + k <= j <= |order| && ([base] + order)[j] == p[k]
  {
    if k == 0 {
      j := i;
    } else {
      j := WalkClimbs(g, base, seen, order, p, i, k - 1);
      assert Edge(g, p[k - 1], p[k - 1 + 1]);
      j := StepClimbs(g, base, seen, order, j, p[k]);
    }
  }

  lemma ListedAcyclic(g: Graph, base: nat, seen: set<nat>, order: seq<nat>)
    requires Ended(g, base, seen, order) && NoDup([base] + order) && (forall w :: w in seen ==> w in order)
    ensures Acyclic(g, base)
  {
    forall p | Cycle(g, p) ensures !Reachable(g, base, p[0]) {
      if Reachable(g, base, p[0]) {
        ReachedListed(g, base, seen, order, p[0]);
        var i :| 0 <= i <= |order| && ([base] + order)[i] == p[0];
        var j := WalkClimbs(g, base, seen, order, p, i, |p| - 1);
        assert false;
      }
    }
  }

  lemma ListedClosed(g: Graph, base: nat, seen: set<nat>, order: seq<nat>)
    requires Ended(g, base, seen, order) && NoDup([base] + order) && (forall w :: w in seen ==> w in order)
    ensures ClosedBack(g, base)
  {
    forall u, v | Edge(g, u, v) && Reachable(g, base, v) && v != base ensures Reachable(g, base, u) {
      ReachedListed(g, base, seen, order, v);
      assert v in order;
      var j :| 0 <= j < |order| && order[j] == v;
      ListedBefore(g, base, order, j, u);
      ReachBase(g, base);
    }
  }

  lemma ListedOrder(g: Graph, base: nat, seen: set<nat>, order: seq<nat>)
    requires Ended(g, base, seen, order) && NoDup([base] + order) && (forall w :: w in seen ==> w in order)
    ensures IsOrder(g, base, order)
  {
    forall v ensures v in order <==> Reachable(g, base, v) && v != base {
      if Reachable(g, base, v) { ReachedListed(g, base, seen, order, v); }
      if v in order {
        var i :| 0 <= i < |order| && order[i] == v;
        assert ([base] + order)[i + 1] == v && ([base] + order)[0] == base;
      }
    }
    forall u, j | 0 <= j < |order| && Edge(g, u, order[j]) ensures u == base || u in order[..j] {
      ListedBefore(g, base, order, j, u);
    }
  }

  // --------------------------------------------------------------- sets with cycles

  /** Each stage of the set has a predecessor in the set. */
  ghost predicate BackClosed(g: Graph, us: set<nat>) {
    && (forall v :: v in us ==> v < |g|)
    && (forall v {:trigger HasPredecessorIn(g, us, v)} :: v in us ==> HasPredecessorIn(g, us, v))
  }

  lemma StepBack(g: Graph, us: set<nat>, v: nat) returns (u: nat)
    requires BackClosed(g, us) && v in us
    ensures Edge(g, u, v) && u in us
  {
    assert HasPredecessorIn(g, us, v);
    u :| Edge(g, u, v) && u in us;
  }

  predicate Inside(us: set<nat>, p: seq<nat>) { forall i :: 0 <= i < |p| ==> p[i] in us }

  /** Predecessors can be followed back for ever. */
  lemma {:induction false} BackWalk(g: Graph, us: set<nat>, v: nat, n: nat) returns (p: seq<nat>)
    requires BackClosed(g, us) && v in us
    ensures |p| == n + 1 && Walk(g, p) && Inside(us, p)
  {
    if n == 0 {
      p := [v];
    } else {
      var q := BackWalk(g, us, v, n - 1);
      var u := StepBack(g, us, q[0]);
      p := [u] + q;
      WalkCons(g, u, q);
    }
  }

  lemma WalkCons(g: Graph, u: nat, q: seq<nat>)
    requires q != [] && Edge(g, u, q[0]) && Walk(g, q)
    ensures Walk(g, [u] + q)
  {
    var p := [u] + q;
    forall i | 0 <= i < |p| - 1 ensures Edge(g, p[i], p[i + 1]) {
      if i > 0 { assert Edge(g, q[i - 1], q[i - 1 + 1]); }
    }
  }

  lemma WalkPart(g: Graph, p: seq<nat>, i: nat, j: nat)
    requires Walk(g, p) && i <= j <= |p|
    ensures Walk(g, p[i..j])
  {
    forall k | 0 <= k < j - i - 1 ensures Edge(g, p[i..j][k], p[i..j][k + 1]) {
      assert Edge(g, p[i + k], p[i + k + 1]);
    }
  }

  /** Too long a walk repeats a stage. */
  lemma Repeats(p: seq<nat>, n: nat) returns (i: nat, j: nat)
    requires |p| > n && forall k :: 0 <= k < |p| ==> p[k] < n
    ensures i < j < |p| && p[i] == p[j]
  {
    if NoDup(p) { NoDupBound(p, n); }
    i, j :| 0 <= i < j < |p| && p[i] == p[j];
  }

  /** So such a set holds a cycle. */
  lemma BackCycle(g: Graph, us: set<nat>, v: nat) returns (c: seq<nat>)
    requires BackClosed(g, us) && v in us
    ensures Cycle(g, c) && Inside(us, c)
  {
    var p := BackWalk(g, us, v, |g|);
    forall k | 0 <= k < |p| ensures p[k] < |g| { assert p[k] in us; }
    var i, j := Repeats(p, |g|);
    c := p[i..j + 1];
    WalkPart(g, p, i, j + 1);
    assert forall k :: 0 <= k < |c| ==> c[k] == p[i + k];
  }

  /** The reachable stages that were not expanded. */
  ghost function Rest(g: Graph, base: nat, order: seq<nat>): set<nat> {
    set v | v in Below(|g|) && Reachable(g, base, v) && v !in [base] + order
  }

  /** Each of them has a predecessor that was not expanded either. */
  lemma RestHeld(g: Graph, base: nat, seen: set<nat>, order: seq<nat>, v: nat) returns (u: nat)
    requires Ended(g, base, seen, order) && v in Rest(g, base, order)
    ensures Edge(g, u, v) && u !in [base] + order
  {
    assert v != base by { assert ([base] + order)[0] == base; }
    if base in order {
      u := RestHeldTwice(g, base, seen, order, v);
    } else {
      RestHeldOnce(g, base, seen, order, v);
      u :| Edge(g, u, v) && u !in [base] + order;
    }
  }

  lemma NotListed(g: Graph, base: nat, seen: set<nat>, order: seq<nat>, v: nat)
    requires Ended(g, base, seen, order) && v in Rest(g, base, order)
    ensures v !in order && v != base && Seen(g, [base] + order, v) < PrevCount(g, v)
  {
    assert ([base] + order)[0] == base;
    forall i | 0 <= i < |order| ensures order[i] != v {
      assert ([base] + order)[i + 1] == order[i];
    }
    var u := ReachedFrom(g, base, v);
    HitsPositive(Targets(g, u), v);
    OutBound(g, u, v, |g|);
  }

  lemma RestHeldOnce(g: Graph, base: nat, seen: set<nat>, order: seq<nat>, v: nat)
    requires Ended(g, base, seen, order) && v in Rest(g, base, order) && base !in order
    ensures exists u :: Edge(g, u, v) && u !in [base] + order
  {
    var all := [base] + order;
    assert forall i :: 0 <= i < |order| ==> order[i] in order && order[i] != base;
    NotListed(g, base, seen, order, v);
    SeenAll(g, all, v);
    assert forall u :: u in all ==> u in Elems(all);
  }

  lemma RestHeldTwice(g: Graph, base: nat, seen: set<nat>, order: seq<nat>, v: nat) returns (u: nat)
    requires Ended(g, base, seen, order) && v in Rest(g, base, order) && base in order
    ensures Edge(g, u, v) && u !in [base] + order
  {
    NotListed(g, base, seen, order, v);
    SeenCons(g, base, order, v);
    SeenAll(g, order, v);
    u :| Edge(g, u, v) && u !in Elems(order);
    assert forall w :: w in [base] + order ==> w in order;
    assert forall w :: w in order ==> w in Elems(order);
  }

  /** Nothing is left over when the reachable stages are acyclic and closed backwards. */
  lemma NothingLeft(g: Graph, base: nat, seen: set<nat>, order: seq<nat>, v: nat)
    requires Ended(g, base, seen, order) && !Returns(g, base) && v in seen
    requires Acyclic(g, base) && ClosedBack(g, base)
    ensures v in order
  {
    NoReturn(g, base, seen, order);
    var us := Rest(g, base, order);
    if v !in order {
      assert v in us;
      forall w | w in us ensures HasPredecessorIn(g, us, w) {
        var u := RestHeld(g, base, seen, order, w);
        assert w != base by { NotListed(g, base, seen, order, w); }
        assert Reachable(g, base, u) && u in us;
      }
      var c := BackCycle(g, us, v);
    }
  }

  // ------------------------------------------------------ when base is on a cycle

  lemma ReturnsIsCycle(g: Graph, base: nat)
    requires Returns(g, base)
    ensures !Acyclic(g, base)
  {
    var u :| Reachable(g, base, u) && Edge(g, u, base);
    var p :| WalkBetween(g, p, base, u);
    var c := p + [base];
    assert Cycle(g, c);
    ReachBase(g, base);
  }

  /** What was expanded before position j is outside no such set. */
  lemma FrontClear(g: Graph, base: nat, order: seq<nat>, us: set<nat>, j: nat, u: nat)
    requires Listed(g, base, order) && j <= |order| && base !in us
    requires forall i :: 0 <= i < j ==> order[i] !in us
    requires u in Elems([base] + order[..j])
    ensures u !in Outside(g, base, us)
  {
    InPrefix(base, order[..j], u);
    ReachBase(g, base);
  }

  /** Stages that keep each other and base are never listed, and base is not listed again. */
  lemma {:induction false} KeptOut(g: Graph, base: nat, order: seq<nat>, us: set<nat>, j: nat)
    requires Listed(g, base, order) && Keeps(g, base, us) && j <= |order|
    ensures forall i :: 0 <= i < j ==> order[i] !in us && order[i] != base
  {
    if j > 0 {
      KeptOut(g, base, order, us, j - 1);
      var v := order[j - 1];
      if v in us || v == base {
        var u := KeptBy(g, base, us, v);
        FrontHas(g, base, order, j - 1, u);
        FrontClear(g, base, order, us, j - 1, u);
      }
    }
  }

  lemma KeptBy(g: Graph, base: nat, us: set<nat>, v: nat) returns (u: nat)
    requires Keeps(g, base, us) && (v in us || v == base)
    ensures Edge(g, u, v) && u in Outside(g, base, us)
  {
    assert HasPredecessorIn(g, Outside(g, base, us), v);
    u :| Edge(g, u, v) && u in Outside(g, base, us);
  }

  /** As long as base was not listed again, a listed stage's predecessors come before it. */
  lemma FrontHas(g: Graph, base: nat, order: seq<nat>, j: nat, u: nat)
    requires Listed(g, base, order) && j < |order| && Edge(g, u, order[j])
    requires forall i :: 0 <= i < j ==> order[i] != base
    ensures u in Elems([base] + order[..j])
  {
    FrontNoDup(base, order, j);
    assert Stages(g, [base] + order[..j]);
    SeenHas(g, [base] + order[..j], order[j], u);
  }

  lemma FrontNoDup(base: nat, order: seq<nat>, j: nat)
    requires NoDup(order) && j <= |order| && forall i :: 0 <= i < j ==> order[i] != base
    ensures NoDup([base] + order[..j])
  {
  }

  /** Nor are stages that outweigh base, even if base is expanded twice. */
  lemma {:induction false} OutweighedOut(g: Graph, base: nat, order: seq<nat>, us: set<nat>, j: nat)
    requires Listed(g, base, order) && Outweighs(g, base, us) && j <= |order|
    ensures forall i :: 0 <= i < j ==> order[i] !in us
  {
    if j > 0 {
      OutweighedOut(g, base, order, us, j - 1);
      var v, q := order[j - 1], order[..j - 1];
      if v in us {
        forall u | u in Elems(q) ensures u !in Outside(g, base, us) {}
        TwoParts(g, Elems(q), Outside(g, base, us), v, |g|);
        assert NoDup(q) && Stages(g, q);
        SeenSet(g, q, v);
        SeenCons(g, base, q, v);
      }
    }
  }

  /** A complete order leaves no such set. */
  lemma ListedUnblocked(g: Graph, base: nat, seen: set<nat>, order: seq<nat>)
    requires Ended(g, base, seen, order) && Returns(g, base) && (forall w :: w in seen ==> w in order)
    ensures !Blocked(g, base)
  {
    forall us ensures !Keeps(g, base, us) && !Outweighs(g, base, us) {
      if Keeps(g, base, us) {
        KeptOut(g, base, order, us, |order|);
        var u :| Reachable(g, base, u) && Edge(g, u, base);
        ReachedListed(g, base, seen, order, u);
        NextListed(g, base, seen, order, u, base);
        assert false;
      }
      if Outweighs(g, base, us) {
        OutweighedOut(g, base, order, us, |order|);
        var v :| v in us;
        ReachedListed(g, base, seen, order, v);
        assert false;
      }
    }
  }

  lemma OutsideRest(g: Graph, base: nat, order: seq<nat>, u: nat)
    requires Listed(g, base, order) && u < |g|
    ensures u in Outside(g, base, Rest(g, base, order)) <==> u !in [base] + order
  {
    if u in [base] + order {
      var i :| 0 <= i < |[base] + order| && ([base] + order)[i] == u;
      ExpandedReached(g, base, order, i);
    }
  }

  /** Base was not listed again: what was not expanded keeps it and itself. */
  lemma RestKeeps(g: Graph, base: nat, seen: set<nat>, order: seq<nat>)
    requires Ended(g, base, seen, order) && Returns(g, base) && base !in order
    ensures Keeps(g, base, Rest(g, base, order))
  {
    var us := Rest(g, base, order);
    assert base !in us by { assert ([base] + order)[0] == base; }
    forall v | v in us ensures HasPredecessorIn(g, Outside(g, base, us), v) {
      var u := RestHeld(g, base, seen, order, v);
      OutsideRest(g, base, order, u);
    }
    BaseHeld(g, base, seen, order);
    var u :| Edge(g, u, base) && u !in [base] + order;
    OutsideRest(g, base, order, u);
  }

  lemma BaseHeld(g: Graph, base: nat, seen: set<nat>, order: seq<nat>)
    requires Ended(g, base, seen, order) && Returns(g, base) && base !in order
    ensures exists u :: Edge(g, u, base) && u !in [base] + order
  {
    var all := [base] + order;
    assert forall i :: 0 <= i < |order| ==> order[i] in order && order[i] != base;
    var w :| Reachable(g, base, w) && Edge(g, w, base);
    HitsPositive(Targets(g, w), base);
    OutBound(g, w, base, |g|);
    SeenAll(g, all, base);
    assert forall u :: u in all ==> u in Elems(all);
  }

  /** Base was listed again: what was not listed outweighs it. */
  lemma RestOutweighs(g: Graph, base: nat, seen: set<nat>, order: seq<nat>, v: nat)
    requires Ended(g, base, seen, order) && base in order && v in seen && v !in order
    ensures Outweighs(g, base, Rest(g, base, order))
  {
    var us := Rest(g, base, order);
    assert base !in us by { assert ([base] + order)[0] == base; }
    assert v in us;
    forall w | w in us ensures HitsIn(g, Outside(g, base, us), w, |g|) > Out(g, base, w) {
      NotListed(g, base, seen, order, w);
      SeenCons(g, base, order, w);
      SeenSet(g, order, w);
      forall u | 0 <= u < |g| ensures u in Elems(order) <==> u !in Outside(g, base, us) {
        OutsideRest(g, base, order, u);
        ListedTwice(base, order, u);
      }
      TwoParts(g, Elems(order), Outside(g, base, us), w, |g|);
    }
  }

  lemma ListedTwice(base: nat, order: seq<nat>, u: nat)
    requires base in order
    ensures u in [base] + order <==> u in Elems(order)
  {
    assert u in [base] + order <==> u == base || u in order;
  }

  /** The verdict at the end of the sort. */
  lemma Verdict(g: Graph, base: nat, seen: set<nat>, order: seq<nat>)
    requires Ended(g, base, seen, order)
    ensures (forall v :: v in seen ==> v in order) <==> Accepted(g, base)
    ensures (forall v :: v in seen ==> v in order) && !Returns(g, base) ==> IsOrder(g, base, order)
  {
    if forall v :: v in seen ==> v in order {
      if Returns(g, base) {
        ListedUnblocked(g, base, seen, order);
      } else {
        NoReturn(g, base, seen, order);
        ListedAcyclic(g, base, seen, order);
        ListedClosed(g, base, seen, order);
        ListedOrder(g, base, seen, order);
      }
    } else {
      var v :| v in seen && v !in order;
      NotAccepted(g, base, seen, order, v);
    }
  }

  lemma NotAccepted(g: Graph, base: nat, seen: set<nat>, order: seq<nat>, v: nat)
    requires Ended(g, base, seen, order) && v in seen && v !in order
    ensures !Accepted(g, base)
  {
    if !Returns(g, base) {
      if Acyclic(g, base) && ClosedBack(g, base) { NothingLeft(g, base, seen, order, v); }
    } else if base !in order {
      RestKeeps(g, base, seen, order);
    } else {
      RestOutweighs(g, base, seen, order, v);
    }
  }

  // -------------------------------------------------------------------- the sort

  /**
   topologySort, for every graph and base.  If no reachable stage connects into base, it
   succeeds exactly when no cycle goes through a reachable stage and the connectors into
   reachable stages other than base start at reachable ones, and then lists the reachable
   stages but base, each after its predecessors.  If one does, base is on a cycle, and the
   sort fails exactly when a set of stages blocks it.
   */
  method Sort(g: Graph, base: nat) returns (ok: bool, order: seq<nat>)
    requires WellFormed(g) && base < |g| && Fits(g)
    ensures ok <==> Accepted(g, base)
    ensures ok && !Returns(g, base) ==> IsOrder(g, base, order)
  {
    var stages: map<nat, nat> := map[];
    var targets := [base];
    var elements := 0;
    order := [];
    ghost var popped: seq<nat> := [];
    SortBegins(g, base);
    while targets != []
      invariant Between(g, base, popped, targets, stages, elements, order)
      decreases |g| + 1 - |popped|
    {
      ghost var current := targets[0];
      StageBegins(g, base, popped, targets, stages, elements, order);
      targets, stages, elements, order :=
        VisitStage(g, base, popped, targets[0], targets[1..], stages, elements, order);
      popped := popped + [current];
    }
    assert popped == [base] + order;
    EndState(g, base, stages, elements, order);
    Verdict(g, base, stages.Keys, order);
    ok := elements == 0;
  }

  /** The middle loop: the output channels of the current stage. */
  method VisitStage(g: Graph, base: nat, ghost popped: seq<nat>, current: nat, targets0: seq<nat>,
                    stages0: map<nat, nat>, elements0: int, order0: seq<nat>)
    returns (targets: seq<nat>, stages: map<nat, nat>, elements: int, order: seq<nat>)
    requires Expanding(g, base, popped, current, [], targets0, stages0, elements0, order0)
    ensures Between(g, base, popped + [current], targets, stages, elements, order)
  {
    targets, stages, elements, order := targets0, stages0, elements0, order0;
    var i := 0;
    var outputs := g[current].outputs;
    while i < |outputs|
      invariant 0 <= i <= |outputs|
      invariant Expanding(g, base, popped, current, Concat(outputs[..i]), targets, stages, elements, order)
    {
      targets, stages, elements, order :=
        VisitConnectors(g, base, popped, current, i, targets, stages, elements, order);
      i := i + 1;
    }
    assert outputs[..i] == outputs;
    StageEnds(g, base, popped, current, targets, stages, elements, order);
  }

  lemma SortBegins(g: Graph, base: nat)
    requires Setup(g, base)
    ensures Between(g, base, [], [base], map[], 0, [])
  {
  }

  /** The inner loop: the connectors of one output channel. */
  method VisitConnectors(g: Graph, base: nat, ghost popped: seq<nat>, current: nat, out: nat, targets0: seq<nat>,
                         stages0: map<nat, nat>, elements0: int, order0: seq<nat>)
    returns (targets: seq<nat>, stages: map<nat, nat>, elements: int, order: seq<nat>)
    requires current < |g| && out < |g[current].outputs|
    requires Expanding(g, base, popped, current, Concat(g[current].outputs[..out]), targets0, stages0, elements0, order0)
    ensures Expanding(g, base, popped, current, Concat(g[current].outputs[..out + 1]), targets, stages, elements, order)
  {
    targets, stages, elements, order := targets0, stages0, elements0, order0;
    var vec := g[current].outputs[out];
    ghost var before := Concat(g[current].outputs[..out]);
    var j := 0;
    assert before + vec[..0] == before;
    while j < |vec|
      invariant 0 <= j <= |vec|
      invariant Expanding(g, base, popped, current, before + vec[..j], targets, stages, elements, order)
    {
      var next := vec[j];
      ChannelPrefix(g, current, out, j);
      VisitKeeps(g, base, popped, current, before + vec[..j], targets, stages, elements, order, next);
      targets, stages, elements, order := VisitOne(g, next, targets, stages, elements, order);
      j := j + 1;
    }
    assert vec[..j] == vec;
    ChannelEnd(g[current].outputs, out);
  }

  /** The body of the inner loop: one connector. */
  method VisitOne(g: Graph, next: nat, targets0: seq<nat>, stages0: map<nat, nat>, elements0: int, order0: seq<nat>)
    returns (targets: seq<nat>, stages: map<nat, nat>, elements: int, order: seq<nat>)
    ensures stages == Visited(g, stages0, next)
    ensures var full := Full(g, stages0, next);
            && targets == targets0 + full && order == order0 + full
            && elements == elements0 + (if next in stages0 then 0 else 1) - |full|
  {
    targets, stages, elements, order := targets0, stages0, elements0, order0;
    if next !in stages {
      elements := elements + 1;
      stages := stages[next := PrevCount(g, next)];
    }
    stages := stages[next := Less(stages[next])];
    if stages[next] <= 0 {
      elements := elements - 1;
      targets := targets + [next];
      order := order + [next];
    }
  }

  lemma ChannelEnd(outputs: seq<seq<nat>>, out: nat)
    requires out < |outputs|
    ensures Concat(outputs[..out + 1]) == Concat(outputs[..out]) + outputs[out]
  {
    assert outputs[..out + 1] == outputs[..out] + [outputs[out]];
    ConcatSnoc(outputs[..out], outputs[out]);
  }

  lemma ChannelPrefix(g: Graph, current: nat, out: nat, j: nat)
    requires current < |g| && out < |g[current].outputs| && j < |g[current].outputs[out]|
    ensures var outputs := g[current].outputs;
            Concat(outputs[..out]) + outputs[out][..j] + [outputs[out][j]] <= Targets(g, current)
    ensures var outputs := g[current].outputs;
            Concat(outputs[..out]) + outputs[out][..j] + [outputs[out][j]]
            == Concat(outputs[..out]) + outputs[out][..j + 1]
  {
    var outputs := g[current].outputs;
    ConcatPrefix(outputs, out);
    assert outputs[out] == outputs[out][..j + 1] + outputs[out][j + 1..];
    assert outputs[out][..j + 1] == outputs[out][..j] + [outputs[out][j]];
  }

  // ----------------------------------------------------------- cycles it accepts

  /** No cycle of reachable stages avoids base. */
  ghost predicate OnlyThroughBase(g: Graph, base: nat) {
    forall p :: Cycle(g, p) && Reachable(g, base, p[0]) ==> base in p
  }

  /** A blocking set whose reachable stages have only reachable predecessors holds a cycle without base. */
  lemma BlockingCycle(g: Graph, base: nat, us: set<nat>, v: nat)
    requires WellFormed(g) && ClosedBack(g, base) && base !in us
    requires forall w :: w in us && Reachable(g, base, w) ==> HasPredecessorIn(g, Outside(g, base, us), w)
    requires v in us && v < |g| && Reachable(g, base, v)
    ensures !OnlyThroughBase(g, base)
  {
    var rs := set w | w in us && w in Below(|g|) && Reachable(g, base, w);
    forall w | w in rs ensures HasPredecessorIn(g, rs, w) {
      var u :| Edge(g, u, w) && u in Outside(g, base, us);
      assert Reachable(g, base, u) && u in rs;
    }
    var c := BackCycle(g, rs, v);
    assert c[0] in rs && forall i :: 0 <= i < |c| ==> c[i] in rs && c[i] != base;
  }

  /**
   The sort accepts every cyclic pipeline whose cycles all go through base and whose
   stages have only reachable predecessors.
   */
  lemma CyclesThroughBasePass(g: Graph, base: nat)
    requires WellFormed(g) && base < |g| && Returns(g, base) && OnlyThroughBase(g, base)
    requires ClosedBack(g, base) && forall u :: Edge(g, u, base) ==> Reachable(g, base, u)
    ensures Accepted(g, base) && !Acyclic(g, base)
  {
    ReturnsIsCycle(g, base);
    forall us ensures !Keeps(g, base, us) && !Outweighs(g, base, us) {
      if Keeps(g, base, us) {
        assert HasPredecessorIn(g, Outside(g, base, us), base);
        var u :| Edge(g, u, base) && u in Outside(g, base, us);
        assert forall w :: w in us ==> HasPredecessorIn(g, Outside(g, base, us), w);
        BlockingCycle(g, base, us, u);
        assert false;
      }
      if Outweighs(g, base, us) {
        forall w | w in us ensures HasPredecessorIn(g, Outside(g, base, us), w) {
          CountPositive(g, Outside(g, base, us), w, |g|);
        }
        var v :| v in us;
        BlockingCycle(g, base, us, v);
        assert false;
      }
    }
  }

  /** The smallest of them: two stages that connect to each other. */
  lemma TwoStages(g: Graph)
    requires g == [Stage([[1]]), Stage([[0]])]
    ensures WellFormed(g) && Fits(g) && Accepted(g, 0) && !Acyclic(g, 0)
  {
    assert Concat<nat>([]) == [] && [[1]][1..] == [] && [[0]][1..] == [];
    assert Targets(g, 0) == [1] && Targets(g, 1) == [0];
    assert forall u, v :: Edge(g, u, v) <==> (u == 0 && v == 1) || (u == 1 && v == 0);
    TwoCounts(g);
    ReachBase(g, 0);
    ReachStep(g, 0, 0, 1);
    forall p | Cycle(g, p) && Reachable(g, 0, p[0]) ensures 0 in p {
      assert Edge(g, p[0], p[0 + 1]);
    }
    CyclesThroughBasePass(g, 0);
  }

  lemma TwoCounts(g: Graph)
    requires |g| == 2 && Targets(g, 0) == [1] && Targets(g, 1) == [0]
    ensures Fits(g)
  {
    forall v ensures PrevCount(g, v) <= 2 {
      HitsBound([1], v);
      HitsBound([0], v);
      assert InCount(g, v, 0) == 0;
      assert InCount(g, v, 1) == InCount(g, v, 0) + Hits(Targets(g, 0), v);
      assert InCount(g, v, 2) == InCount(g, v, 1) + Hits(Targets(g, 1), v);
    }
  }

  lemma {:induction false} HitsBound(ts: seq<nat>, v: nat)
    ensures Hits(ts, v) <= |ts|
  {
    if ts != [] { HitsBound(ts[..|ts| - 1], v); }
  }

  method SortsTwoStageCycle() returns (ok: bool)
    ensures ok
  {
    var g := [Stage([[1]]), Stage([[0]])];
    TwoStages(g);
    var order: seq<nat>;
    ok, order := Sort(g, 0);
  }
}
