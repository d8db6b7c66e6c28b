/**
 The turns of the released cache queues: in every run of pops, between which newly released
 tags join behind the others, no tag keeps the turn longer than its budget while another
 waits, and every scheduled tag is reached.
 */
module SchedulerTurns {
  import opened Common
  import opened Scheduler

  datatype Step = Pop(empty: bool) | Join(more: seq<nat>)

  /** The scheduled tags, the one whose turn it is first. */
  function Tags(t: Turn): seq<nat> { (if t.current.Some? then [t.current.value] else []) + t.queue }

  /** A turn has at least one pop. */
  function Length(budget: int): nat { if budget < 1 then 1 else budget }

  /** Between pops a turn that goes on has had some, but not all of its pops. */
  predicate Proper(t: Turn, budget: int) {
    NoDup(Tags(t)) && (t.current.Some? ==> 0 < t.count < budget)
  }

  predicate Can(t: Turn, st: Step) {
    match st
    case Pop(_) => Tags(t) != []
    case Join(more) => NoDup(Tags(t) + more)
  }

  function Do(t: Turn, budget: int, st: Step): Turn
    requires Can(t, st)
  {
    match st
    case Pop(empty) => Popped(t, budget, empty)
    case Join(more) => t.(queue := t.queue + more)
  }

  predicate IsRun(t: Turn, budget: int, steps: seq<Step>)
    decreases |steps|
  {
    steps == [] || (Can(t, steps[0]) && IsRun(Do(t, budget, steps[0]), budget, steps[1..]))
  }

  function Pops(steps: seq<Step>): nat {
    if steps == [] then 0 else (if steps[0].Pop? then 1 else 0) + Pops(steps[1..])
  }

  /** The tags that the pops of a run choose, in order. */
  function ChosenTags(t: Turn, budget: int, steps: seq<Step>): seq<nat>
    requires IsRun(t, budget, steps)
    decreases |steps|
  {
    if steps == [] then []
    else (if steps[0].Pop? then [Chosen(t)] else []) + ChosenTags(Do(t, budget, steps[0]), budget, steps[1..])
  }

  lemma StaysProper(t: Turn, budget: int, st: Step)
    requires Proper(t, budget) && Can(t, st)
    ensures Proper(Do(t, budget, st), budget)
  {
    var t' := Do(t, budget, st);
    if st.Join? {
      assert Tags(t') == Tags(t) + st.more;
    } else {
      PopKeepsTags(t, budget, st.empty);
    }
  }

  lemma PopKeepsTags(t: Turn, budget: int, empty: bool)
    requires NoDup(Tags(t)) && Tags(t) != []
    ensures var t' := Popped(t, budget, empty);
            && NoDup(Tags(t')) && Chosen(t) == Tags(t)[0]
            && Tags(t') == (if empty then Tags(t)[1..] else if t'.current.Some? then Tags(t) else Tags(t)[1..] + [Chosen(t)])
  {
    var tags := Tags(t);
    assert tags == [tags[0]] + tags[1..];
    assert t.current.None? ==> t.queue == tags;
    assert t.current.Some? ==> t.queue == tags[1..];
  }

  // ------------------------------------------------------------------ reaching a tag

  /** The position of a tag in the order of turns. */
  function Place(tags: seq<nat>, tag: nat): (p: nat)
    requires tag in tags
    ensures p < |tags| && tags[p] == tag
  {
    if tags[0] == tag then 0 else 1 + Place(tags[1..], tag)
  }

  lemma PlaceIs(tags: seq<nat>, tag: nat, p: nat)
    requires NoDup(tags) && p < |tags| && tags[p] == tag
    ensures Place(tags, tag) == p
  {
    var q := Place(tags, tag);
    assert tags[q] == tags[p];
  }

  /** The pops of p turns of a length, when the first has had some already. */
  function Ahead(p: nat, length: nat, had: int): int { if p == 0 then 0 else p * length - had }

  /** How many pops the present turn has had. */
  function Had(t: Turn): int { if t.current.Some? then t.count else 0 }

  /** How many pops can come before one of this tag. */
  function Distance(t: Turn, budget: int, tag: nat): int
    requires tag in Tags(t)
  {
    Ahead(Place(Tags(t), tag), Length(budget), Had(t))
  }

  lemma AheadLess(p: nat, length: nat, had: int)
    requires p > 0 && 0 <= had < length
    ensures Ahead(p, length, had + 1) < Ahead(p, length, had)
    ensures Ahead(p - 1, length, 0) < Ahead(p, length, had)
  {
    assert (p - 1) * length == p * length - length;
    Times(1, p, length);
  }

  /** It is less than one turn for each scheduled tag. */
  lemma DistanceBound(t: Turn, budget: int, tag: nat)
    requires Proper(t, budget) && tag in Tags(t)
    ensures 0 <= Distance(t, budget, tag) && Distance(t, budget, tag) + 1 <= Length(budget) * |Tags(t)|
  {
    var p, n := Place(Tags(t), tag), |Tags(t)|;
    Times(p, n - 1, Length(budget));
    Times(1, p, Length(budget));
    assert (n - 1) * Length(budget) + Length(budget) == Length(budget) * n;
  }

  lemma Times(a: nat, b: int, c: nat)
    ensures a <= b ==> a * c <= b * c
  {
  }

  /** A pop is of this tag or brings it nearer; joining tags change nothing. */
  lemma PopNearer(t: Turn, budget: int, empty: bool, tag: nat)
    requires Proper(t, budget) && tag in Tags(t) && Chosen(t) != tag
    ensures var t' := Popped(t, budget, empty);
            tag in Tags(t') && Distance(t', budget, tag) < Distance(t, budget, tag)
  {
    var t' := Popped(t, budget, empty);
    PopKeepsTags(t, budget, empty);
    if t'.current.Some? {
      StillAhead(t, t', budget, tag);
    } else {
      OneNearer(Tags(t), Tags(t'), tag);
      OneLessAhead(t, t', budget, tag);
    }
  }

  lemma StillAhead(t: Turn, t': Turn, budget: int, tag: nat)
    requires tag in Tags(t) && Tags(t') == Tags(t) && Place(Tags(t), tag) > 0
    requires 0 <= Had(t) < Length(budget) && Had(t') == Had(t) + 1
    ensures Distance(t', budget, tag) < Distance(t, budget, tag)
  {
    AheadLess(Place(Tags(t), tag), Length(budget), Had(t));
  }

  lemma OneLessAhead(t: Turn, t': Turn, budget: int, tag: nat)
    requires tag in Tags(t) && tag in Tags(t') && Place(Tags(t), tag) > 0 && Place(Tags(t'), tag) == Place(Tags(t), tag) - 1
    requires 0 <= Had(t) < Length(budget) && Had(t') == 0
    ensures Distance(t', budget, tag) < Distance(t, budget, tag)
  {
    AheadLess(Place(Tags(t), tag), Length(budget), Had(t));
  }

  lemma OneNearer(tags: seq<nat>, tags': seq<nat>, tag: nat)
    requires NoDup(tags) && NoDup(tags') && tag in tags && tags[0] != tag && tags[1..] <= tags'
    ensures tag in tags' && Place(tags', tag) == Place(tags, tag) - 1
  {
    var p := Place(tags, tag);
    assert tags'[p - 1] == tags[1..][p - 1] == tag;
    PlaceIs(tags', tag, p - 1);
  }

  lemma JoinSame(t: Turn, budget: int, more: seq<nat>, tag: nat)
    requires Proper(t, budget) && tag in Tags(t) && Can(t, Join(more))
    ensures var t' := Do(t, budget, Join(more)); tag in Tags(t') && Distance(t', budget, tag) == Distance(t, budget, tag)
  {
    var t', p := Do(t, budget, Join(more)), Place(Tags(t), tag);
    assert Tags(t') == Tags(t) + more;
    assert Tags(t')[p] == tag;
    PlaceIs(Tags(t'), tag, p);
  }

  /** In every run with more pops than that, one pop is of this tag. */
  lemma {:induction false} TagIsReached(t: Turn, budget: int, steps: seq<Step>, tag: nat)
    requires Proper(t, budget) && IsRun(t, budget, steps) && tag in Tags(t) && Pops(steps) > Distance(t, budget, tag)
    ensures tag in ChosenTags(t, budget, steps)
    decreases |steps|
  {
    DistanceBound(t, budget, tag);
    var st := steps[0];
    StaysProper(t, budget, st);
    if st.Join? {
      JoinSame(t, budget, st.more, tag);
      TagIsReached(Do(t, budget, st), budget, steps[1..], tag);
    } else if Chosen(t) != tag {
      PopNearer(t, budget, st.empty, tag);
      TagIsReached(Do(t, budget, st), budget, steps[1..], tag);
    }
  }

  /**
   Every scheduled tag is reached: among as many pops as there are scheduled tags, times the
   budget (at least one), one is of this tag.
   */
  lemma EveryTagIsReached(t: Turn, budget: int, steps: seq<Step>, tag: nat)
    requires Proper(t, budget) && IsRun(t, budget, steps) && tag in Tags(t)
    requires Pops(steps) >= Length(budget) * |Tags(t)|
    ensures tag in ChosenTags(t, budget, steps)
  {
    DistanceBound(t, budget, tag);
    TagIsReached(t, budget, steps, tag);
  }

  // ------------------------------------------------------------ the length of a turn

  predicate AllAre(tags: seq<nat>, tag: nat) { forall i :: 0 <= i < |tags| ==> tags[i] == tag }

  lemma {:induction false} ChosenCount(t: Turn, budget: int, steps: seq<Step>)
    requires IsRun(t, budget, steps)
    ensures |ChosenTags(t, budget, steps)| == Pops(steps)
    decreases |steps|
  {
    if steps != [] { ChosenCount(Do(t, budget, steps[0]), budget, steps[1..]); }
  }

  /** While another tag is first in line, no pop is of this tag. */
  lemma {:induction false} OtherIsFirst(t: Turn, budget: int, steps: seq<Step>, tag: nat)
    requires IsRun(t, budget, steps) && t.current.None? && t.queue != [] && t.queue[0] != tag
    requires AllAre(ChosenTags(t, budget, steps), tag)
    ensures Pops(steps) == 0
    decreases |steps|
  {
    if steps != [] {
      ChosenFirst(t, budget, steps, tag);
      if steps[0].Pop? {
        assert false;
      }
      OtherIsFirst(Do(t, budget, steps[0]), budget, steps[1..], tag);
    }
  }

  /** If all pops are of one tag, so is the first, and so are the others. */
  lemma ChosenFirst(t: Turn, budget: int, steps: seq<Step>, tag: nat)
    requires IsRun(t, budget, steps) && steps != [] && AllAre(ChosenTags(t, budget, steps), tag)
    ensures steps[0].Pop? ==> Chosen(t) == tag
    ensures AllAre(ChosenTags(Do(t, budget, steps[0]), budget, steps[1..]), tag)
  {
    var all, rest := ChosenTags(t, budget, steps), ChosenTags(Do(t, budget, steps[0]), budget, steps[1..]);
    var n := if steps[0].Pop? then 1 else 0;
    assert all[n..] == rest && forall i :: 0 <= i < |rest| ==> rest[i] == all[i + n];
    assert steps[0].Pop? ==> all[0] == Chosen(t);
  }

  /** The pops that the turn of this tag has left. */
  function TurnLeft(t: Turn, budget: int): int { Length(budget) - Had(t) }

  /** While another tag is scheduled, at most a budget (at least one) of consecutive pops is of one tag. */
  lemma {:induction false} TurnIsBounded(t: Turn, budget: int, steps: seq<Step>, tag: nat, other: nat)
    requires Proper(t, budget) && IsRun(t, budget, steps) && other in Tags(t) && other != tag
    requires AllAre(ChosenTags(t, budget, steps), tag)
    ensures Pops(steps) <= TurnLeft(t, budget) <= Length(budget)
    decreases |steps|
  {
    if steps != [] {
      var st, t' := steps[0], Do(t, budget, steps[0]);
      StaysProper(t, budget, st);
      ChosenFirst(t, budget, steps, tag);
      if st.Join? {
        assert Tags(t') == Tags(t) + st.more;
        TurnIsBounded(t', budget, steps[1..], tag, other);
      } else {
        PopKeepsTags(t, budget, st.empty);
        if t'.current.Some? {
          TurnIsBounded(t', budget, steps[1..], tag, other);
        } else {
          OtherNext(t, budget, st.empty, tag, other);
          OtherIsFirst(t', budget, steps[1..], tag);
        }
      }
    }
  }

  /** When the turn of a tag ends and another is scheduled, another is first in line. */
  lemma OtherNext(t: Turn, budget: int, empty: bool, tag: nat, other: nat)
    requires NoDup(Tags(t)) && Tags(t) != [] && Chosen(t) == tag && other in Tags(t) && other != tag
    requires Popped(t, budget, empty).current.None?
    ensures var t' := Popped(t, budget, empty); t'.queue != [] && t'.queue[0] != tag
  {
    PopKeepsTags(t, budget, empty);
    var tags := Tags(t);
    assert |tags| > 1 by { assert tags[0] == tag; }
    assert tags[1] != tags[0];
  }

  /** The turns of a thread are of this kind: proper at all times between polls. */
  lemma ThreadIsProper(t: ThreadBase)
    requires t.Valid()
    ensures Proper(t.TurnNow(), t.nrCqSrvBudget) && |Tags(t.TurnNow())| == t.nrReleaseCacheQueues
  {
  }

  /** Blocking a tag rotates the others: the first in line can end up behind one that waited longer. */
  lemma BlockPostpones(a: nat, b: nat, c: nat)
    requires a != b && b != c && a != c
    ensures Rotated([a, b, c], b) == [c, a]
  {
    assert [a, b, c][1..][0] == b;
    assert IndexOf([a, b, c], b) == 1;
  }
}
