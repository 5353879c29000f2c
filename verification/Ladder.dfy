// The drawdown ladder, which both the strategy and the policy engine walk in threshold order.
module Ladder {
  import opened Types

  predicate Ordered(steps: seq<LadderStep>) {
    forall i, j :: 0 <= i < j < |steps| ==> steps[i].atPct <= steps[j].atPct
  }

  /** Stable insertion behind every step with a threshold that is not larger. */
  function Insert(step: LadderStep, steps: seq<LadderStep>): (r: seq<LadderStep>)
    requires Ordered(steps)
    ensures Ordered(r)
    ensures forall i :: 0 <= i < |r| ==> r[i] == step || r[i] in steps
  {
    if steps == [] || steps[|steps| - 1].atPct <= step.atPct then steps + [step]
    else
      var n := |steps| - 1;
      Insert(step, steps[..n]) + [steps[n]]
  }

  lemma {:induction false} InsertAdds(step: LadderStep, steps: seq<LadderStep>)
    requires Ordered(steps)
    ensures multiset(Insert(step, steps)) == multiset(steps) + multiset{step}
  {
    if steps != [] && steps[|steps| - 1].atPct > step.atPct {
      var n := |steps| - 1;
      assert steps == steps[..n] + [steps[n]];
      InsertAdds(step, steps[..n]);
    }
  }

  /** sorted(ladder, key=at_pct) */
  function Sorted(steps: seq<LadderStep>): (r: seq<LadderStep>)
    ensures Ordered(r)
  {
    if steps == [] then [] else Insert(steps[|steps| - 1], Sorted(steps[..|steps| - 1]))
  }

  lemma {:induction false} SortedPermutes(steps: seq<LadderStep>)
    ensures multiset(Sorted(steps)) == multiset(steps)
  {
    if steps != [] {
      var n := |steps| - 1;
      assert steps == steps[..n] + [steps[n]];
      SortedPermutes(steps[..n]);
      InsertAdds(steps[n], Sorted(steps[..n]));
    }
  }

  /** Last action, in list order, whose threshold the drawdown reaches. */
  function LastReached(steps: seq<LadderStep>, drawdownPct: real): Rung {
    if steps == [] then Full
    else
      var last := steps[|steps| - 1];
      if drawdownPct >= last.atPct then last.action else LastReached(steps[..|steps| - 1], drawdownPct)
  }

  function RungAt(steps: seq<LadderStep>, drawdownPct: real): Rung {
    LastReached(Sorted(steps), drawdownPct)
  }

  method WalkSteps(ladder: seq<LadderStep>, drawdownPct: real) returns (rung: Rung)
    ensures rung == LastReached(ladder, drawdownPct)
  {
    rung := Full;
    for i := 0 to |ladder|
      invariant rung == LastReached(ladder[..i], drawdownPct)
    {
      assert ladder[..i + 1][..i] == ladder[..i];
      if drawdownPct >= ladder[i].atPct {
        rung := ladder[i].action;
      }
    }
    assert ladder[..|ladder|] == ladder;
  }

  /** Both _ladder_rung functions: sort the ladder, then walk it. */
  method WalkLadder(steps: seq<LadderStep>, drawdownPct: real) returns (rung: Rung)
    ensures rung == RungAt(steps, drawdownPct)
  {
    var ladder := Sorted(steps);
    rung := WalkSteps(ladder, drawdownPct);
  }

  lemma LastIsGreatest(steps: seq<LadderStep>)
    requires Ordered(steps) && steps != []
    ensures forall t :: t in steps ==> t.atPct <= steps[|steps| - 1].atPct
  {
  }

  lemma {:induction false} LastReachedIsHighest(steps: seq<LadderStep>, drawdownPct: real)
    requires Ordered(steps)
    ensures (forall s :: s in steps ==> drawdownPct < s.atPct) ==> LastReached(steps, drawdownPct) == Full
    ensures (exists s :: s in steps && drawdownPct >= s.atPct) ==>
              exists s :: s in steps && s.atPct <= drawdownPct && s.action == LastReached(steps, drawdownPct)
                && forall t :: t in steps && t.atPct <= drawdownPct ==> t.atPct <= s.atPct
  {
    if steps != [] {
      var n := |steps| - 1;
      assert steps[n] in steps;
      if drawdownPct >= steps[n].atPct {
        LastIsGreatest(steps);
      } else {
        LastReachedIsHighest(steps[..n], drawdownPct);
        assert forall s :: s in steps ==> s in steps[..n] || s == steps[n];
      }
    }
  }

  /** Whatever the order of the list, the rung is that of the highest threshold reached, or none. */
  lemma RungIsHighestReached(steps: seq<LadderStep>, drawdownPct: real)
    ensures (forall s :: s in steps ==> drawdownPct < s.atPct) ==> RungAt(steps, drawdownPct) == Full
    ensures (exists s :: s in steps && drawdownPct >= s.atPct) ==>
              exists s :: s in steps && s.atPct <= drawdownPct && s.action == RungAt(steps, drawdownPct)
                && forall t :: t in steps && t.atPct <= drawdownPct ==> t.atPct <= s.atPct
  {
    var ladder := Sorted(steps);
    assert forall s :: s in steps <==> s in ladder by {
      SortedPermutes(steps);
      assert forall s :: s in steps <==> s in multiset(steps);
      assert forall s :: s in ladder <==> s in multiset(ladder);
    }
    LastReachedIsHighest(ladder, drawdownPct);
  }

  /** A ladder of three strictly rising steps. */
  lemma LastOfThree(a: LadderStep, b: LadderStep, c: LadderStep, drawdownPct: real)
    ensures LastReached([a, b, c], drawdownPct) ==
              if drawdownPct >= c.atPct then c.action else if drawdownPct >= b.atPct then b.action
              else if drawdownPct >= a.atPct then a.action else Full
  {
    var l := [a, b, c];
    assert l[..2] == [a, b] && [a, b][..1] == [a] && [a][..0] == [];
    assert LastReached([a], drawdownPct) == if drawdownPct >= a.atPct then a.action else Full;
    assert LastReached([a, b], drawdownPct)
        == if drawdownPct >= b.atPct then b.action else LastReached([a], drawdownPct);
  }

  lemma ThreeSteps(a: LadderStep, b: LadderStep, c: LadderStep, drawdownPct: real)
    requires a.atPct < b.atPct < c.atPct
    ensures RungAt([a, b, c], drawdownPct) ==
              if drawdownPct >= c.atPct then c.action else if drawdownPct >= b.atPct then b.action
              else if drawdownPct >= a.atPct then a.action else Full
  {
    var l := [a, b, c];
    assert forall s :: s in l <==> s == a || s == b || s == c by {
      assert l[0] == a && l[1] == b && l[2] == c;
    }
    RungIsHighestReached(l, drawdownPct);
  }

  /** The committed ladder: half size from 1%, no new risk from 2%, stablecoins from 3%. */
  lemma CommittedRungs(drawdownPct: real)
    ensures RungAt(LADDER, drawdownPct) ==
              if drawdownPct < 1.0 then Full else if drawdownPct < 2.0 then HalveSize
              else if drawdownPct < 3.0 then NoNewRisk else StablecoinMode
  {
    ThreeSteps(LADDER[0], LADDER[1], LADDER[2], drawdownPct);
    assert LADDER == [LADDER[0], LADDER[1], LADDER[2]];
  }
}
