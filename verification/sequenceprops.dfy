/** What the implicit order of sequenceSteps guarantees. */
module SequenceProps {
  import opened Wrappers
  import opened Steps
  import opened Graph
  import opened StepGraph
  import opened Sequence

  /** Steps as authored without edges: every step has a name of its own. */
  ghost predicate Flat(steps: seq<Step>) {
    NamedOnce(steps) && forall i :: 0 <= i < |steps| ==> NoEdges(steps[i])
  }

  /** Where the edge of step i leads: the split that chooses it, else the step before. */
  function Parent(steps: seq<Step>, i: nat): (r: int)
    requires i < |steps|
  {
    var split := FirstSplit(steps, steps[i].id, |steps|);
    if split.Some? then split.value else i - 1
  }

  function Parents(steps: seq<Step>): (r: seq<int>) {
    seq(|steps|, i requires 0 <= i < |steps| => Parent(steps, i))
  }

  lemma {:induction false} PositionNamed(steps: seq<Step>, i: nat, n: nat)
    requires NamedOnce(steps) && i < n <= |steps|
    ensures PositionOf(steps, steps[i].id, n) == i
  {
    if i < n - 1 {
      PositionNamed(steps, i, n - 1);
    }
  }

  lemma {:induction false} ParentIsEarlier(steps: seq<Step>, i: nat)
    requires NamedOnce(steps) && i < |steps|
    ensures Parent(steps, i) < i
    ensures i > 0 ==> Parent(steps, i) >= 0
    ensures i == 0 ==> Parent(steps, i) == -1
  {
    PositionNamed(steps, i, |steps|);
  }

  lemma {:induction false} OneEdgeAt(steps: seq<Step>, i: nat)
    requires Flat(steps) && i < |steps|
    ensures SequenceAt(steps, i).id == steps[i].id
    ensures Edges(SequenceAt(steps, i)) ==
            if Parent(steps, i) < 0 then [] else [steps[Parent(steps, i)].id]
  {
    ParentIsEarlier(steps, i);
    if i > 0 {
      assert PrevId(steps, i) == steps[i - 1].id;
    }
  }

  /** Every step but the first gets exactly one edge, to an earlier step. */
  lemma {:induction false} OneEdgeEach(steps: seq<Step>)
    requires Flat(steps)
    ensures NamedOnce(SequenceSteps(steps))
    ensures SingleEdges(SequenceSteps(steps), Parents(steps))
  {
    var out, up := SequenceSteps(steps), Parents(steps);
    forall i | 0 <= i < |steps|
      ensures out[i].id == steps[i].id && up[i] < i
      ensures Edges(out[i]) == if up[i] < 0 then [] else [steps[up[i]].id]
    {
      ParentIsEarlier(steps, i);
      OneEdgeAt(steps, i);
    }
  }

  lemma {:induction false} SequenceKeepsIds(steps: seq<Step>)
    ensures Ids(SequenceSteps(steps)) == Ids(steps)
  {
  }

  /** The graph of a sequenced workflow is a forest over the declared ids. */
  lemma {:induction false} SequencedForest(steps: seq<Step>)
    requires Flat(steps)
    ensures Forest(Deps(SequenceSteps(steps)), Ids(steps), Parents(steps))
  {
    OneEdgeEach(steps);
    SequenceKeepsIds(steps);
    SingleEdgesForest(SequenceSteps(steps), Parents(steps));
  }

  /** ... so every step waits, directly or not, for the first one. */
  lemma {:induction false} AllReachFirst(steps: seq<Step>, i: nat)
    requires Flat(steps) && 0 < i < |steps|
    ensures Reaches(Deps(SequenceSteps(steps)), steps[i].id, steps[0].id)
  {
    SequencedForest(steps);
    forall k | 0 < k < |steps|
      ensures Parents(steps)[k] >= 0
    {
      ParentIsEarlier(steps, k);
    }
    ForestRoot(Deps(SequenceSteps(steps)), Ids(steps), Parents(steps), i);
  }

  lemma {:induction false} ParentOfTarget(steps: seq<Step>, k: nat, a: nat)
    requires NamedOnce(steps) && k < a < |steps|
    requires StepType(steps[k]) == SPLIT && steps[a].id in steps[k].branches
    ensures Parents(steps)[a] <= k
  {
    PositionNamed(steps, a, |steps|);
    assert Feeds(steps, k, steps[a].id);
  }

  /** Two goto targets declared after the same split never wait for each other. */
  lemma {:induction false} TargetsIndependent(steps: seq<Step>, k: nat, a: nat, b: nat)
    requires Flat(steps)
    requires k < |steps| && StepType(steps[k]) == SPLIT
    requires k < a < |steps| && steps[a].id in steps[k].branches
    requires k < b < |steps| && steps[b].id in steps[k].branches
    ensures !Reaches(Deps(SequenceSteps(steps)), steps[a].id, steps[b].id)
  {
    var g := Deps(SequenceSteps(steps));
    SequencedForest(steps);
    ParentOfTarget(steps, k, a);
    if Reaches(g, steps[a].id, steps[b].id) {
      var j := ForestAncestors(g, Ids(steps), Parents(steps), a, steps[b].id);
    }
  }

  lemma {:induction false} ParentWithoutSplits(steps: seq<Step>, i: nat)
    requires i < |steps|
    requires forall k :: 0 <= k < |steps| ==> StepType(steps[k]) != SPLIT
    ensures Parents(steps)[i] == i - 1
  {
  }

  /** Without splits, a step waits for exactly the steps declared before it. */
  lemma {:induction false} OrderWithoutSplits(steps: seq<Step>, i: nat, x: string)
    requires Flat(steps) && i < |steps|
    requires forall k :: 0 <= k < |steps| ==> StepType(steps[k]) != SPLIT
    ensures Reaches(Deps(SequenceSteps(steps)), steps[i].id, x) <==>
            exists j :: 0 <= j < i && steps[j].id == x
  {
    var g, ids, up := Deps(SequenceSteps(steps)), Ids(steps), Parents(steps);
    SequencedForest(steps);
    forall k | 0 <= k < |steps|
      ensures up[k] == k - 1
    {
      ParentWithoutSplits(steps, k);
    }
    if Reaches(g, ids[i], x) {
      var j := ForestAncestors(g, ids, up, i, x);
      assert steps[j].id == x;
    }
    if j :| 0 <= j < i && steps[j].id == x {
      ChainReaches(g, ids, up, i, j);
    }
  }

  lemma {:induction false} SameScan(a: seq<Step>, b: seq<Step>, t: string, n: nat)
    requires |a| == |b| && n <= |a|
    requires forall k :: 0 <= k < |a| ==> a[k].id == b[k].id && a[k].kind == b[k].kind && a[k].branches == b[k].branches
    ensures PositionOf(a, t, n) == PositionOf(b, t, n)
    ensures PrevId(a, n) == PrevId(b, n)
  {
    if n > 0 {
      SameScan(a, b, t, n - 1);
    }
  }

  lemma {:induction false} SameSplit(a: seq<Step>, b: seq<Step>, t: string, n: nat)
    requires |a| == |b| && n <= |a|
    requires forall k :: 0 <= k < |a| ==> a[k].id == b[k].id && a[k].kind == b[k].kind && a[k].branches == b[k].branches
    ensures FirstSplit(a, t, n) == FirstSplit(b, t, n)
  {
    if n > 0 {
      SameSplit(a, b, t, n - 1);
      SameScan(a, b, t, |a|);
    }
  }

  /** Sequencing twice is sequencing once, for any list of steps. */
  lemma {:induction false} SequenceIdempotent(steps: seq<Step>)
    ensures SequenceSteps(SequenceSteps(steps)) == SequenceSteps(steps)
  {
    var once := SequenceSteps(steps);
    forall i | 0 <= i < |steps|
      ensures SequenceAt(once, i) == once[i]
    {
      SameSplit(steps, once, steps[i].id, |steps|);
      SameScan(steps, once, "", i);
    }
  }

  // ---------- any list of steps, position by position ----------

  /** The step at k is a split with a branch to t, and t is declared after it. */
  ghost predicate BranchesTo(steps: seq<Step>, k: int, t: string) {
    && 0 <= k < |steps| && steps[k].kind == "split"
    && t != "" && t in steps[k].branches && exists p :: k < p < |steps| && steps[p].id == t
  }

  /** ... and it is the first such split. */
  ghost predicate FirstBranch(steps: seq<Step>, k: int, t: string) {
    BranchesTo(steps, k, t) && forall j :: 0 <= j < k ==> !BranchesTo(steps, j, t)
  }

  /** The step at k is the nearest one before i that has a name. */
  ghost predicate NamedBefore(steps: seq<Step>, i: nat, k: int) {
    0 <= k < i <= |steps| && steps[k].id != "" && forall j :: k < j < i ==> steps[j].id == ""
  }

  lemma {:induction false} LastPosition(steps: seq<Step>, id: string, n: nat, k: nat)
    requires n <= |steps| && k < |steps|
    ensures PositionOf(steps, id, n) > k <==> exists p :: k < p < n && steps[p].id == id
  {
    if n > 0 {
      LastPosition(steps, id, n - 1, k);
    }
  }

  lemma {:induction false} FeedsIs(steps: seq<Step>, k: nat, t: string)
    requires k < |steps|
    ensures Feeds(steps, k, t) <==> BranchesTo(steps, k, t)
  {
    LastPosition(steps, t, |steps|, k);
  }

  lemma {:induction false} PrevIs(steps: seq<Step>, i: nat)
    requires i <= |steps|
    ensures PrevId(steps, i) == "" <==> forall k :: !NamedBefore(steps, i, k)
    ensures forall k :: NamedBefore(steps, i, k) ==> PrevId(steps, i) == steps[k].id
  {
    if i > 0 {
      PrevIs(steps, i - 1);
      if steps[i - 1].id != "" {
        assert NamedBefore(steps, i, i - 1);
      } else {
        var n: nat := i - 1;
        forall k
          ensures NamedBefore(steps, i, k) <==> NamedBefore(steps, n, k)
        {
          PrevKept(steps, i, k);
        }
        if k :| NamedBefore(steps, n, k) {
          assert NamedBefore(steps, i, k);
        }
      }
    }
  }

  lemma {:induction false} PrevKept(steps: seq<Step>, i: nat, k: int)
    requires 0 < i <= |steps| && steps[i - 1].id == ""
    ensures NamedBefore(steps, i, k) <==> NamedBefore(steps, i - 1, k)
  {
  }

  lemma {:induction false} SplitIs(steps: seq<Step>, t: string)
    ensures FirstSplit(steps, t, |steps|).None? <==> forall k :: !FirstBranch(steps, k, t)
    ensures forall k :: FirstBranch(steps, k, t) ==> k >= 0 && FirstSplit(steps, t, |steps|) == Some(k)
  {
    forall k: nat | k < |steps|
      ensures Feeds(steps, k, t) <==> BranchesTo(steps, k, t)
    {
      FeedsIs(steps, k, t);
    }
    var split := FirstSplit(steps, t, |steps|);
    if split.Some? {
      assert FirstBranch(steps, split.value, t);
    }
  }

  /**
   A step with an edge of its own is left alone. Of the others, one that a split before it branches
   to waits for the first such split, and any other for the nearest step before it that has a
   name, if there is one. Nothing else about a step changes.
   */
  lemma {:induction false} SequencedAs(steps: seq<Step>, i: nat, k: int)
    requires i < |steps|
    ensures var s, n := steps[i], SequenceSteps(steps)[i];
            && n == s.(seqDependsOn := n.seqDependsOn)
            && (s.dependsOn != [] || s.seqDependsOn != [] ==> n == s)
            && (s.dependsOn == [] && s.seqDependsOn == [] ==>
                  && (FirstBranch(steps, k, s.id) ==> n.seqDependsOn == [steps[k].id])
                  && ((forall j :: !FirstBranch(steps, j, s.id)) ==>
                        && (NamedBefore(steps, i, k) ==> n.seqDependsOn == [steps[k].id])
                        && ((forall j :: !NamedBefore(steps, i, j)) ==> n.seqDependsOn == [])))
  {
    SplitIs(steps, steps[i].id);
    PrevIs(steps, i);
  }
}
