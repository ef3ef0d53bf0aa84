/**
 sequenceSteps: the implicit order of a flat workflow. A step without edges depends on the
 step before it, and a goto target declared after its split depends on that split.
 */
module Sequence {
  import opened Wrappers
  import opened Steps

  predicate NoEdges(s: Step) {
    s.dependsOn == [] && s.seqDependsOn == []
  }

  /** The position the index map holds for an id: its last one, or 0 for an unknown id. */
  function PositionOf(steps: seq<Step>, id: string, n: nat): (r: nat)
    requires n <= |steps|
    ensures r < n || r == 0
  {
    if n == 0 then 0
    else if steps[n - 1].id == id then n - 1
    else PositionOf(steps, id, n - 1)
  }

  /** The step at i is a split with a branch to the target, which comes later. */
  predicate Feeds(steps: seq<Step>, i: nat, target: string)
    requires i < |steps|
  {
    && StepType(steps[i]) == SPLIT
    && target != "" && target in steps[i].branches
    && PositionOf(steps, target, |steps|) > i
  }

  /** The first split among the first n steps that feeds the target. */
  function FirstSplit(steps: seq<Step>, target: string, n: nat): (r: Option<nat>)
    requires n <= |steps|
    ensures r.Some? ==> r.value < n && Feeds(steps, r.value, target)
    ensures forall i :: 0 <= i < n && (r.None? || i < r.value) ==> !Feeds(steps, i, target)
  {
    if n == 0 then None
    else
      var earlier := FirstSplit(steps, target, n - 1);
      if earlier.Some? then earlier
      else if Feeds(steps, n - 1, target) then Some(n - 1)
      else None
  }

  /** prevID when the loop reaches step i: the last non-empty id before it. */
  function PrevId(steps: seq<Step>, i: nat): (r: string)
    requires i <= |steps|
  {
    if i == 0 then ""
    else if steps[i - 1].id != "" then steps[i - 1].id
    else PrevId(steps, i - 1)
  }

  function SequenceAt(steps: seq<Step>, i: nat): (r: Step)
    requires i < |steps|
  {
    var s := steps[i];
    if !NoEdges(s) then s
    else
      var split := FirstSplit(steps, s.id, |steps|);
      if split.Some? then s.(seqDependsOn := [steps[split.value].id])
      else if PrevId(steps, i) != "" then s.(seqDependsOn := [PrevId(steps, i)])
      else s
  }

  function SequenceSteps(steps: seq<Step>): (r: seq<Step>) {
    seq(|steps|, i requires 0 <= i < |steps| => SequenceAt(steps, i))
  }

  // ---------- the loops ----------

  ghost predicate IndexTo(steps: seq<Step>, index: map<string, nat>, n: nat)
    requires n <= |steps|
  {
    forall id :: PositionOf(steps, id, n) == if id in index then index[id] else 0
  }

  method IndexSteps(steps: seq<Step>) returns (index: map<string, nat>)
    ensures IndexTo(steps, index, |steps|)
  {
    index := map[];
    var i := 0;
    while i < |steps|
      invariant 0 <= i <= |steps|
      invariant IndexTo(steps, index, i)
    {
      index := index[steps[i].id := i];
      i := i + 1;
    }
  }

  /** What splitFor says about one target after the first n steps. */
  ghost predicate ClaimIs(steps: seq<Step>, splitFor: map<string, string>, n: nat, t: string)
    requires n <= |steps|
  {
    var split := FirstSplit(steps, t, n);
    if split.Some? then t in splitFor && splitFor[t] == steps[split.value].id else t !in splitFor
  }

  ghost predicate Claims(steps: seq<Step>, splitFor: map<string, string>, n: nat)
    requires n <= |steps|
  {
    forall t :: ClaimIs(steps, splitFor, n, t)
  }

  lemma {:induction false} ClaimsNext(steps: seq<Step>, before: map<string, string>, splitFor: map<string, string>, i: nat)
    requires i < |steps| && Claims(steps, before, i)
    requires forall t :: t in before ==> t in splitFor && splitFor[t] == before[t]
    requires forall t :: t in splitFor && t !in before ==> Feeds(steps, i, t) && splitFor[t] == steps[i].id
    requires forall t :: t in steps[i].branches && Feeds(steps, i, t) ==> t in splitFor
    ensures Claims(steps, splitFor, i + 1)
  {
    var n := i + 1;
    forall t
      ensures ClaimIs(steps, splitFor, n, t)
    {
      assert ClaimIs(steps, before, i, t);
    }
  }

  /** The inner loop over the branches of the split at i. */
  method ClaimBranches(steps: seq<Step>, index: map<string, nat>, i: nat, before: map<string, string>)
    returns (splitFor: map<string, string>)
    requires i < |steps| && StepType(steps[i]) == SPLIT
    requires IndexTo(steps, index, |steps|)
    requires Claims(steps, before, i)
    ensures Claims(steps, splitFor, i + 1)
  {
    var s := steps[i];
    splitFor := before;
    var b := 0;
    while b < |s.branches|
      invariant 0 <= b <= |s.branches|
      invariant forall t :: t in before ==> t in splitFor && splitFor[t] == before[t]
      invariant forall t :: t in splitFor && t !in before ==> Feeds(steps, i, t) && splitFor[t] == s.id
      invariant forall k :: 0 <= k < b && Feeds(steps, i, s.branches[k]) ==> s.branches[k] in splitFor
    {
      var g := s.branches[b];
      assert PositionOf(steps, g, |steps|) == if g in index then index[g] else 0;
      if g != "" && g !in splitFor && (if g in index then index[g] else 0) > i {
        splitFor := splitFor[g := s.id];
      }
      b := b + 1;
    }
    forall t | t in s.branches && Feeds(steps, i, t)
      ensures t in splitFor
    {
      var k :| 0 <= k < |s.branches| && s.branches[k] == t;
      assert Feeds(steps, i, s.branches[k]);
    }
    ClaimsNext(steps, before, splitFor, i);
  }

  /** goto target -> the first split that names it. */
  method SplitTargets(steps: seq<Step>) returns (splitFor: map<string, string>)
    ensures Claims(steps, splitFor, |steps|)
  {
    var index := IndexSteps(steps);
    splitFor := map[];
    var i := 0;
    while i < |steps|
      invariant 0 <= i <= |steps|
      invariant Claims(steps, splitFor, i)
    {
      if StepType(steps[i]) == SPLIT {
        splitFor := ClaimBranches(steps, index, i, splitFor);
      } else {
        ClaimsNext(steps, splitFor, splitFor, i);
      }
      i := i + 1;
    }
  }

  method Sequence(steps: seq<Step>) returns (out: seq<Step>)
    ensures out == SequenceSteps(steps)
  {
    var splitFor := SplitTargets(steps);
    out := [];
    var prevId := "";
    var i := 0;
    while i < |steps|
      invariant 0 <= i <= |steps|
      invariant prevId == PrevId(steps, i)
      invariant out == SequenceSteps(steps)[..i]
    {
      var s := steps[i];
      assert ClaimIs(steps, splitFor, |steps|, s.id);
      if s.dependsOn == [] && s.seqDependsOn == [] {
        if s.id in splitFor {
          s := s.(seqDependsOn := [splitFor[s.id]]);
        } else if prevId != "" {
          s := s.(seqDependsOn := [prevId]);
        }
      }
      out := out + [s];
      if steps[i].id != "" {
        prevId := steps[i].id;
      }
      i := i + 1;
    }
  }
}
