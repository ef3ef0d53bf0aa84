/** The step of a workflow, with the fields that lowering and the graph check touch. */
module Steps {
  import opened Wrappers

  /** on_fail and on_conflict: loop back to a step, at most maxRetries times. */
  datatype Outcome = Outcome(target: string, maxRetries: int)

  /** on_reject: the authored form of an on_fail edge. */
  datatype Reject = Reject(restartFrom: string, max: int)

  /**
   A StepConfig. A schema is the set of its property names, `branches` holds the goto of each
   split branch, and `payload` stands for the execution fields (agent, prompt, ...) that a
   leaf carries along unchanged. The last block is the authored v2 form.
   */
  datatype Step = Step(
    id: string,
    kind: string,
    name: string,
    payload: string,
    dependsOn: seq<string>,
    seqDependsOn: seq<string>,
    condition: string,
    failWhen: string,
    onFail: Option<Outcome>,
    onConflict: Option<Outcome>,
    memory: Option<seq<string>>,
    outputSchema: Option<set<string>>,
    branches: seq<string>,
    items: string,
    itemName: string,
    concurrency: int,
    maxItems: int,
    failFast: bool,
    body: Option<Step>,

    guard: string,
    rejectWhen: string,
    onReject: Option<Reject>,
    subSteps: seq<Step>,
    parallelSteps: seq<Step>,
    join: string,
    forEach: string,
    max: int,
    output: Option<set<string>>)

  const AGENT := "agent"
  const SPLIT := "split"
  const FOREACH := "foreach"
  const WORKFLOW := "workflow"
  const PARALLEL := "parallel"
  const WAIT_FOR := "wait_for"

  const ALL := "all"
  const ANY := "any"

  const EMPTY_STEP := Step("", "", "", "", [], [], "", "", None, None, None, None, [], "", "", 0, 0, false, None,
                           "", "", None, [], [], "", "", 0, None)

  function StepType(s: Step): (r: string) {
    if s.kind == "" then AGENT else s.kind
  }

  /** IsV2Step: the step uses an authored field; a lowered parallel node does not count. */
  predicate IsV2Step(s: Step) {
    s.kind != PARALLEL &&
    (s.guard != "" || s.rejectWhen != "" || s.onReject.Some? ||
     s.subSteps != [] || s.parallelSteps != [] || s.forEach != "" || s.output.Some?)
  }

  predicate AnyV2Steps(steps: seq<Step>) {
    exists s :: s in steps && (IsV2Step(s) || AnyV2Steps(s.subSteps) || AnyV2Steps(s.parallelSteps))
  }

  function Ids(steps: seq<Step>): (r: seq<string>)
    ensures |r| == |steps|
    ensures forall i :: 0 <= i < |steps| ==> r[i] == steps[i].id
  {
    if steps == [] then [] else [steps[0].id] + Ids(steps[1..])
  }

  ghost predicate Distinct<T(!new)>(s: seq<T>) {
    forall i, j :: 0 <= i < j < |s| ==> s[i] != s[j]
  }

  /** Every step of the workflow: each before the steps inside it. */
  function Preorder(steps: seq<Step>): (r: seq<Step>)
    decreases steps, 0
  {
    if steps == [] then [] else PreorderOf(steps[0]) + Preorder(steps[1..])
  }

  function PreorderOf(s: Step): (r: seq<Step>)
    decreases s, 1
  {
    [s] + (Preorder(s.subSteps) + Preorder(s.parallelSteps))
  }

  /** The step uses a field of the authored form; a lowered parallel node keeps its children in one of them. */
  predicate UsesV2(s: Step) {
    && s.kind != "parallel"
    && (|| s.guard != "" || s.rejectWhen != "" || s.onReject != None || s.output != None
        || s.forEach != "" || |s.subSteps| > 0 || |s.parallelSteps| > 0)
  }

  predicate AnyOf(all: seq<Step>, p: Step -> bool) {
    exists k :: 0 <= k < |all| && p(all[k])
  }

  /** Somewhere among the steps, however deep, there is one with the property. */
  predicate Anywhere(steps: seq<Step>, p: Step -> bool) {
    AnyOf(Preorder(steps), p)
  }

  lemma {:induction false} AnyOfJoin(a: seq<Step>, b: seq<Step>, p: Step -> bool)
    ensures AnyOf(a + b, p) <==> AnyOf(a, p) || AnyOf(b, p)
  {
    if k :| 0 <= k < |a| && p(a[k]) {
      assert p((a + b)[k]);
    }
    if k :| 0 <= k < |b| && p(b[k]) {
      assert p((a + b)[|a| + k]);
    }
  }

  /** It is the first step, or inside it, or among the rest. */
  lemma {:induction false} AnywhereCons(steps: seq<Step>, p: Step -> bool)
    requires steps != []
    ensures var s := steps[0];
            Anywhere(steps, p) <==>
            p(s) || Anywhere(s.subSteps, p) || Anywhere(s.parallelSteps, p) || Anywhere(steps[1..], p)
  {
    var s := steps[0];
    AnyOfJoin(PreorderOf(s), Preorder(steps[1..]), p);
    AnyOfJoin([s], Preorder(s.subSteps) + Preorder(s.parallelSteps), p);
    AnyOfJoin(Preorder(s.subSteps), Preorder(s.parallelSteps), p);
    assert AnyOf([s], p) <==> p([s][0]);
  }

  /** A workflow is in authored form exactly when some step, however deep, uses one of its fields. */
  lemma {:induction false} AnyV2Means(steps: seq<Step>)
    ensures AnyV2Steps(steps) <==> Anywhere(steps, UsesV2)
  {
    if steps != [] {
      var s := steps[0];
      AnywhereCons(steps, UsesV2);
      AnyV2Means(s.subSteps);
      AnyV2Means(s.parallelSteps);
      AnyV2Means(steps[1..]);
      AnyV2Cons(steps);
    }
  }

  lemma {:induction false} AnyV2Cons(steps: seq<Step>)
    requires steps != []
    ensures var s := steps[0];
            AnyV2Steps(steps) <==>
            IsV2Step(s) || AnyV2Steps(s.subSteps) || AnyV2Steps(s.parallelSteps) || AnyV2Steps(steps[1..])
  {
    assert forall x :: x in steps <==> x == steps[0] || x in steps[1..];
  }
}
