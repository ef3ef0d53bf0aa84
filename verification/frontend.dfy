/**
 validateV2Workflow, the front-end check of an authored workflow, and what it promises to
 the back-end check of the lowered one.
 */
module FrontEnd {
  import opened Wrappers
  import opened Steps
  import opened Lowering
  import opened Meaning
  import opened LoweringMeaning
  import opened Preservation
  import opened Graph
  import opened StepGraph
  import Idempotence

  datatype FrontError =
    | MixedForms
    | GateWithoutReject(step: string)
    | NotEarlierSibling(step: string, target: string)
    | BadMax(step: string, max: int)
    | GateOnGroup(step: string)

  // ---------- what is accepted ----------

  predicate HasV1Primitives(steps: seq<Step>) {
    exists s :: s in steps &&
      (s.dependsOn != [] || s.branches != [] || HasV1Primitives(s.subSteps) || HasV1Primitives(s.parallelSteps))
  }

  predicate IsGroup(s: Step) {
    s.subSteps != [] && s.forEach == "" && s.kind == ""
  }

  predicate HasGate(s: Step) {
    s.rejectWhen != "" || s.onReject.Some? || s.failWhen != "" || s.onFail.Some?
  }

  /** The rules for one step, given the ids of its earlier siblings. */
  predicate OwnOk(seen: seq<string>, s: Step) {
    && (s.rejectWhen != "" ==> s.onReject.Some?)
    && (s.onReject.Some? && s.onReject.value.restartFrom != "" ==>
          s.onReject.value.restartFrom in seen && s.onReject.value.max >= 1)
    && !(IsGroup(s) && HasGate(s))
  }

  predicate StepOk(seen: seq<string>, s: Step)
    decreases s, 0
  {
    OwnOk(seen, s) && ListOk(s.subSteps) && ListOk(s.parallelSteps)
  }

  predicate ListOk(steps: seq<Step>)
    decreases steps, |steps| + 1
  {
    OkUpTo(steps, |steps|)
  }

  predicate OkUpTo(steps: seq<Step>, n: nat)
    requires n <= |steps|
    decreases steps, n
  {
    n == 0 || (OkUpTo(steps, n - 1) && StepOk(Ids(steps)[..n - 1], steps[n - 1]))
  }

  /** What is wrong with step k of a list, given its earlier siblings. */
  ghost predicate FaultAt(steps: seq<Step>, k: nat, e: FrontError)
    requires k < |steps|
  {
    var s := steps[k];
    match e
    case MixedForms => false
    case GateWithoutReject(x) => x == s.id && s.rejectWhen != "" && s.onReject == None
    case NotEarlierSibling(x, t) =>
      && x == s.id && s.onReject.Some? && s.onReject.value.restartFrom == t && t != ""
      && forall j :: 0 <= j < k ==> steps[j].id != t
    case BadMax(x, m) => x == s.id && s.onReject.Some? && s.onReject.value.restartFrom != "" && s.onReject.value.max == m && m < 1
    case GateOnGroup(x) =>
      && x == s.id && s.subSteps != [] && s.forEach == "" && s.kind == ""
      && (s.rejectWhen != "" || s.onReject.Some? || s.failWhen != "" || s.onFail.Some?)
  }

  /** Something is wrong with a step of the list, or inside one. */
  ghost predicate ListFault(steps: seq<Step>, e: FrontError)
    decreases steps
  {
    exists k :: 0 <= k < |steps| &&
      (FaultAt(steps, k, e) || ListFault(steps[k].subSteps, e) || ListFault(steps[k].parallelSteps, e))
  }

  ghost predicate FaultIn(steps: seq<Step>, k: nat, e: FrontError)
    requires k < |steps|
  {
    FaultAt(steps, k, e) || ListFault(steps[k].subSteps, e) || ListFault(steps[k].parallelSteps, e)
  }

  ghost predicate FaultsUpTo(steps: seq<Step>, n: nat, errs: seq<FrontError>)
    requires n <= |steps|
  {
    forall e :: e in errs <==> exists k :: 0 <= k < n && FaultIn(steps, k, e)
  }

  lemma {:induction false} FaultsNext(steps: seq<Step>, n: nat, errs: seq<FrontError>, more: seq<FrontError>)
    requires n < |steps| && FaultsUpTo(steps, n, errs) && forall e :: e in more <==> FaultIn(steps, n, e)
    ensures FaultsUpTo(steps, n + 1, errs + more)
  {
    forall e
      ensures e in errs + more <==> exists k :: 0 <= k < n + 1 && FaultIn(steps, k, e)
    {
      if k :| 0 <= k < n + 1 && FaultIn(steps, k, e) {
        assert k == n || e in errs;
      }
    }
  }

  lemma {:induction false} AllFaults(steps: seq<Step>, errs: seq<FrontError>)
    requires FaultsUpTo(steps, |steps|, errs)
    ensures forall e :: e in errs <==> ListFault(steps, e)
  {
    forall e
      ensures e in errs <==> ListFault(steps, e)
    {
      if k :| 0 <= k < |steps| && FaultIn(steps, k, e) {
        assert ListFault(steps, e);
      }
      if ListFault(steps, e) {
        var k :| 0 <= k < |steps| &&
          (FaultAt(steps, k, e) || ListFault(steps[k].subSteps, e) || ListFault(steps[k].parallelSteps, e));
        assert FaultIn(steps, k, e);
      }
    }
  }

  /** The error of each rule, if it is broken. */
  function If(broken: bool, e: FrontError): (r: seq<FrontError>) {
    if broken then [e] else []
  }

  lemma {:induction false} InFour<T>(a: seq<T>, b: seq<T>, c: seq<T>, d: seq<T>, x: T)
    ensures x in a + b + c + d <==> x in a || x in b || x in c || x in d
    ensures |a + b + c + d| == 0 <==> |a| == 0 && |b| == 0 && |c| == 0 && |d| == 0
  {
  }

  /** Where a step restarts from and how often, if it does. */
  function RejectOf(s: Step): (r: Reject) {
    if s.onReject.Some? then s.onReject.value else Reject("", 1)
  }

  function RejectErrors(seen: seq<string>, s: Step): (r: seq<FrontError>) {
    If(RejectOf(s).restartFrom != "" && RejectOf(s).restartFrom !in seen, NotEarlierSibling(s.id, RejectOf(s).restartFrom))
    + If(RejectOf(s).restartFrom != "" && RejectOf(s).max < 1, BadMax(s.id, RejectOf(s).max))
  }

  lemma {:induction false} RejectFault(seen: seq<string>, s: Step, e: FrontError)
    ensures e in RejectErrors(seen, s) <==>
            && s.onReject.Some? && s.onReject.value.restartFrom != ""
            && (|| (s.onReject.value.restartFrom !in seen && e == NotEarlierSibling(s.id, s.onReject.value.restartFrom))
                || (s.onReject.value.max < 1 && e == BadMax(s.id, s.onReject.value.max)))
  {
    var r := RejectOf(s);
    InFour(If(r.restartFrom != "" && r.restartFrom !in seen, NotEarlierSibling(s.id, r.restartFrom)),
           If(r.restartFrom != "" && r.max < 1, BadMax(s.id, r.max)), [], [], e);
  }

  lemma {:induction false} OwnFault(steps: seq<Step>, k: nat, e: FrontError)
    requires k < |steps|
    ensures var s := steps[k];
            FaultAt(steps, k, e) <==>
            || e in If(s.rejectWhen != "" && s.onReject.None?, GateWithoutReject(s.id))
            || e in RejectErrors(Ids(steps)[..k], s)
            || e in If(IsGroup(s) && HasGate(s), GateOnGroup(s.id))
  {
    var s := steps[k];
    RejectFault(Ids(steps)[..k], s, e);
    if e.NotEarlierSibling? {
      SeenIs(steps, k, e.target);
    }
  }

  lemma {:induction false} OwnFaults(steps: seq<Step>, k: nat, errs: seq<FrontError>)
    requires k < |steps|
    requires var s := steps[k];
             errs == If(s.rejectWhen != "" && s.onReject.None?, GateWithoutReject(s.id)) + RejectErrors(Ids(steps)[..k], s)
                     + If(IsGroup(s) && HasGate(s), GateOnGroup(s.id)) + []
    ensures forall e :: e in errs <==> FaultAt(steps, k, e)
    ensures |errs| == 0 <==> OwnOk(Ids(steps)[..k], steps[k])
  {
    var s := steps[k];
    forall e
      ensures e in errs <==> FaultAt(steps, k, e)
    {
      OwnFault(steps, k, e);
      InFour(If(s.rejectWhen != "" && s.onReject.None?, GateWithoutReject(s.id)), RejectErrors(Ids(steps)[..k], s),
             If(IsGroup(s) && HasGate(s), GateOnGroup(s.id)), [], e);
    }
  }

  method CheckReject(seen: seq<string>, s: Step) returns (errs: seq<FrontError>)
    ensures errs == RejectErrors(seen, s)
  {
    errs := [];
    if s.onReject.Some? && s.onReject.value.restartFrom != "" {
      var target, max := s.onReject.value.restartFrom, s.onReject.value.max;
      if target !in seen {
        errs := errs + [NotEarlierSibling(s.id, target)];
      }
      if max < 1 {
        errs := errs + [BadMax(s.id, max)];
      }
    }
  }

  /** The checks of one step that do not recurse. */
  method CheckOwn(steps: seq<Step>, k: nat, seen: seq<string>) returns (errs: seq<FrontError>)
    requires k < |steps| && seen == Ids(steps)[..k]
    ensures |errs| == 0 <==> OwnOk(seen, steps[k])
    ensures forall e :: e in errs <==> FaultAt(steps, k, e)
  {
    var s := steps[k];
    errs := [];
    if s.rejectWhen != "" && s.onReject.None? {
      errs := errs + [GateWithoutReject(s.id)];
    }
    ghost var gate := errs;
    var more := CheckReject(seen, s);
    errs := errs + more;
    ghost var group := If(IsGroup(s) && HasGate(s), GateOnGroup(s.id));
    if |s.subSteps| > 0 && s.forEach == "" && s.kind == "" {
      if s.rejectWhen != "" || s.onReject.Some? || s.failWhen != "" || s.onFail.Some? {
        errs := errs + [GateOnGroup(s.id)];
      }
    }
    assert errs == gate + more + group + [];
    OwnFaults(steps, k, errs);
  }

  lemma {:induction false} SeenIs(steps: seq<Step>, k: nat, t: string)
    requires k < |steps|
    ensures t in Ids(steps)[..k] <==> exists j :: 0 <= j < k && steps[j].id == t
  {
    if j :| 0 <= j < k && steps[j].id == t {
      assert Ids(steps)[..k][j] == t;
    }
  }

  /** One round of the loop; the body of a for_each is visited twice, as the source does. */
  method ValidateV2Step(steps: seq<Step>, k: nat, seen: seq<string>) returns (errs: seq<FrontError>)
    requires k < |steps| && seen == Ids(steps)[..k]
    ensures |errs| == 0 <==> StepOk(seen, steps[k])
    ensures forall e :: e in errs <==> FaultIn(steps, k, e)
    decreases steps, 0
  {
    var s := steps[k];
    errs := CheckOwn(steps, k, seen);
    assert ListOk([]);
    if |s.subSteps| > 0 {
      var more := ValidateV2Steps(s.subSteps);
      errs := errs + more;
    }
    if |s.parallelSteps| > 0 {
      var more := ValidateV2Steps(s.parallelSteps);
      errs := errs + more;
    }
    if s.forEach != "" && |s.subSteps| > 0 {
      var more := ValidateV2Steps(s.subSteps);
      errs := errs + more;
    }
  }

  /** validateV2Steps. */
  method ValidateV2Steps(steps: seq<Step>) returns (errs: seq<FrontError>)
    ensures |errs| == 0 <==> ListOk(steps)
    ensures forall e :: e in errs <==> ListFault(steps, e)
    decreases steps, 1
  {
    errs := [];
    var seen: seq<string> := [];
    var i := 0;
    while i < |steps|
      invariant 0 <= i <= |steps|
      invariant seen == Ids(steps)[..i]
      invariant |errs| == 0 <==> OkUpTo(steps, i)
      invariant FaultsUpTo(steps, i, errs)
    {
      var more := ValidateV2Step(steps, i, seen);
      FaultsNext(steps, i, errs, more);
      errs := errs + more;
      seen := seen + [steps[i].id];
      i := i + 1;
    }
    AllFaults(steps, errs);
  }

  predicate Accepts(steps: seq<Step>) {
    AnyV2Steps(steps) ==> !HasV1Primitives(steps) && ListOk(steps)
  }

  /** The step has an edge or a branch of the low-level form. */
  predicate UsesV1(s: Step) {
    |s.dependsOn| > 0 || |s.branches| > 0
  }

  lemma {:induction false} MixedCons(steps: seq<Step>)
    requires steps != []
    ensures var s := steps[0];
            HasV1Primitives(steps) <==>
            UsesV1(s) || HasV1Primitives(s.subSteps) || HasV1Primitives(s.parallelSteps) || HasV1Primitives(steps[1..])
  {
    assert forall x :: x in steps <==> x == steps[0] || x in steps[1..];
  }

  /** Low-level primitives are found at every depth. */
  lemma {:induction false} MixedMeans(steps: seq<Step>)
    ensures HasV1Primitives(steps) <==> Anywhere(steps, UsesV1)
  {
    if steps != [] {
      AnywhereCons(steps, UsesV1);
      MixedMeans(steps[0].subSteps);
      MixedMeans(steps[0].parallelSteps);
      MixedMeans(steps[1..]);
      MixedCons(steps);
    }
  }

  /** The errors of a workflow: none without authored fields; else mixed forms, and what is wrong with its lists. */
  ghost predicate WorkflowFault(steps: seq<Step>, e: FrontError) {
    && Anywhere(steps, UsesV2)
    && if e.MixedForms? then Anywhere(steps, UsesV1) else ListFault(steps, e)
  }

  lemma {:induction false} NeverMixed(steps: seq<Step>)
    ensures !ListFault(steps, MixedForms)
    decreases steps
  {
    forall k | 0 <= k < |steps|
      ensures !ListFault(steps[k].subSteps, MixedForms) && !ListFault(steps[k].parallelSteps, MixedForms)
    {
      NeverMixed(steps[k].subSteps);
      NeverMixed(steps[k].parallelSteps);
    }
  }

  method ValidateV2Workflow(steps: seq<Step>) returns (errs: seq<FrontError>)
    ensures |errs| == 0 <==> Accepts(steps)
    ensures forall e :: e in errs <==> WorkflowFault(steps, e)
  {
    AnyV2Means(steps);
    MixedMeans(steps);
    errs := [];
    if AnyV2Steps(steps) {
      if HasV1Primitives(steps) {
        errs := [MixedForms];
      }
      var more := ValidateV2Steps(steps);
      NeverMixed(steps);
      errs := errs + more;
    }
  }

  // ---------- what authors leave to the pass ----------

  /** Named steps, without hand-typed nodes, conditions or goto edges of their own. */
  predicate Clean(s: Step)
    decreases s
  {
    match ShapeOf(s)
    case ATyped => false
    case AGroup => s.kind == "" && forall k :: k in s.subSteps ==> Clean(k)
    case _ => s.id != "" && s.seqDependsOn == [] && s.condition == "" && s.onFail.None? && s.onConflict.None?
  }

  predicate CleanAll(steps: seq<Step>) {
    forall s :: s in steps ==> Clean(s)
  }

  lemma {:induction false} CleanIsPlain(s: Step)
    requires Clean(s) && s.dependsOn == [] && !HasV1Primitives(s.subSteps)
    ensures Plain(s)
    decreases s
  {
    if ShapeOf(s).AGroup? {
      forall k | k in s.subSteps
        ensures Plain(k)
      {
        CleanIsPlain(k);
      }
    }
  }

  lemma {:induction false} AllPlain(steps: seq<Step>)
    requires CleanAll(steps) && !HasV1Primitives(steps)
    ensures PlainAll(steps)
  {
    forall s | s in steps
      ensures Plain(s)
    {
      CleanIsPlain(s);
    }
  }

  /** The ids of the groups of a workflow, which lowering dissolves. */
  function GroupsIn(s: Step): (r: set<string>)
    decreases s, 1
  {
    if ShapeOf(s).AGroup? then {s.id} + GroupIds(s.subSteps) else {}
  }

  function GroupIds(steps: seq<Step>): (r: set<string>)
    decreases steps, 0
  {
    if steps == [] then {} else GroupsIn(steps[0]) + GroupIds(steps[1..])
  }

  lemma {:induction false} GroupIdsHave(steps: seq<Step>, i: nat)
    requires i < |steps|
    ensures GroupsIn(steps[i]) <= GroupIds(steps)
  {
    if i > 0 {
      GroupIdsHave(steps[1..], i - 1);
    }
  }

  lemma {:induction false} TreesAt(known: set<string>, steps: seq<Step>, i: nat)
    requires i < |steps|
    ensures TreesOf(known, steps)[i] == TreeOf(known, steps[i])
  {
    if i > 0 {
      TreesAt(known, steps[1..], i - 1);
    }
  }

  lemma {:induction false} OkUpToHas(steps: seq<Step>, n: nat, i: nat)
    requires i < n <= |steps| && OkUpTo(steps, n)
    ensures StepOk(Ids(steps)[..i], steps[i])
    decreases n
  {
    if i < n - 1 {
      OkUpToHas(steps, n - 1, i);
    }
  }

  /** Every accepted loop-back names an earlier unit in scope, or a group. */
  lemma {:induction false} StepScoped(known: set<string>, s: Step, seen: seq<string>, scope: set<string>)
    requires Clean(s) && StepOk(seen, s) && (forall x :: x in seen ==> x in scope) && GroupsIn(s) <= scope
    ensures Scoped(TreeOf(known, s), scope)
    decreases s, 1
  {
    if ShapeOf(s).AGroup? {
      ListScoped(known, s.subSteps, scope);
    }
  }

  lemma {:induction false} ListScoped(known: set<string>, steps: seq<Step>, scope: set<string>)
    requires CleanAll(steps) && ListOk(steps) && GroupIds(steps) <= scope
    ensures ScopedKids(TreesOf(known, steps), scope)
    decreases steps, 0
  {
    var trees := TreesOf(known, steps);
    forall i | 0 <= i < |trees|
      ensures Scoped(trees[i], scope + Before(trees, i))
    {
      TreesAt(known, steps, i);
      GroupIdsHave(steps, i);
      SeenInScope(known, steps, i, scope);
      OkUpToHas(steps, |steps|, i);
      StepScoped(known, steps[i], Ids(steps)[..i], scope + Before(trees, i));
    }
  }

  lemma {:induction false} SeenInScope(known: set<string>, steps: seq<Step>, i: nat, scope: set<string>)
    requires GroupIds(steps) <= scope && i <= |steps|
    ensures forall x :: x in Ids(steps)[..i] ==> x in scope + Before(TreesOf(known, steps), i)
  {
    var trees := TreesOf(known, steps);
    forall x | x in Ids(steps)[..i]
      ensures x in scope + Before(trees, i)
    {
      var j :| 0 <= j < i && Ids(steps)[j] == x;
      TreesAt(known, steps, j);
      GroupIdsHave(steps, j);
    }
  }

  // ---------- the back-end check of the lowered chain ----------

  function Previous(n: nat): (r: seq<int>)
    ensures |r| == n
    ensures forall i :: 0 <= i < n ==> r[i] == i - 1
  {
    seq(n, i => i - 1)
  }

  lemma {:induction false} ChainEdges(out: seq<Step>)
    requires ChainedFrom("", out)
    ensures SingleEdges(out, Previous(|out|))
  {
    var up := Previous(|out|);
    forall i | 0 <= i < |out|
      ensures Edges(out[i]) == if up[i] < 0 then [] else [out[up[i]].id]
    {
      assert LinkedTo("", out, i);
      if i > 0 {
        assert LinkedTo("", out, i - 1);
      }
    }
  }

  /** On a chain, isAncestor holds exactly for the steps at earlier positions. */
  lemma {:induction false} ChainAncestors(out: seq<Step>, i: nat, x: string)
    requires ChainedFrom("", out) && NamedOnce(out) && i < |out|
    ensures Reaches(Deps(out), out[i].id, x) <==> x in Ids(out)[..i]
  {
    ChainEdges(out);
    SingleEdgesForest(out, Previous(|out|));
    ChainAncestry(Deps(out), Ids(out), Previous(|out|), i, x);
  }

  lemma {:induction false} ChainTarget(out: seq<Step>, i: nat, j: nat)
    requires ChainedFrom("", out) && NamedOnce(out) && j < i < |out|
    ensures TargetsAncestor(out, out[i].id, out[j].id)
  {
    ChainAncestors(out, i, out[j].id);
    assert Ids(out)[..i][j] == out[j].id;
    ChainEdges(out);
    SingleEdgesSucc(out, Previous(|out|), i);
  }

  /** A chain of distinct ids has no cycle and only edges to its own steps. */
  lemma {:induction false} ChainAccepted(out: seq<Step>)
    requires ChainedFrom("", out) && NamedOnce(out)
    ensures RefsOk(out, |out|) && Acyclic(out)
  {
    ChainEdges(out);
    SingleEdgesRefsOk(out, Previous(|out|));
    SingleEdgesAcyclic(out, Previous(|out|));
  }

  predicate NoConflicts(out: seq<Step>) {
    forall n :: n in out ==> n.onConflict.None?
  }

  lemma {:induction false} StepNoConflicts(known: set<string>, s: Step, prev: string, inherited: string)
    requires Clean(s) && LowerStep(known, s, prev, inherited).Ok?
    ensures NoConflicts(LowerStep(known, s, prev, inherited).value)
    decreases s, 1
  {
    if ShapeOf(s).AGroup? {
      ListNoConflicts(known, s.subSteps, prev, Condition(known, s, inherited));
    }
  }

  lemma {:induction false} ListNoConflicts(known: set<string>, steps: seq<Step>, prev: string, inherited: string)
    requires CleanAll(steps) && LowerList(known, steps, prev, inherited).Ok?
    ensures NoConflicts(LowerList(known, steps, prev, inherited).value)
    decreases steps, 0
  {
    if steps != [] {
      var head := LowerStep(known, steps[0], prev, inherited).value;
      StepNoConflicts(known, steps[0], prev, inherited);
      ListNoConflicts(known, steps[1..], LastId(head, prev), inherited);
    }
  }

  lemma {:induction false} OutputNoConflicts(steps: seq<Step>)
    requires AnyV2Steps(steps) && CleanAll(steps) && LowerWorkflow(steps).Ok?
    ensures NoConflicts(LowerWorkflow(steps).value)
  {
    var index := IndexList(map[], steps);
    var flat, p := LowerList(index.Keys, steps, "", "").value, StageList(index, map[], steps, "");
    ListNoConflicts(index.Keys, steps, "", "");
    var out := LowerWorkflow(steps).value;
    forall i | 0 <= i < |out|
      ensures out[i].onConflict.None?
    {
      ApplyAt(p, flat, i);
      assert flat[i] in flat;
    }
  }

  /** Workflows the front end accepts, with names of their own for units and groups. */
  ghost predicate AcceptedV2(steps: seq<Step>) {
    && AnyV2Steps(steps) && Accepts(steps) && CleanAll(steps)
    && Distinct(UnitIds(UnitsOf(steps)))
    && (forall x :: x in UnitIds(UnitsOf(steps)) ==> x !in GroupIds(steps))
  }

  lemma {:induction false} OutputChain(steps: seq<Step>)
    requires AcceptedV2(steps) && LowerWorkflow(steps).Ok?
    ensures var out := LowerWorkflow(steps).value;
            && ChainedFrom("", out) && NamedOnce(out) && NoConflicts(out)
            && Ids(out) == UnitIds(UnitsOf(steps))
            && forall i :: 0 <= i < |out| ==> LoopTarget(out[i].onFail) == UnitsOf(steps)[i].loop
  {
    var out := LowerWorkflow(steps).value;
    AllPlain(steps);
    Idempotence.OutputForm(steps);
    Idempotence.OutputNamed(steps);
    OutputNoConflicts(steps);
    LoweredTasks(steps);
    forall i | 0 <= i < |out|
      ensures out[i].id == UnitsOf(steps)[i].id && LoopTarget(out[i].onFail) == UnitsOf(steps)[i].loop
    {
      assert TasksOf(out)[i].node == NodeOf(out[i]);
    }
  }

  lemma {:induction false} UnitLoops(steps: seq<Step>)
    requires AcceptedV2(steps)
    ensures LoopsKnown(UnitsOf(steps), GroupIds(steps))
  {
    var trees := TreesFor(steps);
    ListScoped(IndexList(map[], steps).Keys, steps, GroupIds(steps));
    ScopedUpTo(trees, |trees|, [], GroupIds(steps));
  }

  lemma {:induction false} KnownIsIds(out: seq<Step>, x: string)
    requires NamedOnce(out)
    ensures x in KnownIds(out) <==> x in Ids(out)
  {
    if x in Ids(out) {
      var i :| 0 <= i < |out| && Ids(out)[i] == x;
      assert out[i] in out;
    }
  }

  /** validateStep's check: a goto names a step of the workflow. */
  predicate GotosKnown(out: seq<Step>) {
    forall s :: s in out && s.onFail.Some? && s.onFail.value.target != "" ==> s.onFail.value.target in KnownIds(out)
  }

  /** Some loop-back names a group. */
  predicate RestartsAtGroup(steps: seq<Step>) {
    exists u :: u in UnitsOf(steps) && u.loop.Some? && u.loop.value in GroupIds(steps)
  }

  lemma {:induction false} GotoAccepted(steps: seq<Step>, i: nat)
    requires AcceptedV2(steps) && LowerWorkflow(steps).Ok? && i < |LowerWorkflow(steps).value|
    ensures StepGotosOk(LowerWorkflow(steps).value, LowerWorkflow(steps).value[i])
  {
    var out, units := LowerWorkflow(steps).value, UnitsOf(steps);
    OutputChain(steps);
    UnitLoops(steps);
    assert LoopKnown(units, i, GroupIds(steps));
    assert LoopTarget(out[i].onFail) == units[i].loop;
    assert out[i] in out;
    if units[i].loop.Some? && units[i].loop.value in KnownIds(out) {
      KnownIsIds(out, units[i].loop.value);
      var k :| 0 <= k < i && units[k].id == units[i].loop.value;
      assert Ids(out)[k] == UnitIds(units)[k];
      ChainTarget(out, i, k);
    }
  }

  /** What the front end accepts, the graph check accepts after lowering. */
  lemma {:induction false} FrontImpliesBack(steps: seq<Step>)
    requires AcceptedV2(steps) && LowerWorkflow(steps).Ok?
    ensures StepGraph.Accepted(LowerWorkflow(steps).value)
  {
    var out := LowerWorkflow(steps).value;
    OutputChain(steps);
    ChainAccepted(out);
    forall i | 0 <= i < |out|
      ensures StepGotosOk(out, out[i])
    {
      GotoAccepted(steps, i);
    }
  }

  /** A loop-back names an emitted step exactly when it does not name a group. */
  lemma {:induction false} LoopEmitted(units: seq<Guarded<string>>, groups: set<string>, i: nat)
    requires LoopsKnown(units, groups) && i < |units| && units[i].loop.Some?
    requires forall x :: x in UnitIds(units) ==> x !in groups
    ensures units[i].loop.value in UnitIds(units) <==> units[i].loop.value !in groups
  {
    assert LoopKnown(units, i, groups);
    if units[i].loop.value !in groups {
      var k :| 0 <= k < i && units[k].id == units[i].loop.value;
      assert UnitIds(units)[k] == units[i].loop.value;
    }
  }

  ghost predicate GotoKnownAt(out: seq<Step>, i: nat)
    requires i < |out|
  {
    var loop := LoopTarget(out[i].onFail);
    loop.Some? ==> loop.value in Ids(out)
  }

  lemma {:induction false} GotosKnownAt(out: seq<Step>)
    requires NamedOnce(out)
    ensures GotosKnown(out) <==> forall i :: 0 <= i < |out| ==> GotoKnownAt(out, i)
  {
    forall x
      ensures x in KnownIds(out) <==> x in Ids(out)
    {
      KnownIsIds(out, x);
    }
    if forall i :: 0 <= i < |out| ==> GotoKnownAt(out, i) {
      forall s | s in out && s.onFail.Some? && s.onFail.value.target != ""
        ensures s.onFail.value.target in KnownIds(out)
      {
        var i :| 0 <= i < |out| && out[i] == s;
        assert GotoKnownAt(out, i);
      }
    }
  }

  /** ... except that a loop-back to a group has no step left to name. */
  lemma {:induction false} UnknownGotos(steps: seq<Step>)
    requires AcceptedV2(steps) && LowerWorkflow(steps).Ok?
    ensures GotosKnown(LowerWorkflow(steps).value) <==> !RestartsAtGroup(steps)
  {
    var out, units, groups := LowerWorkflow(steps).value, UnitsOf(steps), GroupIds(steps);
    OutputChain(steps);
    UnitLoops(steps);
    GotosKnownAt(out);
    forall i | 0 <= i < |out|
      ensures GotoKnownAt(out, i) <==> !(units[i].loop.Some? && units[i].loop.value in groups)
    {
      assert LoopTarget(out[i].onFail) == units[i].loop;
      if units[i].loop.Some? {
        LoopEmitted(units, groups, i);
      }
    }
    if RestartsAtGroup(steps) {
      var i :| 0 <= i < |units| && units[i].loop.Some? && units[i].loop.value in groups;
      assert !GotoKnownAt(out, i);
    }
  }

  // ---------- and to the meaning theorem ----------

  ghost predicate LoopsAvoid<I(!new)>(units: seq<Guarded<I>>, groups: set<I>) {
    forall j :: 0 <= j < |units| ==> units[j].loop.Some? ==> units[j].loop.value !in groups
  }

  lemma {:induction false} ScopeNarrows<I(!new)>(t: Tree<I>, guards: seq<string>, scope: set<I>, groups: set<I>)
    requires Scoped(t, scope + groups) && LoopsAvoid(Units(t, guards), groups)
    ensures Scoped(t, scope)
    decreases t, 1
  {
    match t
    case Unit(_, _, _, _, _, _) => assert Units(t, guards)[0].loop == t.loop;
    case Group(guard, kids) => ScopesNarrow(kids, guards + [guard], scope, groups);
  }

  lemma {:induction false} KidUnits<I(!new)>(kids: seq<Tree<I>>, n: nat, guards: seq<string>, groups: set<I>, i: nat)
    requires i < n <= |kids| && LoopsAvoid(UnitsUpTo(kids, n, guards), groups)
    ensures LoopsAvoid(Units(kids[i], guards), groups)
    decreases n
  {
    var a, b := UnitsUpTo(kids, n - 1, guards), Units(kids[n - 1], guards);
    forall j | 0 <= j < |a|
      ensures (a + b)[j] == a[j]
    {
    }
    forall j | 0 <= j < |b|
      ensures (a + b)[|a| + j] == b[j]
    {
    }
    if i < n - 1 {
      KidUnits(kids, n - 1, guards, groups, i);
    }
  }

  lemma {:induction false} ScopesNarrow<I(!new)>(kids: seq<Tree<I>>, guards: seq<string>, scope: set<I>, groups: set<I>)
    requires ScopedKids(kids, scope + groups) && LoopsAvoid(UnitsUpTo(kids, |kids|, guards), groups)
    ensures ScopedKids(kids, scope)
    decreases kids, 0
  {
    forall i | 0 <= i < |kids|
      ensures Scoped(kids[i], scope + Before(kids, i))
    {
      KidUnits(kids, |kids|, guards, groups, i);
      assert scope + groups + Before(kids, i) == scope + Before(kids, i) + groups;
      ScopeNarrows(kids[i], guards, scope + Before(kids, i), groups);
    }
  }

  /** An accepted workflow with readable guards and no loop-back to a group keeps its meaning. */
  lemma {:induction false} AcceptedIsAuthored(steps: seq<Step>)
    requires AcceptedV2(steps) && !RestartsAtGroup(steps)
    requires ReadableAll(IndexList(map[], steps).Keys, steps)
    requires forall s :: s in steps ==> LeafKids(s)
    ensures Authored(steps)
  {
    var known, groups := IndexList(map[], steps).Keys, GroupIds(steps);
    AllPlain(steps);
    ListScoped(known, steps, groups);
    forall j | 0 <= j < |UnitsOf(steps)| && UnitsOf(steps)[j].loop.Some?
      ensures UnitsOf(steps)[j].loop.value !in groups
    {
      assert UnitsOf(steps)[j] in UnitsOf(steps);
    }
    assert {} + groups == groups;
    ScopesNarrow(TreesFor(steps), [], {}, groups);
  }

  /** A group and, after it, a step that restarts from the group. */
  const RESTART := [
    EMPTY_STEP.(id := "g", subSteps := [EMPTY_STEP.(id := "a")]),
    EMPTY_STEP.(id := "b", onReject := Some(Reject("g", 1)))]

  lemma {:induction false} LowerSingle(known: set<string>, s: Step, prev: string, inherited: string)
    ensures LowerList(known, [s], prev, inherited) == LowerStep(known, s, prev, inherited)
  {
    assert [s][1..] == [];
    if LowerStep(known, s, prev, inherited).Ok? {
      var head := LowerStep(known, s, prev, inherited).value;
      assert head + [] == head;
    }
  }

  lemma {:induction false} RestartLowers(known: set<string>)
    ensures LowerList(known, RESTART, "", "").Ok?
    ensures var out := LowerList(known, RESTART, "", "").value;
            |out| == 2 && out[0].id == "a" && out[1].id == "b" && out[1].onFail == Some(Outcome("g", 1))
  {
    var g, b := RESTART[0], RESTART[1];
    assert RESTART[1..] == [b];
    assert ShapeOf(g) == AGroup && ShapeOf(b) == ALeaf && ShapeOf(g.subSteps[0]) == ALeaf;
    var c := Condition(known, g, "");
    var inner := LowerLeaf(known, g.subSteps[0], "", c);
    LowerSingle(known, g.subSteps[0], "", c);
    assert LowerStep(known, g, "", "") == Ok([inner]);
    LowerSingle(known, b, inner.id, "");
  }

  lemma {:induction false} LeafAccepted(s: Step, seen: seq<string>)
    requires s.subSteps == [] && s.parallelSteps == [] && OwnOk(seen, s)
    ensures StepOk(seen, s)
  {
    assert ListOk([]);
  }

  lemma {:induction false} RestartIsOk()
    ensures ListOk(RESTART)
  {
    var g, b := RESTART[0], RESTART[1];
    LeafAccepted(g.subSteps[0], []);
    assert Ids(g.subSteps)[..0] == [];
    assert OkUpTo(g.subSteps, 1);
    assert ListOk([]);
    assert StepOk([], g);
    assert Ids(RESTART)[..0] == [];
    assert OkUpTo(RESTART, 1);
    LeafAccepted(b, ["g"]);
    assert Ids(RESTART)[..1] == ["g"];
    assert OkUpTo(RESTART, 2);
  }

  lemma {:induction false} RestartAccepted()
    ensures AnyV2Steps(RESTART) && Accepts(RESTART)
  {
    var g, b := RESTART[0], RESTART[1];
    assert g in RESTART && IsV2Step(g);
    assert !HasV1Primitives(g.subSteps);
    assert !HasV1Primitives(RESTART);
    RestartIsOk();
  }

  /** The front end accepts it; after lowering its loop-back names no step. */
  lemma {:induction false} RestartAtGroupAccepted()
    ensures Accepts(RESTART) && LowerWorkflow(RESTART).Ok? && !GotosKnown(LowerWorkflow(RESTART).value)
  {
    RestartAccepted();
    var index := IndexList(map[], RESTART);
    RestartLowers(index.Keys);
    var flat, p := LowerList(index.Keys, RESTART, "", "").value, StageList(index, map[], RESTART, "");
    NoStepNamed(p, flat);
  }

  lemma {:induction false} NoStepNamed(p: Pending, flat: seq<Step>)
    requires |flat| == 2 && flat[0].id == "a" && flat[1].id == "b" && flat[1].onFail == Some(Outcome("g", 1))
    ensures !GotosKnown(ApplyList(p, flat))
  {
    var out := ApplyList(p, flat);
    ApplyAt(p, flat, 0);
    ApplyAt(p, flat, 1);
    TwoSteps(out);
  }

  lemma {:induction false} TwoSteps(out: seq<Step>)
    requires |out| == 2 && out[0].id == "a" && out[1].id == "b" && out[1].onFail == Some(Outcome("g", 1))
    ensures !GotosKnown(out)
  {
    assert out[1] in out && out[1].onFail.value.target == "g";
    assert forall s :: s in out ==> s == out[0] || s == out[1];
  }
}
