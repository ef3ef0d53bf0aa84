/**
 What lowering leaves of an authored workflow, said field by field on its output: every authored
 unit, at every depth, has its own node, which carries its gate, its loop-back, its guard under
 those around it, what it declares and runs, and the fields the workflow needs it to write. The
 statement names none of the helpers of the pass.
 */
module Emission {
  import opened Wrappers
  import opened Expr
  import opened Steps
  import opened Reading
  import opened Lowering
  import opened Staging
  import opened Wiring
  import Layout

  // ---------- one unit and its node ----------

  /** reject_when, its references read from memory, is the node's fail_when; without one, fail_when stays. */
  predicate GateKept(known: set<string>, s: Step, n: Step) {
    if s.rejectWhen != "" then n.failWhen == Reads(known, s.rejectWhen) else n.failWhen == s.failWhen
  }

  /** on_reject is the node's on_fail; without one, on_fail stays. */
  predicate LoopKept(s: Step, n: Step) {
    if s.onReject.Some? then n.onFail == Some(Outcome(s.onReject.value.restartFrom, s.onReject.value.max))
    else n.onFail == s.onFail
  }

  predicate UnitKept(known: set<string>, s: Step, inherited: string, n: Step) {
    && n.id == s.id && n.name == s.name
    && n.condition == ComposeCond(inherited, Reads(known, s.guard))
    && GateKept(known, s, n)
    && LoopKept(s, n)
    && n.guard == "" && n.rejectWhen == "" && n.onReject == None && n.output == None
  }

  /** It writes the fields it wrote, in their order, then exactly the needed ones that were missing, each once. */
  ghost predicate WritesKept(before: seq<string>, n: Step, needed: Demand) {
    && before <= Writes(n)
    && (forall f :: f in Writes(n) <==> f in before || (n.id, f) in needed)
    && (Distinct(before) ==> Distinct(Writes(n)))
  }

  /** A leaf also declares exactly its author's fields, and runs what it ran. */
  ghost predicate LeafKept(known: set<string>, needed: Demand, s: Step, prev: string, inherited: string, n: Step) {
    && UnitKept(known, s, inherited, n)
    && WritesKept(Writes(s), n, needed)
    && n.outputSchema == (if s.outputSchema.Some? then s.outputSchema else s.output)
    && n.kind == s.kind && n.payload == s.payload && n.branches == s.branches && n.join == s.join && n.forEach == s.forEach
    && n.dependsOn == s.dependsOn && n.onConflict == s.onConflict
    && n.seqDependsOn == (if prev != "" && s.dependsOn == [] then [prev] else s.seqDependsOn)
    && n.items == s.items && n.itemName == s.itemName && n.concurrency == s.concurrency && n.failFast == s.failFast
    && n.maxItems == (if s.maxItems == 0 && s.max > 0 then s.max else s.maxItems)
  }

  ghost predicate LeavesKept(known: set<string>, needed: Demand, steps: seq<Step>, ns: seq<Step>) {
    |ns| == |steps| && forall i :: 0 <= i < |steps| ==> LeafKept(known, needed, steps[i], "", "", ns[i])
  }

  /** The node waits for the one before it, if there is one, and for nothing else. */
  predicate WaitsOnly(prev: string, n: Step) {
    n.dependsOn == [] && n.seqDependsOn == if prev == "" then [] else [prev]
  }

  ghost predicate ForkKept(known: set<string>, needed: Demand, s: Step, prev: string, inherited: string, n: Step) {
    && UnitKept(known, s, inherited, n)
    && WritesKept([], n, needed)
    && n.kind == "parallel" && n.join == s.join && WaitsOnly(prev, n)
    && LeavesKept(known, needed, s.parallelSteps, n.subSteps)
  }

  /** A node lowering has nothing to do to. */
  ghost predicate NodeKept(needed: Demand, s: Step, prev: string, n: Step) {
    && WritesKept(Writes(s), n, needed)
    && n.id == s.id && n.kind == s.kind && n.name == s.name && n.payload == s.payload && n.dependsOn == s.dependsOn
    && n.seqDependsOn == (if prev != "" && s.dependsOn == [] && s.seqDependsOn == [] then [prev] else s.seqDependsOn)
    && n.condition == s.condition && n.failWhen == s.failWhen && n.onFail == s.onFail && n.onConflict == s.onConflict
    && n.outputSchema == s.outputSchema && n.branches == s.branches && n.items == s.items && n.itemName == s.itemName
    && n.concurrency == s.concurrency && n.maxItems == s.maxItems && n.failFast == s.failFast && n.join == s.join
  }

  // ---------- a whole workflow ----------

  /** How many nodes a step has in the list it is emitted into: a group has those of its steps. */
  function Width(s: Step): (r: nat)
    decreases s, 1
  {
    if s.forEach == "" && s.kind != "parallel" && s.kind != "foreach" && s.parallelSteps == [] && s.subSteps != [] then
      WidthAll(s.subSteps)
    else 1
  }

  function WidthAll(steps: seq<Step>): (r: nat)
    decreases steps, 0
  {
    if steps == [] then 0 else Width(steps[0]) + WidthAll(steps[1..])
  }

  ghost predicate EachKept(known: set<string>, needed: Demand, s: Step, prev: string, inherited: string, n: Step)
    decreases s, 1
  {
    && UnitKept(known, s, inherited, n)
    && WritesKept([], n, needed)
    && ItemsRead(s.forEach, n.items)
    && n.kind == "foreach" && n.itemName == s.itemName && n.concurrency == s.concurrency && n.failFast == s.failFast
    && n.maxItems == (if s.max > 0 then s.max else s.maxItems) && WaitsOnly(prev, n)
    && (if |s.subSteps| == 0 then n.body == None
        else if |s.subSteps| == 1 then n.body.Some? && LeafKept(known, needed, s.subSteps[0], "", "", n.body.value)
        else
          && n.body.Some? && n.body.value.id == s.id + "-body" && n.body.value.kind == "workflow"
          && ListKept(known, needed, s.subSteps, "", "", n.body.value.subSteps))
  }

  ghost predicate StepKept(known: set<string>, needed: Demand, s: Step, prev: string, inherited: string, ns: seq<Step>)
    decreases s, 2
  {
    if s.forEach != "" then |ns| == 1 && EachKept(known, needed, s, prev, inherited, ns[0])
    else if s.kind == "parallel" || s.kind == "foreach" then |ns| == 1 && NodeKept(needed, s, prev, ns[0])
    else if s.parallelSteps != [] then |ns| == 1 && ForkKept(known, needed, s, prev, inherited, ns[0])
    else if s.subSteps != [] then ListKept(known, needed, s.subSteps, prev, ComposeCond(inherited, Reads(known, s.guard)), ns)
    else |ns| == 1 && LeafKept(known, needed, s, prev, inherited, ns[0])
  }

  /** The nodes of a list of steps are those of each, in order, each step following the last node before it. */
  ghost predicate ListKept(known: set<string>, needed: Demand, steps: seq<Step>, prev: string, inherited: string, ns: seq<Step>)
    decreases steps, 0
  {
    if steps == [] then ns == []
    else
      var w := Width(steps[0]);
      && 0 < w <= |ns| && StepKept(known, needed, steps[0], prev, inherited, ns[..w])
      && ListKept(known, needed, steps[1..], ns[w - 1].id, inherited, ns[w..])
  }

  // ---------- the emitted steps ----------

  lemma {:induction false} ReadsGuard(known: set<string>, text: string)
    ensures RewriteExpr(known, text) == Reads(known, text)
  {
    RewriteIsReading(known, StripDelimiters(text));
  }

  lemma {:induction false} LeafIsKept(known: set<string>, s: Step, prev: string, inherited: string)
    ensures LeafKept(known, {}, s, prev, inherited, LowerLeaf(known, s, prev, inherited))
  {
    ReadsGuard(known, s.guard);
    ReadsGuard(known, s.rejectWhen);
  }

  lemma {:induction false} LeavesAreKept(known: set<string>, steps: seq<Step>)
    ensures LeavesKept(known, {}, steps, LowerLeaves(known, steps))
  {
    if steps != [] {
      LeafIsKept(known, steps[0], "", "");
      LeavesAreKept(known, steps[1..]);
      var ns := LowerLeaves(known, steps);
      assert ns[1..] == LowerLeaves(known, steps[1..]);
      forall i | 0 <= i < |steps|
        ensures LeafKept(known, {}, steps[i], "", "", ns[i])
      {
        if i > 0 {
          assert LeafKept(known, {}, steps[1..][i - 1], "", "", ns[1..][i - 1]);
        }
      }
    }
  }

  lemma {:induction false} ForkIsKept(known: set<string>, s: Step, prev: string, inherited: string)
    requires LowerParallel(known, s, prev, inherited).Ok?
    ensures ForkKept(known, {}, s, prev, inherited, LowerParallel(known, s, prev, inherited).value)
  {
    ReadsGuard(known, s.guard);
    ReadsGuard(known, s.rejectWhen);
    LeavesAreKept(known, s.parallelSteps);
  }

  lemma {:induction false} EachIsKept(known: set<string>, s: Step, prev: string, inherited: string)
    requires LowerForeach(known, s, prev, inherited).Ok?
    ensures EachKept(known, {}, s, prev, inherited, LowerForeach(known, s, prev, inherited).value)
    decreases s, 1
  {
    ReadsGuard(known, s.guard);
    ReadsGuard(known, s.rejectWhen);
    ItemsAreRead(s.forEach);
    if |s.subSteps| == 1 {
      LeafIsKept(known, s.subSteps[0], "", "");
    } else if |s.subSteps| > 1 {
      ListIsKept(known, s.subSteps, "", "");
    }
  }

  lemma {:induction false} StepIsKept(known: set<string>, s: Step, prev: string, inherited: string)
    requires LowerStep(known, s, prev, inherited).Ok?
    ensures var ns := LowerStep(known, s, prev, inherited).value;
            |ns| == Width(s) && StepKept(known, {}, s, prev, inherited, ns)
    decreases s, 2
  {
    if s.forEach != "" {
      EachIsKept(known, s, prev, inherited);
    } else if s.kind == "parallel" || s.kind == "foreach" {
    } else if s.parallelSteps != [] {
      ForkIsKept(known, s, prev, inherited);
    } else if s.subSteps != [] {
      ReadsGuard(known, s.guard);
      ListIsKept(known, s.subSteps, prev, ComposeCond(inherited, Reads(known, s.guard)));
    } else {
      LeafIsKept(known, s, prev, inherited);
    }
  }

  lemma {:induction false} HeadAndTail<T>(head: seq<T>, tail: seq<T>)
    ensures (head + tail)[..|head|] == head && (head + tail)[|head|..] == tail
    ensures head != [] ==> (head + tail)[|head| - 1] == head[|head| - 1]
  {
  }

  lemma {:induction false} ConsKept(known: set<string>, steps: seq<Step>, prev: string, inherited: string, head: seq<Step>, tail: seq<Step>)
    requires steps != [] && head != [] && |head| == Width(steps[0]) && StepKept(known, {}, steps[0], prev, inherited, head)
    requires ListKept(known, {}, steps[1..], head[|head| - 1].id, inherited, tail)
    ensures ListKept(known, {}, steps, prev, inherited, head + tail)
  {
    HeadAndTail(head, tail);
  }

  lemma {:induction false} ListIsKept(known: set<string>, steps: seq<Step>, prev: string, inherited: string)
    requires LowerList(known, steps, prev, inherited).Ok?
    ensures var ns := LowerList(known, steps, prev, inherited).value;
            |ns| == WidthAll(steps) && ListKept(known, {}, steps, prev, inherited, ns)
    decreases steps, 0
  {
    if steps != [] {
      var head := LowerStep(known, steps[0], prev, inherited).value;
      var tail := LowerList(known, steps[1..], LastId(head, prev), inherited).value;
      StepIsKept(known, steps[0], prev, inherited);
      ListIsKept(known, steps[1..], LastId(head, prev), inherited);
      WidthPositive(steps[0]);
      ConsKept(known, steps, prev, inherited, head, tail);
    }
  }

  lemma {:induction false} WidthPositive(s: Step)
    ensures Width(s) > 0
    decreases s
  {
    if s.subSteps != [] {
      WidthPositive(s.subSteps[0]);
    }
  }

  // ---------- ... once the staged fields are applied ----------

  lemma {:induction false} AppliedAt(p: Pending, ns: seq<Step>, i: nat)
    requires i < |ns|
    ensures ApplyList(p, ns)[i] == ApplyStep(p, ns[i])
  {
    if i > 0 {
      AppliedAt(p, ns[1..], i - 1);
    }
  }

  lemma {:induction false} AppliedSplit(p: Pending, ns: seq<Step>, w: nat)
    requires w <= |ns|
    ensures ApplyList(p, ns)[..w] == ApplyList(p, ns[..w]) && ApplyList(p, ns)[w..] == ApplyList(p, ns[w..])
  {
    var out, a, b := ApplyList(p, ns), ApplyList(p, ns[..w]), ApplyList(p, ns[w..]);
    forall i | 0 <= i < w
      ensures out[..w][i] == a[i]
    {
      AppliedAt(p, ns, i);
      AppliedAt(p, ns[..w], i);
    }
    forall i | 0 <= i < |b|
      ensures out[w..][i] == b[i]
    {
      AppliedAt(p, ns, w + i);
      AppliedAt(p, ns[w..], i);
    }
  }

  lemma {:induction false} WritesStay(p: Pending, needed: Demand, before: seq<string>, n: Step)
    requires WritesKept(before, n, {}) && Grows(map[], p, needed)
    ensures WritesKept(before, ApplyStep(p, n), needed)
  {
    WithWritesWired(p, n, needed);
    assert Writes(ApplyStep(p, n)) == Writes(WithWrites(n, Staged(p, n.id)));
  }

  lemma {:induction false} UnitStays(p: Pending, known: set<string>, s: Step, inherited: string, n: Step)
    requires UnitKept(known, s, inherited, n)
    ensures UnitKept(known, s, inherited, ApplyStep(p, n))
  {
  }

  lemma {:induction false} LeafStays(p: Pending, needed: Demand, known: set<string>, s: Step, prev: string, inherited: string, n: Step)
    requires LeafKept(known, {}, s, prev, inherited, n) && Grows(map[], p, needed)
    ensures LeafKept(known, needed, s, prev, inherited, ApplyStep(p, n))
  {
    UnitStays(p, known, s, inherited, n);
    WritesStay(p, needed, Writes(s), n);
  }

  lemma {:induction false} NodeStays(p: Pending, needed: Demand, s: Step, prev: string, n: Step)
    requires NodeKept({}, s, prev, n) && Grows(map[], p, needed)
    ensures NodeKept(needed, s, prev, ApplyStep(p, n))
  {
    WritesStay(p, needed, Writes(s), n);
  }

  lemma {:induction false} LeavesStay(p: Pending, needed: Demand, known: set<string>, steps: seq<Step>, ns: seq<Step>)
    requires LeavesKept(known, {}, steps, ns) && Grows(map[], p, needed)
    ensures LeavesKept(known, needed, steps, ApplyList(p, ns))
  {
    var out := ApplyList(p, ns);
    forall i | 0 <= i < |steps|
      ensures LeafKept(known, needed, steps[i], "", "", out[i])
    {
      AppliedAt(p, ns, i);
      LeafStays(p, needed, known, steps[i], "", "", ns[i]);
    }
  }

  lemma {:induction false} ForkStays(p: Pending, needed: Demand, known: set<string>, s: Step, prev: string, inherited: string, n: Step)
    requires ForkKept(known, {}, s, prev, inherited, n) && Grows(map[], p, needed)
    ensures ForkKept(known, needed, s, prev, inherited, ApplyStep(p, n))
  {
    UnitStays(p, known, s, inherited, n);
    WritesStay(p, needed, [], n);
    LeavesStay(p, needed, known, s.parallelSteps, n.subSteps);
  }

  /** The fields of a for_each node that lowering decides, but for its body. */
  lemma {:induction false} AppliedBody(p: Pending, n: Step)
    ensures var m := ApplyStep(p, n);
            && m.kind == n.kind && m.items == n.items && m.itemName == n.itemName && m.concurrency == n.concurrency && m.failFast == n.failFast
            && m.maxItems == n.maxItems && m.dependsOn == n.dependsOn && m.seqDependsOn == n.seqDependsOn && (n.body == None ==> m.body == None)
            && (n.body.Some? ==> m.body == Some(ApplyStep(p, n.body.value)))
  {
  }

  lemma {:induction false} AppliedWrapper(p: Pending, n: Step)
    ensures var m := ApplyStep(p, n); m.id == n.id && m.kind == n.kind && m.subSteps == ApplyList(p, n.subSteps)
  {
  }

  lemma {:induction false} EachStays(p: Pending, needed: Demand, known: set<string>, s: Step, prev: string, inherited: string, n: Step)
    requires EachKept(known, {}, s, prev, inherited, n) && Grows(map[], p, needed)
    ensures EachKept(known, needed, s, prev, inherited, ApplyStep(p, n))
    decreases s, 1
  {
    UnitStays(p, known, s, inherited, n);
    WritesStay(p, needed, [], n);
    AppliedBody(p, n);
    if |s.subSteps| == 1 {
      LeafStays(p, needed, known, s.subSteps[0], "", "", n.body.value);
    } else if |s.subSteps| > 1 {
      AppliedWrapper(p, n.body.value);
      ListStays(p, needed, known, s.subSteps, "", "", n.body.value.subSteps);
    }
  }

  lemma {:induction false} StepStays(p: Pending, needed: Demand, known: set<string>, s: Step, prev: string, inherited: string, ns: seq<Step>)
    requires StepKept(known, {}, s, prev, inherited, ns) && Grows(map[], p, needed)
    ensures StepKept(known, needed, s, prev, inherited, ApplyList(p, ns))
    decreases s, 2
  {
    if s.forEach != "" {
      EachStays(p, needed, known, s, prev, inherited, ns[0]);
    } else if s.kind == "parallel" || s.kind == "foreach" {
      NodeStays(p, needed, s, prev, ns[0]);
    } else if s.parallelSteps != [] {
      ForkStays(p, needed, known, s, prev, inherited, ns[0]);
    } else if s.subSteps != [] {
      ListStays(p, needed, known, s.subSteps, prev, ComposeCond(inherited, Reads(known, s.guard)), ns);
    } else {
      LeafStays(p, needed, known, s, prev, inherited, ns[0]);
    }
  }

  lemma {:induction false} ListStays(p: Pending, needed: Demand, known: set<string>, steps: seq<Step>, prev: string, inherited: string, ns: seq<Step>)
    requires ListKept(known, {}, steps, prev, inherited, ns) && Grows(map[], p, needed)
    ensures ListKept(known, needed, steps, prev, inherited, ApplyList(p, ns))
    decreases steps, 0
  {
    if steps != [] {
      var w := Width(steps[0]);
      AppliedSplit(p, ns, w);
      StepStays(p, needed, known, steps[0], prev, inherited, ns[..w]);
      ListStays(p, needed, known, steps[1..], ns[w - 1].id, inherited, ns[w..]);
      AppliedAt(p, ns, w - 1);
    }
  }

  // ---------- the whole workflow ----------

  ghost predicate IsNeeded(index: map<string, Step>, steps: seq<Step>, needed: Demand) {
    forall x, f :: (x, f) in needed <==> ListNeeds(index, steps, "", x, f)
  }

  /**
   Of a workflow in authored form every unit, at every depth, is emitted as its author wrote it,
   with references to its steps, and to nothing else, read from memory, and writing the fields
   that the workflow needs of it, and no others.
   */
  lemma {:induction false} EmittedAsWritten(steps: seq<Step>, index: map<string, Step>, needed: Demand)
    requires AnyV2Steps(steps) && LowerWorkflow(steps).Ok? && StepIndex(index, steps) && IsNeeded(index, steps, needed)
    ensures ListKept(index.Keys, needed, steps, "", "", LowerWorkflow(steps).value)
  {
    var known, p := index.Keys, StageList(index, map[], steps, "");
    IndexIs(steps, index);
    NeededIs(index, steps, needed);
    ListIsKept(known, steps, "", "");
    ListGrows(index, map[], steps, "");
    ListStays(p, needed, known, steps, "", "", LowerList(known, steps, "", "").value);
  }

  lemma {:induction false} NeededIs(index: map<string, Step>, steps: seq<Step>, needed: Demand)
    ensures IsNeeded(index, steps, needed) <==> needed == ListDemand(index, steps, "")
  {
    var d := ListDemand(index, steps, "");
    forall x, f
      ensures (x, f) in d <==> ListNeeds(index, steps, "", x, f)
    {
      ListDemanded(index, steps, "", x, f);
    }
    if IsNeeded(index, steps, needed) {
      forall y
        ensures y in needed <==> y in d
      {
        assert y == (y.0, y.1);
      }
    }
  }

  // ---------- when lowering fails ----------

  /** Every parallel and every for_each that lowering turns into a node has an id. */
  predicate HasIds(s: Step)
    decreases s, 1
  {
    if s.forEach != "" then s.id != "" && (|s.subSteps| > 1 ==> AllHaveIds(s.subSteps))
    else if s.kind == "parallel" || s.kind == "foreach" then true
    else if s.parallelSteps != [] then s.id != ""
    else AllHaveIds(s.subSteps)
  }

  predicate AllHaveIds(steps: seq<Step>)
    decreases steps, 0
  {
    if steps == [] then true else HasIds(steps[0]) && AllHaveIds(steps[1..])
  }

  lemma {:induction false} EachLowers(known: set<string>, s: Step, prev: string, inherited: string)
    requires s.forEach != ""
    ensures LowerStep(known, s, prev, inherited).Ok? <==>
            s.id != "" && (|s.subSteps| > 1 ==> LowerList(known, s.subSteps, "", "").Ok?)
  {
    assert LowerStep(known, s, prev, inherited) == One(LowerForeach(known, s, prev, inherited));
    assert LowerForeach(known, s, prev, inherited).Ok? <==> s.id != "" && LowerBody(known, s).Ok?;
  }

  lemma {:induction false} ForkLowers(known: set<string>, s: Step, prev: string, inherited: string)
    requires s.forEach == "" && s.kind != "parallel" && s.kind != "foreach" && s.parallelSteps != []
    ensures LowerStep(known, s, prev, inherited).Ok? <==> s.id != ""
  {
    assert LowerStep(known, s, prev, inherited) == One(LowerParallel(known, s, prev, inherited));
  }

  lemma {:induction false} GroupLowers(known: set<string>, s: Step, prev: string, inherited: string)
    requires s.forEach == "" && s.kind != "parallel" && s.kind != "foreach" && s.parallelSteps == [] && s.subSteps != []
    ensures LowerStep(known, s, prev, inherited) == LowerList(known, s.subSteps, prev, Condition(known, s, inherited))
  {
  }

  lemma {:induction false} StepLowers(known: set<string>, s: Step, prev: string, inherited: string)
    ensures LowerStep(known, s, prev, inherited).Ok? <==> HasIds(s)
    decreases s, 1
  {
    if s.forEach != "" {
      EachLowers(known, s, prev, inherited);
      ListLowers(known, s.subSteps, "", "");
    } else if s.kind == "parallel" || s.kind == "foreach" {
    } else if s.parallelSteps != [] {
      ForkLowers(known, s, prev, inherited);
    } else if s.subSteps != [] {
      GroupLowers(known, s, prev, inherited);
      ListLowers(known, s.subSteps, prev, Condition(known, s, inherited));
    }
  }

  lemma {:induction false} ListLowers(known: set<string>, steps: seq<Step>, prev: string, inherited: string)
    ensures LowerList(known, steps, prev, inherited).Ok? <==> AllHaveIds(steps)
    decreases steps, 0
  {
    if steps != [] {
      StepLowers(known, steps[0], prev, inherited);
      var head := LowerStep(known, steps[0], prev, inherited);
      if head.Ok? {
        ListLowers(known, steps[1..], LastId(head.value, prev), inherited);
      }
    }
  }

  /** Lowering fails exactly when a parallel or a for_each of an authored workflow has no id. */
  lemma {:induction false} LowersExactly(steps: seq<Step>)
    ensures LowerWorkflow(steps).Ok? <==> (AnyV2Steps(steps) ==> AllHaveIds(steps))
  {
    ListLowers(IndexList(map[], steps).Keys, steps, "", "");
  }

  // ---------- what the gate says ----------

  /**
   In every world the gate of an emitted node has the verdict of the reject_when its author
   wrote, with step references read from memory.
   */
  lemma {:induction false} GateSays<W>(known: set<string>, s: Step, n: Step, ls: seq<Layout.Lexeme>, atom: (Formula, W) -> Verdict, w: W)
    requires GateKept(known, s, n) && s.rejectWhen != ""
    requires Layout.WellLaid(known, ls) && StripDelimiters(s.rejectWhen) == Layout.Laid(ls) && Layout.Unquoted(known, ls)
    ensures EvalCond(n.failWhen, atom, w) == Layout.AuthorSays(known, ls, atom, w)
  {
    Layout.ReadsVerdict(known, s.rejectWhen, ls, atom, w);
  }
}
