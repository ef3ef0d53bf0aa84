/**
 "Lowering its own output is a no-op." It is, unless a parallel child keeps a nested
 structure and a leaf carries a condition: then the second pass runs again and, reading
 conditions only from guards, erases that condition.
 */
module Idempotence {
  import opened Wrappers
  import opened Text
  import opened Expr
  import opened Scanner
  import opened Steps
  import opened Lowering
  import opened Trimming
  import opened LoweringMeaning
  import opened Preservation
  import opened Staging
  import SequenceProps
  import StepGraph

  // ---------- when the output still counts as v2 ----------

  /** A parallel child that still counts as v2 once it is lowered as a leaf. */
  predicate ChildStaysV2(k: Step) {
    || (k.kind != PARALLEL && (k.subSteps != [] || k.parallelSteps != [] || k.forEach != ""))
    || AnyV2Steps(k.subSteps) || AnyV2Steps(k.parallelSteps)
  }

  /** Some parallel step has such a child. */
  predicate StepStaysV2(s: Step)
    decreases s
  {
    match ShapeOf(s)
    case AGroup => exists k :: k in s.subSteps && StepStaysV2(k)
    case AParallel => exists k :: k in s.parallelSteps && ChildStaysV2(k)
    case _ => false
  }

  predicate StaysV2(steps: seq<Step>) {
    exists s :: s in steps && StepStaysV2(s)
  }

  predicate StillV2(s: Step) {
    IsV2Step(s) || AnyV2Steps(s.subSteps) || AnyV2Steps(s.parallelSteps)
  }

  lemma {:induction false} AnyIsSome(steps: seq<Step>)
    ensures AnyV2Steps(steps) <==> exists s :: s in steps && StillV2(s)
  {
  }

  lemma {:induction false} LeafStaysV2(known: set<string>, k: Step, prev: string, inherited: string)
    ensures StillV2(LowerLeaf(known, k, prev, inherited)) <==> ChildStaysV2(k)
  {
  }

  lemma {:induction false} LeavesStayV2(known: set<string>, steps: seq<Step>)
    ensures AnyV2Steps(LowerLeaves(known, steps)) <==> exists k :: k in steps && ChildStaysV2(k)
  {
    var out := LowerLeaves(known, steps);
    AnyIsSome(out);
    if steps != [] {
      LeafStaysV2(known, steps[0], "", "");
      LeavesStayV2(known, steps[1..]);
      AnyIsSome(out[1..]);
      assert out == [out[0]] + out[1..];
    }
  }

  lemma {:induction false} UnitStaysV2(known: set<string>, s: Step, prev: string, inherited: string)
    requires Plain(s) && !ShapeOf(s).AGroup?
    requires LowerStep(known, s, prev, inherited).Ok?
    ensures var out := LowerStep(known, s, prev, inherited).value;
            |out| == 1 && (StillV2(out[0]) <==> StepStaysV2(s))
  {
    match ShapeOf(s)
    case AParallel => LeavesStayV2(known, s.parallelSteps);
    case ALeaf => LeafStaysV2(known, s, prev, inherited);
    case _ =>
  }

  lemma {:induction false} EmittedStaysV2(known: set<string>, s: Step, prev: string, inherited: string)
    requires Plain(s) && LowerStep(known, s, prev, inherited).Ok?
    ensures AnyV2Steps(LowerStep(known, s, prev, inherited).value) <==> StepStaysV2(s)
    decreases s, 1
  {
    var out := LowerStep(known, s, prev, inherited).value;
    if ShapeOf(s).AGroup? {
      ListStaysV2(known, s.subSteps, prev, Condition(known, s, inherited));
    } else {
      UnitStaysV2(known, s, prev, inherited);
      AnyIsSome(out);
    }
  }

  lemma {:induction false} AnyJoin(a: seq<Step>, b: seq<Step>)
    ensures AnyV2Steps(a + b) <==> AnyV2Steps(a) || AnyV2Steps(b)
  {
    AnyIsSome(a);
    AnyIsSome(b);
    AnyIsSome(a + b);
  }

  lemma {:induction false} StaysCons(steps: seq<Step>)
    requires steps != []
    ensures StaysV2(steps) <==> StepStaysV2(steps[0]) || StaysV2(steps[1..])
  {
    assert steps == [steps[0]] + steps[1..];
  }

  lemma {:induction false} ListStaysV2(known: set<string>, steps: seq<Step>, prev: string, inherited: string)
    requires PlainAll(steps) && LowerList(known, steps, prev, inherited).Ok?
    ensures AnyV2Steps(LowerList(known, steps, prev, inherited).value) <==> StaysV2(steps)
    decreases steps, 0
  {
    if steps != [] {
      LowerCons(known, steps, prev, inherited);
      var head := LowerStep(known, steps[0], prev, inherited).value;
      var tail := LowerList(known, steps[1..], LastId(head, prev), inherited).value;
      EmittedStaysV2(known, steps[0], prev, inherited);
      ListStaysV2(known, steps[1..], LastId(head, prev), inherited);
      AnyJoin(head, tail);
      StaysCons(steps);
    }
  }

  lemma {:induction false} ApplyStepStaysV2(p: Pending, s: Step)
    requires AnyV2Steps(ApplyList(p, s.subSteps)) <==> AnyV2Steps(s.subSteps)
    requires AnyV2Steps(ApplyList(p, s.parallelSteps)) <==> AnyV2Steps(s.parallelSteps)
    ensures StillV2(ApplyStep(p, s)) <==> StillV2(s)
  {
    assert |ApplyList(p, s.subSteps)| == |s.subSteps|;
    assert |ApplyList(p, s.parallelSteps)| == |s.parallelSteps|;
    assert IsV2Step(ApplyStep(p, s)) <==> IsV2Step(s);
  }

  lemma {:induction false} ApplyStaysV2(p: Pending, steps: seq<Step>)
    ensures AnyV2Steps(ApplyList(p, steps)) <==> AnyV2Steps(steps)
    decreases steps
  {
    var out := ApplyList(p, steps);
    AnyIsSome(steps);
    AnyIsSome(out);
    if steps != [] {
      var s := steps[0];
      ApplyStaysV2(p, s.subSteps);
      ApplyStaysV2(p, s.parallelSteps);
      ApplyStaysV2(p, steps[1..]);
      AnyIsSome(steps[1..]);
      AnyIsSome(out[1..]);
      ApplyStepStaysV2(p, s);
      assert steps == [s] + steps[1..] && out == [out[0]] + out[1..];
    }
  }

  // ---------- lowering an emitted list again ----------

  /** A step as the pass emits it: typed, or a leaf without authored fields. */
  predicate EmittedForm(n: Step) {
    || ShapeOf(n).ATyped?
    || (ShapeOf(n).ALeaf? && n.guard == "" && n.rejectWhen == "" && n.onReject.None? && n.output.None? && n.max == 0)
  }

  predicate EmittedForms(out: seq<Step>) {
    forall n :: n in out ==> EmittedForm(n)
  }

  lemma {:induction false} StepForms(known: set<string>, s: Step, prev: string, inherited: string)
    requires Plain(s) && LowerStep(known, s, prev, inherited).Ok?
    ensures EmittedForms(LowerStep(known, s, prev, inherited).value)
    decreases s, 1
  {
    if ShapeOf(s).AGroup? {
      ListForms(known, s.subSteps, prev, Condition(known, s, inherited));
    }
  }

  lemma {:induction false} ListForms(known: set<string>, steps: seq<Step>, prev: string, inherited: string)
    requires PlainAll(steps) && LowerList(known, steps, prev, inherited).Ok?
    ensures EmittedForms(LowerList(known, steps, prev, inherited).value)
    decreases steps, 0
  {
    if steps != [] {
      var head := LowerStep(known, steps[0], prev, inherited).value;
      StepForms(known, steps[0], prev, inherited);
      ListForms(known, steps[1..], LastId(head, prev), inherited);
    }
  }

  /** What a second pass makes of an emitted step: a leaf loses its condition. */
  function Relowered(n: Step): (r: Step) {
    if ShapeOf(n).ATyped? then n else n.(condition := "")
  }

  function RelowerAll(out: seq<Step>): (r: seq<Step>)
    ensures |r| == |out|
    ensures forall i :: 0 <= i < |out| ==> r[i] == Relowered(out[i])
  {
    if out == [] then [] else [Relowered(out[0])] + RelowerAll(out[1..])
  }

  lemma {:induction false} RewriteEmpty(known: set<string>)
    ensures RewriteExpr(known, "") == "" && Refs(known, Pieces(StripDelimiters(""))) == []
  {
    assert StripDelimiters("") == "";
  }

  lemma {:induction false} RelowerOne(known: set<string>, n: Step, prev: string)
    requires EmittedForm(n) && n.dependsOn == [] && n.seqDependsOn == After(prev)
    ensures LowerStep(known, n, prev, "") == Ok([Relowered(n)])
  {
    RewriteEmpty(known);
  }

  lemma {:induction false} RelowerList(known: set<string>, out: seq<Step>, prev: string)
    requires EmittedForms(out) && ChainedFrom(prev, out)
    ensures LowerList(known, out, prev, "") == Ok(RelowerAll(out))
    decreases |out|
  {
    if out != [] {
      assert LinkedTo(prev, out, 0);
      RelowerOne(known, out[0], prev);
      var rest := out[1..];
      forall j | 0 <= j < |rest|
        ensures LinkedTo(out[0].id, rest, j)
      {
        assert LinkedTo(prev, out, j + 1);
      }
      RelowerList(known, rest, out[0].id);
    }
  }

  lemma {:induction false} ApplyForm(p: Pending, n: Step)
    requires EmittedForm(n)
    ensures EmittedForm(ApplyStep(p, n))
  {
    assert |ApplyList(p, n.subSteps)| == |n.subSteps|;
    assert |ApplyList(p, n.parallelSteps)| == |n.parallelSteps|;
    assert ShapeOf(ApplyStep(p, n)) == ShapeOf(n);
  }

  /** The output of the pass is a chain of emitted steps. */
  lemma {:induction false} OutputForm(steps: seq<Step>)
    requires AnyV2Steps(steps) && PlainAll(steps) && LowerWorkflow(steps).Ok?
    ensures var out := LowerWorkflow(steps).value; EmittedForms(out) && ChainedFrom("", out)
  {
    var index := IndexList(map[], steps);
    var flat, p := LowerList(index.Keys, steps, "", "").value, StageList(index, map[], steps, "");
    var out := LowerWorkflow(steps).value;
    ListForms(index.Keys, steps, "", "");
    ListChained(index.Keys, steps, "", "");
    forall i | 0 <= i < |out|
      ensures EmittedForm(out[i]) && LinkedTo("", out, i)
    {
      ApplyAt(p, flat, i);
      assert LinkedTo("", flat, i);
      assert flat[i] in flat;
      ApplyForm(p, flat[i]);
      if i > 0 {
        ApplyAt(p, flat, i - 1);
      }
    }
  }

  // ---------- the step index of the first and the second pass ----------

  /** The steps that buildStepIndex visits below a root. */
  ghost predicate Indexed(m: Step, root: Step)
    decreases root, 1
  {
    m == root || IndexedAny(m, root.subSteps) || IndexedAny(m, root.parallelSteps)
  }

  ghost predicate IndexedAny(m: Step, roots: seq<Step>)
    decreases roots, 0
  {
    exists r :: r in roots && Indexed(m, r)
  }

  /** The index entry comes from a visited step. */
  ghost predicate Entry(index: map<string, Step>, id: string, roots: seq<Step>)
    requires id in index
  {
    exists s :: IndexedAny(s, roots) && s.id == id && index[id] == s
  }

  lemma {:induction false} IndexedBelow(m: Step, r: Step, roots: seq<Step>)
    requires r in roots && Indexed(m, r)
    ensures IndexedAny(m, roots)
  {
  }

  lemma {:induction false} IndexFinds(index: map<string, Step>, roots: seq<Step>, id: string)
    requires id in IndexList(index, roots)
    ensures (id in index && IndexList(index, roots)[id] == index[id]) || Entry(IndexList(index, roots), id, roots)
    decreases roots
  {
    if roots != [] {
      var s := roots[0];
      var m1 := if s.id != "" then index[s.id := s] else index;
      var m2 := IndexList(m1, s.subSteps);
      var m3 := IndexList(m2, s.parallelSteps);
      var all := IndexList(m3, roots[1..]);
      IndexFinds(m3, roots[1..], id);
      if Entry(all, id, roots[1..]) {
        var r :| r in roots[1..] && Indexed(all[id], r);
        IndexedBelow(all[id], r, roots);
      } else {
        IndexFinds(m2, s.parallelSteps, id);
        if Entry(m3, id, s.parallelSteps) {
          IndexedBelow(all[id], s, roots);
        } else {
          IndexFinds(m1, s.subSteps, id);
          if Entry(m2, id, s.subSteps) || (s.id != "" && id == s.id) {
            IndexedBelow(all[id], s, roots);
          }
        }
      }
    }
  }

  lemma {:induction false} IndexKeeps(index: map<string, Step>, roots: seq<Step>)
    ensures index.Keys <= IndexList(index, roots).Keys
    decreases roots
  {
    if roots != [] {
      var s := roots[0];
      var m1 := if s.id != "" then index[s.id := s] else index;
      IndexKeeps(m1, s.subSteps);
      IndexKeeps(IndexList(m1, s.subSteps), s.parallelSteps);
      IndexKeeps(IndexStep(index, s), roots[1..]);
    }
  }

  lemma {:induction false} IndexHas(index: map<string, Step>, roots: seq<Step>, m: Step)
    requires IndexedAny(m, roots) && m.id != ""
    ensures m.id in IndexList(index, roots)
    decreases roots
  {
    var s := roots[0];
    var m1 := if s.id != "" then index[s.id := s] else index;
    var m2 := IndexList(m1, s.subSteps);
    var m3 := IndexList(m2, s.parallelSteps);
    var r :| r in roots && Indexed(m, r);
    if r in roots[1..] {
      IndexedBelow(m, r, roots[1..]);
      IndexHas(m3, roots[1..], m);
    } else {
      IndexKeeps(m3, roots[1..]);
      if IndexedAny(m, s.parallelSteps) {
        IndexHas(m2, s.parallelSteps, m);
      } else {
        IndexKeeps(m2, s.parallelSteps);
        if IndexedAny(m, s.subSteps) {
          IndexHas(m1, s.subSteps, m);
        } else {
          IndexKeeps(m1, s.subSteps);
        }
      }
    }
  }

  /** A visited step of the authored workflow has m's id and declares at least m's fields. */
  ghost predicate DeclaredIn(m: Step, roots: seq<Step>) {
    exists s :: IndexedAny(s, roots) && s.id == m.id && SchemaOf(m) <= SchemaOf(s)
  }

  lemma {:induction false} DeclaredBy(m: Step, s: Step, r: Step, roots: seq<Step>)
    requires r in roots && Indexed(s, r) && s.id == m.id && SchemaOf(m) <= SchemaOf(s)
    ensures DeclaredIn(m, roots)
  {
    IndexedBelow(s, r, roots);
  }

  lemma {:induction false} DeclaredWider(m: Step, some: seq<Step>, r: Step, roots: seq<Step>)
    requires DeclaredIn(m, some) && r in roots
    requires some == r.subSteps || some == r.parallelSteps
    ensures DeclaredIn(m, roots)
  {
    var s :| IndexedAny(s, some) && s.id == m.id && SchemaOf(m) <= SchemaOf(s);
    DeclaredBy(m, s, r, roots);
  }

  lemma {:induction false} LeafDeclares(known: set<string>, k: Step, prev: string, inherited: string, m: Step, roots: seq<Step>)
    requires Indexed(m, LowerLeaf(known, k, prev, inherited)) && k in roots
    ensures DeclaredIn(m, roots)
  {
    var n := LowerLeaf(known, k, prev, inherited);
    if m == n {
      DeclaredBy(m, k, k, roots);
    } else {
      assert n.subSteps == k.subSteps && n.parallelSteps == k.parallelSteps;
      DeclaredBy(m, m, k, roots);
    }
  }

  lemma {:induction false} LeavesDeclare(known: set<string>, ks: seq<Step>, m: Step, roots: seq<Step>)
    requires IndexedAny(m, LowerLeaves(known, ks)) && forall k :: k in ks ==> k in roots
    ensures DeclaredIn(m, roots)
  {
    var out := LowerLeaves(known, ks);
    var n :| n in out && Indexed(m, n);
    if n == out[0] {
      LeafDeclares(known, ks[0], "", "", m, roots);
    } else {
      IndexedBelow(m, n, out[1..]);
      LeavesDeclare(known, ks[1..], m, roots);
    }
  }

  lemma {:induction false} ParallelDeclares(known: set<string>, s: Step, prev: string, inherited: string, m: Step, roots: seq<Step>)
    requires s in roots && LowerParallel(known, s, prev, inherited).Ok?
    requires Indexed(m, LowerParallel(known, s, prev, inherited).value)
    ensures DeclaredIn(m, roots)
  {
    var n := LowerParallel(known, s, prev, inherited).value;
    if m == n {
      DeclaredBy(m, s, s, roots);
    } else {
      assert n.subSteps == LowerLeaves(known, s.parallelSteps) && n.parallelSteps == [];
      LeavesDeclare(known, s.parallelSteps, m, s.parallelSteps);
      DeclaredWider(m, s.parallelSteps, s, roots);
    }
  }

  lemma {:induction false} ForeachDeclares(known: set<string>, s: Step, prev: string, inherited: string, m: Step, roots: seq<Step>)
    requires s in roots && LowerForeach(known, s, prev, inherited).Ok?
    requires Indexed(m, LowerForeach(known, s, prev, inherited).value)
    ensures DeclaredIn(m, roots)
  {
    var n := LowerForeach(known, s, prev, inherited).value;
    assert n.subSteps == [] && n.parallelSteps == [];
    DeclaredBy(m, s, s, roots);
  }

  lemma {:induction false} UnitDeclares(known: set<string>, s: Step, prev: string, inherited: string, m: Step, roots: seq<Step>)
    requires !ShapeOf(s).ATyped? && !ShapeOf(s).AGroup? && LowerStep(known, s, prev, inherited).Ok?
    requires s in roots && IndexedAny(m, LowerStep(known, s, prev, inherited).value)
    ensures DeclaredIn(m, roots)
  {
    var out := LowerStep(known, s, prev, inherited).value;
    assert Indexed(m, out[0]);
    match ShapeOf(s)
    case ALeaf => LeafDeclares(known, s, prev, inherited, m, roots);
    case AParallel => ParallelDeclares(known, s, prev, inherited, m, roots);
    case AForEach => ForeachDeclares(known, s, prev, inherited, m, roots);
  }

  lemma {:induction false} ListDeclares(
    known: set<string>, steps: seq<Step>, prev: string, inherited: string, m: Step, roots: seq<Step>)
    requires PlainAll(steps) && LowerList(known, steps, prev, inherited).Ok?
    requires IndexedAny(m, LowerList(known, steps, prev, inherited).value) && forall s :: s in steps ==> s in roots
    ensures DeclaredIn(m, roots)
    decreases steps
  {
    var s := steps[0];
    var head := LowerStep(known, s, prev, inherited).value;
    var tail := LowerList(known, steps[1..], LastId(head, prev), inherited).value;
    var n :| n in head + tail && Indexed(m, n);
    if n in tail {
      IndexedBelow(m, n, tail);
      ListDeclares(known, steps[1..], LastId(head, prev), inherited, m, roots);
    } else {
      IndexedBelow(m, n, head);
      assert Plain(s);
      if ShapeOf(s).AGroup? {
        ListDeclares(known, s.subSteps, prev, Condition(known, s, inherited), m, s.subSteps);
        DeclaredWider(m, s.subSteps, s, roots);
      } else {
        UnitDeclares(known, s, prev, inherited, m, roots);
      }
    }
  }

  ghost predicate SameIn(m': Step, roots: seq<Step>) {
    exists m :: IndexedAny(m, roots) && m.id == m'.id && SchemaOf(m) == SchemaOf(m')
  }

  lemma {:induction false} ApplyDeclares(p: Pending, roots: seq<Step>, m': Step)
    requires IndexedAny(m', ApplyList(p, roots))
    ensures SameIn(m', roots)
    decreases roots, 0
  {
    var out := ApplyList(p, roots);
    var n :| n in out && Indexed(m', n);
    if n == out[0] {
      ApplyOneDeclares(p, roots[0], m', roots);
    } else {
      IndexedBelow(m', n, out[1..]);
      ApplyDeclares(p, roots[1..], m');
      var m :| IndexedAny(m, roots[1..]) && m.id == m'.id && SchemaOf(m) == SchemaOf(m');
      var r :| r in roots[1..] && Indexed(m, r);
      IndexedBelow(m, r, roots);
    }
  }

  lemma {:induction false} ApplyOneDeclares(p: Pending, s: Step, m': Step, roots: seq<Step>)
    requires s in roots && Indexed(m', ApplyStep(p, s))
    ensures SameIn(m', roots)
    decreases s, 1
  {
    var n := ApplyStep(p, s);
    if m' == n {
      assert m'.id == s.id && SchemaOf(m') == SchemaOf(s);
      IndexedBelow(s, s, roots);
    } else {
      assert n.subSteps == ApplyList(p, s.subSteps) && n.parallelSteps == ApplyList(p, s.parallelSteps);
      var below := if IndexedAny(m', n.subSteps) then s.subSteps else s.parallelSteps;
      ApplyDeclares(p, below, m');
      var m :| IndexedAny(m, below) && m.id == m'.id && SchemaOf(m) == SchemaOf(m');
      IndexedBelow(m, s, roots);
    }
  }

  // ---------- the second pass demands nothing new ----------

  lemma {:induction false} LeafFromLeaf(known: set<string>, s: Step, prev: string, inherited: string, n: Step)
    requires Plain(s) && !ShapeOf(s).AGroup? && LowerStep(known, s, prev, inherited).Ok?
    requires n in LowerStep(known, s, prev, inherited).value
    ensures ShapeOf(n).ALeaf? <==> ShapeOf(s).ALeaf?
    ensures n.failWhen == Gate(known, s) && n.condition == Condition(known, s, inherited)
  {
    UnitLowered(known, s, prev, inherited);
    match ShapeOf(s)
    case AParallel => assert n.kind == PARALLEL && n.forEach == "";
    case AForEach => assert n.kind == FOREACH && n.forEach == "";
    case _ =>
  }

  /** The accessors in the gates of emitted leaves were demanded by the first pass. */
  lemma {:induction false} GatesDemanded(
    index: map<string, Step>, steps: seq<Step>, prev: string, inherited: string, n: Step, x: (string, string))
    requires PlainAll(steps) && LowerList(index.Keys, steps, prev, inherited).Ok?
    requires n in LowerList(index.Keys, steps, prev, inherited).value && ShapeOf(n).ALeaf?
    requires x in AccessDemand(index, n.failWhen)
    ensures x in ListDemand(index, steps, inherited)
    decreases steps
  {
    var s := steps[0];
    var head := LowerStep(index.Keys, s, prev, inherited).value;
    var tail := LowerList(index.Keys, steps[1..], LastId(head, prev), inherited).value;
    if n in tail {
      GatesDemanded(index, steps[1..], LastId(head, prev), inherited, n, x);
      var t :| t in steps[1..] && x in StepDemand(index, t, inherited);
      assert t in steps;
    } else {
      assert n in head && Plain(s);
      if ShapeOf(s).AGroup? {
        GatesDemanded(index, s.subSteps, prev, Condition(index.Keys, s, inherited), n, x);
      } else {
        LeafFromLeaf(index.Keys, s, prev, inherited, n);
      }
      assert x in StepDemand(index, s, inherited);
    }
  }

  lemma {:induction false} RelowerDemand(index: map<string, Step>, n: Step, x: (string, string))
    requires EmittedForm(n) && x in StepDemand(index, n, "")
    ensures ShapeOf(n).ALeaf? && x in AccessDemand(index, n.failWhen)
  {
    RewriteEmpty(index.Keys);
    assert Condition(index.Keys, n, "") == "";
  }

  /** Visited steps that share an id declare the same fields. */
  ghost predicate SchemasAgree(steps: seq<Step>) {
    forall a, b :: IndexedAny(a, steps) && IndexedAny(b, steps) && a.id == b.id && a.id != "" ==>
      SchemaOf(a) == SchemaOf(b)
  }

  lemma {:induction false} IndexNames(index: map<string, Step>, roots: seq<Step>)
    requires "" !in index
    ensures "" !in IndexList(index, roots)
    decreases roots
  {
    if roots != [] {
      var s := roots[0];
      var m1 := if s.id != "" then index[s.id := s] else index;
      IndexNames(m1, s.subSteps);
      IndexNames(IndexList(m1, s.subSteps), s.parallelSteps);
      IndexNames(IndexStep(index, s), roots[1..]);
    }
  }

  /** What the second index says a step declares, the first one said too. */
  lemma {:induction false} IndexesAgree(steps: seq<Step>, id: string)
    requires AnyV2Steps(steps) && PlainAll(steps) && SchemasAgree(steps) && LowerWorkflow(steps).Ok?
    requires id in IndexList(map[], LowerWorkflow(steps).value)
    ensures id in IndexList(map[], steps)
    ensures SchemaOf(IndexList(map[], LowerWorkflow(steps).value)[id]) <= SchemaOf(IndexList(map[], steps)[id])
  {
    var out, index := LowerWorkflow(steps).value, IndexList(map[], steps);
    IndexNames(map[], out);
    IndexFinds(map[], out, id);
    var m' := IndexList(map[], out)[id];
    var flat := LowerList(index.Keys, steps, "", "").value;
    ApplyDeclares(StageList(index, map[], steps, ""), flat, m');
    var m :| IndexedAny(m, flat) && m.id == m'.id && SchemaOf(m) == SchemaOf(m');
    ListDeclares(index.Keys, steps, "", "", m, steps);
    var s :| IndexedAny(s, steps) && s.id == m.id && SchemaOf(m) <= SchemaOf(s);
    IndexHas(map[], steps, s);
    IndexFinds(map[], steps, id);
  }

  lemma {:induction false} SecondDemand(steps: seq<Step>, x: (string, string))
    requires AnyV2Steps(steps) && PlainAll(steps) && SchemasAgree(steps) && LowerWorkflow(steps).Ok?
    requires var out := LowerWorkflow(steps).value; x in ListDemand(IndexList(map[], out), out, "")
    ensures x in ListDemand(IndexList(map[], steps), steps, "")
  {
    var out, index := LowerWorkflow(steps).value, IndexList(map[], steps);
    var index2 := IndexList(map[], out);
    OutputForm(steps);
    var n' :| n' in out && x in StepDemand(index2, n', "");
    RelowerDemand(index2, n', x);
    IndexesAgree(steps, x.0);
    assert x in AccessDemand(index, n'.failWhen);
    var i :| 0 <= i < |out| && out[i] == n';
    var flat := LowerList(index.Keys, steps, "", "").value;
    ApplyAt(StageList(index, map[], steps, ""), flat, i);
    assert flat[i] in flat && flat[i].failWhen == n'.failWhen;
    ShapeKept(StageList(index, map[], steps, ""), flat[i]);
    GatesDemanded(index, steps, "", "", flat[i], x);
  }

  lemma {:induction false} ShapeKept(p: Pending, n: Step)
    ensures ShapeOf(ApplyStep(p, n)) == ShapeOf(n)
  {
    assert |ApplyList(p, n.subSteps)| == |n.subSteps|;
    assert |ApplyList(p, n.parallelSteps)| == |n.parallelSteps|;
  }

  /** Every staged field is already written. */
  ghost predicate Settled(p: Pending, n: Step) {
    forall f :: f in Staged(p, n.id) ==> f in Writes(n)
  }

  lemma {:induction false} InsertNothing(fields: seq<string>, more: seq<string>)
    requires forall f :: f in more ==> f in fields
    ensures InsertAll(fields, more) == fields
    decreases |more|
  {
    if more != [] {
      assert more[0] in more;
      InsertNothing(fields, more[1..]);
    }
  }

  lemma {:induction false} WriteNothing(p: Pending, n: Step)
    requires Settled(p, n)
    ensures WithWrites(n, Staged(p, n.id)) == n
  {
    InsertNothing(Writes(n), Staged(p, n.id));
    if Staged(p, n.id) != [] {
      assert Staged(p, n.id)[0] in Writes(n);
    }
  }

  lemma {:induction false} ApplyNothing(p: Pending, s: Step)
    requires forall n :: Inside(n, s) ==> Settled(p, n)
    ensures ApplyStep(p, s) == s
    decreases s, 1
  {
    assert Inside(s, s);
    WriteNothing(p, s);
    forall n | InsideAny(n, s.subSteps) || InsideAny(n, s.parallelSteps)
      ensures Settled(p, n)
    {
      assert Inside(n, s);
    }
    ApplyNothings(p, s.subSteps);
    ApplyNothings(p, s.parallelSteps);
    if s.body.Some? {
      forall n | Inside(n, s.body.value)
        ensures Settled(p, n)
      {
        assert Inside(n, s);
      }
      ApplyNothing(p, s.body.value);
    }
  }

  lemma {:induction false} ApplyNothings(p: Pending, steps: seq<Step>)
    requires forall n :: InsideAny(n, steps) ==> Settled(p, n)
    ensures ApplyList(p, steps) == steps
    decreases steps, 0
  {
    if steps != [] {
      forall n | Inside(n, steps[0])
        ensures Settled(p, n)
      {
        assert InsideAny(n, steps);
      }
      ApplyNothing(p, steps[0]);
      forall n | InsideAny(n, steps[1..])
        ensures Settled(p, n)
      {
        var r :| r in steps[1..] && Inside(n, r);
        assert r in steps;
        assert InsideAny(n, steps);
      }
      ApplyNothings(p, steps[1..]);
    }
  }

  // ---------- exactly when a second pass changes nothing ----------

  /** The second pass's table has nothing for any step of the output. */
  lemma {:induction false} SecondSettled(steps: seq<Step>, n: Step)
    requires AnyV2Steps(steps) && PlainAll(steps) && SchemasAgree(steps) && LowerWorkflow(steps).Ok?
    requires InsideAny(n, LowerWorkflow(steps).value)
    ensures var out := LowerWorkflow(steps).value; Settled(StageList(IndexList(map[], out), map[], out, ""), n)
  {
    var out, index := LowerWorkflow(steps).value, IndexList(map[], steps);
    var p2, d2 := StageList(IndexList(map[], out), map[], out, ""), ListDemand(IndexList(map[], out), out, "");
    ListGrows(IndexList(map[], out), map[], out, "");
    WritesAreWired(steps, n);
    var n0 :| Wired(n0, n, ListDemand(index, steps, ""));
    forall f | f in Staged(p2, n.id)
      ensures f in Writes(n)
    {
      assert GrowsAt(map[], p2, d2, n.id);
      SecondDemand(steps, (n.id, f));
    }
  }

  /** Some leaf has a guard, of its own or around it. */
  predicate GuardedLeaf(s: Step, guarded: bool)
    decreases s
  {
    var g := guarded || StripDelimiters(s.guard) != "";
    match ShapeOf(s)
    case AGroup => exists k :: k in s.subSteps && GuardedLeaf(k, g)
    case ALeaf => g
    case _ => false
  }

  predicate AnyGuardedLeaf(steps: seq<Step>, guarded: bool) {
    exists s :: s in steps && GuardedLeaf(s, guarded)
  }

  predicate Conditioned(n: Step) {
    ShapeOf(n).ALeaf? && n.condition != ""
  }

  predicate AnyConditioned(out: seq<Step>) {
    exists n :: n in out && Conditioned(n)
  }

  lemma {:induction false} EmptyRewrite(known: set<string>, guard: string)
    ensures Tidy(RewriteExpr(known, guard))
    ensures RewriteExpr(known, guard) == "" <==> StripDelimiters(guard) == ""
  {
    var s := StripDelimiters(guard);
    RewriteTrimmed(known, s);
    PiecesCut(s);
    RewriteCut(known, Pieces(s));
    RewritePositions(known, Pieces(s));
    if s != "" {
      PrintEnds(RewritePieces(known, Pieces(s)));
    }
  }

  lemma {:induction false} GuardedCondition(known: set<string>, s: Step, inherited: string)
    requires Tidy(inherited)
    ensures Tidy(Condition(known, s, inherited))
    ensures Condition(known, s, inherited) != "" <==> inherited != "" || StripDelimiters(s.guard) != ""
  {
    EmptyRewrite(known, s.guard);
    TrimSpaceFixed(inherited);
    TrimSpaceFixed(RewriteExpr(known, s.guard));
  }

  lemma {:induction false} StepConditioned(known: set<string>, s: Step, prev: string, inherited: string)
    requires Plain(s) && LowerStep(known, s, prev, inherited).Ok? && Tidy(inherited)
    ensures AnyConditioned(LowerStep(known, s, prev, inherited).value) <==> GuardedLeaf(s, inherited != "")
    decreases s, 1
  {
    GuardedCondition(known, s, inherited);
    var out := LowerStep(known, s, prev, inherited).value;
    if ShapeOf(s).AGroup? {
      ListConditioned(known, s.subSteps, prev, Condition(known, s, inherited));
    } else {
      UnitLowered(known, s, prev, inherited);
      LeafFromLeaf(known, s, prev, inherited, out[0]);
    }
  }

  lemma {:induction false} ListConditioned(known: set<string>, steps: seq<Step>, prev: string, inherited: string)
    requires PlainAll(steps) && LowerList(known, steps, prev, inherited).Ok? && Tidy(inherited)
    ensures AnyConditioned(LowerList(known, steps, prev, inherited).value) <==> AnyGuardedLeaf(steps, inherited != "")
    decreases steps, 0
  {
    if steps != [] {
      var head := LowerStep(known, steps[0], prev, inherited).value;
      var tail := LowerList(known, steps[1..], LastId(head, prev), inherited).value;
      StepConditioned(known, steps[0], prev, inherited);
      ListConditioned(known, steps[1..], LastId(head, prev), inherited);
      assert AnyConditioned(head + tail) <==> AnyConditioned(head) || AnyConditioned(tail);
      assert AnyGuardedLeaf(steps, inherited != "") <==>
        GuardedLeaf(steps[0], inherited != "") || AnyGuardedLeaf(steps[1..], inherited != "") by {
        assert steps == [steps[0]] + steps[1..];
      }
    }
  }

  lemma {:induction false} ApplyConditioned(p: Pending, flat: seq<Step>)
    ensures AnyConditioned(ApplyList(p, flat)) <==> AnyConditioned(flat)
  {
    var out := ApplyList(p, flat);
    forall i | 0 <= i < |flat|
      ensures Conditioned(out[i]) <==> Conditioned(flat[i])
    {
      ApplyAt(p, flat, i);
      ShapeKept(p, flat[i]);
    }
    if AnyConditioned(flat) {
      var i :| 0 <= i < |flat| && Conditioned(flat[i]);
      assert Conditioned(out[i]);
    }
  }

  /** The output is v2, or conditioned, exactly when the authored tree says so. */
  lemma {:induction false} OutputConditioned(steps: seq<Step>)
    requires AnyV2Steps(steps) && PlainAll(steps) && LowerWorkflow(steps).Ok?
    ensures AnyConditioned(LowerWorkflow(steps).value) <==> AnyGuardedLeaf(steps, false)
    ensures AnyV2Steps(LowerWorkflow(steps).value) <==> StaysV2(steps)
  {
    var index := IndexList(map[], steps);
    var flat, p := LowerList(index.Keys, steps, "", "").value, StageList(index, map[], steps, "");
    ListConditioned(index.Keys, steps, "", "");
    ApplyConditioned(p, flat);
    ListStaysV2(index.Keys, steps, "", "");
    ApplyStaysV2(p, flat);
  }

  lemma {:induction false} RelowerNothing(out: seq<Step>)
    requires EmittedForms(out) && !AnyConditioned(out)
    ensures RelowerAll(out) == out
  {
    forall i | 0 <= i < |out|
      ensures Relowered(out[i]) == out[i]
    {
      assert out[i] in out && !Conditioned(out[i]);
    }
  }

  /** A chain with distinct ids is in the order sequenceSteps would give it. */
  lemma {:induction false} ChainIsSequenced(out: seq<Step>)
    requires ChainedFrom("", out) && StepGraph.NamedOnce(out)
    ensures Sequence.SequenceSteps(out) == out
  {
    forall i | 0 <= i < |out|
      ensures Sequence.SequenceAt(out, i) == out[i]
    {
      assert LinkedTo("", out, i);
      if i == 0 {
        SequenceProps.PositionNamed(out, 0, |out|);
      } else {
        assert LinkedTo("", out, i - 1);
      }
    }
  }

  lemma {:induction false} OutputNamed(steps: seq<Step>)
    requires AnyV2Steps(steps) && PlainAll(steps) && LowerWorkflow(steps).Ok?
    requires Distinct(UnitIds(UnitsOf(steps)))
    ensures StepGraph.NamedOnce(LowerWorkflow(steps).value)
  {
    var out, units := LowerWorkflow(steps).value, UnitsOf(steps);
    LoweredTasks(steps);
    OutputForm(steps);
    forall i | 0 <= i < |out|
      ensures out[i].id == UnitIds(units)[i] && out[i].id != ""
    {
      assert TasksOf(out)[i].node == NodeFor(units[i]);
      assert LinkedTo("", out, i);
    }
  }

  lemma {:induction false} SecondPassQuiet(steps: seq<Step>)
    requires AnyV2Steps(steps) && PlainAll(steps) && SchemasAgree(steps) && LowerWorkflow(steps).Ok?
    ensures var out := LowerWorkflow(steps).value;
            ApplyList(StageList(IndexList(map[], out), map[], out, ""), out) == out
  {
    var out := LowerWorkflow(steps).value;
    var p2 := StageList(IndexList(map[], out), map[], out, "");
    forall n | InsideAny(n, out)
      ensures Settled(p2, n)
    {
      SecondSettled(steps, n);
    }
    ApplyNothings(p2, out);
  }

  lemma {:induction false} RelowerErases(p: Pending, out: seq<Step>)
    requires AnyConditioned(out)
    ensures ApplyList(p, RelowerAll(out)) != out
  {
    var i :| 0 <= i < |out| && Conditioned(out[i]);
    ApplyAt(p, RelowerAll(out), i);
    assert ApplyStep(p, Relowered(out[i])).condition == "";
  }

  lemma {:induction false} SecondPassErases(steps: seq<Step>)
    requires AnyV2Steps(steps) && PlainAll(steps) && LowerWorkflow(steps).Ok?
    requires var out := LowerWorkflow(steps).value; AnyV2Steps(out) && AnyConditioned(out)
    ensures LowerWorkflow(LowerWorkflow(steps).value) != LowerWorkflow(steps)
  {
    var out := LowerWorkflow(steps).value;
    var index := IndexList(map[], out);
    OutputForm(steps);
    RelowerList(index.Keys, out, "");
    RelowerErases(StageList(index, map[], out, ""), out);
  }

  /**
   Lowering the output of a v2 workflow gives it back exactly when no parallel child stays
   v2 or no leaf is guarded.
   */
  lemma {:induction false} LoweringTwice(steps: seq<Step>)
    requires AnyV2Steps(steps) && PlainAll(steps) && LowerWorkflow(steps).Ok?
    requires Distinct(UnitIds(UnitsOf(steps))) && SchemasAgree(steps)
    ensures LowerWorkflow(LowerWorkflow(steps).value) == LowerWorkflow(steps)
       <==> !(StaysV2(steps) && AnyGuardedLeaf(steps, false))
  {
    var out := LowerWorkflow(steps).value;
    OutputConditioned(steps);
    if !StaysV2(steps) {
      OutputForm(steps);
      OutputNamed(steps);
      ChainIsSequenced(out);
    } else if AnyGuardedLeaf(steps, false) {
      SecondPassErases(steps);
    } else {
      OutputForm(steps);
      RelowerList(IndexList(map[], out).Keys, out, "");
      RelowerNothing(out);
      SecondPassQuiet(steps);
    }
  }

  lemma {:induction false} SequencedStaysV1(steps: seq<Step>)
    ensures AnyV2Steps(Sequence.SequenceSteps(steps)) <==> AnyV2Steps(steps)
  {
    var out := Sequence.SequenceSteps(steps);
    AnyIsSome(steps);
    AnyIsSome(out);
    forall i | 0 <= i < |steps|
      ensures StillV2(out[i]) <==> StillV2(steps[i])
    {
      assert out[i] == Sequence.SequenceAt(steps, i);
    }
    if i :| 0 <= i < |steps| && StillV2(steps[i]) {
      assert out[i] in out;
    }
  }

  /** A workflow without authored nesting is only put in sequence, and that once. */
  lemma {:induction false} SequencingTwice(steps: seq<Step>)
    requires !AnyV2Steps(steps)
    ensures LowerWorkflow(LowerWorkflow(steps).value) == LowerWorkflow(steps)
  {
    SequencedStaysV1(steps);
    SequenceProps.SequenceIdempotent(steps);
  }

  /** A guarded leaf, and a parallel step whose child is a group. */
  const NESTED := [
    EMPTY_STEP.(id := "a", guard := "x"),
    EMPTY_STEP.(id := "p", parallelSteps := [EMPTY_STEP.(id := "k", subSteps := [EMPTY_STEP.(id := "c")])])]

  lemma {:induction false} NestedLowers(known: set<string>)
    ensures LowerList(known, NESTED, "", "").Ok?
  {
    var a, p := NESTED[0], NESTED[1];
    assert NESTED[1..] == [p];
    assert ShapeOf(a) == ALeaf && ShapeOf(p) == AParallel;
    var head := LowerStep(known, a, "", "").value;
    assert LowerStep(known, p, LastId(head, ""), "").Ok?;
    assert LowerList(known, [p], LastId(head, ""), "").Ok?;
  }

  /** Lowering is not idempotent on it: the guard of the leaf is gone after the second pass. */
  lemma {:induction false} NestedLosesItsGuard()
    ensures LowerWorkflow(NESTED).Ok? && LowerWorkflow(LowerWorkflow(NESTED).value) != LowerWorkflow(NESTED)
  {
    var a, p := NESTED[0], NESTED[1];
    var k := p.parallelSteps[0];
    assert ShapeOf(a) == ALeaf && ShapeOf(p) == AParallel;
    assert IsV2Step(a) && a in NESTED && p in NESTED;
    assert AnyV2Steps(NESTED);
    assert k.subSteps != [] && ChildStaysV2(k);
    assert StepStaysV2(p);
    TrimSpaceFixed("x");
    assert StripDelimiters("x") == "x";
    assert GuardedLeaf(a, false);
    NestedLowers(IndexList(map[], NESTED).Keys);
    assert PlainAll(NESTED);
    OutputConditioned(NESTED);
    SecondPassErases(NESTED);
  }
}
