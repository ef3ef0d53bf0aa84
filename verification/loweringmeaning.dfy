/**
 The authored steps as a tree, the lowered steps as nodes and tasks, and how they relate:
 each unit is emitted once, in document order, under its guards and with its children, and
 the emitted steps form a chain.
 */
module LoweringMeaning {
  import opened Wrappers
  import opened Expr
  import opened Steps
  import opened Reading
  import opened Bodies
  import opened Lowering
  import opened Trimming
  import opened Meaning
  import opened Engine

  // ---------- the two readings of a workflow ----------

  function LoopTarget(edge: Option<Outcome>): (r: Option<string>) {
    if edge.Some? && edge.value.target != "" then Some(edge.value.target) else None
  }

  function LoopMax(edge: Option<Outcome>): (r: int) {
    if edge.Some? then edge.value.maxRetries else 0
  }

  /** A child as written. */
  function KidOf(known: set<string>, k: Step): (r: Kid) {
    Kid(k.id, StepType(k), k.payload, Reads(known, k.guard), GateOf(known, k), TargetOf(k), TimesOf(k))
  }

  function KidsOf(known: set<string>, steps: seq<Step>): (r: seq<Kid>)
    ensures |r| == |steps|
    ensures forall i :: 0 <= i < |steps| ==> r[i] == KidOf(known, steps[i])
  {
    if steps == [] then [] else [KidOf(known, steps[0])] + KidsOf(known, steps[1..])
  }

  /** What an authored step holds. */
  function BodyOf(known: set<string>, s: Step): (r: Body) {
    match ShapeOf(s)
    case AForEach =>
      Each(ParseForEach(s.forEach).0, s.itemName, if s.max > 0 then s.max else s.maxItems, s.concurrency, s.failFast,
           KidsOf(known, s.subSteps), if s.body.Some? then Some(KidOf(known, s.body.value)) else None)
    case AParallel => Fork(s.join, KidsOf(known, s.parallelSteps))
    case _ => Agent(StepType(s), s.payload)
  }

  /** An authored step as a tree. */
  function TreeOf(known: set<string>, s: Step): (t: Tree<string>)
    decreases s, 1
  {
    if ShapeOf(s).AGroup? then Group(Reads(known, s.guard), TreesOf(known, s.subSteps))
    else Unit(s.id, Written(BodyOf(known, s)), Reads(known, s.guard), GateOf(known, s), TargetOf(s), TimesOf(s))
  }

  function TreesOf(known: set<string>, steps: seq<Step>): (ts: seq<Tree<string>>)
    ensures |ts| == |steps|
    decreases steps, 0
  {
    if steps == [] then [] else [TreeOf(known, steps[0])] + TreesOf(known, steps[1..])
  }

  /** An emitted child as the engine finds it. */
  function EmittedKid(k: Step): (r: Kid) {
    Kid(k.id, StepType(k), k.payload, k.condition, k.failWhen, LoopTarget(k.onFail), LoopMax(k.onFail))
  }

  function EmittedKidsOf(steps: seq<Step>): (r: seq<Kid>)
    ensures |r| == |steps|
    ensures forall i :: 0 <= i < |steps| ==> r[i] == EmittedKid(steps[i])
  {
    if steps == [] then [] else [EmittedKid(steps[0])] + EmittedKidsOf(steps[1..])
  }

  /** What an emitted step holds, by its kind. */
  function EmittedBody(s: Step): (r: Body) {
    if s.kind == PARALLEL then Fork(s.join, EmittedKidsOf(s.subSteps))
    else if s.kind == FOREACH then
      Each(s.items, s.itemName, s.maxItems, s.concurrency, s.failFast, [],
           if s.body.Some? then Some(EmittedKid(s.body.value)) else None)
    else Agent(StepType(s), s.payload)
  }

  /** A lowered step as the engine reads it. */
  function NodeOf(s: Step): (n: Node<string>) {
    Node(s.id, Emitted(EmittedBody(s)), s.condition, s.failWhen, LoopTarget(s.onFail), LoopMax(s.onFail))
  }

  function TaskOf(s: Step): (t: Task<string>) {
    Task(NodeOf(s), s.dependsOn, s.seqDependsOn)
  }

  function TasksOf(flat: seq<Step>): (r: seq<Task<string>>)
    ensures |r| == |flat|
    ensures forall i :: 0 <= i < |flat| ==> r[i] == TaskOf(flat[i])
  {
    if flat == [] then [] else [TaskOf(flat[0])] + TasksOf(flat[1..])
  }

  // ---------- authored workflows ----------

  /** A unit as authors write it: named, without hand-written edges, types or conditions. */
  predicate PlainUnit(s: Step) {
    s.id != "" && s.dependsOn == [] && s.seqDependsOn == [] && s.condition == ""
  }

  /** No hand-typed parallel or foreach nodes, and only plain units. */
  predicate Plain(s: Step)
    decreases s
  {
    match ShapeOf(s)
    case ATyped => false
    case AGroup => forall k :: k in s.subSteps ==> Plain(k)
    case _ => PlainUnit(s)
  }

  predicate PlainAll(steps: seq<Step>) {
    forall s :: s in steps ==> Plain(s)
  }

  // ---------- the emitted nodes are the units, in order ----------

  /** The condition composed from a list of guards, outermost first. */
  function ComposeAll(guards: seq<string>): (r: string) {
    if guards == [] then "" else ComposeCond(ComposeAll(guards[..|guards| - 1]), guards[|guards| - 1])
  }

  function LoweredWork(id: string, work: Work): (r: Work) {
    Emitted(LoweredBody(id, work.body))
  }

  function NodeFor(u: Guarded<string>): (n: Node<string>) {
    Node(u.id, LoweredWork(u.id, u.work), ComposeAll(u.guards), u.gate, u.loop, u.max)
  }

  ghost predicate NodesMatch(out: seq<Step>, units: seq<Guarded<string>>) {
    |out| == |units| && forall j :: 0 <= j < |out| ==> NodeOf(out[j]) == NodeFor(units[j])
  }

  lemma {:induction false} MatchJoin(a: seq<Step>, b: seq<Step>, u: seq<Guarded<string>>, v: seq<Guarded<string>>)
    requires NodesMatch(a, u) && NodesMatch(b, v)
    ensures NodesMatch(a + b, u + v)
  {
  }

  lemma {:induction false} UnitsCons<I>(kids: seq<Tree<I>>, n: nat, guards: seq<string>)
    requires 0 < n <= |kids|
    ensures UnitsUpTo(kids, n, guards) == Units(kids[0], guards) + UnitsUpTo(kids[1..], n - 1, guards)
    decreases n
  {
    var u := Units(kids[0], guards);
    if n == 1 {
      assert UnitsUpTo(kids, 0, guards) + u == u;
      assert u + [] == u;
    } else {
      UnitsCons(kids, n - 1, guards);
      assert kids[1..][n - 2] == kids[n - 1];
      var mid, last := UnitsUpTo(kids[1..], n - 2, guards), Units(kids[n - 1], guards);
      assert u + mid + last == u + (mid + last);
    }
  }

  lemma {:induction false} ComposeSnoc(guards: seq<string>, g: string)
    ensures ComposeAll(guards + [g]) == ComposeCond(ComposeAll(guards), g)
  {
    var all := guards + [g];
    assert all[..|all| - 1] == guards;
  }

  /** What every lowered unit has in common: condition, gate, loop-back and one sequential edge. */
  predicate LoweredAs(known: set<string>, s: Step, prev: string, inherited: string, n: Step) {
    && n.id == s.id
    && n.condition == ComposeCond(inherited, Reads(known, s.guard))
    && n.failWhen == GateOf(known, s)
    && LoopTarget(n.onFail) == TargetOf(s) && LoopMax(n.onFail) == TimesOf(s)
    && n.dependsOn == [] && n.seqDependsOn == After(prev)
    && EmittedBody(n) == LoweredBody(s.id, BodyOf(known, s))
  }

  /** The pass reads guards, gates and loop-backs as the author means them. */
  lemma {:induction false} LoweredReads(known: set<string>, s: Step, inherited: string)
    ensures RewriteExpr(known, s.guard) == Reads(known, s.guard)
    ensures Condition(known, s, inherited) == ComposeCond(inherited, Reads(known, s.guard))
    ensures Gate(known, s) == GateOf(known, s)
    ensures LoopTarget(LoopBack(s)) == TargetOf(s) && LoopMax(LoopBack(s)) == TimesOf(s)
  {
    RewriteIsReading(known, StripDelimiters(s.guard));
    RewriteIsReading(known, StripDelimiters(s.rejectWhen));
  }

  /** A child is emitted under its own guard, with its own gate and its own restart. */
  lemma {:induction false} KidLowered(known: set<string>, k: Step)
    ensures EmittedKid(LowerLeaf(known, k, "", "")) == KidOf(known, k)
  {
    GuardAlone(known, k.guard);
    LoweredReads(known, k, "");
  }

  /** Every child of a parallel group is emitted once, in order, with guard, gate and restart. */
  lemma {:induction false} KidsLowered(known: set<string>, steps: seq<Step>)
    ensures EmittedKidsOf(LowerLeaves(known, steps)) == KidsOf(known, steps)
  {
    if steps != [] {
      KidLowered(known, steps[0]);
      KidsLowered(known, steps[1..]);
      var out := LowerLeaves(known, steps);
      assert out[1..] == LowerLeaves(known, steps[1..]);
      assert EmittedKidsOf(out) == [EmittedKid(out[0])] + EmittedKidsOf(out[1..]);
    }
  }

  lemma {:induction false} LeafLowered(known: set<string>, s: Step, prev: string, inherited: string)
    requires PlainUnit(s) && ShapeOf(s).ALeaf?
    ensures LoweredAs(known, s, prev, inherited, LowerLeaf(known, s, prev, inherited))
  {
    LoweredReads(known, s, inherited);
  }

  lemma {:induction false} ParallelLowered(known: set<string>, s: Step, prev: string, inherited: string)
    requires PlainUnit(s) && ShapeOf(s).AParallel?
    ensures var r := LowerParallel(known, s, prev, inherited);
            r.Ok? ==> LoweredAs(known, s, prev, inherited, r.value)
  {
    LoweredReads(known, s, inherited);
    KidsLowered(known, s.parallelSteps);
  }

  lemma {:induction false} ForeachLowered(known: set<string>, s: Step, prev: string, inherited: string)
    requires PlainUnit(s) && ShapeOf(s).AForEach?
    ensures var r := LowerForeach(known, s, prev, inherited);
            r.Ok? ==> LoweredAs(known, s, prev, inherited, r.value)
  {
    LoweredReads(known, s, inherited);
    if |s.subSteps| == 1 {
      KidLowered(known, s.subSteps[0]);
    }
  }

  lemma {:induction false} UnitLowered(known: set<string>, s: Step, prev: string, inherited: string)
    requires PlainUnit(s) && !ShapeOf(s).AGroup? && !ShapeOf(s).ATyped?
    ensures var r := LowerStep(known, s, prev, inherited);
            r.Ok? ==> |r.value| == 1 && LoweredAs(known, s, prev, inherited, r.value[0])
  {
    if ShapeOf(s).AForEach? {
      ForeachLowered(known, s, prev, inherited);
    } else if ShapeOf(s).AParallel? {
      ParallelLowered(known, s, prev, inherited);
    } else {
      LeafLowered(known, s, prev, inherited);
    }
  }

  lemma {:induction false} UnitEmitted(known: set<string>, s: Step, prev: string, inherited: string, guards: seq<string>, n: Step)
    requires inherited == ComposeAll(guards) && !ShapeOf(s).AGroup?
    requires LoweredAs(known, s, prev, inherited, n)
    ensures NodesMatch([n], Units(TreeOf(known, s), guards))
  {
    ComposeSnoc(guards, Reads(known, s.guard));
    var t := TreeOf(known, s);
    assert Units(t, guards) == [Guarded(t.id, t.work, guards + [t.guard], t.gate, t.loop, t.max)];
    assert NodeOf(n) == NodeFor(Units(t, guards)[0]);
  }

  /** Every authored unit is emitted exactly once, in document order, under its guards and with its children. */
  lemma {:induction false} StepEmitted(known: set<string>, s: Step, prev: string, inherited: string, guards: seq<string>)
    requires Plain(s) && inherited == ComposeAll(guards)
    requires LowerStep(known, s, prev, inherited).Ok?
    ensures NodesMatch(LowerStep(known, s, prev, inherited).value, Units(TreeOf(known, s), guards))
    decreases s, 1
  {
    if ShapeOf(s).AGroup? {
      var g := Reads(known, s.guard);
      LoweredReads(known, s, inherited);
      ComposeSnoc(guards, g);
      GroupLowered(known, s, prev, inherited);
      ListEmitted(known, s.subSteps, prev, Condition(known, s, inherited), guards + [g]);
      GroupUnits(known, s, guards);
    } else {
      PlainUnits(s);
      UnitLowered(known, s, prev, inherited);
      var out := LowerStep(known, s, prev, inherited).value;
      OneElement(out);
      UnitEmitted(known, s, prev, inherited, guards, out[0]);
    }
  }

  lemma {:induction false} OneElement<T>(s: seq<T>)
    requires |s| == 1
    ensures s == [s[0]]
  {
  }

  lemma {:induction false} GroupLowered(known: set<string>, s: Step, prev: string, inherited: string)
    requires ShapeOf(s).AGroup?
    ensures LowerStep(known, s, prev, inherited) == LowerList(known, s.subSteps, prev, Condition(known, s, inherited))
    ensures Plain(s) ==> PlainAll(s.subSteps)
  {
  }

  lemma {:induction false} GroupUnits(known: set<string>, s: Step, guards: seq<string>)
    requires ShapeOf(s).AGroup?
    ensures Units(TreeOf(known, s), guards) ==
            UnitsUpTo(TreesOf(known, s.subSteps), |s.subSteps|, guards + [Reads(known, s.guard)])
  {
  }

  lemma {:induction false} PlainUnits(s: Step)
    requires Plain(s) && !ShapeOf(s).AGroup?
    ensures PlainUnit(s) && !ShapeOf(s).ATyped?
  {
  }

  /** A lowered list is the lowered first step and the lowered rest, chained. */
  lemma {:induction false} LowerCons(known: set<string>, steps: seq<Step>, prev: string, inherited: string)
    requires steps != [] && LowerList(known, steps, prev, inherited).Ok?
    ensures LowerStep(known, steps[0], prev, inherited).Ok?
    ensures var head := LowerStep(known, steps[0], prev, inherited).value;
            && LowerList(known, steps[1..], LastId(head, prev), inherited).Ok?
            && LowerList(known, steps, prev, inherited).value
               == head + LowerList(known, steps[1..], LastId(head, prev), inherited).value
  {
  }

  lemma {:induction false} TreesCons(known: set<string>, steps: seq<Step>)
    requires steps != []
    ensures TreesOf(known, steps)[0] == TreeOf(known, steps[0])
    ensures TreesOf(known, steps)[1..] == TreesOf(known, steps[1..])
  {
  }

  lemma {:induction false} ListEmitted(known: set<string>, steps: seq<Step>, prev: string, inherited: string, guards: seq<string>)
    requires PlainAll(steps) && inherited == ComposeAll(guards)
    requires LowerList(known, steps, prev, inherited).Ok?
    ensures NodesMatch(LowerList(known, steps, prev, inherited).value,
                       UnitsUpTo(TreesOf(known, steps), |steps|, guards))
    decreases steps, 0
  {
    if steps != [] {
      LowerCons(known, steps, prev, inherited);
      TreesCons(known, steps);
      var head := LowerStep(known, steps[0], prev, inherited).value;
      var tail := LowerList(known, steps[1..], LastId(head, prev), inherited).value;
      StepEmitted(known, steps[0], prev, inherited, guards);
      ListEmitted(known, steps[1..], LastId(head, prev), inherited, guards);
      var trees := TreesOf(known, steps);
      UnitsCons(trees, |steps|, guards);
      MatchJoin(head, tail, Units(trees[0], guards), UnitsUpTo(trees[1..], |steps| - 1, guards));
    }
  }

  /** Several steps in the body of a for_each are emitted like a list of their own, inside its node. */
  lemma {:induction false} BodyEmitted(known: set<string>, s: Step)
    requires ShapeOf(s).AForEach? && |s.subSteps| > 1 && PlainAll(s.subSteps) && LowerBody(known, s).Ok?
    ensures var b := LowerBody(known, s).value;
            && b.Some? && b.value.kind == WORKFLOW
            && NodesMatch(b.value.subSteps, UnitsUpTo(TreesOf(known, s.subSteps), |s.subSteps|, []))
  {
    ListEmitted(known, s.subSteps, "", "", []);
  }

  // ---------- ... and chained ----------

  ghost predicate LinkedTo(prev: string, out: seq<Step>, j: nat)
    requires j < |out|
  {
    && out[j].id != "" && out[j].dependsOn == []
    && out[j].seqDependsOn == After(if j == 0 then prev else out[j - 1].id)
  }

  ghost predicate ChainedFrom(prev: string, out: seq<Step>) {
    forall j :: 0 <= j < |out| ==> LinkedTo(prev, out, j)
  }

  lemma {:induction false} ChainJoin(prev: string, a: seq<Step>, b: seq<Step>)
    requires ChainedFrom(prev, a) && ChainedFrom(LastId(a, prev), b)
    ensures ChainedFrom(prev, a + b)
  {
    var out := a + b;
    forall j | 0 <= j < |out|
      ensures LinkedTo(prev, out, j)
    {
      if j < |a| {
        assert LinkedTo(prev, a, j);
      } else {
        assert LinkedTo(LastId(a, prev), b, j - |a|);
      }
    }
  }

  lemma {:induction false} StepChained(known: set<string>, s: Step, prev: string, inherited: string)
    requires Plain(s) && LowerStep(known, s, prev, inherited).Ok?
    ensures ChainedFrom(prev, LowerStep(known, s, prev, inherited).value)
    decreases s, 1
  {
    if ShapeOf(s).AGroup? {
      ListChained(known, s.subSteps, prev, Condition(known, s, inherited));
    } else {
      UnitLowered(known, s, prev, inherited);
      assert LinkedTo(prev, LowerStep(known, s, prev, inherited).value, 0);
    }
  }

  lemma {:induction false} ListChained(known: set<string>, steps: seq<Step>, prev: string, inherited: string)
    requires PlainAll(steps) && LowerList(known, steps, prev, inherited).Ok?
    ensures ChainedFrom(prev, LowerList(known, steps, prev, inherited).value)
    decreases steps, 0
  {
    if steps != [] {
      LowerCons(known, steps, prev, inherited);
      var head := LowerStep(known, steps[0], prev, inherited).value;
      var tail := LowerList(known, steps[1..], LastId(head, prev), inherited).value;
      StepChained(known, steps[0], prev, inherited);
      ListChained(known, steps[1..], LastId(head, prev), inherited);
      ChainJoin(prev, head, tail);
    }
  }
}
