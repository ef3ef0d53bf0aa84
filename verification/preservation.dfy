/**
 The theorem of the compiler: for authored workflows, every schedule of the lowered steps in
 the engine ends as the authored tree says.
 */
module Preservation {
  import opened Text
  import opened Expr
  import opened Steps
  import opened Reading
  import opened Bodies
  import opened Lowering
  import opened Trimming
  import opened Meaning
  import opened Engine
  import opened LoweringMeaning

  // ---------- readable guards ----------

  /** The guard, with step references rewritten, is empty or an expression. */
  predicate Readable(known: set<string>, guard: string) {
    Reads(known, guard) == "" || ParseExpr(Reads(known, guard)).Some?
  }

  lemma {:induction false} ReadableIsClean(known: set<string>, guard: string)
    requires Readable(known, guard)
    ensures CleanCond(Reads(known, guard))
  {
    GuardAlone(known, guard);
    RewriteIsReading(known, StripDelimiters(guard));
  }

  predicate ReadableStep(known: set<string>, s: Step)
    decreases s
  {
    Readable(known, s.guard) && (ShapeOf(s).AGroup? ==> forall k :: k in s.subSteps ==> ReadableStep(known, k))
  }

  predicate ReadableAll(known: set<string>, steps: seq<Step>) {
    forall s :: s in steps ==> ReadableStep(known, s)
  }

  // ---------- the guards of every unit are clean ----------

  ghost predicate AllClean(guards: seq<string>) {
    forall g :: g in guards ==> CleanCond(g)
  }

  ghost predicate UnitsClean(units: seq<Guarded<string>>) {
    forall j :: 0 <= j < |units| ==> AllClean(units[j].guards)
  }

  lemma {:induction false} StepClean(known: set<string>, s: Step, guards: seq<string>)
    requires ReadableStep(known, s) && AllClean(guards)
    ensures UnitsClean(Units(TreeOf(known, s), guards))
    decreases s, 1
  {
    var g := Reads(known, s.guard);
    ReadableIsClean(known, s.guard);
    assert AllClean(guards + [g]);
    if ShapeOf(s).AGroup? {
      ListClean(known, s.subSteps, guards + [g]);
    }
  }

  lemma {:induction false} ListClean(known: set<string>, steps: seq<Step>, guards: seq<string>)
    requires ReadableAll(known, steps) && AllClean(guards)
    ensures UnitsClean(UnitsUpTo(TreesOf(known, steps), |steps|, guards))
    decreases steps, 0
  {
    if steps != [] {
      StepClean(known, steps[0], guards);
      ListClean(known, steps[1..], guards);
      var trees := TreesOf(known, steps);
      UnitsCons(trees, |steps|, guards);
      assert trees[1..] == TreesOf(known, steps[1..]);
    }
  }

  // ---------- the units hold what was written ----------

  ghost predicate UnitsWritten(units: seq<Guarded<string>>) {
    forall j :: 0 <= j < |units| ==> units[j].work.Written?
  }

  lemma {:induction false} StepWritten(known: set<string>, s: Step, guards: seq<string>)
    ensures UnitsWritten(Units(TreeOf(known, s), guards))
    decreases s, 1
  {
    if ShapeOf(s).AGroup? {
      ListWritten(known, s.subSteps, guards + [Reads(known, s.guard)]);
    }
  }

  lemma {:induction false} ListWritten(known: set<string>, steps: seq<Step>, guards: seq<string>)
    ensures UnitsWritten(UnitsUpTo(TreesOf(known, steps), |steps|, guards))
    decreases steps, 0
  {
    if steps != [] {
      StepWritten(known, steps[0], guards);
      ListWritten(known, steps[1..], guards);
      TreesCons(known, steps);
      UnitsCons(TreesOf(known, steps), |steps|, guards);
    }
  }

  /** No child carries a guard, a gate or a restart, and every for_each that can run has one inner step. */
  ghost predicate UnitsFaithful(units: seq<Guarded<string>>) {
    forall j :: 0 <= j < |units| ==> Faithful(units[j].work.body)
  }

  // ---------- conditions mean guards ----------

  /** How the engine tests a text, given the meaning of comparisons. */
  function TestOf<W>(atom: (Formula, W) -> Verdict): (r: Test<W>) {
    (c, w) => EvalCond(c, atom, w)
  }

  /** How a step is executed, as written in the tree and as emitted in the list. */
  function Semantics<D, W>(atom: (Formula, W) -> Verdict, acts: Acts<D, W>, rewind: (seq<string>, W) -> W)
    : (r: Sem<string, W>)
  {
    Sem(TestOf(atom), (id, work, w) => Perform(acts, TestOf(atom), id, work, w), rewind)
  }

  /** The one condition of an emitted step means all guards around it, outermost first. */
  lemma {:induction false} GuardsMeaning<W(!new)>(
    atom: (Formula, W) -> Verdict, sem: Sem<string, W>, guards: seq<string>, w: W)
    requires AllClean(guards)
    requires forall c, x :: sem.test(c, x) == EvalCond(c, atom, x)
    ensures CleanCond(ComposeAll(guards))
    ensures EvalCond(ComposeAll(guards), atom, w) == GuardsHold(sem, guards, w)
  {
    if guards == [] {
      TrimSpaceFixed("");
    } else {
      var n := |guards| - 1;
      GuardsMeaning(atom, sem, guards[..n], w);
      assert guards[n] in guards;
      ComposeCondClean(ComposeAll(guards[..n]), guards[n]);
      ComposeCondMeaning(ComposeAll(guards[..n]), guards[n], atom, w);
    }
  }

  // ---------- loop-backs name earlier units ----------

  function UnitIds<I>(units: seq<Guarded<I>>): (r: seq<I>)
    ensures |r| == |units|
    ensures forall i :: 0 <= i < |units| ==> r[i] == units[i].id
  {
    if units == [] then [] else [units[0].id] + UnitIds(units[1..])
  }

  ghost predicate HasUnit<I(!new)>(units: seq<Guarded<I>>, n: nat, x: I)
    requires n <= |units|
  {
    exists k :: 0 <= k < n && units[k].id == x
  }

  ghost predicate LoopKnown<I(!new)>(units: seq<Guarded<I>>, j: nat, scope: set<I>)
    requires j < |units|
  {
    units[j].loop.Some? ==>
      units[j].loop.value in scope || HasUnit(units, j, units[j].loop.value)
  }

  ghost predicate LoopsKnown<I(!new)>(units: seq<Guarded<I>>, scope: set<I>) {
    forall j :: 0 <= j < |units| ==> LoopKnown(units, j, scope)
  }

  lemma {:induction false} LoopsJoin<I(!new)>(a: seq<Guarded<I>>, b: seq<Guarded<I>>, scope: set<I>, more: set<I>)
    requires LoopsKnown(a, scope) && LoopsKnown(b, scope + more)
    requires forall x :: x in more ==> HasUnit(a, |a|, x)
    ensures LoopsKnown(a + b, scope)
  {
    var all := a + b;
    forall j | 0 <= j < |all|
      ensures LoopKnown(all, j, scope)
    {
      if j < |a| {
        assert LoopKnown(a, j, scope);
        if all[j].loop.Some? && all[j].loop.value !in scope {
          var k :| 0 <= k < j && a[k].id == a[j].loop.value;
          assert all[k].id == all[j].loop.value;
        }
      } else {
        assert LoopKnown(b, j - |a|, scope + more);
        if all[j].loop.Some? && all[j].loop.value !in scope {
          var x := all[j].loop.value;
          if x in more {
            var k :| 0 <= k < |a| && a[k].id == x;
            assert all[k].id == x;
          } else {
            var k :| 0 <= k < j - |a| && b[k].id == x;
            assert all[|a| + k].id == x;
          }
        }
      }
    }
  }

  lemma {:induction false} BeforeAmongUnits<I(!new)>(kids: seq<Tree<I>>, i: nat, guards: seq<string>, x: I)
    requires i <= |kids| && x in Before(kids, i)
    ensures var units := UnitsUpTo(kids, i, guards); HasUnit(units, |units|, x)
    decreases i
  {
    var units, last := UnitsUpTo(kids, i - 1, guards), Units(kids[i - 1], guards);
    assert UnitsUpTo(kids, i, guards) == units + last;
    if x in Before(kids, i - 1) {
      BeforeAmongUnits(kids, i - 1, guards, x);
      var k :| 0 <= k < |units| && units[k].id == x;
      assert (units + last)[k].id == x;
    } else {
      assert kids[i - 1].Unit? && kids[i - 1].id == x;
      assert (units + last)[|units|].id == x;
    }
  }

  lemma {:induction false} ScopedUnits<I(!new)>(t: Tree<I>, guards: seq<string>, scope: set<I>)
    requires Scoped(t, scope)
    ensures LoopsKnown(Units(t, guards), scope)
    decreases t, 0
  {
    match t
    case Unit(_, _, _, _, _, _) =>
    case Group(guard, kids) => ScopedUpTo(kids, |kids|, guards + [guard], scope);
  }

  lemma {:induction false} ScopedUpTo<I(!new)>(kids: seq<Tree<I>>, i: nat, guards: seq<string>, scope: set<I>)
    requires ScopedKids(kids, scope) && i <= |kids|
    ensures LoopsKnown(UnitsUpTo(kids, i, guards), scope)
    decreases kids, i
  {
    if i > 0 {
      ScopedUpTo(kids, i - 1, guards, scope);
      ScopedUnits(kids[i - 1], guards, scope + Before(kids, i - 1));
      var units := UnitsUpTo(kids, i - 1, guards);
      forall x | x in Before(kids, i - 1)
        ensures HasUnit(units, |units|, x)
      {
        BeforeAmongUnits(kids, i - 1, guards, x);
      }
      LoopsJoin(UnitsUpTo(kids, i - 1, guards), Units(kids[i - 1], guards), scope, Before(kids, i - 1));
    }
  }

  // ---------- applying the staged writes keeps what the engine schedules by ----------

  lemma {:induction false} KidKept(p: Pending, k: Step)
    ensures EmittedKid(ApplyStep(p, k)) == EmittedKid(k)
  {
  }

  lemma {:induction false} KidsKept(p: Pending, steps: seq<Step>)
    ensures EmittedKidsOf(ApplyList(p, steps)) == EmittedKidsOf(steps)
  {
    if steps != [] {
      KidKept(p, steps[0]);
      KidsKept(p, steps[1..]);
      var out := ApplyList(p, steps);
      assert out == [ApplyStep(p, steps[0])] + ApplyList(p, steps[1..]);
      assert out[1..] == ApplyList(p, steps[1..]);
    }
  }

  lemma {:induction false} BodyKept(p: Pending, s: Step)
    ensures EmittedBody(ApplyStep(p, s)) == EmittedBody(s)
  {
    KidsKept(p, s.subSteps);
    if s.body.Some? {
      KidKept(p, s.body.value);
    }
  }

  lemma {:induction false} ApplyKeeps(p: Pending, s: Step)
    ensures TaskOf(ApplyStep(p, s)) == TaskOf(s)
  {
    BodyKept(p, s);
  }

  lemma {:induction false} ApplyAt(p: Pending, steps: seq<Step>, i: nat)
    requires i < |steps|
    ensures ApplyList(p, steps)[i] == ApplyStep(p, steps[i])
  {
    if i > 0 {
      ApplyAt(p, steps[1..], i - 1);
    }
  }

  lemma {:induction false} ApplyTasks(p: Pending, steps: seq<Step>)
    ensures TasksOf(ApplyList(p, steps)) == TasksOf(steps)
  {
    var out := ApplyList(p, steps);
    forall i | 0 <= i < |steps|
      ensures TasksOf(out)[i] == TasksOf(steps)[i]
    {
      ApplyAt(p, steps, i);
      ApplyKeeps(p, steps[i]);
    }
  }

  // ---------- the theorem ----------

  function Budgets<I>(units: seq<Guarded<I>>): (r: seq<(I, int)>)
    ensures |r| == |units|
    ensures forall i :: 0 <= i < |units| ==> r[i] == (units[i].id, units[i].max)
  {
    if units == [] then [] else [(units[0].id, units[0].max)] + Budgets(units[1..])
  }

  /** The nodes of a flat list carry the units, one by one. */
  ghost predicate TasksFor(tasks: seq<Task<string>>, units: seq<Guarded<string>>) {
    |tasks| == |units| && forall j :: 0 <= j < |units| ==> tasks[j].node == NodeFor(units[j])
  }

  /** The node of a unit does in the engine what the unit says. */
  ghost predicate DoesTheSame<W(!new)>(sem: Sem<string, W>, u: Guarded<string>, w: W) {
    sem.exec(u.id, LoweredWork(u.id, u.work), w) == sem.exec(u.id, u.work, w)
  }

  lemma {:induction false} FaithfulUnit<D(!new), W(!new)>(
    atom: (Formula, W) -> Verdict, acts: Acts<D, W>, rewind: (seq<string>, W) -> W, u: Guarded<string>, w: W)
    requires u.work.Written? && Faithful(u.work.body)
    ensures DoesTheSame(Semantics(atom, acts, rewind), u, w)
  {
    FaithfulAgrees(acts, TestOf(atom), u.id, u.work.body, w);
  }

  lemma {:induction false} TasksEmit<W(!new)>(
    atom: (Formula, W) -> Verdict, sem: Sem<string, W>, tasks: seq<Task<string>>, units: seq<Guarded<string>>)
    requires TasksFor(tasks, units) && UnitsClean(units)
    requires forall c, x :: sem.test(c, x) == EvalCond(c, atom, x)
    requires forall j, w :: 0 <= j < |units| ==> DoesTheSame(sem, units[j], w)
    ensures Emits(sem, TaskNodes(tasks), 0, units)
  {
    var flat := TaskNodes(tasks);
    forall j | 0 <= j < |units|
      ensures Carries(sem, flat, 0 + j, units[j])
    {
      assert flat[j] == NodeFor(units[j]);
      forall w
        ensures sem.test(flat[j].cond, w) == GuardsHold(sem, units[j].guards, w)
      {
        GuardsMeaning(atom, sem, units[j].guards, w);
      }
      forall w
        ensures sem.exec(units[j].id, flat[j].work, w) == sem.exec(units[j].id, units[j].work, w)
      {
        assert DoesTheSame(sem, units[j], w);
      }
    }
  }

  lemma {:induction false} TasksLinked<W(!new)>(env: Env<string, W>, tasks: seq<Task<string>>, units: seq<Guarded<string>>)
    requires TasksFor(tasks, units)
    requires env.order == UnitIds(units) && Distinct(UnitIds(units)) && LoopsKnown(units, {})
    ensures Linked(env, TaskNodes(tasks))
  {
    var flat := TaskNodes(tasks);
    forall i | 0 <= i < |flat|
      ensures NodeIds(flat)[i] == env.order[i]
      ensures flat[i].loop.Some? ==> flat[i].loop.value in env.order[..i]
    {
      assert flat[i] == NodeFor(units[i]);
      assert LoopKnown(units, i, {});
      if flat[i].loop.Some? {
        var k :| 0 <= k < i && units[k].id == units[i].loop.value;
        assert env.order[..i][k] == flat[i].loop.value;
      }
    }
    assert env.order == NodeIds(flat);
    forall i, j | 0 <= i < j < |flat|
      ensures flat[i].id != flat[j].id
    {
      assert UnitIds(units)[i] != UnitIds(units)[j];
    }
  }

  lemma {:induction false} ChainedWaits(flat: seq<Step>)
    requires ChainedFrom("", flat)
    ensures forall j :: 0 <= j < |flat| ==> WaitsForPrevious(TasksOf(flat), j)
  {
    var tasks := TasksOf(flat);
    forall j | 0 <= j < |flat|
      ensures WaitsForPrevious(tasks, j)
    {
      assert LinkedTo("", flat, j);
      if j > 0 {
        assert LinkedTo("", flat, j - 1);
      }
    }
  }

  /** A child that is an agent's step or a wait, without steps of its own. */
  predicate LeafKid(k: Step) {
    ShapeOf(k).ALeaf? && (StepType(k) == AGENT || StepType(k) == WAIT_FOR)
  }

  /** What the validators ask of the children of parallel groups and of the bodies of for_each steps. */
  predicate LeafKids(s: Step)
    decreases s
  {
    match ShapeOf(s)
    case AGroup => forall k :: k in s.subSteps ==> LeafKids(k)
    case AParallel => forall k :: k in s.parallelSteps ==> LeafKid(k)
    case AForEach => forall k :: k in s.subSteps ==> LeafKid(k) && StepType(k) == AGENT
    case _ => true
  }

  /** An authored workflow: v2, plain, its guards readable, its loop-backs in scope and its children leaves. */
  ghost predicate Authored(steps: seq<Step>) {
    var known := IndexList(map[], steps).Keys;
    && AnyV2Steps(steps) && PlainAll(steps) && ReadableAll(known, steps)
    && ScopedKids(TreesOf(known, steps), {})
    && Distinct(UnitIds(UnitsOf(steps)))
    && forall s :: s in steps ==> LeafKids(s)
  }

  function TreesFor(steps: seq<Step>): (r: seq<Tree<string>>) {
    TreesOf(IndexList(map[], steps).Keys, steps)
  }

  function UnitsOf(steps: seq<Step>): (r: seq<Guarded<string>>) {
    UnitsUpTo(TreesFor(steps), |steps|, [])
  }

  function Environment<W>(sem: Sem<string, W>, steps: seq<Step>): (r: Env<string, W>) {
    EnvFor(sem, Budgets(UnitsOf(steps)))
  }

  /** Each unit is emitted exactly once, in order, and waits for the unit before it. */
  lemma {:induction false} LoweredTasks(steps: seq<Step>)
    requires AnyV2Steps(steps) && PlainAll(steps) && LowerWorkflow(steps).Ok?
    ensures var tasks := TasksOf(LowerWorkflow(steps).value);
            TasksFor(tasks, UnitsOf(steps)) && forall j :: 0 <= j < |tasks| ==> WaitsForPrevious(tasks, j)
  {
    var index := IndexList(map[], steps);
    var flat := LowerList(index.Keys, steps, "", "").value;
    ListEmitted(index.Keys, steps, "", "", []);
    ListChained(index.Keys, steps, "", "");
    ChainedWaits(flat);
    ApplyTasks(StageList(index, map[], steps, ""), flat);
  }

  /**
   Whatever the steps and children do to the world, and however comparisons are decided: when
   no child carries a guard, a gate or a restart and every for_each has one inner step, a run
   of the engine on the lowered workflow is bounded, and when it comes to rest it has ended as the
   authored tree does, with the same units executed in the same order.
   */
  lemma {:induction false} LoweringPreservesMeaning<D(!new), W(!new)>(
    steps: seq<Step>, atom: (Formula, W) -> Verdict, acts: Acts<D, W>, rewind: (seq<string>, W) -> W,
    world: W, run: seq<Engine<string, W>>)
    requires Authored(steps) && LowerWorkflow(steps).Ok? && UnitsFaithful(UnitsOf(steps))
    requires Run(Environment(Semantics(atom, acts, rewind), steps), TasksOf(LowerWorkflow(steps).value), world, run)
    ensures var env := Environment(Semantics(atom, acts, rewind), steps);
            var tasks := TasksOf(LowerWorkflow(steps).value);
            && |run| <= WorkLeft(env, tasks, 0, State(world, map[], [])) + 1
            && (Quiescent(env, tasks, run[|run| - 1]) ==>
                  EndOf(run[|run| - 1]) == RunKids(env, TreesFor(steps), 0, [], State(world, map[], [])))
  {
    var sem := Semantics(atom, acts, rewind);
    var env := Environment(sem, steps);
    var tasks := TasksOf(LowerWorkflow(steps).value);
    var st := Start(tasks, world).st;
    LoweredChain(env, steps);
    EveryScheduleIsTheListRun(env, tasks, world, run);
    FaithfulUnits(atom, acts, rewind, steps);
    TreeIsList(atom, sem, steps, TaskNodes(tasks), st);
  }

  lemma {:induction false} FaithfulUnits<D(!new), W(!new)>(
    atom: (Formula, W) -> Verdict, acts: Acts<D, W>, rewind: (seq<string>, W) -> W, steps: seq<Step>)
    requires Authored(steps) && LowerWorkflow(steps).Ok? && UnitsFaithful(UnitsOf(steps))
    ensures Emits(Semantics(atom, acts, rewind), TaskNodes(TasksOf(LowerWorkflow(steps).value)), 0, UnitsOf(steps))
  {
    var sem, units := Semantics(atom, acts, rewind), UnitsOf(steps);
    LoweredTasks(steps);
    ListClean(IndexList(map[], steps).Keys, steps, []);
    ListWritten(IndexList(map[], steps).Keys, steps, []);
    forall j, w | 0 <= j < |units|
      ensures DoesTheSame(sem, units[j], w)
    {
      FaithfulUnit(atom, acts, rewind, units[j], w);
    }
    TasksEmit(atom, sem, TasksOf(LowerWorkflow(steps).value), units);
  }

  /** The lowered steps are a chain in their environment. */
  lemma {:induction false} LoweredChain<W(!new)>(env: Env<string, W>, steps: seq<Step>)
    requires Authored(steps) && LowerWorkflow(steps).Ok? && env == Environment(env.sem, steps)
    ensures Chain(env, TasksOf(LowerWorkflow(steps).value))
  {
    var units, trees := UnitsOf(steps), TreesFor(steps);
    LoweredTasks(steps);
    ScopedUpTo(trees, |trees|, [], {});
    assert env.order == UnitIds(units);
    TasksLinked(env, TasksOf(LowerWorkflow(steps).value), units);
  }

  /** A list that carries the units of the workflow runs as its tree. */
  lemma {:induction false} TreeIsList<W(!new)>(
    atom: (Formula, W) -> Verdict, sem: Sem<string, W>, steps: seq<Step>, flat: seq<Node<string>>, st: State<string, W>)
    requires Authored(steps) && |flat| == |UnitsOf(steps)| && Linked(Environment(sem, steps), flat)
    requires Emits(sem, flat, 0, UnitsOf(steps))
    ensures RunFlat(Environment(sem, steps), flat, 0, st) == RunKids(Environment(sem, steps), TreesFor(steps), 0, [], st)
  {
    var env, trees := Environment(sem, steps), TreesFor(steps);
    JumpsOutward(env, trees, 0, [], st, {});
    FlatRunIsTreeRun(env, flat, trees, st);
  }
}
