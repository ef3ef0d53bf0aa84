/**
 What a workflow does, three times: the authored tree with its guards, groups and reject
 loops; the flat list with a program counter; and (in engine.dfy) the dependency-driven
 scheduler. Ids, worlds, the effect of a step and the outcome of a test are parameters, so
 the theorems hold whatever each step does to memory.
 */
module Meaning {
  import opened Wrappers
  import opened Expr
  import opened Bodies

  /**
   A step of the flat list: it runs when cond holds, it fails when its gate does not read
   false, and a failure loops back to the step that loop names, at most max times.
   */
  datatype Node<I> = Node(id: I, work: Work, cond: string, gate: string, loop: Option<I>, max: int)

  /** An authored step: a unit (leaf, parallel group or for_each), or a group of steps. */
  datatype Tree<I> =
    | Unit(id: I, work: Work, guard: string, gate: string, loop: Option<I>, max: int)
    | Group(guard: string, kids: seq<Tree<I>>)

  /** How texts are tested, what a unit does, and what undoing a suffix of the workflow does. */
  datatype Sem<!I, !W> = Sem(
    test: (string, W) -> Verdict,
    exec: (I, Work, W) -> (W, bool),
    rewind: (seq<I>, W) -> W)

  /** The world, the loop-backs used by each step so far, and the units executed, in order. */
  datatype State<I, W> = State(world: W, used: map<I, nat>, trace: seq<I>)

  /** A workflow's semantics, its units in document order and the loop budget of each. */
  datatype Env<!I, !W> = Env(sem: Sem<I, W>, order: seq<I>, limits: map<I, int>)

  /** The environment for units with the given ids and loop budgets. */
  function EnvFor<I(==), W>(sem: Sem<I, W>, budgets: seq<(I, int)>): (env: Env<I, W>) {
    Env(sem, seq(|budgets|, i requires 0 <= i < |budgets| => budgets[i].0), Limits(budgets))
  }

  function Limits<I(==)>(budgets: seq<(I, int)>): (r: map<I, int>) {
    if budgets == [] then map[] else map[budgets[0].0 := budgets[0].1] + Limits(budgets[1..])
  }

  function Used<I(==), W>(st: State<I, W>, id: I): (n: nat) {
    if id in st.used then st.used[id] else 0
  }

  // ---------- the loop budget, which bounds every run ----------

  function Left<I(==), W>(env: Env<I, W>, st: State<I, W>, id: I): (n: nat) {
    if id in env.order && id in env.limits && env.limits[id] > Used(st, id)
    then env.limits[id] - Used(st, id)
    else 0
  }

  function SlackOf<I(==), W>(env: Env<I, W>, st: State<I, W>, ids: seq<I>): (n: nat) {
    if ids == [] then 0 else Left(env, st, ids[0]) + SlackOf(env, st, ids[1..])
  }

  /** Loop-backs the whole workflow may still take. */
  function Slack<I(==), W>(env: Env<I, W>, st: State<I, W>): (n: nat) {
    SlackOf(env, st, env.order)
  }

  lemma {:induction false} SlackSameUse<I, W>(env: Env<I, W>, a: State<I, W>, b: State<I, W>, ids: seq<I>)
    requires a.used == b.used
    ensures SlackOf(env, a, ids) == SlackOf(env, b, ids)
  {
    if ids != [] {
      SlackSameUse(env, a, b, ids[1..]);
    }
  }

  function Charge<I(==), W>(st: State<I, W>, id: I): (r: State<I, W>) {
    st.(used := st.used[id := Used(st, id) + 1])
  }

  lemma {:induction false} SlackCharged<I, W>(env: Env<I, W>, st: State<I, W>, id: I, ids: seq<I>)
    ensures SlackOf(env, Charge(st, id), ids) <= SlackOf(env, st, ids)
    ensures id in ids && Left(env, st, id) > 0 ==> SlackOf(env, Charge(st, id), ids) < SlackOf(env, st, ids)
  {
    if ids != [] {
      SlackCharged(env, st, id, ids[1..]);
    }
  }

  // ---------- one attempt at a unit ----------

  function PositionOf<I(==)>(ids: seq<I>, x: I): (n: nat)
    ensures n <= |ids|
    ensures n < |ids| ==> ids[n] == x
    ensures n == |ids| <==> x !in ids
  {
    if ids == [] then 0 else if ids[0] == x then 0 else 1 + PositionOf(ids[1..], x)
  }

  /** The loop target and everything after it are as if they had not run. */
  function Rewind<I(==), W>(env: Env<I, W>, target: I, st: State<I, W>): (r: State<I, W>)
    ensures Slack(env, r) == Slack(env, st)
  {
    SlackSameUse(env, st, st.(world := env.sem.rewind(env.order[PositionOf(env.order, target)..], st.world)), env.order);
    st.(world := env.sem.rewind(env.order[PositionOf(env.order, target)..], st.world))
  }

  datatype Attempt<I, W> =
    | Skip(st: State<I, W>)
    | Pass(st: State<I, W>)
    | Retry(target: I, st: State<I, W>)
    | Abort(st: State<I, W>)

  /** A failed step loops back while it has budget left; otherwise the run fails. */
  function OnFailure<I(==), W>(env: Env<I, W>, id: I, loop: Option<I>, st: State<I, W>): (r: Attempt<I, W>) {
    if loop.Some? && Left(env, st, id) > 0
    then Retry(loop.value, Charge(st, id))
    else Abort(st)
  }

  /** The verdict on the step's condition decides; a condition that cannot be evaluated fails the step. */
  function Try<I(==), W>(env: Env<I, W>, v: Verdict, id: I, work: Work, gate: string, loop: Option<I>, st: State<I, W>)
    : (r: Attempt<I, W>)
    ensures if r.Retry? then Slack(env, r.st) < Slack(env, st) else Slack(env, r.st) == Slack(env, st)
    ensures r.Retry? ==> loop == Some(r.target)
  {
    SlackCharged(env, st, id, env.order);
    match v
    case False => Skip(st)
    case Error =>
      var r := OnFailure(env, id, loop, st);
      FailureUsesBudget(env, id, loop, st, st);
      r
    case True =>
      var (world, ok) := env.sem.exec(id, work, st.world);
      var after := st.(world := world, trace := st.trace + [id]);
      FailureUsesBudget(env, id, loop, st, after);
      SlackSameUse(env, after, st, env.order);
      if ok && (gate == "" || env.sem.test(gate, world) == False) then Pass(after)
      else OnFailure(env, id, loop, after)
  }

  lemma {:induction false} FailureUsesBudget<I, W>(env: Env<I, W>, id: I, loop: Option<I>, before: State<I, W>, st: State<I, W>)
    requires before.used == st.used
    ensures var r := OnFailure(env, id, loop, st);
            if r.Retry? then Slack(env, r.st) < Slack(env, before) else Slack(env, r.st) == Slack(env, before)
  {
    var r := OnFailure(env, id, loop, st);
    SlackSameUse(env, before, st, env.order);
    if r.Retry? {
      SlackCharged(env, st, id, env.order);
    }
  }

  // ---------- the authored tree ----------

  /** The step may loop back once more. */
  predicate MayLoop<I(==), W>(env: Env<I, W>, id: I, st: State<I, W>) {
    id in env.order && id in env.limits && env.limits[id] > if id in st.used then st.used[id] else 0
  }

  /**
   What becomes of a step. It is skipped exactly when its condition is false; it passes exactly
   when the condition holds, the work succeeds and no gate rejects it; any other outcome loops
   back while there is budget, and else ends the run. Work is done and recorded only when the
   condition holds, and only a loop-back is charged.
   */
  lemma {:induction false} TryMeans<I, W>(env: Env<I, W>, v: Verdict, id: I, work: Work, gate: string, loop: Option<I>, st: State<I, W>)
    ensures var a, (world, ok) := Try(env, v, id, work, gate, loop, st), env.sem.exec(id, work, st.world);
            var passes := v == True && ok && (gate == "" || env.sem.test(gate, world) == False);
            && (a.Skip? <==> v == False) && (a.Pass? <==> passes)
            && (a.Retry? <==> v != False && !passes && loop.Some? && MayLoop(env, id, st))
            && (a.Retry? ==> Some(a.target) == loop)
            && a.st.world == (if v == True then world else st.world)
            && a.st.trace == (if v == True then st.trace + [id] else st.trace)
            && a.st.used == (if a.Retry? then st.used[id := (if id in st.used then st.used[id] else 0) + 1] else st.used)
  {
  }

  /** Enclosing guards and the step's own, outermost first, each only if those before it hold. */
  function GuardsHold<I, W>(sem: Sem<I, W>, guards: seq<string>, w: W): (v: Verdict) {
    if guards == [] then True
    else
      var n := |guards| - 1;
      AndThen(GuardsHold(sem, guards[..n], w), sem.test(guards[n], w))
  }

  datatype Ending<I, W> =
    | Done(st: State<I, W>)
    | Failed(st: State<I, W>)
    | Jump(target: I, st: State<I, W>)

  /** The earlier unit among siblings that a loop-back names, or i when there is none. */
  function Sibling<I(==)>(kids: seq<Tree<I>>, i: nat, target: I): (k: nat)
    requires i <= |kids|
    ensures k <= i
    ensures k < i ==> kids[k].Unit? && kids[k].id == target
    ensures k == i ==> forall j :: 0 <= j < i ==> !(kids[j].Unit? && kids[j].id == target)
  {
    if i == 0 then 0
    else
      var k := Sibling(kids, i - 1, target);
      if k < i - 1 then k
      else if kids[i - 1].Unit? && kids[i - 1].id == target then i - 1
      else i
  }

  function RunTree<I(==), W>(env: Env<I, W>, t: Tree<I>, guards: seq<string>, st: State<I, W>): (r: Ending<I, W>)
    ensures Slack(env, r.st) <= Slack(env, st)
    ensures r.Jump? ==> Slack(env, r.st) < Slack(env, st)
    decreases Slack(env, st), t, 0
  {
    match t
    case Group(guard, kids) => RunKids(env, kids, 0, guards + [guard], st)
    case Unit(id, work, guard, gate, loop, _) =>
      var v := GuardsHold(env.sem, guards + [guard], st.world);
      match Try(env, v, id, work, gate, loop, st)
      case Skip(after) => Done(after)
      case Pass(after) => Done(after)
      case Abort(after) => Failed(after)
      case Retry(target, after) => Jump(target, Rewind(env, target, after))
  }

  /** Siblings run in order; a loop-back to an earlier sibling resumes there, others go outward. */
  function RunKids<I(==), W>(env: Env<I, W>, kids: seq<Tree<I>>, i: nat, guards: seq<string>, st: State<I, W>)
    : (r: Ending<I, W>)
    requires i <= |kids|
    ensures Slack(env, r.st) <= Slack(env, st)
    ensures r.Jump? ==> Slack(env, r.st) < Slack(env, st)
    decreases Slack(env, st), kids, |kids| - i
  {
    if i == |kids| then Done(st)
    else match RunTree(env, kids[i], guards, st)
      case Done(after) => RunKids(env, kids, i + 1, guards, after)
      case Failed(after) => Failed(after)
      case Jump(target, after) =>
        var k := Sibling(kids, i, target);
        if k < i then RunKids(env, kids, k, guards, after) else Jump(target, after)
  }

  // ---------- the flat list ----------

  function NodeIds<I>(flat: seq<Node<I>>): (r: seq<I>)
    ensures |r| == |flat|
    ensures forall i :: 0 <= i < |flat| ==> r[i] == flat[i].id
  {
    if flat == [] then [] else [flat[0].id] + NodeIds(flat[1..])
  }

  ghost predicate Linked<I(!new), W>(env: Env<I, W>, flat: seq<Node<I>>) {
    && env.order == NodeIds(flat)
    && (forall i, j :: 0 <= i < j < |flat| ==> flat[i].id != flat[j].id)
    && (forall i :: 0 <= i < |flat| && flat[i].loop.Some? ==> flat[i].loop.value in env.order[..i])
  }

  /** The list with a program counter: a loop-back sets it to the target. */
  ghost function RunFlat<I(!new), W>(env: Env<I, W>, flat: seq<Node<I>>, pc: nat, st: State<I, W>): (r: Ending<I, W>)
    requires Linked(env, flat) && pc <= |flat|
    decreases Slack(env, st), |flat| - pc
  {
    if pc == |flat| then Done(st)
    else
      var n := flat[pc];
      var v := env.sem.test(n.cond, st.world);
      match Try(env, v, n.id, n.work, n.gate, n.loop, st)
      case Skip(after) => RunFlat(env, flat, pc + 1, after)
      case Pass(after) => RunFlat(env, flat, pc + 1, after)
      case Abort(after) => Failed(after)
      case Retry(target, after) => RunFlat(env, flat, PositionOf(env.order, target), Rewind(env, target, after))
  }

  // ---------- why a flat list has the meaning of a tree ----------

  /** A unit with its guards, outermost first. */
  datatype Guarded<I> = Guarded(id: I, work: Work, guards: seq<string>, gate: string, loop: Option<I>, max: int)

  /** The units of a tree in document order. */
  function Units<I>(t: Tree<I>, guards: seq<string>): (r: seq<Guarded<I>>)
    decreases t, 0
  {
    match t
    case Unit(id, work, guard, gate, loop, max) => [Guarded(id, work, guards + [guard], gate, loop, max)]
    case Group(guard, kids) => UnitsUpTo(kids, |kids|, guards + [guard])
  }

  function UnitsUpTo<I>(kids: seq<Tree<I>>, i: nat, guards: seq<string>): (r: seq<Guarded<I>>)
    requires i <= |kids|
    decreases kids, i
  {
    if i == 0 then [] else UnitsUpTo(kids, i - 1, guards) + Units(kids[i - 1], guards)
  }

  /** The node at p carries the unit u: it runs exactly when all guards of u hold, and does the same. */
  ghost predicate Carries<I(!new), W(!new)>(sem: Sem<I, W>, flat: seq<Node<I>>, p: nat, u: Guarded<I>) {
    && p < |flat|
    && flat[p].id == u.id && flat[p].gate == u.gate && flat[p].loop == u.loop
    && (forall w :: sem.test(flat[p].cond, w) == GuardsHold(sem, u.guards, w))
    && forall w :: sem.exec(u.id, flat[p].work, w) == sem.exec(u.id, u.work, w)
  }

  /** From position o on, the list carries the given units. */
  ghost predicate Emits<I(!new), W(!new)>(sem: Sem<I, W>, flat: seq<Node<I>>, o: nat, units: seq<Guarded<I>>) {
    forall j :: 0 <= j < |units| ==> Carries(sem, flat, o + j, units[j])
  }

  lemma {:induction false} EmitsSplit<I(!new), W(!new)>(sem: Sem<I, W>, flat: seq<Node<I>>, o: nat, a: seq<Guarded<I>>, b: seq<Guarded<I>>)
    requires Emits(sem, flat, o, a + b)
    ensures Emits(sem, flat, o, a) && Emits(sem, flat, o + |a|, b)
  {
    forall j | 0 <= j < |a|
      ensures Carries(sem, flat, o + j, a[j])
    {
      assert (a + b)[j] == a[j];
    }
    forall j | 0 <= j < |b|
      ensures Carries(sem, flat, o + |a| + j, b[j])
    {
      assert (a + b)[|a| + j] == b[j];
      assert Carries(sem, flat, o + (|a| + j), (a + b)[|a| + j]);
    }
  }

  /** The block of kid i inside the block of its siblings. */
  lemma {:induction false} EmitsKid<I(!new), W(!new)>(
    sem: Sem<I, W>, flat: seq<Node<I>>, o: nat, kids: seq<Tree<I>>, n: nat, guards: seq<string>, i: nat)
    requires i < n <= |kids|
    requires Emits(sem, flat, o, UnitsUpTo(kids, n, guards))
    ensures Emits(sem, flat, o + |UnitsUpTo(kids, i, guards)|, Units(kids[i], guards))
    decreases n
  {
    EmitsSplit(sem, flat, o, UnitsUpTo(kids, n - 1, guards), Units(kids[n - 1], guards));
    if i < n - 1 {
      EmitsKid(sem, flat, o, kids, n - 1, guards, i);
    }
  }

  /** One step of the flat list, for any way run of going on from a position. */
  ghost predicate StepLaw<I(!new), W(!new)>(
    env: Env<I, W>, flat: seq<Node<I>>, run: (nat, State<I, W>) -> Ending<I, W>, pc: nat, st: State<I, W>)
    requires pc <= |flat|
  {
    run(pc, st) ==
    if pc == |flat| then Done(st)
    else
      match Try(env, env.sem.test(flat[pc].cond, st.world), flat[pc].id, flat[pc].work, flat[pc].gate, flat[pc].loop, st)
      case Skip(after) => run(pc + 1, after)
      case Pass(after) => run(pc + 1, after)
      case Abort(after) => Failed(after)
      case Retry(target, after) => run(PositionOf(env.order, target), Rewind(env, target, after))
  }

  ghost predicate Runs<I(!new), W(!new)>(env: Env<I, W>, flat: seq<Node<I>>, run: (nat, State<I, W>) -> Ending<I, W>) {
    forall pc: nat, st: State<I, W> :: pc <= |flat| ==> StepLaw(env, flat, run, pc, st)
  }

  ghost predicate At<I(!new), W>(env: Env<I, W>, flat: seq<Node<I>>, p: nat) {
    p < |flat| ==> PositionOf(env.order, flat[p].id) == p
  }

  /** How the flat run goes on after a part of the tree has ended. */
  ghost function Continue<I(!new), W(!new)>(
    env: Env<I, W>, run: (nat, State<I, W>) -> Ending<I, W>, r: Ending<I, W>, next: nat): (e: Ending<I, W>)
  {
    match r
    case Done(st) => run(next, st)
    case Failed(st) => Failed(st)
    case Jump(target, st) => run(PositionOf(env.order, target), st)
  }

  lemma {:induction false} SimulateUnit<I(!new), W(!new)>(
    env: Env<I, W>, flat: seq<Node<I>>, run: (nat, State<I, W>) -> Ending<I, W>,
    o: nat, t: Tree<I>, guards: seq<string>, st: State<I, W>)
    requires o < |flat| && StepLaw(env, flat, run, o, st)
    requires t.Unit? && Carries(env.sem, flat, o, Guarded(t.id, t.work, guards + [t.guard], t.gate, t.loop, t.max))
    ensures run(o, st) == Continue(env, run, RunTree(env, t, guards, st), o + 1)
  {
    assert env.sem.test(flat[o].cond, st.world) == GuardsHold(env.sem, guards + [t.guard], st.world);
    assert env.sem.exec(t.id, flat[o].work, st.world) == env.sem.exec(t.id, t.work, st.world);
  }

  lemma {:induction false} RunKidsUnfold<I(!new), W(!new)>(env: Env<I, W>, kids: seq<Tree<I>>, i: nat, guards: seq<string>, st: State<I, W>)
    requires i < |kids|
    ensures RunKids(env, kids, i, guards, st) ==
            match RunTree(env, kids[i], guards, st)
            case Done(after) => RunKids(env, kids, i + 1, guards, after)
            case Failed(after) => Failed(after)
            case Jump(target, after) =>
              var k := Sibling(kids, i, target);
              if k < i then RunKids(env, kids, k, guards, after) else Jump(target, after)
  {
  }

  /** A unit among siblings is found at its place in the list. */
  lemma {:induction false} KidPosition<I(!new), W(!new)>(
    env: Env<I, W>, flat: seq<Node<I>>, o: nat, kids: seq<Tree<I>>, k: nat, guards: seq<string>)
    requires k < |kids| && kids[k].Unit? && forall p: nat :: At(env, flat, p)
    requires Emits(env.sem, flat, o, UnitsUpTo(kids, |kids|, guards))
    ensures PositionOf(env.order, kids[k].id) == o + |UnitsUpTo(kids, k, guards)|
  {
    var q := o + |UnitsUpTo(kids, k, guards)|;
    EmitsKid(env.sem, flat, o, kids, |kids|, guards, k);
    assert Carries(env.sem, flat, q + 0, Units(kids[k], guards)[0]);
    assert At(env, flat, q);
  }

  /** Running the list over the block of t is running t. */
  lemma {:induction false} SimulateTree<I(!new), W(!new)>(
    env: Env<I, W>, flat: seq<Node<I>>, run: (nat, State<I, W>) -> Ending<I, W>,
    o: nat, t: Tree<I>, guards: seq<string>, st: State<I, W>, r: Ending<I, W>)
    requires Runs(env, flat, run) && forall p: nat :: At(env, flat, p)
    requires Emits(env.sem, flat, o, Units(t, guards))
    requires r == RunTree(env, t, guards, st)
    ensures run(o, st) == Continue(env, run, r, o + |Units(t, guards)|)
    decreases Slack(env, st), t, 0
  {
    match t
    case Unit(id, work, guard, gate, loop, _) =>
      assert Carries(env.sem, flat, o + 0, Units(t, guards)[0]);
      assert StepLaw(env, flat, run, o, st);
      SimulateUnit(env, flat, run, o, t, guards, st);
    case Group(guard, kids) =>
      SimulateKids(env, flat, run, o, kids, 0, guards + [guard], st, r);
  }

  lemma {:induction false} UnitsNext<I(!new)>(kids: seq<Tree<I>>, i: nat, guards: seq<string>)
    requires i < |kids|
    ensures |UnitsUpTo(kids, i + 1, guards)| == |UnitsUpTo(kids, i, guards)| + |Units(kids[i], guards)|
  {
  }

  /** Where the list stands once kid i has ended with here, unless the run has failed. */
  lemma {:induction false} AfterKid<I(!new), W(!new)>(
    env: Env<I, W>, flat: seq<Node<I>>, run: (nat, State<I, W>) -> Ending<I, W>,
    o: nat, kids: seq<Tree<I>>, i: nat, guards: seq<string>, st: State<I, W>, here: Ending<I, W>)
    requires i < |kids| && forall p: nat :: At(env, flat, p)
    requires Emits(env.sem, flat, o, UnitsUpTo(kids, |kids|, guards))
    requires var p := o + |UnitsUpTo(kids, i, guards)|;
             run(p, st) == Continue(env, run, here, p + |Units(kids[i], guards)|)
    ensures var p := o + |UnitsUpTo(kids, i, guards)|;
            match here
            case Done(after) => run(p, st) == run(o + |UnitsUpTo(kids, i + 1, guards)|, after)
            case Failed(after) => run(p, st) == Failed(after)
            case Jump(target, after) =>
              var k := Sibling(kids, i, target);
              run(p, st) == run(if k < i then o + |UnitsUpTo(kids, k, guards)| else PositionOf(env.order, target), after)
  {
    UnitsNext(kids, i, guards);
    if here.Jump? {
      var k := Sibling(kids, i, here.target);
      if k < i {
        KidPosition(env, flat, o, kids, k, guards);
      }
    }
  }

  lemma {:induction false} SimulateKids<I(!new), W(!new)>(
    env: Env<I, W>, flat: seq<Node<I>>, run: (nat, State<I, W>) -> Ending<I, W>,
    o: nat, kids: seq<Tree<I>>, i: nat, guards: seq<string>, st: State<I, W>, r: Ending<I, W>)
    requires Runs(env, flat, run) && forall p: nat :: At(env, flat, p)
    requires i <= |kids|
    requires Emits(env.sem, flat, o, UnitsUpTo(kids, |kids|, guards))
    requires r == RunKids(env, kids, i, guards, st)
    ensures run(o + |UnitsUpTo(kids, i, guards)|, st) == Continue(env, run, r, o + |UnitsUpTo(kids, |kids|, guards)|)
    decreases Slack(env, st), kids, |kids| - i
  {
    if i < |kids| {
      var here := RunTree(env, kids[i], guards, st);
      EmitsKid(env.sem, flat, o, kids, |kids|, guards, i);
      SimulateTree(env, flat, run, o + |UnitsUpTo(kids, i, guards)|, kids[i], guards, st, here);
      RunKidsUnfold(env, kids, i, guards, st);
      AfterKid(env, flat, run, o, kids, i, guards, st, here);
      if here.Done? {
        SimulateKids(env, flat, run, o, kids, i + 1, guards, here.st, r);
      } else if here.Jump? {
        var k := Sibling(kids, i, here.target);
        if k < i {
          SimulateKids(env, flat, run, o, kids, k, guards, here.st, r);
        }
      }
    }
  }

  lemma {:induction false} RunFlatLaw<I(!new), W(!new)>(env: Env<I, W>, flat: seq<Node<I>>, run: (nat, State<I, W>) -> Ending<I, W>)
    requires Linked(env, flat)
    requires forall pc: nat, st: State<I, W> :: pc <= |flat| ==> run(pc, st) == RunFlat(env, flat, pc, st)
    ensures Runs(env, flat, run)
  {
  }

  lemma {:induction false} PositionsUnique<I(!new), W>(env: Env<I, W>, flat: seq<Node<I>>)
    requires Linked(env, flat)
    ensures forall p: nat :: At(env, flat, p)
  {
  }

  /** The flat list and the tree it carries end alike, whatever the steps do. */
  lemma {:induction false} FlatRunIsTreeRun<I(!new), W(!new)>(env: Env<I, W>, flat: seq<Node<I>>, kids: seq<Tree<I>>, st: State<I, W>)
    requires Linked(env, flat)
    requires |flat| == |UnitsUpTo(kids, |kids|, [])|
    requires Emits(env.sem, flat, 0, UnitsUpTo(kids, |kids|, []))
    requires !RunKids(env, kids, 0, [], st).Jump?
    ensures RunFlat(env, flat, 0, st) == RunKids(env, kids, 0, [], st)
  {
    var run := (pc: nat, s: State<I, W>) => if pc <= |flat| then RunFlat(env, flat, pc, s) else Done(s);
    RunFlatLaw(env, flat, run);
    PositionsUnique(env, flat);
    var r := RunKids(env, kids, 0, [], st);
    SimulateKids(env, flat, run, 0, kids, 0, [], st, r);
    assert run(0, st) == RunFlat(env, flat, 0, st);
    assert r.Done? ==> run(|flat|, r.st) == Done(r.st);
  }

  // ---------- loop-backs stay inside the tree ----------

  /** Every loop-back names an earlier unit among the siblings of the step or of a group around it. */
  ghost predicate Scoped<I(!new)>(t: Tree<I>, scope: set<I>)
    decreases t, 0
  {
    match t
    case Unit(_, _, _, _, loop, _) => loop.Some? ==> loop.value in scope
    case Group(_, kids) => ScopedKids(kids, scope)
  }

  ghost predicate ScopedKids<I(!new)>(kids: seq<Tree<I>>, scope: set<I>)
    decreases kids, 1
  {
    forall i :: 0 <= i < |kids| ==> Scoped(kids[i], scope + Before(kids, i))
  }

  ghost function Before<I(!new)>(kids: seq<Tree<I>>, i: nat): (r: set<I>)
    requires i <= |kids|
  {
    set j | 0 <= j < i && kids[j].Unit? :: kids[j].id
  }

  lemma {:induction false} JumpsInScope<I(!new), W(!new)>(
    env: Env<I, W>, t: Tree<I>, guards: seq<string>, st: State<I, W>, scope: set<I>)
    requires Scoped(t, scope)
    ensures var r := RunTree(env, t, guards, st); r.Jump? ==> r.target in scope
    decreases Slack(env, st), t, 0
  {
    match t
    case Unit(_, _, _, _, _, _) =>
    case Group(guard, kids) => JumpsOutward(env, kids, 0, guards + [guard], st, scope);
  }

  lemma {:induction false} JumpsOutward<I(!new), W(!new)>(
    env: Env<I, W>, kids: seq<Tree<I>>, i: nat, guards: seq<string>, st: State<I, W>, scope: set<I>)
    requires ScopedKids(kids, scope) && i <= |kids|
    ensures var r := RunKids(env, kids, i, guards, st); r.Jump? ==> r.target in scope
    decreases Slack(env, st), kids, |kids| - i
  {
    if i < |kids| {
      JumpsInScope(env, kids[i], guards, st, scope + Before(kids, i));
      RunKidsUnfold(env, kids, i, guards, st);
      match RunTree(env, kids[i], guards, st)
      case Done(after) =>
        JumpsOutward(env, kids, i + 1, guards, after, scope);
      case Failed(after) =>
      case Jump(target, after) =>
        var k := Sibling(kids, i, target);
        if k < i {
          JumpsOutward(env, kids, k, guards, after, scope);
        }
    }
  }
}
