/**
 Where a run of the units can get, by the conditions alone: a route is a sequence of stops, each
 a unit, a verdict on every comparison there, and the loop-backs used so far. What units do is
 not part of it. A workflow keeps its meaning if no route stops at a unit whose guards hold and
 whose node does something else than what was written.
 */
module Routes {
  import opened Expr
  import opened Steps
  import opened Reading
  import opened Bodies
  import opened Telling
  import opened Lowering
  import opened Meaning
  import opened Engine
  import opened LoweringMeaning
  import opened Preservation

  // ---------- routes ----------

  datatype Stop = Stop(at: nat, v: Valuation, used: map<string, nat>)

  /** Guards, outermost first, each only if those before it hold. */
  function Under(v: Valuation, guards: seq<string>): (r: Verdict) {
    if guards == [] then True else AndThen(Under(v, guards[..|guards| - 1]), Says(v, guards[|guards| - 1]))
  }

  function UsedBy(used: map<string, nat>, id: string): (n: nat) {
    if id in used then used[id] else 0
  }

  /** The unit at s fails and loops back, which it may. */
  ghost predicate LoopsBack(units: seq<Guarded<string>>, s: Stop, t: Stop)
    requires s.at < |units|
  {
    var u := units[s.at];
    && u.loop.Some? && UsedBy(s.used, u.id) < u.max
    && t.at == PositionOf(UnitIds(units), u.loop.value) && t.used == s.used[u.id := UsedBy(s.used, u.id) + 1]
  }

  /** The unit at s runs and passes: it can, and its gate, tested after it, is open. */
  ghost predicate GoesThrough(units: seq<Guarded<string>>, s: Stop, t: Stop)
    requires s.at < |units|
  {
    var u := units[s.at];
    && Able(u.work.body) && (u.gate == "" || Says(t.v, u.gate) == False)
    && t.at == s.at + 1 && t.used == s.used
  }

  /** From s to t: a unit whose guards do not hold is skipped, one that runs changes what is true. */
  ghost predicate Move(units: seq<Guarded<string>>, s: Stop, t: Stop) {
    && s.at < |units|
    && match Under(s.v, units[s.at].guards)
       case False => t == s.(at := s.at + 1)
       case True => GoesThrough(units, s, t) || LoopsBack(units, s, t)
       case Error => LoopsBack(units, s, t)
  }

  ghost predicate Moves(units: seq<Guarded<string>>, route: seq<Stop>) {
    forall i :: 0 <= i < |route| - 1 ==> Move(units, route[i], route[i + 1])
  }

  ghost predicate Route(units: seq<Guarded<string>>, route: seq<Stop>) {
    route != [] && route[0].at == 0 && route[0].used == map[] && Moves(units, route)
  }

  /** The unit runs there, and its node may do something else than what was written. */
  ghost predicate Faulty(units: seq<Guarded<string>>, s: Stop) {
    s.at < |units| && Under(s.v, units[s.at].guards) == True && !Tame(Saying(s.v), units[s.at].work.body)
  }

  /** Some route stops there. */
  ghost predicate Reached(units: seq<Guarded<string>>, s: Stop) {
    exists route :: Route(units, route) && route[|route| - 1] == s
  }

  ghost predicate NeverFaulty(units: seq<Guarded<string>>) {
    forall s :: Reached(units, s) ==> !Faulty(units, s)
  }

  lemma {:induction false} RouteOn(units: seq<Guarded<string>>, route: seq<Stop>, t: Stop)
    requires Route(units, route) && Move(units, route[|route| - 1], t)
    ensures Route(units, route + [t])
  {
    var longer := route + [t];
    forall i | 0 <= i < |longer| - 1
      ensures Move(units, longer[i], longer[i + 1])
    {
    }
  }

  lemma {:induction false} ReachedOn(units: seq<Guarded<string>>, s: Stop, t: Stop)
    requires Reached(units, s) && Move(units, s, t)
    ensures Reached(units, t)
  {
    var route :| Route(units, route) && route[|route| - 1] == s;
    RouteOn(units, route, t);
    assert (route + [t])[|route|] == t;
  }

  lemma {:induction false} ReachedFirst(units: seq<Guarded<string>>, v: Valuation)
    ensures Reached(units, Stop(0, v, map[]))
  {
    assert Route(units, [Stop(0, v, map[])]);
  }

  // ---------- the units of an authored workflow ----------

  ghost predicate UnitsManned(units: seq<Guarded<string>>) {
    forall j :: 0 <= j < |units| ==> Manned(units[j].work.body)
  }

  lemma {:induction false} StepManned(known: set<string>, s: Step, guards: seq<string>)
    ensures UnitsManned(Units(TreeOf(known, s), guards))
    decreases s, 1
  {
    if ShapeOf(s).AGroup? {
      ListManned(known, s.subSteps, guards + [Reads(known, s.guard)]);
    }
  }

  lemma {:induction false} ListManned(known: set<string>, steps: seq<Step>, guards: seq<string>)
    ensures UnitsManned(UnitsUpTo(TreesOf(known, steps), |steps|, guards))
    decreases steps, 0
  {
    if steps != [] {
      StepManned(known, steps[0], guards);
      ListManned(known, steps[1..], guards);
      TreesCons(known, steps);
      UnitsCons(TreesOf(known, steps), |steps|, guards);
    }
  }

  /** What lists of nodes are built from. */
  ghost predicate Proper(units: seq<Guarded<string>>) {
    UnitsWritten(units) && UnitsClean(units) && UnitsManned(units) && Distinct(UnitIds(units)) && LoopsKnown(units, {})
  }

  lemma {:induction false} AuthoredProper(steps: seq<Step>)
    requires Authored(steps)
    ensures Proper(UnitsOf(steps))
  {
    var known, trees := IndexList(map[], steps).Keys, TreesFor(steps);
    ListWritten(known, steps, []);
    ListClean(known, steps, []);
    ListManned(known, steps, []);
    ScopedUpTo(trees, |trees|, [], {});
  }

  /** The node of a unit, with the work that was written. */
  function WrittenNode(u: Guarded<string>): (n: Node<string>) {
    Node(u.id, u.work, ComposeAll(u.guards), u.gate, u.loop, u.max)
  }

  function WrittenNodes(units: seq<Guarded<string>>): (r: seq<Node<string>>)
    ensures |r| == |units|
    ensures forall i :: 0 <= i < |units| ==> r[i] == WrittenNode(units[i])
  {
    if units == [] then [] else [WrittenNode(units[0])] + WrittenNodes(units[1..])
  }

  function LoweredNodes(units: seq<Guarded<string>>): (r: seq<Node<string>>)
    ensures |r| == |units|
    ensures forall i :: 0 <= i < |units| ==> r[i] == NodeFor(units[i])
  {
    if units == [] then [] else [NodeFor(units[0])] + LoweredNodes(units[1..])
  }

  ghost predicate NodesOf(units: seq<Guarded<string>>, flat: seq<Node<string>>) {
    |flat| == |units| &&
    forall i :: 0 <= i < |units| ==> flat[i].id == units[i].id && flat[i].loop == units[i].loop
  }

  lemma {:induction false} LoopEarlier(units: seq<Guarded<string>>, i: nat)
    requires Proper(units) && i < |units| && units[i].loop.Some?
    ensures units[i].loop.value in UnitIds(units)[..i]
  {
    assert LoopKnown(units, i, {});
    var k :| 0 <= k < i && units[k].id == units[i].loop.value;
    assert UnitIds(units)[..i][k] == units[i].loop.value;
  }

  lemma {:induction false} NodesLinked<W(!new)>(env: Env<string, W>, units: seq<Guarded<string>>, flat: seq<Node<string>>)
    requires Proper(units) && env.order == UnitIds(units) && NodesOf(units, flat)
    ensures Linked(env, flat)
  {
    assert env.order == NodeIds(flat);
    forall i | 0 <= i < |flat| && flat[i].loop.Some?
      ensures flat[i].loop.value in env.order[..i]
    {
      LoopEarlier(units, i);
    }
    forall i, j | 0 <= i < j < |flat|
      ensures flat[i].id != flat[j].id
    {
      assert UnitIds(units)[i] != UnitIds(units)[j];
    }
  }

  lemma {:induction false} OrderIs<W(!new)>(env: Env<string, W>, units: seq<Guarded<string>>)
    requires env == EnvFor(env.sem, Budgets(units))
    ensures env.order == UnitIds(units)
  {
  }

  lemma {:induction false} LimitAt(budgets: seq<(string, int)>, i: nat)
    requires i < |budgets| && forall j, k :: 0 <= j < k < |budgets| ==> budgets[j].0 != budgets[k].0
    ensures budgets[i].0 in Limits(budgets) && Limits(budgets)[budgets[i].0] == budgets[i].1
    ensures forall id :: id in Limits(budgets) ==> exists j :: 0 <= j < |budgets| && budgets[j].0 == id
  {
    if |budgets| > 1 {
      LimitAt(budgets[1..], if i == 0 then 0 else i - 1);
      forall id | id in Limits(budgets)
        ensures exists j :: 0 <= j < |budgets| && budgets[j].0 == id
      {
        if id != budgets[0].0 {
          var j :| 0 <= j < |budgets| - 1 && budgets[1..][j].0 == id;
          assert budgets[j + 1].0 == id;
        }
      }
    } else {
      assert Limits(budgets) == map[budgets[0].0 := budgets[0].1] + Limits([]);
    }
  }

  /** A unit may loop back while it has used less than its budget. */
  lemma {:induction false} LeftIs<W(!new)>(env: Env<string, W>, units: seq<Guarded<string>>, i: nat, st: State<string, W>)
    requires Distinct(UnitIds(units)) && env == EnvFor(env.sem, Budgets(units)) && i < |units|
    ensures Left(env, st, units[i].id) > 0 <==> UsedBy(st.used, units[i].id) < units[i].max
  {
    var budgets := Budgets(units);
    forall j, k | 0 <= j < k < |budgets|
      ensures budgets[j].0 != budgets[k].0
    {
      assert UnitIds(units)[j] != UnitIds(units)[k];
    }
    LimitAt(budgets, i);
    assert env.order[i] == units[i].id;
  }

  // ---------- one turn of a list ----------

  datatype Turn<I, W> = Ends(st: State<I, W>) | Goes(pc: nat, st: State<I, W>)

  function TurnOf<I(==), W>(env: Env<I, W>, n: Node<I>, pc: nat, st: State<I, W>): (r: Turn<I, W>) {
    match Try(env, env.sem.test(n.cond, st.world), n.id, n.work, n.gate, n.loop, st)
    case Skip(after) => Goes(pc + 1, after)
    case Pass(after) => Goes(pc + 1, after)
    case Abort(after) => Ends(after)
    case Retry(target, after) => Goes(PositionOf(env.order, target), Rewind(env, target, after))
  }

  lemma {:induction false} RunTurns<I(!new), W(!new)>(env: Env<I, W>, flat: seq<Node<I>>, pc: nat, st: State<I, W>)
    requires Linked(env, flat) && pc < |flat|
    ensures var r := TurnOf(env, flat[pc], pc, st);
            if r.Ends? then RunFlat(env, flat, pc, st) == Failed(r.st)
            else r.pc <= |flat| && RunFlat(env, flat, pc, st) == RunFlat(env, flat, r.pc, r.st)
                 && (Slack(env, r.st) < Slack(env, st) || (Slack(env, r.st) == Slack(env, st) && r.pc == pc + 1))
  {
  }

  /** A turn by the verdict on the condition. */
  lemma {:induction false} TurnCases<I(!new), W(!new)>(env: Env<I, W>, n: Node<I>, pc: nat, st: State<I, W>)
    ensures var r, v := TurnOf(env, n, pc, st), env.sem.test(n.cond, st.world);
            var (world, ok) := env.sem.exec(n.id, n.work, st.world);
            var after := if v == True then st.(world := world, trace := st.trace + [n.id]) else st;
            && (v == False ==> r == Goes(pc + 1, st))
            && (v != False && !(v == True && ok && GateOpen(env.sem.test, n.gate, world)) ==>
                  if n.loop.Some? && Left(env, after, n.id) > 0
                  then r == Goes(PositionOf(env.order, n.loop.value), Rewind(env, n.loop.value, Charge(after, n.id)))
                  else r == Ends(after))
            && (v == True && ok && GateOpen(env.sem.test, n.gate, world) ==> r == Goes(pc + 1, after))
  {
  }

  /** The state in which a node that does not pass fails. */
  ghost predicate FailsIn<I(!new), W(!new)>(env: Env<I, W>, n: Node<I>, st: State<I, W>, mid: State<I, W>) {
    match env.sem.test(n.cond, st.world)
    case False => false
    case Error => mid == st
    case True =>
      var (world, ok) := env.sem.exec(n.id, n.work, st.world);
      !ok && mid == st.(world := world, trace := st.trace + [n.id])
  }

  lemma {:induction false} TurnLoops<I(!new), W(!new)>(env: Env<I, W>, n: Node<I>, pc: nat, st: State<I, W>, mid: State<I, W>)
    requires FailsIn(env, n, st, mid) && n.loop.Some? && Left(env, mid, n.id) > 0
    ensures TurnOf(env, n, pc, st) ==
            Goes(PositionOf(env.order, n.loop.value), Rewind(env, n.loop.value, Charge(mid, n.id)))
  {
    TurnCases(env, n, pc, st);
  }

  /** Nodes that are tested alike and, if they run, do the same take the same turn. */
  lemma {:induction false} TurnAlike<I(!new), W(!new)>(env: Env<I, W>, x: Node<I>, y: Node<I>, pc: nat, st: State<I, W>)
    requires x.id == y.id && x.cond == y.cond && x.gate == y.gate && x.loop == y.loop
    requires env.sem.test(x.cond, st.world) == True ==> env.sem.exec(x.id, x.work, st.world) == env.sem.exec(y.id, y.work, st.world)
    ensures TurnOf(env, x, pc, st) == TurnOf(env, y, pc, st)
  {
  }

  // ---------- runs follow routes ----------

  lemma {:induction false} UnderIs<W(!new)>(atom: (Formula, W) -> Verdict, sem: Sem<string, W>, guards: seq<string>, w: W)
    requires forall c, x :: sem.test(c, x) == EvalCond(c, atom, x)
    ensures GuardsHold(sem, guards, w) == Under(ValuationAt(atom, w), guards)
  {
    if guards != [] {
      UnderIs(atom, sem, guards[..|guards| - 1], w);
      TestedAt(guards[|guards| - 1], atom, w, ValuationAt(atom, w));
    }
  }

  /** The condition of a node is tested as the guards of its unit. */
  lemma {:induction false} ConditionIs<W(!new)>(atom: (Formula, W) -> Verdict, sem: Sem<string, W>, guards: seq<string>, w: W)
    requires AllClean(guards) && forall c, x :: sem.test(c, x) == EvalCond(c, atom, x)
    ensures sem.test(ComposeAll(guards), w) == Under(ValuationAt(atom, w), guards)
  {
    GuardsMeaning(atom, sem, guards, w);
    UnderIs(atom, sem, guards, w);
  }

  function StopAt<W>(atom: (Formula, W) -> Verdict, pc: nat, st: State<string, W>): (s: Stop) {
    Stop(pc, ValuationAt(atom, st.world), st.used)
  }

  /** A body that cannot pass does not. */
  lemma {:induction false} PassIsAble<D(!new), W(!new)>(acts: Acts<D, W>, test: Test<W>, id: string, b: Body, w: W)
    requires Perform(acts, test, id, Written(b), w).1
    ensures Able(b)
  {
  }

  lemma {:induction false} PassIsMove<W(!new)>(
    atom: (Formula, W) -> Verdict, units: seq<Guarded<string>>, pc: nat, st: State<string, W>, after: State<string, W>)
    requires pc < |units| && Under(ValuationAt(atom, st.world), units[pc].guards) == True
    requires Able(units[pc].work.body) && GateOpen(TestOf(atom), units[pc].gate, after.world) && after.used == st.used
    ensures Move(units, StopAt(atom, pc, st), StopAt(atom, pc + 1, after))
  {
    TestedAt(units[pc].gate, atom, after.world, ValuationAt(atom, after.world));
    assert GoesThrough(units, StopAt(atom, pc, st), StopAt(atom, pc + 1, after));
  }

  lemma {:induction false} BackUsed<W(!new)>(env: Env<string, W>, target: string, st: State<string, W>, id: string)
    ensures Rewind(env, target, Charge(st, id)).used == st.used[id := UsedBy(st.used, id) + 1]
  {
  }

  lemma {:induction false} LoopMoves(units: seq<Guarded<string>>, s: Stop, t: Stop)
    requires s.at < |units| && Under(s.v, units[s.at].guards) != False && LoopsBack(units, s, t)
    ensures Move(units, s, t)
  {
  }

  lemma {:induction false} LoopIsMove<W(!new)>(
    atom: (Formula, W) -> Verdict, env: Env<string, W>, units: seq<Guarded<string>>, pc: nat, st: State<string, W>, after: State<string, W>)
    requires Proper(units) && env == EnvFor(env.sem, Budgets(units)) && pc < |units|
    requires Under(ValuationAt(atom, st.world), units[pc].guards) != False && after.used == st.used
    requires units[pc].loop.Some? && Left(env, after, units[pc].id) > 0
    ensures var t := units[pc].loop.value;
            Move(units, StopAt(atom, pc, st), StopAt(atom, PositionOf(env.order, t), Rewind(env, t, Charge(after, units[pc].id))))
  {
    var u, t := units[pc], units[pc].loop.value;
    LeftIs(env, units, pc, after);
    OrderIs(env, units);
    BackUsed(env, t, after, u.id);
    LoopMoves(units, StopAt(atom, pc, st), StopAt(atom, PositionOf(env.order, t), Rewind(env, t, Charge(after, u.id))));
  }

  /** Every turn of the list as written is a move. */
  lemma {:induction false} TurnIsMove<W(!new)>(
    atom: (Formula, W) -> Verdict, env: Env<string, W>, units: seq<Guarded<string>>, pc: nat, st: State<string, W>)
    requires Proper(units) && env == EnvFor(env.sem, Budgets(units)) && env.sem.test == TestOf(atom) && pc < |units|
    requires env.sem.exec(units[pc].id, units[pc].work, st.world).1 ==> Able(units[pc].work.body)
    requires TurnOf(env, WrittenNode(units[pc]), pc, st).Goes?
    ensures var r := TurnOf(env, WrittenNode(units[pc]), pc, st);
            Move(units, StopAt(atom, pc, st), StopAt(atom, r.pc, r.st))
  {
    var u, v := units[pc], Under(ValuationAt(atom, st.world), units[pc].guards);
    var (world, ok) := env.sem.exec(u.id, u.work, st.world);
    var after := if v == True then st.(world := world, trace := st.trace + [u.id]) else st;
    ConditionIs(atom, env.sem, u.guards, st.world);
    TurnCases(env, WrittenNode(u), pc, st);
    if v == True && ok && GateOpen(env.sem.test, u.gate, world) {
      PassIsMove(atom, units, pc, st, after);
    } else if v != False {
      LoopIsMove(atom, env, units, pc, st, after);
    }
  }

  /** Where the stop is not faulty, node and unit do the same if they run. */
  lemma {:induction false} SameExec<D(!new), W(!new)>(
    atom: (Formula, W) -> Verdict, acts: Acts<D, W>, rewind: (seq<string>, W) -> W, u: Guarded<string>, w: W)
    requires u.work.Written? && Tame(Saying(ValuationAt(atom, w)), u.work.body)
    ensures DoesTheSame(Semantics(atom, acts, rewind), u, w)
  {
    SameSayings(atom, u.work.body, w);
    TameAgrees(acts, TestOf(atom), u.id, u.work.body, w);
  }

  /** Unless the stop is faulty, the two lists take the same turn, and it is a move. */
  ghost predicate Fits<W(!new)>(
    atom: (Formula, W) -> Verdict, env: Env<string, W>, units: seq<Guarded<string>>, pc: nat, st: State<string, W>)
    requires pc < |units|
  {
    var r := TurnOf(env, WrittenNode(units[pc]), pc, st);
    && (!Faulty(units, StopAt(atom, pc, st)) ==> TurnOf(env, NodeFor(units[pc]), pc, st) == r)
    && (r.Goes? ==> Move(units, StopAt(atom, pc, st), StopAt(atom, r.pc, r.st)))
  }

  lemma {:induction false} SameTurn<W(!new)>(
    atom: (Formula, W) -> Verdict, env: Env<string, W>, units: seq<Guarded<string>>, pc: nat, st: State<string, W>)
    requires Proper(units) && env.sem.test == TestOf(atom) && pc < |units| && !Faulty(units, StopAt(atom, pc, st))
    requires Tame(Saying(ValuationAt(atom, st.world)), units[pc].work.body) ==> DoesTheSame(env.sem, units[pc], st.world)
    ensures TurnOf(env, NodeFor(units[pc]), pc, st) == TurnOf(env, WrittenNode(units[pc]), pc, st)
  {
    var u := units[pc];
    ConditionIs(atom, env.sem, u.guards, st.world);
    TurnAlike(env, NodeFor(u), WrittenNode(u), pc, st);
  }

  lemma {:induction false} TurnFits<D(!new), W(!new)>(
    atom: (Formula, W) -> Verdict, acts: Acts<D, W>, rewind: (seq<string>, W) -> W, env: Env<string, W>,
    units: seq<Guarded<string>>, pc: nat, st: State<string, W>)
    requires Proper(units) && env == EnvFor(Semantics(atom, acts, rewind), Budgets(units)) && pc < |units|
    ensures Fits(atom, env, units, pc, st)
  {
    var u := units[pc];
    if Tame(Saying(ValuationAt(atom, st.world)), u.work.body) {
      SameExec(atom, acts, rewind, u, st.world);
    }
    if !Faulty(units, StopAt(atom, pc, st)) {
      SameTurn(atom, env, units, pc, st);
    }
    if TurnOf(env, WrittenNode(u), pc, st).Goes? {
      if env.sem.exec(u.id, u.work, st.world).1 {
        PassIsAble(acts, TestOf(atom), u.id, u.work.body, st.world);
      }
      TurnIsMove(atom, env, units, pc, st);
    }
  }

  lemma {:induction false} SameSayings<W(!new)>(atom: (Formula, W) -> Verdict, b: Body, w: W)
    requires Tame(Saying(ValuationAt(atom, w)), b)
    ensures Tame(SaysAt(TestOf(atom), w), b)
  {
    var v := ValuationAt(atom, w);
    forall c
      ensures SaysAt(TestOf(atom), w)(c) == Saying(v)(c)
    {
      TestedAt(c, atom, w, v);
    }
    if b.Fork? {
      forall i | 0 <= i < |b.kids|
        ensures Calm(SaysAt(TestOf(atom), w), b.kids, i)
      {
        assert Calm(Saying(v), b.kids, i);
      }
    }
  }

  lemma {:induction false} SameStep<W(!new)>(
    atom: (Formula, W) -> Verdict, env: Env<string, W>, units: seq<Guarded<string>>, pc: nat, st: State<string, W>)
    returns (r: Turn<string, W>)
    requires Linked(env, LoweredNodes(units)) && Linked(env, WrittenNodes(units)) && pc < |units|
    requires Fits(atom, env, units, pc, st) && NeverFaulty(units) && Reached(units, StopAt(atom, pc, st))
    ensures r.Ends? ==> RunFlat(env, LoweredNodes(units), pc, st) == RunFlat(env, WrittenNodes(units), pc, st)
    ensures r.Goes? ==> r.pc <= |units| && Reached(units, StopAt(atom, r.pc, r.st))
                        && RunFlat(env, LoweredNodes(units), pc, st) == RunFlat(env, LoweredNodes(units), r.pc, r.st)
                        && RunFlat(env, WrittenNodes(units), pc, st) == RunFlat(env, WrittenNodes(units), r.pc, r.st)
    ensures r.Goes? ==> Slack(env, r.st) < Slack(env, st) || (Slack(env, r.st) == Slack(env, st) && r.pc == pc + 1)
  {
    RunTurns(env, LoweredNodes(units), pc, st);
    RunTurns(env, WrittenNodes(units), pc, st);
    r := TurnOf(env, WrittenNode(units[pc]), pc, st);
    if r.Goes? {
      ReachedOn(units, StopAt(atom, pc, st), StopAt(atom, r.pc, r.st));
    }
  }

  lemma {:induction false} SameRun<W(!new)>(
    atom: (Formula, W) -> Verdict, env: Env<string, W>, units: seq<Guarded<string>>, pc: nat, st: State<string, W>)
    requires Linked(env, LoweredNodes(units)) && Linked(env, WrittenNodes(units)) && pc <= |units|
    requires forall q: nat, x :: q < |units| ==> Fits(atom, env, units, q, x)
    requires NeverFaulty(units) && Reached(units, StopAt(atom, pc, st))
    ensures RunFlat(env, LoweredNodes(units), pc, st) == RunFlat(env, WrittenNodes(units), pc, st)
    decreases Slack(env, st), |units| - pc
  {
    if pc < |units| {
      assert Fits(atom, env, units, pc, st);
      var r := SameStep(atom, env, units, pc, st);
      if r.Goes? {
        SameRun(atom, env, units, r.pc, r.st);
      }
    }
  }

  lemma {:induction false} WrittenEmits<W(!new)>(atom: (Formula, W) -> Verdict, sem: Sem<string, W>, units: seq<Guarded<string>>)
    requires UnitsClean(units) && forall c, x :: sem.test(c, x) == EvalCond(c, atom, x)
    ensures Emits(sem, WrittenNodes(units), 0, units)
  {
    var b := WrittenNodes(units);
    forall j | 0 <= j < |units|
      ensures Carries(sem, b, 0 + j, units[j])
    {
      forall w
        ensures sem.test(b[j].cond, w) == GuardsHold(sem, units[j].guards, w)
      {
        GuardsMeaning(atom, sem, units[j].guards, w);
      }
    }
  }

  /** The list as written runs as the tree. */
  lemma {:induction false} WrittenIsTree<W(!new)>(
    atom: (Formula, W) -> Verdict, sem: Sem<string, W>, steps: seq<Step>, st: State<string, W>)
    requires Authored(steps) && forall c, x :: sem.test(c, x) == EvalCond(c, atom, x)
    ensures Linked(Environment(sem, steps), WrittenNodes(UnitsOf(steps)))
    ensures RunFlat(Environment(sem, steps), WrittenNodes(UnitsOf(steps)), 0, st) ==
            RunKids(Environment(sem, steps), TreesFor(steps), 0, [], st)
  {
    var units := UnitsOf(steps);
    AuthoredProper(steps);
    OrderIs(Environment(sem, steps), units);
    NodesLinked(Environment(sem, steps), units, WrittenNodes(units));
    WrittenEmits(atom, sem, units);
    TreeIsList(atom, sem, steps, WrittenNodes(units), st);
  }

  /** The lowered tasks are the lowered nodes of the units, in a chain. */
  lemma {:induction false} TasksAre<W(!new)>(env: Env<string, W>, steps: seq<Step>)
    requires Authored(steps) && LowerWorkflow(steps).Ok? && env == Environment(env.sem, steps)
    ensures var tasks := TasksOf(LowerWorkflow(steps).value);
            Chain(env, tasks) && TaskNodes(tasks) == LoweredNodes(UnitsOf(steps))
  {
    LoweredTasks(steps);
    LoweredChain(env, steps);
  }

  lemma {:induction false} LoweredIsTree<D(!new), W(!new)>(
    steps: seq<Step>, atom: (Formula, W) -> Verdict, acts: Acts<D, W>, rewind: (seq<string>, W) -> W, st: State<string, W>)
    requires Authored(steps) && NeverFaulty(UnitsOf(steps)) && st.used == map[]
    ensures var env := Environment(Semantics(atom, acts, rewind), steps);
            && Linked(env, LoweredNodes(UnitsOf(steps)))
            && RunFlat(env, LoweredNodes(UnitsOf(steps)), 0, st) == RunKids(env, TreesFor(steps), 0, [], st)
  {
    var env, units := Environment(Semantics(atom, acts, rewind), steps), UnitsOf(steps);
    WrittenIsTree(atom, env.sem, steps, st);
    AuthoredProper(steps);
    OrderIs(env, units);
    NodesLinked(env, units, LoweredNodes(units));
    forall q: nat, x | q < |units|
      ensures Fits(atom, env, units, q, x)
    {
      TurnFits(atom, acts, rewind, env, units, q, x);
    }
    ReachedFirst(units, ValuationAt(atom, st.world));
    SameRun(atom, env, units, 0, st);
  }

  /**
   Whatever steps and children do: where no route is faulty, a run of the engine that comes to
   rest has ended as the authored tree does.
   */
  lemma {:induction false} NeverFaultyPreserves<D(!new), W(!new)>(
    steps: seq<Step>, atom: (Formula, W) -> Verdict, acts: Acts<D, W>, rewind: (seq<string>, W) -> W,
    world: W, run: seq<Engine<string, W>>)
    requires Authored(steps) && LowerWorkflow(steps).Ok? && NeverFaulty(UnitsOf(steps))
    requires Run(Environment(Semantics(atom, acts, rewind), steps), TasksOf(LowerWorkflow(steps).value), world, run)
    ensures var env := Environment(Semantics(atom, acts, rewind), steps);
            Quiescent(env, TasksOf(LowerWorkflow(steps).value), run[|run| - 1]) ==>
              EndOf(run[|run| - 1]) == RunKids(env, TreesFor(steps), 0, [], State(world, map[], []))
  {
    var env := Environment(Semantics(atom, acts, rewind), steps);
    TasksAre(env, steps);
    EveryScheduleIsTheListRun(env, TasksOf(LowerWorkflow(steps).value), world, run);
    LoweredIsTree(steps, atom, acts, rewind, State(world, map[], []));
  }
}
