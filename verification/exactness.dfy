/**
 When lowering preserves meaning, exactly. The engine runs the children of a node without
 looking at their conditions, gates and restarts; a workflow loses its meaning exactly when a
 route leads to a unit that runs there and has such a child. From the route follows a run that
 tells: comparisons, outcomes and items are scripted so that it goes along the route.
 */
module Exactness {
  import opened Wrappers
  import opened Text
  import opened Expr
  import opened Steps
  import opened Reading
  import opened Bodies
  import opened Telling
  import opened Lowering
  import opened Meaning
  import opened Engine
  import opened LoweringMeaning
  import opened Preservation
  import opened Routes
  import Idempotence
  import FrontEnd

  // ---------- logs only grow ----------

  lemma {:induction false} Regroup<T>(a: seq<T>, b: seq<T>, c: seq<T>)
    requires c != []
    ensures a + (b + c) == a + b + c && a + b <= a + b + c && (a + b + c)[|a + b|] == c[0]
  {
  }

  ghost predicate Keeps<I(!new)>(env: Env<I, Log>) {
    && (forall id, work, w :: w <= env.sem.exec(id, work, w).0)
    && (forall ids, w :: w <= env.sem.rewind(ids, w))
  }

  lemma {:induction false} PrefixTrans<T>(a: seq<T>, b: seq<T>, c: seq<T>)
    requires a <= b <= c
    ensures a <= c
  {
  }

  lemma {:induction false} TurnKeeps<I(!new)>(env: Env<I, Log>, n: Node<I>, pc: nat, st: State<I, Log>)
    requires Keeps(env)
    ensures st.world <= TurnOf(env, n, pc, st).st.world
    ensures env.sem.test(n.cond, st.world) == True ==> env.sem.exec(n.id, n.work, st.world).0 <= TurnOf(env, n, pc, st).st.world
  {
    var w, x := st.world, env.sem.exec(n.id, n.work, st.world).0;
    assert w <= x;
    TurnCases(env, n, pc, st);
    if n.loop.Some? {
      var ids := env.order[PositionOf(env.order, n.loop.value)..];
      assert x <= env.sem.rewind(ids, x) && w <= env.sem.rewind(ids, w);
      PrefixTrans(w, x, env.sem.rewind(ids, x));
    }
  }

  /** Nothing is ever removed from the log. */
  lemma {:induction false} LogGrows<I(!new)>(env: Env<I, Log>, flat: seq<Node<I>>, pc: nat, st: State<I, Log>)
    requires Linked(env, flat) && pc <= |flat| && Keeps(env)
    ensures st.world <= RunFlat(env, flat, pc, st).st.world
    decreases Slack(env, st), |flat| - pc
  {
    if pc < |flat| {
      var r := TurnOf(env, flat[pc], pc, st);
      RunTurns(env, flat, pc, st);
      TurnKeeps(env, flat[pc], pc, st);
      if r.Goes? {
        LogGrows(env, flat, r.pc, r.st);
        PrefixTrans(st.world, r.st.world, RunFlat(env, flat, pc, st).st.world);
      }
    }
  }

  /** ... so the entry of a step that ran is there in the end. */
  lemma {:induction false} EntryStays<I(!new)>(env: Env<I, Log>, flat: seq<Node<I>>, pc: nat, st: State<I, Log>)
    requires Linked(env, flat) && pc < |flat| && Keeps(env)
    requires env.sem.test(flat[pc].cond, st.world) == True
    ensures env.sem.exec(flat[pc].id, flat[pc].work, st.world).0 <= RunFlat(env, flat, pc, st).st.world
  {
    var r := TurnOf(env, flat[pc], pc, st);
    RunTurns(env, flat, pc, st);
    TurnKeeps(env, flat[pc], pc, st);
    if r.Goes? {
      LogGrows(env, flat, r.pc, r.st);
      PrefixTrans(env.sem.exec(flat[pc].id, flat[pc].work, st.world).0, r.st.world, RunFlat(env, flat, pc, st).st.world);
    }
  }

  lemma {:induction false} EndsDiffer(p: Log, q: Log, w: Log, x: Log, y: Log)
    requires Differ(p, q, w) && p <= x && q <= y
    ensures x != y
  {
    assert x[|w|] == p[|w|] && y[|w|] == q[|w|];
  }

  // ---------- a script from a route ----------

  /** What the script says while a run goes from s to t. */
  function CuesOf(units: seq<Guarded<string>>, s: Stop, t: Stop): (r: seq<Cue>)
    requires s.at < |units|
  {
    match Under(s.v, units[s.at].guards)
    case False => []
    case True => if t.used == s.used then [Cue(s.v, true, 1)] else [Cue(s.v, false, 1), Cue(s.v, true, 1)]
    case Error => [Cue(s.v, true, 1)]
  }

  ghost function ScriptOf(units: seq<Guarded<string>>, route: seq<Stop>): (r: seq<Cue>)
    requires route != [] && Moves(units, route) && route[|route| - 1].at < |units|
    ensures r != [] && r[0].v == route[0].v
  {
    if |route| == 1 then [Showing(route[0].v, units[route[0].at].work.body)]
    else
      MovesRest(units, route);
      CuesOf(units, route[0], route[1]) + ScriptOf(units, route[1..])
  }

  lemma {:induction false} MovesRest(units: seq<Guarded<string>>, route: seq<Stop>)
    requires |route| > 1 && Moves(units, route)
    ensures Moves(units, route[1..]) && Move(units, route[0], route[1])
  {
    var rest := route[1..];
    forall i | 0 <= i < |rest| - 1
      ensures Move(units, rest[i], rest[i + 1])
    {
      var k := i + 1;
      assert Move(units, route[k], route[k + 1]);
    }
    assert Move(units, route[0], route[0 + 1]);
  }

  function AtomBy(script: seq<Cue>): (atom: (Formula, Log) -> Verdict) {
    (e, w) => CueAt(script, w).v(e)
  }

  function Backwards(): (rewind: (seq<string>, Log) -> Log) {
    (ids, w) => w + [Back]
  }

  function SemBy(script: seq<Cue>, redo: Redo): (sem: Sem<string, Log>) {
    Semantics(AtomBy(script), Play(script, redo), Backwards())
  }

  lemma {:induction false} TestsBy(script: seq<Cue>)
    ensures Scripted(script, TestOf(AtomBy(script)))
  {
    forall c: string, w: Log
      ensures TestOf(AtomBy(script))(c, w) == Says(CueAt(script, w).v, c)
    {
      TestedAt(c, AtomBy(script), w, CueAt(script, w).v);
    }
  }

  lemma {:induction false} PerformGrows(script: seq<Cue>, redo: Redo, test: Test<Log>, id: string, work: Work, w: Log)
    ensures w <= Perform(Play(script, redo), test, id, work, w).0
  {
    if work.Written? && work.body.Fork? {
      var acts, kids := Play(script, redo), work.body.kids;
      RoundsGrow(script, redo, test, id, work.body.join, kids, WrittenKids(acts, test, kids, w), Budget(kids), w);
    }
  }

  lemma {:induction false} ScriptKeeps(script: seq<Cue>, redo: Redo, env: Env<string, Log>)
    requires env.sem == SemBy(script, redo)
    ensures Keeps(env)
  {
    forall id: string, work: Work, w: Log
      ensures w <= env.sem.exec(id, work, w).0
    {
      PerformGrows(script, redo, TestOf(AtomBy(script)), id, work, w);
    }
  }

  // ---------- the run along the route ----------

  /** The run stands at s: its log is as long as the script so far, and nothing is being looked at. */
  ghost predicate Stands(script: seq<Cue>, pre: seq<Cue>, s: Stop, st: State<string, Log>) {
    && pre <= script && |pre| < |script| && |st.world| == |pre|
    && (st.world != [] ==> !st.world[|st.world| - 1].Peeked?)
    && st.used == s.used && script[|pre|].v == s.v
  }

  lemma {:induction false} CueHere(script: seq<Cue>, pre: seq<Cue>, s: Stop, st: State<string, Log>)
    requires Stands(script, pre, s, st)
    ensures CueAt(script, st.world) == script[|pre|]
  {
  }

  /** The condition of the unit, where the run stands. */
  lemma {:induction false} StandsUnder(script: seq<Cue>, redo: Redo, pre: seq<Cue>, s: Stop, st: State<string, Log>, guards: seq<string>)
    requires Stands(script, pre, s, st) && AllClean(guards)
    ensures SemBy(script, redo).test(ComposeAll(guards), st.world) == Under(s.v, guards)
  {
    var atom, w := AtomBy(script), st.world;
    CueHere(script, pre, s, st);
    ConditionIs(atom, SemBy(script, redo), guards, w);
    SameUnder(ValuationAt(atom, w), s.v, guards);
  }

  lemma {:induction false} SameUnder(v: Valuation, u: Valuation, guards: seq<string>)
    requires forall e :: v(e) == u(e)
    ensures Under(v, guards) == Under(u, guards)
  {
    if guards != [] {
      var g := guards[|guards| - 1];
      SameUnder(v, u, guards[..|guards| - 1]);
      TestedAt(g, (e: Formula, w: ()) => v(e), (), u);
    }
  }

  lemma {:induction false} StandsNext(script: seq<Cue>, pre: seq<Cue>, cues: seq<Cue>, t: Stop, st: State<string, Log>, w: Log, more: Log)
    requires pre + cues <= script && |pre + cues| < |script| && script[|pre + cues|].v == t.v
    requires |w| == |pre| && |more| == |cues| > 0 && !more[|more| - 1].Peeked? && st.world == w + more && st.used == t.used
    ensures Stands(script, pre + cues, t, st)
  {
    assert st.world[|st.world| - 1] == more[|more| - 1];
  }

  /** What the node of a tame unit does where the run stands. */
  lemma {:induction false} ExecTold(script: seq<Cue>, redo: Redo, pre: seq<Cue>, s: Stop, st: State<string, Log>, u: Guarded<string>)
    returns (e: Entry)
    requires Stands(script, pre, s, st) && script[|pre|].items == 1
    requires u.work.Written? && Manned(u.work.body) && Tame(Saying(s.v), u.work.body)
    ensures !e.Peeked? && SemBy(script, redo).exec(u.id, u.work, st.world) == (st.world + [e], script[|pre|].ok && Able(u.work.body))
    ensures DoesTheSame(SemBy(script, redo), u, st.world)
  {
    TestsBy(script);
    CueHere(script, pre, s, st);
    e := TameTold(script, redo, TestOf(AtomBy(script)), u.id, u.work.body, st.world);
  }

  lemma {:induction false} GateAfter(script: seq<Cue>, gate: string, w: Log, e: Entry, v: Valuation)
    requires |w| + 1 < |script| && script[|w| + 1].v == v && !e.Peeked? && (gate == "" || Says(v, gate) == False)
    ensures GateOpen(TestOf(AtomBy(script)), gate, w + [e])
  {
    var x := w + [e];
    assert x[|x| - 1] == e && CueAt(script, x) == script[|w| + 1];
    TestsBy(script);
  }

  lemma {:induction false} PassTurns(
    env: Env<string, Log>, units: seq<Guarded<string>>, s: Stop, t: Stop, st: State<string, Log>, e: Entry)
    returns (after: State<string, Log>)
    requires s.at < |units| && GoesThrough(units, s, t) && st.used == s.used
    requires env.sem.test(WrittenNode(units[s.at]).cond, st.world) == True
    requires env.sem.exec(units[s.at].id, units[s.at].work, st.world) == (st.world + [e], true)
    requires GateOpen(env.sem.test, units[s.at].gate, st.world + [e])
    ensures TurnOf(env, WrittenNode(units[s.at]), s.at, st) == Goes(t.at, after)
    ensures after.world == st.world + [e] && after.used == t.used
  {
    var u := units[s.at];
    TurnCases(env, WrittenNode(u), s.at, st);
    after := st.(world := st.world + [e], trace := st.trace + [u.id]);
  }

  lemma {:induction false} LoopedBack(env: Env<string, Log>, target: string, mid: State<string, Log>, id: string)
    returns (after: State<string, Log>)
    requires env.sem.rewind == Backwards()
    ensures after == Rewind(env, target, Charge(mid, id)) && after.world == mid.world + [Back]
  {
    after := Rewind(env, target, Charge(mid, id));
  }

  lemma {:induction false} MayTurn(env: Env<string, Log>, units: seq<Guarded<string>>, s: Stop, t: Stop, mid: State<string, Log>)
    requires Distinct(UnitIds(units)) && env == EnvFor(env.sem, Budgets(units)) && s.at < |units|
    requires LoopsBack(units, s, t) && mid.used == s.used
    ensures Left(env, mid, units[s.at].id) > 0 && PositionOf(env.order, units[s.at].loop.value) == t.at
    ensures t.used == mid.used[units[s.at].id := UsedBy(mid.used, units[s.at].id) + 1]
  {
    LeftIs(env, units, s.at, mid);
    OrderIs(env, units);
  }

  lemma {:induction false} TurnsBack(env: Env<string, Log>, n: Node<string>, pc: nat, st: State<string, Log>, mid: State<string, Log>)
    returns (after: State<string, Log>)
    requires env.sem.rewind == Backwards() && FailsIn(env, n, st, mid) && n.loop.Some? && Left(env, mid, n.id) > 0
    ensures TurnOf(env, n, pc, st) == Goes(PositionOf(env.order, n.loop.value), after)
    ensures after.world == mid.world + [Back] && after.used == mid.used[n.id := UsedBy(mid.used, n.id) + 1]
  {
    TurnLoops(env, n, pc, st, mid);
    BackUsed(env, n.loop.value, mid, n.id);
    after := LoopedBack(env, n.loop.value, mid, n.id);
  }

  lemma {:induction false} LoopTurns(
    env: Env<string, Log>, units: seq<Guarded<string>>, s: Stop, t: Stop, st: State<string, Log>, mid: State<string, Log>)
    returns (after: State<string, Log>)
    requires Distinct(UnitIds(units)) && env == EnvFor(env.sem, Budgets(units)) && env.sem.rewind == Backwards() && s.at < |units|
    requires LoopsBack(units, s, t) && mid.used == s.used && FailsIn(env, WrittenNode(units[s.at]), st, mid)
    ensures TurnOf(env, WrittenNode(units[s.at]), s.at, st) == Goes(t.at, after)
    ensures after.world == mid.world + [Back] && after.used == t.used
  {
    var u := units[s.at];
    MayTurn(env, units, s, t, mid);
    after := TurnsBack(env, WrittenNode(u), s.at, st, mid);
  }

  /** The script goes on after the move from s to t. */
  ghost predicate GoesOn(script: seq<Cue>, units: seq<Guarded<string>>, pre: seq<Cue>, s: Stop, t: Stop)
    requires s.at < |units|
  {
    var cues := CuesOf(units, s, t);
    pre + cues <= script && |pre + cues| < |script| && script[|pre + cues|].v == t.v
  }

  /** The run stands at s, its script goes on to t, and nodes are tested by the script. */
  ghost predicate Poised(
    script: seq<Cue>, env: Env<string, Log>, units: seq<Guarded<string>>, pre: seq<Cue>, s: Stop, t: Stop, st: State<string, Log>) {
    && Proper(units) && env == EnvFor(env.sem, Budgets(units))
    && env.sem.rewind == Backwards() && env.sem.test == TestOf(AtomBy(script))
    && Stands(script, pre, s, st) && Move(units, s, t) && GoesOn(script, units, pre, s, t)
    && env.sem.test(WrittenNode(units[s.at]).cond, st.world) == Under(s.v, units[s.at].guards)
  }

  lemma {:induction false} SkipMoves(
    script: seq<Cue>, env: Env<string, Log>, units: seq<Guarded<string>>, pre: seq<Cue>, s: Stop, t: Stop, st: State<string, Log>)
    requires Poised(script, env, units, pre, s, t, st) && Under(s.v, units[s.at].guards) == False
    ensures TurnOf(env, WrittenNode(units[s.at]), s.at, st) == Goes(t.at, st)
    ensures Stands(script, pre + CuesOf(units, s, t), t, st)
  {
    TurnCases(env, WrittenNode(units[s.at]), s.at, st);
    assert pre + CuesOf(units, s, t) == pre;
  }

  lemma {:induction false} BackMoves(
    script: seq<Cue>, env: Env<string, Log>, units: seq<Guarded<string>>, pre: seq<Cue>, cues: seq<Cue>, s: Stop, t: Stop,
    st: State<string, Log>, mid: State<string, Log>, more: Log) returns (after: State<string, Log>)
    requires Proper(units) && env == EnvFor(env.sem, Budgets(units)) && env.sem.rewind == Backwards()
    requires s.at < |units| && LoopsBack(units, s, t) && Stands(script, pre, s, st)
    requires FailsIn(env, WrittenNode(units[s.at]), st, mid) && mid.used == s.used && mid.world == st.world + more
    requires |more| + 1 == |cues| && pre + cues <= script && |pre + cues| < |script| && script[|pre + cues|].v == t.v
    ensures TurnOf(env, WrittenNode(units[s.at]), s.at, st) == Goes(t.at, after)
    ensures Stands(script, pre + cues, t, after)
  {
    after := LoopTurns(env, units, s, t, st, mid);
    Regroup(st.world, more, [Back]);
    StandsNext(script, pre, cues, t, after, st.world, more + [Back]);
  }

  lemma {:induction false} PassMoves(
    script: seq<Cue>, env: Env<string, Log>, units: seq<Guarded<string>>, pre: seq<Cue>, cue: Cue, s: Stop, t: Stop,
    st: State<string, Log>, e: Entry) returns (after: State<string, Log>)
    requires env.sem.test == TestOf(AtomBy(script)) && s.at < |units| && GoesThrough(units, s, t) && Stands(script, pre, s, st)
    requires env.sem.test(WrittenNode(units[s.at]).cond, st.world) == True && !e.Peeked?
    requires env.sem.exec(units[s.at].id, units[s.at].work, st.world) == (st.world + [e], true)
    requires pre + [cue] <= script && |pre + [cue]| < |script| && script[|pre + [cue]|].v == t.v
    ensures TurnOf(env, WrittenNode(units[s.at]), s.at, st) == Goes(t.at, after)
    ensures Stands(script, pre + [cue], t, after)
  {
    GateAfter(script, units[s.at].gate, st.world, e, t.v);
    after := PassTurns(env, units, s, t, st, e);
    StandsNext(script, pre, [cue], t, after, st.world, [e]);
  }

  /** A tame unit that runs succeeds as the move wants. */
  lemma {:induction false} RunsAsTold(
    script: seq<Cue>, redo: Redo, units: seq<Guarded<string>>, pre: seq<Cue>, s: Stop, t: Stop, st: State<string, Log>) returns (e: Entry)
    requires Proper(units) && Stands(script, pre, s, st) && Move(units, s, t) && !Faulty(units, s)
    requires GoesOn(script, units, pre, s, t) && Under(s.v, units[s.at].guards) == True
    ensures !e.Peeked?
    ensures SemBy(script, redo).exec(units[s.at].id, units[s.at].work, st.world) == (st.world + [e], t.used == s.used)
    ensures DoesTheSame(SemBy(script, redo), units[s.at], st.world)
  {
    assert script[|pre|] == (pre + CuesOf(units, s, t))[|pre|];
    e := ExecTold(script, redo, pre, s, st, units[s.at]);
  }

  lemma {:induction false} SetMoves(
    script: seq<Cue>, env: Env<string, Log>, units: seq<Guarded<string>>, pre: seq<Cue>, s: Stop, t: Stop, st: State<string, Log>, e: Entry)
    returns (after: State<string, Log>)
    requires Poised(script, env, units, pre, s, t, st) && !e.Peeked?
    requires Under(s.v, units[s.at].guards) == True ==>
               env.sem.exec(units[s.at].id, units[s.at].work, st.world) == (st.world + [e], t.used == s.used)
    ensures TurnOf(env, WrittenNode(units[s.at]), s.at, st) == Goes(t.at, after)
    ensures Stands(script, pre + CuesOf(units, s, t), t, after)
  {
    match Under(s.v, units[s.at].guards)
    case False =>
      SkipMoves(script, env, units, pre, s, t, st);
      after := st;
    case Error =>
      assert st.world == st.world + [];
      after := BackMoves(script, env, units, pre, CuesOf(units, s, t), s, t, st, st, []);
    case True =>
      if t.used == s.used {
        after := PassMoves(script, env, units, pre, Cue(s.v, true, 1), s, t, st, e);
      } else {
        var mid := st.(world := st.world + [e], trace := st.trace + [units[s.at].id]);
        after := BackMoves(script, env, units, pre, CuesOf(units, s, t), s, t, st, mid, [e]);
      }
  }

  /** The run takes the move: the unit goes from s to t, as written and as lowered. */
  lemma {:induction false} MoveIsTurn(
    script: seq<Cue>, redo: Redo, env: Env<string, Log>, units: seq<Guarded<string>>, pre: seq<Cue>, s: Stop, t: Stop, st: State<string, Log>)
    returns (after: State<string, Log>)
    requires Proper(units) && env == EnvFor(SemBy(script, redo), Budgets(units))
    requires Stands(script, pre, s, st) && Move(units, s, t) && !Faulty(units, s) && GoesOn(script, units, pre, s, t)
    ensures TurnOf(env, WrittenNode(units[s.at]), s.at, st) == Goes(t.at, after)
    ensures TurnOf(env, NodeFor(units[s.at]), s.at, st) == Goes(t.at, after)
    ensures Stands(script, pre + CuesOf(units, s, t), t, after)
  {
    var u, e := units[s.at], Back;
    StandsUnder(script, redo, pre, s, st, u.guards);
    if Under(s.v, u.guards) == True {
      e := RunsAsTold(script, redo, units, pre, s, t, st);
    }
    after := SetMoves(script, env, units, pre, s, t, st, e);
    TurnAlike(env, NodeFor(u), WrittenNode(u), s.at, st);
  }

  /** At the faulty stop the two lists leave different entries. */
  lemma {:induction false} FaultTells(
    script: seq<Cue>, redo: Redo, env: Env<string, Log>, units: seq<Guarded<string>>, pre: seq<Cue>, s: Stop, st: State<string, Log>)
    requires Proper(units) && env.sem == SemBy(script, redo) && Stands(script, pre, s, st) && Faulty(units, s)
    requires script[|pre|] == Showing(s.v, units[s.at].work.body)
    ensures env.sem.test(WrittenNode(units[s.at]).cond, st.world) == True
    ensures Differ(env.sem.exec(units[s.at].id, NodeFor(units[s.at]).work, st.world).0,
                   env.sem.exec(units[s.at].id, units[s.at].work, st.world).0, st.world)
  {
    var u := units[s.at];
    StandsUnder(script, redo, pre, s, st, u.guards);
    CueHere(script, pre, s, st);
    TestsBy(script);
    UntameShows(script, redo, TestOf(AtomBy(script)), u.id, u.work.body, st.world);
  }

  lemma {:induction false} FaultEnds(
    script: seq<Cue>, redo: Redo, env: Env<string, Log>, units: seq<Guarded<string>>, pre: seq<Cue>, s: Stop, st: State<string, Log>)
    requires Proper(units) && env.sem == SemBy(script, redo) && Keeps(env)
    requires Linked(env, LoweredNodes(units)) && Linked(env, WrittenNodes(units))
    requires Stands(script, pre, s, st) && Faulty(units, s) && script[|pre|] == Showing(s.v, units[s.at].work.body)
    ensures RunFlat(env, LoweredNodes(units), s.at, st).st.world != RunFlat(env, WrittenNodes(units), s.at, st).st.world
  {
    var u, x, y := units[s.at], RunFlat(env, LoweredNodes(units), s.at, st), RunFlat(env, WrittenNodes(units), s.at, st);
    FaultTells(script, redo, env, units, pre, s, st);
    EntryStays(env, LoweredNodes(units), s.at, st);
    EntryStays(env, WrittenNodes(units), s.at, st);
    EndsDiffer(env.sem.exec(u.id, NodeFor(u).work, st.world).0, env.sem.exec(u.id, u.work, st.world).0, st.world, x.st.world, y.st.world);
  }

  /** A route to a fault, with none before. */
  ghost predicate ToFault(units: seq<Guarded<string>>, route: seq<Stop>) {
    && route != [] && Moves(units, route) && Faulty(units, route[|route| - 1])
    && forall i :: 0 <= i < |route| - 1 ==> !Faulty(units, route[i])
  }

  lemma {:induction false} ToFaultRest(units: seq<Guarded<string>>, route: seq<Stop>)
    requires ToFault(units, route) && |route| > 1
    ensures ToFault(units, route[1..]) && Move(units, route[0], route[1]) && !Faulty(units, route[0])
  {
    MovesRest(units, route);
    assert forall i :: 0 <= i < |route| - 1 ==> route[1..][i] == route[i + 1];
  }

  /** The script of a route begins with the cues of its first move. */
  lemma {:induction false} ScriptGoesOn(units: seq<Guarded<string>>, pre: seq<Cue>, route: seq<Stop>)
    requires ToFault(units, route) && |route| > 1
    ensures ToFault(units, route[1..])
    ensures pre + ScriptOf(units, route) == pre + CuesOf(units, route[0], route[1]) + ScriptOf(units, route[1..])
    ensures GoesOn(pre + ScriptOf(units, route), units, pre, route[0], route[1])
  {
    ToFaultRest(units, route);
    Regroup(pre, CuesOf(units, route[0], route[1]), ScriptOf(units, route[1..]));
  }

  /** The run goes along the route, in both lists, and ends differently. */
  lemma {:induction false} Follow(
    script: seq<Cue>, redo: Redo, env: Env<string, Log>, units: seq<Guarded<string>>, pre: seq<Cue>, route: seq<Stop>, st: State<string, Log>)
    requires Proper(units) && env == EnvFor(SemBy(script, redo), Budgets(units)) && Keeps(env)
    requires Linked(env, LoweredNodes(units)) && Linked(env, WrittenNodes(units))
    requires ToFault(units, route) && script == pre + ScriptOf(units, route) && Stands(script, pre, route[0], st)
    requires route[0].at <= |units|
    ensures RunFlat(env, LoweredNodes(units), route[0].at, st).st.world != RunFlat(env, WrittenNodes(units), route[0].at, st).st.world
    decreases |route|
  {
    var s := route[0];
    if |route| == 1 {
      assert script[|pre|] == ScriptOf(units, route)[0];
      FaultEnds(script, redo, env, units, pre, s, st);
    } else {
      ScriptGoesOn(units, pre, route);
      ToFaultRest(units, route);
      var after := MoveIsTurn(script, redo, env, units, pre, s, route[1], st);
      RunTurns(env, LoweredNodes(units), s.at, st);
      RunTurns(env, WrittenNodes(units), s.at, st);
      Follow(script, redo, env, units, pre + CuesOf(units, s, route[1]), route[1..], after);
    }
  }

  lemma {:induction false} MovesPart(units: seq<Guarded<string>>, route: seq<Stop>, n: nat)
    requires n <= |route| && Moves(units, route)
    ensures Moves(units, route[..n])
  {
    var part := route[..n];
    forall i | 0 <= i < |part| - 1
      ensures Move(units, part[i], part[i + 1])
    {
      assert Move(units, route[i], route[i + 1]);
    }
  }

  lemma {:induction false} FirstFault(units: seq<Guarded<string>>, route: seq<Stop>) returns (short: seq<Stop>)
    requires route != [] && Moves(units, route) && Faulty(units, route[|route| - 1])
    ensures ToFault(units, short) && short[0] == route[0]
  {
    if k :| 0 <= k < |route| - 1 && Faulty(units, route[k]) {
      var part := route[..k + 1];
      MovesPart(units, route, k + 1);
      assert |part| == k + 1 && part[k] == route[k] && part[0] == route[0];
      short := FirstFault(units, part);
    } else {
      short := route;
    }
  }

  // ---------- the exact condition ----------

  /** The engine ends as the tree does, in this run. */
  ghost predicate Agreed(
    steps: seq<Step>, atom: (Formula, Log) -> Verdict, acts: Acts<(), Log>, rewind: (seq<string>, Log) -> Log,
    world: Log, run: seq<Engine<string, Log>>)
    requires LowerWorkflow(steps).Ok?
  {
    var env, tasks := Environment(Semantics(atom, acts, rewind), steps), TasksOf(LowerWorkflow(steps).value);
    Run(env, tasks, world, run) && Quiescent(env, tasks, run[|run| - 1]) ==>
      EndOf(run[|run| - 1]) == RunKids(env, TreesFor(steps), 0, [], State(world, map[], []))
  }

  /**
   ... whatever steps and children do, when a restart takes along the given siblings. Memory is
   a log here; for memory of any kind the if-half of the theorem is NeverFaultyPreserves.
   */
  ghost predicate Preserved(steps: seq<Step>, redo: Redo)
    requires LowerWorkflow(steps).Ok?
  {
    forall atom, acts: Acts<(), Log>, rewind, world, run :: acts.redo == redo ==> Agreed(steps, atom, acts, rewind, world, run)
  }

  /** The lowered list and the tree end differently on the script of a route to a fault. */
  lemma {:induction false} TreeEndsOtherwise(steps: seq<Step>, redo: Redo, route: seq<Stop>)
    requires Authored(steps) && Route(UnitsOf(steps), route) && ToFault(UnitsOf(steps), route)
    ensures var env, st := Environment(SemBy(ScriptOf(UnitsOf(steps), route), redo), steps), State([], map[], []);
            && Linked(env, LoweredNodes(UnitsOf(steps)))
            && RunFlat(env, LoweredNodes(UnitsOf(steps)), 0, st) != RunKids(env, TreesFor(steps), 0, [], st)
  {
    var units := UnitsOf(steps);
    var script := ScriptOf(units, route);
    var env, st := Environment(SemBy(script, redo), steps), State([], map[], []);
    AuthoredProper(steps);
    OrderIs(env, units);
    NodesLinked(env, units, LoweredNodes(units));
    ScriptKeeps(script, redo, env);
    WrittenIsTree(AtomBy(script), env.sem, steps, st);
    assert [] + script == script;
    Follow(script, redo, env, units, [], route, st);
  }

  lemma {:induction false} NotPreserved(steps: seq<Step>, redo: Redo, s: Stop)
    requires Authored(steps) && LowerWorkflow(steps).Ok? && Reached(UnitsOf(steps), s) && Faulty(UnitsOf(steps), s)
    ensures !Preserved(steps, redo)
  {
    var units, tasks := UnitsOf(steps), TasksOf(LowerWorkflow(steps).value);
    var long :| Route(units, long) && long[|long| - 1] == s;
    var route := FirstFault(units, long);
    var script := ScriptOf(units, route);
    var env := Environment(SemBy(script, redo), steps);
    TreeEndsOtherwise(steps, redo, route);
    TasksAre(env, steps);
    var run := RunToRest(env, tasks, [], [Start(tasks, [])]);
    EveryScheduleIsTheListRun(env, tasks, [], run);
    assert Play(script, redo).redo == redo && !Agreed(steps, AtomBy(script), Play(script, redo), Backwards(), [], run);
  }

  /**
   Lowering preserves the meaning of a workflow, whatever its steps and children do, exactly
   when no route stops at a unit that runs there and has a child whose guard does not hold
   there, a child with a gate or with a restart from a sibling, or a for_each body that is
   not one step.
   */
  lemma {:induction false} PreservedExactly(steps: seq<Step>, redo: Redo)
    requires Authored(steps) && LowerWorkflow(steps).Ok?
    ensures Preserved(steps, redo) <==> NeverFaulty(UnitsOf(steps))
  {
    if NeverFaulty(UnitsOf(steps)) {
      forall atom, acts: Acts<(), Log>, rewind, world, run | acts.redo == redo
        ensures Agreed(steps, atom, acts, rewind, world, run)
      {
        var env, tasks := Environment(Semantics(atom, acts, rewind), steps), TasksOf(LowerWorkflow(steps).value);
        if Run(env, tasks, world, run) {
          NeverFaultyPreserves(steps, atom, acts, rewind, world, run);
        }
      }
    } else {
      var s :| Reached(UnitsOf(steps), s) && Faulty(UnitsOf(steps), s);
      NotPreserved(steps, redo, s);
    }
  }

  // ---------- two conditions that can be read off the workflow ----------

  predicate AllBlank(guards: seq<string>) {
    forall i :: 0 <= i < |guards| ==> guards[i] == ""
  }

  /** The unit runs whenever it is reached and can pass. */
  predicate Open(u: Guarded<string>) {
    u.gate == "" && AllBlank(u.guards) && Able(u.work.body)
  }

  ghost function FirstUnfaithful(units: seq<Guarded<string>>): (k: nat)
    ensures k <= |units|
    ensures k < |units| ==> !Faithful(units[k].work.body)
    ensures forall j :: 0 <= j < k ==> Faithful(units[j].work.body)
  {
    if units == [] || !Faithful(units[0].work.body) then 0 else 1 + FirstUnfaithful(units[1..])
  }

  lemma {:induction false} BlankHolds(v: Valuation, guards: seq<string>)
    requires AllBlank(guards)
    ensures Under(v, guards) == True
  {
    if guards != [] {
      BlankHolds(v, guards[..|guards| - 1]);
    }
  }

  lemma {:induction false} OpenReached(units: seq<Guarded<string>>, k: nat, v: Valuation)
    requires k <= |units| && forall j :: 0 <= j < k ==> Open(units[j])
    ensures Reached(units, Stop(k, v, map[]))
  {
    if k == 0 {
      ReachedFirst(units, v);
    } else {
      OpenReached(units, k - 1, v);
      BlankHolds(v, units[k - 1].guards);
      ReachedOn(units, Stop(k - 1, v, map[]), Stop(k, v, map[]));
    }
  }

  lemma {:induction false} FaithfulNeverFaulty(units: seq<Guarded<string>>)
    requires UnitsFaithful(units)
    ensures NeverFaulty(units)
  {
    forall s: Stop | s.at < |units|
      ensures !Faulty(units, s)
    {
      FaithfulIsTame(Saying(s.v), units[s.at].work.body);
    }
  }

  /** Where nothing up to the first unfaithful unit is guarded or gated, meaning is preserved exactly when there is none. */
  lemma {:induction false} OpenExactly(steps: seq<Step>, redo: Redo)
    requires Authored(steps) && LowerWorkflow(steps).Ok?
    requires var units := UnitsOf(steps); forall j :: 0 <= j < |units| && j <= FirstUnfaithful(units) ==> Open(units[j])
    ensures Preserved(steps, redo) <==> UnitsFaithful(UnitsOf(steps))
  {
    var units := UnitsOf(steps);
    var k := FirstUnfaithful(units);
    PreservedExactly(steps, redo);
    if k < |units| {
      OpenReached(units, k, Undecided());
      BlankHolds(Undecided(), units[k].guards);
      UnfaithfulIsUntame(units[k].work.body);
      assert Faulty(units, Stop(k, Undecided(), map[]));
    } else {
      FaithfulNeverFaulty(units);
    }
  }

  /** Children have no gates and restarts, and only guards that the unit has as well; a for_each that can run has one inner step. */
  predicate Repeats(u: Guarded<string>) {
    match u.work.body
    case Agent(_, _) => true
    case Fork(_, kids) => forall i :: 0 <= i < |kids| ==> RepeatsAt(u, kids, i)
    case Each(_, _, max, _, _, kids, _) => max < 0 || (|kids| == 1 && RepeatsAt(u, kids, 0))
  }

  predicate RepeatsAt(u: Guarded<string>, kids: seq<Kid>, i: nat)
    requires i < |kids|
  {
    (kids[i].guard == "" || kids[i].guard in u.guards) && kids[i].gate == "" && !Live(kids, i)
  }

  lemma {:induction false} GuardHolds(v: Valuation, guards: seq<string>, g: string)
    requires Under(v, guards) == True && g in guards
    ensures Says(v, g) == True
  {
    var last := guards[|guards| - 1];
    if g != last {
      assert guards == guards[..|guards| - 1] + [last];
      GuardHolds(v, guards[..|guards| - 1], g);
    }
  }

  lemma {:induction false} RepeatsCalm(u: Guarded<string>, v: Valuation, kids: seq<Kid>, i: nat)
    requires i < |kids| && RepeatsAt(u, kids, i) && Under(v, u.guards) == True
    ensures Calm(Saying(v), kids, i)
  {
    if kids[i].guard != "" {
      GuardHolds(v, u.guards, kids[i].guard);
    }
  }

  /** A child may repeat a guard of its unit: that guard is tested before the unit runs. */
  lemma {:induction false} RepeatedGuardsPreserve(steps: seq<Step>, redo: Redo)
    requires Authored(steps) && LowerWorkflow(steps).Ok?
    requires forall j :: 0 <= j < |UnitsOf(steps)| ==> Repeats(UnitsOf(steps)[j])
    ensures Preserved(steps, redo)
  {
    var units := UnitsOf(steps);
    forall s: Stop | s.at < |units|
      ensures !Faulty(units, s)
    {
      var u := units[s.at];
      if Under(s.v, u.guards) == True && !u.work.body.Agent? {
        forall i | 0 <= i < |u.work.body.kids| && RepeatsAt(u, u.work.body.kids, i)
          ensures Calm(Saying(s.v), u.work.body.kids, i)
        {
          RepeatsCalm(u, s.v, u.work.body.kids, i);
        }
      }
    }
    PreservedExactly(steps, redo);
  }

  // ---------- workflows that lose something ----------

  lemma {:induction false} OneUnit(known: set<string>, p: Step)
    requires !ShapeOf(p).AGroup?
    ensures TreesOf(known, [p]) == [TreeOf(known, p)]
    ensures UnitsUpTo(TreesOf(known, [p]), 1, []) == Units(TreeOf(known, p), [])
  {
    var trees := TreesOf(known, [p]);
    assert [p][1..] == [] && TreesOf(known, []) == [];
    assert UnitsUpTo(trees, 0, []) == [];
  }

  /** A parallel group as authors write it, without guard and loop-back of its own. */
  ghost predicate LoneGroup(p: Step) {
    && p.id != "" && IsV2Step(p) && ShapeOf(p) == AParallel && Plain(p) && LeafKids(p)
    && p.guard == "" && TargetOf(p).None?
  }

  lemma {:induction false} LoneAuthored(p: Step)
    requires LoneGroup(p)
    ensures Authored([p]) && LowerWorkflow([p]).Ok?
  {
    var known := IndexList(map[], [p]).Keys;
    OneUnit(known, p);
    Idempotence.RewriteEmpty(known);
    assert p in [p] && AnyV2Steps([p]);
    assert Scoped(TreeOf(known, p), {} + Before(TreesOf(known, [p]), 0));
    FrontEnd.LowerSingle(known, p, "", "");
  }

  /** A group that is the whole workflow keeps its meaning only if it is faithful. */
  lemma {:induction false} LoneIsLost(p: Step, redo: Redo)
    requires LoneGroup(p) && !Faithful(BodyOf(IndexList(map[], [p]).Keys, p))
    ensures LowerWorkflow([p]).Ok? && !Preserved([p], redo)
  {
    var known, s := IndexList(map[], [p]).Keys, Stop(0, Undecided(), map[]);
    LoneAuthored(p);
    OneUnit(known, p);
    Idempotence.RewriteEmpty(known);
    BlankHolds(Undecided(), [Reads(known, p.guard)]);
    UnfaithfulIsUntame(BodyOf(known, p));
    ReachedFirst(UnitsOf([p]), Undecided());
    assert [] + [Reads(known, p.guard)] == [Reads(known, p.guard)];
    assert Faulty(UnitsOf([p]), s);
    NotPreserved([p], redo, s);
  }

  const CHILD_GUARD := "memory.go == 'y'"

  /** A parallel group with one guarded child. */
  const GUARDED_CHILD := EMPTY_STEP.(id := "p", parallelSteps := [EMPTY_STEP.(id := "k", guard := CHILD_GUARD)])

  /** A parallel group whose second child restarts from the first, once. */
  const RESTARTING_CHILD := EMPTY_STEP.(id := "p", parallelSteps := [
    EMPTY_STEP.(id := "k"), EMPTY_STEP.(id := "m", onReject := Some(Reject("k", 1)))])

  lemma {:induction false} ChildGuardIsText(known: set<string>)
    ensures Reads(known, CHILD_GUARD) != ""
  {
    assert CHILD_GUARD[0] == 'm' && CHILD_GUARD[|CHILD_GUARD| - 1] == '\'';
    TrimSpaceFixed(CHILD_GUARD);
    Idempotence.EmptyRewrite(known, CHILD_GUARD);
  }

  lemma {:induction false} GroupAccepted(p: Step)
    requires p.subSteps == [] && p.forEach == "" && p.kind == "" && FrontEnd.OwnOk([], p) && FrontEnd.ListOk(p.parallelSteps)
    requires p.dependsOn == [] && p.branches == [] && !FrontEnd.HasV1Primitives(p.parallelSteps)
    ensures FrontEnd.Accepts([p])
  {
    assert FrontEnd.ListOk([]);
    assert FrontEnd.StepOk([], p);
    assert Ids([p])[..0] == [];
    assert FrontEnd.OkUpTo([p], 1);
  }

  lemma {:induction false} GuardedChildAccepted()
    ensures FrontEnd.Accepts([GUARDED_CHILD])
  {
    var p := GUARDED_CHILD;
    FrontEnd.LeafAccepted(p.parallelSteps[0], []);
    assert Ids(p.parallelSteps)[..0] == [] && FrontEnd.OkUpTo(p.parallelSteps, 1);
    GroupAccepted(p);
  }

  lemma {:induction false} GuardedChildLone()
    ensures LoneGroup(GUARDED_CHILD)
  {
    assert ShapeOf(GUARDED_CHILD.parallelSteps[0]) == ALeaf;
  }

  lemma {:induction false} GuardedChildUnfaithful(known: set<string>)
    ensures !Faithful(BodyOf(known, GUARDED_CHILD))
  {
    ChildGuardIsText(known);
    assert !Bare(KidsOf(known, GUARDED_CHILD.parallelSteps), 0);
  }

  /** The front end accepts it, and lowering does not preserve its meaning: the child always runs. */
  lemma {:induction false} GuardedChildIsLost(redo: Redo)
    ensures FrontEnd.Accepts([GUARDED_CHILD]) && LowerWorkflow([GUARDED_CHILD]).Ok? && !Preserved([GUARDED_CHILD], redo)
  {
    var p := GUARDED_CHILD;
    GuardedChildAccepted();
    GuardedChildLone();
    GuardedChildUnfaithful(IndexList(map[], [p]).Keys);
    LoneIsLost(p, redo);
  }

  lemma {:induction false} RestartingChildAccepted()
    ensures FrontEnd.Accepts([RESTARTING_CHILD])
  {
    var p := RESTARTING_CHILD;
    FrontEnd.LeafAccepted(p.parallelSteps[0], []);
    FrontEnd.LeafAccepted(p.parallelSteps[1], ["k"]);
    assert Ids(p.parallelSteps)[..0] == [] && FrontEnd.OkUpTo(p.parallelSteps, 1);
    assert Ids(p.parallelSteps)[..1] == ["k"] && FrontEnd.OkUpTo(p.parallelSteps, 2);
    GroupAccepted(p);
  }

  lemma {:induction false} RestartingChildLone()
    ensures LoneGroup(RESTARTING_CHILD)
  {
    assert ShapeOf(RESTARTING_CHILD.parallelSteps[0]) == ALeaf && ShapeOf(RESTARTING_CHILD.parallelSteps[1]) == ALeaf;
  }

  lemma {:induction false} RestartingChildUnfaithful(known: set<string>)
    ensures !Faithful(BodyOf(known, RESTARTING_CHILD))
  {
    var kids := KidsOf(known, RESTARTING_CHILD.parallelSteps);
    assert kids[0].id == "k" && kids[1].loop == Some("k") && kids[1].max == 1;
    assert Live(kids, 1) && !Bare(kids, 1);
  }

  /** No guard and no gate anywhere, every rule obeyed, and still the restart is lost. */
  lemma {:induction false} RestartingChildIsLost(redo: Redo)
    ensures FrontEnd.Accepts([RESTARTING_CHILD]) && LowerWorkflow([RESTARTING_CHILD]).Ok? && !Preserved([RESTARTING_CHILD], redo)
  {
    var p := RESTARTING_CHILD;
    RestartingChildAccepted();
    RestartingChildLone();
    RestartingChildUnfaithful(IndexList(map[], [p]).Keys);
    LoneIsLost(p, redo);
  }
}
