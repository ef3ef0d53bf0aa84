/**
 The scheduler of the workflow engine: a step becomes runnable when it is pending, its
 explicit dependencies have passed and its sequential ones have passed or were
 condition-skipped. Any runnable step may be picked. On a single chain every schedule is
 the run of the list.
 */
module Engine {
  import opened Graph
  import opened Meaning

  datatype Status = Pending | Passed | CondSkipped | Broken

  /** A step of the engine's graph: depends_on edges are hard, sequential edges soft. */
  datatype Task<I> = Task(node: Node<I>, hard: seq<I>, soft: seq<I>)

  datatype Engine<I, W> = Engine(status: map<I, Status>, st: State<I, W>, failed: bool)

  function TaskIds<I>(tasks: seq<Task<I>>): (r: seq<I>)
    ensures |r| == |tasks|
    ensures forall i :: 0 <= i < |tasks| ==> r[i] == tasks[i].node.id
  {
    if tasks == [] then [] else [tasks[0].node.id] + TaskIds(tasks[1..])
  }

  function TaskNodes<I>(tasks: seq<Task<I>>): (r: seq<Node<I>>)
    ensures |r| == |tasks|
    ensures forall i :: 0 <= i < |tasks| ==> r[i] == tasks[i].node
  {
    if tasks == [] then [] else [tasks[0].node] + TaskNodes(tasks[1..])
  }

  function TaskRows<I>(tasks: seq<Task<I>>): (r: seq<Row<I>>)
    ensures |r| == |tasks|
    ensures forall i :: 0 <= i < |tasks| ==> r[i] == Row(tasks[i].node.id, tasks[i].hard + tasks[i].soft)
  {
    if tasks == [] then [] else [Row(tasks[0].node.id, tasks[0].hard + tasks[0].soft)] + TaskRows(tasks[1..])
  }

  predicate Is<I(==), W>(es: Engine<I, W>, id: I, s: Status) {
    id in es.status && es.status[id] == s
  }

  /** pickAllRunnable contains step j. */
  predicate Runnable<I(==), W>(tasks: seq<Task<I>>, es: Engine<I, W>, j: nat)
    requires j < |tasks|
  {
    && Is(es, tasks[j].node.id, Pending)
    && (forall d :: d in tasks[j].hard ==> Is(es, d, Passed))
    && (forall d :: d in tasks[j].soft ==> Is(es, d, Passed) || Is(es, d, CondSkipped))
  }

  /** resetLoop marks the target and all its transitive dependents. */
  ghost predicate Marked<I(!new)>(rows: seq<Row<I>>, target: I, id: I) {
    id == target || Reaches(DepsOf(rows), id, target)
  }

  ghost function MarkedIds<I(!new)>(rows: seq<Row<I>>, target: I, ids: seq<I>): (r: seq<I>) {
    if ids == [] then []
    else (if Marked(rows, target, ids[0]) then [ids[0]] else []) + MarkedIds(rows, target, ids[1..])
  }

  ghost function Unmark<I(!new)>(rows: seq<Row<I>>, status: map<I, Status>, target: I): (r: map<I, Status>) {
    map id | id in status :: if Marked(rows, target, id) then Pending else status[id]
  }

  lemma {:induction false} UnmarkEntry<I(!new)>(rows: seq<Row<I>>, status: map<I, Status>, target: I, id: I, marked: bool)
    requires id in status && (marked <==> Marked(rows, target, id))
    ensures id in Unmark(rows, status, target)
    ensures Unmark(rows, status, target)[id] == if marked then Pending else status[id]
  {
  }

  ghost function ResetLoop<I(!new), W>(env: Env<I, W>, tasks: seq<Task<I>>, es: Engine<I, W>, target: I, st: State<I, W>)
    : (r: Engine<I, W>)
  {
    Engine(
      Unmark(TaskRows(tasks), es.status, target),
      st.(world := env.sem.rewind(MarkedIds(TaskRows(tasks), target, TaskIds(tasks)), st.world)),
      es.failed)
  }

  ghost function Fire<I(!new), W>(env: Env<I, W>, tasks: seq<Task<I>>, es: Engine<I, W>, j: nat): (r: Engine<I, W>)
    requires j < |tasks|
  {
    var n := tasks[j].node;
    match Try(env, env.sem.test(n.cond, es.st.world), n.id, n.work, n.gate, n.loop, es.st)
    case Skip(st) => Engine(es.status[n.id := CondSkipped], st, false)
    case Pass(st) => Engine(es.status[n.id := Passed], st, false)
    case Abort(st) => Engine(es.status[n.id := Broken], st, true)
    case Retry(target, st) => ResetLoop(env, tasks, es, target, st)
  }

  /** One scheduling step: some runnable step is executed. */
  ghost predicate Next<I(!new), W>(env: Env<I, W>, tasks: seq<Task<I>>, es: Engine<I, W>, es': Engine<I, W>) {
    !es.failed && exists j :: 0 <= j < |tasks| && Runnable(tasks, es, j) && es' == Fire(env, tasks, es, j)
  }

  function Start<I(==), W>(tasks: seq<Task<I>>, world: W): (r: Engine<I, W>) {
    Engine(map id | id in TaskIds(tasks) :: Pending, State(world, map[], []), false)
  }

  ghost predicate WaitsForPrevious<I(!new)>(tasks: seq<Task<I>>, j: nat)
    requires j < |tasks|
  {
    tasks[j].hard == [] && tasks[j].soft == if j == 0 then [] else [tasks[j - 1].node.id]
  }

  /** Each step waits for the one before it, and for nothing else. */
  ghost predicate Chain<I(!new), W>(env: Env<I, W>, tasks: seq<Task<I>>) {
    && Linked(env, TaskNodes(tasks))
    && forall j :: 0 <= j < |tasks| ==> WaitsForPrevious(tasks, j)
  }

  // ---------- on a chain ----------

  ghost predicate StatusAt<I(!new), W>(tasks: seq<Task<I>>, es: Engine<I, W>, pc: nat, k: nat)
    requires k < |tasks|
  {
    var id := tasks[k].node.id;
    if k < pc then Is(es, id, Passed) || Is(es, id, CondSkipped) else Is(es, id, Pending)
  }

  /** Everything before pc is settled and everything from pc on is pending. */
  ghost predicate Front<I(!new), W>(tasks: seq<Task<I>>, es: Engine<I, W>, pc: nat) {
    && pc <= |tasks| && !es.failed
    && forall k :: 0 <= k < |tasks| ==> StatusAt(tasks, es, pc, k)
  }

  /** Exactly one step is runnable, until none is left. */
  lemma {:induction false} RunnableIsNext<I(!new), W>(env: Env<I, W>, tasks: seq<Task<I>>, es: Engine<I, W>, pc: nat, j: nat)
    requires Chain(env, tasks) && Front(tasks, es, pc) && j < |tasks|
    ensures Runnable(tasks, es, j) <==> j == pc
  {
    assert WaitsForPrevious(tasks, j);
    assert StatusAt(tasks, es, pc, j);
    if j > 0 {
      assert StatusAt(tasks, es, pc, j - 1);
      assert tasks[j - 1].node.id in tasks[j].soft;
    }
  }

  lemma {:induction false} DistinctIds<I(!new), W>(env: Env<I, W>, tasks: seq<Task<I>>, a: nat, b: nat)
    requires Chain(env, tasks) && a < |tasks| && b < |tasks|
    ensures tasks[a].node.id == tasks[b].node.id <==> a == b
    ensures env.order == TaskIds(tasks)
  {
    var nodes := TaskNodes(tasks);
    assert nodes[a] == tasks[a].node && nodes[b] == tasks[b].node;
    if a < b {
      assert nodes[a].id != nodes[b].id;
    } else if b < a {
      assert nodes[b].id != nodes[a].id;
    }
    SameIds(tasks);
  }

  lemma {:induction false} SameIds<I(!new)>(tasks: seq<Task<I>>)
    ensures NodeIds(TaskNodes(tasks)) == TaskIds(tasks)
  {
  }

  lemma {:induction false} ChainRows<I(!new), W>(env: Env<I, W>, tasks: seq<Task<I>>)
    requires Chain(env, tasks)
    ensures RowChain(TaskRows(tasks), TaskIds(tasks))
  {
    var rows, ids := TaskRows(tasks), TaskIds(tasks);
    forall i | 0 <= i < |ids|
      ensures RowLink(rows, ids, i)
    {
      assert WaitsForPrevious(tasks, i);
    }
    forall i, j | 0 <= i < |ids| && 0 <= j < |ids|
      ensures Differ(ids, i, j)
    {
      DistinctIds(env, tasks, i, j);
    }
  }

  /** Resetting a loop resets exactly the target and what comes after it. */
  lemma {:induction false} MarkedIsSuffix<I(!new)>(rows: seq<Row<I>>, ids: seq<I>, t: nat, k: nat)
    requires RowChain(rows, ids) && t < |ids| && k < |ids|
    ensures Marked(rows, ids[t], ids[k]) <==> t <= k
  {
    RowChainReaches(rows, ids, k, t);
    assert Differ(ids, k, t);
  }

  lemma {:induction false} MarkedIdsFrom<I(!new)>(rows: seq<Row<I>>, ids: seq<I>, t: nat, k: nat)
    requires RowChain(rows, ids) && t < |ids| && k <= |ids|
    ensures MarkedIds(rows, ids[t], ids[k..]) == ids[if k <= t then t else k..]
    decreases |ids| - k
  {
    if k < |ids| {
      MarkedIsSuffix(rows, ids, t, k);
      MarkedIdsFrom(rows, ids, t, k + 1);
      assert ids[k..][0] == ids[k] && ids[k..][1..] == ids[k + 1..];
    }
  }

  lemma {:induction false} SettleOnChain<I(!new), W>(
    env: Env<I, W>, tasks: seq<Task<I>>, es: Engine<I, W>, pc: nat, s: Status, st: State<I, W>)
    requires Chain(env, tasks) && Front(tasks, es, pc) && pc < |tasks|
    requires s == Passed || s == CondSkipped
    ensures Front(tasks, Engine(es.status[tasks[pc].node.id := s], st, false), pc + 1)
  {
    var es' := Engine(es.status[tasks[pc].node.id := s], st, false);
    var next := pc + 1;
    forall k | 0 <= k < |tasks|
      ensures StatusAt(tasks, es', next, k)
    {
      assert StatusAt(tasks, es, pc, k);
      DistinctIds(env, tasks, k, pc);
    }
  }

  lemma {:induction false} ResetOnChain<I(!new), W>(
    env: Env<I, W>, tasks: seq<Task<I>>, es: Engine<I, W>, pc: nat, t: nat, st: State<I, W>)
    requires Chain(env, tasks) && Front(tasks, es, pc) && t <= pc < |tasks|
    ensures Front(tasks, ResetLoop(env, tasks, es, tasks[t].node.id, st), t)
  {
    var es' := ResetLoop(env, tasks, es, tasks[t].node.id, st);
    var rows, ids := TaskRows(tasks), TaskIds(tasks);
    ChainRows(env, tasks);
    forall k | 0 <= k < |tasks|
      ensures StatusAt(tasks, es', t, k)
    {
      assert StatusAt(tasks, es, pc, k);
      ResetAt(rows, ids, es.status, t, k);
    }
  }

  lemma {:induction false} ResetAt<I(!new)>(rows: seq<Row<I>>, ids: seq<I>, status: map<I, Status>, t: nat, k: nat)
    requires RowChain(rows, ids) && t < |ids| && k < |ids| && ids[k] in status
    ensures ids[k] in Unmark(rows, status, ids[t])
    ensures Unmark(rows, status, ids[t])[ids[k]] == if t <= k then Pending else status[ids[k]]
  {
    MarkedIsSuffix(rows, ids, t, k);
    UnmarkEntry(rows, status, ids[t], ids[k], t <= k);
  }

  lemma {:induction false} RewindOnChain<I(!new), W>(
    env: Env<I, W>, tasks: seq<Task<I>>, es: Engine<I, W>, t: nat, st: State<I, W>)
    requires Chain(env, tasks) && t < |tasks|
    ensures ResetLoop(env, tasks, es, tasks[t].node.id, st).st == Rewind(env, tasks[t].node.id, st)
  {
    var rows, ids := TaskRows(tasks), TaskIds(tasks);
    ChainRows(env, tasks);
    MarkedIdsFrom(rows, ids, t, 0);
    assert ids[0..] == ids;
    DistinctIds(env, tasks, PositionOf(ids, ids[t]), t);
  }

  /** Where the list run stands after the attempt at pc. */
  function NextPc<I(==), W>(env: Env<I, W>, pc: nat, a: Attempt<I, W>): (n: nat) {
    if a.Retry? then PositionOf(env.order, a.target) else pc + 1
  }

  function AttemptAt<I(==), W>(env: Env<I, W>, tasks: seq<Task<I>>, pc: nat, st: State<I, W>): (a: Attempt<I, W>)
    requires pc < |tasks|
  {
    var n := tasks[pc].node;
    Try(env, env.sem.test(n.cond, st.world), n.id, n.work, n.gate, n.loop, st)
  }

  /** One scheduling step moves the front to where the list run stands. */
  lemma {:induction false} FireMovesFront<I(!new), W>(env: Env<I, W>, tasks: seq<Task<I>>, es: Engine<I, W>, pc: nat)
    requires Chain(env, tasks) && Front(tasks, es, pc) && pc < |tasks|
    ensures var a, es' := AttemptAt(env, tasks, pc, es.st), Fire(env, tasks, es, pc);
            && (es'.failed <==> a.Abort?)
            && (!a.Abort? ==> Front(tasks, es', NextPc(env, pc, a)))
            && es'.st == StateAfter(env, a)
  {
    match AttemptAt(env, tasks, pc, es.st)
    case Skip(st) => SettleOnChain(env, tasks, es, pc, CondSkipped, st);
    case Pass(st) => SettleOnChain(env, tasks, es, pc, Passed, st);
    case Abort(st) =>
    case Retry(target, st) => RetryMovesFront(env, tasks, es, pc, target, st);
  }

  lemma {:induction false} RetryMovesFront<I(!new), W>(
    env: Env<I, W>, tasks: seq<Task<I>>, es: Engine<I, W>, pc: nat, target: I, st: State<I, W>)
    requires Chain(env, tasks) && Front(tasks, es, pc) && pc < |tasks|
    requires AttemptAt(env, tasks, pc, es.st) == Retry(target, st)
    ensures var es' := Fire(env, tasks, es, pc);
            !es'.failed && Front(tasks, es', PositionOf(env.order, target)) && es'.st == Rewind(env, target, st)
  {
    TargetIsEarlier(env, tasks, pc);
    var t := PositionOf(env.order, target);
    ResetOnChain(env, tasks, es, pc, t, st);
    RewindOnChain(env, tasks, es, t, st);
  }

  /** The same step of the list run. */
  lemma {:induction false} ListStep<I(!new), W>(env: Env<I, W>, tasks: seq<Task<I>>, pc: nat, st: State<I, W>)
    requires Chain(env, tasks) && pc < |tasks|
    ensures var a, nodes := AttemptAt(env, tasks, pc, st), TaskNodes(tasks);
            if a.Abort? then RunFlat(env, nodes, pc, st) == Failed(a.st)
            else
              && NextPc(env, pc, a) <= |tasks|
              && RunFlat(env, nodes, pc, st) ==
                 RunFlat(env, nodes, NextPc(env, pc, a), StateAfter(env, a))
  {
    assert TaskNodes(tasks)[pc] == tasks[pc].node;
    TargetIsEarlier(env, tasks, pc);
  }

  lemma {:induction false} TargetIsEarlier<I(!new), W>(env: Env<I, W>, tasks: seq<Task<I>>, pc: nat)
    requires Chain(env, tasks) && pc < |tasks|
    ensures tasks[pc].node.loop.Some? ==>
              var t := PositionOf(env.order, tasks[pc].node.loop.value);
              t < pc && tasks[t].node.id == tasks[pc].node.loop.value
  {
    var n := TaskNodes(tasks)[pc];
    if n.loop.Some? {
      var t := PositionOf(env.order, n.loop.value);
      DistinctIds(env, tasks, pc, pc);
      assert n.loop.value in env.order[..pc];
      var k :| 0 <= k < pc && env.order[k] == n.loop.value;
      DistinctIds(env, tasks, t, k);
    }
  }

  // ---------- whole runs ----------

  /** A run of the scheduler: it starts with every step pending and makes one step at a time. */
  ghost predicate Run<I(!new), W>(env: Env<I, W>, tasks: seq<Task<I>>, world: W, run: seq<Engine<I, W>>) {
    && run != [] && run[0] == Start(tasks, world)
    && forall k :: 0 <= k < |run| - 1 ==> Next(env, tasks, run[k], run[k + 1])
  }

  /** Work left at a front: loop budget first, then steps. */
  function WorkLeft<I(==), W>(env: Env<I, W>, tasks: seq<Task<I>>, pc: nat, st: State<I, W>): (n: nat)
    requires pc <= |tasks|
  {
    Slack(env, st) * (|tasks| + 1) + (|tasks| - pc)
  }

  /** The state of a run still belongs to the list run that began with it. */
  ghost predicate OnTrack<I(!new), W>(env: Env<I, W>, tasks: seq<Task<I>>, es: Engine<I, W>, goal: Ending<I, W>, left: nat)
    requires Chain(env, tasks)
  {
    if es.failed then goal == Failed(es.st)
    else exists pc: nat :: Front(tasks, es, pc) && RunFlat(env, TaskNodes(tasks), pc, es.st) == goal && WorkLeft(env, tasks, pc, es.st) <= left
  }

  lemma {:induction false} StartOnTrack<I(!new), W>(env: Env<I, W>, tasks: seq<Task<I>>, world: W)
    requires Chain(env, tasks)
    ensures var es := Start(tasks, world);
            OnTrack(env, tasks, es, RunFlat(env, TaskNodes(tasks), 0, es.st), WorkLeft(env, tasks, 0, es.st))
  {
    var es := Start(tasks, world);
    forall k | 0 <= k < |tasks|
      ensures StatusAt(tasks, es, 0, k)
    {
      assert TaskIds(tasks)[k] == tasks[k].node.id;
    }
    assert Front(tasks, es, 0);
  }

  lemma {:induction false} WorkShrinks(slack: nat, slack': nat, n: nat, pc: nat, pc': nat)
    requires pc < n && pc' <= n
    requires slack' < slack || (slack' == slack && pc' == pc + 1)
    ensures slack' * (n + 1) + (n - pc') < slack * (n + 1) + (n - pc)
  {
    if slack' < slack {
      assert slack' * (n + 1) + (n + 1) == (slack' + 1) * (n + 1) <= slack * (n + 1);
    }
  }

  /** Where an attempt leaves the state. */
  function StateAfter<I(==), W>(env: Env<I, W>, a: Attempt<I, W>): (r: State<I, W>) {
    if a.Retry? then Rewind(env, a.target, a.st) else a.st
  }

  lemma {:induction false} AttemptWork<I(!new), W>(env: Env<I, W>, tasks: seq<Task<I>>, pc: nat, st: State<I, W>)
    requires pc < |tasks|
    ensures var a := AttemptAt(env, tasks, pc, st);
            !a.Abort? && NextPc(env, pc, a) <= |tasks| ==>
              WorkLeft(env, tasks, NextPc(env, pc, a), StateAfter(env, a)) < WorkLeft(env, tasks, pc, st)
  {
    var a := AttemptAt(env, tasks, pc, st);
    if !a.Abort? && NextPc(env, pc, a) <= |tasks| {
      WorkShrinks(Slack(env, st), Slack(env, StateAfter(env, a)), |tasks|, pc, NextPc(env, pc, a));
    }
  }

  lemma {:induction false} WorkPositive<I(!new), W>(env: Env<I, W>, tasks: seq<Task<I>>, pc: nat, st: State<I, W>)
    requires pc < |tasks|
    ensures WorkLeft(env, tasks, pc, st) > 0
  {
  }

  lemma {:induction false} FireOnTrack<I(!new), W>(
    env: Env<I, W>, tasks: seq<Task<I>>, es: Engine<I, W>, pc: nat, goal: Ending<I, W>, left: nat)
    requires Chain(env, tasks) && Front(tasks, es, pc) && pc < |tasks|
    requires RunFlat(env, TaskNodes(tasks), pc, es.st) == goal && WorkLeft(env, tasks, pc, es.st) <= left
    ensures left > 0 && OnTrack(env, tasks, Fire(env, tasks, es, pc), goal, left - 1)
  {
    var es' := Fire(env, tasks, es, pc);
    FireMovesFront(env, tasks, es, pc);
    ListStep(env, tasks, pc, es.st);
    AttemptWork(env, tasks, pc, es.st);
    WorkPositive(env, tasks, pc, es.st);
    var a := AttemptAt(env, tasks, pc, es.st);
    assert es'.st == StateAfter(env, a);
    if !a.Abort? {
      var pc' := NextPc(env, pc, a);
      assert Front(tasks, es', pc');
    }
  }

  lemma {:induction false} NextOnTrack<I(!new), W>(
    env: Env<I, W>, tasks: seq<Task<I>>, es: Engine<I, W>, es': Engine<I, W>, goal: Ending<I, W>, left: nat)
    requires Chain(env, tasks) && OnTrack(env, tasks, es, goal, left) && Next(env, tasks, es, es')
    ensures left > 0 && OnTrack(env, tasks, es', goal, left - 1)
  {
    var pc: nat :| Front(tasks, es, pc) && RunFlat(env, TaskNodes(tasks), pc, es.st) == goal && WorkLeft(env, tasks, pc, es.st) <= left;
    var j: nat :| j < |tasks| && Runnable(tasks, es, j) && es' == Fire(env, tasks, es, j);
    RunnableIsNext(env, tasks, es, pc, j);
    FireOnTrack(env, tasks, es, pc, goal, left);
  }

  lemma {:induction false} RunOnTrack<I(!new), W>(
    env: Env<I, W>, tasks: seq<Task<I>>, world: W, run: seq<Engine<I, W>>, k: nat)
    requires Chain(env, tasks) && Run(env, tasks, world, run) && k < |run|
    ensures var st := Start(tasks, world).st;
            var bound := WorkLeft(env, tasks, 0, st);
            k <= bound && OnTrack(env, tasks, run[k], RunFlat(env, TaskNodes(tasks), 0, st), bound - k)
    decreases k
  {
    if k == 0 {
      StartOnTrack(env, tasks, world);
    } else {
      var st := Start(tasks, world).st;
      RunOnTrack(env, tasks, world, run, k - 1);
      NextOnTrack(env, tasks, run[k - 1], run[k], RunFlat(env, TaskNodes(tasks), 0, st), WorkLeft(env, tasks, 0, st) - (k - 1));
    }
  }

  /** Nothing is left to schedule. */
  ghost predicate Quiescent<I(!new), W>(env: Env<I, W>, tasks: seq<Task<I>>, es: Engine<I, W>) {
    es.failed || forall j :: 0 <= j < |tasks| ==> !Runnable(tasks, es, j)
  }

  ghost function EndOf<I(!new), W>(es: Engine<I, W>): (r: Ending<I, W>) {
    if es.failed then Failed(es.st) else Done(es.st)
  }

  /** A state on track that has come to rest is the end of the list run. */
  lemma {:induction false} RestIsGoal<I(!new), W>(env: Env<I, W>, tasks: seq<Task<I>>, es: Engine<I, W>, goal: Ending<I, W>, left: nat)
    requires Chain(env, tasks) && OnTrack(env, tasks, es, goal, left) && Quiescent(env, tasks, es)
    ensures EndOf(es) == goal
  {
    if !es.failed {
      var pc: nat :| Front(tasks, es, pc) && RunFlat(env, TaskNodes(tasks), pc, es.st) == goal && WorkLeft(env, tasks, pc, es.st) <= left;
      if pc < |tasks| {
        RunnableIsNext(env, tasks, es, pc, pc);
      }
      assert pc == |tasks|;
    }
  }

  /**
   Every schedule of a chain is bounded, and one that has come to rest ends exactly as the
   list run does: same outcome, same world, same units executed in the same order.
   */
  lemma {:induction false} EveryScheduleIsTheListRun<I(!new), W>(env: Env<I, W>, tasks: seq<Task<I>>, world: W, run: seq<Engine<I, W>>)
    requires Chain(env, tasks) && Run(env, tasks, world, run)
    ensures |run| <= WorkLeft(env, tasks, 0, Start(tasks, world).st) + 1
    ensures Quiescent(env, tasks, run[|run| - 1]) ==>
              EndOf(run[|run| - 1]) == RunFlat(env, TaskNodes(tasks), 0, Start(tasks, world).st)
  {
    var st, n := Start(tasks, world).st, |run| - 1;
    RunOnTrack(env, tasks, world, run, n);
    if Quiescent(env, tasks, run[n]) {
      RestIsGoal(env, tasks, run[n], RunFlat(env, TaskNodes(tasks), 0, st), WorkLeft(env, tasks, 0, st) - n);
    }
  }

  // ---------- some run comes to rest ----------

  lemma {:induction false} RunToRest<I(!new), W(!new)>(env: Env<I, W>, tasks: seq<Task<I>>, world: W, run: seq<Engine<I, W>>)
    returns (full: seq<Engine<I, W>>)
    requires Chain(env, tasks) && Run(env, tasks, world, run)
    ensures Run(env, tasks, world, full) && Quiescent(env, tasks, full[|full| - 1])
    decreases WorkLeft(env, tasks, 0, Start(tasks, world).st) + 1 - |run|
  {
    var last := run[|run| - 1];
    EveryScheduleIsTheListRun(env, tasks, world, run);
    if Quiescent(env, tasks, last) {
      full := run;
    } else {
      var j :| 0 <= j < |tasks| && Runnable(tasks, last, j);
      var longer := run + [Fire(env, tasks, last, j)];
      RunLonger(env, tasks, world, run, j);
      EveryScheduleIsTheListRun(env, tasks, world, longer);
      full := RunToRest(env, tasks, world, longer);
    }
  }

  lemma {:induction false} RunLonger<I(!new), W(!new)>(env: Env<I, W>, tasks: seq<Task<I>>, world: W, run: seq<Engine<I, W>>, j: nat)
    requires Run(env, tasks, world, run) && j < |tasks|
    requires !run[|run| - 1].failed && Runnable(tasks, run[|run| - 1], j)
    ensures Run(env, tasks, world, run + [Fire(env, tasks, run[|run| - 1], j)])
  {
    var n := |run| - 1;
    var longer := run + [Fire(env, tasks, run[n], j)];
    forall k | 0 <= k < |longer| - 1
      ensures Next(env, tasks, longer[k], longer[k + 1])
    {
      if k < n {
        assert Next(env, tasks, run[k], run[k + 1]);
      }
    }
  }
}
