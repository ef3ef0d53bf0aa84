/**
 What the scheduler guarantees on any graph, chain or not, cyclic or not: a step is attempted
 only after each explicit dependency was attempted and passed, and each sequential one passed
 or was skipped by its condition. Statuses tell what happened.
 */
module Scheduling {
  import Expr
  import opened Meaning
  import opened Engine

  /** In a world the step's condition holds, its work succeeds and no gate rejects it. */
  ghost predicate PassesIn<I(!new), W>(env: Env<I, W>, n: Node<I>, w: W) {
    var (after, ok) := env.sem.exec(n.id, n.work, w);
    env.sem.test(n.cond, w) == Expr.True && ok && (n.gate == "" || env.sem.test(n.gate, after) == Expr.False)
  }

  ghost predicate SkippedIn<I(!new), W>(env: Env<I, W>, n: Node<I>, w: W) {
    env.sem.test(n.cond, w) == Expr.False
  }

  /** The scheduler attempts task j in the i-th state of the run. */
  ghost predicate Attempted<I(!new), W>(env: Env<I, W>, tasks: seq<Task<I>>, run: seq<Engine<I, W>>, i: int, j: int) {
    && 0 <= i < |run| - 1 && 0 <= j < |tasks|
    && Runnable(tasks, run[i], j) && run[i + 1] == Fire(env, tasks, run[i], j)
  }

  /** A step called id was attempted before state k, and passed. */
  ghost predicate PassedBefore<I(!new), W>(env: Env<I, W>, tasks: seq<Task<I>>, run: seq<Engine<I, W>>, k: nat, id: I) {
    exists i, j :: Attempted(env, tasks, run, i, j) && i < k && tasks[j].node.id == id && PassesIn(env, tasks[j].node, run[i].st.world)
  }

  ghost predicate SkippedBefore<I(!new), W>(env: Env<I, W>, tasks: seq<Task<I>>, run: seq<Engine<I, W>>, k: nat, id: I) {
    exists i, j :: Attempted(env, tasks, run, i, j) && i < k && tasks[j].node.id == id && SkippedIn(env, tasks[j].node, run[i].st.world)
  }

  /** What one attempt does to the status of a step. */
  lemma {:induction false} FireTold<I(!new), W>(env: Env<I, W>, tasks: seq<Task<I>>, es: Engine<I, W>, j: nat, id: I)
    requires j < |tasks|
    ensures var n, es' := tasks[j].node, Fire(env, tasks, es, j);
            && (Is(es', id, Passed) ==> Is(es, id, Passed) || (n.id == id && PassesIn(env, n, es.st.world)))
            && (Is(es', id, CondSkipped) ==> Is(es, id, CondSkipped) || (n.id == id && SkippedIn(env, n, es.st.world)))
  {
    var n := tasks[j].node;
    TryMeans(env, env.sem.test(n.cond, es.st.world), n.id, n.work, n.gate, n.loop, es.st);
  }

  /** A step marked passed has passed, and one marked skipped was skipped. */
  lemma {:induction false} StatusTold<I(!new), W>(env: Env<I, W>, tasks: seq<Task<I>>, world: W, run: seq<Engine<I, W>>, k: nat, id: I)
    requires Run(env, tasks, world, run) && k < |run|
    ensures Is(run[k], id, Passed) ==> PassedBefore(env, tasks, run, k, id)
    ensures Is(run[k], id, CondSkipped) ==> SkippedBefore(env, tasks, run, k, id)
    decreases k
  {
    if k > 0 {
      var i := k - 1;
      StatusTold(env, tasks, world, run, i, id);
      assert Next(env, tasks, run[i], run[i + 1]);
      var j :| 0 <= j < |tasks| && Runnable(tasks, run[i], j) && run[i + 1] == Fire(env, tasks, run[i], j);
      assert Attempted(env, tasks, run, i, j);
      FireTold(env, tasks, run[i], j, id);
    }
  }

  /** No step is attempted before its dependencies, in any run of any graph. */
  lemma {:induction false} DependenciesFirst<I(!new), W>(
    env: Env<I, W>, tasks: seq<Task<I>>, world: W, run: seq<Engine<I, W>>, i: nat, j: nat, d: I)
    requires Run(env, tasks, world, run) && Attempted(env, tasks, run, i, j)
    ensures d in tasks[j].hard ==> PassedBefore(env, tasks, run, i, d)
    ensures d in tasks[j].soft ==> PassedBefore(env, tasks, run, i, d) || SkippedBefore(env, tasks, run, i, d)
  {
    StatusTold(env, tasks, world, run, i, d);
  }
}
