/**
 validateWorkflowReferenceCycles: a depth-first search over sub-workflow references that
 keeps going after a cycle and reports each one as the list of workflows along it.
 */
module RefCycles {
  import opened Graph

  /** A step of a workflow: the sub-workflow it calls, if it is a workflow step. */
  datatype CallStep<T> = CallStep(isCall: bool, target: T)

  type Workflows<!T> = map<T, seq<CallStep<T>>>

  /** The defined workflows that a list of steps refers to, in order. */
  function Calls<T(==)>(workflows: Workflows<T>, steps: seq<CallStep<T>>): (r: seq<T>) {
    if steps == [] then []
    else
      (if steps[0].isCall && steps[0].target in workflows then [steps[0].target] else [])
      + Calls(workflows, steps[1..])
  }

  function References<T(==)>(workflows: Workflows<T>): (g: Adjacency<T>) {
    map id | id in workflows :: Calls(workflows, workflows[id])
  }

  lemma {:induction false} CallsDefined<T(!new)>(workflows: Workflows<T>, steps: seq<CallStep<T>>)
    ensures forall x :: x in Calls(workflows, steps) ==> x in workflows
  {
    if steps != [] {
      CallsDefined(workflows, steps[1..]);
    }
  }

  /** The same references as a set, which is what the loop over the steps uses up. */
  function CallSet<T(==)>(workflows: Workflows<T>, steps: seq<CallStep<T>>): (r: set<T>) {
    if steps == [] then {}
    else (if steps[0].isCall && steps[0].target in workflows then {steps[0].target} else {}) + CallSet(workflows, steps[1..])
  }

  lemma {:induction false} CallSetNext<T(!new)>(workflows: Workflows<T>, steps: seq<CallStep<T>>)
    requires steps != []
    ensures CallSet(workflows, steps[1..]) <= CallSet(workflows, steps)
    ensures steps[0].isCall && steps[0].target in workflows ==>
              steps[0].target in CallSet(workflows, steps) &&
              CallSet(workflows, steps) <= {steps[0].target} + CallSet(workflows, steps[1..])
    ensures !(steps[0].isCall && steps[0].target in workflows) ==>
              CallSet(workflows, steps) <= CallSet(workflows, steps[1..])
  {
  }

  lemma {:induction false} CallSetIsCalls<T(!new)>(workflows: Workflows<T>, steps: seq<CallStep<T>>)
    ensures forall x :: x in CallSet(workflows, steps) <==> x in Calls(workflows, steps)
  {
    if steps != [] {
      CallSetIsCalls(workflows, steps[1..]);
    }
  }

  lemma {:induction false} CallSetIsEdges<T(!new)>(workflows: Workflows<T>, id: T)
    requires id in workflows
    ensures forall x :: x in CallSet(workflows, workflows[id]) <==> Edge(References(workflows), id, x)
  {
    CallSetIsCalls(workflows, workflows[id]);
  }

  lemma {:induction false} ReferencesDefined<T(!new)>(workflows: Workflows<T>, a: T, b: T)
    requires Edge(References(workflows), a, b)
    ensures a in workflows && b in workflows
  {
    CallsDefined(workflows, workflows[a]);
  }

  lemma {:induction false} CycleDefined<T(!new)>(workflows: Workflows<T>, x: T)
    requires OnCycle(References(workflows), x)
    ensures x in workflows
  {
    var m := ReachesHead(References(workflows), x, x);
    ReferencesDefined(workflows, x, m);
  }

  /** A closed walk: it follows references and ends where it began. */
  ghost predicate ClosedWalk<T(!new)>(g: Adjacency<T>, c: seq<T>) {
    |c| >= 2 && Walk(g, c) && c[0] == c[|c| - 1]
  }

  lemma {:induction false} ClosedWalkIsCycle<T(!new)>(g: Adjacency<T>, c: seq<T>)
    requires ClosedWalk(g, c)
    ensures OnCycle(g, c[0])
  {
    assert WalkFromTo(g, c, c[0], c[0]);
  }

  /** The part of the stack from id on, closed by the reference back to id. */
  lemma {:induction false} StackClosed<T(!new)>(g: Adjacency<T>, stack: seq<T>, at: nat, id: T)
    requires at < |stack| && Walk(g, stack) && stack[at] == id && Edge(g, stack[|stack| - 1], id)
    ensures ClosedWalk(g, stack[at..] + [id])
  {
    var part := stack[at..];
    forall i
      ensures StepOf(g, part, i)
    {
      assert StepOf(g, stack, at + i);
    }
    assert part[|part| - 1] == stack[|stack| - 1];
    WalkSnoc(g, part, id);
  }

  ghost predicate Reports<T(!new)>(g: Adjacency<T>, errs: seq<seq<T>>) {
    forall k :: 0 <= k < |errs| ==> ClosedWalk(g, errs[k])
  }

  /** The stack holds the workflows in progress, linked by references; reports are genuine. */
  ghost predicate Sound<T(!new)>(g: Adjacency<T>, state: Coloring<T>, stack: seq<T>, errs: seq<seq<T>>) {
    && StackIs(g, state, stack)
    && Reports(g, errs)
    && (errs == [] ==> Settled(g, state))
  }

  lemma {:induction false} BeginSound<T(!new)>(g: Adjacency<T>, all: set<T>, state: Coloring<T>, stack: seq<T>, errs: seq<seq<T>>, id: T)
    requires Sound(g, state, stack, errs) && id in all && ColorOf(state, id) == White
    requires stack == [] || Edge(g, stack[|stack| - 1], id)
    ensures var after := state[id := Gray];
            && Sound(g, after, stack + [id], errs) && id !in stack
            && Painted(after, Black) == Painted(state, Black)
            && Unvisited(all, after) < Unvisited(all, state)
  {
    assert GrayIsOnStack(state, stack, id);
    Enter(g, all, state, stack, id);
    if errs == [] {
      SettledSame(g, state, state[id := Gray]);
    }
  }

  lemma {:induction false} ReportSound<T(!new)>(g: Adjacency<T>, state: Coloring<T>, stack: seq<T>, errs: seq<seq<T>>, c: seq<T>)
    requires Sound(g, state, stack, errs) && ClosedWalk(g, c)
    ensures Sound(g, state, stack, errs + [c])
  {
  }

  class RefSearch<T(==,!new)> {
    const workflows: Workflows<T>
    var state: Coloring<T>
    var stack: seq<T>
    var errs: seq<seq<T>>

    constructor (workflows: Workflows<T>)
      ensures this.workflows == workflows && state == map[] && stack == [] && errs == []
    {
      this.workflows := workflows;
      state, stack, errs := map[], [], [];
    }

    ghost function Graph(): (g: Adjacency<T>) {
      References(workflows)
    }

    ghost predicate Valid()
      reads this
    {
      Sound(Graph(), state, stack, errs)
    }

    /** Between two states of the search: the stack is back, reports and finished only grow. */
    twostate predicate Progress()
      reads this
    {
      && stack == old(stack) && old(errs) <= errs
      && old(Painted(state, Black)) <= Painted(state, Black)
    }

    method Visit(id: T)
      requires Valid() && id in workflows
      requires stack == [] || Edge(Graph(), stack[|stack| - 1], id)
      modifies this`state, this`stack, this`errs
      ensures Valid() && Progress()
      ensures id in Painted(state, Black) || |errs| > old(|errs|)
      decreases Unvisited(workflows.Keys, state), 1
    {
      if ColorOf(state, id) == Black {
        return;
      }
      if ColorOf(state, id) == Gray {
        assert GrayIsOnStack(state, stack, id);
        Report(id);
        return;
      }
      Explore(id);
    }

    method Explore(id: T)
      requires Valid() && id in workflows && ColorOf(state, id) == White
      requires stack == [] || Edge(Graph(), stack[|stack| - 1], id)
      modifies this`state, this`stack, this`errs
      ensures Valid() && Progress() && id in Painted(state, Black)
      decreases Unvisited(workflows.Keys, state), 0
    {
      Begin(id);
      VisitCalls(id);
      Finish(id, old(stack));
    }

    /** Pushing a workflow that was not seen before. */
    method Begin(id: T)
      requires Valid() && id in workflows && ColorOf(state, id) == White
      requires stack == [] || Edge(Graph(), stack[|stack| - 1], id)
      modifies this`state, this`stack
      ensures Valid() && stack == old(stack) + [id] && id !in old(stack)
      ensures Painted(state, Black) == old(Painted(state, Black))
      ensures Unvisited(workflows.Keys, state) < old(Unvisited(workflows.Keys, state))
    {
      BeginSound(Graph(), workflows.Keys, state, stack, errs, id);
      state := state[id := Gray];
      stack := stack + [id];
    }

    /** The position of id on the stack. */
    method FindOnStack(id: T) returns (at: nat)
      requires id in stack
      ensures at < |stack| && stack[at] == id
    {
      at := 0;
      while at < |stack| && stack[at] != id
        invariant at <= |stack| && id !in stack[..at]
      {
        at := at + 1;
      }
      assert stack[..|stack|] == stack;
    }

    /** The reference closes a cycle: report the stack from id on. */
    method Report(id: T)
      requires Valid() && ColorOf(state, id) == Gray
      requires stack != [] && Edge(Graph(), stack[|stack| - 1], id)
      modifies this`errs
      ensures Valid() && old(errs) <= errs && |errs| == old(|errs|) + 1
    {
      assert GrayIsOnStack(state, stack, id);
      var at := FindOnStack(id);
      StackClosed(Graph(), stack, at, id);
      ReportSound(Graph(), state, stack, errs, stack[at..] + [id]);
      errs := errs + [stack[at..] + [id]];
    }

    /** One reference of the workflow on top of the stack. */
    method VisitCall(id: T, target: T)
      requires Valid() && id in workflows && stack != [] && stack[|stack| - 1] == id
      requires target in CallSet(workflows, workflows[id])
      modifies this`state, this`stack, this`errs
      ensures Valid() && Progress()
      ensures target in Painted(state, Black) || |errs| > old(|errs|)
      decreases Unvisited(workflows.Keys, state), 2
    {
      CallSetIsEdges(workflows, id);
      ReferencesDefined(workflows, id, target);
      Visit(target);
    }

    /** The loop of visit over the steps of a workflow. */
    method VisitCalls(id: T)
      requires Valid() && id in workflows && stack != [] && stack[|stack| - 1] == id
      modifies this`state, this`stack, this`errs
      ensures Valid() && Progress()
      ensures errs == [] ==> forall x :: Edge(Graph(), id, x) ==> x in Painted(state, Black)
      decreases Unvisited(workflows.Keys, state), 3
    {
      var steps := workflows[id];
      ghost var finished: set<T> := {};
      ghost var all, left := CallSet(workflows, steps), CallSet(workflows, steps);
      while steps != []
        invariant Valid() && Progress()
        invariant left == CallSet(workflows, steps) && left <= all && all <= finished + left
        invariant errs == [] ==> finished <= Painted(state, Black)
        decreases |steps|
      {
        var step := steps[0];
        CallSetNext(workflows, steps);
        if step.isCall {
          if step.target in workflows {
            SameGray(Graph(), old(state), state, stack);
            FewerUnvisited(workflows.Keys, old(state), state);
            VisitCall(id, step.target);
            finished := finished + {step.target};
          }
        }
        steps := steps[1..];
        left := CallSet(workflows, steps);
      }
      CallSetIsEdges(workflows, id);
    }

    /** Popping a workflow all of whose references are done. */
    method Finish(id: T, ghost rest: seq<T>)
      requires Valid() && stack == rest + [id] && id !in rest
      requires errs == [] ==> forall x :: Edge(Graph(), id, x) ==> x in Painted(state, Black)
      modifies this`state, this`stack
      ensures Valid() && stack == rest
      ensures Painted(state, Black) == old(Painted(state, Black)) + {id}
    {
      assert GrayIsOnStack(state, stack, id);
      if errs == [] {
        Leave(Graph(), state, id);
      }
      StackPopped(Graph(), state, rest, id);
      stack := stack[..|stack| - 1];
      state := state[id := Black];
    }
  }

  lemma {:induction false} SameGray<T(!new)>(g: Adjacency<T>, a: Coloring<T>, b: Coloring<T>, stack: seq<T>)
    requires StackIs(g, a, stack) && StackIs(g, b, stack)
    ensures Painted(a, Gray) == Painted(b, Gray)
  {
    forall x
      ensures x in Painted(a, Gray) <==> x in Painted(b, Gray)
    {
      assert GrayIsOnStack(a, stack, x) && GrayIsOnStack(b, stack, x);
    }
  }

  lemma {:induction false} StackPopped<T(!new)>(g: Adjacency<T>, color: Coloring<T>, rest: seq<T>, id: T)
    requires StackIs(g, color, rest + [id]) && id !in rest
    ensures StackIs(g, color[id := Black], rest)
    ensures Painted(color[id := Black], Black) == Painted(color, Black) + {id}
  {
    var left, stack := color[id := Black], rest + [id];
    forall x
      ensures GrayIsOnStack(left, rest, x)
    {
      assert GrayIsOnStack(color, stack, x);
      assert x in stack <==> x in rest || x == id;
    }
    if rest != [] {
      forall i
        ensures StepOf(g, rest, i)
      {
        assert StepOf(g, stack, i);
      }
    }
  }

  /**
   Reports are closed walks of references, and there is none exactly when no workflow lies
   on a reference cycle. The ids come in sorted order; any order will do.
   */
  method ValidateReferenceCycles<T(==,!new)>(workflows: Workflows<T>, ids: seq<T>) returns (errs: seq<seq<T>>)
    requires forall id :: id in ids <==> id in workflows
    ensures Reports(References(workflows), errs)
    ensures errs == [] <==> forall x :: !OnCycle(References(workflows), x)
  {
    var search := new RefSearch<T>(workflows);
    ghost var g, done := References(workflows), {};
    var i := 0;
    while i < |ids|
      invariant 0 <= i <= |ids|
      invariant search.workflows == workflows && search.Valid() && search.stack == []
      invariant search.errs == [] ==> done <= Painted(search.state, Black)
      invariant forall id :: id in ids[..i] ==> id in done
    {
      assert ids[i] in workflows;
      search.Visit(ids[i]);
      done := done + {ids[i]};
      i := i + 1;
    }
    assert ids[..|ids|] == ids;
    errs := search.errs;
    if errs == [] {
      forall x | OnCycle(g, x)
        ensures x in workflows
      {
        CycleDefined(workflows, x);
      }
    } else {
      ClosedWalkIsCycle(g, errs[0]);
    }
  }
}
