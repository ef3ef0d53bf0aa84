/**
 validateStepGraph: the back-end check of a flat workflow. Dependencies must name other
 steps, the dependency graph must be acyclic, and a goto must target an ancestor.
 */
module StepGraph {
  import opened Wrappers
  import opened Steps
  import opened Graph
  import Sequence

  datatype GraphError<T> =
    | UnknownDep(step: T, dep: T)
    | SelfDep(step: T)
    | Cycle(step: T)
    | BadGoto(step: T, target: T)

  function Edges(s: Step): (r: seq<string>) {
    s.dependsOn + s.seqDependsOn
  }

  /** The ids a workflow defines. */
  function KnownIds(steps: seq<Step>): (r: set<string>) {
    set s | s in steps && s.id != "" :: s.id
  }

  predicate IsDep<T(==)>(known: set<T>, id: T, d: T) {
    d in known && d != id
  }

  /** The edges that survive the reference check. */
  function ValidDeps<T(==,!new)>(known: set<T>, id: T, edges: seq<T>): (r: seq<T>)
    ensures forall d :: d in r <==> d in edges && IsDep(known, id, d)
    ensures (forall d :: d in edges ==> IsDep(known, id, d)) ==> r == edges
  {
    if edges == [] then []
    else
      var rest := ValidDeps(known, id, edges[1..]);
      if IsDep(known, id, edges[0]) then [edges[0]] + rest else rest
  }

  function RowOf(known: set<string>, s: Step): (r: Row<string>) {
    Row(s.id, ValidDeps(known, s.id, Edges(s)))
  }

  function Rows(known: set<string>, steps: seq<Step>): (r: seq<Row<string>>)
    ensures |r| == |steps|
    ensures forall i :: 0 <= i < |steps| ==> r[i] == RowOf(known, steps[i])
  {
    if steps == [] then [] else Rows(known, steps[..|steps| - 1]) + [RowOf(known, steps[|steps| - 1])]
  }

  /** step -> its direct dependencies. */
  function Deps(steps: seq<Step>): (r: Adjacency<string>) {
    DepsOf(Rows(KnownIds(steps), steps))
  }

  /** Without any edge at all, declaration order is the implicit graph. */
  ghost predicate TargetsAncestor(steps: seq<Step>, id: string, target: string) {
    if Deps(steps) == map[] then
      Sequence.PositionOf(steps, target, |steps|) < Sequence.PositionOf(steps, id, |steps|)
    else Reaches(Deps(steps), id, target)
  }

  ghost predicate GotoOk(steps: seq<Step>, id: string, edge: Option<Outcome>) {
    edge.Some? && edge.value.target != "" && edge.value.target in KnownIds(steps) ==>
      TargetsAncestor(steps, id, edge.value.target)
  }

  ghost predicate StepGotoFault(steps: seq<Step>, s: Step, e: GraphError<string>) {
    || (!GotoOk(steps, s.id, s.onFail) && e == BadGoto(s.id, s.onFail.value.target))
    || (!GotoOk(steps, s.id, s.onConflict) && e == BadGoto(s.id, s.onConflict.value.target))
  }

  ghost predicate EdgesOk<T(!new)>(known: set<T>, id: T, edges: seq<T>) {
    forall d :: d in edges ==> IsDep(known, id, d)
  }

  ghost predicate StepRefsOk(known: set<string>, s: Step) {
    EdgesOk(known, s.id, Edges(s))
  }

  ghost predicate RefsOk(steps: seq<Step>, n: nat)
    requires n <= |steps|
  {
    forall i :: 0 <= i < n ==> StepRefsOk(KnownIds(steps), steps[i])
  }

  ghost predicate Acyclic(steps: seq<Step>) {
    forall x :: !OnCycle(Deps(steps), x)
  }

  ghost predicate StepGotosOk(steps: seq<Step>, s: Step) {
    GotoOk(steps, s.id, s.onFail) && GotoOk(steps, s.id, s.onConflict)
  }

  ghost predicate GotosOk(steps: seq<Step>, n: nat)
    requires n <= |steps|
  {
    forall i :: 0 <= i < n ==> StepGotosOk(steps, steps[i])
  }

  /** What the check accepts. */
  ghost predicate Accepted(steps: seq<Step>) {
    RefsOk(steps, |steps|) && Acyclic(steps) && GotosOk(steps, |steps|)
  }

  lemma {:induction false} OkNext(steps: seq<Step>, i: nat)
    requires i < |steps|
    ensures RefsOk(steps, i + 1) <==> RefsOk(steps, i) && StepRefsOk(KnownIds(steps), steps[i])
    ensures GotosOk(steps, i + 1) <==> GotosOk(steps, i) && StepGotosOk(steps, steps[i])
  {
  }

  // ---------- the loops ----------

  /** One edge after another: what is left of the edges decides the rest. */
  lemma {:induction false} EdgeNext<T(!new)>(known: set<T>, id: T, edges: seq<T>, i: nat)
    requires i < |edges|
    ensures var d, rest := edges[i], ValidDeps(known, id, edges[i + 1..]);
            ValidDeps(known, id, edges[i..]) == if IsDep(known, id, d) then [d] + rest else rest
  {
    assert edges[i..][1..] == edges[i + 1..];
  }

  lemma {:induction false} GraphNext<T(!new)>(adj: Adjacency<T>, deps: Adjacency<T>, id: T, d: T, rest: seq<T>)
    ensures AddDependents(adj, id, [d] + rest) == AddDependents(AddEdge(adj, d, id), id, rest)
    ensures AddDeps(deps, id, [d] + rest) == AddDeps(AddEdge(deps, id, d), id, rest)
  {
    assert ([d] + rest)[1..] == rest;
  }

  /** What is wrong with an edge: it names no step, or the step itself. */
  predicate EdgeFault<T(==)>(known: set<T>, id: T, edges: seq<T>, e: GraphError<T>) {
    match e
    case UnknownDep(s, d) => s == id && d in edges && d !in known
    case SelfDep(s) => s == id && s in edges && s in known
    case _ => false
  }

  ghost predicate EdgeFaults<T(!new)>(known: set<T>, id: T, edges: seq<T>, n: nat, errs: seq<GraphError<T>>)
    requires n <= |edges|
  {
    forall e :: e in errs <==> EdgeFault(known, id, edges[..n], e)
  }

  /** The error of one edge. */
  function EdgeError<T(==)>(known: set<T>, id: T, d: T): (r: seq<GraphError<T>>) {
    if d !in known then [UnknownDep(id, d)] else if d == id then [SelfDep(id)] else []
  }

  lemma {:induction false} FaultNext<T(!new)>(known: set<T>, id: T, edges: seq<T>, i: nat, errs: seq<GraphError<T>>)
    requires i < |edges| && EdgeFaults(known, id, edges, i, errs)
    ensures EdgeFaults(known, id, edges, i + 1, errs + EdgeError(known, id, edges[i]))
    ensures EdgeError(known, id, edges[i]) == [] ==> errs + EdgeError(known, id, edges[i]) == errs
  {
    assert edges[..i + 1] == edges[..i] + [edges[i]];
    forall e
      ensures e in errs + EdgeError(known, id, edges[i]) <==> EdgeFault(known, id, edges[..i + 1], e)
    {
      assert e in EdgeError(known, id, edges[i]) <==> EdgeFault(known, id, [edges[i]], e);
    }
  }

  predicate AllDeps<T(==)>(known: set<T>, id: T, edges: seq<T>, n: nat)
    requires n <= |edges|
  {
    n == 0 || (AllDeps(known, id, edges, n - 1) && IsDep(known, id, edges[n - 1]))
  }

  lemma {:induction false} AllDepsMean<T(!new)>(known: set<T>, id: T, edges: seq<T>, n: nat)
    requires n <= |edges|
    ensures AllDeps(known, id, edges, n) <==> EdgesOk(known, id, edges[..n])
    ensures n == |edges| ==> edges[..n] == edges
  {
    if n > 0 {
      AllDepsMean(known, id, edges, n - 1);
      assert edges[..n] == edges[..n - 1] + [edges[n - 1]];
    }
  }

  /** The loop over one step's edges. */
  method AddStep<T(==,!new)>(known: set<T>, id: T, edges: seq<T>, adj0: Adjacency<T>, deps0: Adjacency<T>)
    returns (adj: Adjacency<T>, deps: Adjacency<T>, errs: seq<GraphError<T>>)
    ensures adj == AddDependents(adj0, id, ValidDeps(known, id, edges))
    ensures deps == AddDeps(deps0, id, ValidDeps(known, id, edges))
    ensures |errs| == 0 <==> EdgesOk(known, id, edges)
    ensures EdgeFaults(known, id, edges, |edges|, errs)
  {
    adj, deps, errs := adj0, deps0, [];
    var i := 0;
    ghost var rest := ValidDeps(known, id, edges);
    assert edges[0..] == edges;
    while i < |edges|
      invariant 0 <= i <= |edges| && rest == ValidDeps(known, id, edges[i..])
      invariant AddDependents(adj, id, rest) == AddDependents(adj0, id, ValidDeps(known, id, edges))
      invariant AddDeps(deps, id, rest) == AddDeps(deps0, id, ValidDeps(known, id, edges))
      invariant |errs| == 0 <==> AllDeps(known, id, edges, i)
      invariant EdgeFaults(known, id, edges, i, errs)
    {
      var d := edges[i];
      EdgeNext(known, id, edges, i);
      FaultNext(known, id, edges, i, errs);
      rest := ValidDeps(known, id, edges[i + 1..]);
      if d !in known {
        errs := errs + [UnknownDep(id, d)];
      } else if d == id {
        errs := errs + [SelfDep(id)];
      } else {
        GraphNext(adj, deps, id, d, rest);
        adj := AddEdge(adj, d, id);
        deps := AddEdge(deps, id, d);
      }
      i := i + 1;
    }
    AllDepsMean(known, id, edges, |edges|);
  }

  /** One of the first n steps has the faulty edge. */
  ghost predicate RefFault(steps: seq<Step>, n: nat, e: GraphError<string>)
    requires n <= |steps|
  {
    exists k :: 0 <= k < n && EdgeFault(KnownIds(steps), steps[k].id, Edges(steps[k]), e)
  }

  /** One of the first n steps has the faulty goto. */
  ghost predicate GotoFault(steps: seq<Step>, n: nat, e: GraphError<string>)
    requires n <= |steps|
  {
    exists k :: 0 <= k < n && StepGotoFault(steps, steps[k], e)
  }

  ghost predicate RefFaultsAre(steps: seq<Step>, n: nat, errs: seq<GraphError<string>>)
    requires n <= |steps|
  {
    forall e :: e in errs <==> RefFault(steps, n, e)
  }

  ghost predicate GotoFaultsAre(steps: seq<Step>, n: nat, errs: seq<GraphError<string>>)
    requires n <= |steps|
  {
    forall e :: e in errs <==> GotoFault(steps, n, e)
  }

  lemma {:induction false} RefFaultsNext(steps: seq<Step>, i: nat, errs: seq<GraphError<string>>, more: seq<GraphError<string>>)
    requires i < |steps| && RefFaultsAre(steps, i, errs)
    requires EdgeFaults(KnownIds(steps), steps[i].id, Edges(steps[i]), |Edges(steps[i])|, more)
    ensures RefFaultsAre(steps, i + 1, errs + more)
  {
    assert Edges(steps[i])[..|Edges(steps[i])|] == Edges(steps[i]);
    forall e
      ensures e in errs + more <==> RefFault(steps, i + 1, e)
    {
      assert RefFault(steps, i + 1, e) <==>
          RefFault(steps, i, e) || EdgeFault(KnownIds(steps), steps[i].id, Edges(steps[i]), e);
    }
  }

  ghost predicate StepGotoFaults(steps: seq<Step>, s: Step, errs: seq<GraphError<string>>) {
    forall e :: e in errs <==> StepGotoFault(steps, s, e)
  }

  lemma {:induction false} BothGotos(steps: seq<Step>, s: Step, fail: seq<GraphError<string>>, conflict: seq<GraphError<string>>)
    requires fail == if GotoOk(steps, s.id, s.onFail) then [] else [BadGoto(s.id, s.onFail.value.target)]
    requires conflict == if GotoOk(steps, s.id, s.onConflict) then [] else [BadGoto(s.id, s.onConflict.value.target)]
    ensures StepGotoFaults(steps, s, fail + conflict)
    ensures |fail + conflict| == 0 <==> StepGotosOk(steps, s)
  {
  }

  lemma {:induction false} GotoFaultsNext(steps: seq<Step>, i: nat, errs: seq<GraphError<string>>, more: seq<GraphError<string>>)
    requires i < |steps| && GotoFaultsAre(steps, i, errs) && StepGotoFaults(steps, steps[i], more)
    ensures GotoFaultsAre(steps, i + 1, errs + more)
  {
    forall e
      ensures e in errs + more <==> GotoFault(steps, i + 1, e)
    {
      GotoFaultNext(steps, i, e);
    }
  }

  lemma {:induction false} GotoFaultNext(steps: seq<Step>, i: nat, e: GraphError<string>)
    requires i < |steps|
    ensures GotoFault(steps, i + 1, e) <==> GotoFault(steps, i, e) || StepGotoFault(steps, steps[i], e)
  {
    if GotoFault(steps, i + 1, e) {
      var k :| 0 <= k < i + 1 && StepGotoFault(steps, steps[k], e);
      assert k < i || k == i;
    }
    if GotoFault(steps, i, e) {
      var k :| 0 <= k < i && StepGotoFault(steps, steps[k], e);
    }
  }

  method BuildGraph(known: set<string>, steps: seq<Step>)
    returns (adj: Adjacency<string>, deps: Adjacency<string>, errs: seq<GraphError<string>>)
    requires known == KnownIds(steps)
    ensures adj == DependentsOf(Rows(known, steps))
    ensures deps == DepsOf(Rows(known, steps))
    ensures |errs| == 0 <==> RefsOk(steps, |steps|)
    ensures RefFaultsAre(steps, |steps|, errs)
  {
    ghost var rows := Rows(known, steps);
    adj, deps, errs := map[], map[], [];
    var i := 0;
    while i < |steps|
      invariant 0 <= i <= |steps|
      invariant adj == DependentsOf(rows[..i]) && deps == DepsOf(rows[..i])
      invariant |errs| == 0 <==> RefsOk(steps, i)
      invariant RefFaultsAre(steps, i, errs)
    {
      var more;
      adj, deps, more := AddStep(known, steps[i].id, Edges(steps[i]), adj, deps);
      RefFaultsNext(steps, i, errs, more);
      errs := errs + more;
      PrefixGrows(rows, i);
      OkNext(steps, i);
      i := i + 1;
    }
    assert rows[..|steps|] == rows;
  }

  lemma {:induction false} EdgesBetweenSteps(steps: seq<Step>, a: string, b: string)
    requires Edge(DependentsOf(Rows(KnownIds(steps), steps)), a, b)
    ensures a in Ids(steps) && b in Ids(steps) && a != ""
  {
    var rows := Rows(KnownIds(steps), steps);
    BuiltEdges(rows, b, a);
    var i :| 0 <= i < |rows| && rows[i].node == b && a in rows[i].deps;
    assert Ids(steps)[i] == b;
    var s :| s in steps && s.id != "" && s.id == a;
    var k :| 0 <= k < |steps| && steps[k] == s;
    assert Ids(steps)[k] == a;
  }

  lemma {:induction false} NoCycleThroughEmpty(steps: seq<Step>)
    ensures !OnCycle(DependentsOf(Rows(KnownIds(steps), steps)), "")
  {
    var g := DependentsOf(Rows(KnownIds(steps), steps));
    if OnCycle(g, "") {
      var m := ReachesHead(g, "", "");
      EdgesBetweenSteps(steps, "", m);
    }
  }

  /** The loop over the goto edges. */
  method CheckGotos(steps: seq<Step>, deps: Adjacency<string>) returns (errs: seq<GraphError<string>>)
    requires deps == Deps(steps)
    ensures |errs| == 0 <==> GotosOk(steps, |steps|)
    ensures GotoFaultsAre(steps, |steps|, errs)
  {
    errs := [];
    var i := 0;
    while i < |steps|
      invariant 0 <= i <= |steps|
      invariant |errs| == 0 <==> GotosOk(steps, i)
      invariant GotoFaultsAre(steps, i, errs)
    {
      var fail := CheckGoto(steps, deps, steps[i].id, steps[i].onFail);
      var conflict := CheckGoto(steps, deps, steps[i].id, steps[i].onConflict);
      BothGotos(steps, steps[i], fail, conflict);
      GotoFaultsNext(steps, i, errs, fail + conflict);
      errs := errs + (fail + conflict);
      OkNext(steps, i);
      i := i + 1;
    }
  }

  method CheckGoto(steps: seq<Step>, deps: Adjacency<string>, id: string, edge: Option<Outcome>)
    returns (errs: seq<GraphError<string>>)
    requires deps == Deps(steps)
    ensures errs == if GotoOk(steps, id, edge) then [] else [BadGoto(id, edge.value.target)]
  {
    errs := [];
    if edge.Some? && edge.value.target != "" && edge.value.target in KnownIds(steps) {
      var ok;
      if deps == map[] {
        ok := Sequence.PositionOf(steps, edge.value.target, |steps|) < Sequence.PositionOf(steps, id, |steps|);
      } else {
        ok := IsAncestor(id, edge.value.target, deps);
      }
      if !ok {
        errs := [BadGoto(id, edge.value.target)];
      }
    }
  }

  // ---------- what is reported, on the steps themselves ----------

  ghost predicate Defined(steps: seq<Step>, x: string) {
    x != "" && exists k :: 0 <= k < |steps| && steps[k].id == x
  }

  /** Step k, called a, names d as a dependency, explicit or sequential. */
  ghost predicate AsksAt(steps: seq<Step>, k: int, a: string, d: string) {
    0 <= k < |steps| && steps[k].id == a && (d in steps[k].dependsOn || d in steps[k].seqDependsOn)
  }

  ghost predicate Asks(steps: seq<Step>, a: string, d: string) {
    exists k :: AsksAt(steps, k, a, d)
  }

  /** A step called a waits for another step b. */
  ghost predicate WaitsFor(steps: seq<Step>, a: string, b: string) {
    a != b && Defined(steps, b) && Asks(steps, a, b)
  }

  ghost predicate LastAt(steps: seq<Step>, k: int, x: string) {
    0 <= k < |steps| && steps[k].id == x && forall j :: k < j < |steps| ==> steps[j].id != x
  }

  /** The last step called x is declared before the last one called y. */
  ghost predicate DeclaredBefore(steps: seq<Step>, x: string, y: string) {
    exists p, q :: LastAt(steps, p, x) && LastAt(steps, q, y) && p < q
  }

  /** What a goto may target: a transitive dependency or, when no step waits for another, a step declared before. */
  ghost predicate MayTarget(steps: seq<Step>, a: string, target: string) {
    if exists x, y :: WaitsFor(steps, x, y) then Reaches(Deps(steps), a, target) else DeclaredBefore(steps, target, a)
  }

  /** Step k, called a, goes to the target when it fails or meets a conflict. */
  ghost predicate GoesAt(steps: seq<Step>, k: int, a: string, target: string) {
    && 0 <= k < |steps| && steps[k].id == a
    && (|| (steps[k].onFail.Some? && steps[k].onFail.value.target == target)
        || (steps[k].onConflict.Some? && steps[k].onConflict.value.target == target))
  }

  /** The errors of a workflow, in terms of its steps. */
  ghost predicate Faulty(steps: seq<Step>, e: GraphError<string>) {
    match e
    case UnknownDep(a, d) => !Defined(steps, d) && Asks(steps, a, d)
    case SelfDep(a) => Defined(steps, a) && Asks(steps, a, a)
    case Cycle(a) => OnCycle(Deps(steps), a)
    case BadGoto(a, t) => Defined(steps, t) && !MayTarget(steps, a, t) && exists k :: GoesAt(steps, k, a, t)
  }

  lemma {:induction false} KnownIs(steps: seq<Step>, x: string)
    ensures x in KnownIds(steps) <==> Defined(steps, x)
  {
    if Defined(steps, x) {
      var k :| 0 <= k < |steps| && steps[k].id == x;
      assert steps[k] in steps;
    }
  }

  /** The edges of the graph are exactly the waits of the steps. */
  lemma {:induction false} EdgesAreWaits(steps: seq<Step>, a: string, b: string)
    ensures Edge(Deps(steps), a, b) <==> WaitsFor(steps, a, b)
  {
    var rows := Rows(KnownIds(steps), steps);
    BuiltEdges(rows, a, b);
    KnownIs(steps, b);
    if Declares(rows, a, b) {
      var i :| 0 <= i < |rows| && rows[i].node == a && b in rows[i].deps;
      RowAsks(steps, i, b);
    }
    if WaitsFor(steps, a, b) {
      var k :| AsksAt(steps, k, a, b);
      RowAsks(steps, k, b);
      assert rows[k].node == a && b in rows[k].deps;
    }
  }

  lemma {:induction false} RowAsks(steps: seq<Step>, k: nat, b: string)
    requires k < |steps|
    ensures b in Rows(KnownIds(steps), steps)[k].deps <==>
            AsksAt(steps, k, steps[k].id, b) && b in KnownIds(steps) && b != steps[k].id
  {
  }

  lemma {:induction false} NoEdgesNoWaits(steps: seq<Step>)
    ensures Deps(steps) == map[] <==> forall a, b :: !WaitsFor(steps, a, b)
  {
    var g := Deps(steps);
    DepsNonEmpty(Rows(KnownIds(steps), steps));
    if g == map[] {
      forall a, b
        ensures !WaitsFor(steps, a, b)
      {
        EdgesAreWaits(steps, a, b);
      }
    } else {
      var a :| a in g;
      EdgesAreWaits(steps, a, g[a][0]);
      assert Edge(g, a, g[a][0]);
    }
  }

  lemma {:induction false} AddsNonEmpty<T(!new)>(g: Adjacency<T>, node: T, ds: seq<T>)
    requires forall a :: a in g ==> g[a] != []
    ensures forall a :: a in AddDeps(g, node, ds) ==> AddDeps(g, node, ds)[a] != []
    decreases |ds|
  {
    if ds != [] {
      AddsNonEmpty(AddEdge(g, node, ds[0]), node, ds[1..]);
    }
  }

  lemma {:induction false} DepsNonEmpty<T(!new)>(rows: seq<Row<T>>)
    ensures forall a :: a in DepsOf(rows) ==> DepsOf(rows)[a] != []
  {
    if rows != [] {
      var last := rows[|rows| - 1];
      DepsNonEmpty(rows[..|rows| - 1]);
      AddsNonEmpty(DepsOf(rows[..|rows| - 1]), last.node, last.deps);
    }
  }

  lemma {:induction false} PositionIsLast(steps: seq<Step>, x: string, n: nat)
    requires n <= |steps| && exists k :: 0 <= k < n && steps[k].id == x
    ensures var p := Sequence.PositionOf(steps, x, n);
            p < n && steps[p].id == x && forall j :: p < j < n ==> steps[j].id != x
  {
    if steps[n - 1].id != x {
      PositionIsLast(steps, x, n - 1);
    }
  }

  lemma {:induction false} TargetsMayTarget(steps: seq<Step>, a: string, t: string)
    requires Defined(steps, t) && exists k :: 0 <= k < |steps| && steps[k].id == a
    ensures TargetsAncestor(steps, a, t) <==> MayTarget(steps, a, t)
  {
    NoEdgesNoWaits(steps);
    PositionIsLast(steps, a, |steps|);
    PositionIsLast(steps, t, |steps|);
    var p, q := Sequence.PositionOf(steps, t, |steps|), Sequence.PositionOf(steps, a, |steps|);
    assert LastAt(steps, p, t) && LastAt(steps, q, a);
    DeclaredAt(steps, p, t, q, a);
  }

  lemma {:induction false} DeclaredAt(steps: seq<Step>, p: int, x: string, q: int, y: string)
    requires LastAt(steps, p, x) && LastAt(steps, q, y)
    ensures DeclaredBefore(steps, x, y) <==> p < q
  {
    if DeclaredBefore(steps, x, y) {
      var k, l :| LastAt(steps, k, x) && LastAt(steps, l, y) && k < l;
      assert k == p && l == q;
    }
  }

  lemma {:induction false} RefFaults(steps: seq<Step>, e: GraphError<string>)
    requires e.UnknownDep? || e.SelfDep?
    ensures RefFault(steps, |steps|, e) <==> Faulty(steps, e)
  {
    var d := if e.UnknownDep? then e.dep else e.step;
    KnownIs(steps, d);
    if RefFault(steps, |steps|, e) {
      var k :| 0 <= k < |steps| && EdgeFault(KnownIds(steps), steps[k].id, Edges(steps[k]), e);
      assert AsksAt(steps, k, e.step, d);
    }
    if Faulty(steps, e) {
      var k :| AsksAt(steps, k, e.step, d);
      assert EdgeFault(KnownIds(steps), steps[k].id, Edges(steps[k]), e);
    }
  }

  lemma {:induction false} GotoFaultAt(steps: seq<Step>, k: nat, t: string)
    requires k < |steps|
    ensures StepGotoFault(steps, steps[k], BadGoto(steps[k].id, t)) <==>
            Defined(steps, t) && !MayTarget(steps, steps[k].id, t) && GoesAt(steps, k, steps[k].id, t)
  {
    KnownIs(steps, t);
    if Defined(steps, t) {
      TargetsMayTarget(steps, steps[k].id, t);
    }
  }

  lemma {:induction false} GotoFaults(steps: seq<Step>, a: string, t: string)
    ensures GotoFault(steps, |steps|, BadGoto(a, t)) <==> Faulty(steps, BadGoto(a, t))
  {
    var e := BadGoto(a, t);
    if GotoFault(steps, |steps|, e) {
      var k :| 0 <= k < |steps| && StepGotoFault(steps, steps[k], e);
      GotoFaultAt(steps, k, t);
    }
    if Faulty(steps, e) {
      var k :| GoesAt(steps, k, a, t);
      GotoFaultAt(steps, k, t);
    }
  }

  lemma {:induction false} OnlyGotos(steps: seq<Step>, e: GraphError<string>)
    ensures GotoFault(steps, |steps|, e) ==> e.BadGoto?
    ensures RefFault(steps, |steps|, e) ==> e.UnknownDep? || e.SelfDep?
  {
  }

  /** Everything that is reported is wrong, and everything that is wrong is reported; of cycles, one step. */
  ghost predicate ReportsFaults(steps: seq<Step>, errs: seq<GraphError<string>>) {
    && (forall e :: e in errs ==> Faulty(steps, e))
    && (forall e :: Faulty(steps, e) && !e.Cycle? ==> e in errs)
    && ((exists a :: Faulty(steps, Cycle(a))) ==> exists a :: Cycle(a) in errs)
  }

  lemma {:induction false} ErrorsAreFaults(
    steps: seq<Step>, refs: seq<GraphError<string>>, c: string, gotos: seq<GraphError<string>>)
    requires RefFaultsAre(steps, |steps|, refs) && GotoFaultsAre(steps, |steps|, gotos)
    requires (c == "" <==> forall x :: !OnCycle(Deps(steps), x)) && (c != "" ==> OnCycle(Deps(steps), c))
    ensures ReportsFaults(steps, refs + (if c != "" then [Cycle(c)] else []) + gotos)
  {
    var errs := refs + (if c != "" then [Cycle(c)] else []) + gotos;
    assert c != "" ==> Cycle(c) in errs;
    forall e
      ensures e in errs ==> Faulty(steps, e)
      ensures Faulty(steps, e) && !e.Cycle? ==> e in errs
    {
      OnlyGotos(steps, e);
      if e.BadGoto? {
        GotoFaults(steps, e.step, e.target);
      } else if !e.Cycle? {
        RefFaults(steps, e);
      }
    }
  }

  /** The check reports exactly what is wrong, and nothing exactly for the accepted workflows. */
  method ValidateStepGraph(steps: seq<Step>) returns (errs: seq<GraphError<string>>)
    ensures |errs| == 0 <==> Accepted(steps)
    ensures ReportsFaults(steps, errs)
  {
    var adj, deps, refErrs := BuildGraph(KnownIds(steps), steps);
    ghost var rows := Rows(KnownIds(steps), steps);
    forall a, b | Edge(adj, a, b)
      ensures a in Ids(steps) && b in Ids(steps)
    {
      EdgesBetweenSteps(steps, a, b);
    }
    NoCycleThroughEmpty(steps);
    var c := FindCycle("", Ids(steps), adj);
    forall x
      ensures OnCycle(adj, x) <==> OnCycle(deps, x)
    {
      CyclesAgree(rows, x);
    }
    var gotoErrs := CheckGotos(steps, deps);
    ErrorsAreFaults(steps, refErrs, c, gotoErrs);
    errs := refErrs + (if c != "" then [Cycle(c)] else []) + gotoErrs;
  }

  // ---------- workflows in which every step has at most one edge ----------

  ghost predicate NamedOnce(steps: seq<Step>) {
    && (forall i :: 0 <= i < |steps| ==> steps[i].id != "")
    && (forall i, j :: 0 <= i < j < |steps| ==> steps[i].id != steps[j].id)
  }

  ghost predicate SingleEdges(steps: seq<Step>, up: seq<int>) {
    && |up| == |steps|
    && (forall i :: 0 <= i < |steps| ==> up[i] < i)
    && (forall i :: 0 <= i < |steps| ==> Edges(steps[i]) == if up[i] < 0 then [] else [steps[up[i]].id])
  }

  lemma {:induction false} SingleEdgesRow(steps: seq<Step>, up: seq<int>, i: nat)
    requires NamedOnce(steps) && SingleEdges(steps, up) && i < |steps|
    ensures StepRefsOk(KnownIds(steps), steps[i])
    ensures Rows(KnownIds(steps), steps)[i] == Row(steps[i].id, Edges(steps[i]))
  {
    SingleEdgesOk(steps, up, i);
    AllValid(KnownIds(steps), steps[i].id, Edges(steps[i]));
  }

  lemma {:induction false} SingleEdgesOk(steps: seq<Step>, up: seq<int>, i: nat)
    requires NamedOnce(steps) && SingleEdges(steps, up) && i < |steps|
    ensures StepRefsOk(KnownIds(steps), steps[i])
  {
    if up[i] >= 0 {
      assert steps[up[i]] in steps;
      assert steps[up[i]].id in KnownIds(steps);
    }
  }

  lemma {:induction false} AllValid<T(!new)>(known: set<T>, id: T, edges: seq<T>)
    requires EdgesOk(known, id, edges)
    ensures ValidDeps(known, id, edges) == edges
  {
  }

  lemma {:induction false} SingleEdgesSucc(steps: seq<Step>, up: seq<int>, i: nat)
    requires NamedOnce(steps) && SingleEdges(steps, up) && i < |steps|
    ensures Succ(Deps(steps), steps[i].id) == Edges(steps[i])
  {
    var rows := Rows(KnownIds(steps), steps);
    SingleEdgesRow(steps, up, i);
    SuccOfRow(rows, steps[i].id);
  }

  lemma {:induction false} EdgeFromStep(steps: seq<Step>, a: string, b: string)
    requires Edge(Deps(steps), a, b)
    ensures a in Ids(steps)
  {
    var rows := Rows(KnownIds(steps), steps);
    BuiltEdges(rows, a, b);
    var i :| 0 <= i < |rows| && rows[i].node == a && b in rows[i].deps;
    assert Ids(steps)[i] == a;
  }

  lemma {:induction false} SingleEdgesForest(steps: seq<Step>, up: seq<int>)
    requires NamedOnce(steps) && SingleEdges(steps, up)
    ensures Forest(Deps(steps), Ids(steps), up)
  {
    forall i | 0 <= i < |steps|
      ensures Succ(Deps(steps), Ids(steps)[i]) == if up[i] < 0 then [] else [Ids(steps)[up[i]]]
    {
      SingleEdgesSucc(steps, up, i);
    }
  }

  lemma {:induction false} SingleEdgesRefsOk(steps: seq<Step>, up: seq<int>)
    requires NamedOnce(steps) && SingleEdges(steps, up)
    ensures RefsOk(steps, |steps|)
  {
    forall i | 0 <= i < |steps|
      ensures StepRefsOk(KnownIds(steps), steps[i])
    {
      SingleEdgesRow(steps, up, i);
    }
  }

  lemma {:induction false} SingleEdgesAcyclic(steps: seq<Step>, up: seq<int>)
    requires NamedOnce(steps) && SingleEdges(steps, up)
    ensures Acyclic(steps)
  {
    SingleEdgesForest(steps, up);
    forall a, b | Edge(Deps(steps), a, b)
      ensures a in Ids(steps)
    {
      EdgeFromStep(steps, a, b);
    }
    forall x
      ensures !OnCycle(Deps(steps), x)
    {
      ForestAcyclic(Deps(steps), Ids(steps), up, x);
    }
  }
}
