/**
 The two searches behind the dependency-graph check of a workflow: a white/gray/black
 depth-first search for cycles and a breadth-first ancestor query. Both are proved
 against one definition, paths in the graph.
 */
module Graph {

  type Adjacency<T> = map<T, seq<T>>

  function Succ<T(==)>(g: Adjacency<T>, a: T): (r: seq<T>) {
    if a in g then g[a] else []
  }

  ghost predicate Edge<T(!new)>(g: Adjacency<T>, a: T, b: T) {
    b in Succ(g, a)
  }

  ghost predicate StepOf<T(!new)>(g: Adjacency<T>, p: seq<T>, i: int) {
    0 <= i < |p| - 1 ==> Edge(g, p[i], p[i + 1])
  }

  /** p is a walk along edges; a single node is a walk without edges. */
  ghost predicate Walk<T(!new)>(g: Adjacency<T>, p: seq<T>) {
    p != [] && forall i :: StepOf(g, p, i)
  }

  ghost predicate WalkFromTo<T(!new)>(g: Adjacency<T>, p: seq<T>, a: T, b: T) {
    Walk(g, p) && p[0] == a && p[|p| - 1] == b
  }

  /** b can be reached from a over at least one edge. */
  ghost predicate Reaches<T(!new)>(g: Adjacency<T>, a: T, b: T) {
    exists p :: |p| >= 2 && WalkFromTo(g, p, a, b)
  }

  ghost predicate OnCycle<T(!new)>(g: Adjacency<T>, a: T) {
    Reaches(g, a, a)
  }

  lemma {:induction false} EdgeReaches<T(!new)>(g: Adjacency<T>, a: T, b: T)
    requires Edge(g, a, b)
    ensures Reaches(g, a, b)
  {
    var p := [a, b];
    forall i
      ensures StepOf(g, p, i)
    {
    }
    assert WalkFromTo(g, p, a, b);
  }

  lemma {:induction false} ReachesTrans<T(!new)>(g: Adjacency<T>, a: T, b: T, c: T)
    requires Reaches(g, a, b) && Reaches(g, b, c)
    ensures Reaches(g, a, c)
  {
    var p :| |p| >= 2 && WalkFromTo(g, p, a, b);
    var q :| |q| >= 2 && WalkFromTo(g, q, b, c);
    var r := p + q[1..];
    forall i
      ensures StepOf(g, r, i)
    {
      assert StepOf(g, p, i);
      assert StepOf(g, q, i - (|p| - 1));
    }
    assert WalkFromTo(g, r, a, c);
  }

  /** The first edge of a connection. */
  lemma {:induction false} ReachesHead<T(!new)>(g: Adjacency<T>, a: T, b: T) returns (m: T)
    requires Reaches(g, a, b)
    ensures Edge(g, a, m)
    ensures m == b || Reaches(g, m, b)
  {
    var p :| |p| >= 2 && WalkFromTo(g, p, a, b);
    m := p[1];
    assert StepOf(g, p, 0);
    if |p| > 2 {
      var q := p[1..];
      forall i
        ensures StepOf(g, q, i)
      {
        assert StepOf(g, p, i + 1);
      }
      assert WalkFromTo(g, q, m, b);
    }
  }

  ghost predicate Closed<T(!new)>(g: Adjacency<T>, s: set<T>) {
    forall a, b :: a in s && Edge(g, a, b) ==> b in s
  }

  lemma {:induction false} WalkStaysIn<T(!new)>(g: Adjacency<T>, s: set<T>, p: seq<T>, i: nat)
    requires Closed(g, s) && Walk(g, p) && p[0] in s
    requires i < |p|
    ensures p[i] in s
  {
    if i > 0 {
      WalkStaysIn(g, s, p, i - 1);
      assert StepOf(g, p, i - 1);
    }
  }

  /** What is reachable from a closed set lies in it. */
  lemma {:induction false} ReachStaysIn<T(!new)>(g: Adjacency<T>, s: set<T>, a: T, b: T)
    requires Closed(g, s) && a in s && Reaches(g, a, b)
    ensures b in s
  {
    var p :| |p| >= 2 && WalkFromTo(g, p, a, b);
    WalkStaysIn(g, s, p, |p| - 1);
  }

  // ---------- building the two adjacency maps ----------

  /** One node and the nodes it depends on. */
  datatype Row<T> = Row(node: T, deps: seq<T>)

  function AddEdge<T(==)>(g: Adjacency<T>, a: T, b: T): (r: Adjacency<T>) {
    g[a := Succ(g, a) + [b]]
  }

  /** deps: node -> each of ds. */
  function AddDeps<T(==)>(g: Adjacency<T>, node: T, ds: seq<T>): (r: Adjacency<T>)
    decreases |ds|
  {
    if ds == [] then g else AddDeps(AddEdge(g, node, ds[0]), node, ds[1..])
  }

  /** adj: each of ds -> node. */
  function AddDependents<T(==)>(g: Adjacency<T>, node: T, ds: seq<T>): (r: Adjacency<T>)
    decreases |ds|
  {
    if ds == [] then g else AddDependents(AddEdge(g, ds[0], node), node, ds[1..])
  }

  function DepsOf<T(==)>(rows: seq<Row<T>>): (r: Adjacency<T>) {
    if rows == [] then map[]
    else
      var last := rows[|rows| - 1];
      AddDeps(DepsOf(rows[..|rows| - 1]), last.node, last.deps)
  }

  function DependentsOf<T(==)>(rows: seq<Row<T>>): (r: Adjacency<T>) {
    if rows == [] then map[]
    else
      var last := rows[|rows| - 1];
      AddDependents(DependentsOf(rows[..|rows| - 1]), last.node, last.deps)
  }

  lemma {:induction false} PrefixGrows<T>(rows: seq<Row<T>>, i: nat)
    requires i < |rows|
    ensures DepsOf(rows[..i + 1]) == AddDeps(DepsOf(rows[..i]), rows[i].node, rows[i].deps)
    ensures DependentsOf(rows[..i + 1]) == AddDependents(DependentsOf(rows[..i]), rows[i].node, rows[i].deps)
  {
    var more := rows[..i + 1];
    assert more[..|more| - 1] == rows[..i];
  }

  ghost predicate Declares<T(!new)>(rows: seq<Row<T>>, x: T, d: T) {
    exists i :: 0 <= i < |rows| && rows[i].node == x && d in rows[i].deps
  }

  lemma {:induction false} AddDepsEdges<T(!new)>(g: Adjacency<T>, node: T, ds: seq<T>, x: T, d: T)
    ensures Edge(AddDeps(g, node, ds), x, d) <==> Edge(g, x, d) || (x == node && d in ds)
    ensures Edge(AddDependents(g, node, ds), d, x) <==> Edge(g, d, x) || (x == node && d in ds)
    decreases |ds|
  {
    if ds != [] {
      AddDepsEdges(AddEdge(g, node, ds[0]), node, ds[1..], x, d);
      AddDepsEdges(AddEdge(g, ds[0], node), node, ds[1..], x, d);
      assert d in ds <==> d == ds[0] || d in ds[1..];
    }
  }

  lemma {:induction false} DeclaresLast<T(!new)>(rows: seq<Row<T>>, x: T, d: T)
    requires rows != []
    ensures Declares(rows, x, d) <==>
            || Declares(rows[..|rows| - 1], x, d)
            || (rows[|rows| - 1].node == x && d in rows[|rows| - 1].deps)
  {
    var n := |rows| - 1;
    if Declares(rows[..n], x, d) {
      var i :| 0 <= i < n && rows[..n][i].node == x && d in rows[..n][i].deps;
      assert rows[i].node == x;
    }
    if Declares(rows, x, d) && !(rows[n].node == x && d in rows[n].deps) {
      var i :| 0 <= i < |rows| && rows[i].node == x && d in rows[i].deps;
      assert rows[..n][i] == rows[i];
    }
  }

  /** Both maps hold exactly the declared dependencies, in opposite directions. */
  lemma {:induction false} BuiltEdges<T(!new)>(rows: seq<Row<T>>, x: T, d: T)
    ensures Edge(DepsOf(rows), x, d) <==> Declares(rows, x, d)
    ensures Edge(DependentsOf(rows), d, x) <==> Declares(rows, x, d)
  {
    if rows != [] {
      var init, last := rows[..|rows| - 1], rows[|rows| - 1];
      BuiltEdges(init, x, d);
      AddDepsEdges(DepsOf(init), last.node, last.deps, x, d);
      AddDepsEdges(DependentsOf(init), last.node, last.deps, x, d);
      DeclaresLast(rows, x, d);
    }
  }

  lemma {:induction false} AddDepsSucc<T>(g: Adjacency<T>, node: T, ds: seq<T>, x: T)
    ensures Succ(AddDeps(g, node, ds), x) == if x == node then Succ(g, x) + ds else Succ(g, x)
    decreases |ds|
  {
    if ds != [] {
      AddDepsSucc(AddEdge(g, node, ds[0]), node, ds[1..], x);
      if x == node {
        assert Succ(AddEdge(g, node, ds[0]), x) == Succ(g, x) + [ds[0]];
        assert Succ(g, x) + [ds[0]] + ds[1..] == Succ(g, x) + ds;
      }
    } else {
      assert Succ(g, x) + ds == Succ(g, x);
    }
  }

  /** A node declared once has exactly the dependencies of its row; other names have none. */
  lemma {:induction false} SuccOfRow<T(!new)>(rows: seq<Row<T>>, x: T)
    requires forall i, j :: 0 <= i < j < |rows| ==> rows[i].node != rows[j].node
    ensures forall i :: 0 <= i < |rows| && rows[i].node == x ==> Succ(DepsOf(rows), x) == rows[i].deps
    ensures (forall i :: 0 <= i < |rows| ==> rows[i].node != x) ==> Succ(DepsOf(rows), x) == []
  {
    if rows != [] {
      var n := |rows| - 1;
      var init := rows[..n];
      SuccOfRow(init, x);
      AddDepsSucc(DepsOf(init), rows[n].node, rows[n].deps, x);
      assert forall i :: 0 <= i < n ==> init[i] == rows[i];
      assert [] + rows[n].deps == rows[n].deps;
    }
  }

  lemma {:induction false} WalkBackwards<T(!new)>(rows: seq<Row<T>>, p: seq<T>)
    requires |p| >= 2 && Walk(DependentsOf(rows), p)
    ensures Reaches(DepsOf(rows), p[|p| - 1], p[0])
    decreases |p|
  {
    var g, h := DependentsOf(rows), DepsOf(rows);
    var n := |p| - 1;
    assert StepOf(g, p, n - 1);
    BuiltEdges(rows, p[n], p[n - 1]);
    EdgeReaches(h, p[n], p[n - 1]);
    if n > 1 {
      var q := p[..n];
      forall i
        ensures StepOf(g, q, i)
      {
        assert StepOf(g, p, i);
      }
      WalkBackwards(rows, q);
      ReachesTrans(h, p[n], p[n - 1], p[0]);
    }
  }

  lemma {:induction false} WalkForwards<T(!new)>(rows: seq<Row<T>>, p: seq<T>)
    requires |p| >= 2 && Walk(DepsOf(rows), p)
    ensures Reaches(DependentsOf(rows), p[|p| - 1], p[0])
    decreases |p|
  {
    var g, h := DepsOf(rows), DependentsOf(rows);
    var n := |p| - 1;
    assert StepOf(g, p, n - 1);
    BuiltEdges(rows, p[n - 1], p[n]);
    EdgeReaches(h, p[n], p[n - 1]);
    if n > 1 {
      var q := p[..n];
      forall i
        ensures StepOf(g, q, i)
      {
        assert StepOf(g, p, i);
      }
      WalkForwards(rows, q);
      ReachesTrans(h, p[n], p[n - 1], p[0]);
    }
  }

  /** A cycle of dependents is a cycle of dependencies. */
  lemma {:induction false} CyclesAgree<T(!new)>(rows: seq<Row<T>>, x: T)
    ensures OnCycle(DependentsOf(rows), x) <==> OnCycle(DepsOf(rows), x)
  {
    if OnCycle(DependentsOf(rows), x) {
      var p :| |p| >= 2 && WalkFromTo(DependentsOf(rows), p, x, x);
      WalkBackwards(rows, p);
    }
    if OnCycle(DepsOf(rows), x) {
      var p :| |p| >= 2 && WalkFromTo(DepsOf(rows), p, x, x);
      WalkForwards(rows, p);
    }
  }

  // ---------- forests ----------

  /**
   The nodes are listed in ids, node i has at most one edge, and it leads to the earlier
   node up[i] (a negative entry: no edge).
   */
  ghost predicate Forest<T(!new)>(g: Adjacency<T>, ids: seq<T>, up: seq<int>) {
    && |up| == |ids|
    && (forall i :: 0 <= i < |ids| ==> up[i] < i)
    && (forall i :: 0 <= i < |ids| ==> Succ(g, ids[i]) == if up[i] < 0 then [] else [ids[up[i]]])
  }

  /** Every ancestor of node i sits at or before its parent. */
  lemma {:induction false} ForestAncestors<T(!new)>(g: Adjacency<T>, ids: seq<T>, up: seq<int>, i: nat, y: T) returns (j: nat)
    requires Forest(g, ids, up) && i < |ids|
    requires Reaches(g, ids[i], y)
    ensures j <= up[i] && y == ids[j]
    decreases i
  {
    var m := ReachesHead(g, ids[i], y);
    assert m in Succ(g, ids[i]);
    j := up[i];
    if m != y {
      j := ForestAncestors(g, ids, up, up[i], y);
    }
  }

  lemma {:induction false} ForestAcyclic<T(!new)>(g: Adjacency<T>, ids: seq<T>, up: seq<int>, x: T)
    requires Forest(g, ids, up)
    requires forall i, j :: 0 <= i < j < |ids| ==> ids[i] != ids[j]
    requires forall a, b :: Edge(g, a, b) ==> a in ids
    ensures !OnCycle(g, x)
  {
    if OnCycle(g, x) {
      var m := ReachesHead(g, x, x);
      var i :| 0 <= i < |ids| && ids[i] == x;
      var j := ForestAncestors(g, ids, up, i, x);
    }
  }

  /** When only the first node lacks a parent, every other node reaches it. */
  lemma {:induction false} ForestRoot<T(!new)>(g: Adjacency<T>, ids: seq<T>, up: seq<int>, i: nat)
    requires Forest(g, ids, up) && 0 < i < |ids|
    requires forall k :: 0 < k < |ids| ==> up[k] >= 0
    ensures Reaches(g, ids[i], ids[0])
    decreases i
  {
    assert ids[up[i]] in Succ(g, ids[i]);
    EdgeReaches(g, ids[i], ids[up[i]]);
    if up[i] > 0 {
      ForestRoot(g, ids, up, up[i]);
      ReachesTrans(g, ids[i], ids[up[i]], ids[0]);
    }
  }

  /** In a single chain a node reaches exactly the nodes before it. */
  lemma {:induction false} ChainReaches<T(!new)>(g: Adjacency<T>, ids: seq<T>, up: seq<int>, i: nat, j: nat)
    requires Forest(g, ids, up) && j < i < |ids|
    requires forall k :: 0 <= k < |ids| ==> up[k] == k - 1
    ensures Reaches(g, ids[i], ids[j])
    decreases i
  {
    assert ids[i - 1] in Succ(g, ids[i]);
    EdgeReaches(g, ids[i], ids[i - 1]);
    if j < i - 1 {
      ChainReaches(g, ids, up, i - 1, j);
      ReachesTrans(g, ids[i], ids[i - 1], ids[j]);
    }
  }

  lemma {:induction false} ChainAncestry<T(!new)>(g: Adjacency<T>, ids: seq<T>, up: seq<int>, i: nat, x: T)
    requires Forest(g, ids, up) && i < |ids|
    requires forall k :: 0 <= k < |ids| ==> up[k] == k - 1
    ensures Reaches(g, ids[i], x) <==> x in ids[..i]
  {
    if Reaches(g, ids[i], x) {
      var j := ForestAncestors(g, ids, up, i, x);
      assert ids[..i][j] == x;
    }
    if x in ids[..i] {
      var j :| 0 <= j < i && ids[j] == x;
      ChainReaches(g, ids, up, i, j);
    }
  }

  ghost predicate RowLink<T(!new)>(rows: seq<Row<T>>, ids: seq<T>, i: nat)
    requires i < |rows| == |ids|
  {
    rows[i] == Row(ids[i], if i == 0 then [] else [ids[i - 1]])
  }

  ghost predicate Differ<T(!new)>(ids: seq<T>, i: nat, j: nat)
    requires i < |ids| && j < |ids|
  {
    i != j ==> ids[i] != ids[j]
  }

  /** Rows of a single chain: each node depends on the one listed before it. */
  ghost predicate RowChain<T(!new)>(rows: seq<Row<T>>, ids: seq<T>) {
    && |rows| == |ids|
    && (forall i :: 0 <= i < |ids| ==> RowLink(rows, ids, i))
    && (forall i, j :: 0 <= i < |ids| && 0 <= j < |ids| ==> Differ(ids, i, j))
  }

  lemma {:induction false} RowChainSucc<T(!new)>(rows: seq<Row<T>>, ids: seq<T>, i: nat)
    requires RowChain(rows, ids) && i < |ids|
    ensures Succ(DepsOf(rows), ids[i]) == if i == 0 then [] else [ids[i - 1]]
  {
    forall a, b | 0 <= a < b < |rows|
      ensures rows[a].node != rows[b].node
    {
      assert RowLink(rows, ids, a) && RowLink(rows, ids, b) && Differ(ids, a, b);
    }
    SuccOfRow(rows, ids[i]);
    assert RowLink(rows, ids, i);
  }

  /** In a single chain, reaching means coming later. */
  lemma {:induction false} RowChainReaches<T(!new)>(rows: seq<Row<T>>, ids: seq<T>, k: nat, t: nat)
    requires RowChain(rows, ids) && k < |ids| && t < |ids|
    ensures Reaches(DepsOf(rows), ids[k], ids[t]) <==> t < k
  {
    var g := DepsOf(rows);
    var up := seq(|ids|, i => i - 1);
    forall i | 0 <= i < |ids|
      ensures Succ(g, ids[i]) == if up[i] < 0 then [] else [ids[up[i]]]
    {
      RowChainSucc(rows, ids, i);
    }
    if t < k {
      ChainReaches(g, ids, up, k, t);
    }
    if Reaches(g, ids[k], ids[t]) {
      var j := ForestAncestors(g, ids, up, k, ids[t]);
      assert Differ(ids, j, t);
    }
  }

  // ---------- ancestor query ----------

  ghost function Nodes<T(!new)>(g: Adjacency<T>): (r: set<T>)
    ensures forall a, b :: Edge(g, a, b) ==> a in r && b in r
  {
    g.Keys + set a, b | a in g.Keys && b in g[a] :: b
  }

  /**
   isAncestor: candidate is a transitive dependency of node. The visited set makes
   the search end on cyclic graphs: every iteration either visits a new node or
   shortens the queue.
   */
  method IsAncestor<T(==,!new)>(node: T, candidate: T, deps: Adjacency<T>) returns (r: bool)
    ensures r <==> Reaches(deps, node, candidate)
  {
    var visited: set<T> := {};
    var queue := Succ(deps, node);
    ghost var all := Nodes(deps);
    forall x | x in queue
      ensures Reaches(deps, node, x) && x in all
    {
      assert Edge(deps, node, x);
      EdgeReaches(deps, node, x);
    }
    while queue != []
      invariant visited <= all
      invariant forall x :: x in queue ==> Reaches(deps, node, x) && x in all
      invariant forall x :: x in visited ==> x != candidate
      invariant forall x :: Edge(deps, node, x) ==> x in visited || x in queue
      invariant forall x, y :: x in visited && Edge(deps, x, y) ==> y in visited || y in queue
      decreases |all - visited|, |queue|
    {
      var cur := queue[0];
      assert forall x :: x in queue ==> x == cur || x in queue[1..];
      queue := queue[1..];
      if cur == candidate {
        return true;
      }
      if cur in visited {
        continue;
      }
      assert cur in all - visited && cur !in all - (visited + {cur});
      CardinalityShrinks(all - (visited + {cur}), all - visited);
      visited := visited + {cur};
      forall x | x in Succ(deps, cur)
        ensures Reaches(deps, node, x) && x in all
      {
        assert Edge(deps, cur, x);
        EdgeReaches(deps, cur, x);
        ReachesTrans(deps, node, cur, x);
      }
      queue := queue + Succ(deps, cur);
    }
    if Reaches(deps, node, candidate) {
      assert Closed(deps, visited);
      var m := ReachesHead(deps, node, candidate);
      if m != candidate {
        ReachStaysIn(deps, visited, m, candidate);
      }
      assert false;
    }
    return false;
  }

  lemma {:induction false} CardinalityShrinks<T(!new)>(a: set<T>, b: set<T>)
    requires a < b
    ensures |a| < |b|
  {
    assert b == a + (b - a);
    assert b - a != {};
  }

  // ---------- cycle search ----------

  datatype Color = White | Gray | Black

  type Coloring<T> = map<T, Color>

  // A name without an entry reads as white, the map's zero value.
  function ColorOf<T(==)>(color: Coloring<T>, x: T): (c: Color) {
    if x in color then color[x] else White
  }

  ghost function Painted<T(!new)>(color: Coloring<T>, c: Color): (r: set<T>) {
    set x | x in color && color[x] == c
  }

  /** Finished nodes are closed under successors and lie on no cycle. */
  ghost predicate Settled<T(!new)>(g: Adjacency<T>, color: Coloring<T>) {
    && Closed(g, Painted(color, Black))
    && forall x :: x in Painted(color, Black) ==> !OnCycle(g, x)
  }

  /** The gray nodes are exactly the walk from the root of the search to its end. */
  ghost predicate StackIs<T(!new)>(g: Adjacency<T>, color: Coloring<T>, stack: seq<T>) {
    && (stack == [] || Walk(g, stack))
    && (forall x :: GrayIsOnStack(color, stack, x))
  }

  ghost predicate GrayIsOnStack<T(!new)>(color: Coloring<T>, stack: seq<T>, x: T) {
    x in stack <==> x in Painted(color, Gray)
  }

  ghost function Unvisited<T(!new)>(all: set<T>, color: Coloring<T>): (n: nat) {
    |all - Painted(color, Gray) - Painted(color, Black)|
  }

  lemma {:induction false} WalkSnoc<T(!new)>(g: Adjacency<T>, p: seq<T>, x: T)
    requires p == [] || (Walk(g, p) && Edge(g, p[|p| - 1], x))
    ensures Walk(g, p + [x])
  {
    var q := p + [x];
    forall i
      ensures StepOf(g, q, i)
    {
      assert p != [] ==> StepOf(g, p, i);
    }
  }

  lemma {:induction false} StackSame<T(!new)>(g: Adjacency<T>, a: Coloring<T>, b: Coloring<T>, stack: seq<T>)
    requires Painted(a, Gray) == Painted(b, Gray) && StackIs(g, a, stack)
    ensures StackIs(g, b, stack)
  {
    forall x
      ensures GrayIsOnStack(b, stack, x)
    {
      assert GrayIsOnStack(a, stack, x);
    }
  }

  lemma {:induction false} SettledSame<T(!new)>(g: Adjacency<T>, a: Coloring<T>, b: Coloring<T>)
    requires Painted(a, Black) == Painted(b, Black) && Settled(g, a)
    ensures Settled(g, b)
  {
  }

  lemma {:induction false} Enter<T(!new)>(g: Adjacency<T>, all: set<T>, color: Coloring<T>, stack: seq<T>, node: T)
    requires StackIs(g, color, stack)
    requires stack == [] || Edge(g, stack[|stack| - 1], node)
    requires ColorOf(color, node) == White && node in all
    ensures var entered := color[node := Gray];
            && StackIs(g, entered, stack + [node])
            && Painted(entered, Gray) == Painted(color, Gray) + {node}
            && Painted(entered, Black) == Painted(color, Black)
            && Unvisited(all, entered) < Unvisited(all, color)
  {
    var entered := color[node := Gray];
    WalkSnoc(g, stack, node);
    assert Painted(entered, Gray) == Painted(color, Gray) + {node};
    assert Painted(entered, Black) == Painted(color, Black);
    forall x
      ensures GrayIsOnStack(entered, stack + [node], x)
    {
      assert GrayIsOnStack(color, stack, x);
    }
    var before := all - Painted(color, Gray) - Painted(color, Black);
    var after := all - Painted(entered, Gray) - Painted(entered, Black);
    assert node in before && node !in after;
    CardinalityShrinks(after, before);
  }

  /** An edge from the end of the stack back into it closes a cycle. */
  lemma {:induction false} CloseCycle<T(!new)>(g: Adjacency<T>, color: Coloring<T>, path: seq<T>, x: T)
    requires StackIs(g, color, path) && path != []
    requires ColorOf(color, x) == Gray && Edge(g, path[|path| - 1], x)
    ensures OnCycle(g, x)
  {
    assert GrayIsOnStack(color, path, x);
    var k :| 0 <= k < |path| && path[k] == x;
    var q := path[k..] + [x];
    forall i
      ensures StepOf(g, q, i)
    {
      assert StepOf(g, path, k + i);
    }
    assert WalkFromTo(g, q, x, x);
  }

  /** A gray node all of whose successors are finished is on no cycle, and may finish. */
  lemma {:induction false} Leave<T(!new)>(g: Adjacency<T>, color: Coloring<T>, node: T)
    requires Settled(g, color) && ColorOf(color, node) == Gray
    requires forall x :: Edge(g, node, x) ==> x in Painted(color, Black)
    ensures var left := color[node := Black];
            && Settled(g, left)
            && Painted(left, Gray) == Painted(color, Gray) - {node}
            && Painted(left, Black) == Painted(color, Black) + {node}
  {
    var left := color[node := Black];
    assert Painted(left, Gray) == Painted(color, Gray) - {node};
    assert Painted(left, Black) == Painted(color, Black) + {node};
    if OnCycle(g, node) {
      var m := ReachesHead(g, node, node);
      if m != node {
        ReachStaysIn(g, Painted(color, Black), m, node);
      }
    }
  }

  /** The color map that the recursive visit of findCycle updates in place. */
  class CycleSearch<T(==,!new)> {
    const none: T
    const adj: Adjacency<T>
    ghost const all: set<T>
    var color: Coloring<T>

    constructor (none: T, steps: seq<T>, adj: Adjacency<T>)
      ensures this.none == none && this.adj == adj
      ensures all == Nodes(adj) + set x | x in steps
      ensures Painted(color, Gray) == {} && Painted(color, Black) == {}
    {
      this.none := none;
      this.adj := adj;
      all := Nodes(adj) + set x | x in steps;
      color := map x | x in steps :: White;
    }

    /**
     visit(node): none when the search below node found nothing, else a node that lies on
     a cycle. A visit that finds nothing restores the gray nodes and finishes node.
     The value none (the empty id) stands for "no cycle", so it must not lie on one itself.
     */
    method Visit(node: T, ghost stack: seq<T>) returns (c: T)
      requires Settled(adj, color) && StackIs(adj, color, stack)
      requires stack == [] || Edge(adj, stack[|stack| - 1], node)
      requires ColorOf(color, node) == White
      requires Nodes(adj) <= all && node in all
      requires !OnCycle(adj, none)
      modifies this`color
      ensures c != none ==> OnCycle(adj, c)
      ensures c == none ==>
                && Settled(adj, color)
                && Painted(color, Gray) == Painted(old(color), Gray)
                && Painted(old(color), Black) <= Painted(color, Black)
                && node in Painted(color, Black)
      decreases Unvisited(all, color), 0
    {
      Enter(adj, all, color, stack, node);
      SettledSame(adj, color, color[node := Gray]);
      color := color[node := Gray];
      c := VisitSuccessors(node, stack + [node]);
      if c == none {
        Leave(adj, color, node);
        color := color[node := Black];
      }
    }

    /** The loop of visit over adj[node]. */
    method VisitSuccessors(node: T, ghost path: seq<T>) returns (c: T)
      requires Settled(adj, color) && StackIs(adj, color, path)
      requires path != [] && path[|path| - 1] == node
      requires Nodes(adj) <= all
      requires !OnCycle(adj, none)
      modifies this`color
      ensures c != none ==> OnCycle(adj, c)
      ensures c == none ==>
                && Settled(adj, color)
                && Painted(color, Gray) == Painted(old(color), Gray)
                && Painted(old(color), Black) <= Painted(color, Black)
                && forall x :: Edge(adj, node, x) ==> x in Painted(color, Black)
      decreases Unvisited(all, color), 1
    {
      var rest := Succ(adj, node);
      ghost var finished: set<T> := {};
      while rest != []
        invariant finished <= Painted(color, Black)
        invariant forall x :: x in rest ==> Edge(adj, node, x)
        invariant forall x :: Edge(adj, node, x) ==> x in finished || x in rest
        invariant Settled(adj, color) && StackIs(adj, color, path)
        invariant Painted(color, Gray) == Painted(old(color), Gray)
        invariant Painted(old(color), Black) <= Painted(color, Black)
        decreases |rest|
      {
        var next := rest[0];
        if ColorOf(color, next) == Gray {
          CloseCycle(adj, color, path, next);
          return next;
        }
        if ColorOf(color, next) == White {
          FewerUnvisited(all, old(color), color);
          ghost var before := color;
          c := Visit(next, path);
          if c != none {
            return c;
          }
          StackSame(adj, before, color, path);
        }
        assert next in Painted(color, Black);
        assert forall x :: x in rest ==> x == next || x in rest[1..];
        finished := finished + {next};
        rest := rest[1..];
      }
      return none;
    }
  }

  lemma {:induction false} FewerUnvisited<T(!new)>(all: set<T>, c0: Coloring<T>, c1: Coloring<T>)
    requires Painted(c0, Gray) == Painted(c1, Gray)
    requires Painted(c0, Black) <= Painted(c1, Black)
    ensures Unvisited(all, c1) <= Unvisited(all, c0)
  {
    var a := all - Painted(c0, Gray) - Painted(c0, Black);
    var b := all - Painted(c1, Gray) - Painted(c1, Black);
    if b != a {
      CardinalityShrinks(b, a);
    }
  }

  /**
   findCycle: none exactly when no step lies on a dependency cycle, and otherwise the id of
   a step that does. Every edge of the graph is between the given steps.
   none is the empty id, which names no step of a cycle.
   */
  method FindCycle<T(==,!new)>(none: T, steps: seq<T>, adj: Adjacency<T>) returns (c: T)
    requires forall a, b :: Edge(adj, a, b) ==> a in steps && b in steps
    requires !OnCycle(adj, none)
    ensures c == none <==> forall x :: !OnCycle(adj, x)
    ensures c != none ==> c in steps && OnCycle(adj, c)
  {
    var search := new CycleSearch<T>(none, steps, adj);
    var i := 0;
    while i < |steps|
      invariant 0 <= i <= |steps|
      invariant search.none == none && search.adj == adj && Nodes(adj) <= search.all
      invariant forall x :: x in steps ==> x in search.all
      invariant Settled(adj, search.color) && StackIs(adj, search.color, [])
      invariant forall j :: 0 <= j < i ==> steps[j] in Painted(search.color, Black)
    {
      assert GrayIsOnStack(search.color, [], steps[i]);
      if ColorOf(search.color, steps[i]) == White {
        ghost var before := search.color;
        c := search.Visit(steps[i], []);
        if c != none {
          CycleNode(steps, adj, c);
          return c;
        }
        StackSame(adj, before, search.color, []);
      }
      i := i + 1;
    }
    forall x | OnCycle(adj, x)
      ensures x in steps
    {
      CycleNode(steps, adj, x);
    }
    return none;
  }

  lemma {:induction false} CycleNode<T(!new)>(steps: seq<T>, adj: Adjacency<T>, c: T)
    requires forall a, b :: Edge(adj, a, b) ==> a in steps && b in steps
    requires OnCycle(adj, c)
    ensures c in steps
  {
    var m := ReachesHead(adj, c, c);
  }
}
