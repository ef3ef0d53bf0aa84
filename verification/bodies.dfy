/**
 What one scheduled step does: the work of an agent, a parallel group or a for_each. A body
 is read twice. As written, a child runs when its guard holds, is rejected by its gate and
 restarts from the sibling it names when it fails; as emitted, the engine runs the children
 of a node by their kind and looks at none of this, and a for_each runs the one inner step
 its node holds. What a step does, which items a path yields, how results reach memory and
 which siblings a restart takes along are parameters.
 */
module Bodies {
  import opened Wrappers
  import opened Expr
  import opened Steps

  /** A child of a parallel group, or a step in the body of a for_each; loop and max are its restart. */
  datatype Kid = Kid(id: string, kind: string, payload: string, guard: string, gate: string, loop: Option<string>, max: int)

  /**
   A for_each holds its `steps:` and its `step:`; its node in the engine holds at most the
   inner step.
   */
  datatype Body =
    | Agent(kind: string, payload: string)
    | Fork(join: string, kids: seq<Kid>)
    | Each(items: string, itemName: string, maxItems: int, concurrency: int, failFast: bool, kids: seq<Kid>, step: Option<Kid>)

  datatype Work = Written(body: Body) | Emitted(body: Body)

  /** A child that its guard skipped, one whose guard cannot be evaluated, or one that ran. */
  datatype Fate<D> = Skipped | Unreadable | Ran(d: D, ok: bool)

  predicate Fails<D>(f: Fate<D>) {
    f.Unreadable? || (f.Ran? && !f.ok)
  }

  predicate Passes<D>(f: Fate<D>) {
    f.Ran? && f.ok
  }

  predicate AnyFails<D>(fates: seq<Fate<D>>) {
    exists i :: 0 <= i < |fates| && Fails(fates[i])
  }

  predicate AnyPasses<D>(fates: seq<Fate<D>>) {
    exists i :: 0 <= i < |fates| && Passes(fates[i])
  }

  /**
   act: a step, by id, kind and payload, on a snapshot of memory; item: the inner step of a
   for_each on item i; count: how many items a path yields, if it resolves; started: how many
   items have been started when a concurrent for_each stops early; joins: a join expression;
   peek: memory as the gate of a child sees it; feedback: memory after a failed attempt that
   restarts; redo(t, i, j): whether child j runs again when child i restarts from child t;
   absorb: memory after the whole step.
   */
  datatype Acts<!D, !W> = Acts(
    act: (string, string, string, W) -> (D, bool),
    item: (string, nat, string, W) -> (D, bool),
    count: (string, W) -> Option<nat>,
    started: (string, nat, W) -> nat,
    joins: (string, seq<Fate<D>>, W) -> bool,
    peek: (string, D, W) -> W,
    feedback: (string, Fate<D>, W) -> W,
    redo: Redo,
    absorb: (string, seq<Fate<D>>, bool, W) -> W)

  type Redo = (nat, nat, nat) -> bool

  type Test<!W> = (string, W) -> Verdict

  // ---------- one child ----------

  predicate GateOpen<W>(test: Test<W>, gate: string, w: W) {
    gate == "" || test(gate, w) == False
  }

  /** As written: guard, work, gate. */
  function KidFate<D, W>(acts: Acts<D, W>, test: Test<W>, k: Kid, result: (D, bool), w: W): (f: Fate<D>) {
    match test(k.guard, w)
    case False => Skipped
    case Error => Unreadable
    case True => Ran(result.0, result.1 && GateOpen(test, k.gate, acts.peek(k.id, result.0, w)))
  }

  function KidRuns<D, W>(acts: Acts<D, W>, test: Test<W>, k: Kid, w: W): (f: Fate<D>) {
    KidFate(acts, test, k, acts.act(k.id, k.kind, k.payload, w), w)
  }

  /** As the engine runs it: straight away. */
  function Straight<D>(result: (D, bool)): (f: Fate<D>) {
    Ran(result.0, result.1)
  }

  // ---------- restarts ----------

  function KidAt(kids: seq<Kid>, id: string): (n: nat)
    ensures n <= |kids|
    ensures n < |kids| ==> kids[n].id == id
    ensures n == |kids| <==> forall j :: 0 <= j < |kids| ==> kids[j].id != id
  {
    if kids == [] then 0 else if kids[0].id == id then 0 else 1 + KidAt(kids[1..], id)
  }

  /** The sibling that child i restarts from, if it names one. */
  function Target(kids: seq<Kid>, i: nat): (t: nat)
    requires i < |kids|
    ensures t <= |kids|
  {
    if kids[i].loop.Some? then KidAt(kids, kids[i].loop.value) else |kids|
  }

  /** Child i names a sibling to restart from and may do so at least once. */
  predicate Live(kids: seq<Kid>, i: nat)
    requires i < |kids|
  {
    kids[i].max > 0 && Target(kids, i) < |kids|
  }

  /** How often each child may restart. */
  function Budget(kids: seq<Kid>): (r: seq<nat>)
    ensures |r| == |kids| && forall i :: 0 <= i < |kids| ==> r[i] == if Live(kids, i) then kids[i].max else 0
  {
    seq(|kids|, i requires 0 <= i < |kids| => if Live(kids, i) then kids[i].max else 0)
  }

  /** What is left of the budgets. */
  predicate Within(kids: seq<Kid>, left: seq<nat>) {
    |left| == |kids| && forall i :: 0 <= i < |kids| && left[i] > 0 ==> Live(kids, i)
  }

  function Sum(left: seq<nat>): (n: nat) {
    if left == [] then 0 else left[0] + Sum(left[1..])
  }

  function Spend(left: seq<nat>, i: nat): (r: seq<nat>)
    requires i < |left| && left[i] > 0
    ensures |r| == |left| && (forall j :: 0 <= j < |r| && r[j] > 0 ==> left[j] > 0) && Sum(r) < Sum(left)
  {
    SumDrops(left, i);
    left[i := left[i] - 1]
  }

  lemma {:induction false} SumDrops(left: seq<nat>, i: nat)
    requires i < |left| && left[i] > 0
    ensures Sum(left[i := left[i] - 1]) < Sum(left)
  {
    var r := left[i := left[i] - 1];
    if i == 0 {
      assert r[1..] == left[1..];
    } else {
      SumDrops(left[1..], i - 1);
      assert r[1..] == left[1..][i - 1 := left[i] - 1];
    }
  }

  // ---------- a parallel group ----------

  function WrittenKids<D, W>(acts: Acts<D, W>, test: Test<W>, kids: seq<Kid>, w: W): (r: seq<Fate<D>>)
    ensures |r| == |kids|
    ensures forall i :: 0 <= i < |kids| ==> r[i] == KidRuns(acts, test, kids[i], w)
  {
    if kids == [] then [] else [KidRuns(acts, test, kids[0], w)] + WrittenKids(acts, test, kids[1..], w)
  }

  function EmittedKids<D, W>(acts: Acts<D, W>, kids: seq<Kid>, w: W): (r: seq<Fate<D>>)
    ensures |r| == |kids|
    ensures forall i :: 0 <= i < |kids| ==> r[i] == Straight(acts.act(kids[i].id, kids[i].kind, kids[i].payload, w))
  {
    if kids == [] then []
    else [Straight(acts.act(kids[0].id, kids[0].kind, kids[0].payload, w))] + EmittedKids(acts, kids[1..], w)
  }

  /** applyJoinPolicy; a child that was skipped does not fail the group. */
  predicate Joined<D, W>(acts: Acts<D, W>, join: string, fates: seq<Fate<D>>, w: W) {
    if fates == [] then true
    else if join == ANY then AnyPasses(fates)
    else if join == "" || join == ALL then !AnyFails(fates)
    else acts.joins(join, fates, w)
  }

  function ForkEnd<D, W>(acts: Acts<D, W>, id: string, join: string, fates: seq<Fate<D>>, w: W): (r: (W, bool)) {
    var ok := Joined(acts, join, fates, w);
    (acts.absorb(id, fates, ok, w), ok)
  }

  /** The first child that failed and may restart. */
  function Restarting<D>(fates: seq<Fate<D>>, left: seq<nat>): (i: nat)
    requires |fates| == |left|
    ensures i <= |left|
    ensures i < |left| ==> Fails(fates[i]) && left[i] > 0
    ensures i == |left| <==> forall j :: 0 <= j < |left| ==> !(Fails(fates[j]) && left[j] > 0)
  {
    if left == [] then 0 else if Fails(fates[0]) && left[0] > 0 then 0 else 1 + Restarting(fates[1..], left[1..])
  }

  /** The fates after child i restarted from child t: both ran again, and whoever a restart takes along. */
  function Rerun<D, W>(acts: Acts<D, W>, test: Test<W>, kids: seq<Kid>, fates: seq<Fate<D>>, t: nat, i: nat, w: W)
    : (r: seq<Fate<D>>)
    requires |fates| == |kids|
    ensures |r| == |kids|
  {
    seq(|kids|, j requires 0 <= j < |kids| =>
      if j == i || j == t || acts.redo(t, i, j) then KidRuns(acts, test, kids[j], w) else fates[j])
  }

  /** Rounds of a group: while a failed child may restart it does, with its failure in memory. */
  function Rounds<D, W>(
    acts: Acts<D, W>, test: Test<W>, id: string, join: string, kids: seq<Kid>, fates: seq<Fate<D>>, left: seq<nat>, w: W)
    : (r: (W, bool))
    requires |fates| == |kids| && Within(kids, left)
    decreases Sum(left)
  {
    var i := Restarting(fates, left);
    if i == |kids| then ForkEnd(acts, id, join, fates, w)
    else
      var again := acts.feedback(kids[i].id, fates[i], w);
      Rounds(acts, test, id, join, kids, Rerun(acts, test, kids, fates, Target(kids, i), i, again), Spend(left, i), again)
  }

  // ---------- a for_each ----------

  /**
   As written: the steps of the body in order from pc on. A step that fails restarts from the
   sibling it names while it may, and else ends the item. The fates are those of all attempts.
   */
  function WrittenItem<D, W>(
    acts: Acts<D, W>, test: Test<W>, id: string, i: nat, kids: seq<Kid>, pc: nat, left: seq<nat>, w: W): (r: (seq<Fate<D>>, bool))
    requires pc <= |kids| && Within(kids, left)
    decreases Sum(left), |kids| - pc
  {
    if pc == |kids| then ([], true)
    else
      var k := kids[pc];
      var f := KidFate(acts, test, k, acts.item(id, i, k.payload, w), w);
      if !Fails(f) then
        var (rest, ok) := WrittenItem(acts, test, id, i, kids, pc + 1, left, if f.Ran? then acts.peek(k.id, f.d, w) else w);
        ([f] + rest, ok)
      else if left[pc] == 0 then ([f], false)
      else
        var (rest, ok) := WrittenItem(acts, test, id, i, kids, Target(kids, pc), Spend(left, pc), acts.feedback(k.id, f, w));
        ([f] + rest, ok)
  }

  /** The fates and the outcome of one item. */
  type Item<!D> = nat -> (seq<Fate<D>>, bool)

  /** The fates of all items, and whether none failed; a sequential fail_fast stops at the first failure. */
  function RunItems<D>(one: Item<D>, i: nat, n: nat, failFast: bool): (r: (seq<Fate<D>>, bool))
    decreases n - i
  {
    if i >= n then ([], true)
    else
      var (here, passed) := one(i);
      if !passed && failFast then (here, false)
      else
        var (rest, ok) := RunItems(one, i + 1, n, failFast);
        (here + rest, ok && passed)
  }

  function Limit(maxItems: int): (n: int) {
    if maxItems == 0 then DEFAULT_MAX_ITEMS else maxItems
  }

  const DEFAULT_MAX_ITEMS := 50

  function EachEnd<D, W>(acts: Acts<D, W>, id: string, b: Body, one: Item<D>, w: W): (r: (W, bool))
    requires b.Each?
  {
    var n := acts.count(b.items, w);
    if n.None? || n.value > Limit(b.maxItems) then (acts.absorb(id, [], false, w), false)
    else
      var (fates, ok) :=
        if b.failFast && b.concurrency > 1 then
          var m := acts.started(id, n.value, w);
          RunItems(one, 0, if m < n.value then m else n.value, false)
        else RunItems(one, 0, n.value, b.failFast);
      (acts.absorb(id, fates, ok, w), ok)
  }

  /** The steps an author gives for each item. */
  function BodyKids(b: Body): (r: seq<Kid>)
    requires b.Each?
  {
    if b.kids != [] then b.kids else if b.step.Some? then [b.step.value] else []
  }

  function WrittenOne<D, W>(acts: Acts<D, W>, test: Test<W>, id: string, kids: seq<Kid>, w: W): (r: Item<D>) {
    (i: nat) => WrittenItem(acts, test, id, i, kids, 0, Budget(kids), w)
  }

  function EmittedOne<D, W>(acts: Acts<D, W>, id: string, payload: string, w: W): (r: Item<D>) {
    (i: nat) => ([Straight(acts.item(id, i, payload, w))], acts.item(id, i, payload, w).1)
  }

  // ---------- the two readings ----------

  function RunWritten<D, W>(acts: Acts<D, W>, test: Test<W>, id: string, b: Body, w: W): (r: (W, bool)) {
    match b
    case Agent(kind, payload) =>
      var (d, ok) := acts.act(id, kind, payload, w);
      (acts.absorb(id, [Ran(d, ok)], ok, w), ok)
    case Fork(join, kids) => Rounds(acts, test, id, join, kids, WrittenKids(acts, test, kids, w), Budget(kids), w)
    case Each(_, _, _, _, _, _, _) => EachEnd(acts, id, b, WrittenOne(acts, test, id, BodyKids(b), w), w)
  }

  function RunEmitted<D, W>(acts: Acts<D, W>, id: string, b: Body, w: W): (r: (W, bool)) {
    match b
    case Agent(kind, payload) =>
      var (d, ok) := acts.act(id, kind, payload, w);
      (acts.absorb(id, [Ran(d, ok)], ok, w), ok)
    case Fork(join, kids) => ForkEnd(acts, id, join, EmittedKids(acts, kids, w), w)
    case Each(_, _, _, _, _, _, step) =>
      if step.None? then (acts.absorb(id, [], false, w), false)
      else EachEnd(acts, id, b, EmittedOne(acts, id, step.value.payload, w), w)
  }

  function Perform<D, W>(acts: Acts<D, W>, test: Test<W>, id: string, work: Work, w: W): (r: (W, bool)) {
    match work
    case Written(b) => RunWritten(acts, test, id, b, w)
    case Emitted(b) => RunEmitted(acts, id, b, w)
  }

  /** What the lowering pass leaves of a for_each: one inner step, whatever the author wrote. */
  function LoweredBody(id: string, b: Body): (r: Body) {
    if !b.Each? then b
    else b.(
      kids := [],
      step := if |b.kids| == 0 then None
              else if |b.kids| == 1 then Some(b.kids[0])
              else Some(Kid(id + "-body", WORKFLOW, "", "", "", None, 0)))
  }

  // ---------- when they agree ----------

  /** The child runs, whatever it does, and nothing comes after it: its guard holds, and it has neither gate nor restart. */
  predicate Calm(says: string -> Verdict, kids: seq<Kid>, i: nat)
    requires i < |kids|
  {
    says(kids[i].guard) == True && kids[i].gate == "" && !Live(kids, i)
  }

  /** The bodies of which both readings agree where texts are tested as says does. */
  predicate Tame(says: string -> Verdict, b: Body) {
    match b
    case Agent(_, _) => true
    case Fork(_, kids) => forall i :: 0 <= i < |kids| ==> Calm(says, kids, i)
    case Each(_, _, max, _, _, kids, _) => max < 0 || (|kids| == 1 && Calm(says, kids, 0))
  }

  /** A child without guard, gate and restart. */
  predicate Bare(kids: seq<Kid>, i: nat)
    requires i < |kids|
  {
    kids[i].guard == "" && kids[i].gate == "" && !Live(kids, i)
  }

  /** The bodies of which both readings agree everywhere. */
  predicate Faithful(b: Body) {
    match b
    case Agent(_, _) => true
    case Fork(_, kids) => forall i :: 0 <= i < |kids| ==> Bare(kids, i)
    case Each(_, _, max, _, _, kids, _) => max < 0 || (|kids| == 1 && Bare(kids, 0))
  }

  function SaysAt<W>(test: Test<W>, w: W): (says: string -> Verdict) {
    c => test(c, w)
  }

  ghost predicate EmptyHolds<W(!new)>(test: Test<W>) {
    forall w :: test("", w) == True
  }

  lemma {:induction false} FaithfulIsTame(says: string -> Verdict, b: Body)
    requires Faithful(b) && says("") == True
    ensures Tame(says, b)
  {
    if b.Fork? {
      forall i | 0 <= i < |b.kids|
        ensures Calm(says, b.kids, i)
      {
        assert Bare(b.kids, i);
      }
    }
  }

  lemma {:induction false} SameItems<D(!new)>(a: Item<D>, b: Item<D>, i: nat, n: nat, failFast: bool)
    requires forall j: nat :: a(j) == b(j)
    ensures RunItems(a, i, n, failFast) == RunItems(b, i, n, failFast)
    decreases n - i
  {
    if i < n {
      SameItems(a, b, i + 1, n, failFast);
    }
  }

  lemma {:induction false} SameEach<D(!new), W(!new)>(acts: Acts<D, W>, id: string, x: Body, y: Body, a: Item<D>, b: Item<D>, w: W)
    requires x.Each? && y.Each? && y == x.(kids := y.kids, step := y.step) && forall j: nat :: a(j) == b(j)
    ensures EachEnd(acts, id, x, a, w) == EachEnd(acts, id, y, b, w)
  {
    var n := acts.count(x.items, w);
    if n.Some? {
      var m := acts.started(id, n.value, w);
      SameItems(a, b, 0, if m < n.value then m else n.value, false);
      SameItems(a, b, 0, n.value, x.failFast);
    }
  }

  lemma {:induction false} CalmFork<D(!new), W(!new)>(acts: Acts<D, W>, test: Test<W>, id: string, b: Body, w: W)
    requires b.Fork? && Tame(SaysAt(test, w), b)
    ensures RunWritten(acts, test, id, b, w) == RunEmitted(acts, id, b, w)
  {
    var x, y := WrittenKids(acts, test, b.kids, w), EmittedKids(acts, b.kids, w);
    forall i | 0 <= i < |b.kids|
      ensures x[i] == y[i] && Budget(b.kids)[i] == 0
    {
      assert Calm(SaysAt(test, w), b.kids, i);
    }
    assert x == y;
    assert Restarting(x, Budget(b.kids)) == |b.kids|;
  }

  lemma {:induction false} OneStepItem<D(!new), W(!new)>(acts: Acts<D, W>, test: Test<W>, id: string, i: nat, kids: seq<Kid>, w: W)
    requires |kids| == 1 && Calm(SaysAt(test, w), kids, 0)
    ensures WrittenOne(acts, test, id, kids, w)(i) == EmittedOne(acts, id, kids[0].payload, w)(i)
  {
    var result := acts.item(id, i, kids[0].payload, w);
    var f := KidFate(acts, test, kids[0], result, w);
    assert f == Straight(result);
    var rest := WrittenItem(acts, test, id, i, kids, 1, Budget(kids), acts.peek(kids[0].id, result.0, w));
    assert rest == ([], true);
    assert [f] + [] == [f];
  }

  lemma {:induction false} OneInnerStep<D(!new), W(!new)>(acts: Acts<D, W>, test: Test<W>, id: string, b: Body, w: W)
    requires b.Each? && |b.kids| == 1 && Calm(SaysAt(test, w), b.kids, 0)
    ensures RunEmitted(acts, id, LoweredBody(id, b), w) == RunWritten(acts, test, id, b, w)
  {
    var x, y := WrittenOne(acts, test, id, BodyKids(b), w), EmittedOne(acts, id, b.kids[0].payload, w);
    forall i: nat
      ensures x(i) == y(i)
    {
      OneStepItem(acts, test, id, i, b.kids, w);
    }
    SameEach(acts, id, b, LoweredBody(id, b), x, y, w);
  }

  /** Where all guards of children hold, and without gates and restarts on them and with one inner step: the node does what was written. */
  lemma {:induction false} TameAgrees<D(!new), W(!new)>(acts: Acts<D, W>, test: Test<W>, id: string, b: Body, w: W)
    requires Tame(SaysAt(test, w), b)
    ensures Perform(acts, test, id, Emitted(LoweredBody(id, b)), w) == Perform(acts, test, id, Written(b), w)
  {
    match b
    case Agent(_, _) =>
    case Fork(_, _) => CalmFork(acts, test, id, b, w);
    case Each(_, _, max, _, _, _, _) =>
      if max >= 0 {
        OneInnerStep(acts, test, id, b, w);
      }
  }

  /** Neither guards nor gates nor restarts on children and one inner step: the node does what was written. */
  lemma {:induction false} FaithfulAgrees<D(!new), W(!new)>(acts: Acts<D, W>, test: Test<W>, id: string, b: Body, w: W)
    requires Faithful(b) && EmptyHolds(test)
    ensures Perform(acts, test, id, Emitted(LoweredBody(id, b)), w) == Perform(acts, test, id, Written(b), w)
  {
    FaithfulIsTame(SaysAt(test, w), b);
    TameAgrees(acts, test, id, b, w);
  }

  // ---------- what an author means by a child ----------

  /**
   As written a child is treated like a step: it is skipped exactly when its guard is false, passes
   exactly when the guard holds, the work succeeds and no gate rejects it, and else fails.
   */
  lemma {:induction false} KidMeans<D, W>(acts: Acts<D, W>, test: Test<W>, k: Kid, w: W)
    ensures var f, (d, ok) := KidRuns(acts, test, k, w), acts.act(k.id, k.kind, k.payload, w);
            var passes := test(k.guard, w) == True && ok && (k.gate == "" || test(k.gate, acts.peek(k.id, d, w)) == False);
            && (f.Skipped? <==> test(k.guard, w) == False)
            && (Passes(f) <==> passes)
            && (Fails(f) <==> !passes && test(k.guard, w) != False)
  {
  }

  // ---------- what the engine makes of a node ----------

  predicate ActOk<D, W>(acts: Acts<D, W>, k: Kid, w: W) {
    acts.act(k.id, k.kind, k.payload, w).1
  }

  /**
   A parallel group joins at once when it is empty; with `any` it passes exactly when some child
   does, and with `all`, or without a policy, exactly when every child does.
   */
  lemma {:induction false} JoinMeans<D, W>(acts: Acts<D, W>, id: string, join: string, kids: seq<Kid>, w: W)
    ensures var ok := RunEmitted(acts, id, Fork(join, kids), w).1;
            && (kids == [] ==> ok)
            && (kids != [] && join == "any" ==> (ok <==> exists i :: 0 <= i < |kids| && ActOk(acts, kids[i], w)))
            && (kids != [] && (join == "" || join == "all") ==> (ok <==> forall i :: 0 <= i < |kids| ==> ActOk(acts, kids[i], w)))
  {
    var fates := EmittedKids(acts, kids, w);
    assert forall i :: 0 <= i < |kids| ==> (Passes(fates[i]) <==> ActOk(acts, kids[i], w)) && (Fails(fates[i]) <==> !Passes(fates[i]));
  }

  /** How many items run: all, or with fail_fast those up to the first that fails. */
  function ItemsRun<D(!new)>(one: Item<D>, i: nat, n: nat, failFast: bool): (m: nat)
    requires i <= n
    ensures i <= m <= n
    ensures forall k :: i <= k < m - 1 && failFast ==> one(k).1
    ensures m < n ==> failFast && i < m && !one(m - 1).1
    decreases n - i
  {
    if i == n then n else if failFast && !one(i).1 then i + 1 else ItemsRun(one, i + 1, n, failFast)
  }

  ghost predicate RunsEach<D(!new)>(results: nat -> (D, bool), one: Item<D>) {
    forall k: nat :: one(k) == ([Straight(results(k))], results(k).1)
  }

  ghost predicate FatesAre<D(!new)>(results: nat -> (D, bool), fates: seq<Fate<D>>, i: nat, m: nat) {
    i <= m && |fates| == m - i && forall k: nat :: k < |fates| ==> fates[k] == Straight(results(i + k))
  }

  lemma {:induction false} FatesCons<D(!new)>(results: nat -> (D, bool), fates: seq<Fate<D>>, i: nat, m: nat)
    requires FatesAre(results, fates, i + 1, m)
    ensures FatesAre(results, [Straight(results(i))] + fates, i, m)
  {
    var all := [Straight(results(i))] + fates;
    forall k: nat | k < |all|
      ensures all[k] == Straight(results(i + k))
    {
      if k > 0 {
        assert fates[k - 1] == Straight(results(i + 1 + (k - 1)));
      }
    }
  }

  /** Items run in order. */
  lemma {:induction false} ItemsInOrder<D(!new)>(results: nat -> (D, bool), one: Item<D>, i: nat, n: nat, failFast: bool)
    requires i <= n && RunsEach(results, one)
    ensures FatesAre(results, RunItems(one, i, n, failFast).0, i, ItemsRun(one, i, n, failFast))
    decreases n - i
  {
    if i < n {
      assert one(i) == ([Straight(results(i))], results(i).1);
      if !(failFast && !one(i).1) {
        ItemsInOrder(results, one, i + 1, n, failFast);
        FatesCons(results, RunItems(one, i + 1, n, failFast).0, i, ItemsRun(one, i + 1, n, failFast));
      }
    }
  }

  /** A for_each passes exactly when every item would. */
  lemma {:induction false} ItemsPass<D(!new)>(one: Item<D>, i: nat, n: nat, failFast: bool)
    requires i <= n
    ensures RunItems(one, i, n, failFast).1 <==> forall k: nat :: i <= k < n ==> one(k).1
    decreases n - i
  {
    if i < n && !(failFast && !one(i).1) {
      ItemsPass(one, i + 1, n, failFast);
    }
  }

  /** A for_each fails without touching an item when its path does not resolve, its items are too many or it has no inner step. */
  lemma {:induction false} TooManyItems<D, W>(acts: Acts<D, W>, id: string, b: Body, w: W)
    requires b.Each?
    ensures var n := acts.count(b.items, w);
            n.None? || b.step.None? || n.value > (if b.maxItems == 0 then 50 else b.maxItems) ==>
              RunEmitted(acts, id, b, w) == (acts.absorb(id, [], false, w), false)
  {
  }

  /** Otherwise the inner step runs on each item, and the node passes exactly when none of them failed. */
  lemma {:induction false} EachMeans<D(!new), W>(acts: Acts<D, W>, id: string, b: Body, w: W)
    requires b.Each? && b.step.Some? && !(b.failFast && b.concurrency > 1)
    requires var n := acts.count(b.items, w); n.Some? && n.value <= (if b.maxItems == 0 then 50 else b.maxItems)
    ensures var n, one := acts.count(b.items, w).value, EmittedOne(acts, id, b.step.value.payload, w);
            var m, (v, ok) := ItemsRun(one, 0, n, b.failFast), RunEmitted(acts, id, b, w);
            && (ok <==> forall k: nat :: k < n ==> acts.item(id, k, b.step.value.payload, w).1)
            && v == acts.absorb(id, seq(m, k requires 0 <= k < m => Straight(acts.item(id, k, b.step.value.payload, w))), ok, w)
  {
    var n, payload := acts.count(b.items, w).value, b.step.value.payload;
    var one, results := EmittedOne(acts, id, payload, w), (k: nat) => acts.item(id, k, payload, w);
    ItemsInOrder(results, one, 0, n, b.failFast);
    ItemsPass(one, 0, n, b.failFast);
    var m, fates := ItemsRun(one, 0, n, b.failFast), RunItems(one, 0, n, b.failFast).0;
    FatesSeq(results, fates, m);
    assert fates == seq(m, k requires 0 <= k < m => Straight(acts.item(id, k, payload, w)));
    assert forall k: nat :: one(k).1 == acts.item(id, k, payload, w).1;
  }

  lemma {:induction false} FatesSeq<D(!new)>(results: nat -> (D, bool), fates: seq<Fate<D>>, m: nat)
    requires FatesAre(results, fates, 0, m)
    ensures fates == seq(m, k requires 0 <= k < m => Straight(results(k)))
  {
    forall k: nat | k < m
      ensures fates[k] == Straight(results(k))
    {
      assert fates[k] == Straight(results(0 + k));
    }
  }
}
