/**
 The step data that expressions read as memory.f: the contributions of the finished steps, in
 declaration order, flattened so that the last write of a field wins. Lowering rewrites x.f to
 memory.f; here is when the two are the same.
 */
module Memory {
  import opened Wrappers

  /** What a finished step contributes: the fields it declares, and the outputs it reported. */
  datatype MemoryStep<I, K(==), V> = MemoryStep(id: I, writes: seq<K>, outputs: map<K, V>)

  /** The step gives the field a value. */
  predicate Gives<I, K(==), V>(m: MemoryStep<I, K, V>, f: K) {
    f in m.writes && f in m.outputs
  }

  // ---------- the order of the contributions ----------

  /** A node of the run: its id and, for a parallel group, the ids of its children. */
  datatype Declared<I> = Declared(id: I, children: seq<I>)

  function Concat<A, T>(xs: seq<A>, g: A -> seq<T>): (r: seq<T>) {
    if xs == [] then [] else Concat(xs[..|xs| - 1], g) + g(xs[|xs| - 1])
  }

  lemma {:induction false} ConcatLast<A, T>(xs: seq<A>, x: A, g: A -> seq<T>)
    ensures Concat(xs + [x], g) == Concat(xs, g) + g(x)
  {
    assert (xs + [x])[..|xs|] == xs;
  }

  lemma {:induction false} ConcatSplits<A, T>(a: seq<A>, b: seq<A>, g: A -> seq<T>)
    ensures Concat(a + b, g) == Concat(a, g) + Concat(b, g)
    decreases |b|
  {
    if b == [] {
      assert a + b == a;
    } else {
      var c, x := b[..|b| - 1], b[|b| - 1];
      ConcatSplits(a, c, g);
      ConcatLast(a + c, x, g);
      assert a + b == a + c + [x];
    }
  }

  function Of<I(==), T>(contrib: map<I, T>, id: I): (r: seq<T>) {
    if id in contrib then [contrib[id]] else []
  }

  /** The children's contributions of a node, and the feedback of its failed attempts. */
  function OfOthers<I(==), T>(contrib: map<I, T>, feedback: map<I, seq<T>>, n: Declared<I>): (r: seq<T>) {
    Concat(n.children, (id: I) => Of(contrib, id)) + if n.id in feedback then feedback[n.id] else []
  }

  function OfNode<I(==), T>(contrib: map<I, T>, feedback: map<I, seq<T>>): (g: Declared<I> -> seq<T>) {
    (n: Declared<I>) => Of(contrib, n.id) + OfOthers(contrib, feedback, n)
  }

  /** The inherited contributions, then those of every node in declaration order. */
  function MemSteps<I(==), T>(seed: seq<T>, order: seq<Declared<I>>, contrib: map<I, T>, feedback: map<I, seq<T>>): (r: seq<T>) {
    seed + Concat(order, OfNode(contrib, feedback))
  }

  method CollectChildren<I(==), T>(contrib: map<I, T>, ids: seq<I>) returns (out: seq<T>)
    ensures out == Concat(ids, (id: I) => Of(contrib, id))
  {
    ghost var g := (id: I) => Of(contrib, id);
    out := [];
    var k := 0;
    while k < |ids|
      invariant 0 <= k <= |ids| && out == Concat(ids[..k], g)
    {
      assert ids[..k + 1] == ids[..k] + [ids[k]];
      ConcatLast(ids[..k], ids[k], g);
      if ids[k] in contrib {
        out := out + [contrib[ids[k]]];
      }
      k := k + 1;
    }
    assert ids[..|ids|] == ids;
  }

  /** What one node of the order adds. */
  method AppendNode<I(==), T>(out0: seq<T>, contrib: map<I, T>, feedback: map<I, seq<T>>, n: Declared<I>) returns (out: seq<T>)
    ensures out == out0 + OfNode(contrib, feedback)(n)
  {
    out := out0;
    if n.id in contrib {
      out := out + [contrib[n.id]];
    }
    assert out == out0 + Of(contrib, n.id);
    var more := CollectChildren(contrib, n.children);
    out := out + more;
    assert out == out0 + (Of(contrib, n.id) + more);
    if n.id in feedback {
      out := out + feedback[n.id];
    }
  }

  lemma {:induction false} MemLast<I(!new), T(!new)>(seed: seq<T>, order: seq<Declared<I>>, contrib: map<I, T>, feedback: map<I, seq<T>>, i: nat)
    requires i < |order|
    ensures MemSteps(seed, order[..i + 1], contrib, feedback) ==
            MemSteps(seed, order[..i], contrib, feedback) + OfNode(contrib, feedback)(order[i])
  {
    assert order[..i + 1] == order[..i] + [order[i]];
    ConcatLast(order[..i], order[i], OfNode(contrib, feedback));
  }

  method CollectMemory<I(==,!new), T(!new)>(seed: seq<T>, order: seq<Declared<I>>, contrib: map<I, T>, feedback: map<I, seq<T>>)
    returns (out: seq<T>)
    ensures out == MemSteps(seed, order, contrib, feedback)
  {
    out := seed;
    var i := 0;
    assert MemSteps(seed, order[..0], contrib, feedback) == seed;
    while i < |order|
      invariant 0 <= i <= |order| && out == MemSteps(seed, order[..i], contrib, feedback)
    {
      MemLast(seed, order, contrib, feedback, i);
      out := AppendNode(out, contrib, feedback, order[i]);
      i := i + 1;
    }
    assert order[..|order|] == order;
  }

  // ---------- the flat map ----------

  /** The last of the first n steps that gives the field a value. */
  function LastGiver<I, K(==), V>(steps: seq<MemoryStep<I, K, V>>, n: nat, f: K): (r: Option<nat>)
    requires n <= |steps|
    ensures r.Some? ==> r.value < n && Gives(steps[r.value], f)
    ensures forall j :: 0 <= j < n && Gives(steps[j], f) ==> r.Some? && j <= r.value
  {
    if n == 0 then None else if Gives(steps[n - 1], f) then Some(n - 1) else LastGiver(steps, n - 1, f)
  }

  /** Every field that some step gives a value, with the value of the last one. */
  function Flat<I, K(==), V, R>(steps: seq<MemoryStep<I, K, V>>, render: V -> R): (r: map<K, R>) {
    map f | f in Fields(steps) && LastGiver(steps, |steps|, f).Some? ::
      render(steps[LastGiver(steps, |steps|, f).value].outputs[f])
  }

  function Fields<I, K(==), V>(steps: seq<MemoryStep<I, K, V>>): (r: set<K>) {
    if steps == [] then {}
    else
      var writes := steps[|steps| - 1].writes;
      Fields(steps[..|steps| - 1]) + set f | f in writes
  }

  lemma {:induction false} FieldsHold<I(!new), K(!new), V(!new)>(steps: seq<MemoryStep<I, K, V>>, j: nat, f: K)
    requires j < |steps| && f in steps[j].writes
    ensures f in Fields(steps)
    decreases |steps|
  {
    if j < |steps| - 1 {
      FieldsHold(steps[..|steps| - 1], j, f);
    }
  }

  lemma {:induction false} FlatIs<I(!new), K(!new), V(!new), R(!new)>(steps: seq<MemoryStep<I, K, V>>, render: V -> R, vals: map<K, R>)
    requires Holds(steps, |steps|, render, vals)
    ensures vals == Flat(steps, render)
  {
    forall f
      ensures f in vals <==> f in Flat(steps, render)
      ensures f in vals ==> vals[f] == Flat(steps, render)[f]
    {
      assert HoldsFor(steps, |steps|, render, vals, f);
      var last := LastGiver(steps, |steps|, f);
      if last.Some? {
        FieldsHold(steps, last.value, f);
      }
    }
  }

  /** What the flat map holds for the field. */
  predicate HoldsFor<I, K(==), V, R(==)>(steps: seq<MemoryStep<I, K, V>>, n: nat, render: V -> R, vals: map<K, R>, f: K)
    requires n <= |steps|
  {
    var last := LastGiver(steps, n, f);
    (f in vals <==> last.Some?) && (last.Some? ==> vals[f] == render(steps[last.value].outputs[f]))
  }

  ghost predicate Holds<I(!new), K(!new), V(!new), R>(steps: seq<MemoryStep<I, K, V>>, n: nat, render: V -> R, vals: map<K, R>)
    requires n <= |steps|
  {
    forall f :: HoldsFor(steps, n, render, vals, f)
  }

  /** After the first k declared fields of m, field f is m's if it is among them, and else as before. */
  predicate WrittenFor<I, K(==), V, R(==)>(
    m: MemoryStep<I, K, V>, k: nat, render: V -> R, before: map<K, R>, vals: map<K, R>, f: K)
    requires k <= |m.writes|
  {
    if f in m.writes[..k] && f in m.outputs then f in vals && vals[f] == render(m.outputs[f])
    else (f in vals <==> f in before) && (f in vals ==> vals[f] == before[f])
  }

  ghost predicate Written<I(!new), K(!new), V(!new), R>(
    m: MemoryStep<I, K, V>, k: nat, render: V -> R, before: map<K, R>, vals: map<K, R>)
    requires k <= |m.writes|
  {
    forall f :: WrittenFor(m, k, render, before, vals, f)
  }

  lemma {:induction false} WrittenNext<I(!new), K(!new), V(!new), R>(
    m: MemoryStep<I, K, V>, k: nat, render: V -> R, before: map<K, R>, vals: map<K, R>, after: map<K, R>)
    requires k < |m.writes| && Written(m, k, render, before, vals)
    requires after == if m.writes[k] in m.outputs then vals[m.writes[k] := render(m.outputs[m.writes[k]])] else vals
    ensures Written(m, k + 1, render, before, after)
  {
    var n := k + 1;
    assert m.writes[..n] == m.writes[..k] + [m.writes[k]];
    forall f
      ensures WrittenFor(m, n, render, before, after, f)
    {
      assert WrittenFor(m, k, render, before, vals, f);
    }
  }

  lemma {:induction false} HoldsNext<I(!new), K(!new), V(!new), R>(
    steps: seq<MemoryStep<I, K, V>>, i: nat, render: V -> R, before: map<K, R>, vals: map<K, R>)
    requires i < |steps| && Holds(steps, i, render, before) && Written(steps[i], |steps[i].writes|, render, before, vals)
    ensures Holds(steps, i + 1, render, vals)
  {
    var m, n := steps[i], i + 1;
    assert m.writes[..|m.writes|] == m.writes;
    forall f
      ensures HoldsFor(steps, n, render, vals, f)
    {
      assert WrittenFor(m, |m.writes|, render, before, vals, f);
      assert HoldsFor(steps, i, render, before, f);
    }
  }

  /** The nested loops leave, for every field, the value of the last step that gives it one. */
  method MemoryValues<I(!new), K(==,!new), V(!new), R(!new)>(steps: seq<MemoryStep<I, K, V>>, render: V -> R) returns (vals: map<K, R>)
    ensures vals == Flat(steps, render)
  {
    vals := map[];
    var i := 0;
    while i < |steps|
      invariant 0 <= i <= |steps| && Holds(steps, i, render, vals)
    {
      var m := steps[i];
      ghost var before := vals;
      var k := 0;
      while k < |m.writes|
        invariant 0 <= k <= |m.writes| && Written(m, k, render, before, vals)
      {
        ghost var was := vals;
        var field := m.writes[k];
        if field in m.outputs {
          vals := vals[field := render(m.outputs[field])];
        }
        WrittenNext(m, k, render, before, was, vals);
        k := k + 1;
      }
      HoldsNext(steps, i, render, before, vals);
      i := i + 1;
    }
    FlatIs(steps, render, vals);
  }

  // ---------- reading one step's output ----------

  /** The same steps declaring and reporting the same fields, with other values perhaps. */
  ghost predicate SameShape<I(!new), K(!new), V(!new)>(a: seq<MemoryStep<I, K, V>>, b: seq<MemoryStep<I, K, V>>) {
    |a| == |b| && forall j :: 0 <= j < |a| ==> a[j].id == b[j].id && a[j].writes == b[j].writes && a[j].outputs.Keys == b[j].outputs.Keys
  }

  /** memory.f is what step i reported as f. */
  ghost predicate ReadsOwn<I(!new), K(!new), V(!new), R(!new)>(steps: seq<MemoryStep<I, K, V>>, render: V -> R, i: nat, f: K)
    requires i < |steps| && Gives(steps[i], f)
  {
    f in Flat(steps, render) && Flat(steps, render)[f] == render(steps[i].outputs[f])
  }

  lemma {:induction false} SameGiver<I(!new), K(!new), V(!new)>(a: seq<MemoryStep<I, K, V>>, b: seq<MemoryStep<I, K, V>>, n: nat, f: K)
    requires SameShape(a, b) && n <= |a|
    ensures LastGiver(a, n, f) == LastGiver(b, n, f)
  {
    if n > 0 {
      SameGiver(a, b, n - 1, f);
      assert a[n - 1].writes == b[n - 1].writes && a[n - 1].outputs.Keys == b[n - 1].outputs.Keys;
    }
  }

  /** Step j reporting v for the field. */
  function WithOutput<I, K(==), V>(steps: seq<MemoryStep<I, K, V>>, j: nat, f: K, v: V): (r: seq<MemoryStep<I, K, V>>)
    requires j < |steps|
  {
    steps[j := steps[j].(outputs := steps[j].outputs[f := v])]
  }

  /**
   memory.f is step i's f, whatever the steps report, exactly when no contribution after it
   gives f a value. The order is the one of the declarations: a step declared later counts
   even if it is not between i and the reader.
   */
  lemma {:induction false} FlatReadExactly<I(!new), K(!new), V(!new), R(!new)>(
    steps: seq<MemoryStep<I, K, V>>, render: V -> R, i: nat, f: K, v: V, w: V)
    requires i < |steps| && Gives(steps[i], f) && render(v) != render(w)
    ensures (forall others :: SameShape(steps, others) ==> ReadsOwn(others, render, i, f)) <==>
            (forall j :: i < j < |steps| ==> !Gives(steps[j], f))
  {
    var last := LastGiver(steps, |steps|, f).value;
    if last == i {
      forall others | SameShape(steps, others)
        ensures ReadsOwn(others, render, i, f)
      {
        SameGiver(steps, others, |steps|, f);
        FieldsHold(others, i, f);
      }
    } else {
      var others := WithOutput(WithOutput(steps, i, f, v), last, f, w);
      assert SameShape(steps, others);
      SameGiver(steps, others, |steps|, f);
      assert !ReadsOwn(others, render, i, f);
    }
  }

  /** What is contributed after node i's own contribution. */
  function After<I(==), T>(order: seq<Declared<I>>, contrib: map<I, T>, feedback: map<I, seq<T>>, i: nat): (r: seq<T>)
    requires i < |order|
  {
    OfOthers(contrib, feedback, order[i]) + Concat(order[i + 1..], OfNode(contrib, feedback))
  }

  lemma {:induction false} ConcatPlace<A, T>(a: seq<A>, x: A, b: seq<A>, g: A -> seq<T>)
    ensures Concat(a + [x] + b, g) == Concat(a, g) + g(x) + Concat(b, g)
  {
    ConcatSplits(a + [x], b, g);
    ConcatLast(a, x, g);
  }

  lemma {:induction false} CutAt<A>(xs: seq<A>, i: nat)
    requires i < |xs|
    ensures xs == xs[..i] + [xs[i]] + xs[i + 1..]
  {
  }

  lemma {:induction false} Regroup<T>(s: seq<T>, a: seq<T>, own: seq<T>, x: seq<T>, b: seq<T>)
    ensures s + (a + (own + x) + b) == (s + a) + own + (x + b)
  {
  }

  lemma {:induction false} OwnPlace<I(!new), T(!new)>(
    seed: seq<T>, order: seq<Declared<I>>, contrib: map<I, T>, feedback: map<I, seq<T>>, i: nat)
    requires i < |order| && order[i].id in contrib
    ensures MemSteps(seed, order, contrib, feedback) ==
            MemSteps(seed, order[..i], contrib, feedback) + [contrib[order[i].id]] + After(order, contrib, feedback, i)
  {
    var n, g := order[i], OfNode(contrib, feedback);
    CutAt(order, i);
    ConcatPlace(order[..i], n, order[i + 1..], g);
    assert g(n) == [contrib[n.id]] + OfOthers(contrib, feedback, n);
    Regroup(seed, Concat(order[..i], g), [contrib[n.id]], OfOthers(contrib, feedback, n), Concat(order[i + 1..], g));
  }

  lemma {:induction false} ReadExactlyAt<I(!new), K(!new), V(!new), R(!new)>(
    before: seq<MemoryStep<I, K, V>>, own: MemoryStep<I, K, V>, after: seq<MemoryStep<I, K, V>>, steps: seq<MemoryStep<I, K, V>>,
    render: V -> R, f: K, v: V, w: V)
    requires steps == before + [own] + after && Gives(own, f) && render(v) != render(w)
    ensures (forall others :: SameShape(steps, others) ==> ReadsOwn(others, render, |before|, f)) <==>
            (forall m :: m in after ==> !Gives(m, f))
  {
    var at := |before|;
    assert steps[at] == own;
    FlatReadExactly(steps, render, at, f, v, w);
    if forall m :: m in after ==> !Gives(m, f) {
      forall j | at < j < |steps|
        ensures !Gives(steps[j], f)
      {
        assert steps[j] == after[j - at - 1] && steps[j] in after;
      }
    }
    if forall j :: at < j < |steps| ==> !Gives(steps[j], f) {
      forall m | m in after
        ensures !Gives(m, f)
      {
        var k :| 0 <= k < |after| && after[k] == m;
        assert steps[at + 1 + k] == m;
      }
    }
  }

  /**
   In a run: x.f lowered to memory.f reads what x reported, whatever the steps report, exactly
   when nothing contributed after x gives f a value: not a child or a failed attempt of x, and
   not a step declared after x.
   */
  lemma {:induction false} LoweredReadExactly<I(!new), K(!new), V(!new), R(!new)>(
    seed: seq<MemoryStep<I, K, V>>, order: seq<Declared<I>>, contrib: map<I, MemoryStep<I, K, V>>,
    feedback: map<I, seq<MemoryStep<I, K, V>>>, render: V -> R, i: nat, f: K, v: V, w: V) returns (at: nat)
    requires i < |order| && order[i].id in contrib && Gives(contrib[order[i].id], f) && render(v) != render(w)
    ensures var steps := MemSteps(seed, order, contrib, feedback);
            && at < |steps| && steps[at] == contrib[order[i].id]
            && ((forall others :: SameShape(steps, others) ==> ReadsOwn(others, render, at, f)) <==>
                !(|| ChildGives(contrib, order[i], 0, f) || AttemptGives(feedback, order[i], f)
                  || LaterGives(order, contrib, feedback, i, f)))
  {
    AfterMeans(order, contrib, feedback, i, f);
    var before := MemSteps(seed, order[..i], contrib, feedback);
    at := |before|;
    OwnPlace(seed, order, contrib, feedback, i);
    ReadExactlyAt(before, contrib[order[i].id], After(order, contrib, feedback, i), MemSteps(seed, order, contrib, feedback),
                  render, f, v, w);
  }

  // ---------- who contributes after whom ----------

  ghost predicate AnyGives<I(!new), K(!new), V(!new)>(steps: seq<MemoryStep<I, K, V>>, f: K) {
    exists m :: m in steps && Gives(m, f)
  }

  lemma {:induction false} AnyGivesJoin<I(!new), K(!new), V(!new)>(a: seq<MemoryStep<I, K, V>>, b: seq<MemoryStep<I, K, V>>, f: K)
    ensures AnyGives(a + b, f) <==> AnyGives(a, f) || AnyGives(b, f)
  {
  }

  lemma {:induction false} ConcatGives<A(!new), I(!new), K(!new), V(!new)>(xs: seq<A>, g: A -> seq<MemoryStep<I, K, V>>, f: K)
    ensures AnyGives(Concat(xs, g), f) <==> exists k :: 0 <= k < |xs| && AnyGives(g(xs[k]), f)
  {
    if xs != [] {
      var n := |xs| - 1;
      ConcatGives(xs[..n], g, f);
      AnyGivesJoin(Concat(xs[..n], g), g(xs[n]), f);
      if k :| 0 <= k < |xs| && AnyGives(g(xs[k]), f) {
        assert k == n || AnyGives(g(xs[..n][k]), f);
      }
      if k :| 0 <= k < n && AnyGives(g(xs[..n][k]), f) {
        assert AnyGives(g(xs[k]), f);
      }
    }
  }

  /** The step contributed a value for the field. */
  predicate IdGives<I(==), K(==), V>(contrib: map<I, MemoryStep<I, K, V>>, id: I, f: K) {
    id in contrib && Gives(contrib[id], f)
  }

  /** A child of the node, from position q on, contributed a value. */
  ghost predicate ChildGives<I(!new), K(!new), V(!new)>(contrib: map<I, MemoryStep<I, K, V>>, n: Declared<I>, q: nat, f: K) {
    exists k :: q <= k < |n.children| && IdGives(contrib, n.children[k], f)
  }

  /** A failed attempt of the node left a value. */
  ghost predicate AttemptGives<I(!new), K(!new), V(!new)>(feedback: map<I, seq<MemoryStep<I, K, V>>>, n: Declared<I>, f: K) {
    n.id in feedback && AnyGives(feedback[n.id], f)
  }

  /** A node declared after node i contributed a value, itself, through a child or by a failed attempt. */
  ghost predicate LaterGives<I(!new), K(!new), V(!new)>(
    order: seq<Declared<I>>, contrib: map<I, MemoryStep<I, K, V>>, feedback: map<I, seq<MemoryStep<I, K, V>>>, i: nat, f: K)
  {
    exists j :: i < j < |order| &&
      (IdGives(contrib, order[j].id, f) || ChildGives(contrib, order[j], 0, f) || AttemptGives(feedback, order[j], f))
  }

  lemma {:induction false} OfGives<I(!new), K(!new), V(!new)>(contrib: map<I, MemoryStep<I, K, V>>, id: I, f: K)
    ensures AnyGives(Of(contrib, id), f) <==> IdGives(contrib, id, f)
  {
    if IdGives(contrib, id, f) {
      assert contrib[id] in Of(contrib, id);
    }
  }

  function Kids<I(==), T>(contrib: map<I, T>): (g: I -> seq<T>) {
    (id: I) => Of(contrib, id)
  }

  lemma {:induction false} KidsGive<I(!new), K(!new), V(!new)>(contrib: map<I, MemoryStep<I, K, V>>, n: Declared<I>, q: nat, f: K)
    requires q <= |n.children|
    ensures AnyGives(Concat(n.children[q..], Kids(contrib)), f) <==> ChildGives(contrib, n, q, f)
  {
    var ids := n.children[q..];
    ConcatGives(ids, Kids(contrib), f);
    if k :| 0 <= k < |ids| && AnyGives(Kids(contrib)(ids[k]), f) {
      OfGives(contrib, ids[k], f);
      assert n.children[q + k] == ids[k];
    }
    if k :| q <= k < |n.children| && IdGives(contrib, n.children[k], f) {
      OfGives(contrib, n.children[k], f);
      assert ids[k - q] == n.children[k];
    }
  }

  /** The contributions of a failed attempt. */
  function Attempts<I(==), T>(feedback: map<I, seq<T>>, id: I): (r: seq<T>) {
    if id in feedback then feedback[id] else []
  }

  lemma {:induction false} SameConcat<A(!new), T(!new)>(xs: seq<A>, g: A -> seq<T>, h: A -> seq<T>)
    requires forall x :: g(x) == h(x)
    ensures Concat(xs, g) == Concat(xs, h)
  {
    if xs != [] {
      SameConcat(xs[..|xs| - 1], g, h);
    }
  }

  /** Own first, then the children in their order, then the failed attempts. */
  lemma {:induction false} NodeOrder<I(!new), T(!new)>(contrib: map<I, T>, feedback: map<I, seq<T>>, n: Declared<I>)
    ensures OfNode(contrib, feedback)(n) ==
            Of(contrib, n.id) + (Concat(n.children, Kids(contrib)) + Attempts(feedback, n.id))
  {
    SameConcat(n.children, Kids(contrib), (id: I) => Of(contrib, id));
  }

  lemma {:induction false} NodeGives<I(!new), K(!new), V(!new)>(
    contrib: map<I, MemoryStep<I, K, V>>, feedback: map<I, seq<MemoryStep<I, K, V>>>, n: Declared<I>, f: K)
    ensures AnyGives(OfNode(contrib, feedback)(n), f) <==>
            IdGives(contrib, n.id, f) || ChildGives(contrib, n, 0, f) || AttemptGives(feedback, n, f)
  {
    var kids := Concat(n.children, Kids(contrib));
    NodeOrder(contrib, feedback, n);
    OfGives(contrib, n.id, f);
    KidsGive(contrib, n, 0, f);
    assert n.children[0..] == n.children;
    AnyGivesJoin(kids, Attempts(feedback, n.id), f);
    AnyGivesJoin(Of(contrib, n.id), kids + Attempts(feedback, n.id), f);
  }

  lemma {:induction false} RestGives<I(!new), K(!new), V(!new)>(
    order: seq<Declared<I>>, contrib: map<I, MemoryStep<I, K, V>>, feedback: map<I, seq<MemoryStep<I, K, V>>>, i: nat, f: K)
    requires i < |order|
    ensures AnyGives(Concat(order[i + 1..], OfNode(contrib, feedback)), f) <==> LaterGives(order, contrib, feedback, i, f)
  {
    var rest, g := order[i + 1..], OfNode(contrib, feedback);
    ConcatGives(rest, g, f);
    if k :| 0 <= k < |rest| && AnyGives(g(rest[k]), f) {
      NodeGives(contrib, feedback, rest[k], f);
      assert order[i + 1 + k] == rest[k];
    }
    if LaterGives(order, contrib, feedback, i, f) {
      var j :| i < j < |order| &&
        (IdGives(contrib, order[j].id, f) || ChildGives(contrib, order[j], 0, f) || AttemptGives(feedback, order[j], f));
      NodeGives(contrib, feedback, order[j], f);
      assert rest[j - i - 1] == order[j];
    }
  }

  /** What comes after node i's own contribution: its children, its failed attempts and the nodes declared after it. */
  lemma {:induction false} AfterMeans<I(!new), K(!new), V(!new)>(
    order: seq<Declared<I>>, contrib: map<I, MemoryStep<I, K, V>>, feedback: map<I, seq<MemoryStep<I, K, V>>>, i: nat, f: K)
    requires i < |order|
    ensures AnyGives(After(order, contrib, feedback, i), f) <==>
            ChildGives(contrib, order[i], 0, f) || AttemptGives(feedback, order[i], f) || LaterGives(order, contrib, feedback, i, f)
  {
    var n := order[i];
    var kids, rest := Concat(n.children, Kids(contrib)), Concat(order[i + 1..], OfNode(contrib, feedback));
    SameConcat(n.children, Kids(contrib), (id: I) => Of(contrib, id));
    KidsGive(contrib, n, 0, f);
    assert n.children[0..] == n.children;
    RestGives(order, contrib, feedback, i, f);
    AnyGivesJoin(kids, Attempts(feedback, n.id), f);
    AnyGivesJoin(kids + Attempts(feedback, n.id), rest, f);
  }

  /** What comes after the contribution of child q of node i. */
  function AfterChild<I(==), T>(order: seq<Declared<I>>, contrib: map<I, T>, feedback: map<I, seq<T>>, i: nat, q: nat): (r: seq<T>)
    requires i < |order| && q < |order[i].children|
  {
    Concat(order[i].children[q + 1..], Kids(contrib)) + Attempts(feedback, order[i].id)
    + Concat(order[i + 1..], OfNode(contrib, feedback))
  }

  function BeforeChild<I(==), T>(
    seed: seq<T>, order: seq<Declared<I>>, contrib: map<I, T>, feedback: map<I, seq<T>>, i: nat, q: nat): (r: seq<T>)
    requires i < |order| && q < |order[i].children|
  {
    MemSteps(seed, order[..i], contrib, feedback) + Of(contrib, order[i].id) + Concat(order[i].children[..q], Kids(contrib))
  }

  lemma {:induction false} RegroupChild<T>(
    seed: seq<T>, before: seq<T>, own: seq<T>, a: seq<T>, c: seq<T>, b: seq<T>, attempts: seq<T>, rest: seq<T>)
    ensures seed + (before + (own + ((a + c + b) + attempts)) + rest) == (seed + before + own + a) + c + (b + attempts + rest)
  {
  }

  lemma {:induction false} ChildPlace<I(!new), T(!new)>(
    seed: seq<T>, order: seq<Declared<I>>, contrib: map<I, T>, feedback: map<I, seq<T>>, i: nat, q: nat)
    requires i < |order| && q < |order[i].children| && order[i].children[q] in contrib
    ensures MemSteps(seed, order, contrib, feedback) ==
            BeforeChild(seed, order, contrib, feedback, i, q) + [contrib[order[i].children[q]]] + AfterChild(order, contrib, feedback, i, q)
  {
    var n, g, h := order[i], OfNode(contrib, feedback), Kids(contrib);
    CutAt(order, i);
    ConcatPlace(order[..i], n, order[i + 1..], g);
    NodeOrder(contrib, feedback, n);
    CutAt(n.children, q);
    ConcatPlace(n.children[..q], n.children[q], n.children[q + 1..], h);
    RegroupChild(seed, Concat(order[..i], g), Of(contrib, n.id), Concat(n.children[..q], h), h(n.children[q]),
                 Concat(n.children[q + 1..], h), Attempts(feedback, n.id), Concat(order[i + 1..], g));
  }

  /**
   A child's own output is read as memory.f, whatever the steps report, exactly when no later
   child of its group, no failed attempt of the group and no node declared after the group gives
   f a value.
   */
  lemma {:induction false} ChildReadExactly<I(!new), K(!new), V(!new), R(!new)>(
    seed: seq<MemoryStep<I, K, V>>, order: seq<Declared<I>>, contrib: map<I, MemoryStep<I, K, V>>,
    feedback: map<I, seq<MemoryStep<I, K, V>>>, render: V -> R, i: nat, q: nat, f: K, v: V, w: V) returns (at: nat)
    requires i < |order| && q < |order[i].children| && IdGives(contrib, order[i].children[q], f) && render(v) != render(w)
    ensures var steps := MemSteps(seed, order, contrib, feedback);
            && at < |steps| && steps[at] == contrib[order[i].children[q]]
            && ((forall others :: SameShape(steps, others) ==> ReadsOwn(others, render, at, f)) <==>
                !(|| ChildGives(contrib, order[i], q + 1, f) || AttemptGives(feedback, order[i], f)
                  || LaterGives(order, contrib, feedback, i, f)))
  {
    var n := order[i];
    var before, after := BeforeChild(seed, order, contrib, feedback, i, q), AfterChild(order, contrib, feedback, i, q);
    at := |before|;
    ChildPlace(seed, order, contrib, feedback, i, q);
    ReadExactlyAt(before, contrib[n.children[q]], after, MemSteps(seed, order, contrib, feedback), render, f, v, w);
    var kids, rest := Concat(n.children[q + 1..], Kids(contrib)), Concat(order[i + 1..], OfNode(contrib, feedback));
    KidsGive(contrib, n, q + 1, f);
    RestGives(order, contrib, feedback, i, f);
    AnyGivesJoin(kids, Attempts(feedback, n.id), f);
    AnyGivesJoin(kids + Attempts(feedback, n.id), rest, f);
  }
}
