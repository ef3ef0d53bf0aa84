/**
 Runs that tell the two readings of a body apart. A script says, for every length of a log,
 which comparisons hold there, whether steps succeed and how many items a path yields; each
 step leaves an entry in the log.
 */
module Telling {
  import opened Wrappers
  import opened Expr
  import opened Bodies

  // ---------- what is true ----------

  /** A verdict on every comparison. */
  type Valuation = Formula -> Verdict

  /** How a text is tested where the comparisons are decided so. */
  function Says(v: Valuation, c: string): (r: Verdict) {
    EvalCond(c, (e: Formula, w: ()) => v(e), ())
  }

  function Saying(v: Valuation): (says: string -> Verdict) {
    c => Says(v, c)
  }

  /** The comparisons of a world. */
  function ValuationAt<W>(atom: (Formula, W) -> Verdict, w: W): (v: Valuation) {
    e => atom(e, w)
  }

  lemma {:induction false} EvalAt<W(!new)>(e: Formula, atom: (Formula, W) -> Verdict, w: W, v: Valuation)
    requires forall x :: v(x) == atom(x, w)
    ensures Eval(e, atom, w) == Eval(e, (x: Formula, u: ()) => v(x), ())
  {
    match e
    case Or(l, r) => EvalAt(l, atom, w, v); EvalAt(r, atom, w, v);
    case And(l, r) => EvalAt(l, atom, w, v); EvalAt(r, atom, w, v);
    case Not(x) => EvalAt(x, atom, w, v);
    case Cmp(_, _, _, _) =>
  }

  lemma {:induction false} TestedAt<W(!new)>(c: string, atom: (Formula, W) -> Verdict, w: W, v: Valuation)
    requires forall x :: v(x) == atom(x, w)
    ensures EvalCond(c, atom, w) == Says(v, c)
  {
    if c != "" && ParseExpr(StripDelimiters(c)).Some? {
      EvalAt(ParseExpr(StripDelimiters(c)).value, atom, w, v);
    }
  }

  /** No comparison can be decided. */
  function Undecided(): (v: Valuation) {
    e => Error
  }

  lemma {:induction false} EvalFails(e: Formula, atom: (Formula, ()) -> Verdict)
    requires forall x :: atom(x, ()) == Error
    ensures Eval(e, atom, ()) == Error
  {
    match e
    case Or(l, r) => EvalFails(l, atom);
    case And(l, r) => EvalFails(l, atom);
    case Not(x) => EvalFails(x, atom);
    case Cmp(_, _, _, _) =>
  }

  lemma {:induction false} SaysNothing(c: string)
    ensures Says(Undecided(), c) == if c == "" then True else Error
  {
    if c != "" && ParseExpr(StripDelimiters(c)).Some? {
      var v := Undecided();
      EvalFails(ParseExpr(StripDelimiters(c)).value, (e: Formula, w: ()) => v(e));
    }
  }

  // ---------- the script ----------

  /** What a step that ended did (attempts, passes, outcome), a restart inside it, a look at memory, or a loop-back. */
  datatype Entry = Ended(ran: nat, passed: nat, ok: bool) | Again | Peeked | Back

  type Log = seq<Entry>

  datatype Cue = Cue(v: Valuation, ok: bool, items: nat)

  function CueAt(script: seq<Cue>, w: Log): (c: Cue) {
    if |w| >= |script| || (w != [] && w[|w| - 1].Peeked?) then Cue(Undecided(), true, 0) else script[|w|]
  }

  function CountPassed<D>(fates: seq<Fate<D>>): (n: nat)
    ensures n <= |fates|
  {
    if fates == [] then 0
    else CountPassed(fates[..|fates| - 1]) + if Passes(fates[|fates| - 1]) then 1 else 0
  }

  lemma {:induction false} PassedAll<D>(fates: seq<Fate<D>>)
    ensures CountPassed(fates) == |fates| <==> forall i :: 0 <= i < |fates| ==> Passes(fates[i])
  {
    if fates != [] {
      PassedAll(fates[..|fates| - 1]);
      assert forall i :: 0 <= i < |fates| - 1 ==> fates[..|fates| - 1][i] == fates[i];
    }
  }

  /** Steps act by the script. */
  function Play(script: seq<Cue>, redo: Redo): (r: Acts<(), Log>) {
    Acts(
      (id, kind, payload, w) => ((), CueAt(script, w).ok),
      (id, i, payload, w) => ((), CueAt(script, w).ok),
      (items, w) => Some(CueAt(script, w).items),
      (id, m, w) => m,
      (join, fates, w) => CueAt(script, w).ok,
      (id, d, w) => w + [Peeked],
      (id, f, w) => w + [Again],
      redo,
      (id, fates, ok, w) => w + [Ended(|fates|, CountPassed(fates), ok)])
  }

  /** Texts are tested by the script. */
  ghost predicate Scripted(script: seq<Cue>, test: Test<Log>) {
    forall c, w :: test(c, w) == Says(CueAt(script, w).v, c)
  }

  /** A gate of a child is tested where nothing can be decided. */
  lemma {:induction false} GateShut(script: seq<Cue>, test: Test<Log>, gate: string, w: Log)
    requires Scripted(script, test) && gate != ""
    ensures !GateOpen(test, gate, w + [Peeked])
  {
    var x := w + [Peeked];
    assert x[|x| - 1].Peeked?;
    SaysNothing(gate);
  }

  // ---------- tame bodies do as told ----------

  /** The body can pass at all. */
  predicate Able(b: Body) {
    b.Each? ==> b.maxItems >= 0
  }

  /** A group has somebody who can fail. */
  predicate Manned(b: Body) {
    b.Fork? ==> b.kids != []
  }

  lemma {:induction false} ForkTold(script: seq<Cue>, redo: Redo, id: string, b: Body, w: Log)
    requires b.Fork? && Manned(b)
    ensures var ok := CueAt(script, w).ok;
            RunEmitted(Play(script, redo), id, b, w) == (w + [Ended(|b.kids|, if ok then |b.kids| else 0, ok)], ok)
  {
    var acts, ok := Play(script, redo), CueAt(script, w).ok;
    var y := EmittedKids(acts, b.kids, w);
    assert forall i :: 0 <= i < |y| ==> y[i] == Ran((), ok);
    CountTold(y, ok);
    assert Passes(y[0]) == ok && Fails(y[0]) == !ok;
    assert AnyPasses(y) == ok && AnyFails(y) == !ok;
  }

  lemma {:induction false} CountTold(fates: seq<Fate<()>>, ok: bool)
    requires forall i :: 0 <= i < |fates| ==> fates[i] == Ran((), ok)
    ensures CountPassed(fates) == if ok then |fates| else 0
  {
    if fates != [] {
      CountTold(fates[..|fates| - 1], ok);
    }
  }

  lemma {:induction false} OneItem<D(!new)>(one: Item<D>, failFast: bool)
    ensures RunItems(one, 0, 1, failFast) == one(0)
  {
    var (here, ok) := one(0);
    assert here + [] == here;
  }

  /** How a for_each ends on no item or on one. */
  lemma {:induction false} EachEnded(script: seq<Cue>, redo: Redo, id: string, b: Body, one: Item<()>, w: Log)
    requires b.Each? && b.maxItems >= 0 && CueAt(script, w).items <= 1
    ensures var (here, ok) := if CueAt(script, w).items == 0 then ([], true) else one(0);
            EachEnd(Play(script, redo), id, b, one, w) == (w + [Ended(|here|, CountPassed(here), ok)], ok)
  {
    OneItem(one, b.failFast);
    OneItem(one, false);
  }

  lemma {:induction false} OneTold(script: seq<Cue>, redo: Redo, id: string, payload: string, w: Log)
    ensures EmittedOne(Play(script, redo), id, payload, w)(0) == ([Ran((), CueAt(script, w).ok)], CueAt(script, w).ok)
  {
    var r := Play(script, redo).item(id, 0, payload, w);
    assert r == ((), CueAt(script, w).ok);
    assert Straight(r) == Ran((), CueAt(script, w).ok);
  }

  /** What a node leaves in the log. */
  lemma {:induction false} NodeTold(script: seq<Cue>, redo: Redo, id: string, b: Body, w: Log) returns (e: Entry)
    requires Manned(b) && CueAt(script, w).items <= 1
    ensures e.Ended? && RunEmitted(Play(script, redo), id, LoweredBody(id, b), w) == (w + [e], e.ok)
    ensures b.Fork? ==> e == Ended(|b.kids|, if CueAt(script, w).ok then |b.kids| else 0, CueAt(script, w).ok)
    ensures b.Agent? ==> e.ok == CueAt(script, w).ok
    ensures b.Each? && (b.maxItems < 0 || b.kids == []) ==> e == Ended(0, 0, false)
    ensures b.Each? && b.maxItems >= 0 && b.kids != [] && CueAt(script, w).items == 1 ==>
              e == Ended(1, if CueAt(script, w).ok then 1 else 0, CueAt(script, w).ok)
  {
    var acts, ok, low := Play(script, redo), CueAt(script, w).ok, LoweredBody(id, b);
    match b
    case Agent(_, _) => e := Ended(1, CountPassed([Ran((), ok)]), ok);
    case Fork(_, _) =>
      ForkTold(script, redo, id, b, w);
      e := Ended(|b.kids|, if ok then |b.kids| else 0, ok);
    case Each(_, _, max, _, _, kids, _) =>
      if max < 0 || kids == [] {
        e := Ended(0, 0, false);
      } else {
        var one := EmittedOne(acts, id, low.step.value.payload, w);
        EachEnded(script, redo, id, low, one, w);
        CountTold([Ran((), ok)], ok);
        OneTold(script, redo, id, low.step.value.payload, w);
        var (here, passed) := if CueAt(script, w).items == 0 then ([], true) else one(0);
        e := Ended(|here|, CountPassed(here), passed);
      }
  }

  /** A tame body leaves one entry, the same as its node, and passes as told if it can. */
  lemma {:induction false} TameTold(script: seq<Cue>, redo: Redo, test: Test<Log>, id: string, b: Body, w: Log) returns (e: Entry)
    requires Scripted(script, test) && Manned(b) && CueAt(script, w).items == 1 && Tame(Saying(CueAt(script, w).v), b)
    ensures e.Ended? && Perform(Play(script, redo), test, id, Written(b), w) == (w + [e], CueAt(script, w).ok && Able(b))
    ensures Perform(Play(script, redo), test, id, Emitted(LoweredBody(id, b)), w) == (w + [e], CueAt(script, w).ok && Able(b))
  {
    TameHere(script, test, b, w);
    TameAgrees(Play(script, redo), test, id, b, w);
    e := NodeTold(script, redo, id, b, w);
  }

  lemma {:induction false} TameHere(script: seq<Cue>, test: Test<Log>, b: Body, w: Log)
    requires Scripted(script, test)
    ensures Tame(SaysAt(test, w), b) <==> Tame(Saying(CueAt(script, w).v), b)
  {
    var x, y := SaysAt(test, w), Saying(CueAt(script, w).v);
    assert forall c :: x(c) == y(c);
    if b.Fork? {
      forall i | 0 <= i < |b.kids|
        ensures Calm(x, b.kids, i) <==> Calm(y, b.kids, i)
      {
      }
    }
  }

  // ---------- other bodies tell ----------

  /** Child i runs and has no gate. */
  predicate Clear(says: string -> Verdict, kids: seq<Kid>, i: nat)
    requires i < |kids|
  {
    says(kids[i].guard) == True && kids[i].gate == ""
  }

  /** Only a restart is at fault, so a child has to fail to show it. */
  predicate Restless(says: string -> Verdict, b: Body) {
    match b
    case Agent(_, _) => false
    case Fork(_, kids) => forall i :: 0 <= i < |kids| ==> Clear(says, kids, i)
    case Each(_, _, _, _, _, kids, _) => |kids| == 1 && Clear(says, kids, 0)
  }

  /** The cue that shows what a body does. */
  function Showing(v: Valuation, b: Body): (c: Cue) {
    Cue(v, !Restless(Saying(v), b), if b.Each? && b.kids == [] then 0 else 1)
  }

  /** A child passes only if it is clear. */
  lemma {:induction false} ClearPasses(script: seq<Cue>, redo: Redo, test: Test<Log>, k: Kid, result: ((), bool), w: Log)
    requires Scripted(script, test) && Passes(KidFate(Play(script, redo), test, k, result, w))
    ensures Says(CueAt(script, w).v, k.guard) == True && k.gate == "" && result.1
  {
    if k.gate != "" {
      GateShut(script, test, k.gate, w);
    }
  }

  lemma {:induction false} RoundsGrow(
    script: seq<Cue>, redo: Redo, test: Test<Log>, id: string, join: string, kids: seq<Kid>, fates: seq<Fate<()>>, left: seq<nat>, w: Log)
    requires |fates| == |kids| && Within(kids, left)
    ensures w <= Rounds(Play(script, redo), test, id, join, kids, fates, left, w).0
    decreases Sum(left)
  {
    var acts, i := Play(script, redo), Restarting(fates, left);
    if i < |kids| {
      var again := w + [Again];
      RoundsGrow(script, redo, test, id, join, kids, Rerun(acts, test, kids, fates, Target(kids, i), i, again), Spend(left, i), again);
      assert w <= again;
    }
  }

  /** What the group as written leaves first: a restart, or how many passed. */
  lemma {:induction false} ForkWritten(script: seq<Cue>, redo: Redo, test: Test<Log>, id: string, b: Body, w: Log)
    requires b.Fork?
    ensures var acts := Play(script, redo);
            var fates, r := WrittenKids(acts, test, b.kids, w), RunWritten(acts, test, id, b, w).0;
            && w <= r && |w| < |r|
            && (r[|w|] == Again || (r[|w|].Ended? && r[|w|].passed == CountPassed(fates)))
            && ((exists i :: 0 <= i < |b.kids| && Fails(fates[i]) && Live(b.kids, i)) ==> r[|w|] == Again)
  {
    var acts := Play(script, redo);
    var fates, left := WrittenKids(acts, test, b.kids, w), Budget(b.kids);
    var i := Restarting(fates, left);
    if i < |b.kids| {
      var again := w + [Again];
      RoundsGrow(script, redo, test, id, b.join, b.kids, Rerun(acts, test, b.kids, fates, Target(b.kids, i), i, again), Spend(left, i), again);
      assert again[|w|] == Again;
    }
  }

  ghost predicate Differ(p: Log, q: Log, w: Log) {
    w <= p && w <= q && |w| < |p| && |w| < |q| && p[|w|] != q[|w|]
  }

  lemma {:induction false} ForkShows(script: seq<Cue>, redo: Redo, test: Test<Log>, id: string, b: Body, w: Log)
    requires Scripted(script, test) && b.Fork? && !Tame(Saying(CueAt(script, w).v), b)
    requires CueAt(script, w) == Showing(CueAt(script, w).v, b)
    ensures Differ(RunEmitted(Play(script, redo), id, b, w).0, RunWritten(Play(script, redo), test, id, b, w).0, w)
  {
    var acts, cue := Play(script, redo), CueAt(script, w);
    var fates, says := WrittenKids(acts, test, b.kids, w), Saying(cue.v);
    var i :| 0 <= i < |b.kids| && !Calm(says, b.kids, i);
    ForkTold(script, redo, id, b, w);
    ForkWritten(script, redo, test, id, b, w);
    if Restless(says, b) {
      assert Clear(says, b.kids, i);
      assert Fails(fates[i]) && Live(b.kids, i);
    } else {
      var j :| 0 <= j < |b.kids| && !Clear(says, b.kids, j);
      PassedAll(fates);
      if Passes(fates[j]) {
        ClearPasses(script, redo, test, b.kids[j], ((), cue.ok), w);
        assert false;
      }
    }
  }

  /** What the first attempt of an item says about all of them. */
  lemma {:induction false} ItemWritten(script: seq<Cue>, redo: Redo, test: Test<Log>, id: string, kids: seq<Kid>, w: Log)
    requires kids != []
    ensures var acts := Play(script, redo);
            var f, r := KidFate(acts, test, kids[0], ((), CueAt(script, w).ok), w), WrittenOne(acts, test, id, kids, w)(0).0;
            && |r| > 0 && r[0] == f
            && (|r| == 1 ==> |kids| == 1 || Fails(f))
            && (Fails(f) && Live(kids, 0) ==> |r| > 1 || Target(kids, 0) == |kids|)
  {
    var acts := Play(script, redo);
    var f := KidFate(acts, test, kids[0], ((), CueAt(script, w).ok), w);
    var left := Budget(kids);
    if !Fails(f) {
      var after := if f.Ran? then acts.peek(kids[0].id, f.d, w) else w;
      if |kids| > 1 {
        ItemGoesOn(script, redo, test, id, kids, 1, left, after);
      }
    } else if Live(kids, 0) {
      ItemGoesOn(script, redo, test, id, kids, Target(kids, 0), Spend(left, 0), acts.feedback(kids[0].id, f, w));
    }
  }

  lemma {:induction false} ItemGoesOn(script: seq<Cue>, redo: Redo, test: Test<Log>, id: string, kids: seq<Kid>, pc: nat, left: seq<nat>, w: Log)
    requires pc < |kids| && Within(kids, left)
    ensures |WrittenItem(Play(script, redo), test, id, 0, kids, pc, left, w).0| > 0
  {
  }

  lemma {:induction false} EachShows(script: seq<Cue>, redo: Redo, test: Test<Log>, id: string, b: Body, w: Log)
    requires Scripted(script, test) && b.Each? && !Tame(Saying(CueAt(script, w).v), b)
    requires CueAt(script, w) == Showing(CueAt(script, w).v, b)
    ensures Differ(RunEmitted(Play(script, redo), id, LoweredBody(id, b), w).0, RunWritten(Play(script, redo), test, id, b, w).0, w)
  {
    var acts, cue, kids := Play(script, redo), CueAt(script, w), b.kids;
    var one := WrittenOne(acts, test, id, BodyKids(b), w);
    var e := NodeTold(script, redo, id, b, w);
    EachEnded(script, redo, id, b, one, w);
    if kids != [] {
      var (r, ok) := one(0);
      ItemWritten(script, redo, test, id, kids, w);
      PassedAll(r);
      if cue.ok && |r| == 1 && Passes(r[0]) {
        ClearPasses(script, redo, test, kids[0], ((), cue.ok), w);
        assert false;
      }
    }
  }

  /** The log tells a body that is not tame from its node. */
  lemma {:induction false} UntameShows(script: seq<Cue>, redo: Redo, test: Test<Log>, id: string, b: Body, w: Log)
    requires Scripted(script, test) && !Tame(Saying(CueAt(script, w).v), b)
    requires CueAt(script, w) == Showing(CueAt(script, w).v, b)
    ensures Differ(Perform(Play(script, redo), test, id, Emitted(LoweredBody(id, b)), w).0,
                   Perform(Play(script, redo), test, id, Written(b), w).0, w)
  {
    if b.Fork? {
      ForkShows(script, redo, test, id, b, w);
    } else {
      EachShows(script, redo, test, id, b, w);
    }
  }

  // ---------- the exact condition, body by body ----------

  ghost predicate Agrees(acts: Acts<(), Log>, test: Test<Log>, id: string, b: Body, w: Log) {
    Perform(acts, test, id, Emitted(LoweredBody(id, b)), w) == Perform(acts, test, id, Written(b), w)
  }

  lemma {:induction false} UnfaithfulIsUntame(b: Body)
    requires !Faithful(b)
    ensures !Tame(Saying(Undecided()), b)
  {
    if b.Fork? {
      var i :| 0 <= i < |b.kids| && !Bare(b.kids, i);
      SaysNothing(b.kids[i].guard);
      assert !Calm(Saying(Undecided()), b.kids, i);
    } else if |b.kids| == 1 {
      SaysNothing(b.kids[0].guard);
    }
  }

  function TestBy(script: seq<Cue>): (test: Test<Log>) {
    (c, w) => Says(CueAt(script, w).v, c)
  }

  lemma {:induction false} ByScript(script: seq<Cue>)
    ensures Scripted(script, TestBy(script)) && EmptyHolds(TestBy(script))
  {
  }

  /** Any other body has a run in which its node does something else. */
  lemma {:induction false} UnfaithfulShows(id: string, b: Body, redo: Redo) returns (acts: Acts<(), Log>, test: Test<Log>)
    requires !Faithful(b)
    ensures acts.redo == redo && EmptyHolds(test) && !Agrees(acts, test, id, b, [])
  {
    var script := [Showing(Undecided(), b)];
    acts, test := Play(script, redo), TestBy(script);
    ByScript(script);
    UnfaithfulIsUntame(b);
    assert CueAt(script, []) == script[0];
    UntameShows(script, redo, test, id, b, []);
  }

  /**
   A node does what was written, whatever its children do, exactly when no child carries a
   guard, a gate or a restart from a sibling, and a for_each that can run has exactly one
   inner step. This is so whichever siblings a restart takes along.
   */
  lemma {:induction false} BodyExactly(id: string, b: Body, redo: Redo)
    ensures Faithful(b) <==>
            forall acts: Acts<(), Log>, test, w :: acts.redo == redo && EmptyHolds(test) ==> Agrees(acts, test, id, b, w)
  {
    if Faithful(b) {
      forall acts: Acts<(), Log>, test: Test<Log>, w: Log | acts.redo == redo && EmptyHolds(test)
        ensures Agrees(acts, test, id, b, w)
      {
        FaithfulAgrees(acts, test, id, b, w);
      }
    } else {
      var acts, test := UnfaithfulShows(id, b, redo);
      assert acts.redo == redo && EmptyHolds(test) && !Agrees(acts, test, id, b, []);
    }
  }
}
