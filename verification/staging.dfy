/**
 The fields that lowering makes steps persist. The pass threads a table through the whole
 tree; here each expression contributes a set of (step, field) demands, and the table is
 proved to hold exactly their union, in a form that no order of visiting can change.
 */
module Staging {
  import opened Text
  import opened Expr
  import opened Scanner
  import opened Steps
  import opened Lowering

  // ---------- what the expressions demand ----------

  type Demand = set<(string, string)>

  function RefDemand(known: set<string>, expr: string): (r: Demand) {
    set x | x in Refs(known, Pieces(StripDelimiters(expr)))
  }

  /** memory.f in a lowered expression demands f of every step that declares it. */
  function AccessDemand(index: map<string, Step>, expr: string): (r: Demand) {
    set f, id | f in MemoryFields(Pieces(expr)) && id in Declaring(index, f) :: (id, f)
  }

  function OwnDemand(index: map<string, Step>, s: Step, inherited: string): (r: Demand) {
    RefDemand(index.Keys, s.guard)
    + (if s.rejectWhen != "" then RefDemand(index.Keys, s.rejectWhen) else {})
    + AccessDemand(index, Condition(index.Keys, s, inherited))
    + AccessDemand(index, Gate(index.Keys, s))
  }

  function ItemsDemand(known: set<string>, s: Step): (r: Demand) {
    var (_, step, field) := ParseForEach(s.forEach);
    if step in known && step != "" && field != "" then {(step, field)} else {}
  }

  function LeavesDemand(index: map<string, Step>, steps: seq<Step>): (r: Demand) {
    if steps == [] then {} else OwnDemand(index, steps[0], "") + LeavesDemand(index, steps[1..])
  }

  function StepDemand(index: map<string, Step>, s: Step, inherited: string): (r: Demand)
    decreases s, 1
  {
    match ShapeOf(s)
    case AForEach =>
      OwnDemand(index, s, inherited) + ItemsDemand(index.Keys, s) +
      (if |s.subSteps| == 1 then OwnDemand(index, s.subSteps[0], "") else ListDemand(index, s.subSteps, ""))
    case ATyped => {}
    case AParallel =>
      OwnDemand(index, s, inherited) + LeavesDemand(index, s.parallelSteps)
    case AGroup =>
      RefDemand(index.Keys, s.guard) + ListDemand(index, s.subSteps, Condition(index.Keys, s, inherited))
    case ALeaf => OwnDemand(index, s, inherited)
  }

  function ListDemand(index: map<string, Step>, steps: seq<Step>, inherited: string): (r: Demand)
    decreases steps, 0
  {
    set s, x | s in steps && x in StepDemand(index, s, inherited) :: x
  }

  // ---------- the items path of a for_each ----------

  lemma {:induction false} IndexOfSeparator(a: string, c: char, rest: string, i: nat)
    requires c !in a && i <= |a|
    ensures IndexOfChar(a + ([c] + rest), c, i) == |a|
    decreases |a| - i
  {
    var s := a + ([c] + rest);
    if i < |a| {
      assert s[i] == a[i] && a[i] in a;
      IndexOfSeparator(a, c, rest, i + 1);
    } else {
      assert s[i] == c;
    }
  }

  lemma {:induction false} SplitHead(a: string, c: char, rest: string, n: nat)
    requires c !in a && n >= 2
    ensures SplitN(a + ([c] + rest), c, n) == [a] + SplitN(rest, c, n - 1)
  {
    var s := a + ([c] + rest);
    IndexOfSeparator(a, c, rest, 0);
    assert s[..|a|] == a && s[|a| + 1..] == rest;
  }

  lemma {:induction false} BeforeSeparator(s: string, c: char, i: nat)
    requires i <= |s| && c !in s[..i]
    ensures c !in s[..IndexOfChar(s, c, i)]
    decreases |s| - i
  {
    if i < |s| && s[i] != c {
      assert s[..i + 1] == s[..i] + [s[i]];
      BeforeSeparator(s, c, i + 1);
    }
  }

  /** Splitting cuts at the first separator, and then splits the rest. */
  lemma {:induction false} SplitCut(s: string, c: char, n: nat) returns (rest: string)
    requires n >= 2 && |SplitN(s, c, n)| >= 2
    ensures var parts := SplitN(s, c, n);
            && c !in parts[0] && s == parts[0] + ([c] + rest) && parts[1..] == SplitN(rest, c, n - 1)
  {
    var j := IndexOfChar(s, c, 0);
    BeforeSeparator(s, c, 0);
    rest := s[j + 1..];
    assert s == s[..j] + ([c] + rest);
  }

  function ItemsPath(step: string, field: string): (r: string) {
    "steps" + (['.'] + (step + (['.'] + ("output" + (['.'] + field)))))
  }

  lemma {:induction false} FourParts<T>(a: T, b: T, c: T, d: T)
    ensures [a] + ([b] + ([c] + [d])) == [a, b, c, d]
  {
  }

  lemma {:induction false} PathSplits(step: string, field: string)
    requires '.' !in step
    ensures SplitN(ItemsPath(step, field), '.', 4) == ["steps", step, "output", field]
  {
    var steps, output := "steps", "output";
    var tail := output + (['.'] + field);
    var rest := step + (['.'] + tail);
    SplitHead(output, '.', field, 2);
    SplitHead(step, '.', tail, 3);
    SplitHead(steps, '.', rest, 4);
    FourParts(steps, step, output, field);
  }

  ghost predicate EndsAs(s: string, tail: string) {
    tail == "" || (s != "" && s[|s| - 1] == tail[|tail| - 1])
  }

  lemma {:induction false} EndsAsTail(head: string, rest: string, tail: string)
    requires EndsAs(rest, tail)
    ensures EndsAs(head + rest, tail)
  {
    var s := head + rest;
    if tail != "" {
      assert s[|s| - 1] == rest[|rest| - 1];
    }
  }

  /** The last of n parts is the end of the text. */
  lemma {:induction false} LastPart(s: string, c: char, n: nat)
    requires n >= 1 && |SplitN(s, c, n)| == n
    ensures EndsAs(s, SplitN(s, c, n)[n - 1])
    decreases n
  {
    if n > 1 {
      var parts := SplitN(s, c, n);
      var rest := SplitCut(s, c, n);
      LastPart(rest, c, n - 1);
      assert parts[1..][n - 2] == parts[n - 1];
      EndsAsTail([c], rest, parts[n - 1]);
      EndsAsTail(parts[0], [c] + rest, parts[n - 1]);
    }
  }

  lemma {:induction false} SecondPart(s: string, c: char, n: nat)
    requires n >= 3 && |SplitN(s, c, n)| >= 3
    ensures c !in SplitN(s, c, n)[1]
  {
    var parts := SplitN(s, c, n);
    var rest := SplitCut(s, c, n);
    var more := SplitCut(rest, c, n - 1);
    assert parts[1..][0] == parts[1];
  }

  lemma {:induction false} Regroup<T>(a: seq<T>, dot: seq<T>, step: seq<T>, out: seq<T>, field: seq<T>)
    ensures (a + dot) + step + ((dot + out) + dot) + field == a + (dot + (step + (dot + (out + (dot + field)))))
  {
  }

  lemma {:induction false} PathText(step: string, field: string)
    ensures "steps." + step + ".output." + field == ItemsPath(step, field)
  {
    assert "steps." == "steps" + ['.'] && ".output." == (['.'] + "output") + ['.'];
    Regroup("steps", ['.'], step, "output", field);
  }

  predicate IsShort(s: string) {
    |SplitN(s, '.', 2)| == 2 && !("steps." <= s) && !("memory." <= s)
  }

  predicate IsLong(s: string) {
    var full := SplitN(s, '.', 4);
    |full| == 4 && full[0] == "steps" && (full[2] == "output" || full[2] == "outputs")
  }

  /** The two ways a for_each names the step it reads. */
  lemma {:induction false} ForEachForms(expr: string)
    ensures var s := StripDelimiters(expr);
            var parts, full := SplitN(s, '.', 2), SplitN(s, '.', 4);
            ParseForEach(expr) ==
              if IsShort(s) then (ItemsPath(parts[0], parts[1]), parts[0], parts[1])
              else if IsLong(s) then (ItemsPath(full[1], full[3]), full[1], full[3])
              else (s, "", "")
  {
    var s := StripDelimiters(expr);
    var parts, full := SplitN(s, '.', 2), SplitN(s, '.', 4);
    if IsShort(s) {
      PathText(parts[0], parts[1]);
    } else if IsLong(s) {
      PathText(full[1], full[3]);
    }
  }

  /** A for_each that names a step becomes the items path of that step's output. */
  lemma {:induction false} ItemsPathNamed(expr: string)
    requires ParseForEach(expr).1 != ""
    ensures var (path, step, field) := ParseForEach(expr);
            path == ItemsPath(step, field) && '.' !in step && EndsAs(StripDelimiters(expr), field)
  {
    var s := StripDelimiters(expr);
    ForEachForms(expr);
    if IsShort(s) {
      var rest := SplitCut(s, '.', 2);
      LastPart(s, '.', 2);
    } else {
      SecondPart(s, '.', 4);
      LastPart(s, '.', 4);
    }
  }

  lemma {:induction false} PathStripped(step: string, field: string)
    requires field == "" || !IsSpace(field[|field| - 1])
    ensures StripDelimiters(ItemsPath(step, field)) == ItemsPath(step, field)
    ensures "steps." <= ItemsPath(step, field)
  {
    var path, end := ItemsPath(step, field), if field == "" then "." else field;
    var out := "output" + (['.'] + field);
    assert EndsAs(['.'] + field, end);
    EndsAsTail("output", ['.'] + field, end);
    EndsAsTail(['.'], out, end);
    EndsAsTail(step, ['.'] + out, end);
    EndsAsTail(['.'], step + (['.'] + out), end);
    EndsAsTail("steps", ['.'] + (step + (['.'] + out)), end);
    PathStarts(step + (['.'] + out));
    TrimSpaceFixed(path);
  }

  lemma {:induction false} PathStarts(rest: string)
    ensures var path := "steps" + (['.'] + rest); path[0] == 's' && "steps." <= path && !IsWrapped(path)
  {
    var path := "steps" + (['.'] + rest);
    assert path[..6] == "steps.";
  }

  /** However a for_each spells the step it reads, the emitted path reads back as that step and field. */
  lemma {:induction false} ItemsPathReadsBack(expr: string)
    requires ParseForEach(expr).1 != ""
    ensures ParseForEach(ParseForEach(expr).0) == ParseForEach(expr)
  {
    var (path, step, field) := ParseForEach(expr);
    ItemsPathNamed(expr);
    PathSplits(step, field);
    PathStripped(step, field);
    ForEachForms(path);
  }

  // ---------- tables that grow by a demand ----------

  ghost predicate GrowsAt(p: Pending, q: Pending, d: Demand, id: string) {
    && Staged(p, id) <= Staged(q, id)
    && (forall f :: f in Staged(q, id) <==> f in Staged(p, id) || (id, f) in d)
    && (Distinct(Staged(p, id)) ==> Distinct(Staged(q, id)))
  }

  /** q is p with the demanded fields appended where they were missing, and nothing else. */
  ghost predicate Grows(p: Pending, q: Pending, d: Demand) {
    forall id :: GrowsAt(p, q, d, id)
  }

  lemma {:induction false} GrowsTrans(p: Pending, q: Pending, r: Pending, d: Demand, e: Demand)
    requires Grows(p, q, d) && Grows(q, r, e)
    ensures Grows(p, r, d + e)
  {
    forall id
      ensures GrowsAt(p, r, d + e, id)
    {
      assert GrowsAt(p, q, d, id) && GrowsAt(q, r, e, id);
    }
  }

  lemma {:induction false} InsertOne(fields: seq<string>, f: string)
    ensures fields <= Insert(fields, f)
    ensures forall g :: g in Insert(fields, f) <==> g in fields || g == f
    ensures Distinct(fields) ==> Distinct(Insert(fields, f))
  {
  }

  lemma {:induction false} AddWriteGrows(known: set<string>, p: Pending, id: string, f: string)
    ensures Grows(p, AddWrite(known, p, id, f), if id in known then {(id, f)} else {})
  {
    var q, d := AddWrite(known, p, id, f), if id in known then {(id, f)} else {};
    InsertOne(Staged(p, id), f);
    forall k
      ensures GrowsAt(p, q, d, k)
    {
      assert Staged(q, k) == if id in known && k == id then Insert(Staged(p, k), f) else Staged(p, k);
    }
  }

  lemma {:induction false} AddRefsGrows(known: set<string>, p: Pending, refs: seq<(string, string)>)
    requires forall x :: x in refs ==> x.0 in known
    ensures Grows(p, AddRefs(known, p, refs), set x | x in refs)
    decreases |refs|
  {
    if refs != [] {
      var q := AddWrite(known, p, refs[0].0, refs[0].1);
      AddWriteGrows(known, p, refs[0].0, refs[0].1);
      AddRefsGrows(known, q, refs[1..]);
      GrowsTrans(p, q, AddRefs(known, p, refs), {refs[0]}, set x | x in refs[1..]);
      assert (set x | x in refs) == {refs[0]} + set x | x in refs[1..];
    }
  }

  lemma {:induction false} RefsKnown(known: set<string>, ps: seq<Piece>)
    ensures forall x :: x in Refs(known, ps) ==> x.0 in known
  {
    if ps != [] {
      RefsKnown(known, if RefAt(known, ps, 0) then ps[3..] else ps[1..]);
    }
  }

  lemma {:induction false} RewriteGrows(known: set<string>, p: Pending, expr: string)
    ensures Grows(p, StageRewrite(known, p, expr), RefDemand(known, expr))
  {
    RefsKnown(known, Pieces(StripDelimiters(expr)));
    AddRefsGrows(known, p, Refs(known, Pieces(StripDelimiters(expr))));
  }

  lemma {:induction false} WireAllGrows(p: Pending, ids: set<string>, f: string)
    ensures Grows(p, WireAll(p, ids, f), set id | id in ids :: (id, f))
  {
    var q, d := WireAll(p, ids, f), set id | id in ids :: (id, f);
    forall id
      ensures GrowsAt(p, q, d, id)
    {
      InsertOne(Staged(p, id), f);
      assert Staged(q, id) == if id in ids then Insert(Staged(p, id), f) else Staged(p, id);
    }
  }

  function FieldsDemand(index: map<string, Step>, fields: seq<string>): (r: Demand) {
    set f, id | f in fields && id in Declaring(index, f) :: (id, f)
  }

  lemma {:induction false} WireFieldsGrows(index: map<string, Step>, p: Pending, fields: seq<string>)
    ensures Grows(p, WireFields(index, p, fields), FieldsDemand(index, fields))
    decreases |fields|
  {
    if fields != [] {
      var q := WireAll(p, Declaring(index, fields[0]), fields[0]);
      WireAllGrows(p, Declaring(index, fields[0]), fields[0]);
      WireFieldsGrows(index, q, fields[1..]);
      var d := set id | id in Declaring(index, fields[0]) :: (id, fields[0]);
      GrowsTrans(p, q, WireFields(index, p, fields), d, FieldsDemand(index, fields[1..]));
      assert FieldsDemand(index, fields) == d + FieldsDemand(index, fields[1..]);
    }
  }

  lemma {:induction false} AccessGrows(index: map<string, Step>, p: Pending, expr: string)
    ensures Grows(p, StageExpr(index, p, expr), AccessDemand(index, expr))
  {
    WireFieldsGrows(index, p, MemoryFields(Pieces(expr)));
    assert AccessDemand(index, expr) == FieldsDemand(index, MemoryFields(Pieces(expr)));
  }

  lemma {:induction false} OwnGrows(index: map<string, Step>, p: Pending, s: Step, inherited: string)
    ensures Grows(p, StageOwn(index, p, s, inherited), OwnDemand(index, s, inherited))
  {
    var known := index.Keys;
    var c, g := Condition(known, s, inherited), Gate(known, s);
    var p1 := StageRewrite(known, p, s.guard);
    RewriteGrows(known, p, s.guard);
    var p2 := if s.rejectWhen != "" then StageRewrite(known, p1, s.rejectWhen) else p1;
    var d := if s.rejectWhen != "" then RefDemand(known, s.rejectWhen) else {};
    RewriteGrows(known, p1, s.rejectWhen);
    assert Grows(p1, p2, d);
    GrowsTrans(p, p1, p2, RefDemand(known, s.guard), d);
    var p3 := StageExpr(index, p2, c);
    AccessGrows(index, p2, c);
    GrowsTrans(p, p2, p3, RefDemand(known, s.guard) + d, AccessDemand(index, c));
    AccessGrows(index, p3, g);
    GrowsTrans(p, p3, StageExpr(index, p3, g), RefDemand(known, s.guard) + d + AccessDemand(index, c), AccessDemand(index, g));
  }

  lemma {:induction false} LeavesGrow(index: map<string, Step>, p: Pending, steps: seq<Step>)
    ensures Grows(p, StageLeaves(index, p, steps), LeavesDemand(index, steps))
    decreases |steps|
  {
    if steps != [] {
      var q := StageOwn(index, p, steps[0], "");
      OwnGrows(index, p, steps[0], "");
      LeavesGrow(index, q, steps[1..]);
      GrowsTrans(p, q, StageLeaves(index, p, steps), OwnDemand(index, steps[0], ""), LeavesDemand(index, steps[1..]));
    }
  }

  lemma {:induction false} ItemsGrow(index: map<string, Step>, p: Pending, s: Step)
    ensures Grows(p, StageItems(index, p, s), ItemsDemand(index.Keys, s))
  {
    var (_, step, field) := ParseForEach(s.forEach);
    AddWriteGrows(index.Keys, p, step, field);
  }

  /** The table after a step holds what it held before, and what the step demands. */
  lemma {:induction false} StepGrows(index: map<string, Step>, p: Pending, s: Step, inherited: string)
    ensures Grows(p, StageStep(index, p, s, inherited), StepDemand(index, s, inherited))
    decreases s, 1
  {
    match ShapeOf(s)
    case AForEach => ForeachGrows(index, p, s, inherited);
    case ATyped =>
    case AParallel =>
      var q := StageOwn(index, p, s, inherited);
      OwnGrows(index, p, s, inherited);
      LeavesGrow(index, q, s.parallelSteps);
      GrowsTrans(p, q, StageLeaves(index, q, s.parallelSteps), OwnDemand(index, s, inherited),
                 LeavesDemand(index, s.parallelSteps));
    case AGroup =>
      var q, c := StageRewrite(index.Keys, p, s.guard), Condition(index.Keys, s, inherited);
      RewriteGrows(index.Keys, p, s.guard);
      ListGrows(index, q, s.subSteps, c);
      GrowsTrans(p, q, StageList(index, q, s.subSteps, c), RefDemand(index.Keys, s.guard), ListDemand(index, s.subSteps, c));
    case ALeaf => OwnGrows(index, p, s, inherited);
  }

  lemma {:induction false} ForeachGrows(index: map<string, Step>, p: Pending, s: Step, inherited: string)
    requires ShapeOf(s).AForEach?
    ensures Grows(p, StageStep(index, p, s, inherited), StepDemand(index, s, inherited))
    decreases s, 0
  {
    var q := StageOwn(index, p, s, inherited);
    var r := StageItems(index, q, s);
    OwnGrows(index, p, s, inherited);
    ItemsGrow(index, q, s);
    GrowsTrans(p, q, r, OwnDemand(index, s, inherited), ItemsDemand(index.Keys, s));
    var d := if |s.subSteps| == 1 then OwnDemand(index, s.subSteps[0], "") else ListDemand(index, s.subSteps, "");
    if |s.subSteps| == 1 {
      OwnGrows(index, r, s.subSteps[0], "");
    } else {
      ListGrows(index, r, s.subSteps, "");
    }
    assert Grows(r, StageBody(index, r, s), d);
    GrowsTrans(p, r, StageBody(index, r, s), OwnDemand(index, s, inherited) + ItemsDemand(index.Keys, s), d);
  }

  lemma {:induction false} ListGrows(index: map<string, Step>, p: Pending, steps: seq<Step>, inherited: string)
    ensures Grows(p, StageList(index, p, steps, inherited), ListDemand(index, steps, inherited))
    decreases steps, 0
  {
    if steps != [] {
      var q := StageStep(index, p, steps[0], inherited);
      StepGrows(index, p, steps[0], inherited);
      ListGrows(index, q, steps[1..], inherited);
      GrowsTrans(p, q, StageList(index, p, steps, inherited), StepDemand(index, steps[0], inherited),
                 ListDemand(index, steps[1..], inherited));
      assert ListDemand(index, steps, inherited)
          == StepDemand(index, steps[0], inherited) + ListDemand(index, steps[1..], inherited);
    }
  }

  // ---------- the emitted steps ----------

  function Writes(s: Step): (r: seq<string>) {
    if s.memory.Some? then s.memory.value else []
  }

  /** n is root, or a step somewhere inside it. */
  ghost predicate Inside(n: Step, root: Step)
    decreases root, 1
  {
    n == root || InsideAny(n, root.subSteps) || InsideAny(n, root.parallelSteps) ||
    (root.body.Some? && Inside(n, root.body.value))
  }

  ghost predicate InsideAny(n: Step, roots: seq<Step>)
    decreases roots, 0
  {
    exists r :: r in roots && Inside(n, r)
  }

  /** n' is n with the demanded fields appended to memory.write where they were missing. */
  ghost predicate Wired(n: Step, n': Step, d: Demand) {
    && n'.id == n.id
    && Writes(n) <= Writes(n')
    && (forall f :: f in Writes(n') <==> f in Writes(n) || (n.id, f) in d)
    && (Distinct(Writes(n)) ==> Distinct(Writes(n')))
  }

  lemma {:induction false} InsertAllKeeps(fields: seq<string>, more: seq<string>)
    ensures fields <= InsertAll(fields, more)
    ensures forall f :: f in InsertAll(fields, more) <==> f in fields || f in more
    ensures Distinct(fields) ==> Distinct(InsertAll(fields, more))
    decreases |more|
  {
    if more != [] {
      InsertOne(fields, more[0]);
      InsertAllKeeps(Insert(fields, more[0]), more[1..]);
    }
  }

  lemma {:induction false} WithWritesWired(p: Pending, n: Step, d: Demand)
    requires Grows(map[], p, d)
    ensures Wired(n, WithWrites(n, Staged(p, n.id)), d)
  {
    assert GrowsAt(map[], p, d, n.id);
    InsertAllKeeps(Writes(n), Staged(p, n.id));
  }

  ghost predicate WiredTo(roots: seq<Step>, n': Step, d: Demand) {
    exists n :: InsideAny(n, roots) && Wired(n, n', d)
  }

  lemma {:induction false} ApplyWires(p: Pending, root: Step, n': Step, d: Demand)
    requires Grows(map[], p, d) && Inside(n', ApplyStep(p, root))
    ensures exists n :: Inside(n, root) && Wired(n, n', d)
    decreases root, 1
  {
    var root' := ApplyStep(p, root);
    if n' == root' {
      WithWritesWired(p, root, d);
      assert Inside(root, root) && Wired(root, n', d);
    } else if InsideAny(n', root'.subSteps) {
      ApplyAllWires(p, root.subSteps, n', d);
      var n :| InsideAny(n, root.subSteps) && Wired(n, n', d);
      assert Inside(n, root);
    } else if InsideAny(n', root'.parallelSteps) {
      ApplyAllWires(p, root.parallelSteps, n', d);
      var n :| InsideAny(n, root.parallelSteps) && Wired(n, n', d);
      assert Inside(n, root);
    } else {
      ApplyWires(p, root.body.value, n', d);
      var n :| Inside(n, root.body.value) && Wired(n, n', d);
      assert Inside(n, root);
    }
  }

  lemma {:induction false} ApplyAllWires(p: Pending, roots: seq<Step>, n': Step, d: Demand)
    requires Grows(map[], p, d) && InsideAny(n', ApplyList(p, roots))
    ensures WiredTo(roots, n', d)
    decreases roots, 0
  {
    if roots != [] {
      if Inside(n', ApplyStep(p, roots[0])) {
        ApplyWires(p, roots[0], n', d);
        var n :| Inside(n, roots[0]) && Wired(n, n', d);
        assert InsideAny(n, roots);
      } else {
        ApplyAllWires(p, roots[1..], n', d);
        var n :| InsideAny(n, roots[1..]) && Wired(n, n', d);
        assert InsideAny(n, roots);
      }
    }
  }

  /**
   Every step of a lowered workflow, at any depth, writes the fields its emitted form wrote,
   in that order, followed by exactly the demanded ones that were missing, each once.
   */
  lemma {:induction false} WritesAreWired(steps: seq<Step>, n': Step)
    requires AnyV2Steps(steps) && LowerWorkflow(steps).Ok? && InsideAny(n', LowerWorkflow(steps).value)
    ensures var index := IndexList(map[], steps);
            WiredTo(LowerList(index.Keys, steps, "", "").value, n', ListDemand(index, steps, ""))
  {
    var index := IndexList(map[], steps);
    ListGrows(index, map[], steps, "");
    ApplyAllWires(StageList(index, map[], steps, ""), LowerList(index.Keys, steps, "", "").value, n',
                  ListDemand(index, steps, ""));
  }
}
