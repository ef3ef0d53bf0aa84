/** The lowering pass as it runs: one mutable context, loops over runes and steps. */
module LowerCtx {
  import opened Wrappers
  import opened Expr
  import opened Scanner
  import opened Steps
  import opened Lowering

  // ---------- positions in a text and pieces of its rest ----------

  lemma {:induction false} RunEndShift(s: string, i: nat, k: nat)
    requires i <= k <= |s|
    ensures RunEnd(s[i..], k - i) == RunEnd(s, k) - i
    decreases |s| - k
  {
    if k < |s| && IsIdentRune(s[k]) {
      RunEndShift(s, i, k + 1);
    }
  }

  /** The first piece of the text from i on. */
  lemma {:induction false} PiecesFrom(s: string, i: nat)
    requires i < |s|
    ensures IsIdentRune(s[i]) ==>
              var j := RunEnd(s, i + 1); Pieces(s[i..]) == [Word(s[i..j])] + Pieces(s[j..])
    ensures !IsIdentRune(s[i]) ==> Pieces(s[i..]) == [Other(s[i])] + Pieces(s[i + 1..])
  {
    var t := s[i..];
    if IsIdentRune(s[i]) {
      RunEndShift(s, i, i + 1);
      var j := RunEnd(s, i + 1);
      assert t[..j - i] == s[i..j];
      assert t[j - i..] == s[j..];
    } else {
      assert t[1..] == s[i + 1..];
    }
  }

  method ReadRun(s: string, i: nat) returns (j: nat)
    requires i <= |s|
    ensures j == RunEnd(s, i)
  {
    j := i;
    while j < |s| && IsIdentRune(s[j])
      invariant i <= j <= |s|
      invariant RunEnd(s, i) == RunEnd(s, j)
    {
      j := j + 1;
    }
  }

  lemma {:induction false} RefAtCons(known: set<string>, w: string, rest: seq<Piece>)
    ensures RefAt(known, [Word(w)] + rest, 0) <==>
            && w in known && |rest| >= 2 && rest[0] == Other('.') && rest[1].Word?
  {
    var ps := [Word(w)] + rest;
    assert |rest| >= 2 ==> ps[1] == rest[0] && ps[2] == rest[1];
  }

  /** The first two pieces of a cut. */
  lemma {:induction false} FirstTwo(a: Piece, b: Piece, r: seq<Piece>)
    ensures var ps := [a] + ([b] + r); |ps| >= 2 && ps[0] == a && ps[1] == b && ps == [a, b] + r
  {
  }

  lemma {:induction false} NoDotFrom(s: string, j: nat)
    requires j <= |s| && (j < |s| ==> s[j] != '.')
    ensures var rest := Pieces(s[j..]); rest == [] || rest[0] != Other('.')
  {
    if j < |s| {
      PiecesFrom(s, j);
    }
  }

  lemma {:induction false} DotFrom(s: string, j: nat)
    requires j < |s| && s[j] == '.'
    ensures Pieces(s[j..]) == [Other('.')] + Pieces(s[j + 1..])
    ensures Pieces(s[j + 1..]) == [] <==> j + 1 == |s|
    ensures RunEnd(s, j + 1) > j + 1 <==> j + 1 < |s| && IsIdentRune(s[j + 1])
  {
    PiecesFrom(s, j);
    if j + 1 < |s| {
      PiecesFrom(s, j + 1);
    }
  }

  /** After a run that ends at j: a dot and another run follow, or they do not. */
  lemma {:induction false} DotRunFrom(s: string, j: nat)
    requires j <= |s|
    ensures var rest := Pieces(s[j..]);
            (|rest| >= 2 && rest[0] == Other('.') && rest[1].Word?) <==>
            (j < |s| && s[j] == '.' && RunEnd(s, j + 1) > j + 1)
    ensures j < |s| && s[j] == '.' && RunEnd(s, j + 1) > j + 1 ==>
              var k := RunEnd(s, j + 1);
              Pieces(s[j..]) == [Other('.'), Word(s[j + 1..k])] + Pieces(s[k..])
  {
    if j == |s| || s[j] != '.' {
      NoDotFrom(s, j);
    } else {
      DotFrom(s, j);
      if j + 1 < |s| {
        PiecesFrom(s, j + 1);
        if IsIdentRune(s[j + 1]) {
          var k := RunEnd(s, j + 2);
          assert RunEnd(s, j + 1) == k;
          FirstTwo(Other('.'), Word(s[j + 1..k]), Pieces(s[k..]));
        } else {
          FirstTwo(Other('.'), Other(s[j + 1]), Pieces(s[j + 2..]));
        }
      }
    }
  }

  /** What the scanner ends with, from what it has written and staged and what is left. */
  function Finish(known: set<string>, out: string, p: Pending, rest: seq<Piece>): (r: (string, Pending)) {
    (out + Print(RewritePieces(known, rest)), AddRefs(known, p, Refs(known, rest)))
  }

  /** A piece at which no reference starts is copied. */
  lemma {:induction false} CopyPiece(known: set<string>, out: string, p: Pending, piece: Piece, rest: seq<Piece>)
    requires !RefAt(known, [piece] + rest, 0)
    ensures Finish(known, out + TextOf(piece), p, rest) == Finish(known, out, p, [piece] + rest)
  {
    var ps := [piece] + rest;
    assert ps[1..] == rest;
    var r := RewritePieces(known, rest);
    assert RewritePieces(known, ps) == [piece] + r;
    assert ([piece] + r)[1..] == r;
    assert Print([piece] + r) == TextOf(piece) + Print(r);
    assert out + TextOf(piece) + Print(r) == out + (TextOf(piece) + Print(r));
  }

  lemma {:induction false} PrintRef(field: string, r: seq<Piece>)
    ensures Print([Word(MEMORY), Other('.'), Word(field)] + r) == MEMORY + ['.'] + field + Print(r)
  {
    var out := [Word(MEMORY), Other('.'), Word(field)] + r;
    var o1, o2 := [Other('.'), Word(field)] + r, [Word(field)] + r;
    assert out[1..] == o1 && o1[1..] == o2 && o2[1..] == r;
    assert Print(o2) == field + Print(r);
    assert Print(o1) == ['.'] + Print(o2);
    assert Print(out) == MEMORY + Print(o1);
    assert MEMORY + (['.'] + (field + Print(r))) == MEMORY + ['.'] + field + Print(r);
  }

  /** A reference is replaced and its field staged. */
  lemma {:induction false} ReplaceRef(known: set<string>, out: string, p: Pending, step: string, field: string, rest: seq<Piece>)
    requires step in known
    ensures Finish(known, out + MEMORY + ['.'] + field, AddWrite(known, p, step, field), rest)
         == Finish(known, out, p, [Word(step)] + ([Other('.'), Word(field)] + rest))
  {
    var ps := [Word(step)] + ([Other('.'), Word(field)] + rest);
    assert ps[3..] == rest;
    assert RefAt(known, ps, 0);
    var r := RewritePieces(known, rest);
    PrintRef(field, r);
    assert out + (MEMORY + ['.'] + field + Print(r)) == out + MEMORY + ['.'] + field + Print(r);
    assert ([(step, field)] + Refs(known, rest))[1..] == Refs(known, rest);
  }

  /** The run at i is the head of a reference: a dot and another run follow, and the step is known. */
  predicate HeadsRef(known: set<string>, src: string, i: nat)
    requires i < |src|
  {
    var j := RunEnd(src, i + 1);
    j < |src| && src[j] == '.' && RunEnd(src, j + 1) > j + 1 && src[i..j] in known
  }

  lemma {:induction false} RunCopied(known: set<string>, src: string, i: nat, out: string, p: Pending)
    requires i < |src| && IsIdentRune(src[i]) && !HeadsRef(known, src, i)
    ensures var j := RunEnd(src, i + 1);
            Finish(known, out + src[i..j], p, Pieces(src[j..])) == Finish(known, out, p, Pieces(src[i..]))
  {
    var j := RunEnd(src, i + 1);
    PiecesFrom(src, i);
    DotRunFrom(src, j);
    RefAtCons(known, src[i..j], Pieces(src[j..]));
    CopyPiece(known, out, p, Word(src[i..j]), Pieces(src[j..]));
  }

  lemma {:induction false} RefPieces(known: set<string>, src: string, i: nat)
    requires i < |src| && IsIdentRune(src[i]) && HeadsRef(known, src, i)
    ensures var j := RunEnd(src, i + 1);
            var k := RunEnd(src, j + 1);
            Pieces(src[i..]) == [Word(src[i..j])] + ([Other('.'), Word(src[j + 1..k])] + Pieces(src[k..]))
  {
    PiecesFrom(src, i);
    DotRunFrom(src, RunEnd(src, i + 1));
  }

  lemma {:induction false} RunReplaced(known: set<string>, src: string, i: nat, out: string, p: Pending)
    requires i < |src| && IsIdentRune(src[i]) && HeadsRef(known, src, i)
    ensures var j := RunEnd(src, i + 1);
            var k := RunEnd(src, j + 1);
            Finish(known, out + MEMORY + ['.'] + src[j + 1..k], AddWrite(known, p, src[i..j], src[j + 1..k]), Pieces(src[k..]))
            == Finish(known, out, p, Pieces(src[i..]))
  {
    var j := RunEnd(src, i + 1);
    var k := RunEnd(src, j + 1);
    RefPieces(known, src, i);
    ReplaceRef(known, out, p, src[i..j], src[j + 1..k], Pieces(src[k..]));
  }

  /** What the scanner ends with, from a position on. */
  type Finisher = (string, Pending, nat) -> (string, Pending)

  function FinishFrom(known: set<string>, src: string): (r: Finisher) {
    (out: string, p: Pending, i: nat) => if i <= |src| then Finish(known, out, p, Pieces(src[i..])) else (out, p)
  }

  /** One iteration from position i does not change what the scanner ends with. */
  ghost predicate Law(known: set<string>, src: string, finish: Finisher, out: string, p: Pending, i: nat)
    requires i < |src|
  {
    var j := RunEnd(src, i + 1);
    finish(out, p, i) ==
      if !IsIdentRune(src[i]) then finish(out + [src[i]], p, i + 1)
      else if HeadsRef(known, src, i) then
        var k := RunEnd(src, j + 1);
        finish(out + MEMORY + ['.'] + src[j + 1..k], AddWrite(known, p, src[i..j], src[j + 1..k]), k)
      else finish(out + src[i..j], p, j)
  }

  ghost predicate Laws(known: set<string>, src: string, finish: Finisher) {
    forall out: string, p: Pending, i: nat :: i < |src| ==> Law(known, src, finish, out, p, i)
  }

  lemma {:induction false} FinishLaw(known: set<string>, src: string, out: string, p: Pending, i: nat)
    requires i < |src|
    ensures Law(known, src, FinishFrom(known, src), out, p, i)
  {
    if !IsIdentRune(src[i]) {
      PiecesFrom(src, i);
      CopyPiece(known, out, p, Other(src[i]), Pieces(src[i + 1..]));
    } else if HeadsRef(known, src, i) {
      RunReplaced(known, src, i, out, p);
    } else {
      RunCopied(known, src, i, out, p);
    }
  }

  lemma {:induction false} FinishLaws(known: set<string>, src: string)
    ensures Laws(known, src, FinishFrom(known, src))
  {
    forall out: string, p: Pending, i: nat | i < |src|
      ensures Law(known, src, FinishFrom(known, src), out, p, i)
    {
      FinishLaw(known, src, out, p, i);
    }
  }

  lemma {:induction false} FinishEnds(known: set<string>, src: string, out: string, p: Pending, before: Pending)
    requires FinishFrom(known, src)(out, p, |src|) == FinishFrom(known, src)("", before, 0)
    ensures out == RewriteRefs(known, src) && p == AddRefs(known, before, Refs(known, Pieces(src)))
  {
    assert src[|src|..] == [] && src[0..] == src;
    assert out + Print([]) == out;
    assert "" + Print(RewritePieces(known, Pieces(src))) == RewriteRefs(known, src);
  }

  // ---------- the context ----------

  lemma {:induction false} WireOne<I, F>(known: set<I>, p: map<I, seq<F>>, ids: set<I>, id: I, f: F)
    requires id in known
    ensures AddWrite(known, WireAll(p, ids, f), id, f) == WireAll(p, ids + {id}, f)
  {
    var before, after := WireAll(p, ids, f), WireAll(p, ids + {id}, f);
    assert forall x :: x != id ==> Staged(before, x) == Staged(after, x);
    assert AddWrite(known, before, id, f).Keys == after.Keys;
  }

  /** pendingWrites, filled while the tree is walked. */
  class LowerCtx {
    const index: map<string, Step>
    var pending: Pending

    constructor (index: map<string, Step>)
      ensures this.index == index && pending == map[]
    {
      this.index := index;
      pending := map[];
    }

    method EnsureMemoryWrite(id: string, field: string)
      modifies this`pending
      ensures pending == AddWrite(index.Keys, old(pending), id, field)
    {
      if id in index {
        var staged := if id in pending then pending[id] else [];
        if field !in staged {
          pending := pending[id := staged + [field]];
        }
      }
    }

    method RewriteStepRefs(src: string) returns (out: string)
      modifies this`pending
      ensures out == RewriteRefs(index.Keys, src)
      ensures pending == AddRefs(index.Keys, old(pending), Refs(index.Keys, Pieces(src)))
    {
      ghost var finish := FinishFrom(index.Keys, src);
      FinishLaws(index.Keys, src);
      ghost var before := pending;
      out := "";
      var i := 0;
      while i < |src|
        invariant 0 <= i <= |src|
        invariant finish(out, pending, i) == finish("", before, 0)
      {
        i, out := ScanOne(src, i, out, finish);
      }
      FinishEnds(index.Keys, src, out, pending, before);
    }

    /** One iteration of the scanner: a reference, a run that starts none, or one character. */
    method ScanOne(src: string, i: nat, out0: string, ghost finish: Finisher) returns (next: nat, out: string)
      requires i < |src| && Laws(index.Keys, src, finish)
      modifies this`pending
      ensures i < next <= |src|
      ensures finish(out, pending, next) == finish(out0, old(pending), i)
    {
      assert Law(index.Keys, src, finish, out0, pending, i);
      if !IsIdentRune(src[i]) {
        return i + 1, out0 + [src[i]];
      }
      var j := ReadRun(src, i + 1);
      if j < |src| && src[j] == '.' {
        var k := ReadRun(src, j + 1);
        if k > j + 1 {
          if src[i..j] in index {
            EnsureMemoryWrite(src[i..j], src[j + 1..k]);
            return k, out0 + MEMORY + ['.'] + src[j + 1..k];
          }
        }
      }
      return j, out0 + src[i..j];
    }

    /** rewriteExpr: never fails, although the source's signature allows it to. */
    method RewriteExpression(expr: string) returns (out: string)
      modifies this`pending
      ensures out == RewriteExpr(index.Keys, expr)
      ensures pending == StageRewrite(index.Keys, old(pending), expr)
    {
      out := RewriteStepRefs(StripDelimiters(expr));
    }

    /** The loop over stepByID, in whatever order the map yields its keys. */
    method WireField(field: string)
      modifies this`pending
      ensures pending == WireAll(old(pending), Declaring(index, field), field)
    {
      ghost var all := Declaring(index, field);
      var todo := index.Keys;
      assert WireAll(pending, {}, field) == pending;
      assert all - todo == {};
      while todo != {}
        invariant todo <= index.Keys
        invariant pending == WireAll(old(pending), all - todo, field)
        decreases todo
      {
        var id :| id in todo;
        if field in SchemaOf(index[id]) {
          WireOne(index.Keys, old(pending), all - todo, id, field);
          assert all - todo + {id} == all - (todo - {id});
          EnsureMemoryWrite(id, field);
        } else {
          assert all - todo == all - (todo - {id});
        }
        todo := todo - {id};
      }
      assert all - todo == all;
    }

    method EnsureMemoryWriteForExpr(expr: string)
      modifies this`pending
      ensures pending == StageExpr(index, old(pending), expr)
    {
      var i := 0;
      assert expr[0..] == expr;
      while i < |expr|
        invariant 0 <= i <= |expr|
        invariant WireFields(index, pending, MemoryFields(Pieces(expr[i..]))) == StageExpr(index, old(pending), expr)
      {
        i := WireNext(expr, i);
      }
      assert expr[i..] == [];
    }

    /** One iteration: stage the field of a memory accessor that starts at i, and move on. */
    method WireNext(expr: string, i: nat) returns (next: nat)
      requires i < |expr|
      modifies this`pending
      ensures i < next <= |expr|
      ensures WireFields(index, pending, MemoryFields(Pieces(expr[next..])))
           == WireFields(index, old(pending), MemoryFields(Pieces(expr[i..])))
    {
      PiecesFrom(expr, i);
      if !IsIdentRune(expr[i]) {
        NextField(index, pending, Other(expr[i]), Pieces(expr[i + 1..]));
        return i + 1;
      }
      var j := ReadRun(expr, i + 1);
      DotRunFrom(expr, j);
      RefAtCons({MEMORY}, expr[i..j], Pieces(expr[j..]));
      NextField(index, pending, Word(expr[i..j]), Pieces(expr[j..]));
      if expr[i..j] == MEMORY && j < |expr| && expr[j] == '.' {
        var k := ReadRun(expr, j + 1);
        if k > j + 1 {
          WireField(expr[j + 1..k]);
        }
      }
      return j;
    }

    method AutoWireMemory(condition: string, failWhen: string)
      modifies this`pending
      ensures pending == StageAuto(index, old(pending), condition, failWhen)
    {
      EnsureMemoryWriteForExpr(condition);
      EnsureMemoryWriteForExpr(failWhen);
    }

    /** Guard and gate, which leaves, parallel groups and for_each nodes lower alike. */
    method LowerGuards(s: Step, inherited: string) returns (condition: string, failWhen: string)
      modifies this`pending
      ensures condition == Condition(index.Keys, s, inherited)
      ensures failWhen == Gate(index.Keys, s)
      ensures pending == StageOwn(index, old(pending), s, inherited)
    {
      var own := RewriteExpression(s.guard);
      condition := ComposeCond(inherited, own);
      failWhen := s.failWhen;
      if s.rejectWhen != "" {
        failWhen := RewriteExpression(s.rejectWhen);
      }
      AutoWireMemory(condition, failWhen);
    }

    method LowerLeafStep(s: Step, prev: string, inherited: string) returns (out: Step)
      modifies this`pending
      ensures out == LowerLeaf(index.Keys, s, prev, inherited)
      ensures pending == StageOwn(index, old(pending), s, inherited)
    {
      out := s;
      if prev != "" && out.dependsOn == [] {
        out := out.(seqDependsOn := [prev]);
      }
      if out.output.Some? && out.outputSchema.None? {
        out := out.(outputSchema := out.output);
      }
      out := out.(output := None);
      var condition, failWhen := LowerGuards(s, inherited);
      out := out.(condition := condition, guard := "", failWhen := failWhen, rejectWhen := "");
      if out.onReject.Some? {
        out := out.(onFail := Some(Outcome(out.onReject.value.restartFrom, out.onReject.value.max)), onReject := None);
      }
      if out.max > 0 && out.maxItems == 0 {
        out := out.(maxItems := out.max);
      }
      out := out.(max := 0);
    }

    /** The children of a parallel group, without chaining: they run concurrently. */
    method LowerChildren(steps: seq<Step>) returns (children: seq<Step>)
      modifies this`pending
      ensures children == LowerLeaves(index.Keys, steps)
      ensures pending == StageLeaves(index, old(pending), steps)
    {
      children := [];
      var i := 0;
      assert steps[0..] == steps;
      while i < |steps|
        invariant 0 <= i <= |steps|
        invariant children + LowerLeaves(index.Keys, steps[i..]) == LowerLeaves(index.Keys, steps)
        invariant StageLeaves(index, pending, steps[i..]) == StageLeaves(index, old(pending), steps)
      {
        var flat := LowerLeafStep(steps[i], "", "");
        assert steps[i..][1..] == steps[i + 1..];
        assert children + ([flat] + LowerLeaves(index.Keys, steps[i + 1..]))
            == children + [flat] + LowerLeaves(index.Keys, steps[i + 1..]);
        children := children + [flat];
        i := i + 1;
      }
      assert steps[i..] == [];
    }

    method LowerParallelStep(s: Step, prev: string, inherited: string) returns (r: Result<Step>)
      modifies this`pending
      ensures r == LowerParallel(index.Keys, s, prev, inherited)
      ensures r.Ok? ==> pending == StageLeaves(index, StageOwn(index, old(pending), s, inherited), s.parallelSteps)
    {
      if s.id == "" {
        return Err("parallel step missing required id");
      }
      var condition, failWhen := LowerGuards(s, inherited);
      var children := LowerChildren(s.parallelSteps);
      return Ok(EMPTY_STEP.(id := s.id, name := s.name, kind := PARALLEL, join := s.join,
                            seqDependsOn := After(prev), condition := condition, failWhen := failWhen,
                            onFail := LoopBack(s), subSteps := children));
    }

    method LowerBodySteps(s: Step) returns (r: Result<Option<Step>>)
      modifies this`pending
      ensures r == LowerBody(index.Keys, s)
      ensures r.Ok? ==> pending == StageBody(index, old(pending), s)
      decreases s, 0
    {
      if |s.subSteps| == 0 {
        return Ok(None);
      }
      if |s.subSteps| == 1 {
        var inner := LowerLeafStep(s.subSteps[0], "", "");
        return Ok(Some(inner));
      }
      var lowered := LowerSteps(s.subSteps, "", "");
      match lowered
      case Err(e) =>
        return Err(e);
      case Ok(inner) =>
        return Ok(Some(EMPTY_STEP.(id := s.id + "-body", kind := WORKFLOW, subSteps := inner)));
    }

    method LowerForeachStep(s: Step, prev: string, inherited: string) returns (r: Result<Step>)
      modifies this`pending
      ensures r == LowerForeach(index.Keys, s, prev, inherited)
      ensures r.Ok? ==>
                pending == StageBody(index, StageItems(index, StageOwn(index, old(pending), s, inherited), s), s)
      decreases s, 1
    {
      if s.id == "" {
        return Err("for_each step missing required id");
      }
      var condition, failWhen := LowerGuards(s, inherited);
      var (items, step, field) := ParseForEach(s.forEach);
      if step != "" && field != "" {
        EnsureMemoryWrite(step, field);
      }
      var lowered := LowerBodySteps(s);
      match lowered
      case Err(e) =>
        return Err(e);
      case Ok(body) =>
        return Ok(EMPTY_STEP.(id := s.id, name := s.name, kind := FOREACH, itemName := s.itemName,
                              concurrency := s.concurrency, failFast := s.failFast,
                              seqDependsOn := After(prev), condition := condition, failWhen := failWhen,
                              onFail := LoopBack(s), maxItems := if s.max > 0 then s.max else s.maxItems,
                              items := items, body := body));
    }

    /** A sequential group: its children inherit its guard, and it leaves no step of its own. */
    method LowerGroupStep(s: Step, prev: string, inherited: string) returns (r: Result<seq<Step>>)
      requires ShapeOf(s).AGroup?
      modifies this`pending
      ensures r == LowerStep(index.Keys, s, prev, inherited)
      ensures r.Ok? ==> pending == StageStep(index, old(pending), s, inherited)
      decreases s, 2
    {
      var own := RewriteExpression(s.guard);
      r := LowerSteps(s.subSteps, prev, ComposeCond(inherited, own));
    }

    /** A for_each step, a parallel group, or a leaf: one emitted step. */
    method LowerUnitStep(s: Step, prev: string, inherited: string) returns (r: Result<Step>)
      requires !ShapeOf(s).AGroup? && !ShapeOf(s).ATyped?
      modifies this`pending
      ensures One(r) == LowerStep(index.Keys, s, prev, inherited)
      ensures r.Ok? ==> pending == StageStep(index, old(pending), s, inherited)
      decreases s, 2
    {
      if s.forEach != "" {
        r := LowerForeachStep(s, prev, inherited);
      } else if |s.parallelSteps| > 0 {
        r := LowerParallelStep(s, prev, inherited);
      } else {
        var leaf := LowerLeafStep(s, prev, inherited);
        r := Ok(leaf);
      }
    }

    /** The switch in lowerSteps. */
    method LowerOne(s: Step, prev: string, inherited: string) returns (r: Result<seq<Step>>)
      modifies this`pending
      ensures r == LowerStep(index.Keys, s, prev, inherited)
      ensures r.Ok? ==> pending == StageStep(index, old(pending), s, inherited)
      decreases s, 3
    {
      var shape := ShapeOf(s);
      if shape.ATyped? {
        return Ok([PassThrough(s, prev)]);
      }
      if shape.AGroup? {
        r := LowerGroupStep(s, prev, inherited);
        return;
      }
      var flat := LowerUnitStep(s, prev, inherited);
      return One(flat);
    }

    method LowerSteps(steps: seq<Step>, prev: string, inherited: string) returns (r: Result<seq<Step>>)
      modifies this`pending
      ensures r == LowerList(index.Keys, steps, prev, inherited)
      ensures r.Ok? ==> pending == StageList(index, old(pending), steps, inherited)
      decreases steps, 0
    {
      var out: seq<Step> := [];
      var prevId := prev;
      var i := 0;
      assert steps[0..] == steps;
      PrependNothing(out, LowerList(index.Keys, steps, prev, inherited));
      while i < |steps|
        invariant 0 <= i <= |steps|
        invariant Prepend(out, LowerList(index.Keys, steps[i..], prevId, inherited))
               == LowerList(index.Keys, steps, prev, inherited)
        invariant StageList(index, pending, steps[i..], inherited) == StageList(index, old(pending), steps, inherited)
      {
        assert steps[i..][1..] == steps[i + 1..];
        var flat := LowerOne(steps[i], prevId, inherited);
        match flat
        case Err(e) =>
          return Err(e);
        case Ok(emitted) =>
          PrependTwice(out, emitted, LowerList(index.Keys, steps[i + 1..], LastId(emitted, prevId), inherited));
          out := out + emitted;
          prevId := LastId(emitted, prevId);
        i := i + 1;
      }
      assert steps[i..] == [];
      PrependNothing(out, Ok([]));
      return Ok(out);
    }
  }

  function Prepend(out: seq<Step>, r: Result<seq<Step>>): (p: Result<seq<Step>>) {
    match r
    case Ok(rest) => Ok(out + rest)
    case Err(e) => Err(e)
  }

  lemma {:induction false} PrependNothing(out: seq<Step>, r: Result<seq<Step>>)
    ensures Prepend([], r) == r
    ensures Prepend(out, Ok([])) == Ok(out)
  {
    if r.Ok? {
      assert [] + r.value == r.value;
    }
    assert out + [] == out;
  }

  lemma {:induction false} PrependTwice(a: seq<Step>, b: seq<Step>, r: Result<seq<Step>>)
    ensures Prepend(a, Prepend(b, r)) == Prepend(a + b, r)
  {
    if r.Ok? {
      assert a + (b + r.value) == a + b + r.value;
    }
  }

  lemma {:induction false} NextField(index: map<string, Step>, p: Pending, piece: Piece, rest: seq<Piece>)
    ensures WireFields(index, p, MemoryFields([piece] + rest)) ==
            if RefAt({MEMORY}, [piece] + rest, 0)
            then WireFields(index, WireAll(p, Declaring(index, rest[1].text), rest[1].text), MemoryFields(rest))
            else WireFields(index, p, MemoryFields(rest))
  {
    var ps := [piece] + rest;
    assert ps[1..] == rest;
    if RefAt({MEMORY}, ps, 0) {
      assert ps[2] == rest[1];
      assert MemoryFields(ps) == [rest[1].text] + MemoryFields(rest);
      assert ([rest[1].text] + MemoryFields(rest))[1..] == MemoryFields(rest);
    } else {
      assert MemoryFields(ps) == MemoryFields(rest);
    }
  }

  // ---------- applying the staged fields ----------

  method AddFields(memory: seq<string>, fields: seq<string>) returns (out: seq<string>)
    ensures out == InsertAll(memory, fields)
  {
    out := memory;
    var i := 0;
    assert fields[0..] == fields;
    while i < |fields|
      invariant 0 <= i <= |fields|
      invariant InsertAll(out, fields[i..]) == InsertAll(memory, fields)
    {
      assert fields[i..][1..] == fields[i + 1..];
      if fields[i] !in out {
        out := out + [fields[i]];
      }
      i := i + 1;
    }
    assert fields[i..] == [];
  }

  method ApplyPendingWritesToStep(p: Pending, s: Step) returns (out: Step)
    ensures out == ApplyStep(p, s)
    decreases s, 1
  {
    out := s;
    var fields := if s.id in p then p[s.id] else [];
    if |fields| > 0 {
      var write := AddFields(if s.memory.Some? then s.memory.value else [], fields);
      out := out.(memory := Some(write));
    }
    var subSteps := ApplyPendingWrites(p, s.subSteps);
    var parallelSteps := ApplyPendingWrites(p, s.parallelSteps);
    out := out.(subSteps := subSteps, parallelSteps := parallelSteps);
    if s.body.Some? {
      var body := ApplyPendingWritesToStep(p, s.body.value);
      out := out.(body := Some(body));
    }
  }

  lemma {:induction false} ApplyNext(p: Pending, steps: seq<Step>, i: nat)
    requires i < |steps|
    ensures ApplyList(p, steps[i..]) == [ApplyStep(p, steps[i])] + ApplyList(p, steps[i + 1..])
  {
    assert steps[i..][1..] == steps[i + 1..];
  }

  lemma {:induction false} MoveOver<T>(a: seq<T>, x: T, b: seq<T>)
    ensures a + ([x] + b) == a + [x] + b
  {
  }

  method ApplyPendingWrites(p: Pending, steps: seq<Step>) returns (out: seq<Step>)
    ensures out == ApplyList(p, steps)
    decreases steps, 0
  {
    out := [];
    var i := 0;
    assert steps[0..] == steps;
    while i < |steps|
      invariant 0 <= i <= |steps|
      invariant out + ApplyList(p, steps[i..]) == ApplyList(p, steps)
    {
      var s := ApplyPendingWritesToStep(p, steps[i]);
      ApplyNext(p, steps, i);
      MoveOver(out, s, ApplyList(p, steps[i + 1..]));
      out := out + [s];
      i := i + 1;
    }
    assert steps[i..] == [];
  }

  /** The recursive walk of buildStepIndex. */
  method BuildStepIndex(m: map<string, Step>, steps: seq<Step>) returns (index: map<string, Step>)
    ensures index == IndexList(m, steps)
    decreases steps
  {
    index := m;
    var i := 0;
    assert steps[0..] == steps;
    while i < |steps|
      invariant 0 <= i <= |steps|
      invariant IndexList(index, steps[i..]) == IndexList(m, steps)
    {
      var s := steps[i];
      assert steps[i..][1..] == steps[i + 1..];
      if s.id != "" {
        index := index[s.id := s];
      }
      index := BuildStepIndex(index, s.subSteps);
      index := BuildStepIndex(index, s.parallelSteps);
      i := i + 1;
    }
    assert steps[i..] == [];
  }

  /** LowerV2Workflow: the imperative pass computes the function. */
  method LowerV2Workflow(steps: seq<Step>) returns (r: Result<seq<Step>>)
    ensures r == LowerWorkflow(steps)
  {
    if !AnyV2Steps(steps) {
      var flat := Sequence.Sequence(steps);
      return Ok(flat);
    }
    var index := BuildStepIndex(map[], steps);
    var ctx := new LowerCtx(index);
    var lowered := ctx.LowerSteps(steps, "", "");
    match lowered
    case Err(e) =>
      return Err(e);
    case Ok(flat) =>
      var out := ApplyPendingWrites(ctx.pending, flat);
      return Ok(out);
  }
}
