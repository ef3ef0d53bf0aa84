/**
 The lowering pass as functions: the emitted steps, and the memory.write fields staged for
 them. The class in lowerctx.dfy is the pass as the source runs it, proved equal to these.
 */
module Lowering {
  import opened Wrappers
  import opened Expr
  import opened Scanner
  import opened Steps
  import Sequence

  // ---------- staged memory.write fields ----------

  type Pending = map<string, seq<string>>

  function Staged<I(==), F>(p: map<I, seq<F>>, id: I): (r: seq<F>) {
    if id in p then p[id] else []
  }

  function Insert<F(==)>(fields: seq<F>, f: F): (r: seq<F>) {
    if f in fields then fields else fields + [f]
  }

  /** ensureMemoryWrite. */
  function AddWrite<I(==), F(==)>(known: set<I>, p: map<I, seq<F>>, id: I, f: F): (r: map<I, seq<F>>) {
    if id in known && f !in Staged(p, id) then p[id := Staged(p, id) + [f]] else p
  }

  function AddRefs(known: set<string>, p: Pending, refs: seq<(string, string)>): (r: Pending)
    decreases |refs|
  {
    if refs == [] then p else AddRefs(known, AddWrite(known, p, refs[0].0, refs[0].1), refs[1..])
  }

  function SchemaOf(s: Step): (r: set<string>) {
    if s.outputSchema.Some? then s.outputSchema.value
    else if s.output.Some? then s.output.value
    else {}
  }

  function Declaring(index: map<string, Step>, f: string): (r: set<string>) {
    set id | id in index && f in SchemaOf(index[id])
  }

  /** Stage f for every step of ids; no order among them is involved. */
  function WireAll<I(==), F(==)>(p: map<I, seq<F>>, ids: set<I>, f: F): (r: map<I, seq<F>>) {
    map id | id in p.Keys + ids :: if id in ids then Insert(Staged(p, id), f) else Staged(p, id)
  }

  /** The fields f of memory.f accessors in a text, in order. */
  function MemoryFields(ps: seq<Piece>): (r: seq<string>) {
    if |ps| < 3 then []
    else (if RefAt({MEMORY}, ps, 0) then [ps[2].text] else []) + MemoryFields(ps[1..])
  }

  function WireFields(index: map<string, Step>, p: Pending, fields: seq<string>): (r: Pending)
    decreases |fields|
  {
    if fields == [] then p
    else WireFields(index, WireAll(p, Declaring(index, fields[0]), fields[0]), fields[1..])
  }

  // ---------- expressions ----------

  function RewriteExpr(known: set<string>, expr: string): (r: string) {
    RewriteRefs(known, StripDelimiters(expr))
  }

  function StageRewrite(known: set<string>, p: Pending, expr: string): (r: Pending) {
    AddRefs(known, p, Refs(known, Pieces(StripDelimiters(expr))))
  }

  /** ensureMemoryWriteForExpr. */
  function StageExpr(index: map<string, Step>, p: Pending, expr: string): (r: Pending) {
    WireFields(index, p, MemoryFields(Pieces(expr)))
  }

  /** autoWireMemory. */
  function StageAuto(index: map<string, Step>, p: Pending, condition: string, failWhen: string): (r: Pending) {
    StageExpr(index, StageExpr(index, p, condition), failWhen)
  }

  /** First position of c at or after i, or |s|. */
  function IndexOfChar(s: string, c: char, i: nat): (j: nat)
    requires i <= |s|
    ensures i <= j <= |s|
    ensures j < |s| ==> s[j] == c
    decreases |s| - i
  {
    if i < |s| && s[i] != c then IndexOfChar(s, c, i + 1) else i
  }

  /** strings.SplitN(s, c, n) for n >= 1. */
  function SplitN(s: string, c: char, n: nat): (r: seq<string>)
    requires n >= 1
    ensures 1 <= |r| <= n
    decreases n
  {
    var j := IndexOfChar(s, c, 0);
    if n == 1 || j == |s| then [s] else [s[..j]] + SplitN(s[j + 1..], c, n - 1)
  }

  /** parseForEachExpr: the items path, and the step and field it reads (empty when unknown). */
  function ParseForEach(expr: string): (r: (string, string, string)) {
    var s := StripDelimiters(expr);
    var parts := SplitN(s, '.', 2);
    if |parts| == 2 && !("steps." <= s) && !("memory." <= s) then
      ("steps." + parts[0] + ".output." + parts[1], parts[0], parts[1])
    else
      var full := SplitN(s, '.', 4);
      if |full| == 4 && full[0] == "steps" && (full[2] == "output" || full[2] == "outputs") then
        ("steps." + full[1] + ".output." + full[3], full[1], full[3])
      else (s, "", "")
  }

  // ---------- the emitted steps ----------

  /** The gate of an emitted step: a rewritten reject_when replaces fail_when. */
  function Gate(known: set<string>, s: Step): (r: string) {
    if s.rejectWhen != "" then RewriteExpr(known, s.rejectWhen) else s.failWhen
  }

  /** Its loop-back: on_reject replaces on_fail. */
  function LoopBack(s: Step): (r: Option<Outcome>) {
    if s.onReject.Some? then Some(Outcome(s.onReject.value.restartFrom, s.onReject.value.max)) else s.onFail
  }

  function Condition(known: set<string>, s: Step, inherited: string): (r: string) {
    ComposeCond(inherited, RewriteExpr(known, s.guard))
  }

  function After(prev: string): (r: seq<string>) {
    if prev != "" then [prev] else []
  }

  function LowerLeaf(known: set<string>, s: Step, prev: string, inherited: string): (r: Step) {
    s.(seqDependsOn := if prev != "" && s.dependsOn == [] then [prev] else s.seqDependsOn,
       outputSchema := if s.output.Some? && s.outputSchema.None? then s.output else s.outputSchema,
       output := None,
       condition := Condition(known, s, inherited),
       guard := "",
       failWhen := Gate(known, s),
       rejectWhen := "",
       onFail := LoopBack(s),
       onReject := None,
       maxItems := if s.max > 0 && s.maxItems == 0 then s.max else s.maxItems,
       max := 0)
  }

  function LowerLeaves(known: set<string>, steps: seq<Step>): (r: seq<Step>)
    ensures |r| == |steps|
  {
    if steps == [] then []
    else [LowerLeaf(known, steps[0], "", "")] + LowerLeaves(known, steps[1..])
  }

  function LowerParallel(known: set<string>, s: Step, prev: string, inherited: string): (r: Result<Step>) {
    if s.id == "" then Err("parallel step missing required id")
    else Ok(EMPTY_STEP.(
              id := s.id,
              name := s.name,
              kind := PARALLEL,
              join := s.join,
              seqDependsOn := After(prev),
              condition := Condition(known, s, inherited),
              failWhen := Gate(known, s),
              onFail := LoopBack(s),
              subSteps := LowerLeaves(known, s.parallelSteps)))
  }

  /** The body of a for_each: one step as it is, several wrapped in an anonymous sub-workflow. */
  function LowerBody(known: set<string>, s: Step): (r: Result<Option<Step>>)
    decreases s, 0
  {
    if |s.subSteps| == 0 then Ok(None)
    else if |s.subSteps| == 1 then Ok(Some(LowerLeaf(known, s.subSteps[0], "", "")))
    else match LowerList(known, s.subSteps, "", "")
      case Err(e) => Err(e)
      case Ok(inner) => Ok(Some(EMPTY_STEP.(id := s.id + "-body", kind := WORKFLOW, subSteps := inner)))
  }

  function LowerForeach(known: set<string>, s: Step, prev: string, inherited: string): (r: Result<Step>)
    decreases s, 1
  {
    if s.id == "" then Err("for_each step missing required id")
    else match LowerBody(known, s)
      case Err(e) => Err(e)
      case Ok(body) =>
        Ok(EMPTY_STEP.(
             id := s.id,
             name := s.name,
             kind := FOREACH,
             itemName := s.itemName,
             concurrency := s.concurrency,
             failFast := s.failFast,
             seqDependsOn := After(prev),
             condition := Condition(known, s, inherited),
             failWhen := Gate(known, s),
             onFail := LoopBack(s),
             maxItems := if s.max > 0 then s.max else s.maxItems,
             items := ParseForEach(s.forEach).0,
             body := body))
  }

  /** A step that already has the type only lowering assigns is passed through. */
  function PassThrough(s: Step, prev: string): (r: Step) {
    if prev != "" && s.dependsOn == [] && s.seqDependsOn == [] then s.(seqDependsOn := [prev]) else s
  }

  datatype Shape = AForEach | ATyped | AParallel | AGroup | ALeaf

  /** The case distinction of lowerSteps, in its order. */
  function ShapeOf(s: Step): (r: Shape) {
    if s.forEach != "" then AForEach
    else if s.kind == PARALLEL || s.kind == FOREACH then ATyped
    else if s.parallelSteps != [] then AParallel
    else if s.subSteps != [] then AGroup
    else ALeaf
  }

  function One(r: Result<Step>): (rs: Result<seq<Step>>) {
    match r
    case Ok(s) => Ok([s])
    case Err(e) => Err(e)
  }

  function LowerStep(known: set<string>, s: Step, prev: string, inherited: string): (r: Result<seq<Step>>)
    decreases s, 2
  {
    match ShapeOf(s)
    case AForEach => One(LowerForeach(known, s, prev, inherited))
    case ATyped => Ok([PassThrough(s, prev)])
    case AParallel => One(LowerParallel(known, s, prev, inherited))
    case AGroup => LowerList(known, s.subSteps, prev, Condition(known, s, inherited))
    case ALeaf => Ok([LowerLeaf(known, s, prev, inherited)])
  }

  /** The id the next step is chained to. */
  function LastId(emitted: seq<Step>, prev: string): (r: string) {
    if emitted == [] then prev else emitted[|emitted| - 1].id
  }

  function LowerList(known: set<string>, steps: seq<Step>, prev: string, inherited: string): (r: Result<seq<Step>>)
    decreases steps, 0
  {
    if steps == [] then Ok([])
    else match LowerStep(known, steps[0], prev, inherited)
      case Err(e) => Err(e)
      case Ok(head) =>
        match LowerList(known, steps[1..], LastId(head, prev), inherited)
        case Err(e) => Err(e)
        case Ok(tail) => Ok(head + tail)
  }

  // ---------- the staging that goes with it ----------

  /** Guard, then reject_when, then the accessors of the resulting condition and gate. */
  function StageOwn(index: map<string, Step>, p: Pending, s: Step, inherited: string): (r: Pending) {
    var p1 := StageRewrite(index.Keys, p, s.guard);
    var p2 := if s.rejectWhen != "" then StageRewrite(index.Keys, p1, s.rejectWhen) else p1;
    StageAuto(index, p2, Condition(index.Keys, s, inherited), Gate(index.Keys, s))
  }

  function StageLeaves(index: map<string, Step>, p: Pending, steps: seq<Step>): (r: Pending)
    decreases |steps|
  {
    if steps == [] then p
    else StageLeaves(index, StageOwn(index, p, steps[0], ""), steps[1..])
  }

  function StageItems(index: map<string, Step>, p: Pending, s: Step): (r: Pending) {
    var (_, step, field) := ParseForEach(s.forEach);
    if step != "" && field != "" then AddWrite(index.Keys, p, step, field) else p
  }

  function StageBody(index: map<string, Step>, p: Pending, s: Step): (r: Pending)
    decreases s, 0
  {
    if |s.subSteps| == 0 then p
    else if |s.subSteps| == 1 then StageOwn(index, p, s.subSteps[0], "")
    else StageList(index, p, s.subSteps, "")
  }

  function StageStep(index: map<string, Step>, p: Pending, s: Step, inherited: string): (r: Pending)
    decreases s, 2
  {
    match ShapeOf(s)
    case AForEach => StageBody(index, StageItems(index, StageOwn(index, p, s, inherited), s), s)
    case ATyped => p
    case AParallel => StageLeaves(index, StageOwn(index, p, s, inherited), s.parallelSteps)
    case AGroup =>
      StageList(index, StageRewrite(index.Keys, p, s.guard), s.subSteps, Condition(index.Keys, s, inherited))
    case ALeaf => StageOwn(index, p, s, inherited)
  }

  function StageList(index: map<string, Step>, p: Pending, steps: seq<Step>, inherited: string): (r: Pending)
    decreases steps, 0
  {
    if steps == [] then p
    else StageList(index, StageStep(index, p, steps[0], inherited), steps[1..], inherited)
  }

  // ---------- applying the staged fields ----------

  function InsertAll(fields: seq<string>, more: seq<string>): (r: seq<string>)
    decreases |more|
  {
    if more == [] then fields else InsertAll(Insert(fields, more[0]), more[1..])
  }

  function WithWrites(s: Step, fields: seq<string>): (r: Step) {
    if fields == [] then s
    else s.(memory := Some(InsertAll(if s.memory.Some? then s.memory.value else [], fields)))
  }

  function ApplyStep(p: Pending, s: Step): (r: Step)
    decreases s, 1
  {
    WithWrites(s, Staged(p, s.id)).(
      subSteps := ApplyList(p, s.subSteps),
      parallelSteps := ApplyList(p, s.parallelSteps),
      body := if s.body.Some? then Some(ApplyStep(p, s.body.value)) else None)
  }

  function ApplyList(p: Pending, steps: seq<Step>): (r: seq<Step>)
    ensures |r| == |steps|
    decreases steps, 0
  {
    if steps == [] then [] else [ApplyStep(p, steps[0])] + ApplyList(p, steps[1..])
  }

  // ---------- the index and the whole pass ----------

  /** buildStepIndex: a later step with the same id wins. */
  function IndexStep(m: map<string, Step>, s: Step): (r: map<string, Step>)
    decreases s, 1
  {
    var m1 := if s.id != "" then m[s.id := s] else m;
    IndexList(IndexList(m1, s.subSteps), s.parallelSteps)
  }

  function IndexList(m: map<string, Step>, steps: seq<Step>): (r: map<string, Step>)
    decreases steps, 0
  {
    if steps == [] then m else IndexList(IndexStep(m, steps[0]), steps[1..])
  }

  /** LowerV2Workflow on the steps of a workflow. */
  function LowerWorkflow(steps: seq<Step>): (r: Result<seq<Step>>) {
    if !AnyV2Steps(steps) then Ok(Sequence.SequenceSteps(steps))
    else
      var index := IndexList(map[], steps);
      match LowerList(index.Keys, steps, "", "")
      case Err(e) => Err(e)
      case Ok(flat) => Ok(ApplyList(StageList(index, map[], steps, ""), flat))
  }
}
