/**
 What lowering makes steps persist, read off the authored texts. A reference x.f makes step x
 write f; an accessor memory.f left in a condition or a gate makes every step that declares f
 write it; a for_each over x.f makes x write f. Steps are found by id, the last of a name in
 document order. The demands of the staging tables are exactly these.
 */
module Wiring {
  import opened Expr
  import opened Scanner
  import opened Steps
  import opened Reading
  import opened Lowering
  import opened Staging

  // ---------- steps by name ----------

  ghost predicate LastNamed(all: seq<Step>, k: int, x: string) {
    0 <= k < |all| && all[k].id == x && forall j :: k < j < |all| ==> all[j].id != x
  }

  ghost predicate IndexedAs(index: map<string, Step>, all: seq<Step>, x: string) {
    && (x in index <==> x != "" && exists k :: LastNamed(all, k, x))
    && forall k :: x in index && LastNamed(all, k, x) ==> index[x] == all[k]
  }

  /** The last step of each name. */
  ghost predicate StepIndex(index: map<string, Step>, steps: seq<Step>) {
    forall x :: IndexedAs(index, Preorder(steps), x)
  }

  function Enter(m: map<string, Step>, s: Step): (r: map<string, Step>) {
    if s.id != "" then m[s.id := s] else m
  }

  function EnterAll(m: map<string, Step>, all: seq<Step>): (r: map<string, Step>) {
    if all == [] then m else Enter(EnterAll(m, all[..|all| - 1]), all[|all| - 1])
  }

  lemma {:induction false} EnterJoin(m: map<string, Step>, a: seq<Step>, b: seq<Step>)
    ensures EnterAll(m, a + b) == EnterAll(EnterAll(m, a), b)
    decreases |b|
  {
    if b == [] {
      assert a + b == a;
    } else {
      EnterJoin(m, a, b[..|b| - 1]);
      assert (a + b)[..|a + b| - 1] == a + b[..|b| - 1];
    }
  }

  lemma {:induction false} StepEntered(m: map<string, Step>, s: Step)
    ensures IndexStep(m, s) == EnterAll(m, PreorderOf(s))
    decreases s, 1
  {
    var m1, a, b := Enter(m, s), Preorder(s.subSteps), Preorder(s.parallelSteps);
    ListEntered(m1, s.subSteps);
    ListEntered(EnterAll(m1, a), s.parallelSteps);
    EnterJoin(m1, a, b);
    EnterJoin(m, [s], a + b);
    assert EnterAll(m, [s]) == m1 by {
      assert [s][..0] == [];
    }
  }

  lemma {:induction false} ListEntered(m: map<string, Step>, steps: seq<Step>)
    ensures IndexList(m, steps) == EnterAll(m, Preorder(steps))
    decreases steps, 0
  {
    if steps != [] {
      StepEntered(m, steps[0]);
      ListEntered(IndexStep(m, steps[0]), steps[1..]);
      EnterJoin(m, PreorderOf(steps[0]), Preorder(steps[1..]));
    }
  }

  lemma {:induction false} EnteredLast(all: seq<Step>, x: string)
    ensures IndexedAs(EnterAll(map[], all), all, x)
    decreases |all|
  {
    if all != [] {
      var n := |all| - 1;
      var front := all[..n];
      EnteredLast(front, x);
      if all[n].id == x {
        assert LastNamed(all, n, x);
      } else {
        forall k
          ensures LastNamed(all, k, x) <==> LastNamed(front, k, x)
        {
          LastKept(all, x, k);
        }
      }
    }
  }

  lemma {:induction false} LastKept(all: seq<Step>, x: string, k: int)
    requires all != [] && all[|all| - 1].id != x
    ensures LastNamed(all, k, x) <==> LastNamed(all[..|all| - 1], k, x)
  {
    var front := all[..|all| - 1];
    if LastNamed(front, k, x) {
      forall j | k < j < |all|
        ensures all[j].id != x
      {
        assert j < |front| ==> front[j].id != x;
      }
    }
  }

  /** The pass looks steps up in exactly this index. */
  lemma {:induction false} IndexIs(steps: seq<Step>, index: map<string, Step>)
    ensures StepIndex(index, steps) <==> index == IndexList(map[], steps)
  {
    var all, m := Preorder(steps), IndexList(map[], steps);
    ListEntered(map[], steps);
    forall x
      ensures IndexedAs(m, all, x)
    {
      EnteredLast(all, x);
    }
    if StepIndex(index, steps) {
      forall x
        ensures x in index <==> x in m
        ensures x in index ==> index[x] == m[x]
      {
        assert IndexedAs(index, all, x) && IndexedAs(m, all, x);
      }
    }
  }

  // ---------- references and accessors ----------

  /** The authored expression refers to field f of step x. */
  ghost predicate Refers(known: set<string>, text: string, x: string, f: string) {
    exists i :: RefersAt(known, Pieces(StripDelimiters(text)), i, x, f)
  }

  predicate AccessAt(ps: seq<Piece>, i: int, f: string) {
    0 <= i && i + 2 < |ps| && ps[i] == Word("memory") && ps[i + 1] == Other('.') && ps[i + 2] == Word(f)
  }

  /** The text reads memory.f. */
  ghost predicate Accesses(text: string, f: string) {
    exists i :: AccessAt(Pieces(text), i, f)
  }

  lemma {:induction false} FieldsAccessed(ps: seq<Piece>, f: string)
    ensures f in MemoryFields(ps) <==> exists i :: AccessAt(ps, i, f)
  {
    if |ps| >= 3 {
      FieldsAccessed(ps[1..], f);
      assert RefAt({MEMORY}, ps, 0) && ps[2].text == f <==> AccessAt(ps, 0, f);
      if i :| AccessAt(ps[1..], i, f) {
        assert AccessAt(ps, i + 1, f);
      }
      if i :| AccessAt(ps, i, f) {
        if i > 0 {
          assert AccessAt(ps[1..], i - 1, f);
        }
      }
    }
  }

  /** The step declares an output field f; output_schema comes before output. */
  predicate Declares(s: Step, f: string) {
    if s.outputSchema.Some? then f in s.outputSchema.value else s.output.Some? && f in s.output.value
  }

  /** What a step's own guard and gate need of step x. */
  ghost predicate Needs(index: map<string, Step>, s: Step, inherited: string, x: string, f: string) {
    var known := index.Keys;
    || Refers(known, s.guard, x, f)
    || (s.rejectWhen != "" && Refers(known, s.rejectWhen, x, f))
    || (x in index && Declares(index[x], f) &&
        (Accesses(ComposeCond(inherited, Reads(known, s.guard)), f) ||
         Accesses(if s.rejectWhen != "" then Reads(known, s.rejectWhen) else s.failWhen, f)))
  }

  lemma {:induction false} RefersIsDemand(known: set<string>, text: string, x: string, f: string)
    ensures (x, f) in RefDemand(known, text) <==> Refers(known, text, x, f)
  {
    RefsAreRewritten(known, Pieces(StripDelimiters(text)), x, f);
  }

  lemma {:induction false} AccessIsDemand(index: map<string, Step>, text: string, x: string, f: string)
    ensures (x, f) in AccessDemand(index, text) <==> x in index && Declares(index[x], f) && Accesses(text, f)
  {
    FieldsAccessed(Pieces(text), f);
    assert x in Declaring(index, f) <==> x in index && Declares(index[x], f);
  }

  lemma {:induction false} NeedsIsDemand(index: map<string, Step>, s: Step, inherited: string, x: string, f: string)
    ensures (x, f) in OwnDemand(index, s, inherited) <==> Needs(index, s, inherited, x, f)
  {
    var known := index.Keys;
    RewriteIsReading(known, StripDelimiters(s.guard));
    RewriteIsReading(known, StripDelimiters(s.rejectWhen));
    RefersIsDemand(known, s.guard, x, f);
    RefersIsDemand(known, s.rejectWhen, x, f);
    AccessIsDemand(index, Condition(known, s, inherited), x, f);
    AccessIsDemand(index, Gate(known, s), x, f);
  }

  // ---------- the items of a for_each ----------

  /** x.f, unless x is one of the two reserved names. */
  ghost predicate ShortItems(s: string, x: string, f: string) {
    '.' !in x && x != "steps" && x != "memory" && s == x + (['.'] + f)
  }

  /** steps.x.output.f or steps.x.outputs.f. */
  ghost predicate LongItems(s: string, x: string, f: string) {
    '.' !in x && (s == "steps" + (['.'] + (x + (['.'] + ("output" + (['.'] + f))))) ||
                  s == "steps" + (['.'] + (x + (['.'] + ("outputs" + (['.'] + f))))))
  }

  ghost predicate ItemsOf(s: string, x: string, f: string) {
    ShortItems(s, x, f) || LongItems(s, x, f)
  }

  /** The items path an emitted for_each carries: the output of the step it names, or the text itself. */
  ghost predicate ItemsRead(text: string, items: string) {
    var s := StripDelimiters(text);
    && (forall x, f :: ItemsOf(s, x, f) ==> items == "steps." + x + ".output." + f)
    && ((forall x, f :: !ItemsOf(s, x, f)) ==> items == s)
  }

  lemma {:induction false} PrefixIsFirst(word: string, x: string, rest: string)
    requires '.' !in word && '.' !in x
    ensures word + ['.'] <= x + (['.'] + rest) <==> x == word
  {
    var s, p := x + (['.'] + rest), word + ['.'];
    assert forall i :: 0 <= i < |x| ==> x[i] in x && s[i] == x[i];
    assert forall i :: 0 <= i < |word| ==> word[i] in word && p[i] == word[i];
    assert p[|word|] == '.' && s[|x|] == '.';
    if p <= s {
      assert |x| == |word|;
      assert x == s[..|x|] && word == p[..|word|];
    }
    assert x == word ==> s == p + rest;
  }

  lemma {:induction false} ShortForm(text: string, x: string, f: string)
    requires ShortItems(StripDelimiters(text), x, f)
    ensures ParseForEach(text) == ("steps." + x + ".output." + f, x, f)
  {
    SplitHead(x, '.', f, 2);
    assert "steps." == "steps" + ['.'] && "memory." == "memory" + ['.'];
    PrefixIsFirst("steps", x, f);
    PrefixIsFirst("memory", x, f);
  }

  lemma {:induction false} JoinedSplit(a: string, x: string, out: string, f: string)
    requires '.' !in a && '.' !in x && '.' !in out
    ensures SplitN(a + (['.'] + (x + (['.'] + (out + (['.'] + f))))), '.', 4) == [a, x, out, f]
  {
    var tail := out + (['.'] + f);
    var rest := x + (['.'] + tail);
    SplitHead(out, '.', f, 2);
    SplitHead(x, '.', tail, 3);
    SplitHead(a, '.', rest, 4);
    FourParts(a, x, out, f);
  }

  lemma {:induction false} LongSplit(x: string, out: string, f: string)
    requires '.' !in x && '.' !in out
    ensures SplitN("steps" + (['.'] + (x + (['.'] + (out + (['.'] + f))))), '.', 4) == ["steps", x, out, f]
    ensures "steps." <= "steps" + (['.'] + (x + (['.'] + (out + (['.'] + f)))))
  {
    JoinedSplit("steps", x, out, f);
    PathStarts(x + (['.'] + (out + (['.'] + f))));
  }

  lemma {:induction false} LongParsed(text: string, x: string, out: string, f: string)
    requires SplitN(StripDelimiters(text), '.', 4) == ["steps", x, out, f] && "steps." <= StripDelimiters(text)
    requires out == "output" || out == "outputs"
    ensures ParseForEach(text) == ("steps." + x + ".output." + f, x, f)
  {
  }

  lemma {:induction false} LongForm(text: string, x: string, f: string)
    requires LongItems(StripDelimiters(text), x, f)
    ensures ParseForEach(text) == ("steps." + x + ".output." + f, x, f)
  {
    LongSplit(x, "output", f);
    LongSplit(x, "outputs", f);
    if StripDelimiters(text) == "steps" + (['.'] + (x + (['.'] + ("output" + (['.'] + f))))) {
      LongParsed(text, x, "output", f);
    } else {
      LongParsed(text, x, "outputs", f);
    }
  }

  /** A text split into four is those four, joined by dots. */
  lemma {:induction false} FourJoined(s: string)
    requires |SplitN(s, '.', 4)| == 4
    ensures var p := SplitN(s, '.', 4);
            '.' !in p[1] && s == p[0] + (['.'] + (p[1] + (['.'] + (p[2] + (['.'] + p[3])))))
  {
    var p := SplitN(s, '.', 4);
    var a := SplitCut(s, '.', 4);
    assert p[1..][0] == p[1] && p[1..][1] == p[2] && p[1..][2] == p[3];
    var b := SplitCut(a, '.', 3);
    var c := SplitCut(b, '.', 2);
  }

  lemma {:induction false} ShortNamed(s: string)
    requires IsShort(s)
    ensures var parts := SplitN(s, '.', 2); ShortItems(s, parts[0], parts[1])
  {
    var parts := SplitN(s, '.', 2);
    var rest := SplitCut(s, '.', 2);
    assert SplitN(rest, '.', 1) == [rest];
    assert parts[1..][0] == rest;
    assert "steps." == "steps" + ['.'] && "memory." == "memory" + ['.'];
    PrefixIsFirst("steps", parts[0], rest);
    PrefixIsFirst("memory", parts[0], rest);
  }

  /** Nothing else names a step. */
  lemma {:induction false} NamedItems(text: string)
    ensures var s, r := StripDelimiters(text), ParseForEach(text);
            ItemsOf(s, r.1, r.2) || r == (s, "", "")
  {
    var s := StripDelimiters(text);
    if IsShort(s) {
      ShortNamed(s);
    } else if IsLong(s) {
      FourJoined(s);
    }
  }

  lemma {:induction false} FormOf(text: string, x: string, f: string)
    requires ItemsOf(StripDelimiters(text), x, f)
    ensures ParseForEach(text) == ("steps." + x + ".output." + f, x, f)
  {
    if ShortItems(StripDelimiters(text), x, f) {
      ShortForm(text, x, f);
    } else {
      LongForm(text, x, f);
    }
  }

  /** The emitted items path is the one the author named. */
  lemma {:induction false} ItemsAreRead(text: string)
    ensures ItemsRead(text, ParseForEach(text).0)
  {
    var s := StripDelimiters(text);
    forall x, f | ItemsOf(s, x, f)
      ensures ParseForEach(text).0 == "steps." + x + ".output." + f
    {
      FormOf(text, x, f);
    }
    NamedItems(text);
  }

  ghost predicate NeedsItems(known: set<string>, s: Step, x: string, f: string) {
    x in known && x != "" && f != "" && ItemsOf(StripDelimiters(s.forEach), x, f)
  }

  lemma {:induction false} ItemsIsDemand(known: set<string>, s: Step, x: string, f: string)
    ensures (x, f) in ItemsDemand(known, s) <==> NeedsItems(known, s, x, f)
  {
    NamedItems(s.forEach);
    if ItemsOf(StripDelimiters(s.forEach), x, f) {
      FormOf(s.forEach, x, f);
    }
  }

  // ---------- the whole workflow ----------

  ghost predicate LeavesNeed(index: map<string, Step>, steps: seq<Step>, x: string, f: string) {
    exists k :: k in steps && Needs(index, k, "", x, f)
  }

  /** What a step, with everything in it, needs step x to write. */
  ghost predicate StepNeeds(index: map<string, Step>, s: Step, inherited: string, x: string, f: string)
    decreases s, 1
  {
    if s.forEach != "" then
      || Needs(index, s, inherited, x, f)
      || NeedsItems(index.Keys, s, x, f)
      || (if |s.subSteps| == 1 then Needs(index, s.subSteps[0], "", x, f) else ListNeeds(index, s.subSteps, "", x, f))
    else if s.kind == "parallel" || s.kind == "foreach" then false
    else if s.parallelSteps != [] then
      Needs(index, s, inherited, x, f) || LeavesNeed(index, s.parallelSteps, x, f)
    else if s.subSteps != [] then
      || Refers(index.Keys, s.guard, x, f)
      || ListNeeds(index, s.subSteps, ComposeCond(inherited, Reads(index.Keys, s.guard)), x, f)
    else Needs(index, s, inherited, x, f)
  }

  ghost predicate ListNeeds(index: map<string, Step>, steps: seq<Step>, inherited: string, x: string, f: string)
    decreases steps, 0
  {
    exists s :: s in steps && StepNeeds(index, s, inherited, x, f)
  }

  lemma {:induction false} LeavesDemanded(index: map<string, Step>, steps: seq<Step>, x: string, f: string)
    ensures (x, f) in LeavesDemand(index, steps) <==> LeavesNeed(index, steps, x, f)
  {
    if steps != [] {
      NeedsIsDemand(index, steps[0], "", x, f);
      LeavesDemanded(index, steps[1..], x, f);
      assert forall k :: k in steps <==> k == steps[0] || k in steps[1..];
    }
  }

  lemma {:induction false} EachDemanded(index: map<string, Step>, s: Step, inherited: string, x: string, f: string)
    requires s.forEach != ""
    ensures (x, f) in StepDemand(index, s, inherited) <==> StepNeeds(index, s, inherited, x, f)
    decreases s, 0
  {
    NeedsIsDemand(index, s, inherited, x, f);
    ItemsIsDemand(index.Keys, s, x, f);
    if |s.subSteps| == 1 {
      NeedsIsDemand(index, s.subSteps[0], "", x, f);
    } else {
      ListDemanded(index, s.subSteps, "", x, f);
    }
  }

  lemma {:induction false} ForkDemanded(index: map<string, Step>, s: Step, inherited: string, x: string, f: string)
    requires ShapeOf(s).AParallel?
    ensures (x, f) in StepDemand(index, s, inherited) <==>
            Needs(index, s, inherited, x, f) || LeavesNeed(index, s.parallelSteps, x, f)
  {
    NeedsIsDemand(index, s, inherited, x, f);
    LeavesDemanded(index, s.parallelSteps, x, f);
  }

  lemma {:induction false} GroupDemanded(index: map<string, Step>, s: Step, inherited: string, x: string, f: string)
    requires ShapeOf(s).AGroup?
    ensures var c := ComposeCond(inherited, Reads(index.Keys, s.guard));
            (x, f) in StepDemand(index, s, inherited) <==>
            Refers(index.Keys, s.guard, x, f) || (x, f) in ListDemand(index, s.subSteps, c)
  {
    RefersIsDemand(index.Keys, s.guard, x, f);
    RewriteIsReading(index.Keys, StripDelimiters(s.guard));
  }

  lemma {:induction false} StepDemanded(index: map<string, Step>, s: Step, inherited: string, x: string, f: string)
    ensures (x, f) in StepDemand(index, s, inherited) <==> StepNeeds(index, s, inherited, x, f)
    decreases s, 1
  {
    if s.forEach != "" {
      EachDemanded(index, s, inherited, x, f);
    } else if s.kind == "parallel" || s.kind == "foreach" {
      assert ShapeOf(s).ATyped?;
    } else if s.parallelSteps != [] {
      ForkDemanded(index, s, inherited, x, f);
    } else if s.subSteps != [] {
      GroupDemanded(index, s, inherited, x, f);
      ListDemanded(index, s.subSteps, ComposeCond(inherited, Reads(index.Keys, s.guard)), x, f);
    } else {
      assert ShapeOf(s).ALeaf?;
      NeedsIsDemand(index, s, inherited, x, f);
    }
  }

  /** The staged demands are what the authored texts need, no more and no less. */
  lemma {:induction false} ListDemanded(index: map<string, Step>, steps: seq<Step>, inherited: string, x: string, f: string)
    ensures (x, f) in ListDemand(index, steps, inherited) <==> ListNeeds(index, steps, inherited, x, f)
    decreases steps, 0
  {
    forall s | s in steps
      ensures (x, f) in StepDemand(index, s, inherited) <==> StepNeeds(index, s, inherited, x, f)
    {
      StepDemanded(index, s, inherited, x, f);
    }
  }
}
