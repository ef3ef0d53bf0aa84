/**
 rewriteStepRefs: the scanner that turns `step.field` into `memory.field` inside an
 authored expression and reports each rewritten pair.

 The specification works on pieces: a text is cut into maximal identifier runs and
 single other characters, and a piece is replaced only at the head of a reference.
 */
module Scanner {

  // isIdentRune: unlike the expression lexer, a run may hold '-' and start with a digit.
  predicate IsIdentRune(c: char) {
    c == '_' || 'a' <= c <= 'z' || 'A' <= c <= 'Z' || '0' <= c <= '9' || c == '-'
  }

  function RunEnd(s: string, i: nat): (j: nat)
    requires i <= |s|
    ensures i <= j <= |s|
    ensures forall k :: i <= k < j ==> IsIdentRune(s[k])
    ensures j < |s| ==> !IsIdentRune(s[j])
    decreases |s| - i
  {
    if i < |s| && IsIdentRune(s[i]) then RunEnd(s, i + 1) else i
  }

  datatype Piece = Word(text: string) | Other(c: char)

  function Pieces(s: string): (r: seq<Piece>)
    decreases |s|
  {
    if s == [] then []
    else if IsIdentRune(s[0]) then
      var j := RunEnd(s, 1);
      [Word(s[..j])] + Pieces(s[j..])
    else [Other(s[0])] + Pieces(s[1..])
  }

  function TextOf(p: Piece): (r: string) {
    match p
    case Word(text) => text
    case Other(c) => [c]
  }

  function Print(ps: seq<Piece>): (s: string) {
    if ps == [] then [] else TextOf(ps[0]) + Print(ps[1..])
  }

  predicate IsRun(w: string) {
    w != [] && forall k :: 0 <= k < |w| ==> IsIdentRune(w[k])
  }

  ghost predicate PieceAt(ps: seq<Piece>, i: nat)
    requires i < |ps|
  {
    match ps[i]
    case Word(text) => IsRun(text) && (i + 1 < |ps| ==> ps[i + 1].Other?)
    case Other(c) => !IsIdentRune(c)
  }

  /** Pieces as a text yields them: runs are non-empty identifiers and no two runs touch. */
  ghost predicate Cut(ps: seq<Piece>) {
    forall i :: 0 <= i < |ps| ==> PieceAt(ps, i)
  }

  /** A reference starts at i: a known step id, a dot and a field name. */
  predicate RefAt(known: set<string>, ps: seq<Piece>, i: int) {
    && 0 <= i && i + 2 < |ps|
    && ps[i].Word? && ps[i].text in known
    && ps[i + 1] == Other('.')
    && ps[i + 2].Word?
  }

  const MEMORY := "memory"

  /** Left to right, each reference becomes memory.field; scanning goes on after the field. */
  function RewritePieces(known: set<string>, ps: seq<Piece>): (r: seq<Piece>) {
    if ps == [] then []
    else if RefAt(known, ps, 0) then
      [Word(MEMORY), ps[1], ps[2]] + RewritePieces(known, ps[3..])
    else [ps[0]] + RewritePieces(known, ps[1..])
  }

  /** The (step, field) pairs of the rewritten references, in order. */
  function Refs(known: set<string>, ps: seq<Piece>): (r: seq<(string, string)>) {
    if ps == [] then []
    else if RefAt(known, ps, 0) then [(ps[0].text, ps[2].text)] + Refs(known, ps[3..])
    else Refs(known, ps[1..])
  }

  function RewriteRefs(known: set<string>, s: string): (r: string) {
    Print(RewritePieces(known, Pieces(s)))
  }

  // ---------- what the specification means, position by position ----------

  /** A reference is rewritten unless its step name is the field of the one before it. */
  predicate Rewritten(known: set<string>, ps: seq<Piece>, i: int)
    decreases i
  {
    RefAt(known, ps, i) && !(i >= 2 && Rewritten(known, ps, i - 2))
  }

  /** Cutting loses nothing. */
  lemma {:induction false} PrintPieces(s: string)
    ensures Print(Pieces(s)) == s
    decreases |s|
  {
    if s != [] {
      var j := if IsIdentRune(s[0]) then RunEnd(s, 1) else 1;
      PrintPieces(s[j..]);
      assert s[..j] + s[j..] == s;
      assert Pieces(s)[1..] == Pieces(s[j..]);
      assert !IsIdentRune(s[0]) ==> s[..j] == [s[0]];
    }
  }

  lemma {:induction false} CutCons(p: Piece, ps: seq<Piece>)
    requires Cut(ps)
    requires p.Word? ==> IsRun(p.text) && (ps != [] ==> ps[0].Other?)
    requires p.Other? ==> !IsIdentRune(p.c)
    ensures Cut([p] + ps)
  {
    var all := [p] + ps;
    forall i | 0 <= i < |all|
      ensures PieceAt(all, i)
    {
      if i > 0 {
        assert PieceAt(ps, i - 1);
      }
    }
  }

  lemma {:induction false} PiecesCut(s: string)
    ensures Cut(Pieces(s))
    ensures s != [] ==> Pieces(s) != [] && (Pieces(s)[0].Word? <==> IsIdentRune(s[0]))
    decreases |s|
  {
    if s != [] {
      var j := if IsIdentRune(s[0]) then RunEnd(s, 1) else 1;
      PiecesCut(s[j..]);
      assert j < |s| && IsIdentRune(s[0]) ==> !IsIdentRune(s[j..][0]);
      CutCons(Pieces(s)[0], Pieces(s[j..]));
    }
  }

  lemma {:induction false} RunEndOfWord(w: string, rest: string, i: nat)
    requires i <= |w|
    requires IsRun(w)
    requires rest == [] || !IsIdentRune(rest[0])
    ensures RunEnd(w + rest, i) == |w|
    decreases |w| - i
  {
    if i < |w| {
      RunEndOfWord(w, rest, i + 1);
    }
  }

  lemma {:induction false} CutTail(ps: seq<Piece>)
    requires Cut(ps) && ps != []
    ensures Cut(ps[1..])
  {
    var tail := ps[1..];
    forall i | 0 <= i < |tail|
      ensures PieceAt(tail, i)
    {
      assert PieceAt(ps, i + 1);
    }
  }

  /** ... and it is the only cut of its text. */
  lemma {:induction false} PiecesPrint(ps: seq<Piece>)
    requires Cut(ps)
    ensures Pieces(Print(ps)) == ps
    ensures ps != [] ==> Print(ps) != [] && (IsIdentRune(Print(ps)[0]) <==> ps[0].Word?)
  {
    if ps != [] {
      CutTail(ps);
      PiecesPrint(ps[1..]);
      assert PieceAt(ps, 0);
      var rest := Print(ps[1..]);
      match ps[0]
      case Word(text) =>
        assert ps[1..] != [] ==> ps[1..][0] == ps[1];
        RunEndOfWord(text, rest, 1);
        assert (text + rest)[..|text|] == text;
        assert (text + rest)[|text|..] == rest;
      case Other(c) =>
        assert ([c] + rest)[1..] == rest;
    }
  }

  lemma {:induction false} RewrittenShift(known: set<string>, ps: seq<Piece>, o: nat, i: nat)
    requires o <= |ps|
    requires !Rewritten(known, ps, o - 1) && !Rewritten(known, ps, o - 2)
    ensures Rewritten(known, ps[o..], i) == Rewritten(known, ps, o + i)
  {
    assert RefAt(known, ps[o..], i) == RefAt(known, ps, o + i);
    if i >= 2 {
      RewrittenShift(known, ps, o, i - 2);
    }
  }

  /** The rewriting keeps every piece in place and changes exactly the heads of references. */
  lemma {:induction false} RewritePositions(known: set<string>, ps: seq<Piece>)
    ensures |RewritePieces(known, ps)| == |ps|
    ensures forall i :: 0 <= i < |ps| ==>
              RewritePieces(known, ps)[i] ==
              if Rewritten(known, ps, i) then Word(MEMORY) else ps[i]
  {
    if ps != [] {
      var o := if RefAt(known, ps, 0) then 3 else 1;
      RewritePositions(known, ps[o..]);
      var out, tail := RewritePieces(known, ps), RewritePieces(known, ps[o..]);
      assert !Rewritten(known, ps, 1) || o == 1;
      forall i | 0 <= i < |ps|
        ensures out[i] == if Rewritten(known, ps, i) then Word(MEMORY) else ps[i]
      {
        if i >= o {
          RewrittenShift(known, ps, o, i - o);
          assert out[i] == tail[i - o];
          assert ps[o..][i - o] == ps[i];
        }
      }
    }
  }

  lemma {:induction false} MemoryIsWord()
    ensures IsRun(MEMORY)
  {
    assert MEMORY == ['m', 'e', 'm', 'o', 'r', 'y'];
  }

  lemma {:induction false} RewriteCut(known: set<string>, ps: seq<Piece>)
    requires Cut(ps)
    ensures Cut(RewritePieces(known, ps))
  {
    RewritePositions(known, ps);
    MemoryIsWord();
    var out := RewritePieces(known, ps);
    forall i | 0 <= i < |out|
      ensures PieceAt(out, i)
    {
      assert PieceAt(ps, i);
      assert i + 1 < |out| && ps[i + 1].Other? ==> !Rewritten(known, ps, i + 1);
    }
  }

  /**
   The scanner's meaning on texts: cutting the output gives the input's pieces, with the
   step name of each rewritten reference replaced by `memory` and all other text verbatim.
   */
  lemma {:induction false} RewriteRefsMeaning(known: set<string>, s: string)
    ensures var ps, out := Pieces(s), Pieces(RewriteRefs(known, s));
            && |out| == |ps|
            && forall i :: 0 <= i < |ps| ==>
                 out[i] == if Rewritten(known, ps, i) then Word(MEMORY) else ps[i]
  {
    PiecesCut(s);
    RewriteCut(known, Pieces(s));
    PiecesPrint(RewritePieces(known, Pieces(s)));
    RewritePositions(known, Pieces(s));
  }

  ghost predicate RefersAt(known: set<string>, ps: seq<Piece>, i: int, step: string, field: string) {
    Rewritten(known, ps, i) && ps[i].text == step && ps[i + 2].text == field
  }

  lemma {:induction false} RefersShift(known: set<string>, ps: seq<Piece>, o: nat, i: nat, step: string, field: string)
    requires o <= |ps|
    requires !Rewritten(known, ps, o - 1) && !Rewritten(known, ps, o - 2)
    ensures RefersAt(known, ps[o..], i, step, field) == RefersAt(known, ps, o + i, step, field)
  {
    RewrittenShift(known, ps, o, i);
  }

  /** The reported pairs are exactly the rewritten references. */
  lemma {:induction false} RefsAreRewritten(known: set<string>, ps: seq<Piece>, step: string, field: string)
    ensures (step, field) in Refs(known, ps) <==> exists i :: RefersAt(known, ps, i, step, field)
  {
    if ps != [] {
      var o := if RefAt(known, ps, 0) then 3 else 1;
      RefsAreRewritten(known, ps[o..], step, field);
      assert o == 3 ==> !Rewritten(known, ps, 1) && !Rewritten(known, ps, 2);
      if (step, field) in Refs(known, ps[o..]) {
        var i :| RefersAt(known, ps[o..], i, step, field);
        RefersShift(known, ps, o, i, step, field);
      }
      if i :| RefersAt(known, ps, i, step, field) {
        if i >= o {
          RefersShift(known, ps, o, i - o, step, field);
          assert (step, field) in Refs(known, ps[o..]);
        }
      }
      assert RefersAt(known, ps, 0, step, field) <==> o == 3 && (step, field) == (ps[0].text, ps[2].text);
    }
  }

  // ---------- the two documented spellings ----------

  const DOT := Other('.')

  lemma {:induction false} PrintOne(p: Piece, ps: seq<Piece>)
    ensures Print([p] + ps) == TextOf(p) + Print(ps)
  {
    assert ([p] + ps)[1..] == ps;
  }

  /** A name, a dot and more. */
  lemma {:induction false} PrintName(name: string, ps: seq<Piece>)
    ensures Print([Word(name)] + ([DOT] + ps)) == name + (['.'] + Print(ps))
  {
    PrintOne(Word(name), [DOT] + ps);
    PrintOne(DOT, ps);
  }

  lemma {:induction false} PrintLast(name: string)
    ensures Print([Word(name)]) == name
  {
    PrintOne(Word(name), []);
    assert [Word(name)] + [] == [Word(name)];
    assert name + [] == name;
  }

  function ShortPieces(x: string, y: string): (r: seq<Piece>) {
    [Word(x)] + ([DOT] + [Word(y)])
  }

  lemma {:induction false} ShortCut(x: string, y: string)
    requires IsRun(x) && IsRun(y)
    ensures Pieces(x + (['.'] + y)) == ShortPieces(x, y)
  {
    PrintName(x, [Word(y)]);
    PrintLast(y);
    PiecesPrint(ShortPieces(x, y));
  }

  /** x.y becomes memory.y exactly when x is a step, or reads memory already. */
  lemma {:induction false} ShortReference(known: set<string>, x: string, y: string)
    requires IsRun(x) && IsRun(y)
    ensures RewriteRefs(known, x + (['.'] + y)) == MEMORY + (['.'] + y) <==> x in known || x == MEMORY
  {
    var s, ps := x + (['.'] + y), ShortPieces(x, y);
    ShortCut(x, y);
    MemoryIsWord();
    ShortCut(MEMORY, y);
    RewriteRefsMeaning(known, s);
    var out := Pieces(RewriteRefs(known, s));
    assert RefAt(known, ps, 0) <==> x in known;
    assert out == [out[0], out[1], out[2]];
    if x in known {
      assert out == ShortPieces(MEMORY, y);
    } else {
      assert out == ps;
    }
    PrintPieces(RewriteRefs(known, s));
    PrintPieces(MEMORY + (['.'] + y));
  }

  function LongPieces(a: string, x: string, b: string, y: string): (r: seq<Piece>) {
    [Word(a)] + ([DOT] + ([Word(x)] + ([DOT] + ([Word(b)] + ([DOT] + [Word(y)])))))
  }

  function LongText(a: string, x: string, b: string, y: string): (r: string) {
    a + (['.'] + (x + (['.'] + (b + (['.'] + y)))))
  }

  lemma {:induction false} LongCut(a: string, x: string, b: string, y: string)
    requires IsRun(a) && IsRun(x) && IsRun(b) && IsRun(y)
    ensures Pieces(LongText(a, x, b, y)) == LongPieces(a, x, b, y)
  {
    PrintLast(y);
    PrintName(b, [Word(y)]);
    PrintName(x, [Word(b)] + ([DOT] + [Word(y)]));
    PrintName(a, [Word(x)] + ([DOT] + ([Word(b)] + ([DOT] + [Word(y)]))));
    PiecesPrint(LongPieces(a, x, b, y));
  }

  lemma {:induction false} LongLength(known: set<string>, a: string, x: string, b: string, y: string)
    requires IsRun(a) && IsRun(x) && IsRun(b) && IsRun(y)
    ensures |Pieces(RewriteRefs(known, LongText(a, x, b, y)))| == 7
  {
    LongCut(a, x, b, y);
    RewriteRefsMeaning(known, LongText(a, x, b, y));
  }

  /** Of seven pieces joined by dots, with the first no step and the second one, only the second is rewritten. */
  lemma {:induction false} SecondRewritten(known: set<string>, ps: seq<Piece>, i: nat)
    requires |ps| == 7 && ps[1] == DOT && ps[3] == DOT && ps[5] == DOT && i < 7
    requires ps[0].Word? && ps[2].Word? && ps[4].Word? && ps[0].text !in known && ps[2].text in known
    ensures Rewritten(known, ps, i) <==> i == 2
  {
    assert !RefAt(known, ps, 0) && RefAt(known, ps, 2);
    assert Rewritten(known, ps, 2) && !Rewritten(known, ps, 4);
  }

  lemma {:induction false} LongPlaces(known: set<string>, a: string, x: string, b: string, y: string)
    requires IsRun(a) && IsRun(x) && IsRun(b) && IsRun(y) && a !in known && x in known
    ensures Pieces(RewriteRefs(known, LongText(a, x, b, y))) == LongPieces(a, MEMORY, b, y)
  {
    var s, ps := LongText(a, x, b, y), LongPieces(a, x, b, y);
    LongCut(a, x, b, y);
    RewriteRefsMeaning(known, s);
    var out, want := Pieces(RewriteRefs(known, s)), LongPieces(a, MEMORY, b, y);
    forall i | 0 <= i < 7
      ensures out[i] == want[i]
    {
      SecondRewritten(known, ps, i);
    }
  }

  /**
   The documented long spelling steps.x.outputs.y never becomes memory.y: of a step x it
   becomes steps.memory.outputs.y.
   */
  lemma {:induction false} LongReference(known: set<string>, a: string, x: string, b: string, y: string)
    requires IsRun(a) && IsRun(x) && IsRun(b) && IsRun(y)
    ensures RewriteRefs(known, LongText(a, x, b, y)) != MEMORY + (['.'] + y)
    ensures a !in known && x in known ==> RewriteRefs(known, LongText(a, x, b, y)) == LongText(a, MEMORY, b, y)
  {
    MemoryIsWord();
    LongLength(known, a, x, b, y);
    ShortCut(MEMORY, y);
    if a !in known && x in known {
      LongPlaces(known, a, x, b, y);
      LongCut(a, MEMORY, b, y);
      PrintPieces(RewriteRefs(known, LongText(a, x, b, y)));
      PrintPieces(LongText(a, MEMORY, b, y));
    }
  }

  /** ... and the field it makes x persist is `outputs`, not y. */
  lemma {:induction false} LongReferenceWires(known: set<string>, a: string, x: string, b: string, y: string, step: string, field: string)
    requires IsRun(a) && IsRun(x) && IsRun(b) && IsRun(y) && a !in known && x in known
    ensures (step, field) in Refs(known, Pieces(LongText(a, x, b, y))) <==> (step, field) == (x, b)
  {
    var ps := LongPieces(a, x, b, y);
    LongCut(a, x, b, y);
    RefsAreRewritten(known, ps, step, field);
    assert !RefAt(known, ps, 0) && RefAt(known, ps, 2);
    assert Rewritten(known, ps, 2) && !Rewritten(known, ps, 4);
    assert RefersAt(known, ps, 2, x, b);
    if i :| RefersAt(known, ps, i, step, field) {
      assert i == 0 || i == 2 || i == 4;
    }
  }
}
