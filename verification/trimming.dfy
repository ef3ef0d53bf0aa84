/** Rewriting step references neither adds nor uncovers white space at the ends of an expression. */
module Trimming {
  import opened Text
  import opened Expr
  import opened Scanner
  import opened Lowering

  lemma {:induction false} PrintEnds(ps: seq<Piece>)
    requires Cut(ps) && ps != []
    ensures TextOf(ps[0]) != [] && TextOf(ps[|ps| - 1]) != []
    ensures var s, z := Print(ps), TextOf(ps[|ps| - 1]);
            s != [] && s[0] == TextOf(ps[0])[0] && s[|s| - 1] == z[|z| - 1]
  {
    assert PieceAt(ps, 0);
    if |ps| > 1 {
      CutTail(ps);
      PrintEnds(ps[1..]);
    } else {
      assert Print(ps) == TextOf(ps[0]) + Print([]);
    }
  }

  predicate Tidy(s: string) {
    s == [] || (!IsSpace(s[0]) && !IsSpace(s[|s| - 1]))
  }

  /** A text is tidy when its first and its last piece are. */
  lemma {:induction false} PrintTidy(ps: seq<Piece>)
    requires Cut(ps) && ps != []
    ensures TextOf(ps[0]) != [] && TextOf(ps[|ps| - 1]) != []
    ensures var z := TextOf(ps[|ps| - 1]);
            Tidy(Print(ps)) <==> !IsSpace(TextOf(ps[0])[0]) && !IsSpace(z[|z| - 1])
  {
    PrintEnds(ps);
  }

  lemma {:induction false} MemoryTidy()
    ensures MEMORY != [] && !IsSpace(MEMORY[0])
  {
    assert MEMORY[0] == 'm';
  }

  lemma {:induction false} RewriteTidy(ps: seq<Piece>, out: seq<Piece>)
    requires Cut(ps) && Cut(out) && ps != [] && |out| == |ps|
    requires out[0] == ps[0] || out[0] == Word(MEMORY)
    requires out[|out| - 1] == ps[|ps| - 1]
    requires Tidy(Print(ps))
    ensures Tidy(Print(out))
  {
    PrintTidy(ps);
    PrintTidy(out);
    MemoryTidy();
  }

  /** Rewriting step references keeps an expression trimmed. */
  lemma {:induction false} RewriteTrimmed(known: set<string>, s: string)
    requires Tidy(s)
    ensures Tidy(RewriteRefs(known, s))
  {
    var ps := Pieces(s);
    if ps != [] {
      PiecesCut(s);
      PrintPieces(s);
      RewriteCut(known, ps);
      RewritePositions(known, ps);
      assert !Rewritten(known, ps, |ps| - 1);
      RewriteTidy(ps, RewritePieces(known, ps));
    }
  }

  /** So a condition composed from one rewritten guard is that guard. */
  lemma {:induction false} GuardAlone(known: set<string>, guard: string)
    ensures TrimSpace(RewriteExpr(known, guard)) == RewriteExpr(known, guard)
    ensures ComposeCond("", RewriteExpr(known, guard)) == RewriteExpr(known, guard)
  {
    RewriteTrimmed(known, StripDelimiters(guard));
    TrimSpaceFixed(RewriteExpr(known, guard));
    TrimSpaceFixed("");
  }
}
