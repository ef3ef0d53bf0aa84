/**
 Reading step references from memory, on formulas and on tokens: an accessor that names a step
 reads memory instead. Parsing commutes with it, so renaming the tokens of an expression renames
 its formula. The scanner, which does not know a literal from an accessor, also changes what
 looks like a reference inside a string; Scanned is what it really makes of a formula, and the
 two agree exactly on formulas without such a literal.
 */
module References {
  import opened Expr
  import opened Printing
  import opened Scanner

  // ---------- what an author means ----------

  /** An accessor, left to right: a step name before another name stands for memory. */
  function RefPath(known: set<string>, path: seq<string>): (r: seq<string>)
    ensures |r| == |path|
  {
    if path == [] then []
    else if |path| >= 2 && path[0] in known then ["memory", path[1]] + RefPath(known, path[2..])
    else [path[0]] + RefPath(known, path[1..])
  }

  function RefFormula(known: set<string>, e: Formula): (r: Formula) {
    match e
    case Or(l, r) => Or(RefFormula(known, l), RefFormula(known, r))
    case And(l, r) => And(RefFormula(known, l), RefFormula(known, r))
    case Not(x) => Not(RefFormula(known, x))
    case Cmp(path, op, operand, isNumber) => Cmp(RefPath(known, path), op, operand, isNumber)
  }

  /** What the scanner makes of it: it rewrites inside string operands too. */
  function Scanned(known: set<string>, e: Formula): (r: Formula) {
    match e
    case Or(l, r) => Or(Scanned(known, l), Scanned(known, r))
    case And(l, r) => And(Scanned(known, l), Scanned(known, r))
    case Not(x) => Not(Scanned(known, x))
    case Cmp(path, op, operand, isNumber) =>
      Cmp(RefPath(known, path), op, if isNumber then operand else RewriteRefs(known, operand), isNumber)
  }

  /** No reference but to a step that is itself called memory. */
  predicate OnlyMemory(refs: seq<(string, string)>) {
    forall i :: 0 <= i < |refs| ==> refs[i].0 == MEMORY
  }

  /** No string operand looks like it holds a reference. */
  predicate PlainOperands(known: set<string>, e: Formula) {
    match e
    case Or(l, r) => PlainOperands(known, l) && PlainOperands(known, r)
    case And(l, r) => PlainOperands(known, l) && PlainOperands(known, r)
    case Not(x) => PlainOperands(known, x)
    case Cmp(_, _, operand, isNumber) => isNumber || OnlyMemory(Refs(known, Pieces(operand)))
  }

  lemma {:induction false} PiecesKept(known: set<string>, ps: seq<Piece>)
    ensures RewritePieces(known, ps) == ps <==> OnlyMemory(Refs(known, ps))
  {
    if ps != [] {
      var o := if RefAt(known, ps, 0) then 3 else 1;
      var out, tail, refs := RewritePieces(known, ps), ps[o..], Refs(known, ps);
      PiecesKept(known, tail);
      assert ps == ps[..o] + tail && out[o..] == RewritePieces(known, tail);
      if RefAt(known, ps, 0) {
        assert refs[1..] == Refs(known, tail);
        assert out[..o] == [Word(MEMORY), ps[1], ps[2]] && ps[..o] == [ps[0], ps[1], ps[2]];
        assert out[0] == Word(MEMORY);
        assert OnlyMemory(refs) <==> refs[0].0 == MEMORY && OnlyMemory(refs[1..]);
      } else {
        assert out[..o] == ps[..o];
      }
      assert out == out[..o] + out[o..];
    }
  }

  /** The scanner leaves a text alone exactly when the only references in it are to memory. */
  lemma {:induction false} TextKept(known: set<string>, s: string)
    ensures RewriteRefs(known, s) == s <==> OnlyMemory(Refs(known, Pieces(s)))
  {
    PiecesCut(s);
    RewriteCut(known, Pieces(s));
    PiecesPrint(RewritePieces(known, Pieces(s)));
    PrintPieces(s);
    PiecesKept(known, Pieces(s));
  }

  /** What the scanner makes of a formula is what its author means exactly when no string operand holds a reference. */
  lemma {:induction false} ScannedExactly(known: set<string>, e: Formula)
    ensures Scanned(known, e) == RefFormula(known, e) <==> PlainOperands(known, e)
  {
    match e
    case Or(l, r) =>
      ScannedExactly(known, l);
      ScannedExactly(known, r);
    case And(l, r) =>
      ScannedExactly(known, l);
      ScannedExactly(known, r);
    case Not(x) => ScannedExactly(known, x);
    case Cmp(_, _, operand, _) => TextKept(known, operand);
  }

  /** A comparison with the literal x.f, for a step x, is compared with memory.f instead. */
  lemma {:induction false} LiteralIsRewritten(known: set<string>, path: seq<string>, x: string, f: string)
    requires IsRun(x) && IsRun(f) && x in known && x != MEMORY
    ensures var e := Cmp(path, "==", x + (['.'] + f), false);
            && Scanned(known, e) == Cmp(RefPath(known, path), "==", MEMORY + (['.'] + f), false)
            && Scanned(known, e) != RefFormula(known, e)
  {
    ShortReference(known, x, f);
    ShortCut(x, f);
    MemoryIsWord();
    ShortCut(MEMORY, f);
  }

  // ---------- renaming tokens commutes with parsing ----------

  function PathTokens(path: seq<string>): (r: seq<Token>)
    requires path != []
  {
    [Ident(path[0])] + DottedTail(path[1..])
  }

  datatype Split = Split(names: seq<string>, rest: seq<Token>)

  /** The longest accessor at the front of the tokens. */
  function Accessor(ts: seq<Token>): (r: Split)
    requires ts != [] && ts[0].Ident?
    ensures r.names != [] && r.names[0] == ts[0].name && |r.rest| < |ts|
    ensures !(|r.rest| >= 2 && r.rest[0].Dot? && r.rest[1].Ident?)
    decreases |ts|
  {
    if |ts| >= 3 && ts[1].Dot? && ts[2].Ident? then
      var r := Accessor(ts[2..]);
      Split([ts[0].name] + r.names, r.rest)
    else Split([ts[0].name], ts[1..])
  }

  function RenameOne(known: set<string>, t: Token): (r: Token) {
    match t
    case Str(text) => Str(RewriteRefs(known, text))
    case _ => t
  }

  function Rename(known: set<string>, ts: seq<Token>): (r: seq<Token>)
    decreases |ts|
  {
    if ts == [] then []
    else if ts[0].Ident? then PathTokens(RefPath(known, Accessor(ts).names)) + Rename(known, Accessor(ts).rest)
    else [RenameOne(known, ts[0])] + Rename(known, ts[1..])
  }

  /** No accessor of two names or more begins with a keyword. */
  predicate Fair(ts: seq<Token>)
    decreases |ts|
  {
    if ts == [] then true
    else if ts[0].Ident? then (|Accessor(ts).names| >= 2 ==> ts[0].name !in KEYWORDS) && Fair(Accessor(ts).rest)
    else Fair(ts[1..])
  }

  lemma {:induction false} MemoryIsNoKeyword()
    ensures "memory" !in KEYWORDS
  {
    assert "memory"[0] == 'm' && |"memory"| == 6;
  }

  lemma {:induction false} RefHead(known: set<string>, path: seq<string>)
    requires path != []
    ensures RefPath(known, path)[0] == path[0] || (|path| >= 2 && RefPath(known, path)[0] == "memory")
    ensures |path| == 1 ==> RefPath(known, path) == path
  {
  }

  /** What a renamed sequence begins with. */
  lemma {:induction false} RenameHead(known: set<string>, ts: seq<Token>)
    ensures (Rename(known, ts) == []) == (ts == [])
    ensures ts != [] && !ts[0].Ident? ==> Rename(known, ts)[0] == RenameOne(known, ts[0]) && Rename(known, ts)[1..] == Rename(known, ts[1..])
    ensures ts != [] && ts[0].Ident? ==> Rename(known, ts)[0].Ident?
    ensures ts != [] && ts[0].Ident? && Fair(ts) ==>
              (ts[0].name in KEYWORDS <==> Rename(known, ts)[0].name in KEYWORDS) &&
              (ts[0].name in KEYWORDS ==> Rename(known, ts) == [ts[0]] + Rename(known, ts[1..]) && Fair(ts[1..]))
  {
    if ts != [] && ts[0].Ident? {
      RefHead(known, Accessor(ts).names);
      MemoryIsNoKeyword();
      if |Accessor(ts).names| == 1 {
        assert Accessor(ts).rest == ts[1..];
        assert PathTokens([ts[0].name]) == [ts[0]];
      }
    }
  }

  lemma {:induction false} PathTailIs(pre: seq<string>, ts: seq<Token>)
    requires ts != [] && ts[0].Ident?
    ensures var r := Accessor(ts);
            PathTail(pre + [ts[0].name], ts[1..]) ==
              if r.rest != [] && r.rest[0].Dot? then NoPath else Path(pre + r.names, r.rest)
    decreases |ts|
  {
    if |ts| >= 3 && ts[1].Dot? && ts[2].Ident? {
      var r := Accessor(ts[2..]);
      PathTailIs(pre + [ts[0].name], ts[2..]);
      assert ts[1..][2..] == ts[2..][1..];
      assert pre + [ts[0].name] + r.names == pre + ([ts[0].name] + r.names);
    }
  }

  lemma {:induction false} TailStuck(names: seq<string>, more: seq<string>, v: seq<Token>)
    requires v != [] && v[0].Dot? && !(|v| > 1 && v[1].Ident?)
    ensures PathTail(names, DottedTail(more) + v) == NoPath
    decreases |more|
  {
    var t := DottedTail(more) + v;
    if more == [] {
      assert t == v;
    } else {
      assert t[0] == Dot && t[1] == Ident(more[0]);
      assert t[2..] == DottedTail(more[1..]) + v;
      TailStuck(names + [more[0]], more[1..], v);
    }
  }

  /** A dot that leads nowhere still leads nowhere once the tokens are renamed. */
  lemma {:induction false} StuckStays(known: set<string>, rest: seq<Token>)
    requires rest != [] && rest[0].Dot? && !(|rest| > 1 && rest[1].Ident?)
    ensures var v := Rename(known, rest); v != [] && v[0].Dot? && !(|v| > 1 && v[1].Ident?)
  {
    var v := Rename(known, rest);
    RenameHead(known, rest);
    RenameHead(known, rest[1..]);
    assert |v| > 1 ==> v[1] == v[1..][0];
  }

  lemma {:induction false} ReadPath(p: seq<string>, v: seq<Token>)
    requires p != [] && (v != [] && v[0].Dot? ==> !(|v| > 1 && v[1].Ident?))
    ensures PathTail([p[0]], DottedTail(p[1..]) + v) == if v != [] && v[0].Dot? then NoPath else Path(p, v)
  {
    assert [p[0]] + p[1..] == p;
    if v != [] && v[0].Dot? {
      TailStuck([p[0]], p[1..], v);
    } else {
      TailParses([p[0]], p[1..], v);
    }
  }

  /** The accessor of a renamed sequence is the renamed accessor. */
  lemma {:induction false} RenamedPath(known: set<string>, ts: seq<Token>)
    requires ts != [] && ts[0].Ident?
    ensures var r, t := Accessor(ts), Rename(known, ts);
            && t != [] && t[0].Ident?
            && PathTail([t[0].name], t[1..]) ==
                 if r.rest != [] && r.rest[0].Dot? then NoPath else Path(RefPath(known, r.names), Rename(known, r.rest))
  {
    var r, t := Accessor(ts), Rename(known, ts);
    var p, v := RefPath(known, r.names), Rename(known, r.rest);
    RenameHead(known, r.rest);
    if r.rest != [] && r.rest[0].Dot? {
      StuckStays(known, r.rest);
    }
    ReadPath(p, v);
    Uncons(Ident(p[0]), DottedTail(p[1..]), v);
    assert t == [Ident(p[0])] + DottedTail(p[1..]) + v;
  }

  lemma {:induction false} Uncons<T>(x: T, s: seq<T>, v: seq<T>)
    ensures ([x] + s + v)[0] == x && ([x] + s + v)[1..] == s + v
  {
  }

  /** The parse of the renamed tokens is the renamed parse. */
  ghost predicate Commutes(known: set<string>, p: Parse, q: Parse) {
    match p
    case Bad => q == Bad
    case Good(node, rest) => Fair(rest) && q == Good(Scanned(known, node), Rename(known, rest))
  }

  lemma {:induction false} RenamedOperator(known: set<string>, t: seq<Token>)
    requires Fair(t)
    ensures Operator(Rename(known, t)) == Operator(t)
    ensures Operator(t).Some? ==> Fair(t[1..]) && Rename(known, t) == [t[0]] + Rename(known, t[1..])
  {
    RenameHead(known, t);
    assert "contains" in KEYWORDS && "matches" in KEYWORDS;
    if t != [] && !t[0].Ident? {
      assert Rename(known, t) == [RenameOne(known, t[0])] + Rename(known, t[1..]);
    }
  }

  lemma {:induction false} RenamedOperand(known: set<string>, t: seq<Token>)
    requires Fair(t)
    ensures (|Rename(known, t)| >= 1) == (|t| >= 1)
    ensures t != [] ==> (t[0].Str? || t[0].Num?) == (Rename(known, t)[0].Str? || Rename(known, t)[0].Num?)
    ensures t != [] && (t[0].Str? || t[0].Num?) ==>
              Rename(known, t)[0] == RenameOne(known, t[0]) && Rename(known, t)[1..] == Rename(known, t[1..]) && Fair(t[1..])
  {
    RenameHead(known, t);
  }

  /** A comparison, by its operator and its operand. */
  function CompareWith(path: seq<string>, rest: seq<Token>): (r: Parse) {
    var op := Operator(rest);
    if op.None? || |rest| < 2 then Bad
    else match rest[1]
      case Str(text) => Good(Cmp(path, op.value, text, false), rest[2..])
      case Num(digits) => Good(Cmp(path, op.value, digits, true), rest[2..])
      case _ => Bad
  }

  lemma {:induction false} CompareCommutes(known: set<string>, path: seq<string>, rest: seq<Token>)
    requires Fair(rest)
    ensures Commutes(known, CompareWith(path, rest), CompareWith(RefPath(known, path), Rename(known, rest)))
  {
    RenamedOperator(known, rest);
    if Operator(rest).Some? {
      var u := Rename(known, rest);
      RenamedOperand(known, rest[1..]);
      assert u[1..] == Rename(known, rest[1..]);
      if |rest| >= 2 {
        assert u[1] == u[1..][0] && rest[1] == rest[1..][0];
        assert u[2..] == u[1..][1..] && rest[2..] == rest[1..][1..];
      }
    }
  }

  lemma {:induction false} ComparisonCommutes(known: set<string>, t: seq<Token>)
    requires Fair(t)
    ensures Commutes(known, ParseComparison(t), ParseComparison(Rename(known, t)))
  {
    RenameHead(known, t);
    if t != [] && t[0].Ident? {
      var r := Accessor(t);
      PathTailIs([], t);
      assert [] + [t[0].name] == [t[0].name] && [] + r.names == r.names;
      RenamedPath(known, t);
      if !(r.rest != [] && r.rest[0].Dot?) {
        CompareCommutes(known, r.names, r.rest);
        assert ParseComparison(t) == CompareWith(r.names, r.rest);
        assert ParseComparison(Rename(known, t)) == CompareWith(RefPath(known, r.names), Rename(known, r.rest));
      }
    }
  }

  lemma {:induction false} KeywordStays(known: set<string>, t: seq<Token>, word: string)
    requires Fair(t) && word in KEYWORDS
    ensures AtKeyword(Rename(known, t), word) <==> AtKeyword(t, word)
    ensures AtKeyword(t, word) ==> Fair(t[1..]) && Rename(known, t)[1..] == Rename(known, t[1..])
  {
    RenameHead(known, t);
    if AtKeyword(t, word) {
      assert Rename(known, t) == [t[0]] + Rename(known, t[1..]);
    }
    if AtKeyword(Rename(known, t), word) && t[0].Ident? {
      assert Rename(known, t)[0].name in KEYWORDS;
    }
  }

  lemma {:induction false} OrCommutes(known: set<string>, t: seq<Token>)
    requires Fair(t)
    ensures Commutes(known, ParseOr(t), ParseOr(Rename(known, t)))
    decreases |t|, 5
  {
    AndCommutes(known, t);
    if ParseAnd(t).Good? {
      OrTailCommutes(known, ParseAnd(t).node, ParseAnd(t).rest);
    }
  }

  lemma {:induction false} OrTailCommutes(known: set<string>, l: Formula, t: seq<Token>)
    requires Fair(t)
    ensures Commutes(known, OrTail(l, t), OrTail(Scanned(known, l), Rename(known, t)))
    decreases |t|, 4
  {
    KeywordStays(known, t, "or");
    if AtKeyword(t, "or") {
      AndCommutes(known, t[1..]);
      var p := ParseAnd(t[1..]);
      if p.Good? {
        OrTailCommutes(known, Or(l, p.node), p.rest);
      }
    }
  }

  lemma {:induction false} AndCommutes(known: set<string>, t: seq<Token>)
    requires Fair(t)
    ensures Commutes(known, ParseAnd(t), ParseAnd(Rename(known, t)))
    decreases |t|, 3
  {
    NotCommutes(known, t);
    if ParseNot(t).Good? {
      AndTailCommutes(known, ParseNot(t).node, ParseNot(t).rest);
    }
  }

  lemma {:induction false} AndTailCommutes(known: set<string>, l: Formula, t: seq<Token>)
    requires Fair(t)
    ensures Commutes(known, AndTail(l, t), AndTail(Scanned(known, l), Rename(known, t)))
    decreases |t|, 2
  {
    KeywordStays(known, t, "and");
    if AtKeyword(t, "and") {
      NotCommutes(known, t[1..]);
      var p := ParseNot(t[1..]);
      if p.Good? {
        AndTailCommutes(known, And(l, p.node), p.rest);
      }
    }
  }

  lemma {:induction false} NotCommutes(known: set<string>, t: seq<Token>)
    requires Fair(t)
    ensures Commutes(known, ParseNot(t), ParseNot(Rename(known, t)))
    decreases |t|, 1
  {
    KeywordStays(known, t, "not");
    if AtKeyword(t, "not") {
      NotCommutes(known, t[1..]);
    } else {
      AtomCommutes(known, t);
    }
  }

  lemma {:induction false} AtomCommutes(known: set<string>, t: seq<Token>)
    requires Fair(t)
    ensures Commutes(known, ParseAtom(t), ParseAtom(Rename(known, t)))
    decreases |t|, 0
  {
    RenameHead(known, t);
    if t != [] && t[0].LParen? {
      OrCommutes(known, t[1..]);
      var p := ParseOr(t[1..]);
      if p.Good? {
        RenameHead(known, p.rest);
      }
    } else {
      ComparisonCommutes(known, t);
    }
  }
}
