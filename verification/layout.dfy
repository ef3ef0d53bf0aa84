/**
 Expressions as authors lay them out: accessors, literals and marks, with blanks between. A step
 name may hold dashes, as ids do. On such a text the scanner, which sees only characters, changes
 the accessors that name a step and the insides of string literals and nothing else, so the
 engine reads the result as the formula the author wrote with those references read from memory.
 */
module Layout {
  import opened Wrappers
  import opened Text
  import opened Expr
  import opened Printing
  import opened Scanner
  import opened Reading
  import opened References
  import Trimming

  datatype Lexeme =
    | Gap(c: char)
    | Mark(token: Token)
    | Quoted(quote: char, text: string)
    | Digits(digits: string)
    | Names(path: seq<string>)

  function Dotted(names: seq<string>): (s: string) {
    if names == [] then [] else ['.'] + (names[0] + Dotted(names[1..]))
  }

  function LexemeText(l: Lexeme): (s: string) {
    match l
    case Gap(c) => [c]
    case Mark(token) => Spell(token)
    case Quoted(quote, text) => [quote] + text + [quote]
    case Digits(digits) => digits
    case Names(path) => if path == [] then [] else path[0] + Dotted(path[1..])
  }

  function Laid(ls: seq<Lexeme>): (s: string) {
    if ls == [] then [] else LexemeText(ls[0]) + Laid(ls[1..])
  }

  function LexemeTokens(l: Lexeme): (r: seq<Token>) {
    match l
    case Gap(_) => []
    case Mark(token) => [token]
    case Quoted(_, text) => [Str(text)]
    case Digits(digits) => [Num(digits)]
    case Names(path) => if path == [] then [] else PathTokens(path)
  }

  function Tokens(ls: seq<Lexeme>): (r: seq<Token>) {
    if ls == [] then [] else LexemeTokens(ls[0]) + Tokens(ls[1..])
  }

  predicate IsMark(t: Token) {
    t.LParen? || t.RParen? || t.Eq? || t.Neq?
  }

  predicate AllNames(path: seq<string>) {
    forall i :: 0 <= i < |path| ==> IsName(path[i])
  }

  /** A lexeme the engine's lexer reads as one unit. */
  predicate Shaped(l: Lexeme) {
    match l
    case Gap(c) => IsLexSpace(c)
    case Mark(token) => IsMark(token)
    case Quoted(quote, text) => (quote == '\"' || quote == '\'') && quote !in text
    case Digits(digits) => IsNumber(digits) && IsDigit(digits[|digits| - 1])
    case Names(path) => path != [] && AllNames(path)
  }

  predicate AllRuns(path: seq<string>) {
    forall i :: 0 <= i < |path| ==> IsRun(path[i])
  }

  /**
   A lexeme an author may write: an accessor is made of identifiers once its step references,
   whose ids may hold dashes, are read from memory, and does not begin with a keyword and a dot.
   */
  predicate Regular(known: set<string>, l: Lexeme) {
    match l
    case Digits(digits) => Shaped(l) && Refs(known, Pieces(digits)) == []
    case Names(path) =>
      path != [] && AllRuns(path) && AllNames(RefPath(known, path)) && (|path| >= 2 ==> path[0] !in KEYWORDS)
    case _ => Shaped(l)
  }

  /** What may stand next to a name or a number: neither a name character nor a dot. */
  predicate Apart(rest: string) {
    rest == [] || (!IsIdentRune(rest[0]) && rest[0] != '.')
  }

  predicate Solid(l: Lexeme) {
    l.Digits? || l.Names?
  }

  predicate WellShaped(ls: seq<Lexeme>) {
    if ls == [] then true
    else Shaped(ls[0]) && (Solid(ls[0]) ==> Apart(Laid(ls[1..]))) && WellShaped(ls[1..])
  }

  predicate WellLaid(known: set<string>, ls: seq<Lexeme>) {
    if ls == [] then true
    else Regular(known, ls[0]) && (Solid(ls[0]) ==> Apart(Laid(ls[1..]))) && WellLaid(known, ls[1..])
  }

  /** The formula an expression stands for. */
  function Formed(ts: seq<Token>): (r: Option<Formula>) {
    match ParseOr(ts)
    case Bad => None
    case Good(node, rest) => if rest == [] then Some(node) else None
  }

  function RenamedOne(known: set<string>, l: Lexeme): (r: Lexeme) {
    match l
    case Names(path) => Names(RefPath(known, path))
    case Quoted(quote, text) => Quoted(quote, RewriteRefs(known, text))
    case _ => l
  }

  /** The lexemes as the scanner leaves them. */
  function Renamed(known: set<string>, ls: seq<Lexeme>): (r: seq<Lexeme>) {
    if ls == [] then [] else [RenamedOne(known, ls[0])] + Renamed(known, ls[1..])
  }

  // ---------- the lexer on laid-out text ----------

  lemma {:induction false} ApartFromNames(rest: string)
    requires Apart(rest)
    ensures rest == [] || (!IsIdentChar(rest[0]) && !IsDigit(rest[0]) && rest[0] != '.')
  {
  }

  lemma {:induction false} LexDot(name: string, more: string, ts: seq<Token>)
    requires IsName(name) && (more == [] || !IsIdentChar(more[0])) && Lex(more) == Some(ts)
    ensures Lex(['.'] + (name + more)) == Some([Dot] + ([Ident(name)] + ts))
  {
    ScansName(name, more);
    LexNext(Ident(name), name, more);
    ScansBack(Dot, name + more);
    LexNext(Dot, ['.'], name + more);
  }

  lemma {:induction false} Assoc<T>(a: seq<T>, b: seq<T>, c: seq<T>)
    ensures a + b + c == a + (b + c)
  {
  }

  lemma {:induction false} DottedApart(names: seq<string>, rest: string)
    requires Apart(rest)
    ensures var more := Dotted(names) + rest; more == [] || !IsIdentChar(more[0])
  {
    if names == [] {
      assert Dotted(names) + rest == rest;
    }
  }

  lemma {:induction false} LexOneMore(name: string, more: string, tail: seq<Token>, rest: string, ts: seq<Token>)
    requires IsName(name) && (more + rest == [] || !IsIdentChar((more + rest)[0])) && Lex(more + rest) == Some(tail + ts)
    ensures Lex(['.'] + (name + more) + rest) == Some([Dot, Ident(name)] + tail + ts)
  {
    LexDot(name, more + rest, tail + ts);
    assert ['.'] + (name + more) + rest == ['.'] + (name + (more + rest));
    assert [Dot, Ident(name)] + tail + ts == [Dot] + ([Ident(name)] + (tail + ts));
  }

  lemma {:induction false} LexDotted(names: seq<string>, rest: string, ts: seq<Token>)
    requires AllNames(names) && Apart(rest) && Lex(rest) == Some(ts)
    ensures Lex(Dotted(names) + rest) == Some(DottedTail(names) + ts)
  {
    if names == [] {
      assert Dotted(names) + rest == rest && DottedTail(names) + ts == ts;
    } else {
      LexDotted(names[1..], rest, ts);
      DottedApart(names[1..], rest);
      LexOneMore(names[0], Dotted(names[1..]), DottedTail(names[1..]), rest, ts);
    }
  }

  lemma {:induction false} LexNames(path: seq<string>, rest: string)
    requires path != [] && AllNames(path) && Apart(rest) && Lex(rest).Some?
    ensures Lex(LexemeText(Names(path)) + rest) == Some(PathTokens(path) + Lex(rest).value)
  {
    var name, tail, ts := path[0], path[1..], Lex(rest).value;
    var more := Dotted(tail) + rest;
    LexDotted(tail, rest, ts);
    DottedApart(tail, rest);
    ScansName(name, more);
    LexNext(Ident(name), name, more);
    Assoc(name, Dotted(tail), rest);
    Assoc([Ident(name)], DottedTail(tail), ts);
  }

  lemma {:induction false} LexGap(c: char, rest: string)
    requires IsLexSpace(c)
    ensures Lex([c] + rest) == Lex(rest)
  {
    assert ([c] + rest)[1..] == rest;
  }

  lemma {:induction false} LexLexeme(l: Lexeme, rest: string)
    requires Shaped(l) && (Solid(l) ==> Apart(rest)) && Lex(rest).Some?
    ensures Lex(LexemeText(l) + rest) == Some(LexemeTokens(l) + Lex(rest).value)
  {
    match l
    case Gap(c) =>
      LexGap(c, rest);
      assert LexemeTokens(l) + Lex(rest).value == Lex(rest).value;
    case Mark(token) =>
      ScansBack(token, rest);
      LexNext(token, Spell(token), rest);
    case Quoted(quote, text) =>
      ScansQuoted(text, quote, rest);
      LexNext(Str(text), LexemeText(l), rest);
    case Digits(digits) =>
      ApartFromNames(rest);
      ScansNumber(digits, rest);
      LexNext(Num(digits), digits, rest);
    case Names(path) => LexNames(path, rest);
  }

  /** A laid-out text lexes to the tokens it was laid out from. */
  lemma {:induction false} LexLaid(ls: seq<Lexeme>)
    requires WellShaped(ls)
    ensures Lex(Laid(ls)) == Some(Tokens(ls)) && ParseExpr(Laid(ls)) == Formed(Tokens(ls))
  {
    if ls != [] {
      LexLaid(ls[1..]);
      LexLexeme(ls[0], Laid(ls[1..]));
    }
  }

  // ---------- the scanner on laid-out text ----------

  /** No reference can straddle the two texts. */
  predicate Parted(a: string, b: string) {
    a == [] || b == [] || Apart(b) || (!IsIdentRune(a[|a| - 1]) && a[|a| - 1] != '.')
  }

  lemma {:induction false} RunEndJoin(a: string, b: string, i: nat)
    requires i <= |a| && Parted(a, b) && a != []
    requires i < |a| || IsIdentRune(a[|a| - 1])
    ensures RunEnd(a + b, i) == RunEnd(a, i)
    decreases |a| - i
  {
    if i < |a| && IsIdentRune(a[i]) {
      RunEndJoin(a, b, i + 1);
    }
  }

  lemma {:induction false} SplitJoin<T>(a: seq<T>, b: seq<T>, j: nat)
    requires j <= |a|
    ensures (a + b)[..j] == a[..j] && (a + b)[j..] == a[j..] + b
  {
  }

  lemma {:induction false} PartedTail(a: string, b: string, j: nat)
    requires Parted(a, b) && j <= |a|
    ensures Parted(a[j..], b)
  {
    if j < |a| {
      assert a[j..][|a[j..]| - 1] == a[|a| - 1];
    }
  }

  lemma {:induction false} PiecesJoin(a: string, b: string)
    requires Parted(a, b)
    ensures Pieces(a + b) == Pieces(a) + Pieces(b)
    decreases |a|
  {
    if a == [] {
      assert a + b == b;
    } else {
      var j := if IsIdentRune(a[0]) then RunEnd(a, 1) else 1;
      var p := if IsIdentRune(a[0]) then Word(a[..j]) else Other(a[0]);
      if IsIdentRune(a[0]) {
        RunEndJoin(a, b, 1);
      }
      PartedTail(a, b, j);
      PiecesJoin(a[j..], b);
      SplitJoin(a, b, j);
      assert Pieces(a) == [p] + Pieces(a[j..]);
      assert Pieces(a + b) == [p] + Pieces(a[j..] + b);
      Assoc([p], Pieces(a[j..]), Pieces(b));
    }
  }

  /** The last piece of a text, by its last character. */
  lemma {:induction false} LastPiece(a: string)
    requires a != []
    ensures Pieces(a) != []
    ensures var p, c := Pieces(a)[|Pieces(a)| - 1], a[|a| - 1];
            if IsIdentRune(c) then p.Word? else p == Other(c)
    decreases |a|
  {
    var j := if IsIdentRune(a[0]) then RunEnd(a, 1) else 1;
    if j < |a| {
      LastPiece(a[j..]);
      assert a[j..][|a[j..]| - 1] == a[|a| - 1];
    }
  }

  lemma {:induction false} FirstPiece(a: string)
    requires a != []
    ensures Pieces(a) != [] && if IsIdentRune(a[0]) then Pieces(a)[0].Word? else Pieces(a)[0] == Other(a[0])
  {
  }

  /** No reference can straddle the two runs of pieces. */
  predicate PiecesParted(a: seq<Piece>, b: seq<Piece>) {
    || a == [] || b == []
    || (b[0].Other? && b[0] != DOT)
    || (a[|a| - 1].Other? && a[|a| - 1] != DOT)
  }

  lemma {:induction false} PartedPieces(a: string, b: string)
    requires Parted(a, b)
    ensures PiecesParted(Pieces(a), Pieces(b))
  {
    if a != [] && b != [] {
      LastPiece(a);
      FirstPiece(b);
    }
  }

  lemma {:induction false} RefStays(known: set<string>, a: seq<Piece>, b: seq<Piece>)
    requires PiecesParted(a, b) && a != []
    ensures RefAt(known, a + b, 0) <==> RefAt(known, a, 0)
  {
  }

  lemma {:induction false} RewriteJoin(known: set<string>, a: seq<Piece>, b: seq<Piece>)
    requires PiecesParted(a, b)
    ensures RewritePieces(known, a + b) == RewritePieces(known, a) + RewritePieces(known, b)
    decreases |a|
  {
    if a == [] {
      assert a + b == b;
    } else {
      RefStays(known, a, b);
      var o := if RefAt(known, a, 0) then 3 else 1;
      var h := if RefAt(known, a, 0) then [Word(MEMORY), a[1], a[2]] else [a[0]];
      SplitJoin(a, b, o);
      RewriteJoin(known, a[o..], b);
      assert RewritePieces(known, a) == h + RewritePieces(known, a[o..]);
      assert RewritePieces(known, a + b) == h + RewritePieces(known, a[o..] + b);
      Assoc(h, RewritePieces(known, a[o..]), RewritePieces(known, b));
    }
  }

  lemma {:induction false} PrintJoin(a: seq<Piece>, b: seq<Piece>)
    ensures Print(a + b) == Print(a) + Print(b)
    decreases |a|
  {
    if a == [] {
      assert a + b == b;
    } else {
      assert (a + b)[1..] == a[1..] + b;
      PrintJoin(a[1..], b);
    }
  }

  /** Two texts no reference straddles are rewritten one by one. */
  lemma {:induction false} RewriteParts(known: set<string>, a: string, b: string)
    requires Parted(a, b)
    ensures RewriteRefs(known, a + b) == RewriteRefs(known, a) + RewriteRefs(known, b)
  {
    PiecesJoin(a, b);
    PartedPieces(a, b);
    RewriteJoin(known, Pieces(a), Pieces(b));
    PrintJoin(RewritePieces(known, Pieces(a)), RewritePieces(known, Pieces(b)));
  }

  lemma {:induction false} NothingToRewrite(known: set<string>, ps: seq<Piece>)
    requires Refs(known, ps) == []
    ensures RewritePieces(known, ps) == ps
  {
    if ps != [] {
      NothingToRewrite(known, ps[1..]);
    }
  }

  lemma {:induction false} LeftAlone(known: set<string>, s: string)
    requires Refs(known, Pieces(s)) == []
    ensures RewriteRefs(known, s) == s
  {
    NothingToRewrite(known, Pieces(s));
    PrintPieces(s);
  }

  lemma {:induction false} NoWords(known: set<string>, s: string)
    requires forall i :: 0 <= i < |s| ==> !IsIdentRune(s[i])
    ensures Refs(known, Pieces(s)) == []
    decreases |s|
  {
    if s != [] {
      NoWords(known, s[1..]);
      assert Pieces(s)[1..] == Pieces(s[1..]);
    }
  }

  // ---------- accessors ----------

  function DottedPieces(names: seq<string>): (r: seq<Piece>) {
    if names == [] then [] else [DOT] + ([Word(names[0])] + DottedPieces(names[1..]))
  }

  function NamePieces(path: seq<string>): (r: seq<Piece>)
    requires path != []
  {
    [Word(path[0])] + DottedPieces(path[1..])
  }

  lemma {:induction false} PrintDotted(names: seq<string>)
    ensures Print(DottedPieces(names)) == Dotted(names)
  {
    if names != [] {
      PrintDotted(names[1..]);
      PrintOne(Word(names[0]), DottedPieces(names[1..]));
      PrintOne(DOT, [Word(names[0])] + DottedPieces(names[1..]));
    }
  }

  lemma {:induction false} PrintNames(path: seq<string>)
    requires path != []
    ensures Print(NamePieces(path)) == LexemeText(Names(path))
  {
    PrintDotted(path[1..]);
    PrintOne(Word(path[0]), DottedPieces(path[1..]));
  }

  lemma {:induction false} DottedCut(names: seq<string>)
    requires AllRuns(names)
    ensures Cut(DottedPieces(names)) && (names != [] ==> DottedPieces(names)[0] == DOT)
  {
    if names != [] {
      DottedCut(names[1..]);
      CutCons(Word(names[0]), DottedPieces(names[1..]));
      CutCons(DOT, [Word(names[0])] + DottedPieces(names[1..]));
    }
  }

  lemma {:induction false} NamesCut(path: seq<string>)
    requires path != [] && AllRuns(path)
    ensures Pieces(LexemeText(Names(path))) == NamePieces(path)
  {
    DottedCut(path[1..]);
    CutCons(Word(path[0]), DottedPieces(path[1..]));
    PrintNames(path);
    PiecesPrint(NamePieces(path));
  }

  /** On the pieces of an accessor the scanner does what RefPath does. */
  lemma {:induction false} RewriteNames(known: set<string>, path: seq<string>)
    requires path != []
    ensures RewritePieces(known, NamePieces(path)) == NamePieces(RefPath(known, path))
    decreases |path|, 0
  {
    var ps := NamePieces(path);
    if |path| == 1 {
      assert ps == [Word(path[0])];
    } else {
      assert path[1..][0] == path[1] && path[1..][1..] == path[2..];
      assert ps == [Word(path[0]), DOT, Word(path[1])] + DottedPieces(path[2..]);
      if path[0] in known {
        assert ps[3..] == DottedPieces(path[2..]);
        RewriteDotted(known, path[2..]);
        RefNames("memory", path[1], RefPath(known, path[2..]));
      } else {
        assert ps[1..] == [DOT] + NamePieces(path[1..]);
        RewriteDotted(known, path[1..]);
        assert RefPath(known, path)[1..] == RefPath(known, path[1..]);
      }
    }
  }

  lemma {:induction false} RefNames(x: string, y: string, more: seq<string>)
    ensures NamePieces([x, y] + more) == [Word(x), DOT, Word(y)] + DottedPieces(more)
  {
    assert ([x, y] + more)[1..] == [y] + more;
    assert ([y] + more)[1..] == more;
  }

  lemma {:induction false} RewriteDotted(known: set<string>, names: seq<string>)
    ensures RewritePieces(known, DottedPieces(names)) == DottedPieces(RefPath(known, names))
    decreases |names|, 1
  {
    if names != [] {
      var r := RefPath(known, names);
      assert DottedPieces(names) == [DOT] + NamePieces(names);
      assert DottedPieces(names)[1..] == NamePieces(names);
      RewriteNames(known, names);
      assert DottedPieces(r) == [DOT] + NamePieces(r);
    }
  }

  lemma {:induction false} RewriteAccessor(known: set<string>, path: seq<string>)
    requires path != [] && AllRuns(path)
    ensures RewriteRefs(known, LexemeText(Names(path))) == LexemeText(Names(RefPath(known, path)))
  {
    NamesCut(path);
    RewriteNames(known, path);
    PrintNames(RefPath(known, path));
  }

  // ---------- string literals ----------

  /** The scanner adds no quote. */
  lemma {:induction false} NoNewQuote(known: set<string>, ps: seq<Piece>, q: char)
    requires q !in Print(ps) && !IsIdentRune(q)
    ensures q !in Print(RewritePieces(known, ps))
    decreases |ps|
  {
    if ps != [] {
      var o := if RefAt(known, ps, 0) then 3 else 1;
      assert ps == ps[..o] + ps[o..];
      PrintJoin(ps[..o], ps[o..]);
      NoNewQuote(known, ps[o..], q);
      if RefAt(known, ps, 0) {
        PrintThree(Word(MEMORY), ps[1], ps[2], RewritePieces(known, ps[3..]));
        assert ps[..3] == [ps[0], ps[1], ps[2]] && [ps[0], ps[1], ps[2]] + [] == ps[..3];
        PrintThree(ps[0], ps[1], ps[2], []);
        MemoryIsWord();
      } else {
        PrintOne(ps[0], RewritePieces(known, ps[1..]));
        PrintOne(ps[0], ps[1..]);
        assert ps == [ps[0]] + ps[1..];
      }
    }
  }

  lemma {:induction false} PrintThree(a: Piece, b: Piece, c: Piece, more: seq<Piece>)
    ensures Print([a, b, c] + more) == TextOf(a) + (TextOf(b) + (TextOf(c) + Print(more)))
  {
    assert [a, b, c] + more == [a] + ([b] + ([c] + more));
    PrintOne(a, [b] + ([c] + more));
    PrintOne(b, [c] + more);
    PrintOne(c, more);
  }

  /** Quotes separate, so a literal is rewritten inside its quotes. */
  lemma {:induction false} RewriteQuoted(known: set<string>, q: char, text: string)
    requires (q == '\"' || q == '\'') && q !in text
    ensures RewriteRefs(known, [q] + text + [q]) == [q] + RewriteRefs(known, text) + [q]
    ensures q !in RewriteRefs(known, text)
  {
    NoWords(known, [q]);
    LeftAlone(known, [q]);
    RewriteParts(known, [q], text);
    RewriteParts(known, [q] + text, [q]);
    PrintPieces(text);
    NoNewQuote(known, Pieces(text), q);
  }

  // ---------- the whole expression ----------

  lemma {:induction false} LexemeEnds(known: set<string>, l: Lexeme)
    requires Regular(known, l)
    ensures LexemeText(l) != []
    ensures !Solid(l) ==> var c := LexemeText(l)[|LexemeText(l)| - 1]; !IsIdentRune(c) && c != '.'
    ensures Solid(l) ==> IsIdentRune(LexemeText(l)[0])
  {
    if l.Names? {
      assert IsRun(l.path[0]);
    }
  }

  /** The scanner leaves one lexeme of each. */
  lemma {:induction false} RewriteLexeme(known: set<string>, l: Lexeme)
    requires Regular(known, l)
    ensures RewriteRefs(known, LexemeText(l)) == LexemeText(RenamedOne(known, l)) && Shaped(RenamedOne(known, l))
  {
    match l
    case Names(path) => RewriteAccessor(known, path);
    case Quoted(quote, text) => RewriteQuoted(known, quote, text);
    case Digits(digits) => LeftAlone(known, digits);
    case _ =>
      NoWords(known, LexemeText(l));
      LeftAlone(known, LexemeText(l));
  }

  /** The scanner rewrites a laid-out text lexeme by lexeme. */
  lemma {:induction false} RewriteLaid(known: set<string>, ls: seq<Lexeme>)
    requires WellLaid(known, ls)
    ensures RewriteRefs(known, Laid(ls)) == Laid(Renamed(known, ls))
  {
    if ls != [] {
      LexemeEnds(known, ls[0]);
      RewriteParts(known, LexemeText(ls[0]), Laid(ls[1..]));
      RewriteLexeme(known, ls[0]);
      RewriteLaid(known, ls[1..]);
      assert Renamed(known, ls)[1..] == Renamed(known, ls[1..]);
    }
  }

  lemma {:induction false} ApartStays(known: set<string>, ls: seq<Lexeme>)
    requires WellLaid(known, ls) && Apart(Laid(ls))
    ensures Apart(Laid(Renamed(known, ls)))
  {
    if ls != [] {
      LexemeEnds(known, ls[0]);
      assert Laid(ls)[0] == LexemeText(ls[0])[0];
      assert Renamed(known, ls)[0] == RenamedOne(known, ls[0]);
      assert LexemeText(RenamedOne(known, ls[0]))[0] == LexemeText(ls[0])[0];
    }
  }

  lemma {:induction false} RenamedIsShaped(known: set<string>, ls: seq<Lexeme>)
    requires WellLaid(known, ls)
    ensures WellShaped(Renamed(known, ls))
  {
    if ls != [] {
      RewriteLexeme(known, ls[0]);
      RenamedIsShaped(known, ls[1..]);
      assert Renamed(known, ls)[1..] == Renamed(known, ls[1..]);
      if Solid(ls[0]) {
        ApartStays(known, ls[1..]);
      }
    }
  }

  lemma {:induction false} NoLooseDot(known: set<string>, ls: seq<Lexeme>)
    requires WellLaid(known, ls)
    ensures Tokens(ls) == [] || !Tokens(ls)[0].Dot?
  {
    if ls != [] {
      NoLooseDot(known, ls[1..]);
      assert ls[0].Gap? ==> Tokens(ls) == Tokens(ls[1..]);
    }
  }

  lemma {:induction false} AccessorOf(path: seq<string>, v: seq<Token>)
    requires path != [] && (v == [] || !v[0].Dot?)
    ensures var ts := PathTokens(path) + v; ts != [] && ts[0].Ident? && Accessor(ts) == Split(path, v)
    decreases |path|
  {
    var ts := PathTokens(path) + v;
    if |path| == 1 {
      assert ts == [Ident(path[0])] + v;
      assert path == [path[0]];
    } else {
      var tail := path[1..];
      assert ts == [Ident(path[0]), Dot] + (PathTokens(tail) + v);
      assert ts[2..] == PathTokens(tail) + v;
      AccessorOf(tail, v);
      assert [path[0]] + tail == path;
    }
  }

  lemma {:induction false} GapTokens(known: set<string>, v: seq<Token>)
    requires Fair(v)
    ensures [] + Rename(known, v) == Rename(known, [] + v) && Fair([] + v)
  {
    assert [] + v == v && [] + Rename(known, v) == Rename(known, v);
  }

  lemma {:induction false} OneToken(known: set<string>, t: Token, v: seq<Token>)
    requires !t.Ident? && Fair(v)
    ensures [RenameOne(known, t)] + Rename(known, v) == Rename(known, [t] + v) && Fair([t] + v)
  {
    assert ([t] + v)[1..] == v;
  }

  /** Its tokens are the author's, renamed, and no accessor among those begins with a keyword. */
  lemma {:induction false} TokensRenamed(known: set<string>, ls: seq<Lexeme>)
    requires WellLaid(known, ls)
    ensures Tokens(Renamed(known, ls)) == Rename(known, Tokens(ls)) && Fair(Tokens(ls))
  {
    if ls != [] {
      var v := Tokens(ls[1..]);
      TokensRenamed(known, ls[1..]);
      assert Renamed(known, ls)[1..] == Renamed(known, ls[1..]);
      match ls[0]
      case Gap(_) => GapTokens(known, v);
      case Names(path) =>
        NoLooseDot(known, ls[1..]);
        AccessorOf(path, v);
      case _ => OneToken(known, LexemeTokens(ls[0])[0], v);
    }
  }

  /** The formula of the rewritten text is the author's formula, as Scanned. */
  lemma {:induction false} ReadsFormula(known: set<string>, ls: seq<Lexeme>)
    requires WellLaid(known, ls)
    ensures Lex(RewriteRefs(known, Laid(ls))).Some?
    ensures ParseExpr(RewriteRefs(known, Laid(ls))) ==
            match Formed(Tokens(ls)) case None => None case Some(e) => Some(Scanned(known, e))
  {
    RenamedIsShaped(known, ls);
    LexLaid(Renamed(known, ls));
    RewriteLaid(known, ls);
    TokensRenamed(known, ls);
    OrCommutes(known, Tokens(ls));
    if ParseOr(Tokens(ls)).Good? {
      RenameHead(known, ParseOr(Tokens(ls)).rest);
    }
  }

  lemma {:induction false} LexedIsBare(c: string)
    requires Trimming.Tidy(c) && Lex(c).Some?
    ensures StripDelimiters(c) == c
  {
    TrimSpaceFixed(c);
    if c != [] {
      StripUnwrapped(c);
    }
  }

  /** The verdict of an authored expression in a world, its step references read from memory. */
  function AuthorSays<W>(known: set<string>, ls: seq<Lexeme>, atom: (Formula, W) -> Verdict, w: W): (v: Verdict) {
    if ls == [] then True
    else match Formed(Tokens(ls))
      case None => Error
      case Some(e) => Eval(RefFormula(known, e), atom, w)
  }

  /** No string operand of the expression looks like it holds a reference. */
  predicate Unquoted(known: set<string>, ls: seq<Lexeme>) {
    Formed(Tokens(ls)).Some? ==> PlainOperands(known, Formed(Tokens(ls)).value)
  }

  /** What the scanner makes of an authored expression, wrapped or not. */
  lemma {:induction false} ReadsBare(known: set<string>, text: string, ls: seq<Lexeme>)
    requires WellLaid(known, ls) && StripDelimiters(text) == Laid(ls)
    ensures var c := Reads(known, text);
            && StripDelimiters(c) == c && (c == "" <==> ls == [])
            && ParseExpr(c) == match Formed(Tokens(ls)) case None => None case Some(e) => Some(Scanned(known, e))
  {
    var s := StripDelimiters(text);
    RewriteIsReading(known, s);
    Trimming.RewriteTrimmed(known, s);
    ReadsFormula(known, ls);
    LexedIsBare(Reads(known, text));
    if ls != [] {
      LexemeEnds(known, ls[0]);
      NotEmptied(known, s);
    }
  }

  /**
   In every world the expression the scanner makes of an authored one, wrapped or not, has the
   verdict of what the author wrote with its step references read from memory.
   */
  lemma {:induction false} ReadsVerdict<W>(known: set<string>, text: string, ls: seq<Lexeme>, atom: (Formula, W) -> Verdict, w: W)
    requires WellLaid(known, ls) && StripDelimiters(text) == Laid(ls) && Unquoted(known, ls)
    ensures EvalCond(Reads(known, text), atom, w) == AuthorSays(known, ls, atom, w)
  {
    ReadsBare(known, text, ls);
    if Formed(Tokens(ls)).Some? {
      ScannedExactly(known, Formed(Tokens(ls)).value);
    }
  }

  lemma {:induction false} NotEmptied(known: set<string>, s: string)
    requires s != []
    ensures RewriteRefs(known, s) != []
  {
    PiecesCut(s);
    RewriteCut(known, Pieces(s));
    RewritePositions(known, Pieces(s));
    Trimming.PrintEnds(RewritePieces(known, Pieces(s)));
  }
}
