/**
 The condition language of workflow steps: lexer, recursive-descent parser and
 three-valued evaluation (an expression that cannot be evaluated is an error).
 What an accessor comparison means is left to a parameter, so every statement
 below holds for all cells, memories, step states and events.
 */
module Expr {
  import opened Text
  import opened Wrappers

  datatype Token =
    | Ident(name: string)
    | Str(text: string)
    | Num(digits: string)
    | Dot
    | LParen
    | RParen
    | Eq
    | Neq

  // ---------- lexer ----------

  predicate IsLexSpace(c: char) {
    c == ' ' || c == '\t' || c == '\n' || c == '\r'
  }

  predicate IsDigit(c: char) {
    '0' <= c <= '9'
  }

  predicate IsIdentStart(c: char) {
    c == '_' || 'a' <= c <= 'z' || 'A' <= c <= 'Z'
  }

  predicate IsIdentChar(c: char) {
    IsIdentStart(c) || IsDigit(c)
  }

  /** First position at or after i that holds the quote, or |s|. */
  function QuoteEnd(s: string, i: nat, quote: char): (j: nat)
    requires i <= |s|
    ensures i <= j <= |s|
    decreases |s| - i
  {
    if i < |s| && s[i] != quote then QuoteEnd(s, i + 1, quote) else i
  }

  function NumberEnd(s: string, i: nat): (j: nat)
    requires i <= |s|
    ensures i <= j <= |s|
    decreases |s| - i
  {
    if i < |s| && (IsDigit(s[i]) || s[i] == '.') then NumberEnd(s, i + 1) else i
  }

  function IdentEnd(s: string, i: nat): (j: nat)
    requires i <= |s|
    ensures i <= j <= |s|
    decreases |s| - i
  {
    if i < |s| && IsIdentChar(s[i]) then IdentEnd(s, i + 1) else i
  }

  /** One iteration of the lexer: skip a blank, emit a token of the given width, or fail. */
  datatype Scan = Stuck | Blank | Emit(token: Token, width: nat)

  function Next(s: string): (r: Scan)
    ensures r.Emit? ==> 0 < r.width <= |s|
  {
    if s == [] then Stuck else
    var c := s[0];
    if IsLexSpace(c) then Blank
    else if c == '(' then Emit(LParen, 1)
    else if c == ')' then Emit(RParen, 1)
    else if c == '.' then Emit(Dot, 1)
    else if c == '=' then
      if |s| > 1 && s[1] == '=' then Emit(Eq, 2) else Stuck
    else if c == '!' then
      if |s| > 1 && s[1] == '=' then Emit(Neq, 2) else Stuck
    else if c == '\"' || c == '\'' then
      var j := QuoteEnd(s, 1, c);
      if j < |s| then Emit(Str(s[1..j]), j + 1) else Stuck
    else if IsDigit(c) || (c == '-' && |s| > 1 && IsDigit(s[1])) then
      var j := NumberEnd(s, 1);
      Emit(Num(s[..j]), j)
    else if IsIdentStart(c) then
      var j := IdentEnd(s, 1);
      Emit(Ident(s[..j]), j)
    else Stuck
  }

  function Push(t: Token, rest: Option<seq<Token>>): (r: Option<seq<Token>>) {
    if rest.Some? then Some([t] + rest.value) else None
  }

  /** The lexer loop, for any way of scanning the next token. */
  function LexWith(next: string -> Scan, s: string): (r: Option<seq<Token>>)
    decreases |s|
  {
    if s == [] then Some([])
    else match next(s)
      case Stuck => None
      case Blank => LexWith(next, s[1..])
      case Emit(token, width) =>
        if 0 < width <= |s| then Push(token, LexWith(next, s[width..])) else None
  }

  function Lex(s: string): (r: Option<seq<Token>>) {
    LexWith(Next, s)
  }

  // ---------- parser ----------

  datatype Formula =
    | Or(l: Formula, r: Formula)
    | And(l: Formula, r: Formula)
    | Not(x: Formula)
    | Cmp(path: seq<string>, op: string, operand: string, isNumber: bool)

  datatype Parse = Bad | Good(node: Formula, rest: seq<Token>)

  predicate AtKeyword(t: seq<Token>, word: string) {
    t != [] && t[0] == Ident(word)
  }

  function ParseOr(t: seq<Token>): (r: Parse)
    ensures r.Good? ==> |r.rest| < |t|
    decreases |t|, 5
  {
    match ParseAnd(t)
    case Bad => Bad
    case Good(l, rest) => OrTail(l, rest)
  }

  function OrTail(l: Formula, t: seq<Token>): (r: Parse)
    ensures r.Good? ==> |r.rest| <= |t|
    decreases |t|, 4
  {
    if AtKeyword(t, "or") then
      match ParseAnd(t[1..])
      case Bad => Bad
      case Good(r, rest) => OrTail(Or(l, r), rest)
    else Good(l, t)
  }

  function ParseAnd(t: seq<Token>): (r: Parse)
    ensures r.Good? ==> |r.rest| < |t|
    decreases |t|, 3
  {
    match ParseNot(t)
    case Bad => Bad
    case Good(l, rest) => AndTail(l, rest)
  }

  function AndTail(l: Formula, t: seq<Token>): (r: Parse)
    ensures r.Good? ==> |r.rest| <= |t|
    decreases |t|, 2
  {
    if AtKeyword(t, "and") then
      match ParseNot(t[1..])
      case Bad => Bad
      case Good(r, rest) => AndTail(And(l, r), rest)
    else Good(l, t)
  }

  function ParseNot(t: seq<Token>): (r: Parse)
    ensures r.Good? ==> |r.rest| < |t|
    decreases |t|, 1
  {
    if AtKeyword(t, "not") then
      match ParseNot(t[1..])
      case Bad => Bad
      case Good(x, rest) => Good(Not(x), rest)
    else ParseAtom(t)
  }

  function ParseAtom(t: seq<Token>): (r: Parse)
    ensures r.Good? ==> |r.rest| < |t|
    decreases |t|, 0
  {
    if t != [] && t[0].LParen? then
      match ParseOr(t[1..])
      case Bad => Bad
      case Good(inner, rest) =>
        if rest != [] && rest[0].RParen? then Good(inner, rest[1..]) else Bad
    else ParseComparison(t)
  }

  datatype PathParse = NoPath | Path(names: seq<string>, rest: seq<Token>)

  /** The rest of an accessor after its first name: ("." IDENT)*. */
  function PathTail(names: seq<string>, t: seq<Token>): (r: PathParse)
    ensures r.Path? ==> |r.rest| <= |t|
    decreases |t|
  {
    if t != [] && t[0].Dot? then
      if |t| > 1 && t[1].Ident? then PathTail(names + [t[1].name], t[2..]) else NoPath
    else Path(names, t)
  }

  function Operator(t: seq<Token>): (r: Option<string>) {
    if t == [] then None
    else match t[0]
      case Eq => Some("==")
      case Neq => Some("!=")
      case Ident(name) => if name == "contains" || name == "matches" then Some(name) else None
      case _ => None
  }

  function ParseComparison(t: seq<Token>): (r: Parse)
    ensures r.Good? ==> |r.rest| < |t|
  {
    if t == [] || !t[0].Ident? then Bad
    else match PathTail([t[0].name], t[1..])
      case NoPath => Bad
      case Path(path, rest) =>
        var op := Operator(rest);
        if op.None? || |rest| < 2 then Bad
        else match rest[1]
          case Str(text) => Good(Cmp(path, op.value, text, false), rest[2..])
          case Num(digits) => Good(Cmp(path, op.value, digits, true), rest[2..])
          case _ => Bad
  }

  function ParseExpr(s: string): (r: Option<Formula>) {
    match Lex(s)
    case None => None
    case Some(t) =>
      match ParseOr(t)
      case Bad => None
      case Good(node, rest) => if rest == [] then Some(node) else None
  }

  // ---------- evaluation ----------

  datatype Verdict = True | False | Error

  /** Short-circuit evaluation over a world w; atom decides accessor comparisons. */
  function Eval<W>(e: Formula, atom: (Formula, W) -> Verdict, w: W): (v: Verdict) {
    match e
    case Or(l, r) =>
      (match Eval(l, atom, w)
       case Error => Error
       case True => True
       case False => Eval(r, atom, w))
    case And(l, r) =>
      (match Eval(l, atom, w)
       case Error => Error
       case False => False
       case True => Eval(r, atom, w))
    case Not(x) =>
      (match Eval(x, atom, w)
       case Error => Error
       case True => False
       case False => True)
    case Cmp(_, _, _, _) => atom(e, w)
  }

  predicate IsWrapped(s: string)
    ensures IsWrapped(s) ==> |s| >= 5
  {
    && |s| >= 3 && s[..3] == ['$', '{', '{']
    && s[|s| - 2..] == ['}', '}']
    && assert s[2] == '{' && s[|s| - 2..][0] == '}' && s[|s| - 2..][1] == '}'; true
  }

  /** lowerExpr, and the engine's stripExprDelimiters: drop the optional ${{ }} wrapper. */
  function StripDelimiters(expr: string): (r: string) {
    var s := TrimSpace(expr);
    if IsWrapped(s) then TrimSpace(s[3..|s| - 2]) else s
  }

  /** The engine's evalExpr on a step condition; the empty condition always holds. */
  function EvalCond<W>(cond: string, atom: (Formula, W) -> Verdict, w: W): (v: Verdict) {
    if cond == "" then True
    else match ParseExpr(StripDelimiters(cond))
      case None => Error
      case Some(e) => Eval(e, atom, w)
  }

  // ---------- composition of guards ----------

  function Conjoin(a: string, b: string): (r: string)
    ensures r != [] && r[0] == '(' && r[|r| - 1] == ')'
  {
    "(" + a + ") and (" + b + ")"
  }

  function ComposeCond(a0: string, b0: string): (r: string) {
    var a, b := TrimSpace(a0), TrimSpace(b0);
    if a == "" && b == "" then ""
    else if a == "" then b
    else if b == "" then a
    else Conjoin(a, b)
  }

  // ---------- the parser in context ----------

  lemma {:induction false} QuoteEndAppend(a: string, b: string, i: nat, quote: char)
    requires i <= |a|
    requires QuoteEnd(a, i, quote) < |a|
    ensures QuoteEnd(a + b, i, quote) == QuoteEnd(a, i, quote)
    decreases |a| - i
  {
    if a[i] != quote {
      QuoteEndAppend(a, b, i + 1, quote);
    }
  }

  lemma {:induction false} NumberEndAppend(a: string, b: string, i: nat)
    requires i <= |a|
    requires b != [] && b[0] == ')'
    ensures NumberEnd(a + b, i) == NumberEnd(a, i)
    decreases |a| - i
  {
    if i < |a| && (IsDigit(a[i]) || a[i] == '.') {
      NumberEndAppend(a, b, i + 1);
    }
  }

  lemma {:induction false} IdentEndAppend(a: string, b: string, i: nat)
    requires i <= |a|
    requires b != [] && b[0] == ')'
    ensures IdentEnd(a + b, i) == IdentEnd(a, i)
    decreases |a| - i
  {
    if i < |a| && IsIdentChar(a[i]) {
      IdentEndAppend(a, b, i + 1);
    }
  }

  lemma {:induction false} NextAppend(a: string, b: string)
    requires a != [] && !Next(a).Stuck?
    requires b != [] && b[0] == ')'
    ensures Next(a + b) == Next(a)
  {
    var c := a[0];
    if c == '\"' || c == '\'' {
      QuoteEndAppend(a, b, 1, c);
      var j := QuoteEnd(a, 1, c);
      assert (a + b)[1..j] == a[1..j];
    } else {
      NumberEndAppend(a, b, 1);
      IdentEndAppend(a, b, 1);
      assert (a + b)[..NumberEnd(a, 1)] == a[..NumberEnd(a, 1)];
      assert (a + b)[..IdentEnd(a, 1)] == a[..IdentEnd(a, 1)];
    }
  }

  /** What follows does not change how x begins. */
  ghost predicate Settled(next: string -> Scan, x: string, b: string) {
    x != [] && !next(x).Stuck? ==> next(x + b) == next(x)
  }

  lemma {:induction false} LexStep(next: string -> Scan, s: string, k: nat, rest: Option<seq<Token>>)
    requires s != [] && !next(s).Stuck? && k == (if next(s).Emit? then next(s).width else 1)
    requires 0 < k <= |s| && LexWith(next, s[k..]) == rest
    ensures LexWith(next, s) == if next(s).Emit? then Push(next(s).token, rest) else rest
  {
  }

  lemma {:induction false} PushAppend(t: Token, x: seq<Token>, y: seq<Token>)
    ensures Push(t, Some(x + y)) == Some([t] + x + y)
  {
    assert [t] + x + y == [t] + (x + y);
  }

  lemma {:induction false} LexWithAppend(next: string -> Scan, a: string, b: string)
    requires forall x :: Settled(next, x, b)
    requires LexWith(next, a).Some? && LexWith(next, b).Some?
    ensures LexWith(next, a + b) == Some(LexWith(next, a).value + LexWith(next, b).value)
    decreases |a|
  {
    var y := LexWith(next, b).value;
    if a == [] {
      assert a + b == b;
      assert [] + y == y;
    } else {
      var n := next(a);
      assert Settled(next, a, b);
      var k := if n.Emit? then n.width else 1;
      assert (a + b)[k..] == a[k..] + b;
      LexWithAppend(next, a[k..], b);
      var x := LexWith(next, a[k..]).value;
      LexStep(next, a, k, Some(x));
      LexStep(next, a + b, k, Some(x + y));
      if n.Emit? {
        PushAppend(n.token, x, y);
      }
    }
  }

  /** A closing parenthesis ends every token, so lexing splits there. */
  lemma {:induction false} LexAppend(a: string, b: string)
    requires Lex(a).Some? && Lex(b).Some?
    requires b != [] && b[0] == ')'
    ensures Lex(a + b) == Some(Lex(a).value + Lex(b).value)
  {
    forall x
      ensures Settled(Next, x, b)
    {
      if x != [] && !Next(x).Stuck? {
        NextAppend(x, b);
      }
    }
    LexWithAppend(Next, a, b);
  }

  ghost predicate EndsGroup(u: seq<Token>) {
    u != [] && u[0].RParen?
  }

  lemma {:induction false} PathTailFrame(names: seq<string>, t: seq<Token>, u: seq<Token>)
    requires EndsGroup(u)
    requires PathTail(names, t).Path?
    ensures PathTail(names, t + u) == Path(PathTail(names, t).names, PathTail(names, t).rest + u)
    decreases |t|
  {
    if t != [] && t[0].Dot? {
      assert (t + u)[2..] == t[2..] + u;
      PathTailFrame(names + [t[1].name], t[2..], u);
    }
  }

  lemma {:induction false} ComparisonFrame(t: seq<Token>, u: seq<Token>)
    requires EndsGroup(u)
    requires ParseComparison(t).Good?
    ensures ParseComparison(t + u) == Good(ParseComparison(t).node, ParseComparison(t).rest + u)
  {
    assert (t + u)[1..] == t[1..] + u;
    PathTailFrame([t[0].name], t[1..], u);
    var rest := PathTail([t[0].name], t[1..]).rest;
    assert (rest + u)[2..] == rest[2..] + u;
  }

  /** What a nonterminal consumes does not change when a closing parenthesis follows. */
  lemma {:induction false} OrFrame(t: seq<Token>, u: seq<Token>)
    requires EndsGroup(u)
    requires ParseOr(t).Good?
    ensures ParseOr(t + u) == Good(ParseOr(t).node, ParseOr(t).rest + u)
    decreases |t|, 5
  {
    AndFrame(t, u);
    var p := ParseAnd(t);
    OrTailFrame(p.node, p.rest, u);
  }

  lemma {:induction false} OrTailFrame(l: Formula, t: seq<Token>, u: seq<Token>)
    requires EndsGroup(u)
    requires OrTail(l, t).Good?
    ensures OrTail(l, t + u) == Good(OrTail(l, t).node, OrTail(l, t).rest + u)
    decreases |t|, 4
  {
    if AtKeyword(t, "or") {
      assert (t + u)[1..] == t[1..] + u;
      AndFrame(t[1..], u);
      var p := ParseAnd(t[1..]);
      OrTailFrame(Or(l, p.node), p.rest, u);
    }
  }

  lemma {:induction false} AndFrame(t: seq<Token>, u: seq<Token>)
    requires EndsGroup(u)
    requires ParseAnd(t).Good?
    ensures ParseAnd(t + u) == Good(ParseAnd(t).node, ParseAnd(t).rest + u)
    decreases |t|, 3
  {
    NotFrame(t, u);
    var p := ParseNot(t);
    AndTailFrame(p.node, p.rest, u);
  }

  lemma {:induction false} AndTailFrame(l: Formula, t: seq<Token>, u: seq<Token>)
    requires EndsGroup(u)
    requires AndTail(l, t).Good?
    ensures AndTail(l, t + u) == Good(AndTail(l, t).node, AndTail(l, t).rest + u)
    decreases |t|, 2
  {
    if AtKeyword(t, "and") {
      assert (t + u)[1..] == t[1..] + u;
      NotFrame(t[1..], u);
      var p := ParseNot(t[1..]);
      AndTailFrame(And(l, p.node), p.rest, u);
    }
  }

  lemma {:induction false} NotFrame(t: seq<Token>, u: seq<Token>)
    requires EndsGroup(u)
    requires ParseNot(t).Good?
    ensures ParseNot(t + u) == Good(ParseNot(t).node, ParseNot(t).rest + u)
    decreases |t|, 1
  {
    if AtKeyword(t, "not") {
      assert (t + u)[1..] == t[1..] + u;
      NotFrame(t[1..], u);
    } else {
      AtomFrame(t, u);
    }
  }

  lemma {:induction false} AtomFrame(t: seq<Token>, u: seq<Token>)
    requires EndsGroup(u)
    requires ParseAtom(t).Good?
    ensures ParseAtom(t + u) == Good(ParseAtom(t).node, ParseAtom(t).rest + u)
    decreases |t|, 0
  {
    if t != [] && t[0].LParen? {
      assert (t + u)[1..] == t[1..] + u;
      OrFrame(t[1..], u);
      var p := ParseOr(t[1..]);
      assert (p.rest + u)[1..] == p.rest[1..] + u;
    } else {
      ComparisonFrame(t, u);
    }
  }

  /** A parenthesised expression is an atom, whatever its own top-level operator is. */
  lemma {:induction false} AtomOfGroup(t: seq<Token>, u: seq<Token>)
    requires ParseOr(t).Good? && ParseOr(t).rest == []
    ensures ParseNot([LParen] + t + [RParen] + u) == Good(ParseOr(t).node, u)
  {
    OrFrame(t, [RParen] + u);
    var g := [LParen] + t + [RParen] + u;
    assert g[1..] == t + ([RParen] + u);
    assert ([] + ([RParen] + u)) == [RParen] + u;
    assert ([RParen] + u)[1..] == u;
  }

  /** Lexing one leading character that is a token, or a blank, by itself. */
  lemma {:induction false} LexHead(c: char, s: string)
    ensures c == '(' ==> Lex([c] + s) == Push(LParen, Lex(s))
    ensures c == ')' ==> Lex([c] + s) == Push(RParen, Lex(s))
    ensures c == ' ' ==> Lex([c] + s) == Lex(s)
  {
    assert ([c] + s)[1..] == s;
  }

  lemma {:induction false} LexGroup(a: string, rest: string)
    requires Lex(a).Some? && Lex(rest).Some?
    ensures Lex(['('] + (a + ([')'] + rest))) == Some([LParen] + Lex(a).value + [RParen] + Lex(rest).value)
  {
    LexHead(')', rest);
    LexAppend(a, [')'] + rest);
    LexHead('(', a + ([')'] + rest));
    assert [LParen] + (Lex(a).value + ([RParen] + Lex(rest).value))
        == [LParen] + Lex(a).value + [RParen] + Lex(rest).value;
  }

  lemma {:induction false} LexAnd(s: string)
    requires Lex(s).Some?
    ensures Lex(['a', 'n', 'd', ' '] + s) == Some([Ident("and")] + Lex(s).value)
  {
    var a := ['a', 'n', 'd', ' '] + s;
    assert IdentEnd(a, 3) == 3;
    assert IdentEnd(a, 2) == 3;
    assert IdentEnd(a, 1) == 3;
    assert a[..3] == ['a', 'n', 'd'];
    assert Next(a) == Emit(Ident("and"), 3);
    assert a[3..] == [' '] + s;
    LexHead(' ', s);
  }

  lemma {:induction false} LexAndGroup(b: string)
    requires Lex(b).Some?
    ensures Lex([' '] + (['a', 'n', 'd', ' '] + (['('] + (b + ([')'] + [])))))
         == Some([Ident("and"), LParen] + Lex(b).value + [RParen])
  {
    LexGroup(b, []);
    var g := ['('] + (b + ([')'] + []));
    LexAnd(g);
    LexHead(' ', ['a', 'n', 'd', ' '] + g);
    assert [Ident("and")] + ([LParen] + Lex(b).value + [RParen] + [])
        == [Ident("and"), LParen] + Lex(b).value + [RParen];
  }

  lemma {:induction false} ParseConjunctionTokens(ta: seq<Token>, tb: seq<Token>)
    requires ParseOr(ta).Good? && ParseOr(ta).rest == []
    requires ParseOr(tb).Good? && ParseOr(tb).rest == []
    ensures ParseOr([LParen] + ta + [RParen] + ([Ident("and"), LParen] + tb + [RParen]))
         == Good(And(ParseOr(ta).node, ParseOr(tb).node), [])
  {
    var u := [Ident("and"), LParen] + tb + [RParen];
    var t := [LParen] + ta + [RParen] + u;
    var na, nb := ParseOr(ta).node, ParseOr(tb).node;
    AtomOfGroup(ta, u);
    AtomOfGroup(tb, []);
    assert u[1..] == [LParen] + tb + [RParen] + [];
    assert AndTail(And(na, nb), []) == Good(And(na, nb), []);
    assert AtKeyword(u, "and");
    assert AndTail(na, u) == Good(And(na, nb), []);
  }

  lemma {:induction false} ConjoinShape(a: string, b: string)
    ensures Conjoin(a, b)
         == ['('] + (a + ([')'] + ([' '] + (['a', 'n', 'd', ' '] + (['('] + (b + ([')'] + [])))))))
  {
    var mid := ") and (";
    assert mid == [')', ' ', 'a', 'n', 'd', ' ', '('];
  }

  /** The text "(a) and (b)" parses to the conjunction of what a and b parse to. */
  lemma {:induction false} ParseConjunction(a: string, b: string)
    requires ParseExpr(a).Some? && ParseExpr(b).Some?
    ensures ParseExpr(Conjoin(a, b))
         == Some(And(ParseExpr(a).value, ParseExpr(b).value))
  {
    var tail := [' '] + (['a', 'n', 'd', ' '] + (['('] + (b + ([')'] + []))));
    LexAndGroup(b);
    LexGroup(a, tail);
    ConjoinShape(a, b);
    ParseConjunctionTokens(Lex(a).value, Lex(b).value);
  }

  lemma {:induction false} LexedIsNotWrapped(s: string)
    requires Lex(s).Some?
    ensures s == [] || s[0] != '$'
  {
  }

  lemma {:induction false} StripUnwrapped(s: string)
    requires TrimSpace(s) == s
    requires s == [] || s[0] != '$'
    ensures StripDelimiters(s) == s
  {
    assert !IsWrapped(s) by {
      if |s| >= 3 {
        assert s[..3][0] == s[0];
      }
    }
  }

  lemma {:induction false} StripParsed(s: string)
    requires TrimSpace(s) == s
    requires ParseExpr(s).Some?
    ensures StripDelimiters(s) == s
  {
    LexedIsNotWrapped(s);
    StripUnwrapped(s);
  }

  /** A condition as the lowering pass keeps it: trimmed, and empty or parseable. */
  predicate CleanCond(c: string) {
    TrimSpace(c) == c && (c == "" || ParseExpr(c).Some?)
  }

  lemma {:induction false} ComposeCondClean(a: string, b: string)
    requires CleanCond(a) && CleanCond(b)
    ensures CleanCond(ComposeCond(a, b))
    ensures a == "" ==> ComposeCond(a, b) == b
    ensures b == "" ==> ComposeCond(a, b) == a
    ensures a != "" && b != "" ==>
              && ComposeCond(a, b) != ""
              && ParseExpr(ComposeCond(a, b)) == Some(And(ParseExpr(a).value, ParseExpr(b).value))
  {
    if a != "" && b != "" {
      ParseConjunction(a, b);
      TrimSpaceFixed(Conjoin(a, b));
    }
  }

  lemma {:induction false} EvalClean<W>(c: string, atom: (Formula, W) -> Verdict, w: W)
    requires CleanCond(c) && c != ""
    ensures EvalCond(c, atom, w) == Eval(ParseExpr(c).value, atom, w)
  {
    StripParsed(c);
  }

  function AndThen(a: Verdict, b: Verdict): (r: Verdict) {
    match a
    case Error => Error
    case False => False
    case True => b
  }

  /**
   The condition the lowering pass builds for a guarded child means: the inherited
   condition first, and only if it holds the child's own guard. An empty text is
   the guard that always holds.
   */
  lemma {:induction false} ComposeCondMeaning<W>(a: string, b: string, atom: (Formula, W) -> Verdict, w: W)
    requires CleanCond(a) && CleanCond(b)
    ensures EvalCond(ComposeCond(a, b), atom, w)
         == AndThen(EvalCond(a, atom, w), EvalCond(b, atom, w))
  {
    ComposeCondClean(a, b);
    if a != "" && b != "" {
      EvalClean(ComposeCond(a, b), atom, w);
      EvalClean(a, atom, w);
      EvalClean(b, atom, w);
    }
  }
}
