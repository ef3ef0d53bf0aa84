/**
 Expressions as text. A formula is printed with no more parentheses than precedence and the
 grouping to the left demand, and lexing and parsing the text gives the formula back.
 */
module Printing {
  import opened Wrappers
  import opened Expr
  import Text

  const KEYWORDS := {"or", "and", "not", "contains", "matches"}

  // ---------- formulas as tokens ----------

  function DottedTail(names: seq<string>): (r: seq<Token>) {
    if names == [] then [] else [Dot, Ident(names[0])] + DottedTail(names[1..])
  }

  function OperatorToken(op: string): (t: Token) {
    if op == "==" then Eq else if op == "!=" then Neq else Ident(op)
  }

  function CmpTokens(path: seq<string>, op: string, operand: string, isNumber: bool): (r: seq<Token>)
    requires path != []
  {
    [Ident(path[0])] + (DottedTail(path[1..]) + [OperatorToken(op), if isNumber then Num(operand) else Str(operand)])
  }

  /** Comparisons as the parser makes them: an accessor that is no keyword, and a known operator. */
  predicate Proper(e: Formula) {
    match e
    case Or(l, r) => Proper(l) && Proper(r)
    case And(l, r) => Proper(l) && Proper(r)
    case Not(x) => Proper(x)
    case Cmp(path, op, _, _) => path != [] && path[0] !in KEYWORDS && op in {"==", "!=", "contains", "matches"}
  }

  /** An operand of `or`: a disjunction may stand on its left without parentheses. */
  function OrTokens(e: Formula): (r: seq<Token>)
    requires Proper(e)
    decreases e, 2
  {
    if e.Or? then OrTokens(e.l) + [Ident("or")] + AndTokens(e.r) else AndTokens(e)
  }

  function AndTokens(e: Formula): (r: seq<Token>)
    requires Proper(e)
    decreases e, 1
  {
    if e.And? then AndTokens(e.l) + [Ident("and")] + NotTokens(e.r) else NotTokens(e)
  }

  function NotTokens(e: Formula): (r: seq<Token>)
    requires Proper(e)
    decreases e, 0
  {
    match e
    case Not(x) => [Ident("not")] + NotTokens(x)
    case Cmp(path, op, operand, isNumber) => CmpTokens(path, op, operand, isNumber)
    case Or(l, r) => [LParen] + (OrTokens(l) + [Ident("or")] + AndTokens(r)) + [RParen]
    case And(l, r) => [LParen] + (AndTokens(l) + [Ident("and")] + NotTokens(r)) + [RParen]
  }

  // ---------- and back ----------

  lemma {:induction false} TailParses(names: seq<string>, more: seq<string>, u: seq<Token>)
    requires u == [] || !u[0].Dot?
    ensures PathTail(names, DottedTail(more) + u) == Path(names + more, u)
    decreases |more|
  {
    if more == [] {
      assert DottedTail(more) + u == u && names + more == names;
    } else {
      var t := DottedTail(more) + u;
      assert t[0] == Dot && t[1] == Ident(more[0]);
      assert t[2..] == DottedTail(more[1..]) + u;
      TailParses(names + [more[0]], more[1..], u);
      assert names + [more[0]] + more[1..] == names + more;
    }
  }

  lemma {:induction false} OperandParses(path: seq<string>, op: string, operand: string, isNumber: bool, u: seq<Token>, t: seq<Token>)
    requires t != [] && t[0].Ident? && op in {"==", "!=", "contains", "matches"}
    requires PathTail([t[0].name], t[1..]) ==
             Path(path, [OperatorToken(op), if isNumber then Num(operand) else Str(operand)] + u)
    ensures ParseComparison(t) == Good(Cmp(path, op, operand, isNumber), u)
  {
    var rest := [OperatorToken(op), if isNumber then Num(operand) else Str(operand)] + u;
    assert rest[2..] == u && Operator(rest) == Some(op);
  }

  lemma {:induction false} CmpParses(path: seq<string>, op: string, operand: string, isNumber: bool, u: seq<Token>)
    requires path != [] && op in {"==", "!=", "contains", "matches"}
    ensures ParseComparison(CmpTokens(path, op, operand, isNumber) + u) == Good(Cmp(path, op, operand, isNumber), u)
  {
    var end := [OperatorToken(op), if isNumber then Num(operand) else Str(operand)];
    var t := CmpTokens(path, op, operand, isNumber) + u;
    assert t[0] == Ident(path[0]);
    assert t[1..] == DottedTail(path[1..]) + (end + u);
    TailParses([path[0]], path[1..], end + u);
    assert [path[0]] + path[1..] == path;
    OperandParses(path, op, operand, isNumber, u, t);
  }

  lemma {:induction false} OrParses(e: Formula, u: seq<Token>)
    requires Proper(e) && (u == [] || (!u[0].Dot? && u[0] != Ident("and")))
    ensures ParseOr(OrTokens(e) + u) == OrTail(e, u)
    decreases e, 3
  {
    if e.Or? {
      var v := [Ident("or")] + (AndTokens(e.r) + u);
      assert OrTokens(e) + u == OrTokens(e.l) + v;
      OrParses(e.l, v);
      assert v[1..] == AndTokens(e.r) + u;
      AndParses(e.r, u);
    } else {
      AndParses(e, u);
    }
  }

  lemma {:induction false} AndParses(e: Formula, u: seq<Token>)
    requires Proper(e) && (u == [] || !u[0].Dot?)
    ensures ParseAnd(AndTokens(e) + u) == AndTail(e, u)
    decreases e, 2
  {
    if e.And? {
      var v := [Ident("and")] + (NotTokens(e.r) + u);
      assert AndTokens(e) + u == AndTokens(e.l) + v;
      AndParses(e.l, v);
      assert v[1..] == NotTokens(e.r) + u;
      NotParses(e.r, u);
    } else {
      NotParses(e, u);
    }
  }

  lemma {:induction false} GroupParses(inner: seq<Token>, e: Formula, u: seq<Token>)
    requires ParseOr(inner + ([RParen] + u)) == Good(e, [RParen] + u)
    ensures ParseNot([LParen] + inner + [RParen] + u) == Good(e, u)
  {
    var t := [LParen] + inner + [RParen] + u;
    assert t[1..] == inner + ([RParen] + u);
    assert ([RParen] + u)[1..] == u;
  }

  lemma {:induction false} DenialParses(x: Formula, t: seq<Token>, u: seq<Token>)
    requires ParseNot(t + u) == Good(x, u)
    ensures ParseNot([Ident("not")] + t + u) == Good(Not(x), u)
  {
    assert ([Ident("not")] + t + u)[1..] == t + u;
  }

  lemma {:induction false} AccessorParses(path: seq<string>, op: string, operand: string, isNumber: bool, u: seq<Token>)
    requires path != [] && path[0] !in KEYWORDS && op in {"==", "!=", "contains", "matches"}
    ensures ParseNot(CmpTokens(path, op, operand, isNumber) + u) == Good(Cmp(path, op, operand, isNumber), u)
  {
    CmpParses(path, op, operand, isNumber, u);
    assert (CmpTokens(path, op, operand, isNumber) + u)[0] == Ident(path[0]);
  }

  lemma {:induction false} NotParses(e: Formula, u: seq<Token>)
    requires Proper(e) && (u == [] || !u[0].Dot?)
    ensures ParseNot(NotTokens(e) + u) == Good(e, u)
    decreases e, 1
  {
    match e
    case Not(x) =>
      NotParses(x, u);
      DenialParses(x, NotTokens(x), u);
    case Cmp(path, op, operand, isNumber) => AccessorParses(path, op, operand, isNumber, u);
    case Or(l, r) =>
      OrGroupParses(e, [RParen] + u);
      GroupParses(OrTokens(l) + [Ident("or")] + AndTokens(r), e, u);
    case And(l, r) =>
      AndGroupParses(e, [RParen] + u);
      GroupParses(AndTokens(l) + [Ident("and")] + NotTokens(r), e, u);
  }

  lemma {:induction false} OrGroupParses(e: Formula, end: seq<Token>)
    requires e.Or? && Proper(e) && end != [] && end[0] == RParen
    ensures ParseOr(OrTokens(e.l) + [Ident("or")] + AndTokens(e.r) + end) == Good(e, end)
    decreases e, 0
  {
    var l, r := e.l, e.r;
    var v := [Ident("or")] + (AndTokens(r) + end);
    assert OrTokens(l) + [Ident("or")] + AndTokens(r) + end == OrTokens(l) + v;
    OrParses(l, v);
    assert v[1..] == AndTokens(r) + end;
    AndParses(r, end);
    assert AndTail(r, end) == Good(r, end);
    assert OrTail(e, end) == Good(e, end);
  }

  lemma {:induction false} AndGroupParses(e: Formula, end: seq<Token>)
    requires e.And? && Proper(e) && end != [] && end[0] == RParen
    ensures ParseOr(AndTokens(e.l) + [Ident("and")] + NotTokens(e.r) + end) == Good(e, end)
    decreases e, 0
  {
    var l, r := e.l, e.r;
    var v := [Ident("and")] + (NotTokens(r) + end);
    assert AndTokens(l) + [Ident("and")] + NotTokens(r) + end == AndTokens(l) + v;
    AndParses(l, v);
    assert v[1..] == NotTokens(r) + end;
    NotParses(r, end);
    assert AndTail(e, end) == Good(e, end);
    assert OrTail(e, end) == Good(e, end);
  }

  // ---------- tokens as text ----------

  predicate IsName(s: string) {
    s != [] && IsIdentStart(s[0]) && forall i :: 0 <= i < |s| ==> IsIdentChar(s[i])
  }

  predicate IsNumber(s: string) {
    && s != [] && (IsDigit(s[0]) || (s[0] == '-' && |s| > 1 && IsDigit(s[1])))
    && forall i :: 1 <= i < |s| ==> IsDigit(s[i]) || s[i] == '.'
  }

  /** A token that has a text: a name, a number, or a string without double quotes. */
  predicate Spelled(t: Token) {
    match t
    case Ident(name) => IsName(name)
    case Num(digits) => IsNumber(digits)
    case Str(text) => '\"' !in text
    case _ => true
  }

  function Spell(t: Token): (s: string) {
    match t
    case Ident(name) => name
    case Num(digits) => digits
    case Str(text) => ['\"'] + text + ['\"']
    case Dot => ['.']
    case LParen => ['(']
    case RParen => [')']
    case Eq => ['=', '=']
    case Neq => ['!', '=']
  }

  /** The tokens, each followed by a blank. */
  function SpellAll(ts: seq<Token>): (s: string) {
    if ts == [] then [] else Spell(ts[0]) + ([' '] + SpellAll(ts[1..]))
  }

  lemma {:induction false} NameEnds(s: string, rest: string, i: nat)
    requires i <= |s| && (forall k :: 0 <= k < |s| ==> IsIdentChar(s[k])) && (rest == [] || !IsIdentChar(rest[0]))
    ensures IdentEnd(s + rest, i) == |s|
    decreases |s| - i
  {
    if i < |s| {
      NameEnds(s, rest, i + 1);
    }
  }

  lemma {:induction false} NumberEnds(s: string, rest: string, i: nat)
    requires 1 <= i <= |s| && (forall k :: 1 <= k < |s| ==> IsDigit(s[k]) || s[k] == '.')
    requires rest == [] || !(IsDigit(rest[0]) || rest[0] == '.')
    ensures NumberEnd(s + rest, i) == |s|
    decreases |s| - i
  {
    if i < |s| {
      NumberEnds(s, rest, i + 1);
    }
  }

  lemma {:induction false} QuoteEnds(text: string, q: char, rest: string, i: nat)
    requires 1 <= i <= |text| + 1 && q !in text
    ensures QuoteEnd([q] + text + [q] + rest, i, q) == |text| + 1
    decreases |text| + 1 - i
  {
    var s := [q] + text + [q] + rest;
    if i < |text| + 1 {
      assert s[i] == text[i - 1] && text[i - 1] in text;
      QuoteEnds(text, q, rest, i + 1);
    } else {
      assert s[i] == q;
    }
  }

  /** What may follow a token without changing it. */
  predicate Ends(t: Token, rest: string) {
    match t
    case Ident(_) => rest == [] || !IsIdentChar(rest[0])
    case Num(_) => rest == [] || !(IsDigit(rest[0]) || rest[0] == '.')
    case _ => true
  }

  lemma {:induction false} ScansQuoted(text: string, q: char, rest: string)
    requires (q == '\"' || q == '\'') && q !in text
    ensures Next([q] + text + [q] + rest) == Emit(Str(text), |text| + 2)
  {
    var s := [q] + text + [q] + rest;
    QuoteEnds(text, q, rest, 1);
    assert s[0] == q && s[1..|text| + 1] == text;
  }

  lemma {:induction false} ScansName(name: string, rest: string)
    requires IsName(name) && (rest == [] || !IsIdentChar(rest[0]))
    ensures Next(name + rest) == Emit(Ident(name), |name|)
  {
    NameEnds(name, rest, 1);
    assert (name + rest)[..|name|] == name && (name + rest)[0] == name[0];
  }

  lemma {:induction false} ScansNumber(digits: string, rest: string)
    requires IsNumber(digits) && (rest == [] || !(IsDigit(rest[0]) || rest[0] == '.'))
    ensures Next(digits + rest) == Emit(Num(digits), |digits|)
  {
    NumberEnds(digits, rest, 1);
    assert (digits + rest)[..|digits|] == digits && (digits + rest)[0] == digits[0];
    assert |digits| > 1 ==> (digits + rest)[1] == digits[1];
  }

  /** The lexer reads a spelled token back. */
  lemma {:induction false} ScansBack(t: Token, rest: string)
    requires Spelled(t) && Ends(t, rest)
    ensures Next(Spell(t) + rest) == Emit(t, |Spell(t)|)
  {
    match t
    case Ident(name) => ScansName(name, rest);
    case Num(digits) => ScansNumber(digits, rest);
    case Str(text) => ScansQuoted(text, '\"', rest);
    case _ =>
  }

  lemma {:induction false} LexNext(t: Token, text: string, rest: string)
    requires text != [] && Next(text + rest) == Emit(t, |text|)
    ensures Lex(text + rest) == Push(t, Lex(rest))
  {
    assert (text + rest)[|text|..] == rest;
  }

  lemma {:induction false} LexesBack(ts: seq<Token>)
    requires forall t :: t in ts ==> Spelled(t)
    ensures Lex(SpellAll(ts)) == Some(ts)
  {
    if ts != [] {
      var t, rest := ts[0], [' '] + SpellAll(ts[1..]);
      assert t in ts && Spelled(t);
      LexesBack(ts[1..]);
      ScansBack(t, rest);
      LexNext(t, Spell(t), rest);
      LexHead(' ', SpellAll(ts[1..]));
      assert [t] + ts[1..] == ts;
    }
  }

  // ---------- the round trip ----------

  predicate Writable(e: Formula) {
    match e
    case Or(l, r) => Writable(l) && Writable(r)
    case And(l, r) => Writable(l) && Writable(r)
    case Not(x) => Writable(x)
    case Cmp(path, op, operand, isNumber) =>
      && path != [] && path[0] !in KEYWORDS && (forall i :: 0 <= i < |path| ==> IsName(path[i]))
      && op in {"==", "!=", "contains", "matches"}
      && (if isNumber then IsNumber(operand) else '\"' !in operand)
  }

  predicate AllSpelled(ts: seq<Token>) {
    forall i :: 0 <= i < |ts| ==> Spelled(ts[i])
  }

  lemma {:induction false} SpelledJoin(a: seq<Token>, b: seq<Token>)
    requires AllSpelled(a) && AllSpelled(b)
    ensures AllSpelled(a + b)
  {
  }

  lemma {:induction false} WordsSpelled()
    ensures forall w :: w in KEYWORDS ==> IsName(w)
  {
    forall w | w in KEYWORDS
      ensures IsName(w)
    {
      assert w == ['o', 'r'] || w == ['a', 'n', 'd'] || w == ['n', 'o', 't'] || w == ['c', 'o', 'n', 't', 'a', 'i', 'n', 's']
          || w == ['m', 'a', 't', 'c', 'h', 'e', 's'];
    }
  }

  lemma {:induction false} TailSpelled(names: seq<string>)
    requires forall i :: 0 <= i < |names| ==> IsName(names[i])
    ensures AllSpelled(DottedTail(names))
  {
    if names != [] {
      TailSpelled(names[1..]);
      SpelledJoin([Dot, Ident(names[0])], DottedTail(names[1..]));
    }
  }

  lemma {:induction false} CmpSpelled(e: Formula)
    requires e.Cmp? && Writable(e)
    ensures AllSpelled(CmpTokens(e.path, e.op, e.operand, e.isNumber))
  {
    var end := [OperatorToken(e.op), if e.isNumber then Num(e.operand) else Str(e.operand)];
    WordsSpelled();
    TailSpelled(e.path[1..]);
    assert e.op == "==" || e.op == "!=" || e.op in KEYWORDS;
    SpelledJoin(DottedTail(e.path[1..]), end);
    SpelledJoin([Ident(e.path[0])], DottedTail(e.path[1..]) + end);
  }

  lemma {:induction false} WordSpelled(w: string)
    requires w in KEYWORDS
    ensures AllSpelled([Ident(w)])
  {
    WordsSpelled();
  }

  lemma {:induction false} BetweenSpelled(a: seq<Token>, w: string, b: seq<Token>)
    requires AllSpelled(a) && w in KEYWORDS && AllSpelled(b)
    ensures AllSpelled(a + [Ident(w)] + b) && AllSpelled([LParen] + (a + [Ident(w)] + b) + [RParen])
  {
    WordSpelled(w);
    SpelledJoin(a, [Ident(w)]);
    SpelledJoin(a + [Ident(w)], b);
    SpelledJoin([LParen], a + [Ident(w)] + b);
    SpelledJoin([LParen] + (a + [Ident(w)] + b), [RParen]);
  }

  lemma {:induction false} DenialSpelled(b: seq<Token>)
    requires AllSpelled(b)
    ensures AllSpelled([Ident("not")] + b)
  {
    WordSpelled("not");
    SpelledJoin([Ident("not")], b);
  }

  lemma {:induction false} PrintedSpelled(e: Formula)
    requires Writable(e)
    ensures Proper(e) && AllSpelled(OrTokens(e)) && AllSpelled(AndTokens(e)) && AllSpelled(NotTokens(e))
  {
    match e
    case Cmp(_, _, _, _) =>
      CmpSpelled(e);
      assert AndTokens(e) == NotTokens(e) && OrTokens(e) == AndTokens(e);
    case Not(x) =>
      PrintedSpelled(x);
      DenialSpelled(NotTokens(x));
      assert AndTokens(e) == NotTokens(e) && OrTokens(e) == AndTokens(e);
    case Or(l, r) =>
      PrintedSpelled(l);
      PrintedSpelled(r);
      BetweenSpelled(OrTokens(l), "or", AndTokens(r));
    case And(l, r) =>
      PrintedSpelled(l);
      PrintedSpelled(r);
      BetweenSpelled(AndTokens(l), "and", NotTokens(r));
  }

  /** The text of a formula. */
  function Write(e: Formula): (s: string)
    requires Proper(e)
  {
    SpellAll(OrTokens(e))
  }

  /** Every formula is the reading of its text: `not` binds tighter than `and`, `and` than `or`, and both group to the left. */
  lemma {:induction false} ParsesBack(e: Formula)
    requires Writable(e)
    ensures Proper(e) && ParseExpr(Write(e)) == Some(e)
  {
    PrintedSpelled(e);
    LexesBack(OrTokens(e));
    OrParses(e, []);
    assert OrTokens(e) + [] == OrTokens(e);
  }

  // ---------- the wrapper ----------

  /** An expression may be wrapped in ${{ }}; without a wrapper it is itself. */
  lemma {:induction false} WrapperIsOptional(e: string)
    requires e != [] && !Text.IsSpace(e[0]) && !Text.IsSpace(e[|e| - 1]) && e[0] != '$'
    ensures StripDelimiters(e) == e
    ensures StripDelimiters(['$', '{', '{', ' '] + e + [' ', '}', '}']) == e
  {
    Text.TrimSpaceFixed(e);
    StripUnwrapped(e);
    var s := ['$', '{', '{', ' '] + e + [' ', '}', '}'];
    Text.TrimSpaceFixed(s);
    assert s[..3] == ['$', '{', '{'] && s[|s| - 2..] == ['}', '}'];
    assert IsWrapped(s);
    var inner := s[3..|s| - 2];
    assert inner == [' '] + e + [' '];
    TrimmedBoth(e);
  }

  lemma {:induction false} TrimmedBoth(e: string)
    requires e != [] && !Text.IsSpace(e[0]) && !Text.IsSpace(e[|e| - 1])
    ensures Text.TrimSpace([' '] + e + [' ']) == e
  {
    var s := [' '] + e + [' '];
    assert s[1..] == e + [' '];
    assert Text.TrimLeft(e + [' ']) == e + [' '];
    assert Text.TrimLeft(s) == e + [' '];
    assert (e + [' '])[..|e|] == e;
    assert Text.TrimRight(e) == e;
    assert Text.TrimRight(e + [' ']) == e;
  }

  // ---------- evaluation ----------

  /** Conjunction holds when both sides do, fails first where the left fails, and stops there. */
  lemma {:induction false} AndMeans<W>(l: Formula, r: Formula, atom: (Formula, W) -> Verdict, w: W)
    ensures var v, a, b := Eval(And(l, r), atom, w), Eval(l, atom, w), Eval(r, atom, w);
            && (v == True <==> a == True && b == True)
            && (v == Error <==> a == Error || (a == True && b == Error))
  {
  }

  /** Disjunction is conjunction of the denials, denied. */
  lemma {:induction false} OrMeans<W>(l: Formula, r: Formula, atom: (Formula, W) -> Verdict, w: W)
    ensures Eval(Or(l, r), atom, w) == Eval(Not(And(Not(l), Not(r))), atom, w)
    ensures Eval(Not(Not(l)), atom, w) == Eval(l, atom, w)
    ensures Eval(Not(l), atom, w) == True <==> Eval(l, atom, w) == False
  {
    var a, b := Eval(Not(l), atom, w), Eval(Not(r), atom, w);
    assert Eval(And(Not(l), Not(r)), atom, w) == AndThen(a, b);
  }
}
