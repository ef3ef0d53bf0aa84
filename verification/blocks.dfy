/**
 Editing keys in the blocks of a list of lines. A block belongs to a header line and lasts
 while lines are blank or indented deeper; a key is set on its first line in the block, or
 inserted where the deeper lines end. Lines are abstract here; yamledit.dfy makes them texts.
 */
module Blocks {
  import opened Wrappers

  /** What the editor can tell about a line, and how it writes one. */
  datatype View<!L, !K, !A> = View(
    indent: L -> nat,
    blank: L -> bool,
    has: (L, K) -> bool,
    heads: (L, A) -> bool,
    write: (L, string) -> L,
    make: (nat, K, string) -> L)

  /** A line that holds key k with value x, and nothing else. */
  ghost predicate Holds<L(!new), K(!new), A(!new)>(v: View<L, K, A>, l: L, k: K, x: string) {
    && v.has(l, k) && !v.blank(l) && v.write(l, x) == l
    && (forall j :: v.has(l, j) ==> j == k) && (forall a :: !v.heads(l, a))
  }

  ghost predicate SetLaw<L(!new), K(!new), A(!new)>(v: View<L, K, A>, l: L, k: K, x: string) {
    v.has(l, k) ==> Holds(v, v.write(l, x), k, x) && v.indent(v.write(l, x)) == v.indent(l)
  }

  ghost predicate FreshLaw<L(!new), K(!new), A(!new)>(v: View<L, K, A>, n: nat, k: K, x: string) {
    Holds(v, v.make(n, k, x), k, x) && v.indent(v.make(n, k, x)) > n
  }

  ghost predicate KindLaw<L(!new), K(!new), A(!new)>(v: View<L, K, A>, l: L) {
    && (forall k :: v.has(l, k) ==> !v.blank(l))
    && (forall k, j :: v.has(l, k) && v.has(l, j) ==> k == j)
    && (forall a :: v.heads(l, a) ==> !v.blank(l))
    && (forall a, k :: v.heads(l, a) ==> !v.has(l, k))
    && (forall a, b :: v.heads(l, a) && v.heads(l, b) ==> a == b)
  }

  ghost predicate Lawful<L(!new), K(!new), A(!new)>(v: View<L, K, A>) {
    && (forall l, k, x :: SetLaw(v, l, k, x))
    && (forall n, k, x :: FreshLaw(v, n, k, x))
    && (forall l :: KindLaw(v, l))
  }

  // ---------- searching ----------

  /** The first line with the property, or |s|. */
  function First<L>(s: seq<L>, p: L -> bool): (i: nat)
    ensures i <= |s|
    ensures i < |s| ==> p(s[i])
    ensures forall j :: 0 <= j < i ==> !p(s[j])
  {
    if s == [] then 0 else if p(s[0]) then 0 else 1 + First(s[1..], p)
  }

  lemma {:induction false} FirstIs<L>(s: seq<L>, p: L -> bool, i: nat)
    requires i <= |s| && (i < |s| ==> p(s[i])) && forall j :: 0 <= j < i ==> !p(s[j])
    ensures First(s, p) == i
  {
  }

  /** findAgentBlock. */
  function HeaderOf<L, K, A>(v: View<L, K, A>, a: A, lines: seq<L>): (h: nat)
    ensures h <= |lines| && (h < |lines| ==> v.heads(lines[h], a))
  {
    First(lines, (l: L) => v.heads(l, a))
  }

  predicate Leaves<L, K, A>(v: View<L, K, A>, n: nat, l: L) {
    v.indent(l) <= n && !v.blank(l)
  }

  /** How many lines after a header of indent n belong to its block. */
  function Span<L, K, A>(v: View<L, K, A>, n: nat, rest: seq<L>): (m: nat)
    ensures m <= |rest|
  {
    First(rest, (l: L) => Leaves(v, n, l))
  }

  /** findKeyInBlock: the first line of the block with the key, or the length of the block. */
  function KeyIn<L, K, A>(v: View<L, K, A>, n: nat, k: K, rest: seq<L>): (o: nat)
    ensures o <= Span(v, n, rest)
    ensures o < Span(v, n, rest) ==> v.has(rest[o], k)
    ensures forall j :: 0 <= j < o ==> !v.has(rest[j], k)
  {
    First(rest[..Span(v, n, rest)], (l: L) => v.has(l, k))
  }

  /** Where a missing key is inserted: after the lines that are indented deeper. */
  function Reach<L, K, A>(v: View<L, K, A>, n: nat, rest: seq<L>): (m: nat)
    ensures m <= Span(v, n, rest)
  {
    var m := First(rest, (l: L) => v.indent(l) <= n);
    m
  }

  lemma {:induction false} KeyInIs<L, K, A>(v: View<L, K, A>, n: nat, k: K, rest: seq<L>, o: nat)
    requires o <= Span(v, n, rest) && (o < Span(v, n, rest) ==> v.has(rest[o], k))
    requires forall j :: 0 <= j < o ==> !v.has(rest[j], k)
    ensures KeyIn(v, n, k, rest) == o
  {
    FirstIs(rest[..Span(v, n, rest)], (l: L) => v.has(l, k), o);
  }

  lemma {:induction false} SpanIs<L, K, A>(v: View<L, K, A>, n: nat, rest: seq<L>, m: nat)
    requires m <= |rest| && (m < |rest| ==> Leaves(v, n, rest[m])) && forall j :: 0 <= j < m ==> !Leaves(v, n, rest[j])
    ensures Span(v, n, rest) == m
  {
    FirstIs(rest, (l: L) => Leaves(v, n, l), m);
  }

  // ---------- the edit ----------

  function Insert<L>(lines: seq<L>, at: nat, l: L): (r: seq<L>)
    requires at <= |lines|
  {
    lines[..at] + [l] + lines[at..]
  }

  /** One line written at a position: in place of the line there, or before it. */
  datatype Change<L> = Change(at: nat, line: L, inserted: bool)

  predicate Fits<L>(c: Change<L>, lines: seq<L>) {
    c.at < |lines| || (c.inserted && c.at == |lines|)
  }

  function Apply<L>(c: Change<L>, lines: seq<L>): (r: seq<L>)
    requires Fits(c, lines)
    ensures |r| == |lines| + (if c.inserted then 1 else 0)
  {
    if c.inserted then Insert(lines, c.at, c.line) else lines[c.at := c.line]
  }

  lemma {:induction false} ApplyIndex<L>(c: Change<L>, lines: seq<L>, r: seq<L>)
    requires Fits(c, lines) && r == Apply(c, lines)
    ensures forall i :: 0 <= i < |r| ==>
              r[i] == if i < c.at then lines[i] else if i == c.at then c.line
                      else lines[i - (if c.inserted then 1 else 0)]
  {
  }

  /** Where line i of the original is afterwards. */
  function Moved<L>(c: Change<L>, i: nat): (j: nat) {
    if c.inserted && i >= c.at then i + 1 else i
  }

  /** How key k is set to x in a block of indent n, given the lines after its header. */
  function Edit<L, K, A>(v: View<L, K, A>, n: nat, k: K, x: string, rest: seq<L>): (c: Change<L>)
    ensures Fits(c, rest)
  {
    var o := KeyIn(v, n, k, rest);
    if o < Span(v, n, rest) then Change(o, v.write(rest[o], x), false)
    else Change(Reach(v, n, rest), v.make(n, k, x), true)
  }

  predicate Exists<L, K, A>(v: View<L, K, A>, a: A, lines: seq<L>) {
    HeaderOf(v, a, lines) < |lines|
  }

  /** The change that sets key k to x in the block of agent a. */
  function ChangeOf<L, K, A>(v: View<L, K, A>, a: A, k: K, x: string, lines: seq<L>): (c: Change<L>)
    requires Exists(v, a, lines)
    ensures Fits(c, lines)
  {
    var h := HeaderOf(v, a, lines);
    var c := Edit(v, v.indent(lines[h]), k, x, lines[h + 1..]);
    c.(at := h + 1 + c.at)
  }

  /** Set key k to x in the block of agent a, if it has a header. */
  function Put<L, K, A>(v: View<L, K, A>, a: A, k: K, x: string, lines: seq<L>): (r: seq<L>) {
    if Exists(v, a, lines) then Apply(ChangeOf(v, a, k, x, lines), lines) else lines
  }

  /** The line that a lookup of key k in a's block finds. */
  function KeyLine<L, K, A>(v: View<L, K, A>, a: A, k: K, lines: seq<L>): (r: Option<L>) {
    var h := HeaderOf(v, a, lines);
    if h == |lines| then None else Found(v, v.indent(lines[h]), k, lines[h + 1..])
  }

  function Found<L, K, A>(v: View<L, K, A>, n: nat, k: K, rest: seq<L>): (r: Option<L>) {
    var o := KeyIn(v, n, k, rest);
    if o < Span(v, n, rest) then Some(rest[o]) else None
  }

  // ---------- inside the edited block ----------

  /** What an edit writes, and where. */
  lemma {:induction false} EditWrites<L(!new), K(!new), A(!new)>(v: View<L, K, A>, n: nat, k: K, x: string, rest: seq<L>)
    requires Lawful(v)
    ensures var c := Edit(v, n, k, x, rest);
            && Holds(v, c.line, k, x) && v.indent(c.line) > n
            && c.at <= Span(v, n, rest)
            && (!c.inserted ==> c.at < Span(v, n, rest) && v.has(rest[c.at], k))
            && (c.inserted ==> forall j :: 0 <= j < Span(v, n, rest) ==> !v.has(rest[j], k))
  {
    var o := KeyIn(v, n, k, rest);
    if o < Span(v, n, rest) {
      assert SetLaw(v, rest[o], k, x);
      assert KindLaw(v, rest[o]);
      assert !Leaves(v, n, rest[o]);
    } else {
      assert FreshLaw(v, n, k, x);
    }
  }

  /** A line that does not leave the block lengthens it by what is inserted. */
  lemma {:induction false} SpanAfter<L, K, A>(v: View<L, K, A>, n: nat, rest: seq<L>, c: Change<L>)
    requires Fits(c, rest) && c.at <= Span(v, n, rest) && (!c.inserted ==> c.at < Span(v, n, rest))
    requires !Leaves(v, n, c.line)
    ensures Span(v, n, Apply(c, rest)) == Span(v, n, rest) + (if c.inserted then 1 else 0)
  {
    ApplyIndex(c, rest, Apply(c, rest));
    SpanIs(v, n, Apply(c, rest), Span(v, n, rest) + (if c.inserted then 1 else 0));
  }

  /** The key is found on the written line. */
  lemma {:induction false} FoundOwn<L(!new), K(!new), A(!new)>(v: View<L, K, A>, n: nat, k: K, x: string, rest: seq<L>)
    requires Lawful(v)
    ensures var c := Edit(v, n, k, x, rest); Found(v, n, k, Apply(c, rest)) == Some(c.line)
  {
    var c := Edit(v, n, k, x, rest);
    EditWrites(v, n, k, x, rest);
    SpanAfter(v, n, rest, c);
    ApplyIndex(c, rest, Apply(c, rest));
    KeyInIs(v, n, k, Apply(c, rest), c.at);
  }

  /** A search that stops neither at the new line nor at the one it replaces ends where it ended, moved. */
  lemma {:induction false} FirstMoves<L>(c: Change<L>, s: seq<L>, p: L -> bool)
    requires Fits(c, s) && !p(c.line) && (!c.inserted ==> !p(s[c.at]))
    ensures First(Apply(c, s), p) == Moved(c, First(s, p))
  {
    ApplyIndex(c, s, Apply(c, s));
    FirstIs(Apply(c, s), p, Moved(c, First(s, p)));
  }

  lemma {:induction false} ApplyPrefix<L>(c: Change<L>, s: seq<L>, m: nat)
    requires m <= |s| && Fits(c, s[..m]) && Fits(c, s)
    ensures Apply(c, s)[..m + (if c.inserted then 1 else 0)] == Apply(c, s[..m])
  {
    ApplyIndex(c, s, Apply(c, s));
    ApplyIndex(c, s[..m], Apply(c, s[..m]));
  }

  lemma {:induction false} ApplyKeepsLine<L>(c: Change<L>, s: seq<L>, i: nat)
    requires Fits(c, s) && i < |s| && (!c.inserted ==> i != c.at)
    ensures Moved(c, i) < |Apply(c, s)| && Apply(c, s)[Moved(c, i)] == s[i]
  {
    ApplyIndex(c, s, Apply(c, s));
  }

  /** A change inside the block, from and to lines without key j, moves the line of j at most. */
  lemma {:induction false} KeyInChanged<L, K, A>(v: View<L, K, A>, n: nat, j: K, rest: seq<L>, e: Change<L>, after: seq<L>)
    requires Fits(e, rest) && after == Apply(e, rest)
    requires e.at <= Span(v, n, rest) && (!e.inserted ==> e.at < Span(v, n, rest)) && !Leaves(v, n, e.line)
    requires !v.has(e.line, j) && (!e.inserted ==> !v.has(rest[e.at], j))
    ensures Span(v, n, after) == Span(v, n, rest) + (if e.inserted then 1 else 0)
    ensures KeyIn(v, n, j, after) == Moved(e, KeyIn(v, n, j, rest))
    ensures KeyIn(v, n, j, rest) < Span(v, n, rest) ==> after[Moved(e, KeyIn(v, n, j, rest))] == rest[KeyIn(v, n, j, rest)]
  {
    var o, m := KeyIn(v, n, j, rest), Span(v, n, rest);
    SpanAfter(v, n, rest, e);
    ApplyPrefix(e, rest, m);
    FirstMoves(e, rest[..m], (l: L) => v.has(l, j));
    if o < m {
      ApplyKeepsLine(e, rest, o);
    }
  }

  /** An edit is such a change for every other key. */
  lemma {:induction false} KeyInOther<L(!new), K(!new), A(!new)>(v: View<L, K, A>, n: nat, k: K, x: string, j: K, rest: seq<L>, e: Change<L>)
    requires Lawful(v) && j != k && e == Edit(v, n, k, x, rest)
    ensures e.at <= Span(v, n, rest) && (!e.inserted ==> e.at < Span(v, n, rest)) && !Leaves(v, n, e.line)
    ensures !v.has(e.line, j) && (!e.inserted ==> !v.has(rest[e.at], j))
  {
    EditWrites(v, n, k, x, rest);
    if !e.inserted {
      assert KindLaw(v, rest[e.at]);
    }
  }

  lemma {:induction false} FoundOther<L(!new), K(!new), A(!new)>(v: View<L, K, A>, n: nat, k: K, x: string, j: K, rest: seq<L>)
    requires Lawful(v) && j != k
    ensures Found(v, n, j, Apply(Edit(v, n, k, x, rest), rest)) == Found(v, n, j, rest)
  {
    var e := Edit(v, n, k, x, rest);
    KeyInOther(v, n, k, x, j, rest, e);
    KeyInChanged(v, n, j, rest, e, Apply(e, rest));
  }

  // ---------- in the whole file ----------

  /** The line behind a's block; the block is [header, end). */
  function EndOf<L, K, A>(v: View<L, K, A>, a: A, lines: seq<L>): (e: nat)
    requires HeaderOf(v, a, lines) < |lines|
    ensures HeaderOf(v, a, lines) < e <= |lines|
  {
    var h := HeaderOf(v, a, lines);
    h + 1 + Span(v, v.indent(lines[h]), lines[h + 1..])
  }

  predicate Disjoint<L, K, A>(v: View<L, K, A>, a: A, b: A, lines: seq<L>) {
    Exists(v, a, lines) && Exists(v, b, lines) ==>
      EndOf(v, a, lines) <= HeaderOf(v, b, lines) || EndOf(v, b, lines) <= HeaderOf(v, a, lines)
  }

  /** A change is made inside the block and touches no header. */
  lemma {:induction false} ChangeIsInside<L(!new), K(!new), A(!new)>(v: View<L, K, A>, a: A, k: K, x: string, lines: seq<L>)
    requires Lawful(v) && Exists(v, a, lines)
    ensures var c := ChangeOf(v, a, k, x, lines);
            && HeaderOf(v, a, lines) < c.at <= EndOf(v, a, lines)
            && (!c.inserted ==> c.at < EndOf(v, a, lines))
            && Holds(v, c.line, k, x)
            && (!c.inserted ==> v.has(lines[c.at], k) && forall b :: !v.heads(lines[c.at], b))
  {
    var h, c := HeaderOf(v, a, lines), ChangeOf(v, a, k, x, lines);
    EditWrites(v, v.indent(lines[h]), k, x, lines[h + 1..]);
    if !c.inserted {
      assert KindLaw(v, lines[c.at]);
    }
  }

  /** A change that touches no header only moves the headers behind it. */
  lemma {:induction false} HeaderMoves<L(!new), K(!new), A(!new)>(v: View<L, K, A>, b: A, c: Change<L>, lines: seq<L>)
    requires Fits(c, lines) && !v.heads(c.line, b) && (!c.inserted ==> !v.heads(lines[c.at], b))
    ensures HeaderOf(v, b, Apply(c, lines)) == Moved(c, HeaderOf(v, b, lines))
  {
    FirstMoves(c, lines, (l: L) => v.heads(l, b));
  }

  /** What a search sees before the block ends decides it. */
  lemma {:induction false} SameSearch<L(!new), K(!new), A(!new)>(v: View<L, K, A>, n: nat, s: seq<L>, t: seq<L>, m: nat)
    requires Span(v, n, s) < m <= |s| && m <= |t| && forall i :: 0 <= i < m ==> s[i] == t[i]
    ensures Span(v, n, t) == Span(v, n, s)
    ensures forall j :: Found(v, n, j, t) == Found(v, n, j, s)
  {
    SpanIs(v, n, t, Span(v, n, s));
    forall j
      ensures Found(v, n, j, t) == Found(v, n, j, s)
    {
      KeyInIs(v, n, j, t, KeyIn(v, n, j, s));
    }
  }

  /** A block is read from its header and the lines after it. */
  lemma {:induction false} BlockOf<L(!new), K(!new), A(!new)>(v: View<L, K, A>, b: A, lines: seq<L>, h: nat, n: nat, rest: seq<L>)
    requires h < |lines| && HeaderOf(v, b, lines) == h && v.indent(lines[h]) == n && lines[h + 1..] == rest
    ensures Exists(v, b, lines) && EndOf(v, b, lines) == h + 1 + Span(v, n, rest)
    ensures forall j :: KeyLine(v, b, j, lines) == Found(v, n, j, rest)
  {
  }

  /** What stands before the changed line is the same afterwards. */
  lemma {:induction false} HeadStays<L>(c: Change<L>, lines: seq<L>, h: nat)
    requires Fits(c, lines) && h < c.at
    ensures var after, m := Apply(c, lines), c.at - h - 1;
            && h < |after| && after[h] == lines[h]
            && var s, t := lines[h + 1..], after[h + 1..];
            m <= |s| && m <= |t| && forall i :: 0 <= i < m ==> s[i] == t[i]
  {
    ApplyIndex(c, lines, Apply(c, lines));
  }

  /** A block before the edited line stays as it is. */
  lemma {:induction false} BlockBefore<L(!new), K(!new), A(!new)>(v: View<L, K, A>, b: A, c: Change<L>, lines: seq<L>)
    requires Fits(c, lines) && !v.heads(c.line, b) && (!c.inserted ==> !v.heads(lines[c.at], b))
    requires Exists(v, b, lines) && EndOf(v, b, lines) < c.at
    ensures Exists(v, b, Apply(c, lines)) && EndOf(v, b, Apply(c, lines)) == EndOf(v, b, lines)
    ensures forall j :: KeyLine(v, b, j, Apply(c, lines)) == KeyLine(v, b, j, lines)
  {
    var h, after := HeaderOf(v, b, lines), Apply(c, lines);
    HeaderMoves(v, b, c, lines);
    var n, s, t := v.indent(lines[h]), lines[h + 1..], after[h + 1..];
    HeadStays(c, lines, h);
    BlockOf(v, b, lines, h, n, s);
    BlockOf(v, b, after, h, n, t);
    SameSearch(v, n, s, t, c.at - h - 1);
  }

  /** A block behind it keeps its lines and moves as a whole. */
  lemma {:induction false} BlockBehind<L(!new), K(!new), A(!new)>(v: View<L, K, A>, b: A, c: Change<L>, lines: seq<L>)
    requires Fits(c, lines) && !v.heads(c.line, b) && (!c.inserted ==> !v.heads(lines[c.at], b))
    requires Exists(v, b, lines) && c.at <= HeaderOf(v, b, lines)
    ensures Exists(v, b, Apply(c, lines)) && EndOf(v, b, Apply(c, lines)) == EndOf(v, b, lines) + if c.inserted then 1 else 0
    ensures forall j :: KeyLine(v, b, j, Apply(c, lines)) == KeyLine(v, b, j, lines)
  {
    var h, after := HeaderOf(v, b, lines), Apply(c, lines);
    HeaderMoves(v, b, c, lines);
    var h' := Moved(c, h);
    ApplyIndex(c, lines, after);
    assert after[h' + 1..] == lines[h + 1..];
    BlockOf(v, b, lines, h, v.indent(lines[h]), lines[h + 1..]);
    BlockOf(v, b, after, h', v.indent(lines[h]), lines[h + 1..]);
  }

  /** Setting a key leaves the blocks of other agents alone, moved as a whole at most. */
  lemma {:induction false} PutOtherAgent<L(!new), K(!new), A(!new)>(v: View<L, K, A>, a: A, k: K, x: string, b: A, lines: seq<L>)
    requires Lawful(v) && Disjoint(v, a, b, lines) && a != b
    ensures Exists(v, b, Put(v, a, k, x, lines)) <==> Exists(v, b, lines)
    ensures forall j :: KeyLine(v, b, j, Put(v, a, k, x, lines)) == KeyLine(v, b, j, lines)
  {
    if Exists(v, a, lines) {
      var c := ChangeOf(v, a, k, x, lines);
      ChangeIsInside(v, a, k, x, lines);
      HeaderMoves(v, b, c, lines);
      if Exists(v, b, lines) {
        if EndOf(v, b, lines) < c.at {
          BlockBefore(v, b, c, lines);
        } else {
          BlockBehind(v, b, c, lines);
        }
      }
    }
  }

  /** Changing the lines behind a position is changing the list of those lines. */
  lemma {:induction false} ApplySuffix<L>(c: Change<L>, lines: seq<L>, m: nat)
    requires m <= |lines| && Fits(c, lines[m..])
    ensures var d := c.(at := m + c.at);
            && Fits(d, lines) && |Apply(d, lines)| >= m && Apply(d, lines)[m..] == Apply(c, lines[m..])
            && (m > 0 ==> Apply(d, lines)[m - 1] == lines[m - 1])
  {
    var d := c.(at := m + c.at);
    ApplyIndex(d, lines, Apply(d, lines));
    ApplyIndex(c, lines[m..], Apply(c, lines[m..]));
  }

  lemma {:induction false} PutKeepsHeader<L(!new), K(!new), A(!new)>(v: View<L, K, A>, a: A, k: K, x: string, lines: seq<L>)
    requires Lawful(v) && Exists(v, a, lines)
    ensures HeaderOf(v, a, Put(v, a, k, x, lines)) == HeaderOf(v, a, lines) < |Put(v, a, k, x, lines)|
  {
    var c := ChangeOf(v, a, k, x, lines);
    ChangeIsInside(v, a, k, x, lines);
    HeaderMoves(v, a, c, lines);
  }

  lemma {:induction false} PutIs<L, K, A>(v: View<L, K, A>, a: A, k: K, x: string, lines: seq<L>, h: nat, e: Change<L>)
    requires h < |lines| && h == HeaderOf(v, a, lines) && e == Edit(v, v.indent(lines[h]), k, x, lines[h + 1..])
    ensures Fits(e.(at := h + 1 + e.at), lines) && Put(v, a, k, x, lines) == Apply(e.(at := h + 1 + e.at), lines)
  {
  }

  /** The lines after the header, edited. */
  lemma {:induction false} PutBlock<L, K, A>(v: View<L, K, A>, a: A, k: K, x: string, lines: seq<L>, h: nat, n: nat, rest: seq<L>, after: seq<L>)
    requires h < |lines| && h == HeaderOf(v, a, lines) && n == v.indent(lines[h]) && rest == lines[h + 1..]
    requires after == Put(v, a, k, x, lines)
    ensures h < |after| && after[h] == lines[h] && after[h + 1..] == Apply(Edit(v, n, k, x, rest), rest)
  {
    var e := Edit(v, n, k, x, rest);
    PutIs(v, a, k, x, lines, h, e);
    ApplySuffix(e, lines, h + 1);
  }

  /** The edited agent: the header stays, the key reads back, the other keys are as before. */
  lemma {:induction false} PutOwn<L(!new), K(!new), A(!new)>(v: View<L, K, A>, a: A, k: K, x: string, lines: seq<L>)
    requires Lawful(v) && Exists(v, a, lines)
    ensures var c, after := ChangeOf(v, a, k, x, lines), Put(v, a, k, x, lines);
            && HeaderOf(v, a, after) == HeaderOf(v, a, lines) < |after|
            && EndOf(v, a, after) == EndOf(v, a, lines) + (if c.inserted then 1 else 0)
            && KeyLine(v, a, k, after) == Some(c.line) && Holds(v, c.line, k, x)
            && forall j :: j != k ==> KeyLine(v, a, j, after) == KeyLine(v, a, j, lines)
  {
    var h, after := HeaderOf(v, a, lines), Put(v, a, k, x, lines);
    var n, rest := v.indent(lines[h]), lines[h + 1..];
    PutKeepsHeader(v, a, k, x, lines);
    PutBlock(v, a, k, x, lines, h, n, rest, after);
    BlockOf(v, a, lines, h, n, rest);
    BlockOf(v, a, after, h, n, after[h + 1..]);
    EditInBlock(v, n, k, x, rest, after[h + 1..]);
  }

  lemma {:induction false} EditInBlock<L(!new), K(!new), A(!new)>(v: View<L, K, A>, n: nat, k: K, x: string, rest: seq<L>, after: seq<L>)
    requires Lawful(v) && after == Apply(Edit(v, n, k, x, rest), rest)
    ensures var e := Edit(v, n, k, x, rest);
            && Span(v, n, after) == Span(v, n, rest) + (if e.inserted then 1 else 0)
            && Found(v, n, k, after) == Some(e.line) && Holds(v, e.line, k, x)
            && forall j :: j != k ==> Found(v, n, j, after) == Found(v, n, j, rest)
  {
    var e := Edit(v, n, k, x, rest);
    EditWrites(v, n, k, x, rest);
    SpanAfter(v, n, rest, e);
    FoundOwn(v, n, k, x, rest);
    forall j | j != k
      ensures Found(v, n, j, after) == Found(v, n, j, rest)
    {
      FoundOther(v, n, k, x, j, rest);
    }
  }

  /** Where the block of b is after a's key is set: the edited one grows, those behind it move. */
  lemma {:induction false} PutMoves<L(!new), K(!new), A(!new)>(v: View<L, K, A>, a: A, k: K, x: string, b: A, lines: seq<L>)
    requires Lawful(v) && Exists(v, a, lines) && Exists(v, b, lines) && (a != b ==> Disjoint(v, a, b, lines))
    ensures var c, after := ChangeOf(v, a, k, x, lines), Put(v, a, k, x, lines);
            var d := if c.inserted then 1 else 0;
            && Exists(v, b, after)
            && HeaderOf(v, b, after) == HeaderOf(v, b, lines) + (if HeaderOf(v, b, lines) <= HeaderOf(v, a, lines) then 0 else d)
            && EndOf(v, b, after) == EndOf(v, b, lines) + (if EndOf(v, b, lines) <= HeaderOf(v, a, lines) then 0 else d)
  {
    var c := ChangeOf(v, a, k, x, lines);
    PutOwn(v, a, k, x, lines);
    if a != b {
      ChangeIsInside(v, a, k, x, lines);
      HeaderMoves(v, b, c, lines);
      if EndOf(v, b, lines) < c.at {
        BlockBefore(v, b, c, lines);
      } else {
        BlockBehind(v, b, c, lines);
      }
    }
  }

  /** Blocks that were apart stay apart. */
  lemma {:induction false} PutKeepsDisjoint<L(!new), K(!new), A(!new)>(v: View<L, K, A>, a: A, k: K, x: string, b: A, d: A, lines: seq<L>)
    requires Lawful(v) && b != d && Disjoint(v, b, d, lines)
    requires (a != b ==> Disjoint(v, a, b, lines)) && (a != d ==> Disjoint(v, a, d, lines))
    ensures Disjoint(v, b, d, Put(v, a, k, x, lines))
  {
    if Exists(v, a, lines) {
      var c := ChangeOf(v, a, k, x, lines);
      ChangeIsInside(v, a, k, x, lines);
      HeaderMoves(v, b, c, lines);
      HeaderMoves(v, d, c, lines);
      if Exists(v, b, lines) && Exists(v, d, lines) {
        PutMoves(v, a, k, x, b, lines);
        PutMoves(v, a, k, x, d, lines);
      }
    }
  }

  /** Setting a key to the value it has changes nothing. */
  lemma {:induction false} PutSame<L(!new), K(!new), A(!new)>(v: View<L, K, A>, a: A, k: K, x: string, lines: seq<L>)
    requires Exists(v, a, lines) ==> KeyLine(v, a, k, lines).Some? && v.write(KeyLine(v, a, k, lines).value, x) == KeyLine(v, a, k, lines).value
    ensures Put(v, a, k, x, lines) == lines
  {
  }

  // ---------- many edits ----------

  datatype Update<A, K> = Update(agent: A, key: K, value: string)

  /** One step after the other. */
  function Fold<U, S>(step: (U, S) -> S, us: seq<U>, s: S): (r: S) {
    if us == [] then s else step(us[|us| - 1], Fold(step, us[..|us| - 1], s))
  }

  lemma {:induction false} FoldSnoc<U, S>(step: (U, S) -> S, us: seq<U>, u: U, s: S)
    ensures Fold(step, us + [u], s) == step(u, Fold(step, us, s))
  {
    assert (us + [u])[..|us|] == us;
  }

  lemma {:induction false} FoldNext<U, S>(step: (U, S) -> S, us: seq<U>, k: nat, s: S)
    requires k < |us|
    ensures Fold(step, us[..k + 1], s) == step(us[k], Fold(step, us[..k], s))
  {
    assert us[..k + 1] == us[..k] + [us[k]];
    FoldSnoc(step, us[..k], us[k], s);
  }

  lemma {:induction false} FoldWhole<U, S>(step: (U, S) -> S, us: seq<U>, s: S)
    ensures Fold(step, us[..|us|], s) == Fold(step, us, s)
  {
    assert us[..|us|] == us;
  }

  lemma {:induction false} FoldJoin<U, S>(step: (U, S) -> S, us: seq<U>, ws: seq<U>, s: S)
    ensures Fold(step, us + ws, s) == Fold(step, ws, Fold(step, us, s))
    decreases |ws|
  {
    if ws == [] {
      assert us + ws == us;
    } else {
      var init, w := ws[..|ws| - 1], ws[|ws| - 1];
      FoldJoin(step, us, init, s);
      assert us + ws == (us + init) + [w];
      FoldSnoc(step, us + init, w, s);
    }
  }

  function Putter<L, K, A>(v: View<L, K, A>): (r: (Update<A, K>, seq<L>) -> seq<L>) {
    (u: Update<A, K>, lines: seq<L>) => Put(v, u.agent, u.key, u.value, lines)
  }

  /** The updates, one after the other. */
  function MergeAll<L, K, A>(v: View<L, K, A>, us: seq<Update<A, K>>, lines: seq<L>): (r: seq<L>) {
    Fold(Putter(v), us, lines)
  }

  lemma {:induction false} MergeSnoc<L, K, A>(v: View<L, K, A>, us: seq<Update<A, K>>, u: Update<A, K>, lines: seq<L>)
    ensures MergeAll(v, us + [u], lines) == Put(v, u.agent, u.key, u.value, MergeAll(v, us, lines))
  {
    FoldSnoc(Putter(v), us, u, lines);
  }

  ghost predicate Distinct<A(!new), K(!new)>(us: seq<Update<A, K>>) {
    forall i, j :: 0 <= i < j < |us| ==> us[i].agent != us[j].agent || us[i].key != us[j].key
  }

  ghost predicate Apart<L(!new), K(!new), A(!new)>(v: View<L, K, A>, us: seq<Update<A, K>>, lines: seq<L>) {
    forall i, j :: 0 <= i < |us| && 0 <= j < |us| && us[i].agent != us[j].agent ==>
      Disjoint(v, us[i].agent, us[j].agent, lines)
  }

  /** A lookup of the updated key finds the value. */
  ghost predicate Done<L(!new), K(!new), A(!new)>(v: View<L, K, A>, u: Update<A, K>, lines: seq<L>) {
    Exists(v, u.agent, lines) ==>
      var l := KeyLine(v, u.agent, u.key, lines);
      l.Some? && Holds(v, l.value, u.key, u.value)
  }

  lemma {:induction false} PutDone<L(!new), K(!new), A(!new)>(v: View<L, K, A>, u: Update<A, K>, w: Update<A, K>, lines: seq<L>)
    requires Lawful(v) && (u.agent != w.agent ==> Disjoint(v, w.agent, u.agent, lines))
    requires u == w || (Done(v, u, lines) && (u.agent != w.agent || u.key != w.key))
    ensures Done(v, u, Put(v, w.agent, w.key, w.value, lines))
  {
    if u.agent != w.agent {
      PutOtherAgent(v, w.agent, w.key, w.value, u.agent, lines);
    } else if Exists(v, w.agent, lines) {
      PutOwn(v, w.agent, w.key, w.value, lines);
    }
  }

  lemma {:induction false} PutApart<L(!new), K(!new), A(!new)>(v: View<L, K, A>, us: seq<Update<A, K>>, i: nat, lines: seq<L>)
    requires Lawful(v) && Apart(v, us, lines) && i < |us|
    ensures Apart(v, us, Put(v, us[i].agent, us[i].key, us[i].value, lines))
  {
    var after := Put(v, us[i].agent, us[i].key, us[i].value, lines);
    forall p, q | 0 <= p < |us| && 0 <= q < |us| && us[p].agent != us[q].agent
      ensures Disjoint(v, us[p].agent, us[q].agent, after)
    {
      PutKeepsDisjoint(v, us[i].agent, us[i].key, us[i].value, us[p].agent, us[q].agent, lines);
    }
  }

  lemma {:induction false} MergeInv<L(!new), K(!new), A(!new)>(v: View<L, K, A>, us: seq<Update<A, K>>, lines: seq<L>, n: nat)
    requires Lawful(v) && Distinct(us) && Apart(v, us, lines) && n <= |us|
    ensures Apart(v, us, MergeAll(v, us[..n], lines))
    ensures forall i :: 0 <= i < n ==> Done(v, us[i], MergeAll(v, us[..n], lines))
  {
    if n > 0 {
      MergeInv(v, us, lines, n - 1);
      var before := MergeAll(v, us[..n - 1], lines);
      assert us[..n] == us[..n - 1] + [us[n - 1]];
      MergeSnoc(v, us[..n - 1], us[n - 1], lines);
      PutApart(v, us, n - 1, before);
      forall i | 0 <= i < n
        ensures Done(v, us[i], MergeAll(v, us[..n], lines))
      {
        PutDone(v, us[i], us[n - 1], before);
      }
    }
  }

  /** No header is lost or gained. */
  lemma {:induction false} MergeKeepsHeaders<L(!new), K(!new), A(!new)>(v: View<L, K, A>, us: seq<Update<A, K>>, lines: seq<L>, b: A)
    requires Lawful(v)
    ensures Exists(v, b, MergeAll(v, us, lines)) <==> Exists(v, b, lines)
  {
    if us != [] {
      var u, before := us[|us| - 1], MergeAll(v, us[..|us| - 1], lines);
      MergeKeepsHeaders(v, us[..|us| - 1], lines, b);
      if Exists(v, u.agent, before) {
        ChangeIsInside(v, u.agent, u.key, u.value, before);
        HeaderMoves(v, b, ChangeOf(v, u.agent, u.key, u.value, before), before);
      }
    }
  }

  /** After merging, every update reads back. */
  lemma {:induction false} MergeReadsBack<L(!new), K(!new), A(!new)>(v: View<L, K, A>, us: seq<Update<A, K>>, lines: seq<L>, i: nat)
    requires Lawful(v) && Distinct(us) && Apart(v, us, lines) && i < |us|
    ensures Done(v, us[i], MergeAll(v, us, lines))
  {
    MergeInv(v, us, lines, |us|);
    assert us[..|us|] == us;
  }

  /** b's block is apart from the blocks of all other updated agents. */
  ghost predicate Clear<L(!new), K(!new), A(!new)>(v: View<L, K, A>, us: seq<Update<A, K>>, b: A, lines: seq<L>) {
    forall i :: 0 <= i < |us| && us[i].agent != b ==> Disjoint(v, us[i].agent, b, lines)
  }

  lemma {:induction false} PutClear<L(!new), K(!new), A(!new)>(v: View<L, K, A>, us: seq<Update<A, K>>, i: nat, b: A, lines: seq<L>)
    requires Lawful(v) && Apart(v, us, lines) && Clear(v, us, b, lines) && i < |us|
    ensures Clear(v, us, b, Put(v, us[i].agent, us[i].key, us[i].value, lines))
  {
    forall p | 0 <= p < |us| && us[p].agent != b
      ensures Disjoint(v, us[p].agent, b, Put(v, us[i].agent, us[i].key, us[i].value, lines))
    {
      PutKeepsDisjoint(v, us[i].agent, us[i].key, us[i].value, us[p].agent, b, lines);
    }
  }

  lemma {:induction false} PutKeepsKey<L(!new), K(!new), A(!new)>(v: View<L, K, A>, u: Update<A, K>, b: A, j: K, lines: seq<L>)
    requires Lawful(v) && (u.agent != b || u.key != j) && (u.agent != b ==> Disjoint(v, u.agent, b, lines))
    ensures KeyLine(v, b, j, Put(v, u.agent, u.key, u.value, lines)) == KeyLine(v, b, j, lines)
  {
    if u.agent != b {
      PutOtherAgent(v, u.agent, u.key, u.value, b, lines);
    } else if Exists(v, b, lines) {
      PutOwn(v, b, u.key, u.value, lines);
    }
  }

  lemma {:induction false} MergeNext<L, K, A>(v: View<L, K, A>, us: seq<Update<A, K>>, n: nat, lines: seq<L>)
    requires n < |us|
    ensures MergeAll(v, us[..n + 1], lines) == Put(v, us[n].agent, us[n].key, us[n].value, MergeAll(v, us[..n], lines))
  {
    FoldNext(Putter(v), us, n, lines);
  }

  ghost predicate KeptSoFar<L(!new), K(!new), A(!new)>(
    v: View<L, K, A>, us: seq<Update<A, K>>, lines: seq<L>, b: A, j: K, now: seq<L>)
  {
    Apart(v, us, now) && Clear(v, us, b, now) && KeyLine(v, b, j, now) == KeyLine(v, b, j, lines)
  }

  lemma {:induction false} KeptNext<L(!new), K(!new), A(!new)>(
    v: View<L, K, A>, us: seq<Update<A, K>>, lines: seq<L>, n: nat, b: A, j: K, now: seq<L>)
    requires Lawful(v) && n < |us| && (us[n].agent != b || us[n].key != j) && KeptSoFar(v, us, lines, b, j, now)
    ensures KeptSoFar(v, us, lines, b, j, Put(v, us[n].agent, us[n].key, us[n].value, now))
  {
    PutApart(v, us, n, now);
    PutClear(v, us, n, b, now);
    PutKeepsKey(v, us[n], b, j, now);
  }

  /** A key that no update names is found as before. */
  lemma {:induction false} MergeKeepsKey<L(!new), K(!new), A(!new)>(
    v: View<L, K, A>, us: seq<Update<A, K>>, lines: seq<L>, n: nat, b: A, j: K)
    requires Lawful(v) && Apart(v, us, lines) && Clear(v, us, b, lines) && n <= |us|
    requires forall i :: 0 <= i < |us| ==> us[i].agent != b || us[i].key != j
    ensures KeptSoFar(v, us, lines, b, j, MergeAll(v, us[..n], lines))
  {
    if n == 0 {
      assert us[..0] == [];
    } else {
      var k := n - 1;
      MergeKeepsKey(v, us, lines, k, b, j);
      KeptNext(v, us, lines, k, b, j, MergeAll(v, us[..k], lines));
      MergeNext(v, us, k, lines);
    }
  }

  /** The updated key is there, on a line that writing the value leaves as it is. */
  ghost predicate AsIs<L(!new), K(!new), A(!new)>(v: View<L, K, A>, u: Update<A, K>, lines: seq<L>) {
    Exists(v, u.agent, lines) ==>
      var l := KeyLine(v, u.agent, u.key, lines);
      l.Some? && v.write(l.value, u.value) == l.value
  }

  lemma {:induction false} MergeSame<L(!new), K(!new), A(!new)>(v: View<L, K, A>, us: seq<Update<A, K>>, lines: seq<L>)
    requires forall i :: 0 <= i < |us| ==> AsIs(v, us[i], lines)
    ensures MergeAll(v, us, lines) == lines
  {
    if us != [] {
      MergeSame(v, us[..|us| - 1], lines);
      assert AsIs(v, us[|us| - 1], lines);
      PutSame(v, us[|us| - 1].agent, us[|us| - 1].key, us[|us| - 1].value, lines);
    }
  }

  /** A merge changes nothing exactly when every key is there, as writing its value leaves it. */
  lemma {:induction false} MergeSameExactly<L(!new), K(!new), A(!new)>(v: View<L, K, A>, us: seq<Update<A, K>>, lines: seq<L>)
    requires Lawful(v) && Distinct(us) && Apart(v, us, lines)
    ensures MergeAll(v, us, lines) == lines <==> forall i :: 0 <= i < |us| ==> AsIs(v, us[i], lines)
  {
    if MergeAll(v, us, lines) == lines {
      forall i | 0 <= i < |us|
        ensures AsIs(v, us[i], lines)
      {
        MergeReadsBack(v, us, lines, i);
      }
    } else if forall i :: 0 <= i < |us| ==> AsIs(v, us[i], lines) {
      MergeSame(v, us, lines);
    }
  }

  /** Merging again changes nothing. */
  lemma {:induction false} MergeTwice<L(!new), K(!new), A(!new)>(v: View<L, K, A>, us: seq<Update<A, K>>, lines: seq<L>)
    requires Lawful(v) && Distinct(us) && Apart(v, us, lines)
    ensures MergeAll(v, us, MergeAll(v, us, lines)) == MergeAll(v, us, lines)
  {
    forall i | 0 <= i < |us|
      ensures AsIs(v, us[i], MergeAll(v, us, lines))
    {
      MergeReadsBack(v, us, lines, i);
    }
    MergeSame(v, us, MergeAll(v, us, lines));
  }

  // ---------- everything else stays ----------

  ghost predicate Keyless<L(!new), K(!new), A(!new)>(v: View<L, K, A>, l: L) {
    forall k :: !v.has(l, k)
  }

  /** The lines that hold no key, in order. */
  ghost function Skeleton<L(!new), K(!new), A(!new)>(v: View<L, K, A>, lines: seq<L>): (r: seq<L>) {
    if lines == [] then []
    else
      var rest, l := Skeleton(v, lines[..|lines| - 1]), lines[|lines| - 1];
      if Keyless(v, l) then rest + [l] else rest
  }

  lemma {:induction false} SkeletonJoin<L(!new), K(!new), A(!new)>(v: View<L, K, A>, s: seq<L>, t: seq<L>)
    ensures Skeleton(v, s + t) == Skeleton(v, s) + Skeleton(v, t)
    decreases |t|
  {
    if t == [] {
      assert s + t == s;
    } else {
      var t', l := t[..|t| - 1], t[|t| - 1];
      SkeletonJoin(v, s, t');
      assert (s + t)[..|s + t| - 1] == s + t' && (s + t)[|s + t| - 1] == l;
    }
  }

  lemma {:induction false} SkeletonOne<L(!new), K(!new), A(!new)>(v: View<L, K, A>, l: L)
    ensures Skeleton(v, [l]) == if Keyless(v, l) then [l] else []
  {
    assert [l][..0] == [];
  }

  lemma {:induction false} SkeletonAround<L(!new), K(!new), A(!new)>(v: View<L, K, A>, pre: seq<L>, l: L, post: seq<L>)
    requires !Keyless(v, l)
    ensures Skeleton(v, pre + ([l] + post)) == Skeleton(v, pre) + Skeleton(v, post)
  {
    SkeletonOne(v, l);
    SkeletonJoin(v, [l], post);
    SkeletonJoin(v, pre, [l] + post);
    assert [] + Skeleton(v, post) == Skeleton(v, post);
  }

  /** A change from key line to key line, or a new key line, leaves the skeleton as it is. */
  lemma {:induction false} ApplyKeepsSkeleton<L(!new), K(!new), A(!new)>(v: View<L, K, A>, c: Change<L>, lines: seq<L>)
    requires Fits(c, lines) && !Keyless(v, c.line) && (!c.inserted ==> !Keyless(v, lines[c.at]))
    ensures Skeleton(v, Apply(c, lines)) == Skeleton(v, lines)
  {
    var pre := lines[..c.at];
    var post := if c.inserted then lines[c.at..] else lines[c.at + 1..];
    assert Apply(c, lines) == pre + ([c.line] + post);
    SkeletonAround(v, pre, c.line, post);
    if c.inserted {
      assert lines == pre + post;
      SkeletonJoin(v, pre, post);
    } else {
      assert lines == pre + ([lines[c.at]] + post);
      SkeletonAround(v, pre, lines[c.at], post);
    }
  }

  /** Merging keeps every line without one of the keys, in order. */
  lemma {:induction false} MergeKeepsSkeleton<L(!new), K(!new), A(!new)>(v: View<L, K, A>, us: seq<Update<A, K>>, lines: seq<L>)
    requires Lawful(v)
    ensures Skeleton(v, MergeAll(v, us, lines)) == Skeleton(v, lines)
  {
    if us != [] {
      var u := us[|us| - 1];
      var before := MergeAll(v, us[..|us| - 1], lines);
      MergeKeepsSkeleton(v, us[..|us| - 1], lines);
      if Exists(v, u.agent, before) {
        ChangeIsInside(v, u.agent, u.key, u.value, before);
        ApplyKeepsSkeleton(v, ChangeOf(v, u.agent, u.key, u.value, before), before);
      }
    }
  }

  // ---------- what holds of every line ----------

  ghost predicate All<L(!new)>(ok: L -> bool, lines: seq<L>) {
    forall i :: 0 <= i < |lines| ==> ok(lines[i])
  }

  /** Writing the value keeps lines that are ok, and makes only such lines. */
  ghost predicate Keeps<L(!new), K(!new), A(!new)>(v: View<L, K, A>, ok: L -> bool, x: string) {
    (forall l :: ok(l) ==> ok(v.write(l, x))) && (forall n, k :: ok(v.make(n, k, x)))
  }

  lemma {:induction false} PutKeepsAll<L(!new), K(!new), A(!new)>(v: View<L, K, A>, ok: L -> bool, a: A, k: K, x: string, lines: seq<L>)
    requires All(ok, lines) && Keeps(v, ok, x)
    ensures All(ok, Put(v, a, k, x, lines)) && |Put(v, a, k, x, lines)| >= |lines|
  {
    if Exists(v, a, lines) {
      var c, h := ChangeOf(v, a, k, x, lines), HeaderOf(v, a, lines);
      ApplyIndex(c, lines, Apply(c, lines));
      if c.inserted {
        assert c.line == v.make(v.indent(lines[h]), k, x);
      } else {
        assert c.line == v.write(lines[c.at], x);
      }
    }
  }

  lemma {:induction false} MergeKeepsAll<L(!new), K(!new), A(!new)>(
    v: View<L, K, A>, ok: L -> bool, us: seq<Update<A, K>>, lines: seq<L>)
    requires All(ok, lines) && forall i :: 0 <= i < |us| ==> Keeps(v, ok, us[i].value)
    ensures All(ok, MergeAll(v, us, lines)) && |MergeAll(v, us, lines)| >= |lines|
  {
    if us != [] {
      var u := us[|us| - 1];
      MergeKeepsAll(v, ok, us[..|us| - 1], lines);
      PutKeepsAll(v, ok, u.agent, u.key, u.value, MergeAll(v, us[..|us| - 1], lines));
    }
  }

  lemma {:induction false} MergeJoin<L, K, A>(v: View<L, K, A>, us: seq<Update<A, K>>, ws: seq<Update<A, K>>, lines: seq<L>)
    ensures MergeAll(v, us + ws, lines) == MergeAll(v, ws, MergeAll(v, us, lines))
  {
    FoldJoin(Putter(v), us, ws, lines);
  }

  // ---------- the loops ----------

  lemma {:induction false} HeaderIs<L, K, A>(v: View<L, K, A>, a: A, lines: seq<L>, i: nat)
    requires i <= |lines| && (i < |lines| ==> v.heads(lines[i], a)) && forall j :: 0 <= j < i ==> !v.heads(lines[j], a)
    ensures HeaderOf(v, a, lines) == i
  {
    FirstIs(lines, (l: L) => v.heads(l, a), i);
  }

  lemma {:induction false} ReachIs<L, K, A>(v: View<L, K, A>, n: nat, rest: seq<L>, i: nat)
    requires i <= |rest| && (i < |rest| ==> v.indent(rest[i]) <= n) && forall j :: 0 <= j < i ==> v.indent(rest[j]) > n
    ensures Reach(v, n, rest) == i
  {
    FirstIs(rest, (l: L) => v.indent(l) <= n, i);
  }

  lemma {:induction false} SpanBeyond<L, K, A>(v: View<L, K, A>, n: nat, rest: seq<L>, i: nat)
    requires i < |rest| && forall j :: 0 <= j <= i ==> !Leaves(v, n, rest[j])
    ensures Span(v, n, rest) > i
  {
  }

  /** findAgentBlock; -1 when there is no header. */
  method FindAgentBlock<L, K, A>(v: View<L, K, A>, lines: seq<L>, a: A) returns (r: int)
    ensures r == if Exists(v, a, lines) then HeaderOf(v, a, lines) else -1
  {
    var i := 0;
    while i < |lines|
      invariant 0 <= i <= |lines|
      invariant forall j :: 0 <= j < i ==> !v.heads(lines[j], a)
    {
      if v.heads(lines[i], a) {
        HeaderIs(v, a, lines, i);
        return i;
      }
      i := i + 1;
    }
    HeaderIs(v, a, lines, |lines|);
    return -1;
  }

  /** findKeyInBlock, from line start on. */
  method FindKeyInBlock<L, K, A>(v: View<L, K, A>, lines: seq<L>, start: nat, n: nat, k: K) returns (i: nat, found: bool)
    requires start <= |lines|
    ensures found == (KeyIn(v, n, k, lines[start..]) < Span(v, n, lines[start..]))
    ensures found ==> i == start + KeyIn(v, n, k, lines[start..])
  {
    ghost var rest := lines[start..];
    i := start;
    while i < |lines|
      invariant start <= i <= |lines|
      invariant forall j :: 0 <= j < i - start ==> !Leaves(v, n, rest[j]) && !v.has(rest[j], k)
    {
      assert lines[i] == rest[i - start];
      if v.indent(lines[i]) <= n && !v.blank(lines[i]) {
        SpanIs(v, n, rest, i - start);
        KeyInIs(v, n, k, rest, i - start);
        return i, false;
      }
      if v.has(lines[i], k) {
        SpanBeyond(v, n, rest, i - start);
        KeyInIs(v, n, k, rest, i - start);
        return i, true;
      }
      i := i + 1;
    }
    SpanIs(v, n, rest, |rest|);
    KeyInIs(v, n, k, rest, |rest|);
    return i, false;
  }

  /** The loop that looks for the end of the deeper lines. */
  method InsertionPoint<L, K, A>(v: View<L, K, A>, lines: seq<L>, start: nat, n: nat) returns (at: nat)
    requires start <= |lines|
    ensures at == start + Reach(v, n, lines[start..])
  {
    ghost var rest := lines[start..];
    at := start;
    while at < |lines| && v.indent(lines[at]) > n
      invariant start <= at <= |lines|
      invariant forall j :: 0 <= j < at - start ==> v.indent(rest[j]) > n
    {
      at := at + 1;
    }
    ReachIs(v, n, rest, at - start);
  }

  lemma {:induction false} PutFound<L, K, A>(v: View<L, K, A>, a: A, k: K, x: string, lines: seq<L>, h: nat, n: nat, o: nat)
    requires h < |lines| && h == HeaderOf(v, a, lines) && n == v.indent(lines[h])
    requires o == KeyIn(v, n, k, lines[h + 1..]) < Span(v, n, lines[h + 1..])
    ensures h + 1 + o < |lines| && Put(v, a, k, x, lines) == lines[h + 1 + o := v.write(lines[h + 1 + o], x)]
  {
    PutIs(v, a, k, x, lines, h, Change(o, v.write(lines[h + 1 + o], x), false));
  }

  lemma {:induction false} PutMissing<L, K, A>(v: View<L, K, A>, a: A, k: K, x: string, lines: seq<L>, h: nat, n: nat, m: nat)
    requires h < |lines| && h == HeaderOf(v, a, lines) && n == v.indent(lines[h])
    requires KeyIn(v, n, k, lines[h + 1..]) == Span(v, n, lines[h + 1..]) && m == Reach(v, n, lines[h + 1..])
    ensures h + 1 + m <= |lines|
    ensures Put(v, a, k, x, lines) == lines[..h + 1 + m] + [v.make(n, k, x)] + lines[h + 1 + m..]
  {
    PutIs(v, a, k, x, lines, h, Change(m, v.make(n, k, x), true));
  }

  /** One field of the agent whose header is line h. */
  method MergeField<L(==,!new), K(!new), A(!new)>(v: View<L, K, A>, lines: seq<L>, h: nat, a: A, k: K, x: string)
    returns (r: seq<L>, changed: bool)
    requires Lawful(v) && h < |lines| && h == HeaderOf(v, a, lines)
    ensures r == Put(v, a, k, x, lines)
    ensures h < |r| && h == HeaderOf(v, a, r)
    ensures !changed ==> r == lines
  {
    PutKeepsHeader(v, a, k, x, lines);
    var n := v.indent(lines[h]);
    var i, found := FindKeyInBlock(v, lines, h + 1, n, k);
    if found {
      PutFound(v, a, k, x, lines, h, n, i - h - 1);
      var updated := v.write(lines[i], x);
      changed := updated != lines[i];
      r := lines[i := updated];
    } else {
      var at := InsertionPoint(v, lines, h + 1, n);
      PutMissing(v, a, k, x, lines, h, n, at - h - 1);
      r := lines[..at] + [v.make(n, k, x)] + lines[at..];
      changed := true;
    }
  }

  /** The fields of the agent whose header is line h, which stays where it is. */
  method MergeFields<L(==,!new), K(!new), A(!new)>(v: View<L, K, A>, lines: seq<L>, h: nat, a: A, us: seq<Update<A, K>>)
    returns (r: seq<L>, changed: bool)
    requires Lawful(v) && (forall i :: 0 <= i < |us| ==> us[i].agent == a) && h < |lines| && h == HeaderOf(v, a, lines)
    ensures r == MergeAll(v, us, lines)
    ensures !changed ==> r == lines
  {
    r, changed := lines, false;
    var k := 0;
    while k < |us|
      invariant 0 <= k <= |us|
      invariant r == Fold(Putter(v), us[..k], lines)
      invariant h < |r| && h == HeaderOf(v, a, r)
      invariant !changed ==> r == lines
    {
      FoldNext(Putter(v), us, k, lines);
      var c;
      r, c := MergeField(v, r, h, a, us[k].key, us[k].value);
      changed := changed || c;
      k := k + 1;
    }
    FoldWhole(Putter(v), us, lines);
  }

  /** The fields of one agent; its header is looked up once. */
  method MergeAgent<L(==,!new), K(!new), A(!new)>(v: View<L, K, A>, lines: seq<L>, a: A, us: seq<Update<A, K>>)
    returns (r: seq<L>, changed: bool)
    requires Lawful(v) && forall i :: 0 <= i < |us| ==> us[i].agent == a
    ensures r == MergeAll(v, us, lines)
    ensures !changed ==> r == lines
  {
    var h := FindAgentBlock(v, lines, a);
    if h < 0 {
      NoHeaderNoChange(v, us, a, lines);
      return lines, false;
    }
    r, changed := MergeFields(v, lines, h, a, us);
  }

  lemma {:induction false} NoHeaderNoChange<L, K, A>(v: View<L, K, A>, us: seq<Update<A, K>>, a: A, lines: seq<L>)
    requires !Exists(v, a, lines) && forall i :: 0 <= i < |us| ==> us[i].agent == a
    ensures MergeAll(v, us, lines) == lines
  {
    if us != [] {
      NoHeaderNoChange(v, us[..|us| - 1], a, lines);
    }
  }
}
