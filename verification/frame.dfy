/**
 What an edit of several keys leaves alone: every line of the file is still there, in order,
 except that the first line of an updated key in its agent's block carries the new value;
 and every line that was not there before is an updated key that its block did not have.
 */
module Frame {
  import opened Wrappers
  import opened Blocks

  // ---------- where a key stands ----------

  /** The line on which a lookup of key k in a's block ends. */
  function KeyPos<L, K, A>(v: View<L, K, A>, a: A, k: K, lines: seq<L>): (r: Option<nat>)
    ensures r.Some? ==> r.value < |lines| && v.has(lines[r.value], k)
    ensures r.Some? ==> Exists(v, a, lines) && HeaderOf(v, a, lines) < r.value < EndOf(v, a, lines)
  {
    if !Exists(v, a, lines) then None
    else
      var h := HeaderOf(v, a, lines);
      PosIn(v, h, v.indent(lines[h]), k, lines[h + 1..])
  }

  function PosIn<L, K, A>(v: View<L, K, A>, h: nat, n: nat, k: K, rest: seq<L>): (r: Option<nat>) {
    var o := KeyIn(v, n, k, rest);
    if o < Span(v, n, rest) then Some(h + 1 + o) else None
  }

  function MovedPos<L>(c: Blocks.Change<L>, p: Option<nat>): (r: Option<nat>) {
    if p.None? then None else Some(Moved(c, p.value))
  }

  lemma {:induction false} PosOf<L, K, A>(v: View<L, K, A>, a: A, k: K, lines: seq<L>, h: nat, n: nat, rest: seq<L>)
    requires h < |lines| && HeaderOf(v, a, lines) == h && v.indent(lines[h]) == n && lines[h + 1..] == rest
    ensures KeyPos(v, a, k, lines) == PosIn(v, h, n, k, rest)
  {
  }

  /** A found key is rewritten in its place; a missing one is made for the header's indent. */
  lemma {:induction false} ChangeAtKey<L, K, A>(v: View<L, K, A>, a: A, k: K, x: string, lines: seq<L>)
    requires Exists(v, a, lines)
    ensures var c, p := ChangeOf(v, a, k, x, lines), KeyPos(v, a, k, lines);
            if p.Some? then c == Change(p.value, v.write(lines[p.value], x), false)
            else c.inserted && c.line == v.make(v.indent(lines[HeaderOf(v, a, lines)]), k, x)
  {
  }

  // ---------- setting a key moves the other keys, and no more ----------

  lemma {:induction false} PosInEdited<L(!new), K(!new), A(!new)>(v: View<L, K, A>, h: nat, n: nat, k: K, x: string, j: K, rest: seq<L>)
    requires Lawful(v) && j != k
    ensures var e := Edit(v, n, k, x, rest);
            PosIn(v, h, n, j, Apply(e, rest)) == MovedPos(e.(at := h + 1 + e.at), PosIn(v, h, n, j, rest))
  {
    var e := Edit(v, n, k, x, rest);
    KeyInOther(v, n, k, x, j, rest, e);
    KeyInChanged(v, n, j, rest, e, Apply(e, rest));
  }

  lemma {:induction false} PosSame<L, K, A>(v: View<L, K, A>, h: nat, n: nat, j: K, s: seq<L>, t: seq<L>, m: nat)
    requires Span(v, n, s) < m <= |s| && m <= |t| && forall i :: 0 <= i < m ==> s[i] == t[i]
    ensures PosIn(v, h, n, j, t) == PosIn(v, h, n, j, s)
  {
    SpanIs(v, n, t, Span(v, n, s));
    KeyInIs(v, n, j, t, KeyIn(v, n, j, s));
  }

  ghost predicate HeadKept<L(!new), K(!new), A(!new)>(v: View<L, K, A>, b: A, lines: seq<L>, after: seq<L>) {
    && (Exists(v, b, after) <==> Exists(v, b, lines))
    && (Exists(v, b, lines) ==> after[HeaderOf(v, b, after)] == lines[HeaderOf(v, b, lines)])
  }

  /** A header with the lines after it, as the search for a key sees them. */
  lemma {:induction false} PosMoves<L(!new), K(!new), A(!new)>(
    v: View<L, K, A>, b: A, j: K, c: Blocks.Change<L>, lines: seq<L>, after: seq<L>, h: nat, h': nat)
    requires h < |lines| && h' < |after| && lines[h] == after[h']
    requires HeaderOf(v, b, lines) == h && HeaderOf(v, b, after) == h'
    requires var n := v.indent(lines[h]);
             PosIn(v, h', n, j, after[h' + 1..]) == MovedPos(c, PosIn(v, h, n, j, lines[h + 1..]))
    ensures HeadKept(v, b, lines, after)
    ensures KeyPos(v, b, j, after) == MovedPos(c, KeyPos(v, b, j, lines))
  {
  }

  lemma {:induction false} PosBefore<L(!new), K(!new), A(!new)>(v: View<L, K, A>, b: A, j: K, c: Blocks.Change<L>, lines: seq<L>)
    requires Fits(c, lines) && !v.heads(c.line, b) && (!c.inserted ==> !v.heads(lines[c.at], b))
    requires Exists(v, b, lines) && EndOf(v, b, lines) < c.at
    ensures HeadKept(v, b, lines, Apply(c, lines))
    ensures KeyPos(v, b, j, Apply(c, lines)) == MovedPos(c, KeyPos(v, b, j, lines))
  {
    var h, after := HeaderOf(v, b, lines), Apply(c, lines);
    HeaderMoves(v, b, c, lines);
    HeadStays(c, lines, h);
    var n := v.indent(lines[h]);
    PosSame(v, h, n, j, lines[h + 1..], after[h + 1..], c.at - h - 1);
    assert MovedPos(c, PosIn(v, h, n, j, lines[h + 1..])) == PosIn(v, h, n, j, lines[h + 1..]);
    PosMoves(v, b, j, c, lines, after, h, h);
  }

  /** What stands behind the changed line is the same afterwards. */
  lemma {:induction false} TailMoves<L>(c: Blocks.Change<L>, lines: seq<L>, h: nat)
    requires Fits(c, lines) && c.at <= h < |lines| && (!c.inserted ==> c.at < h)
    ensures var after, h' := Apply(c, lines), Moved(c, h);
            h' < |after| && after[h'] == lines[h] && after[h' + 1..] == lines[h + 1..]
  {
    ApplyIndex(c, lines, Apply(c, lines));
  }

  lemma {:induction false} PosBehind<L(!new), K(!new), A(!new)>(v: View<L, K, A>, b: A, j: K, c: Blocks.Change<L>, lines: seq<L>)
    requires Fits(c, lines) && !v.heads(c.line, b) && (!c.inserted ==> !v.heads(lines[c.at], b))
    requires Exists(v, b, lines) && c.at <= HeaderOf(v, b, lines)
    ensures HeadKept(v, b, lines, Apply(c, lines))
    ensures KeyPos(v, b, j, Apply(c, lines)) == MovedPos(c, KeyPos(v, b, j, lines))
  {
    var h, after := HeaderOf(v, b, lines), Apply(c, lines);
    HeaderMoves(v, b, c, lines);
    TailMoves(c, lines, h);
    PosShifted(v, h, Moved(c, h), v.indent(lines[h]), j, c, lines[h + 1..]);
    PosMoves(v, b, j, c, lines, after, h, Moved(c, h));
  }

  lemma {:induction false} PosShifted<L, K, A>(v: View<L, K, A>, h: nat, h': nat, n: nat, j: K, c: Blocks.Change<L>, rest: seq<L>)
    requires c.at <= h && h' == Moved(c, h)
    ensures PosIn(v, h', n, j, rest) == MovedPos(c, PosIn(v, h, n, j, rest))
  {
  }

  lemma {:induction false} PosInBlock<L(!new), K(!new), A(!new)>(
    v: View<L, K, A>, a: A, k: K, x: string, j: K, lines: seq<L>, h: nat, n: nat, rest: seq<L>, after: seq<L>)
    requires Lawful(v) && j != k && h < |lines| && h < |after|
    requires HeaderOf(v, a, lines) == h && v.indent(lines[h]) == n && lines[h + 1..] == rest
    requires HeaderOf(v, a, after) == h && after[h] == lines[h] && after[h + 1..] == Apply(Edit(v, n, k, x, rest), rest)
    ensures var e := Edit(v, n, k, x, rest);
            KeyPos(v, a, j, after) == MovedPos(e.(at := h + 1 + e.at), KeyPos(v, a, j, lines))
  {
    PosOf(v, a, j, lines, h, n, rest);
    PosOf(v, a, j, after, h, n, after[h + 1..]);
    PosInEdited(v, h, n, k, x, j, rest);
  }

  lemma {:induction false} PosInside<L(!new), K(!new), A(!new)>(v: View<L, K, A>, a: A, k: K, x: string, j: K, lines: seq<L>)
    requires Lawful(v) && Exists(v, a, lines) && j != k
    ensures HeadKept(v, a, lines, Put(v, a, k, x, lines))
    ensures KeyPos(v, a, j, Put(v, a, k, x, lines)) == MovedPos(ChangeOf(v, a, k, x, lines), KeyPos(v, a, j, lines))
  {
    var h, after := HeaderOf(v, a, lines), Put(v, a, k, x, lines);
    var n, rest := v.indent(lines[h]), lines[h + 1..];
    PutKeepsHeader(v, a, k, x, lines);
    PutBlock(v, a, k, x, lines, h, n, rest, after);
    PosInBlock(v, a, k, x, j, lines, h, n, rest, after);
  }

  /** Setting a key moves every other key with its line. */
  lemma {:induction false} KeyMoves<L(!new), K(!new), A(!new)>(v: View<L, K, A>, a: A, k: K, x: string, b: A, j: K, lines: seq<L>)
    requires Lawful(v) && Exists(v, a, lines) && (a != b || j != k) && (a != b ==> Disjoint(v, a, b, lines))
    ensures HeadKept(v, b, lines, Put(v, a, k, x, lines))
    ensures KeyPos(v, b, j, Put(v, a, k, x, lines)) == MovedPos(ChangeOf(v, a, k, x, lines), KeyPos(v, b, j, lines))
  {
    if a == b {
      PosInside(v, a, k, x, j, lines);
    } else {
      var c := ChangeOf(v, a, k, x, lines);
      ChangeIsInside(v, a, k, x, lines);
      HeaderMoves(v, b, c, lines);
      if Exists(v, b, lines) {
        if EndOf(v, b, lines) < c.at {
          PosBefore(v, b, j, c, lines);
        } else {
          PosBehind(v, b, j, c, lines);
        }
      }
    }
  }

  // ---------- the frame of a list of updates ----------

  /** On which line an update is made, which line it adds, and how it rewrites a line. */
  datatype Spec<!U, !L> = Spec(touches: (U, nat) -> bool, adds: (U, L) -> bool, rewrite: (U, L) -> L)

  /** What line i has become: itself, or rewritten by the update made on it. */
  ghost predicate LineIs<U(!new), L(!new)>(spec: Spec<U, L>, us: seq<U>, n: nat, i: nat, before: L, after: L)
    requires n <= |us|
  {
    && ((forall q :: 0 <= q < n ==> !spec.touches(us[q], i)) ==> after == before)
    && (forall q :: 0 <= q < n && spec.touches(us[q], i) ==> after == spec.rewrite(us[q], before))
  }

  ghost predicate Added<U(!new), L(!new)>(spec: Spec<U, L>, us: seq<U>, n: nat, l: L)
    requires n <= |us|
  {
    exists q :: 0 <= q < n && spec.adds(us[q], l)
  }

  predicate InImage(m: seq<nat>, j: nat) {
    exists i :: 0 <= i < |m| && m[i] == j
  }

  predicate Increasing(m: seq<nat>, size: nat) {
    && (forall i, j :: 0 <= i < j < |m| ==> m[i] < m[j])
    && (forall i :: 0 <= i < |m| ==> m[i] < size)
  }

  /** m says where every line has gone after the first n updates, and every other line was added. */
  ghost predicate Framed<U(!new), L(!new)>(spec: Spec<U, L>, us: seq<U>, n: nat, was: seq<L>, cur: seq<L>, m: seq<nat>)
    requires n <= |us|
  {
    && |m| == |was| && Increasing(m, |cur|)
    && (forall i :: 0 <= i < |was| ==> LineIs(spec, us, n, i, was[i], cur[m[i]]))
    && (forall j: nat :: j < |cur| && !InImage(m, j) ==> Added(spec, us, n, cur[j]))
  }

  lemma {:induction false} AddedStill<U(!new), L(!new)>(spec: Spec<U, L>, us: seq<U>, n: nat, l: L)
    requires n < |us| && Added(spec, us, n, l)
    ensures Added(spec, us, n + 1, l)
  {
    var q :| 0 <= q < n && spec.adds(us[q], l);
    assert spec.adds(us[q], l);
  }

  /** An update that is made on line p and adds nothing. */
  lemma {:induction false} FramedRewrite<U(!new), L(!new)>(
    spec: Spec<U, L>, us: seq<U>, n: nat, was: seq<L>, cur: seq<L>, m: seq<nat>, p: nat, after: seq<L>)
    requires n < |us| && p < |was| && Framed(spec, us, n, was, cur, m)
    requires forall i: nat :: spec.touches(us[n], i) <==> i == p
    requires forall q :: 0 <= q < n ==> !spec.touches(us[q], p)
    requires after == cur[m[p] := spec.rewrite(us[n], cur[m[p]])]
    ensures cur[m[p]] == was[p] && Framed(spec, us, n + 1, was, after, m)
  {
    assert LineIs(spec, us, n, p, was[p], cur[m[p]]);
    forall i | 0 <= i < |was|
      ensures LineIs(spec, us, n + 1, i, was[i], after[m[i]])
    {
      assert LineIs(spec, us, n, i, was[i], cur[m[i]]);
      assert i != p ==> m[i] != m[p];
    }
    forall j: nat | j < |after| && !InImage(m, j)
      ensures Added(spec, us, n + 1, after[j])
    {
      assert m[p] != j;
      AddedStill(spec, us, n, cur[j]);
    }
  }

  function MoveAll<L>(c: Blocks.Change<L>, m: seq<nat>): (r: seq<nat>)
    ensures |r| == |m|
    ensures forall i :: 0 <= i < |m| ==> r[i] == Moved(c, m[i])
  {
    seq(|m|, i requires 0 <= i < |m| => Moved(c, m[i]))
  }

  lemma {:induction false} ImageMoves<L>(c: Blocks.Change<L>, m: seq<nat>, j: nat)
    ensures InImage(m, j) ==> InImage(MoveAll(c, m), Moved(c, j))
  {
    if InImage(m, j) {
      var i :| 0 <= i < |m| && m[i] == j;
      assert MoveAll(c, m)[i] == Moved(c, j);
    }
  }

  /** An update that adds a line and is made on none. */
  lemma {:induction false} FramedInsert<U(!new), L(!new)>(
    spec: Spec<U, L>, us: seq<U>, n: nat, was: seq<L>, cur: seq<L>, m: seq<nat>, c: Blocks.Change<L>, after: seq<L>)
    requires n < |us| && Framed(spec, us, n, was, cur, m)
    requires forall i: nat :: !spec.touches(us[n], i)
    requires Fits(c, cur) && c.inserted && spec.adds(us[n], c.line) && after == Apply(c, cur)
    ensures Framed(spec, us, n + 1, was, after, MoveAll(c, m))
  {
    var m' := MoveAll(c, m);
    ApplyIndex(c, cur, after);
    forall i | 0 <= i < |was|
      ensures LineIs(spec, us, n + 1, i, was[i], after[m'[i]])
    {
      assert LineIs(spec, us, n, i, was[i], cur[m[i]]);
      assert after[m'[i]] == cur[m[i]];
    }
    forall j: nat | j < |after| && !InImage(m', j)
      ensures Added(spec, us, n + 1, after[j])
    {
      if j == c.at {
        assert spec.adds(us[n], after[j]);
      } else {
        var j' := if j < c.at then j else j - 1;
        ImageMoves(c, m, j');
        AddedStill(spec, us, n, cur[j']);
      }
    }
  }

  /** An update that does nothing. */
  lemma {:induction false} FramedSkip<U(!new), L(!new)>(spec: Spec<U, L>, us: seq<U>, n: nat, was: seq<L>, cur: seq<L>, m: seq<nat>)
    requires n < |us| && Framed(spec, us, n, was, cur, m) && forall i: nat :: !spec.touches(us[n], i)
    ensures Framed(spec, us, n + 1, was, cur, m)
  {
    forall i | 0 <= i < |was|
      ensures LineIs(spec, us, n + 1, i, was[i], cur[m[i]])
    {
      assert LineIs(spec, us, n, i, was[i], cur[m[i]]);
    }
    forall j: nat | j < |cur| && !InImage(m, j)
      ensures Added(spec, us, n + 1, cur[j])
    {
      AddedStill(spec, us, n, cur[j]);
    }
  }

  // ---------- the frame of the edit ----------

  /** The update is made on line i: the first line of its key in the block of its agent. */
  predicate Touches<L, K, A>(v: View<L, K, A>, u: Update<A, K>, was: seq<L>, i: nat) {
    KeyPos(v, u.agent, u.key, was) == Some(i)
  }

  /** The update adds line l, because the block of its agent does not have the key. */
  predicate Adds<L(==), K, A>(v: View<L, K, A>, u: Update<A, K>, was: seq<L>, l: L) {
    && Exists(v, u.agent, was) && KeyPos(v, u.agent, u.key, was).None?
    && l == v.make(v.indent(was[HeaderOf(v, u.agent, was)]), u.key, u.value)
  }

  function SpecOf<L(==), K, A>(v: View<L, K, A>, was: seq<L>): (r: Spec<Update<A, K>, L>) {
    Spec((u: Update<A, K>, i: nat) => Touches(v, u, was, i),
         (u: Update<A, K>, l: L) => Adds(v, u, was, l),
         (u: Update<A, K>, l: L) => v.write(l, u.value))
  }

  function PosThrough(m: seq<nat>, p: Option<nat>): (r: Option<nat>)
    requires p.Some? ==> p.value < |m|
  {
    if p.None? then None else Some(m[p.value])
  }

  /** An update still to come finds its block and its key where m says. */
  ghost predicate Waiting<L(!new), K(!new), A(!new)>(v: View<L, K, A>, u: Update<A, K>, was: seq<L>, cur: seq<L>, m: seq<nat>)
    requires |m| == |was|
  {
    && HeadKept(v, u.agent, was, cur)
    && KeyPos(v, u.agent, u.key, cur) == PosThrough(m, KeyPos(v, u.agent, u.key, was))
  }

  /** No two updates are made on the same line. */
  lemma {:induction false} TouchedOnce<L(!new), K(!new), A(!new)>(v: View<L, K, A>, u: Update<A, K>, w: Update<A, K>, was: seq<L>, i: nat)
    requires Lawful(v) && (u.agent != w.agent || u.key != w.key) && (u.agent != w.agent ==> Disjoint(v, u.agent, w.agent, was))
    requires Touches(v, u, was, i)
    ensures !Touches(v, w, was, i)
  {
    assert KindLaw(v, was[i]);
  }

  lemma {:induction false} HeadKeptTrans<L(!new), K(!new), A(!new)>(v: View<L, K, A>, b: A, x: seq<L>, y: seq<L>, z: seq<L>)
    requires HeadKept(v, b, x, y) && HeadKept(v, b, y, z)
    ensures HeadKept(v, b, x, z)
  {
  }

  lemma {:induction false} WaitingMoves<L(!new), K(!new), A(!new)>(
    v: View<L, K, A>, u: Update<A, K>, w: Update<A, K>, was: seq<L>, cur: seq<L>, m: seq<nat>)
    requires Lawful(v) && Exists(v, u.agent, cur) && |m| == |was| && Waiting(v, w, was, cur, m)
    requires (u.agent != w.agent || u.key != w.key) && (u.agent != w.agent ==> Disjoint(v, u.agent, w.agent, cur))
    ensures Waiting(v, w, was, Put(v, u.agent, u.key, u.value, cur), MoveAll(ChangeOf(v, u.agent, u.key, u.value, cur), m))
  {
    var after := Put(v, u.agent, u.key, u.value, cur);
    KeyMoves(v, u.agent, u.key, u.value, w.agent, w.key, cur);
    HeadKeptTrans(v, w.agent, was, cur, after);
  }

  /** What the next update does, seen from the original. */
  lemma {:induction false} NextRewrites<L(!new), K(!new), A(!new)>(
    v: View<L, K, A>, us: seq<Update<A, K>>, n: nat, was: seq<L>, cur: seq<L>, m: seq<nat>, p: nat)
    requires Lawful(v) && Distinct(us) && Apart(v, us, was) && n < |us|
    requires Framed(SpecOf(v, was), us, n, was, cur, m) && Waiting(v, us[n], was, cur, m) && Exists(v, us[n].agent, cur)
    requires KeyPos(v, us[n].agent, us[n].key, was) == Some(p)
    ensures var u := us[n];
            Framed(SpecOf(v, was), us, n + 1, was, Put(v, u.agent, u.key, u.value, cur),
                   MoveAll(ChangeOf(v, u.agent, u.key, u.value, cur), m))
  {
    var u, spec := us[n], SpecOf(v, was);
    var c, after := ChangeOf(v, u.agent, u.key, u.value, cur), Put(v, u.agent, u.key, u.value, cur);
    ChangeAtKey(v, u.agent, u.key, u.value, cur);
    assert MoveAll(c, m) == m;
    NoneTouched(v, us, n, was, p);
    FramedRewrite(spec, us, n, was, cur, m, p, after);
  }

  lemma {:induction false} NoneTouched<L(!new), K(!new), A(!new)>(v: View<L, K, A>, us: seq<Update<A, K>>, n: nat, was: seq<L>, p: nat)
    requires Lawful(v) && Distinct(us) && Apart(v, us, was) && n < |us|
    requires KeyPos(v, us[n].agent, us[n].key, was) == Some(p)
    ensures forall q :: 0 <= q < n ==> !SpecOf(v, was).touches(us[q], p)
  {
    forall q | 0 <= q < n
      ensures !SpecOf(v, was).touches(us[q], p)
    {
      TouchedOnce(v, us[n], us[q], was, p);
    }
  }

  lemma {:induction false} NextFramed<L(!new), K(!new), A(!new)>(
    v: View<L, K, A>, us: seq<Update<A, K>>, n: nat, was: seq<L>, cur: seq<L>, m: seq<nat>)
    requires Lawful(v) && Distinct(us) && Apart(v, us, was) && n < |us|
    requires Framed(SpecOf(v, was), us, n, was, cur, m) && Waiting(v, us[n], was, cur, m) && Exists(v, us[n].agent, cur)
    ensures var u := us[n];
            Framed(SpecOf(v, was), us, n + 1, was, Put(v, u.agent, u.key, u.value, cur),
                   MoveAll(ChangeOf(v, u.agent, u.key, u.value, cur), m))
  {
    var u, spec := us[n], SpecOf(v, was);
    var c, after := ChangeOf(v, u.agent, u.key, u.value, cur), Put(v, u.agent, u.key, u.value, cur);
    var p := KeyPos(v, u.agent, u.key, was);
    if p.Some? {
      NextRewrites(v, us, n, was, cur, m, p.value);
    } else {
      ChangeAtKey(v, u.agent, u.key, u.value, cur);
      FramedInsert(spec, us, n, was, cur, m, c, after);
    }
  }

  ghost predicate FrameBy<L(!new), K(!new), A(!new)>(
    v: View<L, K, A>, us: seq<Update<A, K>>, n: nat, was: seq<L>, cur: seq<L>, m: seq<nat>)
  {
    && n <= |us| && Framed(SpecOf(v, was), us, n, was, cur, m)
    && forall q :: n <= q < |us| ==> Waiting(v, us[q], was, cur, m)
  }

  /** After n updates the lines of the original can be found again, and those to come find their keys. */
  ghost predicate FrameHolds<L(!new), K(!new), A(!new)>(v: View<L, K, A>, us: seq<Update<A, K>>, n: nat, was: seq<L>, cur: seq<L>) {
    exists m :: FrameBy(v, us, n, was, cur, m)
  }

  lemma {:induction false} FrameStart<L(!new), K(!new), A(!new)>(v: View<L, K, A>, us: seq<Update<A, K>>, was: seq<L>)
    ensures FrameHolds(v, us, 0, was, was)
  {
    var m: seq<nat> := seq(|was|, i requires 0 <= i < |was| => i);
    assert forall i :: 0 <= i < |was| ==> m[i] == i && InImage(m, m[i]);
    assert FrameBy(v, us, 0, was, was, m);
  }

  lemma {:induction false} FrameStep<L(!new), K(!new), A(!new)>(
    v: View<L, K, A>, us: seq<Update<A, K>>, n: nat, was: seq<L>, cur: seq<L>, after: seq<L>)
    requires Lawful(v) && Distinct(us) && Apart(v, us, was) && Apart(v, us, cur) && n < |us|
    requires FrameHolds(v, us, n, was, cur)
    requires after == Put(v, us[n].agent, us[n].key, us[n].value, cur)
    ensures FrameHolds(v, us, n + 1, was, after)
  {
    var m :| FrameBy(v, us, n, was, cur, m);
    var u := us[n];
    assert Waiting(v, u, was, cur, m);
    if Exists(v, u.agent, cur) {
      NextFramed(v, us, n, was, cur, m);
      var m' := MoveAll(ChangeOf(v, u.agent, u.key, u.value, cur), m);
      forall q | n + 1 <= q < |us|
        ensures Waiting(v, us[q], was, after, m')
      {
        WaitingMoves(v, u, us[q], was, cur, m);
      }
      assert FrameBy(v, us, n + 1, was, after, m');
    } else {
      FramedSkip(SpecOf(v, was), us, n, was, cur, m);
      assert FrameBy(v, us, n + 1, was, after, m);
    }
  }

  ghost predicate FrameInv<L(!new), K(!new), A(!new)>(v: View<L, K, A>, us: seq<Update<A, K>>, was: seq<L>, n: nat, cur: seq<L>) {
    n <= |us| && Apart(v, us, cur) && FrameHolds(v, us, n, was, cur)
  }

  lemma {:induction false} FrameInvStep<L(!new), K(!new), A(!new)>(
    v: View<L, K, A>, us: seq<Update<A, K>>, was: seq<L>, n: nat, cur: seq<L>, after: seq<L>)
    requires Lawful(v) && Distinct(us) && Apart(v, us, was) && n < |us| && FrameInv(v, us, was, n, cur)
    requires after == Put(v, us[n].agent, us[n].key, us[n].value, cur)
    ensures FrameInv(v, us, was, n + 1, after)
  {
    PutApart(v, us, n, cur);
    FrameStep(v, us, n, was, cur, after);
  }

  lemma {:induction false} MergeNext<L, K, A>(v: View<L, K, A>, us: seq<Update<A, K>>, n: nat, was: seq<L>)
    requires n < |us|
    ensures MergeAll(v, us[..n + 1], was) == Put(v, us[n].agent, us[n].key, us[n].value, MergeAll(v, us[..n], was))
  {
    FoldNext(Putter(v), us, n, was);
  }

  lemma {:induction false} FrameInvNext<L(!new), K(!new), A(!new)>(v: View<L, K, A>, us: seq<Update<A, K>>, was: seq<L>, n: nat)
    requires Lawful(v) && Distinct(us) && Apart(v, us, was) && n < |us| && FrameInv(v, us, was, n, MergeAll(v, us[..n], was))
    ensures FrameInv(v, us, was, n + 1, MergeAll(v, us[..n + 1], was))
  {
    MergeNext(v, us, n, was);
    FrameInvStep(v, us, was, n, MergeAll(v, us[..n], was), MergeAll(v, us[..n + 1], was));
  }

  lemma {:induction false} FrameInvStart<L(!new), K(!new), A(!new)>(v: View<L, K, A>, us: seq<Update<A, K>>, was: seq<L>)
    requires Apart(v, us, was)
    ensures FrameInv(v, us, was, 0, MergeAll(v, us[..0], was))
  {
    FrameStart(v, us, was);
  }

  lemma {:induction false} MergeFrame<L(!new), K(!new), A(!new)>(v: View<L, K, A>, us: seq<Update<A, K>>, was: seq<L>, n: nat)
    requires Lawful(v) && Distinct(us) && Apart(v, us, was) && n <= |us|
    ensures FrameInv(v, us, was, n, MergeAll(v, us[..n], was))
    decreases n
  {
    if n == 0 {
      FrameInvStart(v, us, was);
    } else {
      MergeFrame(v, us, was, n - 1);
      FrameInvNext(v, us, was, n - 1);
    }
  }

  /**
   After all updates every line of the original is there, in order: line i unchanged, or, if
   it is the first line of an updated key in its agent's block, with the new value written;
   and every other line was added by an update whose key its agent's block did not have.
   */
  lemma {:induction false} MergeKeepsLines<L(!new), K(!new), A(!new)>(v: View<L, K, A>, us: seq<Update<A, K>>, was: seq<L>) returns (m: seq<nat>)
    requires Lawful(v) && Distinct(us) && Apart(v, us, was)
    ensures Framed(SpecOf(v, was), us, |us|, was, MergeAll(v, us, was), m)
  {
    MergeFrame(v, us, was, |us|);
    FoldWhole(Putter(v), us, was);
    m :| FrameBy(v, us, |us|, was, MergeAll(v, us, was), m);
  }
}
