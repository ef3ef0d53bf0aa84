/**
 levenshtein and suggest: how a mistyped configuration key is matched with a known one.
 The two-row loop is proved to compute the length of a shortest edit script.
 */
module EditDistance {

  // ---------- edit scripts ----------

  datatype Edit<T> = Insert(at: nat, x: T) | Delete(at: nat) | Replace(at: nat, x: T)

  predicate Applies<T>(e: Edit<T>, s: seq<T>) {
    if e.Insert? then e.at <= |s| else e.at < |s|
  }

  function Apply<T>(e: Edit<T>, s: seq<T>): (r: seq<T>)
    requires Applies(e, s)
  {
    match e
    case Insert(i, x) => s[..i] + [x] + s[i..]
    case Delete(i) => s[..i] + s[i + 1..]
    case Replace(i, x) => s[..i] + [x] + s[i + 1..]
  }

  /** The script turns a into b. */
  predicate Turns<T(==)>(script: seq<Edit<T>>, a: seq<T>, b: seq<T>) {
    if script == [] then a == b
    else Applies(script[0], a) && Turns(script[1..], Apply(script[0], a), b)
  }

  // ---------- the recurrence ----------

  function Min3(a: nat, b: nat, c: nat): (m: nat)
    ensures m <= a && m <= b && m <= c && (m == a || m == b || m == c)
  {
    var m := if b < a then b else a;
    if c < m then c else m
  }

  function Dist<T(==)>(a: seq<T>, b: seq<T>): (d: nat)
    decreases |a| + |b|
  {
    if a == [] then |b|
    else if b == [] then |a|
    else
      var n, m := |a| - 1, |b| - 1;
      Min3(Dist(a, b[..m]) + 1, Dist(a[..n], b) + 1, Dist(a[..n], b[..m]) + (if a[n] == b[m] then 0 else 1))
  }

  lemma {:induction false} DistUnfold<T>(a: seq<T>, x: T, b: seq<T>, y: T)
    ensures Dist(a + [x], b + [y]) ==
            Min3(Dist(a + [x], b) + 1, Dist(a, b + [y]) + 1, Dist(a, b) + (if x == y then 0 else 1))
  {
    assert (a + [x])[..|a|] == a && (b + [y])[..|b|] == b;
  }

  lemma {:induction false} DistSymmetric<T>(a: seq<T>, b: seq<T>)
    ensures Dist(a, b) == Dist(b, a)
    decreases |a| + |b|
  {
    if a != [] && b != [] {
      var n, m := |a| - 1, |b| - 1;
      DistSymmetric(a, b[..m]);
      DistSymmetric(a[..n], b);
      DistSymmetric(a[..n], b[..m]);
    }
  }

  lemma {:induction false} Split<T>(a: seq<T>) returns (init: seq<T>, last: T)
    requires a != []
    ensures a == init + [last] && |init| == |a| - 1
  {
    init, last := a[..|a| - 1], a[|a| - 1];
  }

  /** A longer target costs at most one more. */
  lemma {:induction false} AppendRight<T>(a: seq<T>, b: seq<T>, y: T)
    ensures Dist(a, b + [y]) <= Dist(a, b) + 1
  {
    if a == [] {
    } else {
      var a', x := Split(a);
      DistUnfold(a', x, b, y);
    }
  }

  lemma {:induction false} AppendLeft<T>(a: seq<T>, x: T, b: seq<T>)
    ensures Dist(a + [x], b) <= Dist(a, b) + 1
  {
    AppendRight(b, a, x);
    DistSymmetric(a + [x], b);
    DistSymmetric(a, b);
  }

  /** A shorter target costs at most one more. */
  lemma {:induction false} DropRight<T>(a: seq<T>, b: seq<T>, y: T)
    ensures Dist(a, b) <= Dist(a, b + [y]) + 1
    decreases |a|
  {
    if a != [] {
      var a', x := Split(a);
      DropRight(a', b, y);
      AppendLeft(a', x, b);
      DistUnfold(a', x, b, y);
    }
  }

  /** Another last character costs at most one more. */
  lemma {:induction false} SwapRight<T>(a: seq<T>, b: seq<T>, y: T, z: T)
    ensures Dist(a, b + [z]) <= Dist(a, b + [y]) + 1
    decreases |a|
  {
    if a == [] {
    } else {
      var a', x := Split(a);
      SwapRight(a', b, y, z);
      DistUnfold(a', x, b, y);
      DistUnfold(a', x, b, z);
    }
  }

  /** One edit of the form p to q, with anything behind it. */
  ghost predicate Close<T(!new)>(p: seq<T>, q: seq<T>) {
    forall a: seq<T> :: Dist(a, q) <= Dist(a, p) + 1
  }

  lemma {:induction false} CloseFramed<T(!new)>(a: seq<T>, p: seq<T>, q: seq<T>, v: seq<T>)
    requires Close(p, q) && -1 <= |q| - |p| <= 1
    ensures Dist(a, q + v) <= Dist(a, p + v) + 1
    decreases |a| + |v|
  {
    if v == [] {
      assert p + v == p && q + v == q;
    } else if a != [] {
      var a', x := Split(a);
      var v', z := Split(v);
      CloseFramed(a, p, q, v');
      CloseFramed(a', p, q, v);
      CloseFramed(a', p, q, v');
      assert p + v == (p + v') + [z] && q + v == (q + v') + [z];
      DistUnfold(a', x, p + v', z);
      DistUnfold(a', x, q + v', z);
    }
  }

  lemma {:induction false} EditIsClose<T(!new)>(e: Edit<T>, s: seq<T>) returns (p: seq<T>, q: seq<T>, v: seq<T>)
    requires Applies(e, s)
    ensures s == q + v && Apply(e, s) == p + v && Close(p, q) && -1 <= |q| - |p| <= 1
  {
    var u := s[..e.at];
    match e
    case Insert(i, x) =>
      p, q, v := u + [x], u, s[i..];
      forall a: seq<T> ensures Dist(a, q) <= Dist(a, p) + 1 { DropRight(a, u, x); }
    case Delete(i) =>
      p, q, v := u, u + [s[i]], s[i + 1..];
      forall a: seq<T> ensures Dist(a, q) <= Dist(a, p) + 1 { AppendRight(a, u, s[i]); }
    case Replace(i, x) =>
      p, q, v := u + [x], u + [s[i]], s[i + 1..];
      forall a: seq<T> ensures Dist(a, q) <= Dist(a, p) + 1 { SwapRight(a, u, x, s[i]); }
  }

  /** One edit brings a text at most one step nearer to any other. */
  lemma {:induction false} EditGains<T(!new)>(e: Edit<T>, a: seq<T>, b: seq<T>)
    requires Applies(e, a)
    ensures Dist(a, b) <= Dist(Apply(e, a), b) + 1
  {
    var p, q, v := EditIsClose(e, a);
    CloseFramed(b, p, q, v);
    DistSymmetric(a, b);
    DistSymmetric(Apply(e, a), b);
  }

  lemma {:induction false} DistSelf<T>(a: seq<T>)
    ensures Dist(a, a) == 0
    decreases |a|
  {
    if a != [] {
      DistSelf(a[..|a| - 1]);
    }
  }

  /** No script is shorter than the distance. */
  lemma {:induction false} NoShorterScript<T(!new)>(script: seq<Edit<T>>, a: seq<T>, b: seq<T>)
    requires Turns(script, a, b)
    ensures Dist(a, b) <= |script|
    decreases |script|
  {
    if script == [] {
      DistSelf(a);
    } else {
      NoShorterScript(script[1..], Apply(script[0], a), b);
      EditGains(script[0], a, b);
    }
  }

  lemma {:induction false} TurnsThen<T>(s: seq<Edit<T>>, t: seq<Edit<T>>, a: seq<T>, b: seq<T>, c: seq<T>)
    requires Turns(s, a, b) && Turns(t, b, c)
    ensures Turns(s + t, a, c)
    decreases |s|
  {
    if s == [] {
      assert s + t == t;
    } else {
      JoinCons(s, t);
      TurnsThen(s[1..], t, Apply(s[0], a), b, c);
      TurnsCons(s[0], s[1..] + t, a, c);
    }
  }

  lemma {:induction false} JoinCons<T>(s: seq<T>, t: seq<T>)
    requires s != []
    ensures s + t == [s[0]] + (s[1..] + t)
  {
  }

  lemma {:induction false} TurnsCons<T>(e: Edit<T>, rest: seq<Edit<T>>, a: seq<T>, c: seq<T>)
    requires Applies(e, a) && Turns(rest, Apply(e, a), c)
    ensures Turns([e] + rest, a, c)
  {
    assert ([e] + rest)[1..] == rest;
  }

  /** Positions count from the left, so a script also works with one character behind. */
  lemma {:induction false} TurnsFramed<T>(s: seq<Edit<T>>, a: seq<T>, b: seq<T>, x: T)
    requires Turns(s, a, b)
    ensures Turns(s, a + [x], b + [x])
    decreases |s|
  {
    if s != [] {
      assert Apply(s[0], a + [x]) == Apply(s[0], a) + [x];
      TurnsFramed(s[1..], Apply(s[0], a), b, x);
    }
  }

  /** Some script is as short as the distance. */
  lemma {:induction false} ShortestScript<T>(a: seq<T>, b: seq<T>) returns (script: seq<Edit<T>>)
    ensures Turns(script, a, b) && |script| == Dist(a, b)
    decreases |a| + |b|
  {
    if a == [] && b == [] {
      script := [];
    } else if a == [] || (b != [] && Dist(a, b) == Dist(a, b[..|b| - 1]) + 1) {
      var b', y := Split(b);
      assert b[..|b| - 1] == b';
      script := ShortestScript(a, b');
      var e := Insert(|b'|, y);
      assert Apply(e, b') == b;
      TurnsThen(script, [e], a, b', b);
      script := script + [e];
    } else if b == [] || Dist(a, b) == Dist(a[..|a| - 1], b) + 1 {
      var a', x := Split(a);
      assert a[..|a| - 1] == a';
      script := ShortestScript(a', b);
      var e := Delete(|a'|);
      assert Apply(e, a) == a';
      TurnsThen([e], script, a, a', b);
      script := [e] + script;
    } else {
      script := ShortestScriptDiagonal(a, b);
    }
  }

  lemma {:induction false} ShortestScriptDiagonal<T>(a: seq<T>, b: seq<T>) returns (script: seq<Edit<T>>)
    requires a != [] && b != []
    requires Dist(a, b) == Dist(a[..|a| - 1], b[..|b| - 1]) + (if a[|a| - 1] == b[|b| - 1] then 0 else 1)
    ensures Turns(script, a, b) && |script| == Dist(a, b)
    decreases |a| + |b|, 0
  {
    var a', x := Split(a);
    var b', y := Split(b);
    assert a[..|a| - 1] == a' && b[..|b| - 1] == b';
    script := ShortestScript(a', b');
    TurnsFramed(script, a', b', x);
    if x != y {
      var e := Replace(|b'|, y);
      assert Apply(e, b' + [x]) == b;
      TurnsThen(script, [e], a, b' + [x], b);
      script := script + [e];
    }
  }

  /** Zero only on equal texts. */
  lemma {:induction false} ZeroIsEqual<T>(a: seq<T>, b: seq<T>)
    ensures Dist(a, b) == 0 <==> a == b
  {
    DistSelf(a);
    var script := ShortestScript(a, b);
  }

  /** The triangle inequality. */
  lemma {:induction false} Triangle<T(!new)>(a: seq<T>, b: seq<T>, c: seq<T>)
    ensures Dist(a, c) <= Dist(a, b) + Dist(b, c)
  {
    var s := ShortestScript(a, b);
    var t := ShortestScript(b, c);
    TurnsThen(s, t, a, b, c);
    NoShorterScript(s + t, a, c);
  }

  // ---------- the two rows ----------

  /** Entry j of the row for the first i characters of a. */
  function Entry<T(==)>(a: seq<T>, b: seq<T>, i: nat, j: nat): (d: nat)
    requires i <= |a| && j <= |b|
  {
    Dist(a[..i], b[..j])
  }

  lemma {:induction false} EntryStep<T>(a: seq<T>, b: seq<T>, i: nat, j: nat)
    requires 0 < i <= |a| && 0 < j <= |b|
    ensures Entry(a, b, i, j) ==
            Min3(Entry(a, b, i, j - 1) + 1, Entry(a, b, i - 1, j) + 1,
                 Entry(a, b, i - 1, j - 1) + (if a[i - 1] == b[j - 1] then 0 else 1))
  {
    assert a[..i] == a[..i - 1] + [a[i - 1]] && b[..j] == b[..j - 1] + [b[j - 1]];
    DistUnfold(a[..i - 1], a[i - 1], b[..j - 1], b[j - 1]);
  }

  ghost predicate RowIs<T(!new)>(a: seq<T>, b: seq<T>, i: nat, row: seq<nat>, n: nat)
    requires i <= |a| && n <= |row| && n <= |b| + 1
  {
    forall j :: 0 <= j < n ==> row[j] == Entry(a, b, i, j)
  }

  /** One pass of the outer loop: cur becomes the row below prev. */
  method FillRow<T(==,!new)>(a: seq<T>, b: seq<T>, i: nat, prev: array<nat>, cur: array<nat>)
    requires 0 < i <= |a| && prev.Length == cur.Length == |b| + 1 && prev != cur
    requires RowIs(a, b, i - 1, prev[..], |b| + 1)
    modifies cur
    ensures RowIs(a, b, i, cur[..], |b| + 1)
  {
    cur[0] := i;
    var j := 1;
    while j <= |b|
      invariant 1 <= j <= |b| + 1
      invariant RowIs(a, b, i, cur[..], j)
      invariant RowIs(a, b, i - 1, prev[..], |b| + 1)
    {
      var cost := if a[i - 1] == b[j - 1] then 0 else 1;
      assert prev[..][j] == Entry(a, b, i - 1, j) && prev[..][j - 1] == Entry(a, b, i - 1, j - 1);
      assert cur[..][j - 1] == Entry(a, b, i, j - 1);
      EntryStep(a, b, i, j);
      ghost var row := cur[..];
      cur[j] := Min3(cur[j - 1] + 1, prev[j] + 1, prev[j - 1] + cost);
      assert cur[..][..j] == row[..j];
      assert forall k :: 0 <= k < j ==> cur[..][k] == row[..j][k];
      j := j + 1;
    }
  }

  method Levenshtein<T(==,!new)>(a: seq<T>, b: seq<T>) returns (d: nat)
    ensures d == Dist(a, b)
  {
    var prev := new nat[|b| + 1](j => j);
    var cur := new nat[|b| + 1];
    var i := 1;
    while i <= |a|
      invariant 1 <= i <= |a| + 1
      invariant prev.Length == cur.Length == |b| + 1 && prev != cur
      invariant fresh(prev) && fresh(cur)
      invariant RowIs(a, b, i - 1, prev[..], |b| + 1)
    {
      FillRow(a, b, i, prev, cur);
      prev, cur := cur, prev;
      i := i + 1;
    }
    d := prev[|b|];
    assert prev[..][|b|] == Entry(a, b, |a|, |b|);
    assert a[..|a|] == a && b[..|b|] == b;
  }

  // ---------- suggestions ----------

  function RuneLength(c: char): (n: nat) {
    if c < '\U{80}' then 1 else if c < '\U{800}' then 2 else if c < '\U{10000}' then 3 else 4
  }

  /** The length of a text in bytes, which is what the edit budget looks at. */
  function ByteLength(s: string): (n: nat) {
    if s == [] then 0 else RuneLength(s[0]) + ByteLength(s[1..])
  }

  function EditBudget(name: string): (n: nat) {
    if ByteLength(name) <= 4 then 1 else 2
  }

  predicate Within(key: string, name: string) {
    Dist(key, name) <= EditBudget(name)
  }

  /** The empty name reads as "no suggestion". */
  predicate Candidate(key: string, name: string) {
    name != "" && Within(key, name)
  }

  /** The order of sort.Strings: code point by code point, a prefix first. */
  predicate Leq(a: string, b: string) {
    a == [] || (b != [] && (a[0] < b[0] || (a[0] == b[0] && Leq(a[1..], b[1..]))))
  }

  ghost predicate Sorted(names: seq<string>) {
    forall i, j :: 0 <= i <= j < |names| ==> Leq(names[i], names[j])
  }

  function Eligible(key: string): (r: string -> bool) {
    name => Candidate(key, name)
  }

  function Distance(key: string): (r: string -> nat) {
    name => Dist(key, name)
  }

  /** best is the first of the nearest eligible names among the first n, or none if there is none. */
  ghost predicate Best<N(!new)>(names: seq<N>, ok: N -> bool, dist: N -> nat, none: N, n: nat, best: N)
    requires n <= |names|
  {
    if best == none then forall k :: 0 <= k < n ==> !ok(names[k])
    else exists i: nat :: FirstNearest(names, ok, dist, n, i) && names[i] == best
  }

  ghost predicate FirstNearest<N(!new)>(names: seq<N>, ok: N -> bool, dist: N -> nat, n: nat, i: nat)
    requires n <= |names|
  {
    && i < n && ok(names[i])
    && (forall k :: 0 <= k < i && ok(names[k]) ==> dist(names[k]) > dist(names[i]))
    && (forall k :: i < k < n && ok(names[k]) ==> dist(names[k]) >= dist(names[i]))
  }

  lemma {:induction false} BestSkips<N(!new)>(names: seq<N>, ok: N -> bool, dist: N -> nat, none: N, i: nat, best: N)
    requires i < |names| && Best(names, ok, dist, none, i, best)
    requires !ok(names[i]) || (best != none && dist(names[i]) >= dist(best))
    ensures Best(names, ok, dist, none, i + 1, best)
  {
    if best != none {
      var k: nat :| FirstNearest(names, ok, dist, i, k) && names[k] == best;
      assert FirstNearest(names, ok, dist, i + 1, k);
    }
  }

  lemma {:induction false} BestTakes<N(!new)>(names: seq<N>, ok: N -> bool, dist: N -> nat, none: N, i: nat, best: N)
    requires i < |names| && Best(names, ok, dist, none, i, best) && ok(names[i]) && names[i] != none
    requires best == none || dist(names[i]) < dist(best)
    ensures Best(names, ok, dist, none, i + 1, names[i])
  {
    if best != none {
      var k: nat :| FirstNearest(names, ok, dist, i, k) && names[k] == best;
    }
    assert FirstNearest(names, ok, dist, i + 1, i);
  }

  /** Among sorted names, an empty one comes before every other. */
  lemma {:induction false} EmptyFirst(names: seq<string>, i: nat, j: nat)
    requires Sorted(names) && i <= j < |names| && names[j] == ""
    ensures names[i] == ""
  {
    assert Leq(names[i], names[j]);
  }

  /**
   suggest on a trimmed and lower-cased key: an alias if there is one, else the first in
   sorted order among the nearest keys within their own budget.
   */
  method Suggest(aliases: map<string, string>, names: seq<string>, key: string) returns (r: string)
    requires Sorted(names)
    ensures key in aliases ==> r == aliases[key]
    ensures key !in aliases ==> Best(names, Eligible(key), Distance(key), "", |names|, r)
    ensures key !in aliases ==> Suggests(key, names, r)
  {
    if key in aliases {
      return aliases[key];
    }
    ghost var ok, dist := Eligible(key), Distance(key);
    var best, bestDist := "", 0;
    var i := 0;
    while i < |names|
      invariant 0 <= i <= |names|
      invariant Best(names, ok, dist, "", i, best)
      invariant best != "" ==> bestDist == Dist(key, best)
      invariant best != "" ==> i > 0 && names[i - 1] != ""
    {
      var name := names[i];
      var d := Levenshtein(key, name);
      if best != "" && name == "" {
        EmptyFirst(names, i - 1, i);
      }
      if d <= EditBudget(name) && (best == "" || d < bestDist) {
        if name == "" {
          BestSkips(names, ok, dist, "", i, best);
        } else {
          BestTakes(names, ok, dist, "", i, best);
        }
        best, bestDist := name, d;
      } else {
        BestSkips(names, ok, dist, "", i, best);
      }
      i := i + 1;
    }
    BestSuggests(key, names, best);
    r := best;
  }

  lemma {:induction false} LeastOfNearest<N(!new)>(names: seq<N>, ok: N -> bool, dist: N -> nat, none: N, best: N, k: nat) returns (i: nat)
    requires Best(names, ok, dist, none, |names|, best) && k < |names| && ok(names[k])
    ensures best != none && i < |names| && names[i] == best && ok(best)
    ensures dist(best) <= dist(names[k])
    ensures dist(best) == dist(names[k]) ==> i <= k
  {
    i :| FirstNearest(names, ok, dist, |names|, i) && names[i] == best;
  }

  /** The suggestion is the least, in sorted order, of the nearest keys. */
  lemma {:induction false} SuggestionIsLeast(key: string, names: seq<string>, best: string, k: nat)
    requires Sorted(names) && Best(names, Eligible(key), Distance(key), "", |names|, best)
    requires k < |names| && Candidate(key, names[k])
    ensures best != "" && Candidate(key, best) && best in names
    ensures Dist(key, best) <= Dist(key, names[k])
    ensures Dist(key, best) == Dist(key, names[k]) ==> Leq(best, names[k])
  {
    var i := LeastOfNearest(names, Eligible(key), Distance(key), "", best, k);
    assert Distance(key)(best) == Dist(key, best);
    assert i <= k ==> Leq(names[i], names[k]);
  }

  // ---------- the suggestion, by edit scripts ----------

  /** How many characters of the text are at or above c. */
  function AtLeast(s: string, c: char): (n: nat) {
    if s == [] then 0 else AtLeast(s[1..], c) + if s[0] < c then 0 else 1
  }

  /** In UTF-8 a character has one byte, and one more from each of three code points on. */
  lemma {:induction false} BytesAre(s: string)
    ensures ByteLength(s) == |s| + AtLeast(s, '\U{80}') + AtLeast(s, '\U{800}') + AtLeast(s, '\U{10000}')
  {
    if s != [] {
      BytesAre(s[1..]);
    }
  }

  predicate IsLong(name: string) {
    |name| + AtLeast(name, '\U{80}') + AtLeast(name, '\U{800}') + AtLeast(name, '\U{10000}') > 4
  }

  /** The script turns the key into the name with one edit, or with two if the name is longer than four bytes. */
  predicate Corrects(key: string, name: string, script: seq<Edit<char>>) {
    name != "" && Turns(script, key, name) && |script| <= if IsLong(name) then 2 else 1
  }

  lemma {:induction false} CandidateIs(key: string, name: string) returns (script: seq<Edit<char>>)
    ensures Turns(script, key, name) && |script| == Dist(key, name)
    ensures Candidate(key, name) <==> Corrects(key, name, script)
    ensures forall s :: Corrects(key, name, s) ==> Candidate(key, name) && |script| <= |s|
  {
    script := ShortestScript(key, name);
    BytesAre(name);
    forall s | Corrects(key, name, s)
      ensures Candidate(key, name) && |script| <= |s|
    {
      NoShorterScript(s, key, name);
    }
  }

  /** No correction of the key into a known name is shorter than this one, and among the shortest this name comes first. */
  ghost predicate NoBetter(key: string, names: seq<string>, best: string, script: seq<Edit<char>>) {
    forall n, s :: n in names && Corrects(key, n, s) ==> |script| <= |s| && (|script| == |s| ==> Leq(best, n))
  }

  /** What is suggested: the name that the shortest correction leads to, and nothing if there is no correction. */
  ghost predicate Suggests(key: string, names: seq<string>, r: string) {
    if r == "" then forall n, s :: n in names ==> !Corrects(key, n, s)
    else r in names && exists script :: Corrects(key, r, script) && NoBetter(key, names, r, script)
  }

  lemma {:induction false} CorrectedIsCandidate(key: string, names: seq<string>, n: string, s: seq<Edit<char>>) returns (k: nat)
    requires n in names && Corrects(key, n, s)
    ensures k < |names| && names[k] == n && Candidate(key, n) && Dist(key, n) <= |s|
  {
    k :| 0 <= k < |names| && names[k] == n;
    var script := CandidateIs(key, n);
  }

  /** The best name of the search is that suggestion. */
  lemma {:induction false} BestSuggests(key: string, names: seq<string>, best: string)
    requires Sorted(names) && Best(names, Eligible(key), Distance(key), "", |names|, best)
    ensures Suggests(key, names, best)
  {
    if best == "" {
      forall n, s | n in names
        ensures !Corrects(key, n, s)
      {
        if Corrects(key, n, s) {
          var k := CorrectedIsCandidate(key, names, n, s);
          SuggestionIsLeast(key, names, best, k);
        }
      }
    } else {
      var i: nat :| FirstNearest(names, Eligible(key), Distance(key), |names|, i) && names[i] == best;
      assert Eligible(key)(best) && Candidate(key, best);
      var script := CandidateIs(key, best);
      forall n, s | n in names && Corrects(key, n, s)
        ensures |script| <= |s| && (|script| == |s| ==> Leq(best, n))
      {
        var k := CorrectedIsCandidate(key, names, n, s);
        SuggestionIsLeast(key, names, best, k);
      }
      assert Corrects(key, best, script) && NoBetter(key, names, best, script);
    }
  }
}
