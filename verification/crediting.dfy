/**
 Who pays for which usage event, by position. A fingerprint rule, read event by event, decides
 which run an event is the fingerprint of; only one assignment satisfies it. The table that
 Attribute fills is, field by field, the sum over the events this assignment and the time
 windows credit to a run.
 */
module Crediting {
  import opened Wrappers
  import opened Attribution

  type Credit = nat -> Option<int>

  // ---------- the only run ----------

  ghost predicate OnlyAt(runs: seq<Run>, p: Run -> bool, k: int) {
    0 <= k < |runs| && p(runs[k]) && forall j :: 0 <= j < |runs| && j != k ==> !p(runs[j])
  }

  ghost predicate TwoOf(runs: seq<Run>, p: Run -> bool) {
    exists j, k :: 0 <= j < k < |runs| && p(runs[j]) && p(runs[k])
  }

  lemma {:induction false} LastSelected(runs: seq<Run>, p: Run -> bool)
    requires runs != [] && p(runs[|runs| - 1])
    ensures var n := |runs| - 1;
            var none := forall j :: 0 <= j < n ==> !p(runs[..n][j]);
            && (TwoOf(runs, p) <==> !none)
            && (forall k :: OnlyAt(runs, p, k) <==> k == n && none)
  {
    var n := |runs| - 1;
    if j :| 0 <= j < n && p(runs[..n][j]) {
      assert p(runs[j]) && p(runs[n]);
    }
    if TwoOf(runs, p) {
      var j, k :| 0 <= j < k < |runs| && p(runs[j]) && p(runs[k]);
      assert p(runs[..n][j]);
    }
    forall k
      ensures OnlyAt(runs, p, k) <==> k == n && forall j :: 0 <= j < n ==> !p(runs[..n][j])
    {
      if OnlyAt(runs, p, k) {
        assert k == n;
        assert forall j :: 0 <= j < n ==> runs[..n][j] == runs[j];
      }
    }
  }

  lemma {:induction false} LastPassed(runs: seq<Run>, p: Run -> bool)
    requires runs != [] && !p(runs[|runs| - 1])
    ensures var front := runs[..|runs| - 1];
            && (TwoOf(runs, p) <==> TwoOf(front, p))
            && (forall k :: OnlyAt(runs, p, k) <==> OnlyAt(front, p, k))
  {
    var front := runs[..|runs| - 1];
    if TwoOf(front, p) {
      var j, k :| 0 <= j < k < |front| && p(front[j]) && p(front[k]);
      assert p(runs[j]) && p(runs[k]);
    }
    if TwoOf(runs, p) {
      var j, k :| 0 <= j < k < |runs| && p(runs[j]) && p(runs[k]);
      assert p(front[j]) && p(front[k]);
    }
    forall k
      ensures OnlyAt(runs, p, k) <==> OnlyAt(front, p, k)
    {
      assert forall j :: 0 <= j < |front| ==> front[j] == runs[j];
    }
  }

  /** The runs in hits are those with the property: none, the only one, or more. */
  ghost predicate Hits(runs: seq<Run>, p: Run -> bool, hits: seq<Run>) {
    && (|hits| == 0 <==> forall j :: 0 <= j < |runs| ==> !p(runs[j]))
    && (|hits| > 1 <==> TwoOf(runs, p))
    && (forall k :: OnlyAt(runs, p, k) ==> hits == [runs[k]])
    && (|hits| == 1 ==> exists k :: OnlyAt(runs, p, k))
  }

  lemma {:induction false} HitsAdd(runs: seq<Run>, p: Run -> bool, hits: seq<Run>)
    requires runs != [] && p(runs[|runs| - 1]) && Hits(runs[..|runs| - 1], p, hits)
    ensures Hits(runs, p, hits + [runs[|runs| - 1]])
  {
    LastSelected(runs, p);
    if |hits| == 0 {
      assert OnlyAt(runs, p, |runs| - 1);
    }
  }

  lemma {:induction false} HitsKeep(runs: seq<Run>, p: Run -> bool, hits: seq<Run>)
    requires runs != [] && !p(runs[|runs| - 1]) && Hits(runs[..|runs| - 1], p, hits)
    ensures Hits(runs, p, hits)
  {
    var front := runs[..|runs| - 1];
    LastPassed(runs, p);
    assert (forall j :: 0 <= j < |runs| ==> !p(runs[j])) <==> forall j :: 0 <= j < |front| ==> !p(front[j]) by {
      assert forall j :: 0 <= j < |front| ==> front[j] == runs[j];
    }
    assert forall k :: OnlyAt(runs, p, k) ==> OnlyAt(front, p, k) && front[k] == runs[k];
    if k :| OnlyAt(front, p, k) {
      assert OnlyAt(runs, p, k);
    }
  }

  lemma {:induction false} SelectHits(runs: seq<Run>, p: Run -> bool)
    ensures Hits(runs, p, Select(runs, p))
  {
    if runs != [] {
      SelectHits(runs[..|runs| - 1], p);
      if p(runs[|runs| - 1]) {
        HitsAdd(runs, p, Select(runs[..|runs| - 1], p));
      } else {
        HitsKeep(runs, p, Select(runs[..|runs| - 1], p));
      }
    }
  }

  lemma {:induction false} OnlyMeans(runs: seq<Run>, p: Run -> bool, id: int)
    ensures Only(Select(runs, p)) == Some(id) <==> exists k :: OnlyAt(runs, p, k) && runs[k].id == id
  {
    SelectHits(runs, p);
  }

  // ---------- fingerprints ----------

  /** Run r has the token counts of event i, and no earlier event is its fingerprint. */
  ghost predicate Free(events: seq<Event>, f: Credit, i: nat, r: Run)
    requires i < |events|
  {
    OwnEvent(events[i], r) && forall j: nat :: j < i ==> f(j) != Some(r.id)
  }

  ghost predicate OnlyFree(events: seq<Event>, runs: seq<Run>, f: Credit, i: nat, k: int)
    requires i < |events|
  {
    0 <= k < |runs| && Free(events, f, i, runs[k]) && forall j :: 0 <= j < |runs| && j != k ==> !Free(events, f, i, runs[j])
  }

  ghost predicate FingerRule(events: seq<Event>, runs: seq<Run>, f: Credit, i: nat, id: int)
    requires i < |events|
  {
    f(i) == Some(id) <==> exists k :: OnlyFree(events, runs, f, i, k) && runs[k].id == id
  }

  /** Each event is the fingerprint of the only run left that it can be the fingerprint of. */
  ghost predicate Fingers(events: seq<Event>, runs: seq<Run>, f: Credit) {
    forall i: nat, id :: i < |events| ==> FingerRule(events, runs, f, i, id)
  }

  lemma {:induction false} MatchedMeans(events: seq<Event>, runs: seq<Run>, n: nat, id: int)
    requires n <= |events|
    ensures id in Matched(events, runs, n) <==> exists j: nat :: j < n && FingerOf(events, runs)(j) == Some(id)
    decreases n
  {
    if n > 0 {
      MatchedMeans(events, runs, n - 1, id);
      assert FingerOf(events, runs)(n - 1) == Finger(events, runs, n - 1);
    }
  }

  function FingerTest(ev: Event, matched: set<int>): (p: Run -> bool)
    requires ev.time.Some?
  {
    (r: Run) => r.id !in matched && FingerprintMatch(ev, r) && InWindow(ev.time.value, r, FINGERPRINT_SKEW)
  }

  lemma {:induction false} TestIsFree(events: seq<Event>, runs: seq<Run>, i: nat, r: Run)
    requires i < |events| && events[i].time.Some?
    ensures FingerTest(events[i], Matched(events, runs, i))(r) <==> Free(events, FingerOf(events, runs), i, r)
  {
    MatchedMeans(events, runs, i, r.id);
  }

  lemma {:induction false} FingerObeys(events: seq<Event>, runs: seq<Run>, i: nat, id: int)
    requires i < |events|
    ensures FingerRule(events, runs, FingerOf(events, runs), i, id)
  {
    var f, ev := FingerOf(events, runs), events[i];
    if ev.time.Some? {
      var p := FingerTest(ev, Matched(events, runs, i));
      assert FingerHits(ev, runs, Matched(events, runs, i)) == Select(runs, p) by {
        SelectSame(runs, p, (r: Run) => r.id !in Matched(events, runs, i) && FingerprintMatch(ev, r) && InWindow(ev.time.value, r, FINGERPRINT_SKEW));
      }
      OnlyMeans(runs, p, id);
      forall k
        ensures OnlyAt(runs, p, k) <==> OnlyFree(events, runs, f, i, k)
      {
        OnlyFreeIs(events, runs, p, i, k);
      }
    }
  }

  lemma {:induction false} SelectSame(runs: seq<Run>, p: Run -> bool, q: Run -> bool)
    requires forall r :: p(r) <==> q(r)
    ensures Select(runs, p) == Select(runs, q)
  {
    if runs != [] {
      SelectSame(runs[..|runs| - 1], p, q);
    }
  }

  lemma {:induction false} OnlyFreeIs(events: seq<Event>, runs: seq<Run>, p: Run -> bool, i: nat, k: int)
    requires i < |events| && events[i].time.Some? && p == FingerTest(events[i], Matched(events, runs, i))
    ensures OnlyAt(runs, p, k) <==> OnlyFree(events, runs, FingerOf(events, runs), i, k)
  {
    forall j | 0 <= j < |runs|
      ensures p(runs[j]) <==> Free(events, FingerOf(events, runs), i, runs[j])
    {
      TestIsFree(events, runs, i, runs[j]);
    }
  }

  lemma {:induction false} SameFingers(events: seq<Event>, runs: seq<Run>, f: Credit, g: Credit, i: nat)
    requires Fingers(events, runs, f) && Fingers(events, runs, g) && i < |events|
    ensures f(i) == g(i)
    decreases i
  {
    forall j: nat | j < i
      ensures f(j) == g(j)
    {
      SameFingers(events, runs, f, g, j);
    }
    forall k
      ensures OnlyFree(events, runs, f, i, k) <==> OnlyFree(events, runs, g, i, k)
    {
      SameFree(events, runs, f, g, i, k);
    }
    if f(i).Some? {
      assert FingerRule(events, runs, f, i, f(i).value) && FingerRule(events, runs, g, i, f(i).value);
    }
    if g(i).Some? {
      assert FingerRule(events, runs, f, i, g(i).value) && FingerRule(events, runs, g, i, g(i).value);
    }
  }

  lemma {:induction false} SameFree(events: seq<Event>, runs: seq<Run>, f: Credit, g: Credit, i: nat, k: int)
    requires i < |events| && forall j: nat :: j < i ==> f(j) == g(j)
    ensures OnlyFree(events, runs, f, i, k) <==> OnlyFree(events, runs, g, i, k)
  {
    assert forall r :: Free(events, f, i, r) <==> Free(events, g, i, r);
  }

  /** The fingerprints of the two passes are the one assignment that obeys the rule. */
  lemma {:induction false} FingersExactly(events: seq<Event>, runs: seq<Run>, f: Credit)
    ensures Fingers(events, runs, FingerOf(events, runs))
    ensures Fingers(events, runs, f) ==> forall i: nat :: i < |events| ==> f(i) == FingerOf(events, runs)(i)
  {
    forall i: nat, id | i < |events|
      ensures FingerRule(events, runs, FingerOf(events, runs), i, id)
    {
      FingerObeys(events, runs, i, id);
    }
    if Fingers(events, runs, f) {
      forall i: nat | i < |events|
        ensures f(i) == FingerOf(events, runs)(i)
      {
        SameFingers(events, runs, f, FingerOf(events, runs), i);
      }
    }
  }

  // ---------- time windows ----------

  /** Event i lies within the skew of run r, and r has no fingerprint. */
  ghost predicate Near(events: seq<Event>, f: Credit, skew: int, i: nat, r: Run)
    requires i < |events|
  {
    && events[i].time.Some? && r.start - skew <= events[i].time.value <= r.end + skew
    && forall j: nat :: j < |events| ==> f(j) != Some(r.id)
  }

  ghost predicate OnlyNear(events: seq<Event>, runs: seq<Run>, f: Credit, skew: int, i: nat, k: int)
    requires i < |events|
  {
    0 <= k < |runs| && Near(events, f, skew, i, runs[k]) && forall j :: 0 <= j < |runs| && j != k ==> !Near(events, f, skew, i, runs[j])
  }

  /** Event i falls to run id: it is its fingerprint or, being no fingerprint, lies near this run only. */
  ghost predicate FallsTo(events: seq<Event>, runs: seq<Run>, f: Credit, skew: int, i: nat, id: int)
    requires i < |events|
  {
    if f(i).Some? then f(i) == Some(id) else exists k :: OnlyNear(events, runs, f, skew, i, k) && runs[k].id == id
  }

  /** Event i is no fingerprint, and lies near run id and another one. */
  ghost predicate TornAt(events: seq<Event>, runs: seq<Run>, f: Credit, skew: int, i: nat, j: int, k: int, id: int)
    requires i < |events|
  {
    && 0 <= j < |runs| && 0 <= k < |runs| && j != k && runs[j].id == id
    && Near(events, f, skew, i, runs[j]) && Near(events, f, skew, i, runs[k])
  }

  ghost predicate Torn(events: seq<Event>, runs: seq<Run>, f: Credit, skew: int, i: nat, id: int)
    requires i < |events|
  {
    f(i) == None && exists j, k :: TornAt(events, runs, f, skew, i, j, k, id)
  }

  function WindowTest(ev: Event, matched: set<int>, skew: int): (p: Run -> bool)
    requires ev.time.Some?
  {
    (r: Run) => r.id !in matched && InWindow(ev.time.value, r, skew)
  }

  lemma {:induction false} HitsAre(ev: Event, runs: seq<Run>, matched: set<int>, skew: int)
    requires ev.time.Some?
    ensures WindowHits(ev, runs, matched, skew) == Select(runs, WindowTest(ev, matched, skew))
  {
    SelectSame(runs, WindowTest(ev, matched, skew), (r: Run) => r.id !in matched && InWindow(ev.time.value, r, skew));
  }

  lemma {:induction false} TestIsNear(events: seq<Event>, runs: seq<Run>, skew: int, i: nat, r: Run)
    requires i < |events| && events[i].time.Some?
    ensures WindowTest(events[i], Matched(events, runs, |events|), skew)(r) <==> Near(events, FingerOf(events, runs), skew, i, r)
  {
    MatchedMeans(events, runs, |events|, r.id);
  }

  lemma {:induction false} OnlyNearIs(events: seq<Event>, runs: seq<Run>, skew: int, p: Run -> bool, i: nat, k: int)
    requires i < |events| && events[i].time.Some? && p == WindowTest(events[i], Matched(events, runs, |events|), skew)
    ensures OnlyAt(runs, p, k) <==> OnlyNear(events, runs, FingerOf(events, runs), skew, i, k)
  {
    forall j | 0 <= j < |runs|
      ensures p(runs[j]) <==> Near(events, FingerOf(events, runs), skew, i, runs[j])
    {
      TestIsNear(events, runs, skew, i, runs[j]);
    }
  }

  lemma {:induction false} WindowFalls(events: seq<Event>, runs: seq<Run>, skew: int, i: nat, id: int)
    requires i < |events| && Finger(events, runs, i).None?
    ensures Window(events, runs, skew, i) == Some(id) <==>
            exists k :: OnlyNear(events, runs, FingerOf(events, runs), skew, i, k) && runs[k].id == id
  {
    var ev, matched := events[i], Matched(events, runs, |events|);
    if ev.time.Some? {
      var p := WindowTest(ev, matched, skew);
      HitsAre(ev, runs, matched, skew);
      OnlyMeans(runs, p, id);
      forall k
        ensures OnlyAt(runs, p, k) <==> OnlyNear(events, runs, FingerOf(events, runs), skew, i, k)
      {
        OnlyNearIs(events, runs, skew, p, i, k);
      }
    }
  }

  /** An event is credited to exactly the run it falls to. */
  lemma {:induction false} CreditMeans(events: seq<Event>, runs: seq<Run>, skew: int, i: nat, id: int)
    requires i < |events|
    ensures CreditOf(events, runs, skew)(i) == Some(id) <==> FallsTo(events, runs, FingerOf(events, runs), skew, i, id)
  {
    assert FingerOf(events, runs)(i) == Finger(events, runs, i);
    if Finger(events, runs, i).None? {
      WindowFalls(events, runs, skew, i, id);
    }
  }

  lemma {:induction false} TornIs(events: seq<Event>, runs: seq<Run>, skew: int, i: nat, id: int)
    requires i < |events|
    ensures AmbiguousFor(events, runs, skew, i, id) <==> Torn(events, runs, FingerOf(events, runs), skew, i, id)
  {
    var f, ev, matched := FingerOf(events, runs), events[i], Matched(events, runs, |events|);
    assert f(i) == Finger(events, runs, i);
    if ev.time.Some? {
      var p := WindowTest(ev, matched, skew);
      HitsAre(ev, runs, matched, skew);
      SelectHits(runs, p);
      forall j | 0 <= j < |runs|
        ensures p(runs[j]) <==> Near(events, f, skew, i, runs[j])
      {
        TestIsNear(events, runs, skew, i, runs[j]);
      }
      TornHits(events, runs, f, skew, i, p, id);
    }
  }

  lemma {:induction false} TornHits(events: seq<Event>, runs: seq<Run>, f: Credit, skew: int, i: nat, p: Run -> bool, id: int)
    requires i < |events| && forall j :: 0 <= j < |runs| ==> (p(runs[j]) <==> Near(events, f, skew, i, runs[j]))
    ensures (exists j, k :: TornAt(events, runs, f, skew, i, j, k, id)) <==>
            TwoOf(runs, p) && exists r :: r in Select(runs, p) && r.id == id
  {
    if j, k :| TornAt(events, runs, f, skew, i, j, k, id) {
      assert p(runs[j]) && p(runs[k]);
      assert runs[j] in Select(runs, p);
      assert TwoOf(runs, p) by {
        if j < k {
          assert 0 <= j < k < |runs| && p(runs[j]) && p(runs[k]);
        } else {
          assert 0 <= k < j < |runs| && p(runs[k]) && p(runs[j]);
        }
      }
    }
    if TwoOf(runs, p) && exists r :: r in Select(runs, p) && r.id == id {
      var r :| r in Select(runs, p) && r.id == id;
      var j :| 0 <= j < |runs| && runs[j] == r;
      var a, b :| 0 <= a < b < |runs| && p(runs[a]) && p(runs[b]);
      assert TornAt(events, runs, f, skew, i, j, if a == j then b else a, id);
    }
  }

  // ---------- the table ----------

  /** The sum over the first n events that fall to the run. */
  ghost function CostFor(events: seq<Event>, falls: nat -> bool, n: nat): (c: real)
    requires n <= |events|
  {
    if n == 0 then 0.0 else CostFor(events, falls, n - 1) + if falls(n - 1) then events[n - 1].cost else 0.0
  }

  ghost function CountFor(falls: nat -> bool, n: nat): (c: nat) {
    if n == 0 then 0 else CountFor(falls, n - 1) + if falls(n - 1) then 1 else 0
  }

  ghost function TokensFor(events: seq<Event>, falls: nat -> bool, n: nat, field: Tokens -> int): (c: int)
    requires n <= |events|
  {
    if n == 0 then 0
    else
      var t := events[n - 1].tokens;
      TokensFor(events, falls, n - 1, field) + if falls(n - 1) && t.Some? then field(t.value) else 0
  }

  ghost predicate SumsFor(events: seq<Event>, falls: nat -> bool, n: nat, t: Total)
    requires n <= |events|
  {
    && t.cost == CostFor(events, falls, n) && t.events == CountFor(falls, n)
    && t.input == TokensFor(events, falls, n, (t: Tokens) => t.input + t.cacheWrite + t.cacheRead)
    && t.output == TokensFor(events, falls, n, (t: Tokens) => t.output)
  }

  lemma {:induction false} CreditedSums(events: seq<Event>, credit: Credit, falls: nat -> bool, n: nat, id: int)
    requires n <= |events| && forall i: nat :: i < n ==> (falls(i) <==> credit(i) == Some(id))
    ensures SumsFor(events, falls, n, Credited(events, credit, n, id))
  {
    if n > 0 {
      CreditedSums(events, credit, falls, n - 1, id);
    }
  }

  /** A tally that goes up exactly with p counts p. */
  lemma {:induction false} TallyCounts(tally: nat -> nat, p: nat -> bool, n: nat)
    requires tally(0) == 0 && forall k: nat :: k < n ==> tally(k + 1) == tally(k) + if p(k) then 1 else 0
    ensures tally(n) == CountFor(p, n)
  {
    if n > 0 {
      TallyCounts(tally, p, n - 1);
      assert tally(n - 1 + 1) == tally(n - 1) + if p(n - 1) then 1 else 0;
    }
  }

  lemma {:induction false} OneMore(events: seq<Event>, runs: seq<Run>, skew: int, k: nat, id: int, b: bool)
    requires k < |events| && (b <==> AmbiguousFor(events, runs, skew, k, id))
    ensures Ambiguous(events, runs, skew, k + 1, id) == Ambiguous(events, runs, skew, k, id) + if b then 1 else 0
  {
  }

  function TallyOf(events: seq<Event>, runs: seq<Run>, skew: int, id: int): (tally: nat -> nat) {
    (k: nat) => if k <= |events| then Ambiguous(events, runs, skew, k, id) else 0
  }

  lemma {:induction false} SameNear(events: seq<Event>, f: Credit, g: Credit, skew: int, i: nat, r: Run)
    requires i < |events| && forall j: nat :: j < |events| ==> f(j) == g(j)
    ensures Near(events, f, skew, i, r) <==> Near(events, g, skew, i, r)
  {
  }

  lemma {:induction false} SameFalls(events: seq<Event>, runs: seq<Run>, f: Credit, g: Credit, skew: int, i: nat, id: int)
    requires i < |events| && forall j: nat :: j < |events| ==> f(j) == g(j)
    ensures FallsTo(events, runs, f, skew, i, id) <==> FallsTo(events, runs, g, skew, i, id)
    ensures Torn(events, runs, f, skew, i, id) <==> Torn(events, runs, g, skew, i, id)
  {
    assert f(i) == g(i);
    forall r
      ensures Near(events, f, skew, i, r) <==> Near(events, g, skew, i, r)
    {
      SameNear(events, f, g, skew, i, r);
    }
    forall k
      ensures OnlyNear(events, runs, f, skew, i, k) <==> OnlyNear(events, runs, g, skew, i, k)
    {
    }
    forall j, k
      ensures TornAt(events, runs, f, skew, i, j, k, id) <==> TornAt(events, runs, g, skew, i, j, k, id)
    {
    }
  }

  lemma {:induction false} AmbiguousCounts(events: seq<Event>, runs: seq<Run>, skew: int, f: Credit, torn: nat -> bool, id: int)
    requires forall i: nat :: i < |events| ==> (torn(i) <==> Torn(events, runs, f, skew, i, id))
    requires forall i: nat :: i < |events| ==> f(i) == FingerOf(events, runs)(i)
    ensures Ambiguous(events, runs, skew, |events|, id) == CountFor(torn, |events|)
  {
    var tally := TallyOf(events, runs, skew, id);
    forall k: nat | k < |events|
      ensures tally(k + 1) == tally(k) + if torn(k) then 1 else 0
    {
      TornIs(events, runs, skew, k, id);
      SameFalls(events, runs, f, FingerOf(events, runs), skew, k, id);
      OneMore(events, runs, skew, k, id, torn(k));
    }
    TallyCounts(tally, torn, |events|);
  }

  /**
   What Attribute leaves for a run, given the fingerprint assignment f: the sums of cost, count,
   billed input and output over exactly the events that fall to it, whether an event is its
   fingerprint, and the number of events it has to share.
   */
  lemma {:induction false} TableExactly(events: seq<Event>, runs: seq<Run>, skew: int, f: Credit, falls: nat -> bool, torn: nat -> bool, id: int)
    requires Fingers(events, runs, f) && id in IdsOf(runs)
    requires forall i: nat :: i < |events| ==> (falls(i) <==> FallsTo(events, runs, f, skew, i, id))
    requires forall i: nat :: i < |events| ==> (torn(i) <==> Torn(events, runs, f, skew, i, id))
    ensures var a := TableOf(events, runs, skew)[id];
            && SumsFor(events, falls, |events|, a.total)
            && (a.fingerprinted <==> exists j: nat :: j < |events| && f(j) == Some(id))
            && a.ambiguous == CountFor(torn, |events|)
  {
    var g := FingerOf(events, runs);
    FingersExactly(events, runs, f);
    MatchedMeans(events, runs, |events|, id);
    forall i: nat | i < |events|
      ensures falls(i) <==> CreditOf(events, runs, skew)(i) == Some(id)
    {
      SameFalls(events, runs, f, g, skew, i, id);
      CreditMeans(events, runs, skew, i, id);
    }
    CreditedSums(events, CreditOf(events, runs, skew), falls, |events|, id);
    AmbiguousCounts(events, runs, skew, f, torn, id);
  }
}
