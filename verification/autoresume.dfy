/**
 Startup auto-resume: the interrupted instances are grouped by (task, workflow) pair, the
 newest of each pair is claimed and started, and the claim of a failed start is released.
 */
module AutoResume {
  import opened Wrappers

  // ---------- choosing what to resume ----------

  /** An interrupted instance, with its (task, workflow) pair. */
  datatype Interrupted<I, P> = Interrupted(id: I, pair: P, auto: bool)

  /** The last listed instance of the pair among the first n; rows are listed oldest first. */
  function Newest<I, P(==)>(rows: seq<Interrupted<I, P>>, n: nat, pair: P): (r: Option<Interrupted<I, P>>)
    requires n <= |rows|
    ensures r.Some? ==> r.value in rows && r.value.auto && r.value.pair == pair
  {
    if n == 0 then None
    else if rows[n - 1].auto && rows[n - 1].pair == pair then Some(rows[n - 1])
    else Newest(rows, n - 1, pair)
  }

  ghost predicate Plans<I, P(!new)>(rows: seq<Interrupted<I, P>>, n: nat, latest: map<P, Interrupted<I, P>>, p: P)
    requires n <= |rows|
  {
    var newest := Newest(rows, n, p);
    if newest.Some? then p in latest && latest[p] == newest.value else p !in latest
  }

  /** The pairs with an eligible instance, in the order of their first one. */
  function PairsOf<I, P(==,!new)>(rows: seq<Interrupted<I, P>>, n: nat): (r: seq<P>)
    requires n <= |rows|
    ensures forall p :: p in r <==> Newest(rows, n, p).Some?
    ensures forall i, j :: 0 <= i < j < |r| ==> r[i] != r[j]
  {
    if n == 0 then []
    else
      var before := PairsOf(rows, n - 1);
      if rows[n - 1].auto && rows[n - 1].pair !in before then before + [rows[n - 1].pair] else before
  }

  /** The first loop of resumeAutoInterrupted: the newest instance of each pair. */
  method Plan<I(!new), P(==,!new)>(rows: seq<Interrupted<I, P>>) returns (latest: map<P, Interrupted<I, P>>, order: seq<P>)
    ensures forall p :: Plans(rows, |rows|, latest, p)
    ensures order == PairsOf(rows, |rows|)
    ensures KeepsLast(rows, latest)
  {
    latest, order := map[], [];
    var i := 0;
    while i < |rows|
      invariant 0 <= i <= |rows|
      invariant forall p :: Plans(rows, i, latest, p)
      invariant order == PairsOf(rows, i)
    {
      var row := rows[i];
      ghost var before, next := latest, i + 1;
      assert Plans(rows, i, before, row.pair);
      if row.auto {
        if row.pair !in latest {
          order := order + [row.pair];
        }
        latest := latest[row.pair := row];
      }
      forall p
        ensures Plans(rows, next, latest, p)
      {
        assert Plans(rows, i, before, p);
      }
      i := i + 1;
    }
    PlanIsLast(rows, latest);
  }

  /** Row k is eligible, and no later row of its pair is. */
  ghost predicate LastOfPair<I(!new), P(!new)>(rows: seq<Interrupted<I, P>>, k: nat)
    requires k < |rows|
  {
    rows[k].auto && forall j :: k < j < |rows| ==> !(rows[j].auto && rows[j].pair == rows[k].pair)
  }

  /** The table holds the last eligible row of each pair, and nothing else. */
  ghost predicate KeepsLast<I(!new), P(!new)>(rows: seq<Interrupted<I, P>>, latest: map<P, Interrupted<I, P>>) {
    && (forall k :: 0 <= k < |rows| && LastOfPair(rows, k) ==> rows[k].pair in latest && latest[rows[k].pair] == rows[k])
    && (forall p :: p in latest ==> exists k :: 0 <= k < |rows| && LastOfPair(rows, k) && rows[k].pair == p)
  }

  lemma {:induction false} PlanIsLast<I(!new), P(!new)>(rows: seq<Interrupted<I, P>>, latest: map<P, Interrupted<I, P>>)
    requires forall p :: Plans(rows, |rows|, latest, p)
    ensures KeepsLast(rows, latest)
  {
    forall k | 0 <= k < |rows| && LastOfPair(rows, k)
      ensures rows[k].pair in latest && latest[rows[k].pair] == rows[k]
    {
      NewestIsLast(rows, |rows|, k);
      assert Plans(rows, |rows|, latest, rows[k].pair);
    }
    forall p | p in latest
      ensures exists k :: 0 <= k < |rows| && LastOfPair(rows, k) && rows[k].pair == p
    {
      assert Plans(rows, |rows|, latest, p);
      var k := NewestAt(rows, |rows|, p);
      assert LastOfPair(rows, k);
    }
  }

  /** What the store says about an instance when its turn comes. */
  datatype Verdicts<!I> = Verdicts(superseded: I -> bool, settled: I -> bool, starts: I -> bool)

  /** The instance to resume for a pair: its newest, if nothing stands against it. */
  function Fit<I, P(==)>(rows: seq<Interrupted<I, P>>, v: Verdicts<I>, claims: set<P>, p: P): (r: Option<Interrupted<I, P>>) {
    var newest := Newest(rows, |rows|, p);
    if newest.Some? && !v.superseded(newest.value.id) && !v.settled(newest.value.id) && p !in claims && v.starts(newest.value.id)
    then newest
    else None
  }

  function Launches<I, P(==)>(rows: seq<Interrupted<I, P>>, v: Verdicts<I>, claims: set<P>, order: seq<P>)
    : (r: seq<Interrupted<I, P>>)
  {
    if order == [] then []
    else
      var fit := Fit(rows, v, claims, order[|order| - 1]);
      Launches(rows, v, claims, order[..|order| - 1]) + if fit.Some? then [fit.value] else []
  }

  function Taken<I, P(==)>(rows: seq<Interrupted<I, P>>, v: Verdicts<I>, claims: set<P>, order: seq<P>): (r: set<P>) {
    set p | p in order && Fit(rows, v, claims, p).Some?
  }

  /** Exactly the fit instances are resumed ... */
  lemma {:induction false} LaunchesAreFit<I, P(!new)>(
    rows: seq<Interrupted<I, P>>, v: Verdicts<I>, claims: set<P>, order: seq<P>, x: Interrupted<I, P>)
    ensures x in Launches(rows, v, claims, order) <==> x.pair in order && Fit(rows, v, claims, x.pair) == Some(x)
  {
    if order != [] {
      var last := order[|order| - 1];
      LaunchesAreFit(rows, v, claims, order[..|order| - 1], x);
      assert order == order[..|order| - 1] + [last];
      assert Fit(rows, v, claims, last).Some? ==> Fit(rows, v, claims, last).value.pair == last;
    }
  }

  ghost predicate DistinctPairs<I, P(!new)>(r: seq<Interrupted<I, P>>) {
    forall i, j :: 0 <= i < j < |r| ==> r[i].pair != r[j].pair
  }

  /** ... and never two of the same pair. */
  lemma {:induction false} OneLaunchPerPair<I, P(!new)>(
    rows: seq<Interrupted<I, P>>, v: Verdicts<I>, claims: set<P>, order: seq<P>)
    requires forall i, j :: 0 <= i < j < |order| ==> order[i] != order[j]
    ensures DistinctPairs(Launches(rows, v, claims, order))
  {
    if order != [] {
      var before, last := order[..|order| - 1], order[|order| - 1];
      var r, fit := Launches(rows, v, claims, before), Fit(rows, v, claims, last);
      OneLaunchPerPair(rows, v, claims, before);
      forall i | 0 <= i < |r|
        ensures r[i].pair != last
      {
        LaunchesAreFit(rows, v, claims, before, r[i]);
      }
      if fit.Some? {
        assert fit.value.pair == last;
        assert DistinctPairs(r + [fit.value]);
      } else {
        assert r + [] == r;
      }
    }
  }

  // ---------- what is launched, by position ----------

  /** Nothing stands against resuming row k. */
  predicate Unopposed<I, P(==)>(rows: seq<Interrupted<I, P>>, v: Verdicts<I>, claims: set<P>, k: nat)
    requires k < |rows|
  {
    !v.superseded(rows[k].id) && !v.settled(rows[k].id) && rows[k].pair !in claims && v.starts(rows[k].id)
  }

  /** x is the last listed eligible instance of its pair, and nothing stands against it. */
  ghost predicate Due<I(!new), P(!new)>(rows: seq<Interrupted<I, P>>, v: Verdicts<I>, claims: set<P>, x: Interrupted<I, P>) {
    exists k :: 0 <= k < |rows| && rows[k] == x && LastOfPair(rows, k) && Unopposed(rows, v, claims, k)
  }

  lemma {:induction false} NewestIsLast<I(!new), P(!new)>(rows: seq<Interrupted<I, P>>, n: nat, k: nat)
    requires k < n <= |rows| && rows[k].auto
    requires forall j :: k < j < n ==> !(rows[j].auto && rows[j].pair == rows[k].pair)
    ensures Newest(rows, n, rows[k].pair) == Some(rows[k])
  {
    if k < n - 1 {
      NewestIsLast(rows, n - 1, k);
    }
  }

  lemma {:induction false} NewestAt<I(!new), P(!new)>(rows: seq<Interrupted<I, P>>, n: nat, p: P) returns (k: nat)
    requires n <= |rows| && Newest(rows, n, p).Some?
    ensures k < n && rows[k].auto && rows[k].pair == p && Newest(rows, n, p) == Some(rows[k])
    ensures forall j :: k < j < n ==> !(rows[j].auto && rows[j].pair == p)
  {
    if rows[n - 1].auto && rows[n - 1].pair == p {
      k := n - 1;
      NewestIsLast(rows, n, k);
    } else {
      k := NewestAt(rows, n - 1, p);
    }
  }

  /** Exactly the instances that are due are launched: of each pair the last listed one, and no other. */
  lemma {:induction false} LaunchedIsDue<I(!new), P(!new)>(
    rows: seq<Interrupted<I, P>>, v: Verdicts<I>, claims: set<P>, x: Interrupted<I, P>)
    ensures x in Launches(rows, v, claims, PairsOf(rows, |rows|)) <==> Due(rows, v, claims, x)
  {
    LaunchesAreFit(rows, v, claims, PairsOf(rows, |rows|), x);
    if Fit(rows, v, claims, x.pair) == Some(x) {
      var k := NewestAt(rows, |rows|, x.pair);
      assert rows[k] == x && LastOfPair(rows, k) && Unopposed(rows, v, claims, k);
    }
    if Due(rows, v, claims, x) {
      var k :| 0 <= k < |rows| && rows[k] == x && LastOfPair(rows, k) && Unopposed(rows, v, claims, k);
      NewestIsLast(rows, |rows|, k);
    }
  }

  /** Exactly the pairs of those are claimed. */
  lemma {:induction false} TakenIsDue<I(!new), P(!new)>(rows: seq<Interrupted<I, P>>, v: Verdicts<I>, claims: set<P>, p: P)
    ensures p in Taken(rows, v, claims, PairsOf(rows, |rows|)) <==> exists x :: Due(rows, v, claims, x) && x.pair == p
  {
    if p in Taken(rows, v, claims, PairsOf(rows, |rows|)) {
      var x := Fit(rows, v, claims, p).value;
      LaunchesAreFit(rows, v, claims, PairsOf(rows, |rows|), x);
      LaunchedIsDue(rows, v, claims, x);
    }
    if x :| Due(rows, v, claims, x) && x.pair == p {
      LaunchedIsDue(rows, v, claims, x);
      LaunchesAreFit(rows, v, claims, PairsOf(rows, |rows|), x);
    }
  }

  ghost predicate LaunchedDue<I(!new), P(!new)>(
    rows: seq<Interrupted<I, P>>, v: Verdicts<I>, claims: set<P>, launched: seq<Interrupted<I, P>>)
  {
    forall x :: x in launched <==> Due(rows, v, claims, x)
  }

  ghost predicate ClaimedDue<I(!new), P(!new)>(rows: seq<Interrupted<I, P>>, v: Verdicts<I>, claims: set<P>, taken: set<P>) {
    forall p :: p in taken <==> exists x :: Due(rows, v, claims, x) && x.pair == p
  }

  lemma {:induction false} AllDue<I(!new), P(!new)>(rows: seq<Interrupted<I, P>>, v: Verdicts<I>, claims: set<P>)
    ensures LaunchedDue(rows, v, claims, Launches(rows, v, claims, PairsOf(rows, |rows|)))
    ensures ClaimedDue(rows, v, claims, Taken(rows, v, claims, PairsOf(rows, |rows|)))
  {
    forall x
      ensures x in Launches(rows, v, claims, PairsOf(rows, |rows|)) <==> Due(rows, v, claims, x)
    {
      LaunchedIsDue(rows, v, claims, x);
    }
    forall p
      ensures p in Taken(rows, v, claims, PairsOf(rows, |rows|)) <==> exists x :: Due(rows, v, claims, x) && x.pair == p
    {
      TakenIsDue(rows, v, claims, p);
    }
  }

  lemma {:induction false} NewlyTaken<I, P(!new)>(rows: seq<Interrupted<I, P>>, v: Verdicts<I>, claims: set<P>, order: seq<P>)
    ensures claims + Taken(rows, v, claims, order) - claims == Taken(rows, v, claims, order)
  {
  }

  /** Row k is the first eligible one of its pair. */
  ghost predicate FirstOfPair<I(!new), P(!new)>(rows: seq<Interrupted<I, P>>, k: nat)
    requires k < |rows|
  {
    rows[k].auto && forall j :: 0 <= j < k ==> !(rows[j].auto && rows[j].pair == rows[k].pair)
  }

  /** Pairs are taken up in the order of their first eligible row. */
  lemma {:induction false} PairsInOrder<I(!new), P(!new)>(rows: seq<Interrupted<I, P>>, n: nat, a: nat, b: nat)
    requires n <= |rows| && a < b < n && FirstOfPair(rows, a) && FirstOfPair(rows, b)
    ensures exists i, j :: 0 <= i < j < |PairsOf(rows, n)| && PairsOf(rows, n)[i] == rows[a].pair && PairsOf(rows, n)[j] == rows[b].pair
  {
    var order := PairsOf(rows, n);
    var before := PairsOf(rows, n - 1);
    if b < n - 1 {
      PairsInOrder(rows, n - 1, a, b);
      var i, j :| 0 <= i < j < |before| && before[i] == rows[a].pair && before[j] == rows[b].pair;
      assert order[i] == rows[a].pair && order[j] == rows[b].pair;
    } else {
      assert rows[a].pair in before by {
        NewestSome(rows, n - 1, a);
      }
      var i :| 0 <= i < |before| && before[i] == rows[a].pair;
      if rows[b].pair in before {
        var k := NewestAt(rows, n - 1, rows[b].pair);
      }
      assert order == before + [rows[b].pair];
      assert order[i] == rows[a].pair && order[|before|] == rows[b].pair;
    }
  }

  lemma {:induction false} NewestSome<I(!new), P(!new)>(rows: seq<Interrupted<I, P>>, n: nat, k: nat)
    requires k < n <= |rows| && rows[k].auto
    ensures Newest(rows, n, rows[k].pair).Some?
  {
    if k < n - 1 {
      NewestSome(rows, n - 1, k);
    }
  }

  lemma {:induction false} LaunchNext<I, P(!new)>(rows: seq<Interrupted<I, P>>, v: Verdicts<I>, claims: set<P>, order: seq<P>, i: nat)
    requires i < |order| && order[i] !in order[..i]
    ensures var fit := Fit(rows, v, claims, order[i]);
            && Launches(rows, v, claims, order[..i + 1]) ==
               Launches(rows, v, claims, order[..i]) + (if fit.Some? then [fit.value] else [])
            && Taken(rows, v, claims, order[..i + 1]) ==
               Taken(rows, v, claims, order[..i]) + (if fit.Some? then {order[i]} else {})
            && order[i] !in Taken(rows, v, claims, order[..i])
  {
    assert order[..i + 1] == order[..i] + [order[i]] && order[..i + 1][..i] == order[..i];
  }

  /** The claims of the dispatcher and the resumes it has launched. */
  class Resumer<I(==,!new), P(==,!new)> {
    var claims: set<P>
    var launched: seq<Interrupted<I, P>>

    constructor ()
      ensures claims == {} && launched == []
    {
      claims, launched := {}, [];
    }

    /** The second loop: the fit instances are launched under their claims, which stay. */
    method ResumeAutoInterrupted(rows: seq<Interrupted<I, P>>, v: Verdicts<I>)
      modifies this
      ensures var order := PairsOf(rows, |rows|);
              && launched == old(launched) + Launches(rows, v, old(claims), order)
              && claims == old(claims) + Taken(rows, v, old(claims), order)
      ensures old(launched) <= launched && LaunchedDue(rows, v, old(claims), launched[|old(launched)|..])
      ensures old(claims) <= claims && ClaimedDue(rows, v, old(claims), claims - old(claims))
    {
      var latest, order := Plan(rows);
      var i := 0;
      while i < |order|
        invariant 0 <= i <= |order|
        invariant launched == old(launched) + Launches(rows, v, old(claims), order[..i])
        invariant claims == old(claims) + Taken(rows, v, old(claims), order[..i])
      {
        var p := order[i];
        assert Newest(rows, |rows|, p).Some? && Plans(rows, |rows|, latest, p);
        assert p !in order[..i];
        LaunchNext(rows, v, old(claims), order, i);
        var inst := latest[p];
        if !v.superseded(inst.id) && !v.settled(inst.id) && p !in claims {
          claims := claims + {p};
          if v.starts(inst.id) {
            launched := launched + [inst];
          } else {
            claims := claims - {p};
          }
        }
        i := i + 1;
      }
      assert order[..|order|] == order;
      AllDue(rows, v, old(claims));
      NewlyTaken(rows, v, old(claims), order);
    }
  }
}
