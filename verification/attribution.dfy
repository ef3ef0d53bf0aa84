/**
 Attribute: which usage event pays for which run. Events are matched by token fingerprint
 first and by time window second; money that fits no run, or several, goes to none.
 */
module Attribution {
  import opened Wrappers

  datatype Tokens = Tokens(input: int, output: int, cacheWrite: int, cacheRead: int)

  /** A usage event; an unparseable timestamp has no time. */
  datatype Event = Event(time: Option<int>, tokens: Option<Tokens>, cost: real)

  /** A finished run; input is the full billed input, caches included. */
  datatype Run = Run(id: int, start: int, end: int, input: int, output: int, cacheWrite: int, cacheRead: int)

  datatype Attribution = Attribution(total: Total, fingerprinted: bool, ambiguous: nat)

  datatype Total = Total(cost: real, events: nat, input: int, output: int)

  function Nothing(): (t: Total) {
    Total(0.0, 0, 0, 0)
  }

  // milliseconds
  const FINGERPRINT_SKEW := 15 * 60 * 1000

  function Input(t: Tokens): (n: int) {
    t.input + t.cacheWrite + t.cacheRead
  }

  /** What one event adds to a run. */
  function Worth(ev: Event): (t: Total) {
    match ev.tokens
    case None => Total(ev.cost, 1, 0, 0)
    case Some(t) => Total(ev.cost, 1, Input(t), t.output)
  }

  function Plus(a: Total, b: Total): (t: Total) {
    Total(a.cost + b.cost, a.events + b.events, a.input + b.input, a.output + b.output)
  }

  predicate FingerprintMatch(ev: Event, r: Run) {
    && ev.tokens.Some?
    && var t := ev.tokens.value;
    Input(t) == r.input && t.output == r.output && t.cacheWrite == r.cacheWrite && t.cacheRead == r.cacheRead
  }

  predicate InWindow(t: int, r: Run, skew: int) {
    r.start - skew <= t <= r.end + skew
  }

  // ---------- who is credited ----------

  function Select(runs: seq<Run>, p: Run -> bool): (r: seq<Run>)
    ensures forall x :: x in r <==> x in runs && p(x)
  {
    if runs == [] then []
    else
      var rest := Select(runs[..|runs| - 1], p);
      var last := runs[|runs| - 1];
      if p(last) then rest + [last] else rest
  }

  function FingerHits(ev: Event, runs: seq<Run>, matched: set<int>): (r: seq<Run>) {
    if ev.time.None? then []
    else Select(runs, (r: Run) => r.id !in matched && FingerprintMatch(ev, r) && InWindow(ev.time.value, r, FINGERPRINT_SKEW))
  }

  function WindowHits(ev: Event, runs: seq<Run>, matched: set<int>, skew: int): (r: seq<Run>) {
    if ev.time.None? then []
    else Select(runs, (r: Run) => r.id !in matched && InWindow(ev.time.value, r, skew))
  }

  function Only(hits: seq<Run>): (r: Option<int>) {
    if |hits| == 1 then Some(hits[0].id) else None
  }

  /** The runs matched by the first n events. */
  function Matched(events: seq<Event>, runs: seq<Run>, n: nat): (r: set<int>)
    requires n <= |events|
    decreases n, 0
  {
    if n == 0 then {}
    else
      var f := Finger(events, runs, n - 1);
      Matched(events, runs, n - 1) + if f.Some? then {f.value} else {}
  }

  /** The run that event i is the fingerprint of: the only one left that matches. */
  function Finger(events: seq<Event>, runs: seq<Run>, i: nat): (r: Option<int>)
    requires i < |events|
    decreases i, 1
  {
    Only(FingerHits(events[i], runs, Matched(events, runs, i)))
  }

  /** The run that event i falls to by its time alone. */
  function Window(events: seq<Event>, runs: seq<Run>, skew: int, i: nat): (r: Option<int>)
    requires i < |events|
  {
    if Finger(events, runs, i).Some? then None
    else Only(WindowHits(events[i], runs, Matched(events, runs, |events|), skew))
  }

  function FingerOf(events: seq<Event>, runs: seq<Run>): (r: nat -> Option<int>) {
    (i: nat) => if i < |events| then Finger(events, runs, i) else None
  }

  function WindowOf(events: seq<Event>, runs: seq<Run>, skew: int): (r: nat -> Option<int>) {
    (i: nat) => if i < |events| then Window(events, runs, skew, i) else None
  }

  /** The one run that event i is credited to. */
  function CreditOf(events: seq<Event>, runs: seq<Run>, skew: int): (r: nat -> Option<int>) {
    (i: nat) =>
      if i >= |events| then None
      else if Finger(events, runs, i).Some? then Finger(events, runs, i)
      else Window(events, runs, skew, i)
  }

  /** The sum of the first n events credited to id. */
  function Credited(events: seq<Event>, credit: nat -> Option<int>, n: nat, id: int): (t: Total)
    requires n <= |events|
  {
    if n == 0 then Nothing()
    else
      var t := Credited(events, credit, n - 1, id);
      if credit(n - 1) == Some(id) then Plus(t, Worth(events[n - 1])) else t
  }

  predicate AmbiguousFor(events: seq<Event>, runs: seq<Run>, skew: int, i: nat, id: int)
    requires i < |events|
  {
    && Finger(events, runs, i).None?
    && var hits := WindowHits(events[i], runs, Matched(events, runs, |events|), skew);
    |hits| > 1 && exists r :: r in hits && r.id == id
  }

  /** How many of the first n events fit the run and another one too. */
  function Ambiguous(events: seq<Event>, runs: seq<Run>, skew: int, n: nat, id: int): (k: nat)
    requires n <= |events|
  {
    if n == 0 then 0
    else Ambiguous(events, runs, skew, n - 1, id) + if AmbiguousFor(events, runs, skew, n - 1, id) then 1 else 0
  }

  ghost predicate DistinctIds(runs: seq<Run>) {
    forall i, j :: 0 <= i < j < |runs| ==> runs[i].id != runs[j].id
  }

  // ---------- what the result guarantees ----------

  /** h credits what f or else g credits. */
  ghost predicate SplitAt(f: nat -> Option<int>, g: nat -> Option<int>, h: nat -> Option<int>, i: nat) {
    h(i) == (if f(i).Some? then f(i) else g(i)) && (f(i).Some? ==> g(i).None?)
  }

  lemma {:induction false} CreditSplits(
    events: seq<Event>, f: nat -> Option<int>, g: nat -> Option<int>, h: nat -> Option<int>, n: nat, id: int)
    requires n <= |events| && forall i: nat :: SplitAt(f, g, h, i)
    ensures Credited(events, h, n, id) == Plus(Credited(events, f, n, id), Credited(events, g, n, id))
  {
    if n > 0 {
      assert SplitAt(f, g, h, n - 1);
      CreditSplits(events, f, g, h, n - 1, id);
    }
  }

  ghost predicate OnlyAt(credit: nat -> Option<int>, k: nat, id: int, i: nat) {
    credit(i) == Some(id) <==> i == k
  }

  lemma {:induction false} NotYetCredited(events: seq<Event>, credit: nat -> Option<int>, n: nat, k: nat, id: int)
    requires n <= k && n <= |events| && forall i: nat :: i < n ==> OnlyAt(credit, k, id, i)
    ensures Credited(events, credit, n, id) == Nothing()
  {
    if n > 0 {
      assert OnlyAt(credit, k, id, n - 1);
      NotYetCredited(events, credit, n - 1, k, id);
    }
  }

  lemma {:induction false} CreditedOnce(events: seq<Event>, credit: nat -> Option<int>, n: nat, k: nat, id: int)
    requires k < n <= |events| && forall i: nat :: i < n ==> OnlyAt(credit, k, id, i)
    ensures Credited(events, credit, n, id) == Worth(events[k])
    decreases n
  {
    assert OnlyAt(credit, k, id, n - 1);
    if n - 1 == k {
      NotYetCredited(events, credit, k, k, id);
    } else {
      CreditedOnce(events, credit, n - 1, k, id);
    }
  }

  lemma {:induction false} MatchedGrows(events: seq<Event>, runs: seq<Run>, i: nat, n: nat)
    requires i <= n <= |events|
    ensures Matched(events, runs, i) <= Matched(events, runs, n)
    decreases n
  {
    if i < n {
      MatchedGrows(events, runs, i, n - 1);
    }
  }

  /** A matched run has exactly one fingerprint event. */
  lemma {:induction false} MatchedBy(events: seq<Event>, runs: seq<Run>, n: nat, id: int) returns (k: nat)
    requires n <= |events| && id in Matched(events, runs, n)
    ensures k < n && Finger(events, runs, k) == Some(id) && id !in Matched(events, runs, k)
    decreases n
  {
    if id in Matched(events, runs, n - 1) {
      k := MatchedBy(events, runs, n - 1, id);
    } else {
      k := n - 1;
    }
  }

  lemma {:induction false} FingerIsFresh(events: seq<Event>, runs: seq<Run>, i: nat)
    requires i < |events| && Finger(events, runs, i).Some?
    ensures var id := Finger(events, runs, i).value;
            && id !in Matched(events, runs, i) && id in Matched(events, runs, i + 1)
            && exists r :: r in runs && r.id == id && FingerprintMatch(events[i], r)
  {
    var hits := FingerHits(events[i], runs, Matched(events, runs, i));
    assert hits[0] in hits;
  }

  lemma {:induction false} FingerStays(events: seq<Event>, runs: seq<Run>, i: nat, k: nat)
    requires i < k <= |events| && Finger(events, runs, i).Some?
    ensures Finger(events, runs, i).value in Matched(events, runs, k)
  {
    var n := i + 1;
    assert Finger(events, runs, i).value in Matched(events, runs, n);
    MatchedGrows(events, runs, n, k);
  }

  lemma {:induction false} FingerNotAgain(events: seq<Event>, runs: seq<Run>, i: nat, k: nat)
    requires i < k < |events| && Finger(events, runs, i).Some?
    ensures Finger(events, runs, k) != Finger(events, runs, i)
  {
    FingerStays(events, runs, i, k);
    if Finger(events, runs, k).Some? {
      FingerIsFresh(events, runs, k);
    }
  }

  lemma {:induction false} WindowIsUnmatched(events: seq<Event>, runs: seq<Run>, skew: int, i: nat, id: int)
    requires i < |events| && id in Matched(events, runs, |events|)
    ensures Window(events, runs, skew, i) != Some(id)
    ensures !AmbiguousFor(events, runs, skew, i, id)
  {
    var hits := WindowHits(events[i], runs, Matched(events, runs, |events|), skew);
    assert |hits| == 1 ==> hits[0] in hits;
  }

  lemma {:induction false} MatchedUnambiguous(events: seq<Event>, runs: seq<Run>, skew: int, n: nat, id: int)
    requires n <= |events| && id in Matched(events, runs, |events|)
    ensures Ambiguous(events, runs, skew, n, id) == 0
  {
    if n > 0 {
      WindowIsUnmatched(events, runs, skew, n - 1, id);
      MatchedUnambiguous(events, runs, skew, n - 1, id);
    }
  }

  lemma {:induction false} CreditedOnlyAt(events: seq<Event>, runs: seq<Run>, skew: int, id: int, k: nat, i: nat)
    requires i < |events| && k < |events| && Finger(events, runs, k) == Some(id)
    requires id in Matched(events, runs, |events|)
    ensures OnlyAt(CreditOf(events, runs, skew), k, id, i)
  {
    WindowIsUnmatched(events, runs, skew, i, id);
    if i < k && Finger(events, runs, i).Some? {
      FingerNotAgain(events, runs, i, k);
    } else if k < i {
      FingerNotAgain(events, runs, k, i);
    }
  }

  /** The event has the run's own token counts and lies within a quarter of an hour of the run. */
  predicate OwnEvent(ev: Event, r: Run) {
    && ev.tokens.Some? && ev.time.Some?
    && ev.tokens.value.input + ev.tokens.value.cacheWrite + ev.tokens.value.cacheRead == r.input
    && ev.tokens.value.output == r.output
    && ev.tokens.value.cacheWrite == r.cacheWrite && ev.tokens.value.cacheRead == r.cacheRead
    && r.start - 900000 <= ev.time.value <= r.end + 900000
  }

  lemma {:induction false} FingerIsOwn(events: seq<Event>, runs: seq<Run>, k: nat, r: Run)
    requires k < |events| && DistinctIds(runs) && r in runs && Finger(events, runs, k) == Some(r.id)
    ensures OwnEvent(events[k], r)
  {
    var hits := FingerHits(events[k], runs, Matched(events, runs, k));
    var x := hits[0];
    assert x in hits && x.id == r.id;
    var i :| 0 <= i < |runs| && runs[i] == x;
    var j :| 0 <= j < |runs| && runs[j] == r;
    assert runs[i].id == runs[j].id;
  }

  /** A fingerprinted run is credited exactly one event, which has all its token counts, and counts no ambiguity. */
  lemma {:induction false} FingerprintedRun(events: seq<Event>, runs: seq<Run>, skew: int, r: Run) returns (k: nat)
    requires DistinctIds(runs) && r in runs && r.id in Matched(events, runs, |events|)
    ensures k < |events| && OwnEvent(events[k], r)
    ensures forall i: nat :: i < |events| ==> OnlyAt(CreditOf(events, runs, skew), k, r.id, i)
    ensures Credited(events, CreditOf(events, runs, skew), |events|, r.id) == Total(events[k].cost, 1, r.input, r.output)
    ensures Ambiguous(events, runs, skew, |events|, r.id) == 0
  {
    k := MatchedBy(events, runs, |events|, r.id);
    MatchedCredit(events, runs, skew, r.id, k);
    FingerIsOwn(events, runs, k, r);
    MatchedUnambiguous(events, runs, skew, |events|, r.id);
    OwnWorth(events[k], r);
  }

  lemma {:induction false} OwnWorth(ev: Event, r: Run)
    requires OwnEvent(ev, r)
    ensures Worth(ev) == Total(ev.cost, 1, r.input, r.output)
  {
  }

  lemma {:induction false} MatchedCredit(events: seq<Event>, runs: seq<Run>, skew: int, id: int, k: nat)
    requires k < |events| && Finger(events, runs, k) == Some(id) && id in Matched(events, runs, |events|)
    ensures forall i: nat :: i < |events| ==> OnlyAt(CreditOf(events, runs, skew), k, id, i)
    ensures Credited(events, CreditOf(events, runs, skew), |events|, id) == Worth(events[k])
  {
    forall i: nat | i < |events|
      ensures OnlyAt(CreditOf(events, runs, skew), k, id, i)
    {
      CreditedOnlyAt(events, runs, skew, id, k, i);
    }
    CreditedOnce(events, CreditOf(events, runs, skew), |events|, k, id);
  }

  // ---------- conservation ----------

  /** The cost of all runs together. */
  function RunsCost(events: seq<Event>, credit: nat -> Option<int>, n: nat, runs: seq<Run>): (c: real)
    requires n <= |events|
  {
    if runs == [] then 0.0
    else RunsCost(events, credit, n, runs[..|runs| - 1]) + Credited(events, credit, n, runs[|runs| - 1].id).cost
  }

  predicate Pays(credit: Option<int>, runs: seq<Run>) {
    credit.Some? && exists r :: r in runs && r.id == credit.value
  }

  /** The cost of the events that are credited to some run. */
  function PaidCost(events: seq<Event>, credit: nat -> Option<int>, n: nat, runs: seq<Run>): (c: real)
    requires n <= |events|
  {
    if n == 0 then 0.0
    else PaidCost(events, credit, n - 1, runs) + if Pays(credit(n - 1), runs) then events[n - 1].cost else 0.0
  }

  function EventsCost(events: seq<Event>): (c: real) {
    if events == [] then 0.0 else EventsCost(events[..|events| - 1]) + events[|events| - 1].cost
  }

  lemma {:induction false} OneMoreEvent(events: seq<Event>, credit: nat -> Option<int>, n: nat, runs: seq<Run>)
    requires 0 < n <= |events| && DistinctIds(runs)
    ensures RunsCost(events, credit, n, runs) == RunsCost(events, credit, n - 1, runs) +
              if Pays(credit(n - 1), runs) then events[n - 1].cost else 0.0
    decreases |runs|
  {
    if runs != [] {
      var rest, last := runs[..|runs| - 1], runs[|runs| - 1];
      OneMoreEvent(events, credit, n, rest);
      assert runs == rest + [last];
      if credit(n - 1) == Some(last.id) {
        assert !Pays(credit(n - 1), rest);
        assert Pays(credit(n - 1), runs);
      } else {
        assert Pays(credit(n - 1), runs) <==> Pays(credit(n - 1), rest);
      }
    }
  }

  lemma {:induction false} NoCost(events: seq<Event>, credit: nat -> Option<int>, runs: seq<Run>)
    ensures RunsCost(events, credit, 0, runs) == 0.0
    decreases |runs|
  {
    if runs != [] {
      NoCost(events, credit, runs[..|runs| - 1]);
    }
  }

  /** What the runs are charged together is what the credited events cost together. */
  lemma {:induction false} ChargesAreCredits(events: seq<Event>, credit: nat -> Option<int>, n: nat, runs: seq<Run>)
    requires n <= |events| && DistinctIds(runs)
    ensures RunsCost(events, credit, n, runs) == PaidCost(events, credit, n, runs)
  {
    if n == 0 {
      NoCost(events, credit, runs);
    } else {
      ChargesAreCredits(events, credit, n - 1, runs);
      OneMoreEvent(events, credit, n, runs);
    }
  }

  lemma {:induction false} PaidWithin(events: seq<Event>, credit: nat -> Option<int>, n: nat, runs: seq<Run>)
    requires n <= |events| && forall i :: 0 <= i < n ==> events[i].cost >= 0.0
    ensures PaidCost(events, credit, n, runs) <= EventsCost(events[..n])
  {
    if n > 0 {
      PaidWithin(events, credit, n - 1, runs);
      assert events[..n][..n - 1] == events[..n - 1];
    }
  }

  /** Attributed money never exceeds the money of the events. */
  lemma {:induction false} Conservation(events: seq<Event>, runs: seq<Run>, skew: int)
    requires DistinctIds(runs) && forall i :: 0 <= i < |events| ==> events[i].cost >= 0.0
    ensures RunsCost(events, CreditOf(events, runs, skew), |events|, runs) <= EventsCost(events)
  {
    ChargesAreCredits(events, CreditOf(events, runs, skew), |events|, runs);
    PaidWithin(events, CreditOf(events, runs, skew), |events|, runs);
    assert events[..|events|] == events;
  }

  // ---------- the two passes ----------

  /** The inner loop of both passes: the runs that satisfy p, in order. */
  method Collect(runs: seq<Run>, p: Run -> bool) returns (hits: seq<Run>)
    ensures hits == Select(runs, p)
  {
    hits := [];
    var i := 0;
    while i < |runs|
      invariant 0 <= i <= |runs|
      invariant hits == Select(runs[..i], p)
    {
      assert runs[..i + 1][..i] == runs[..i];
      if p(runs[i]) {
        hits := hits + [runs[i]];
      }
      i := i + 1;
    }
    assert runs[..|runs|] == runs;
  }

  type Table = map<int, Attribution>

  function IdsOf(runs: seq<Run>): (r: set<int>) {
    set x | x in runs :: x.id
  }

  /** addEvent. */
  function AddEvent(a: Attribution, ev: Event): (r: Attribution) {
    a.(total := Plus(a.total, Worth(ev)))
  }

  ghost predicate FirstPassAt(events: seq<Event>, runs: seq<Run>, n: nat, id: int, a: Attribution)
    requires n <= |events|
  {
    && a.total == Credited(events, FingerOf(events, runs), n, id)
    && (a.fingerprinted <==> id in Matched(events, runs, n))
    && a.ambiguous == 0
  }

  ghost predicate FirstPass(events: seq<Event>, runs: seq<Run>, n: nat, out: Table)
    requires n <= |events|
  {
    forall id :: id in out ==> FirstPassAt(events, runs, n, id, out[id])
  }

  /** The entry of run id after event i of the first pass. */
  function AfterFinger(finger: Option<int>, ev: Event, id: int, a: Attribution): (r: Attribution) {
    if finger == Some(id) then AddEvent(a, ev).(fingerprinted := true) else a
  }

  lemma {:induction false} FirstPassStep(events: seq<Event>, runs: seq<Run>, i: nat, id: int, a: Attribution)
    requires i < |events| && FirstPassAt(events, runs, i, id, a)
    ensures FirstPassAt(events, runs, i + 1, id, AfterFinger(Finger(events, runs, i), events[i], id, a))
  {
    var credit := FingerOf(events, runs);
    assert credit(i) == Finger(events, runs, i);
  }

  lemma {:induction false} FirstPassNext(events: seq<Event>, runs: seq<Run>, i: nat, out: Table, after: Table)
    requires i < |events| && FirstPass(events, runs, i, out) && after.Keys == out.Keys
    requires forall id :: id in out ==> after[id] == AfterFinger(Finger(events, runs, i), events[i], id, out[id])
    ensures FirstPass(events, runs, i + 1, after)
  {
    forall id | id in after
      ensures FirstPassAt(events, runs, i + 1, id, after[id])
    {
      FirstPassStep(events, runs, i, id, out[id]);
    }
  }

  /** Nothing is attributed yet. */
  function Blank(ids: set<int>): (r: Table) {
    map id | id in ids :: Attribution(Nothing(), false, 0)
  }

  lemma {:induction false} FirstPassStart(events: seq<Event>, runs: seq<Run>, ids: set<int>)
    ensures FirstPass(events, runs, 0, Blank(ids)) && Blank(ids).Keys == ids
  {
  }

  predicate Fingered(events: seq<Event>, runs: seq<Run>, k: nat)
    requires k < |events|
  {
    Finger(events, runs, k).Some?
  }

  ghost predicate TakenIs(events: seq<Event>, runs: seq<Run>, taken: seq<bool>, n: nat)
    requires n <= |taken| == |events|
  {
    forall k :: 0 <= k < n ==> taken[k] == Fingered(events, runs, k)
  }

  method CollectFingers(ev: Event, runs: seq<Run>, matched: set<int>) returns (hits: seq<Run>)
    ensures hits == FingerHits(ev, runs, matched)
  {
    hits := [];
    if ev.time.Some? {
      hits := Collect(runs, (r: Run) => r.id !in matched && FingerprintMatch(ev, r) && InWindow(ev.time.value, r, FINGERPRINT_SKEW));
    }
  }

  lemma {:induction false} OnlyHit(ev: Event, runs: seq<Run>, matched: set<int>)
    ensures var f := Only(FingerHits(ev, runs, matched)); f.Some? ==> f.value in IdsOf(runs)
  {
    var hits := FingerHits(ev, runs, matched);
    assert |hits| == 1 ==> hits[0] in hits;
  }

  /** One round of the first pass. */
  method FingerEvent(events: seq<Event>, runs: seq<Run>, i: nat, out0: Table, matched0: set<int>)
    returns (out: Table, matched: set<int>, hit: bool)
    requires i < |events| && FirstPass(events, runs, i, out0) && matched0 == Matched(events, runs, i)
    requires IdsOf(runs) <= out0.Keys
    ensures FirstPass(events, runs, i + 1, out) && matched == Matched(events, runs, i + 1)
    ensures out.Keys == out0.Keys
    ensures hit == Fingered(events, runs, i)
  {
    out, matched := out0, matched0;
    var hits := CollectFingers(events[i], runs, matched);
    OnlyHit(events[i], runs, matched);
    hit := |hits| == 1;
    if hit {
      var id := hits[0].id;
      out := out[id := AddEvent(out[id], events[i]).(fingerprinted := true)];
      matched := matched + {id};
    }
    FirstPassNext(events, runs, i, out0, out);
  }

  method Pass1(events: seq<Event>, runs: seq<Run>, ids: set<int>) returns (out: Table, matched: set<int>, taken: seq<bool>)
    requires IdsOf(runs) <= ids
    ensures out.Keys == ids && FirstPass(events, runs, |events|, out)
    ensures matched == Matched(events, runs, |events|)
    ensures |taken| == |events| && TakenIs(events, runs, taken, |events|)
  {
    out, matched, taken := Blank(ids), {}, [];
    FirstPassStart(events, runs, ids);
    var i := 0;
    while i < |events|
      invariant 0 <= i <= |events| && |taken| == i
      invariant out.Keys == ids && FirstPass(events, runs, i, out)
      invariant matched == Matched(events, runs, i)
      invariant forall k :: 0 <= k < i ==> taken[k] == Fingered(events, runs, k)
    {
      var hit;
      out, matched, hit := FingerEvent(events, runs, i, out, matched);
      taken := taken + [hit];
      i := i + 1;
    }
  }

  ghost predicate SecondPassAt(events: seq<Event>, runs: seq<Run>, skew: int, n: nat, id: int, a: Attribution)
    requires n <= |events|
  {
    && a.total == Plus(Credited(events, FingerOf(events, runs), |events|, id),
                       Credited(events, WindowOf(events, runs, skew), n, id))
    && (a.fingerprinted <==> id in Matched(events, runs, |events|))
    && a.ambiguous == Ambiguous(events, runs, skew, n, id)
  }

  ghost predicate SecondPass(events: seq<Event>, runs: seq<Run>, skew: int, n: nat, out: Table)
    requires n <= |events|
  {
    forall id :: id in out ==> SecondPassAt(events, runs, skew, n, id, out[id])
  }

  lemma {:induction false} SecondPassStart(events: seq<Event>, runs: seq<Run>, skew: int, out: Table)
    requires FirstPass(events, runs, |events|, out)
    ensures SecondPass(events, runs, skew, 0, out)
  {
    forall id | id in out
      ensures SecondPassAt(events, runs, skew, 0, id, out[id])
    {
      assert FirstPassAt(events, runs, |events|, id, out[id]);
    }
  }

  /** The windows hit by event i, once the fingerprints are taken out. */
  function LateHits(events: seq<Event>, runs: seq<Run>, skew: int, i: nat): (r: seq<Run>)
    requires i < |events|
  {
    if Finger(events, runs, i).Some? then []
    else WindowHits(events[i], runs, Matched(events, runs, |events|), skew)
  }

  predicate Names(hits: seq<Run>, id: int) {
    exists r :: r in hits && r.id == id
  }

  /** The entry of a run after event i: credited, ambiguous or untouched. */
  function AfterEvent(hits: seq<Run>, ev: Event, id: int, a: Attribution): (r: Attribution) {
    if !Names(hits, id) then a
    else if |hits| == 1 then AddEvent(a, ev)
    else a.(ambiguous := a.ambiguous + 1)
  }

  lemma {:induction false} LateHitsMean(events: seq<Event>, runs: seq<Run>, skew: int, i: nat, id: int)
    requires i < |events|
    ensures var hits := LateHits(events, runs, skew, i);
            && (WindowOf(events, runs, skew)(i) == Some(id) <==> |hits| == 1 && Names(hits, id))
            && (AmbiguousFor(events, runs, skew, i, id) <==> |hits| > 1 && Names(hits, id))
  {
    var hits := LateHits(events, runs, skew, i);
    assert |hits| == 1 ==> hits[0] in hits;
  }

  lemma {:induction false} SecondPassStep(events: seq<Event>, runs: seq<Run>, skew: int, i: nat, id: int, a: Attribution, hits: seq<Run>)
    requires i < |events| && SecondPassAt(events, runs, skew, i, id, a) && hits == LateHits(events, runs, skew, i)
    ensures SecondPassAt(events, runs, skew, i + 1, id, AfterEvent(hits, events[i], id, a))
  {
    LateHitsMean(events, runs, skew, i, id);
  }

  lemma {:induction false} SecondPassNext(events: seq<Event>, runs: seq<Run>, skew: int, i: nat, out: Table, after: Table, hits: seq<Run>)
    requires i < |events| && SecondPass(events, runs, skew, i, out) && after.Keys == out.Keys
    requires hits == LateHits(events, runs, skew, i)
    requires forall id :: id in out ==> after[id] == AfterEvent(hits, events[i], id, out[id])
    ensures SecondPass(events, runs, skew, i + 1, after)
  {
    forall id | id in after
      ensures SecondPassAt(events, runs, skew, i + 1, id, after[id])
    {
      SecondPassStep(events, runs, skew, i, id, out[id], hits);
    }
  }

  lemma {:induction false} SelectKeepsDistinct(runs: seq<Run>, p: Run -> bool)
    requires DistinctIds(runs)
    ensures DistinctIds(Select(runs, p))
  {
    if runs != [] {
      var last := runs[|runs| - 1];
      SelectKeepsDistinct(runs[..|runs| - 1], p);
      var rest := Select(runs[..|runs| - 1], p);
      assert forall x :: x in rest ==> x.id != last.id;
    }
  }

  /** The loop of the ambiguous case. */
  method CountAmbiguous(out0: Table, hits: seq<Run>, ghost ev: Event) returns (out: Table)
    requires DistinctIds(hits) && |hits| > 1 && forall r :: r in hits ==> r.id in out0
    ensures out.Keys == out0.Keys
    ensures forall id :: id in out0 ==> out[id] == AfterEvent(hits, ev, id, out0[id])
  {
    out := out0;
    var k := 0;
    while k < |hits|
      invariant 0 <= k <= |hits| && out.Keys == out0.Keys
      invariant forall id :: id in out0 ==>
        out[id] == if Names(hits[..k], id) then out0[id].(ambiguous := out0[id].ambiguous + 1) else out0[id]
    {
      var id := hits[k].id;
      assert hits[k] in hits && !Names(hits[..k], id);
      assert forall x :: Names(hits[..k + 1], x) <==> Names(hits[..k], x) || x == id by {
        assert hits[..k + 1] == hits[..k] + [hits[k]];
      }
      out := out[id := out[id].(ambiguous := out[id].ambiguous + 1)];
      k := k + 1;
    }
    assert hits[..|hits|] == hits;
  }

  method Settle(out0: Table, hits: seq<Run>, ev: Event) returns (out: Table)
    requires DistinctIds(hits) && forall r :: r in hits ==> r.id in out0
    ensures out.Keys == out0.Keys
    ensures forall id :: id in out0 ==> out[id] == AfterEvent(hits, ev, id, out0[id])
  {
    if |hits| == 0 {
      out := out0;
    } else if |hits| == 1 {
      assert hits[0] in hits;
      assert forall id :: Names(hits, id) <==> id == hits[0].id;
      out := out0[hits[0].id := AddEvent(out0[hits[0].id], ev)];
    } else {
      out := CountAmbiguous(out0, hits, ev);
    }
  }

  method CollectWindows(ev: Event, runs: seq<Run>, matched: set<int>, skew: int) returns (hits: seq<Run>)
    requires DistinctIds(runs)
    ensures hits == WindowHits(ev, runs, matched, skew)
    ensures DistinctIds(hits) && forall r :: r in hits ==> r.id in IdsOf(runs)
  {
    hits := [];
    if ev.time.Some? {
      var p := (r: Run) => r.id !in matched && InWindow(ev.time.value, r, skew);
      hits := Collect(runs, p);
      SelectKeepsDistinct(runs, p);
    }
  }

  /** The table is right after i events of the second pass. */
  ghost predicate Settling(
    events: seq<Event>, runs: seq<Run>, skew: int, i: nat, out: Table, matched: set<int>, taken: seq<bool>)
  {
    && i <= |events| && DistinctIds(runs) && IdsOf(runs) <= out.Keys && SecondPass(events, runs, skew, i, out)
    && matched == Matched(events, runs, |events|)
    && |taken| == |events| && TakenIs(events, runs, taken, |events|)
  }

  /** One round of the second pass. */
  method WindowEvent(
    events: seq<Event>, runs: seq<Run>, skew: int, i: nat, out0: Table, matched: set<int>, taken: seq<bool>)
    returns (out: Table)
    requires i < |events| && Settling(events, runs, skew, i, out0, matched, taken)
    ensures out.Keys == out0.Keys && Settling(events, runs, skew, i + 1, out, matched, taken)
  {
    var hits := [];
    if !taken[i] {
      hits := CollectWindows(events[i], runs, matched, skew);
    }
    out := Settle(out0, hits, events[i]);
    SecondPassNext(events, runs, skew, i, out0, out, hits);
  }

  /** The loop of the second pass. */
  method WindowEvents(events: seq<Event>, runs: seq<Run>, skew: int, out0: Table, matched: set<int>, taken: seq<bool>)
    returns (out: Table)
    requires |taken| == |events| && Settling(events, runs, skew, 0, out0, matched, taken)
    ensures out.Keys == out0.Keys && Settling(events, runs, skew, |events|, out, matched, taken)
  {
    out := out0;
    var i := 0;
    while i < |events|
      invariant 0 <= i <= |events|
      invariant out.Keys == out0.Keys && Settling(events, runs, skew, i, out, matched, taken)
    {
      out := WindowEvent(events, runs, skew, i, out, matched, taken);
      i := i + 1;
    }
  }

  method Pass2(events: seq<Event>, runs: seq<Run>, skew: int, out0: Table, matched: set<int>, taken: seq<bool>)
    returns (out: Table)
    requires DistinctIds(runs) && IdsOf(runs) <= out0.Keys && FirstPass(events, runs, |events|, out0)
    requires matched == Matched(events, runs, |events|)
    requires |taken| == |events| && TakenIs(events, runs, taken, |events|)
    ensures out.Keys == out0.Keys && SecondPass(events, runs, skew, |events|, out)
  {
    SecondPassStart(events, runs, skew, out0);
    out := WindowEvents(events, runs, skew, out0, matched, taken);
  }

  lemma {:induction false} CreditIsSplit(events: seq<Event>, runs: seq<Run>, skew: int, i: nat)
    ensures SplitAt(FingerOf(events, runs), WindowOf(events, runs, skew), CreditOf(events, runs, skew), i)
  {
    if i < |events| {
      var f := Finger(events, runs, i);
      assert FingerOf(events, runs)(i) == f;
    }
  }

  lemma {:induction false} SecondPassTotal(events: seq<Event>, runs: seq<Run>, skew: int, id: int, a: Attribution)
    requires SecondPassAt(events, runs, skew, |events|, id, a)
    ensures a.total == Credited(events, CreditOf(events, runs, skew), |events|, id)
  {
    var f, g, h := FingerOf(events, runs), WindowOf(events, runs, skew), CreditOf(events, runs, skew);
    forall i: nat
      ensures SplitAt(f, g, h, i)
    {
      CreditIsSplit(events, runs, skew, i);
    }
    CreditSplits(events, f, g, h, |events|, id);
  }

  /** The attribution of every run. */
  function TableOf(events: seq<Event>, runs: seq<Run>, skew: int): (r: Table) {
    map id | id in IdsOf(runs) :: Attribution(
      Credited(events, CreditOf(events, runs, skew), |events|, id),
      id in Matched(events, runs, |events|),
      Ambiguous(events, runs, skew, |events|, id))
  }

  /** Each run's totals are the sums over the events credited to it, and each event has one creditor at most. */
  method Attribute(events: seq<Event>, runs: seq<Run>, skew: int) returns (out: Table)
    requires DistinctIds(runs)
    ensures out == TableOf(events, runs, skew)
  {
    var first, matched, taken := Pass1(events, runs, IdsOf(runs));
    out := Pass2(events, runs, skew, first, matched, taken);
    forall id | id in out
      ensures out[id] == TableOf(events, runs, skew)[id]
    {
      assert SecondPassAt(events, runs, skew, |events|, id, out[id]);
      SecondPassTotal(events, runs, skew, id, out[id]);
    }
  }
}
