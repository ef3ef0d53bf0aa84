/**
 Money over any number of sweeps. A priced execution is not listed again, so its events are
 up for attribution once more, to whoever else is listed. Every event is paid for at most
 once exactly when no event can be credited to two of the runs that are ever listed.
 */
module Sweeps {
  import opened Wrappers
  import opened Attribution
  import opened CostSweep

  // ---------- sums over sets of events ----------

  /** What the events of s among the first n cost. */
  function SetCost(all: seq<Event>, s: set<nat>, n: nat): (c: real)
    requires n <= |all|
  {
    if n == 0 then 0.0 else SetCost(all, s, n - 1) + if n - 1 in s then all[n - 1].cost else 0.0
  }

  lemma {:induction false} CostOfUnion(all: seq<Event>, s: set<nat>, t: set<nat>, n: nat)
    requires n <= |all| && forall e :: e in s && e in t && e < |all| ==> all[e].cost == 0.0
    ensures SetCost(all, s + t, n) == SetCost(all, s, n) + SetCost(all, t, n)
  {
    if n > 0 {
      CostOfUnion(all, s, t, n - 1);
    }
  }

  lemma {:induction false} CostOfOne(all: seq<Event>, e: nat, n: nat)
    requires e < |all| && n <= |all|
    ensures SetCost(all, {e}, n) == if e < n then all[e].cost else 0.0
  {
    if n > 0 {
      CostOfOne(all, e, n - 1);
    }
  }

  lemma {:induction false} CostGrows(all: seq<Event>, s: set<nat>, t: set<nat>, n: nat)
    requires n <= |all| && s <= t && forall i :: 0 <= i < |all| ==> all[i].cost >= 0.0
    ensures SetCost(all, s, n) <= SetCost(all, t, n)
  {
    if n > 0 {
      CostGrows(all, s, t, n - 1);
    }
  }

  function SumOf(f: nat -> real, n: nat): (c: real) {
    if n == 0 then 0.0 else SumOf(f, n - 1) + f(n - 1)
  }

  function UnionOf(f: nat -> set<nat>, n: nat): (r: set<nat>) {
    if n == 0 then {} else UnionOf(f, n - 1) + f(n - 1)
  }

  lemma {:induction false} UnionFrom(f: nat -> set<nat>, n: nat, e: nat) returns (k: nat)
    requires e in UnionOf(f, n)
    ensures k < n && e in f(k)
  {
    if e in UnionOf(f, n - 1) {
      k := UnionFrom(f, n - 1, e);
    } else {
      k := n - 1;
    }
  }

  /** Sets i and j have only free events in common. */
  ghost predicate Apart(all: seq<Event>, f: nat -> set<nat>, i: nat, j: nat) {
    forall e :: e in f(i) && e in f(j) && e < |all| ==> all[e].cost == 0.0
  }

  lemma {:induction false} CostOfUnions(all: seq<Event>, f: nat -> set<nat>, cost: nat -> real, n: nat)
    requires forall k: nat :: k < n ==> cost(k) == SetCost(all, f(k), |all|)
    requires forall i: nat, j: nat :: i < j < n ==> Apart(all, f, i, j)
    ensures SumOf(cost, n) == SetCost(all, UnionOf(f, n), |all|)
  {
    if n == 0 {
      NoEvents(all, |all|);
    } else {
      CostOfUnions(all, f, cost, n - 1);
      forall e | e in UnionOf(f, n - 1) && e in f(n - 1) && e < |all|
        ensures all[e].cost == 0.0
      {
        var k := UnionFrom(f, n - 1, e);
        assert Apart(all, f, k, n - 1);
      }
      CostOfUnion(all, UnionOf(f, n - 1), f(n - 1), |all|);
    }
  }

  lemma {:induction false} UnionGrows(f: nat -> set<nat>, g: nat -> set<nat>, n: nat)
    requires forall k: nat :: k < n ==> f(k) <= g(k)
    ensures UnionOf(f, n) <= UnionOf(g, n)
  {
    if n > 0 {
      UnionGrows(f, g, n - 1);
    }
  }

  // ---------- one sweep, by the events it pays for ----------

  ghost predicate Picks(all: seq<Event>, picked: seq<nat>) {
    && (forall p :: 0 <= p < |picked| ==> picked[p] < |all|)
    && (forall p, q :: 0 <= p < q < |picked| ==> picked[p] != picked[q])
  }

  /** The events a sweep fetches. */
  function Fetched(all: seq<Event>, picked: seq<nat>): (r: seq<Event>)
    requires forall p :: 0 <= p < |picked| ==> picked[p] < |all|
    ensures |r| == |picked|
    ensures forall p :: 0 <= p < |picked| ==> r[p] == all[picked[p]]
  {
    seq(|picked|, p requires 0 <= p < |picked| => all[picked[p]])
  }

  /** The events among the first n fetched that are credited to one of the runs. */
  function PaidSet(picked: seq<nat>, credit: nat -> Option<int>, runs: seq<Run>, n: nat): (r: set<nat>)
    requires n <= |picked|
  {
    set p: nat | p < n && Pays(credit(p), runs) :: picked[p]
  }

  lemma {:induction false} PaidIsSet(all: seq<Event>, picked: seq<nat>, credit: nat -> Option<int>, runs: seq<Run>, n: nat)
    requires Picks(all, picked) && n <= |picked|
    ensures PaidCost(Fetched(all, picked), credit, n, runs) == SetCost(all, PaidSet(picked, credit, runs, n), |all|)
  {
    var s := PaidSet(picked, credit, runs, n);
    if n == 0 {
      NoEvents(all, |all|);
      assert s == {};
    } else {
      PaidIsSet(all, picked, credit, runs, n - 1);
      var rest := PaidSet(picked, credit, runs, n - 1);
      if Pays(credit(n - 1), runs) {
        assert s == rest + {picked[n - 1]};
        assert picked[n - 1] !in rest;
        CostOfUnion(all, rest, {picked[n - 1]}, |all|);
        CostOfOne(all, picked[n - 1], |all|);
      } else {
        assert s == rest;
      }
    }
  }

  lemma {:induction false} NoEvents(all: seq<Event>, n: nat)
    requires n <= |all|
    ensures SetCost(all, {}, n) == 0.0
  {
    if n > 0 {
      NoEvents(all, n - 1);
    }
  }

  /** The runs of a sweep that get a price. */
  function PricedRuns(pending: seq<Row>, priced: set<int>): (r: seq<Run>)
    ensures forall x :: x in r ==> x.id in priced && exists y :: y in pending && y.run == x
  {
    if pending == [] then []
    else
      var rest, last := PricedRuns(pending[..|pending| - 1], priced), pending[|pending| - 1];
      if last.run.id in priced then rest + [last.run] else rest
  }

  lemma {:induction false} PricedDistinct(pending: seq<Row>, priced: set<int>)
    requires DistinctRows(pending)
    ensures DistinctIds(PricedRuns(pending, priced))
  {
    if pending != [] {
      var rest, last := PricedRuns(pending[..|pending| - 1], priced), pending[|pending| - 1];
      PricedDistinct(pending[..|pending| - 1], priced);
      forall i | 0 <= i < |rest|
        ensures rest[i].id != last.run.id
      {
        assert rest[i] in rest;
        var y :| y in pending[..|pending| - 1] && y.run == rest[i];
      }
    }
  }

  lemma {:induction false} RecordedIsRuns(
    events: seq<Event>, credit: nat -> Option<int>, pending: seq<Row>, table: Table, priced: set<int>)
    requires RowIds(pending) <= table.Keys
    requires forall id :: id in table ==> table[id].total == Credited(events, credit, |events|, id)
    ensures RecordedCost(pending, table, priced) == RunsCost(events, credit, |events|, PricedRuns(pending, priced))
    decreases |pending|
  {
    if pending != [] {
      var rest, last := pending[..|pending| - 1], pending[|pending| - 1];
      assert last in pending && last.run.id in RowIds(pending);
      assert RowIds(rest) <= RowIds(pending);
      RecordedIsRuns(events, credit, rest, table, priced);
      var runs := PricedRuns(rest, priced);
      if last.run.id in priced {
        assert (runs + [last.run])[..|runs|] == runs;
      }
    }
  }

  // ---------- who can be paid ----------

  function TokensOf(e: Event): (n: int) {
    match e.tokens
    case None => 0
    case Some(t) => t.input + t.cacheWrite + t.cacheRead + t.output
  }

  /** The event alone does not look too large for the row. */
  predicate Trusted(e: Event, x: Row) {
    !(TokensOf(e) > 0 && x.total > 0 && TokensOf(e) > x.total + x.total / 2)
  }

  /** The event can be paid by the row: it is its fingerprint, or it lies in its window and is not too large. */
  predicate Payable(e: Event, x: Row) {
    && e.time.Some?
    && (OwnEvent(e, x.run) || (x.run.start - 120000 <= e.time.value <= x.run.end + 120000 && Trusted(e, x)))
  }

  ghost predicate Sound(events: seq<Event>) {
    forall i :: 0 <= i < |events| ==> events[i].cost >= 0.0 && TokensOf(events[i]) >= 0
  }

  lemma {:induction false} CreditedTokens(events: seq<Event>, credit: nat -> Option<int>, n: nat, id: int, p: nat)
    requires n <= |events| && Sound(events) && p < |events|
    ensures var t := Credited(events, credit, n, id); t.input + t.output >= 0
    ensures p < n && credit(p) == Some(id) ==>
              var t := Credited(events, credit, n, id); t.input + t.output >= TokensOf(events[p])
  {
    if n > 0 {
      CreditedTokens(events, credit, n - 1, id, p);
    }
  }

  /** The run that holds an id, found in the rows. */
  lemma {:induction false} RowOf(pending: seq<Row>, x: Row, r: Run)
    requires DistinctRows(pending) && x in pending && r in RunsOf(pending) && r.id == x.run.id
    ensures r == x.run
  {
    var i :| 0 <= i < |pending| && RunsOf(pending)[i] == r;
    var j :| 0 <= j < |pending| && pending[j] == x;
    assert pending[i].run.id == pending[j].run.id;
  }

  lemma {:induction false} FingerFrom(events: seq<Event>, runs: seq<Run>, p: nat, id: int) returns (r: Run)
    requires p < |events| && Finger(events, runs, p) == Some(id)
    ensures r in runs && r.id == id && FingerprintMatch(events[p], r)
    ensures events[p].time.Some? && InWindow(events[p].time.value, r, FINGERPRINT_SKEW)
  {
    var hits := FingerHits(events[p], runs, Matched(events, runs, p));
    r := hits[0];
    assert r in hits;
  }

  lemma {:induction false} FingerPayable(events: seq<Event>, pending: seq<Row>, p: nat, x: Row)
    requires p < |events| && DistinctRows(pending) && x in pending
    requires Finger(events, RunsOf(pending), p) == Some(x.run.id)
    ensures Payable(events[p], x)
  {
    var r := FingerFrom(events, RunsOf(pending), p, x.run.id);
    RowOf(pending, x, r);
  }

  lemma {:induction false} WindowPayable(events: seq<Event>, pending: seq<Row>, p: nat, x: Row)
    requires p < |events| && DistinctRows(pending) && x in pending
    requires Window(events, RunsOf(pending), COST_SKEW, p) == Some(x.run.id) && Trusted(events[p], x)
    ensures Payable(events[p], x)
  {
    var runs := RunsOf(pending);
    var hits := WindowHits(events[p], runs, Matched(events, runs, |events|), COST_SKEW);
    assert hits[0] in hits;
    RowOf(pending, x, hits[0]);
  }

  /** An event credited to a row that the rule lets through can be paid by that row. */
  lemma {:induction false} CreditIsPayable(events: seq<Event>, pending: seq<Row>, p: nat, x: Row)
    requires p < |events| && DistinctRows(pending) && Sound(events) && x in pending
    requires CreditOf(events, RunsOf(pending), COST_SKEW)(p) == Some(x.run.id)
    requires x.run.id in TableOf(events, RunsOf(pending), COST_SKEW)
    requires Records(TableOf(events, RunsOf(pending), COST_SKEW)[x.run.id], x.total)
    ensures Payable(events[p], x)
  {
    var runs, id := RunsOf(pending), x.run.id;
    var credit := CreditOf(events, runs, COST_SKEW);
    if Finger(events, runs, p) == Some(id) {
      FingerPayable(events, pending, p, x);
    } else {
      assert Window(events, runs, COST_SKEW, p) == Some(id);
      if id in Matched(events, runs, |events|) {
        WindowIsUnmatched(events, runs, COST_SKEW, p, id);
        assert false;
      }
      CreditedTokens(events, credit, |events|, id, p);
      WindowPayable(events, pending, p, x);
    }
  }

  /** Some event that costs money can be paid by two of the rows. */
  ghost predicate Shared(all: seq<Event>, rows: seq<Row>) {
    exists e, a, b :: SharedBy(all, rows, e, a, b)
  }

  predicate SharedBy(all: seq<Event>, rows: seq<Row>, e: nat, a: Row, b: Row) {
    && e < |all| && a in rows && b in rows && a.run.id != b.run.id
    && all[e].cost > 0.0 && Payable(all[e], a) && Payable(all[e], b)
  }

  // ---------- many sweeps ----------

  /** One sweep: the rows it lists, the events it fetches if it can, and the writes that succeed. */
  datatype Sweep = Sweep(rows: seq<Row>, picked: Option<seq<nat>>, writable: set<int>)

  ghost predicate AmongRows(s: Sweep, rows: seq<Row>) {
    forall x :: x in s.rows ==> x in rows
  }

  ghost predicate SweepOk(all: seq<Event>, rows: seq<Row>, s: Sweep) {
    && DistinctRows(s.rows) && AmongRows(s, rows)
    && (s.picked.Some? ==> Picks(all, s.picked.value))
  }

  ghost predicate LogOk(all: seq<Event>, rows: seq<Row>, log: seq<Sweep>) {
    forall k :: 0 <= k < |log| ==> SweepOk(all, rows, log[k])
  }

  function EventsOf(all: seq<Event>, s: Sweep): (r: Option<seq<Event>>)
    requires s.picked.Some? ==> forall p :: 0 <= p < |s.picked.value| ==> s.picked.value[p] < |all|
  {
    if s.picked.None? then None else Some(Fetched(all, s.picked.value))
  }

  /** The executions that sweep s prices when it starts with the given attempt counts. */
  ghost function PricedNow(all: seq<Event>, rows: seq<Row>, s: Sweep, counts: Counts): (r: set<int>)
    requires SweepOk(all, rows, s)
  {
    PricedBy(Pending(s.rows, counts), EventsOf(all, s), s.writable)
  }

  /** The money that sweep s records, all rows together. */
  ghost function CostNow(all: seq<Event>, rows: seq<Row>, s: Sweep, counts: Counts): (c: real)
    requires SweepOk(all, rows, s)
  {
    var pending := Pending(s.rows, counts);
    if s.picked.None? then 0.0
    else
      RunIds(pending);
      RecordedCost(pending, TableOf(EventsOf(all, s).value, RunsOf(pending), COST_SKEW), PricedNow(all, rows, s, counts))
  }

  // ---------- no shared event: nothing is paid twice ----------

  /** The events that sweep s pays for. */
  ghost function PaidNow(all: seq<Event>, rows: seq<Row>, s: Sweep, counts: Counts): (r: set<nat>)
    requires SweepOk(all, rows, s)
  {
    var pending := Pending(s.rows, counts);
    if s.picked.None? then {}
    else PaidSet(s.picked.value, CreditOf(EventsOf(all, s).value, RunsOf(pending), COST_SKEW),
                 PricedRuns(pending, PricedNow(all, rows, s, counts)), |s.picked.value|)
  }

  lemma {:induction false} CostIsPaid(all: seq<Event>, rows: seq<Row>, s: Sweep, counts: Counts)
    requires SweepOk(all, rows, s)
    ensures CostNow(all, rows, s, counts) == SetCost(all, PaidNow(all, rows, s, counts), |all|)
  {
    if s.picked.None? {
      NoEvents(all, |all|);
    } else {
      var pending, priced := Pending(s.rows, counts), PricedNow(all, rows, s, counts);
      var events, runs := EventsOf(all, s).value, PricedRuns(pending, priced);
      var credit := CreditOf(events, RunsOf(pending), COST_SKEW);
      RunIds(pending);
      RecordedIsRuns(events, credit, pending, TableOf(events, RunsOf(pending), COST_SKEW), priced);
      PendingDistinct(s.rows, counts);
      PricedDistinct(pending, priced);
      ChargesAreCredits(events, credit, |events|, runs);
      PaidIsSet(all, s.picked.value, credit, runs, |events|);
    }
  }

  lemma {:induction false} FetchedSound(all: seq<Event>, picked: seq<nat>)
    requires Sound(all) && forall p :: 0 <= p < |picked| ==> picked[p] < |all|
    ensures Sound(Fetched(all, picked))
  {
  }

  lemma {:induction false} PaidPlace(picked: seq<nat>, credit: nat -> Option<int>, pending: seq<Row>, priced: set<int>, e: nat) returns (p: nat)
    requires e in PaidSet(picked, credit, PricedRuns(pending, priced), |picked|)
    ensures p < |picked| && picked[p] == e && credit(p).Some? && credit(p).value in priced
  {
    var runs := PricedRuns(pending, priced);
    p :| p < |picked| && Pays(credit(p), runs) && picked[p] == e;
    var r :| r in runs && r.id == credit(p).value;
  }

  lemma {:induction false} RecordedRow(pending: seq<Row>, table: Table, writable: set<int>, id: int) returns (x: Row)
    requires id in Recorded(pending, table, writable)
    ensures x in pending && x.run.id == id && id in table && Records(table[id], x.total)
  {
    x :| x in pending && x.run.id in table && Records(table[x.run.id], x.total) && x.run.id in writable && x.run.id == id;
  }

  /** A paid event is one that was fetched, and a row priced by this sweep can pay it. */
  lemma {:induction false} PaidByRow(all: seq<Event>, rows: seq<Row>, s: Sweep, counts: Counts, e: nat) returns (x: Row)
    requires SweepOk(all, rows, s) && Sound(all) && e in PaidNow(all, rows, s, counts)
    ensures e < |all| && s.picked.Some? && e in s.picked.value
    ensures x in s.rows && x.run.id in PricedNow(all, rows, s, counts) && Payable(all[e], x)
  {
    var pending := Pending(s.rows, counts);
    var events := Fetched(all, s.picked.value);
    var table := TableOf(events, RunsOf(pending), COST_SKEW);
    var credit := CreditOf(events, RunsOf(pending), COST_SKEW);
    var p := PaidPlace(s.picked.value, credit, pending, Recorded(pending, table, s.writable), e);
    x := RecordedRow(pending, table, s.writable, credit(p).value);
    PendingDistinct(s.rows, counts);
    PendingIs(s.rows, counts, x);
    FetchedSound(all, s.picked.value);
    CreditIsPayable(events, pending, p, x);
  }

  /** What a sweep does to the books: whom it prices, how much it records, and for which events. */
  datatype Books = Books(
    priced: (Sweep, Counts) -> set<int>, cost: (Sweep, Counts) -> real, paid: (Sweep, Counts) -> set<nat>,
    can: (nat, Row) -> bool)

  ghost function BooksOf(all: seq<Event>, rows: seq<Row>): (b: Books) {
    Books((s, counts) => if SweepOk(all, rows, s) then PricedNow(all, rows, s, counts) else {},
          (s, counts) => if SweepOk(all, rows, s) then CostNow(all, rows, s, counts) else 0.0,
          (s, counts) => if SweepOk(all, rows, s) then PaidNow(all, rows, s, counts) else {},
          (e: nat, x: Row) => e < |all| && Payable(all[e], x))
  }

  /** The attempt counts before sweep n. */
  function CountsAt(b: Books, log: seq<Sweep>, n: nat): (r: Counts)
    requires n <= |log|
  {
    if n == 0 then map[]
    else
      var counts := CountsAt(b, log, n - 1);
      Swept(counts, log[n - 1].rows, b.priced(log[n - 1], counts))
  }

  function PricedAt(b: Books, log: seq<Sweep>, n: nat): (r: set<int>)
    requires n < |log|
  {
    b.priced(log[n], CountsAt(b, log, n))
  }

  function PaidAt(b: Books, log: seq<Sweep>, n: nat): (r: set<nat>)
    requires n < |log|
  {
    b.paid(log[n], CountsAt(b, log, n))
  }

  function CostAt(b: Books, log: seq<Sweep>, n: nat): (c: real)
    requires n < |log|
  {
    b.cost(log[n], CountsAt(b, log, n))
  }

  function FetchedAt(log: seq<Sweep>, n: nat): (r: set<nat>)
    requires n < |log|
  {
    if log[n].picked.None? then {} else Members(log[n].picked.value)
  }

  function Members(picked: seq<nat>): (r: set<nat>) {
    set e | e in picked
  }

  /** The money recorded by the whole log, the events it pays for, and the events it fetched. */
  function LogCost(b: Books, log: seq<Sweep>): (c: real) {
    SumOf((k: nat) => if k < |log| then CostAt(b, log, k) else 0.0, |log|)
  }

  function PaidBy(b: Books, log: seq<Sweep>): (r: nat -> set<nat>) {
    (k: nat) => if k < |log| then PaidAt(b, log, k) else {}
  }

  function FetchedBy(log: seq<Sweep>): (r: nat -> set<nat>) {
    (k: nat) => if k < |log| then FetchedAt(log, k) else {}
  }

  /** A log in which no execution is listed again once it has its price. */
  ghost predicate Valid(all: seq<Event>, rows: seq<Row>, log: seq<Sweep>) {
    LogOk(all, rows, log) && PricedLeave(BooksOf(all, rows), log)
  }

  ghost predicate PricedLeave(b: Books, log: seq<Sweep>) {
    forall i, j :: 0 <= i < j < |log| ==> PricedAt(b, log, i) !! RowIds(log[j].rows)
  }

  /** The sweeps together record no more than the events they fetched cost. */
  ghost predicate Conserved(all: seq<Event>, rows: seq<Row>, log: seq<Sweep>) {
    LogCost(BooksOf(all, rows), log) <= SetCost(all, UnionOf(FetchedBy(log), |log|), |all|)
  }

  /** A paid event was fetched, and a row that got its price in this sweep can pay it. */
  ghost predicate PaidFor(b: Books, s: Sweep, counts: Counts, e: nat) {
    && s.picked.Some? && e in Members(s.picked.value)
    && exists x :: x in s.rows && x.run.id in b.priced(s, counts) && b.can(e, x)
  }

  ghost predicate Explained(all: seq<Event>, b: Books, s: Sweep, counts: Counts) {
    && b.cost(s, counts) == SetCost(all, b.paid(s, counts), |all|)
    && forall e :: e in b.paid(s, counts) ==> PaidFor(b, s, counts, e)
  }

  ghost predicate AllExplained(all: seq<Event>, b: Books, log: seq<Sweep>) {
    forall k :: 0 <= k < |log| ==> Explained(all, b, log[k], CountsAt(b, log, k))
  }

  /** Only a free event can be paid by two rows. */
  ghost predicate OneOwner(all: seq<Event>, b: Books, rows: seq<Row>, e: nat) {
    forall x, y :: x in rows && y in rows && b.can(e, x) && b.can(e, y) && x.run.id != y.run.id ==> e < |all| && all[e].cost == 0.0
  }

  lemma {:induction false} PaidTwice(all: seq<Event>, rows: seq<Row>, b: Books, log: seq<Sweep>, i: nat, j: nat, e: nat)
    requires i < j < |log| && AllExplained(all, b, log) && PricedLeave(b, log) && OneOwner(all, b, rows, e)
    requires forall x :: x in log[i].rows || x in log[j].rows ==> x in rows
    requires e in PaidAt(b, log, i) && e in PaidAt(b, log, j)
    ensures e < |all| && all[e].cost == 0.0
  {
    assert Explained(all, b, log[i], CountsAt(b, log, i)) && Explained(all, b, log[j], CountsAt(b, log, j));
    var x :| x in log[i].rows && x.run.id in PricedAt(b, log, i) && b.can(e, x);
    var y :| y in log[j].rows && y.run.id in PricedAt(b, log, j) && b.can(e, y);
    assert y.run.id in RowIds(log[j].rows);
  }

  lemma {:induction false} SweepExplained(all: seq<Event>, rows: seq<Row>, s: Sweep, counts: Counts)
    requires SweepOk(all, rows, s) && Sound(all)
    ensures Explained(all, BooksOf(all, rows), s, counts)
  {
    var b := BooksOf(all, rows);
    CostIsPaid(all, rows, s, counts);
    forall e | e in b.paid(s, counts)
      ensures PaidFor(b, s, counts, e)
    {
      var x := PaidByRow(all, rows, s, counts, e);
      assert b.can(e, x);
    }
  }

  lemma {:induction false} NotShared(all: seq<Event>, rows: seq<Row>, e: nat)
    requires Sound(all) && !Shared(all, rows)
    ensures OneOwner(all, BooksOf(all, rows), rows, e)
  {
    forall x, y | x in rows && y in rows && BooksOf(all, rows).can(e, x) && BooksOf(all, rows).can(e, y) && x.run.id != y.run.id
      ensures e < |all| && all[e].cost == 0.0
    {
      assert !SharedBy(all, rows, e, x, y);
    }
  }

  lemma {:induction false} PaidApart(all: seq<Event>, rows: seq<Row>, b: Books, log: seq<Sweep>, i: nat, j: nat)
    requires i < j < |log| && AllExplained(all, b, log) && PricedLeave(b, log)
    requires AmongRows(log[i], rows) && AmongRows(log[j], rows) && forall e :: OneOwner(all, b, rows, e)
    ensures Apart(all, PaidBy(b, log), i, j)
  {
    forall e | e in PaidAt(b, log, i) && e in PaidAt(b, log, j)
      ensures e < |all| && all[e].cost == 0.0
    {
      assert OneOwner(all, b, rows, e);
      PaidTwice(all, rows, b, log, i, j, e);
    }
  }

  lemma {:induction false} PaidWasFetched(all: seq<Event>, b: Books, log: seq<Sweep>, k: nat)
    requires k < |log| && Explained(all, b, log[k], CountsAt(b, log, k))
    ensures PaidAt(b, log, k) <= FetchedAt(log, k)
  {
    forall e | e in PaidAt(b, log, k)
      ensures e in FetchedAt(log, k)
    {
      assert PaidFor(b, log[k], CountsAt(b, log, k), e);
    }
  }

  lemma {:induction false} SetWithin(all: seq<Event>, s: set<nat>, n: nat)
    requires n <= |all| && Sound(all)
    ensures SetCost(all, s, n) <= EventsCost(all[..n])
  {
    if n > 0 {
      SetWithin(all, s, n - 1);
      assert all[..n][..n - 1] == all[..n - 1];
    }
  }

  /** Any log of sweeps conserves the money when no event can be paid by two of the rows. */
  lemma {:induction false} LogConserves(all: seq<Event>, rows: seq<Row>, log: seq<Sweep>)
    requires Valid(all, rows, log) && Sound(all) && !Shared(all, rows)
    ensures Conserved(all, rows, log) && LogCost(BooksOf(all, rows), log) <= EventsCost(all)
  {
    var b, n := BooksOf(all, rows), |log|;
    forall k | 0 <= k < n
      ensures Explained(all, b, log[k], CountsAt(b, log, k)) && AmongRows(log[k], rows)
    {
      SweepExplained(all, rows, log[k], CountsAt(b, log, k));
    }
    forall e
      ensures OneOwner(all, b, rows, e)
    {
      NotShared(all, rows, e);
    }
    LogWithin(all, rows, b, log);
    SetWithin(all, UnionOf(FetchedBy(log), n), |all|);
    assert all[..|all|] == all;
  }

  lemma {:induction false} LogWithin(all: seq<Event>, rows: seq<Row>, b: Books, log: seq<Sweep>)
    requires Sound(all) && AllExplained(all, b, log) && PricedLeave(b, log)
    requires forall k :: 0 <= k < |log| ==> AmongRows(log[k], rows)
    requires forall e :: OneOwner(all, b, rows, e)
    ensures LogCost(b, log) <= SetCost(all, UnionOf(FetchedBy(log), |log|), |all|)
  {
    var n, paid := |log|, PaidBy(b, log);
    var cost := (k: nat) => if k < |log| then CostAt(b, log, k) else 0.0;
    forall k: nat | k < n
      ensures cost(k) == SetCost(all, paid(k), |all|) && paid(k) <= FetchedBy(log)(k)
    {
      assert Explained(all, b, log[k], CountsAt(b, log, k));
      PaidWasFetched(all, b, log, k);
    }
    forall i: nat, j: nat | i < j < n
      ensures Apart(all, paid, i, j)
    {
      assert AmongRows(log[i], rows) && AmongRows(log[j], rows);
      PaidApart(all, rows, b, log, i, j);
    }
    CostOfUnions(all, paid, cost, n);
    UnionGrows(paid, FetchedBy(log), n);
    CostGrows(all, UnionOf(paid, n), UnionOf(FetchedBy(log), n), |all|);
  }

  // ---------- a shared event is paid twice ----------

  /** The run alone, and its event alone, is credited. */
  lemma {:induction false} AloneCredited(e: Event, r: Run)
    requires e.time.Some?
    requires (FingerprintMatch(e, r) && InWindow(e.time.value, r, FINGERPRINT_SKEW)) || InWindow(e.time.value, r, COST_SKEW)
    ensures CreditOf([e], [r], COST_SKEW)(0) == Some(r.id)
    ensures r.id in Matched([e], [r], 1) <==> FingerprintMatch(e, r) && InWindow(e.time.value, r, FINGERPRINT_SKEW)
  {
    var runs := [] + [r];
    assert [r] == runs && Matched([e], runs, 0) == {};
    FingerHitsSnoc(e, [], r, {});
    if FingerprintMatch(e, r) && InWindow(e.time.value, r, FINGERPRINT_SKEW) {
      assert Finger([e], runs, 0) == Some(r.id);
    } else {
      assert Finger([e], runs, 0) == None;
      assert Matched([e], runs, 1) == {};
      WindowHitsSnoc(e, [], r, {}, COST_SKEW);
    }
  }

  lemma {:induction false} FingerHitsSnoc(ev: Event, runs: seq<Run>, r: Run, matched: set<int>)
    requires ev.time.Some?
    ensures FingerHits(ev, runs + [r], matched) == FingerHits(ev, runs, matched) +
              if r.id !in matched && FingerprintMatch(ev, r) && InWindow(ev.time.value, r, FINGERPRINT_SKEW) then [r] else []
    ensures FingerHits(ev, [], matched) == []
  {
    assert (runs + [r])[..|runs|] == runs;
  }

  lemma {:induction false} WindowHitsSnoc(ev: Event, runs: seq<Run>, r: Run, matched: set<int>, skew: int)
    requires ev.time.Some?
    ensures WindowHits(ev, runs + [r], matched, skew) == WindowHits(ev, runs, matched, skew) +
              if r.id !in matched && InWindow(ev.time.value, r, skew) then [r] else []
    ensures WindowHits(ev, [], matched, skew) == []
  {
    assert (runs + [r])[..|runs|] == runs;
  }

  lemma {:induction false} AloneCharged(e: Event, r: Run)
    requires CreditOf([e], [r], COST_SKEW)(0) == Some(r.id)
    ensures r.id in TableOf([e], [r], COST_SKEW)
    ensures TableOf([e], [r], COST_SKEW)[r.id].total == Plus(Nothing(), Worth(e))
    ensures TableOf([e], [r], COST_SKEW)[r.id].fingerprinted == (r.id in Matched([e], [r], 1))
  {
    var credit := CreditOf([e], [r], COST_SKEW);
    assert r in [r];
    assert Credited([e], credit, 0, r.id) == Nothing();
    assert Credited([e], credit, 1, r.id) == Plus(Nothing(), Worth(e));
  }

  lemma {:induction false} AlonePriced(e: Event, x: Row)
    requires Payable(e, x) && e.cost > 0.0
    ensures x.run.id in TableOf([e], [x.run], COST_SKEW)
    ensures Records(TableOf([e], [x.run], COST_SKEW)[x.run.id], x.total)
    ensures TableOf([e], [x.run], COST_SKEW)[x.run.id].total.cost == e.cost
  {
    AloneCredited(e, x.run);
    AloneCharged(e, x.run);
  }

  /** A sweep that lists x only and fetches event e only. */
  function Alone(e: nat, x: Row): (s: Sweep) {
    Sweep([x], Some([e]), {x.run.id})
  }

  lemma {:induction false} AlonePending(x: Row, counts: Counts)
    requires CountOf(counts, x.run.id) == 0
    ensures Pending([x], counts) == [x] && RunsOf([x]) == [x.run] && RowIds([x]) == {x.run.id}
  {
    assert [x][..0] == [] && Pending([], counts) == [];
  }

  lemma {:induction false} AloneRecorded(x: Row, table: Table)
    requires x.run.id in table && Records(table[x.run.id], x.total)
    ensures RowIds([x]) == {x.run.id} && Recorded([x], table, {x.run.id}) == {x.run.id}
    ensures RecordedCost([x], table, {x.run.id}) == table[x.run.id].total.cost
  {
    assert x in [x] && [x][..0] == [];
    assert RowIds([]) == {};
    assert RecordedCost([], table, {x.run.id}) == 0.0;
  }

  lemma {:induction false} AloneOk(all: seq<Event>, rows: seq<Row>, e: nat, x: Row)
    requires e < |all| && x in rows
    ensures SweepOk(all, rows, Alone(e, x)) && EventsOf(all, Alone(e, x)) == Some([all[e]])
  {
    assert Fetched(all, [e]) == [all[e]];
  }

  /** What a sweep prices and records, by its pending rows and its events. */
  lemma {:induction false} NowIs(all: seq<Event>, rows: seq<Row>, s: Sweep, counts: Counts, pending: seq<Row>, events: seq<Event>)
    requires SweepOk(all, rows, s) && EventsOf(all, s) == Some(events) && Pending(s.rows, counts) == pending
    ensures PricedNow(all, rows, s, counts) == Recorded(pending, TableOf(events, RunsOf(pending), COST_SKEW), s.writable)
    ensures RowIds(pending) <= TableOf(events, RunsOf(pending), COST_SKEW).Keys
    ensures CostNow(all, rows, s, counts) ==
              RecordedCost(pending, TableOf(events, RunsOf(pending), COST_SKEW), PricedNow(all, rows, s, counts))
  {
    RunIds(pending);
  }

  lemma {:induction false} BooksNow(all: seq<Event>, rows: seq<Row>, s: Sweep, counts: Counts)
    requires SweepOk(all, rows, s)
    ensures BooksOf(all, rows).priced(s, counts) == PricedNow(all, rows, s, counts)
    ensures BooksOf(all, rows).cost(s, counts) == CostNow(all, rows, s, counts)
  {
  }

  lemma {:induction false} AlonePays(all: seq<Event>, rows: seq<Row>, e: nat, x: Row, counts: Counts)
    requires e < |all| && x in rows && Payable(all[e], x) && all[e].cost > 0.0 && CountOf(counts, x.run.id) == 0
    ensures BooksOf(all, rows).priced(Alone(e, x), counts) == {x.run.id}
    ensures BooksOf(all, rows).cost(Alone(e, x), counts) == all[e].cost
  {
    AlonePriced(all[e], x);
    AlonePending(x, counts);
    AloneRecorded(x, TableOf([all[e]], [x.run], COST_SKEW));
    AloneOk(all, rows, e, x);
    NowIs(all, rows, Alone(e, x), counts, [x], [all[e]]);
    BooksNow(all, rows, Alone(e, x), counts);
  }

  lemma {:induction false} FirstCounts(b: Books, log: seq<Sweep>)
    requires |log| > 0
    ensures CountsAt(b, log, 0) == map[]
    ensures CountsAt(b, log, 1) == Swept(map[], log[0].rows, b.priced(log[0], map[]))
  {
    assert CountsAt(b, log, 0) == map[];
  }

  lemma {:induction false} TwoCosts(b: Books, s: Sweep, t: Sweep, c: real)
    requires b.cost(s, map[]) == c && b.cost(t, Swept(map[], s.rows, b.priced(s, map[]))) == c
    ensures LogCost(b, [s, t]) == 2.0 * c
  {
    var log := [s, t];
    FirstCounts(b, log);
    var cost := (k: nat) => if k < |log| then CostAt(b, log, k) else 0.0;
    assert SumOf(cost, 1) == SumOf(cost, 0) + cost(0);
    assert SumOf(cost, 2) == SumOf(cost, 1) + cost(1);
  }

  lemma {:induction false} TwoListed(b: Books, s: Sweep, t: Sweep)
    requires b.priced(s, map[]) !! RowIds(t.rows)
    ensures PricedLeave(b, [s, t])
  {
    FirstCounts(b, [s, t]);
  }

  /** The counts after a sweep that listed a alone and priced it. */
  function AfterOne(a: Row): (r: Counts) {
    Swept(map[], [a], {a.run.id})
  }

  lemma {:induction false} NotCounted(a: Row, b: Row)
    requires a.run.id != b.run.id
    ensures CountOf(AfterOne(a), b.run.id) == 0 && {a.run.id} !! RowIds([b])
  {
    AlonePending(a, map[]);
    AlonePending(b, map[]);
  }

  lemma {:induction false} TwoAlone(books: Books, e: nat, a: Row, b: Row, c: real)
    requires a.run.id != b.run.id
    requires books.priced(Alone(e, a), map[]) == {a.run.id} && books.cost(Alone(e, a), map[]) == c
    requires books.cost(Alone(e, b), AfterOne(a)) == c
    ensures LogCost(books, [Alone(e, a), Alone(e, b)]) == 2.0 * c
    ensures PricedLeave(books, [Alone(e, a), Alone(e, b)])
  {
    NotCounted(a, b);
    TwoCosts(books, Alone(e, a), Alone(e, b), c);
    TwoListed(books, Alone(e, a), Alone(e, b));
  }

  lemma {:induction false} BothOk(all: seq<Event>, rows: seq<Row>, e: nat, a: Row, b: Row)
    requires e < |all| && a in rows && b in rows
    ensures LogOk(all, rows, [Alone(e, a), Alone(e, b)])
  {
    AloneOk(all, rows, e, a);
    AloneOk(all, rows, e, b);
  }

  lemma {:induction false} BothPaid(all: seq<Event>, rows: seq<Row>, e: nat, a: Row, b: Row)
    requires SharedBy(all, rows, e, a, b)
    ensures LogCost(BooksOf(all, rows), [Alone(e, a), Alone(e, b)]) == 2.0 * all[e].cost
    ensures PricedLeave(BooksOf(all, rows), [Alone(e, a), Alone(e, b)])
  {
    NotCounted(a, b);
    AlonePays(all, rows, e, a, map[]);
    AlonePays(all, rows, e, b, AfterOne(a));
    TwoAlone(BooksOf(all, rows), e, a, b, all[e].cost);
  }

  /** Two sweeps, each with one of the two rows, record the cost of one event twice. */
  lemma {:induction false} PaidByBoth(all: seq<Event>, rows: seq<Row>, e: nat, a: Row, b: Row)
    requires SharedBy(all, rows, e, a, b)
    ensures Valid(all, rows, [Alone(e, a), Alone(e, b)])
    ensures UnionOf(FetchedBy([Alone(e, a), Alone(e, b)]), 2) == {e}
    ensures LogCost(BooksOf(all, rows), [Alone(e, a), Alone(e, b)]) == 2.0 * all[e].cost > SetCost(all, {e}, |all|)
  {
    BothPaid(all, rows, e, a, b);
    BothOk(all, rows, e, a, b);
    BothFetched(e, a, b);
    CostOfOne(all, e, |all|);
  }

  lemma {:induction false} BothFetched(e: nat, a: Row, b: Row)
    ensures UnionOf(FetchedBy([Alone(e, a), Alone(e, b)]), 2) == {e}
  {
    var f := FetchedBy([Alone(e, a), Alone(e, b)]);
    assert f(0) == {e} && f(1) == {e};
    assert UnionOf(f, 1) == {e};
  }

  /** All logs conserve the money exactly when no event that costs something can be paid by two of the rows. */
  lemma {:induction false} ConservedExactly(all: seq<Event>, rows: seq<Row>)
    requires Sound(all)
    ensures (forall log :: Valid(all, rows, log) ==> Conserved(all, rows, log)) <==> !Shared(all, rows)
  {
    if Shared(all, rows) {
      var e, a, b :| SharedBy(all, rows, e, a, b);
      PaidByBoth(all, rows, e, a, b);
      assert !Conserved(all, rows, [Alone(e, a), Alone(e, b)]);
    } else {
      forall log | Valid(all, rows, log)
        ensures Conserved(all, rows, log)
      {
        LogConserves(all, rows, log);
      }
    }
  }

  // ---------- the events a sweep asks for ----------

  /** From two minutes before the first start to two minutes after the last end of the pending rows. */
  predicate Asked(pending: seq<Row>, t: int) {
    && (exists i :: 0 <= i < |pending| && pending[i].run.start - 120000 <= t)
    && (exists j :: 0 <= j < |pending| && t <= pending[j].run.end + 120000)
  }

  ghost predicate Answered(all: seq<Event>, s: Sweep, pending: seq<Row>) {
    s.picked.Some? ==> forall e :: e in s.picked.value && e < |all| && all[e].time.Some? ==> Asked(pending, all[e].time.value)
  }

  /** Every sweep of the log fetches only what it asked for. */
  ghost predicate Windowed(all: seq<Event>, rows: seq<Row>, log: seq<Sweep>) {
    forall k :: 0 <= k < |log| ==> Answered(all, log[k], Pending(log[k].rows, CountsAt(BooksOf(all, rows), log, k)))
  }

  /** The event lies within two minutes of the run. */
  predicate Near(e: Event, x: Row) {
    e.time.Some? && x.run.start - 120000 <= e.time.value <= x.run.end + 120000
  }

  ghost predicate SharedNear(all: seq<Event>, rows: seq<Row>) {
    exists e: nat, a, b :: SharedBy(all, rows, e, a, b) && Near(all[e], a) && Near(all[e], b)
  }

  lemma {:induction false} AloneAsked(all: seq<Event>, e: nat, x: Row)
    requires e < |all| && all[e].time.Some?
    ensures Answered(all, Alone(e, x), [x]) <==> Near(all[e], x)
  {
    assert e in [e] && [x][0] == x;
  }

  lemma {:induction false} BothCounts(all: seq<Event>, rows: seq<Row>, e: nat, a: Row, b: Row)
    requires SharedBy(all, rows, e, a, b)
    ensures var log, books := [Alone(e, a), Alone(e, b)], BooksOf(all, rows);
            && Pending(log[0].rows, CountsAt(books, log, 0)) == [a]
            && Pending(log[1].rows, CountsAt(books, log, 1)) == [b]
  {
    NotCounted(a, b);
    AlonePays(all, rows, e, a, map[]);
    FirstCounts(BooksOf(all, rows), [Alone(e, a), Alone(e, b)]);
    AlonePending(a, map[]);
    AlonePending(b, AfterOne(a));
  }

  /** The two sweeps of PaidByBoth ask for the event exactly when it lies within two minutes of both runs. */
  lemma {:induction false} BothAsked(all: seq<Event>, rows: seq<Row>, e: nat, a: Row, b: Row)
    requires SharedBy(all, rows, e, a, b)
    ensures Windowed(all, rows, [Alone(e, a), Alone(e, b)]) <==> Near(all[e], a) && Near(all[e], b)
  {
    var log, books := [Alone(e, a), Alone(e, b)], BooksOf(all, rows);
    BothCounts(all, rows, e, a, b);
    AloneAsked(all, e, a);
    AloneAsked(all, e, b);
    assert Windowed(all, rows, log) ==>
           Answered(all, log[0], Pending(log[0].rows, CountsAt(books, log, 0))) &&
           Answered(all, log[1], Pending(log[1].rows, CountsAt(books, log, 1)));
  }

  /**
   With the fetch window of the source: without a shared event all logs conserve the money, and
   if all do, no event within two minutes of two runs is shared.
   */
  lemma {:induction false} WindowedConserves(all: seq<Event>, rows: seq<Row>)
    requires Sound(all)
    ensures !Shared(all, rows) ==>
              forall log :: Valid(all, rows, log) && Windowed(all, rows, log) ==> Conserved(all, rows, log)
    ensures (forall log :: Valid(all, rows, log) && Windowed(all, rows, log) ==> Conserved(all, rows, log)) ==>
              !SharedNear(all, rows)
  {
    ConservedExactly(all, rows);
    if SharedNear(all, rows) {
      var e: nat, a, b :| SharedBy(all, rows, e, a, b) && Near(all[e], a) && Near(all[e], b);
      PaidByBoth(all, rows, e, a, b);
      BothAsked(all, rows, e, a, b);
      assert !Conserved(all, rows, [Alone(e, a), Alone(e, b)]);
    }
  }
}
