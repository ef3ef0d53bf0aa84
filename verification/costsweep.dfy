/**
 backfillCursorCosts: one sweep over the unpriced executions, and what any number of sweeps
 keeps. The list of rows is compacted in place; attempt counts are capped.
 */
module CostSweep {
  import opened Wrappers
  import opened Attribution

  /** An unpriced execution; total is its own token count. */
  datatype Row = Row(run: Run, total: int)

  const MAX_ATTEMPTS := 10
  // milliseconds
  const COST_SKEW := 2 * 60 * 1000

  type Counts = map<int, nat>

  function CountOf(attempts: Counts, id: int): (n: nat) {
    if id in attempts then attempts[id] else 0
  }

  /** The rows that have not used up their retries. */
  function Pending(rows: seq<Row>, attempts: Counts): (r: seq<Row>) {
    if rows == [] then []
    else
      var rest := Pending(rows[..|rows| - 1], attempts);
      var last := rows[|rows| - 1];
      if CountOf(attempts, last.run.id) < MAX_ATTEMPTS then rest + [last] else rest
  }

  function RowIds(rows: seq<Row>): (r: set<int>) {
    set x | x in rows :: x.run.id
  }

  function RunsOf(rows: seq<Row>): (r: seq<Run>)
    ensures |r| == |rows|
    ensures forall i :: 0 <= i < |rows| ==> r[i] == rows[i].run
  {
    if rows == [] then [] else RunsOf(rows[..|rows| - 1]) + [rows[|rows| - 1].run]
  }

  lemma {:induction false} PendingIs(rows: seq<Row>, attempts: Counts, x: Row)
    ensures x in Pending(rows, attempts) <==> x in rows && CountOf(attempts, x.run.id) < MAX_ATTEMPTS
    ensures |Pending(rows, attempts)| <= |rows|
  {
    if rows != [] {
      PendingIs(rows[..|rows| - 1], attempts, x);
      assert rows == rows[..|rows| - 1] + [rows[|rows| - 1]];
    }
  }

  lemma {:induction false} PendingNext(rows: seq<Row>, attempts: Counts, i: nat)
    requires i < |rows|
    ensures Pending(rows[..i + 1], attempts) ==
            Pending(rows[..i], attempts) + if CountOf(attempts, rows[i].run.id) < MAX_ATTEMPTS then [rows[i]] else []
  {
    assert rows[..i + 1][..i] == rows[..i];
  }

  /** Filtering into the array being read leaves exactly the filtered rows in front. */
  method Compact(rows: array<Row>, attempts: Counts) returns (n: nat, live: set<int>)
    modifies rows
    ensures n <= rows.Length
    ensures rows[..n] == Pending(old(rows[..]), attempts)
    ensures live == RowIds(old(rows[..]))
  {
    ghost var before := rows[..];
    n, live := 0, {};
    var i := 0;
    while i < rows.Length
      invariant 0 <= n <= i <= rows.Length
      invariant rows[..n] == Pending(before[..i], attempts)
      invariant forall k :: i <= k < rows.Length ==> rows[k] == before[k]
      invariant live == RowIds(before[..i])
    {
      var r := rows[i];
      PendingNext(before, attempts, i);
      RowIdsNext(before, i);
      live := live + {r.run.id};
      if CountOf(attempts, r.run.id) < MAX_ATTEMPTS {
        rows[n] := r;
        assert rows[..n + 1] == rows[..n] + [r];
        n := n + 1;
      }
      i := i + 1;
    }
    assert before[..rows.Length] == before;
  }

  // ---------- the attempt counts ----------

  /** Counts after a sweep over rows that recorded the costs of the given executions. */
  function Swept(attempts: Counts, rows: seq<Row>, recorded: set<int>): (r: Counts) {
    var pending := RowIds(Pending(rows, attempts));
    map id | id in RowIds(rows) && (id in attempts || id in pending) && id !in recorded ::
      if id in pending then CountOf(attempts, id) + 1 else CountOf(attempts, id)
  }

  ghost predicate Capped(attempts: Counts) {
    forall id :: id in attempts ==> attempts[id] <= 10
  }

  ghost predicate DistinctRows(rows: seq<Row>) {
    forall i, j :: 0 <= i < j < |rows| ==> rows[i].run.id != rows[j].run.id
  }

  lemma {:induction false} PendingId(rows: seq<Row>, attempts: Counts, id: int)
    ensures id in RowIds(Pending(rows, attempts)) <==> id in RowIds(rows) && CountOf(attempts, id) < MAX_ATTEMPTS
  {
    if id in RowIds(Pending(rows, attempts)) {
      var x :| x in Pending(rows, attempts) && x.run.id == id;
      PendingIs(rows, attempts, x);
    }
    if id in RowIds(rows) && CountOf(attempts, id) < MAX_ATTEMPTS {
      var x :| x in rows && x.run.id == id;
      PendingIs(rows, attempts, x);
    }
  }

  /** No sweep pushes a count over the cap. */
  lemma {:induction false} SweepKeepsCap(attempts: Counts, rows: seq<Row>, recorded: set<int>)
    requires Capped(attempts)
    ensures Capped(Swept(attempts, rows, recorded))
  {
    forall id | id in Swept(attempts, rows, recorded)
      ensures Swept(attempts, rows, recorded)[id] <= MAX_ATTEMPTS
    {
      PendingId(rows, attempts, id);
    }
  }

  /** What one sweep saw: the listed rows, and the executions whose cost it recorded. */
  datatype SweepLog = SweepLog(rows: seq<Row>, recorded: set<int>)

  function CountsAfter(log: seq<SweepLog>): (r: Counts) {
    if log == [] then map[]
    else
      var last := log[|log| - 1];
      Swept(CountsAfter(log[..|log| - 1]), last.rows, last.recorded)
  }

  /** How many sweeps tried to price the execution. */
  function Tries(log: seq<SweepLog>, id: int): (n: nat) {
    if log == [] then 0
    else
      var before, last := log[..|log| - 1], log[|log| - 1];
      Tries(before, id) + if id in RowIds(Pending(last.rows, CountsAfter(before))) then 1 else 0
  }

  lemma {:induction false} CountsCapped(log: seq<SweepLog>)
    ensures Capped(CountsAfter(log))
  {
    if log != [] {
      CountsCapped(log[..|log| - 1]);
      SweepKeepsCap(CountsAfter(log[..|log| - 1]), log[|log| - 1].rows, log[|log| - 1].recorded);
    }
  }

  /** An execution that stays listed and unpriced is tried by the first ten sweeps and by no other, and its count is the tries. */
  lemma {:induction false} TriesAreCounted(log: seq<SweepLog>, id: int)
    requires forall k :: 0 <= k < |log| ==> id in RowIds(log[k].rows) && id !in log[k].recorded
    ensures Tries(log, id) == CountOf(CountsAfter(log), id) == if |log| < 10 then |log| else 10
  {
    if log != [] {
      var before, last := log[..|log| - 1], log[|log| - 1];
      TriesAreCounted(before, id);
      PendingId(last.rows, CountsAfter(before), id);
    }
  }

  // ---------- the sweep ----------

  /** The recording rule: a window match far above the run's own tokens is not trusted. */
  predicate Records(a: Attribution, total: int) {
    var matched := a.total.input + a.total.output;
    && a.total.events > 0
    && (a.fingerprinted || !(matched > 0 && total > 0 && matched > total + total / 2))
    && a.total.cost > 0.0
  }

  function Recorded(pending: seq<Row>, table: Table, writable: set<int>): (r: set<int>) {
    set x | x in pending && x.run.id in table && Records(table[x.run.id], x.total) && x.run.id in writable :: x.run.id
  }

  class Sweeper {
    var attempts: Counts
    /** The costs in the store. */
    var costs: map<int, real>

    constructor ()
      ensures attempts == map[] && costs == map[]
    {
      attempts, costs := map[], map[];
    }

    /** One sweep; events is None when fetching them failed. */
    method Sweep(rows: array<Row>, events: Option<seq<Event>>, writable: set<int>)
      requires DistinctRows(rows[..])
      modifies this, rows
      ensures var pending := Pending(old(rows[..]), old(attempts));
              && attempts == Swept(old(attempts), old(rows[..]), PricedBy(pending, events, writable))
              && AllPriced(old(costs), if events.None? then map[] else TableOf(events.value, RunsOf(pending), COST_SKEW),
                           PricedBy(pending, events, writable), costs)
    {
      ghost var all := rows[..];
      ghost var before := attempts;
      var n, live := Compact(rows, attempts);
      var pending := rows[..n];
      Forget(live);
      ghost var kept := attempts;
      PendingDistinct(all, before);
      if n == 0 {
        assert RowIds(pending) == {};
        SweptAre(before, all, kept, kept, {}, attempts);
        return;
      }
      Bump(pending);
      ghost var bumped := attempts;
      if events.None? {
        SweptAre(before, all, kept, bumped, {}, attempts);
        return;
      }
      var table := Attribute(events.value, RunsOf(pending), COST_SKEW);
      RunIds(pending);
      Record(pending, table, writable);
      SweptAre(before, all, kept, bumped, Recorded(pending, table, writable), attempts);
    }

    /** Forget the counts of rows that no longer come back. */
    method Forget(live: set<int>)
      modifies this`attempts
      ensures AllDropped(old(attempts), old(attempts).Keys - live, attempts)
    {
      ghost var before, gone := attempts, {};
      var ids := attempts.Keys;
      while ids != {}
        invariant gone == before.Keys - ids - live && ids <= before.Keys
        invariant AllDropped(before, gone, attempts)
        decreases ids
      {
        ghost var some := Member(ids);
        var id :| id in ids;
        ids := ids - {id};
        if id !in live {
          DropNext(before, gone, attempts, id);
          attempts, gone := attempts - {id}, gone + {id};
        }
      }
      assert gone == before.Keys - live;
    }

    /** Count one more attempt for each pending row. */
    method Bump(pending: seq<Row>)
      requires DistinctRows(pending)
      modifies this`attempts
      ensures AllRaised(old(attempts), RowIds(pending), attempts)
    {
      ghost var before, done := attempts, {};
      var i := 0;
      while i < |pending|
        invariant 0 <= i <= |pending| && done == RowIds(pending[..i])
        invariant AllRaised(before, done, attempts)
      {
        var id := pending[i].run.id;
        RowIdsNext(pending, i);
        RaiseNext(before, done, attempts, id);
        attempts := attempts[id := CountOf(attempts, id) + 1];
        done := done + {id};
        i := i + 1;
      }
      assert pending[..|pending|] == pending;
    }

    /** Write the costs that pass the rule; a failed write leaves the row for another sweep. */
    method Record(pending: seq<Row>, table: Table, writable: set<int>)
      requires RowIds(pending) <= table.Keys
      modifies this
      ensures AllDropped(old(attempts), Recorded(pending, table, writable), attempts)
      ensures AllPriced(old(costs), table, Recorded(pending, table, writable), costs)
    {
      ghost var counts, paid, done := attempts, costs, {};
      var i := 0;
      while i < |pending|
        invariant 0 <= i <= |pending| && done == Recorded(pending[..i], table, writable)
        invariant AllDropped(counts, done, attempts) && AllPriced(paid, table, done, costs)
      {
        var r := pending[i];
        assert r.run.id in RowIds(pending);
        RecordedNext(pending, table, writable, i);
        if Records(table[r.run.id], r.total) && r.run.id in writable {
          DropNext(counts, done, attempts, r.run.id);
          PriceNext(paid, table, done, costs, r.run.id);
          costs := costs[r.run.id := table[r.run.id].total.cost];
          attempts := attempts - {r.run.id};
          done := done + {r.run.id};
        }
        i := i + 1;
      }
      assert pending[..|pending|] == pending;
    }
  }

  /** The executions a sweep prices: none when the events could not be fetched. */
  function PricedBy(pending: seq<Row>, events: Option<seq<Event>>, writable: set<int>): (r: set<int>) {
    if events.None? then {}
    else Recorded(pending, TableOf(events.value, RunsOf(pending), COST_SKEW), writable)
  }

  /** The counts after forgetting, counting and recording are the swept counts. */
  lemma {:induction false} SweptAre(attempts: Counts, rows: seq<Row>, kept: Counts, bumped: Counts, recorded: set<int>, r: Counts)
    requires AllDropped(attempts, attempts.Keys - RowIds(rows), kept)
    requires AllRaised(kept, RowIds(Pending(rows, attempts)), bumped)
    requires AllDropped(bumped, recorded, r)
    ensures r == Swept(attempts, rows, recorded)
  {
    var want := Swept(attempts, rows, recorded);
    forall id
      ensures id in r <==> id in want
      ensures id in r ==> r[id] == want[id]
    {
      assert Dropped(attempts, attempts.Keys - RowIds(rows), kept, id);
      assert Raised(kept, RowIds(Pending(rows, attempts)), bumped, id);
      assert Dropped(bumped, recorded, r, id);
      PendingId(rows, attempts, id);
    }
  }

  lemma {:induction false} PendingDistinct(rows: seq<Row>, attempts: Counts)
    requires DistinctRows(rows)
    ensures DistinctRows(Pending(rows, attempts))
  {
    if rows != [] {
      var rest := rows[..|rows| - 1];
      PendingDistinct(rest, attempts);
      forall x | x in Pending(rest, attempts)
        ensures x.run.id != rows[|rows| - 1].run.id
      {
        PendingIs(rest, attempts, x);
      }
    }
  }

  /** The count of id is as before, except that the given ids are gone. */
  predicate Dropped(before: Counts, gone: set<int>, attempts: Counts, id: int) {
    if id in gone then id !in attempts
    else (id in attempts <==> id in before) && CountOf(attempts, id) == CountOf(before, id)
  }

  /** The count of id is as before, and one more for the given ids. */
  predicate Raised(before: Counts, more: set<int>, attempts: Counts, id: int) {
    if id in more then id in attempts && attempts[id] == CountOf(before, id) + 1
    else (id in attempts <==> id in before) && CountOf(attempts, id) == CountOf(before, id)
  }

  /** The stored cost of id is as before, or the attributed one for the given ids. */
  predicate Priced(before: map<int, real>, table: Table, paid: set<int>, costs: map<int, real>, id: int) {
    if id in paid then id in table && id in costs && costs[id] == table[id].total.cost
    else (id in costs <==> id in before) && (id in costs ==> costs[id] == before[id])
  }

  lemma {:induction false} Member<T>(s: set<T>) returns (x: T)
    requires s != {}
    ensures x in s
  {
    x :| x in s;
  }

  lemma {:induction false} RunIds(rows: seq<Row>)
    ensures IdsOf(RunsOf(rows)) == RowIds(rows)
  {
    var runs := RunsOf(rows);
    forall id | id in RowIds(rows)
      ensures id in IdsOf(runs)
    {
      var i :| 0 <= i < |rows| && rows[i].run.id == id;
      assert runs[i] in runs;
    }
    forall id | id in IdsOf(runs)
      ensures id in RowIds(rows)
    {
      var i :| 0 <= i < |runs| && runs[i].id == id;
      assert rows[i] in rows;
    }
  }

  ghost predicate AllDropped(before: Counts, gone: set<int>, attempts: Counts) {
    forall id :: Dropped(before, gone, attempts, id)
  }

  ghost predicate AllRaised(before: Counts, more: set<int>, attempts: Counts) {
    forall id :: Raised(before, more, attempts, id)
  }

  ghost predicate AllPriced(before: map<int, real>, table: Table, paid: set<int>, costs: map<int, real>) {
    forall id :: Priced(before, table, paid, costs, id)
  }

  lemma {:induction false} DropNext(before: Counts, gone: set<int>, attempts: Counts, id: int)
    requires AllDropped(before, gone, attempts)
    ensures AllDropped(before, gone + {id}, attempts - {id})
  {
    forall x
      ensures Dropped(before, gone + {id}, attempts - {id}, x)
    {
      assert Dropped(before, gone, attempts, x);
    }
  }

  lemma {:induction false} RaiseNext(before: Counts, more: set<int>, attempts: Counts, id: int)
    requires AllRaised(before, more, attempts) && id !in more
    ensures AllRaised(before, more + {id}, attempts[id := CountOf(attempts, id) + 1])
  {
    var after := attempts[id := CountOf(attempts, id) + 1];
    forall x
      ensures Raised(before, more + {id}, after, x)
    {
      assert Raised(before, more, attempts, x);
    }
  }

  lemma {:induction false} PriceNext(before: map<int, real>, table: Table, paid: set<int>, costs: map<int, real>, id: int)
    requires AllPriced(before, table, paid, costs) && id in table
    ensures AllPriced(before, table, paid + {id}, costs[id := table[id].total.cost])
  {
    var after := costs[id := table[id].total.cost];
    forall x
      ensures Priced(before, table, paid + {id}, after, x)
    {
      assert Priced(before, table, paid, costs, x);
    }
  }

  lemma {:induction false} RowIdsNext(rows: seq<Row>, i: nat)
    requires i < |rows|
    ensures RowIds(rows[..i + 1]) == RowIds(rows[..i]) + {rows[i].run.id}
    ensures DistinctRows(rows) ==> rows[i].run.id !in RowIds(rows[..i])
  {
    assert rows[..i + 1] == rows[..i] + [rows[i]];
  }

  lemma {:induction false} RecordedNext(pending: seq<Row>, table: Table, writable: set<int>, i: nat)
    requires i < |pending| && RowIds(pending) <= table.Keys
    ensures pending[i].run.id in table
    ensures Recorded(pending[..i + 1], table, writable) == Recorded(pending[..i], table, writable) +
              if Records(table[pending[i].run.id], pending[i].total) && pending[i].run.id in writable
              then {pending[i].run.id} else {}
  {
    assert pending[..i + 1] == pending[..i] + [pending[i]];
    assert pending[i].run.id in RowIds(pending);
  }

  // ---------- money ----------

  /** What the sweep writes, all rows together. */
  function RecordedCost(pending: seq<Row>, table: Table, recorded: set<int>): (c: real)
    requires RowIds(pending) <= table.Keys
  {
    if pending == [] then 0.0
    else
      var rest, last := pending[..|pending| - 1], pending[|pending| - 1];
      assert last in pending && last.run.id in RowIds(pending);
      assert RowIds(rest) <= RowIds(pending);
      RecordedCost(rest, table, recorded) + if last.run.id in recorded then table[last.run.id].total.cost else 0.0
  }

  lemma {:induction false} CreditedNotNegative(events: seq<Event>, credit: nat -> Option<int>, n: nat, id: int)
    requires n <= |events| && forall i :: 0 <= i < n ==> events[i].cost >= 0.0
    ensures Credited(events, credit, n, id).cost >= 0.0
  {
    if n > 0 {
      CreditedNotNegative(events, credit, n - 1, id);
    }
  }

  lemma {:induction false} RecordedWithin(
    events: seq<Event>, credit: nat -> Option<int>, pending: seq<Row>, table: Table, recorded: set<int>)
    requires RowIds(pending) <= table.Keys
    requires forall id :: id in table ==> table[id].total == Credited(events, credit, |events|, id)
    requires forall i :: 0 <= i < |events| ==> events[i].cost >= 0.0
    ensures RecordedCost(pending, table, recorded) <= RunsCost(events, credit, |events|, RunsOf(pending))
    decreases |pending|
  {
    if pending != [] {
      var rest, last := pending[..|pending| - 1], pending[|pending| - 1];
      assert last in pending && last.run.id in RowIds(pending);
      assert RowIds(rest) <= RowIds(pending);
      RecordedWithin(events, credit, rest, table, recorded);
      CreditedNotNegative(events, credit, |events|, last.run.id);
      assert RunsOf(pending)[..|pending| - 1] == RunsOf(rest);
    }
  }

  /** One sweep never records more money than its events cost. */
  lemma {:induction false} SweepConserves(events: seq<Event>, pending: seq<Row>, recorded: set<int>)
    requires DistinctRows(pending) && forall i :: 0 <= i < |events| ==> events[i].cost >= 0.0
    ensures RowIds(pending) <= TableOf(events, RunsOf(pending), COST_SKEW).Keys
    ensures RecordedCost(pending, TableOf(events, RunsOf(pending), COST_SKEW), recorded) <= EventsCost(events)
  {
    var runs := RunsOf(pending);
    RunIds(pending);
    RecordedWithin(events, CreditOf(events, runs, COST_SKEW), pending, TableOf(events, runs, COST_SKEW), recorded);
    Conservation(events, runs, COST_SKEW);
  }
}
