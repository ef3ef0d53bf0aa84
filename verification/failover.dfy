/**
 ExecuteStep's candidate loop and the table of paused runners: the primary runner first,
 then the failover chain, with each provider failure pausing its runner type.
 */
module Failover {
  import opened Wrappers

  // ---------- the pause table ----------

  datatype Kind = NoFailure | RateLimited | CreditExhausted | Aborted

  // seconds
  const DEFAULT_PAUSE := 5 * 60

  type Paused<!T> = map<T, int>

  /** Until when a failure pauses its runner: what the provider said, else a default by kind. */
  function Effective(until: Option<int>, kind: Kind, now: int, cooldown: int): (r: Option<int>) {
    if until.Some? then until
    else match kind
      case CreditExhausted => Some(now + cooldown)
      case Aborted => None
      case _ => Some(now + DEFAULT_PAUSE)
  }

  function Extend<T(==)>(paused: Paused<T>, t: T, until: Option<int>): (r: Paused<T>) {
    if until.None? || (t in paused && until.value <= paused[t]) then paused else paused[t := until.value]
  }

  /** One call of pauseRunnerWithKind. */
  datatype PauseCall<T> = PauseCall(runner: T, until: Option<int>, kind: Kind, now: int)

  function Ends<T>(c: PauseCall<T>, cooldown: int): (r: Option<int>) {
    Effective(c.until, c.kind, c.now, cooldown)
  }

  function PausedAfter<T(==)>(paused: Paused<T>, calls: seq<PauseCall<T>>, cooldown: int): (r: Paused<T>) {
    if calls == [] then paused
    else
      var last := calls[|calls| - 1];
      Extend(PausedAfter(paused, calls[..|calls| - 1], cooldown), last.runner, Ends(last, cooldown))
  }

  /** The time n is the end of some call for the runner, or was recorded before. */
  ghost predicate Named<T(!new)>(paused: Paused<T>, calls: seq<PauseCall<T>>, cooldown: int, t: T, n: int) {
    (t in paused && paused[t] == n) || exists i :: 0 <= i < |calls| && calls[i].runner == t && Ends(calls[i], cooldown) == Some(n)
  }

  /** Over any calls, the recorded pause is the latest of the effective ends. */
  lemma {:induction false} PauseIsMaximum<T(!new)>(paused: Paused<T>, calls: seq<PauseCall<T>>, cooldown: int, t: T)
    ensures var r := PausedAfter(paused, calls, cooldown);
            && (t in r <==> exists n :: Named(paused, calls, cooldown, t, n))
            && (t in r ==> Named(paused, calls, cooldown, t, r[t]))
            && (forall n :: Named(paused, calls, cooldown, t, n) ==> t in r && n <= r[t])
  {
    var r := PausedAfter(paused, calls, cooldown);
    if calls == [] {
      if t in paused {
        assert Named(paused, calls, cooldown, t, paused[t]);
      }
    } else {
      var before, last := calls[..|calls| - 1], calls[|calls| - 1];
      PauseIsMaximum(paused, before, cooldown, t);
      forall n
        ensures Named(paused, calls, cooldown, t, n) <==>
                Named(paused, before, cooldown, t, n) || (last.runner == t && Ends(last, cooldown) == Some(n))
      {
        NamedNext(paused, calls, cooldown, t, n);
      }
      if t in r {
        assert Named(paused, calls, cooldown, t, r[t]);
      }
    }
  }

  lemma {:induction false} NamedNext<T(!new)>(paused: Paused<T>, calls: seq<PauseCall<T>>, cooldown: int, t: T, n: int)
    requires calls != []
    ensures var before, last := calls[..|calls| - 1], calls[|calls| - 1];
            Named(paused, calls, cooldown, t, n) <==>
              Named(paused, before, cooldown, t, n) || (last.runner == t && Ends(last, cooldown) == Some(n))
  {
    var before, last := calls[..|calls| - 1], calls[|calls| - 1];
    if i :| 0 <= i < |before| && before[i].runner == t && Ends(before[i], cooldown) == Some(n) {
      assert calls[i] == before[i];
    }
    if i :| 0 <= i < |calls| && calls[i].runner == t && Ends(calls[i], cooldown) == Some(n) {
      assert i < |before| ==> before[i] == calls[i];
    }
  }

  /** ... and it never shrinks. */
  lemma {:induction false} PauseNeverShrinks<T(!new)>(paused: Paused<T>, calls: seq<PauseCall<T>>, cooldown: int, t: T)
    requires t in paused
    ensures t in PausedAfter(paused, calls, cooldown) && PausedAfter(paused, calls, cooldown)[t] >= paused[t]
  {
    if calls != [] {
      PauseNeverShrinks(paused, calls[..|calls| - 1], cooldown, t);
    }
  }

  // ---------- one chain of candidates ----------

  datatype Usage = Usage(input: int, output: int, total: int, cacheWrite: int, cacheRead: int, turns: int, toolCalls: int, cost: real)

  /** What a candidate's run reports. */
  datatype Attempt = Attempt(kind: Kind, rateLimited: bool, resetsAt: Option<int>, usage: Option<Usage>)

  /** A candidate: its runner type, its outcome if it is run, and the clock before and after. */
  datatype Candidate<T> = Candidate(runner: T, attempt: Attempt, before: int, after: int)

  function KindOf(a: Attempt): (k: Kind) {
    if a.kind == NoFailure && a.rateLimited then RateLimited else a.kind
  }

  function Plus(a: Usage, b: Usage): (r: Usage) {
    Usage(a.input + b.input, a.output + b.output, a.total + b.total, a.cacheWrite + b.cacheWrite,
          a.cacheRead + b.cacheRead, a.turns + b.turns, a.toolCalls + b.toolCalls, a.cost + b.cost)
  }

  function Zero(): (u: Usage) {
    Usage(0, 0, 0, 0, 0, 0, 0, 0.0)
  }

  /** The table and whether the loop has ended, when candidate i is considered. */
  datatype Loop<!T> = Loop(paused: Paused<T>, ended: bool)

  predicate IsPaused<T(==)>(paused: Paused<T>, t: T, now: int) {
    t in paused && paused[t] > now
  }

  /** Candidate i is run: it is reached and, unless it is the last, not paused. */
  predicate RunsAt<T(==)>(cs: seq<Candidate<T>>, cooldown: int, paused: Paused<T>, i: nat)
    requires i < |cs|
    decreases i, 1
  {
    var s := StateAt(cs, cooldown, paused, i);
    !s.ended && (i == |cs| - 1 || !IsPaused(s.paused, cs[i].runner, cs[i].before))
  }

  predicate FailsOver<T>(cs: seq<Candidate<T>>, i: nat)
    requires i < |cs|
  {
    KindOf(cs[i].attempt) != NoFailure && i < |cs| - 1
  }

  function StateAt<T(==)>(cs: seq<Candidate<T>>, cooldown: int, paused: Paused<T>, i: nat): (s: Loop<T>)
    requires i <= |cs|
    decreases i, 0
  {
    if i == 0 then Loop(paused, false)
    else
      var s, c := StateAt(cs, cooldown, paused, i - 1), cs[i - 1];
      if !RunsAt(cs, cooldown, paused, i - 1) then s
      else if FailsOver(cs, i - 1) then
        s.(paused := Extend(s.paused, c.runner, Effective(c.attempt.resetsAt, KindOf(c.attempt), c.after, cooldown)))
      else s.(ended := true)
  }

  /** The candidates run among the first n, in order. */
  function Ran<T(==)>(cs: seq<Candidate<T>>, cooldown: int, paused: Paused<T>, n: nat): (r: seq<nat>)
    requires n <= |cs|
    ensures forall k :: 0 <= k < |r| ==> r[k] < n
    ensures forall i: nat :: i in r <==> i < n && RunsAt(cs, cooldown, paused, i)
    ensures forall a, b :: 0 <= a < b < |r| ==> r[a] < r[b]
  {
    if n == 0 then []
    else Ran(cs, cooldown, paused, n - 1) + if RunsAt(cs, cooldown, paused, n - 1) then [n - 1] else []
  }

  /** The result reported: the last attempt, and the usage of all that reported any. */
  datatype Report = Report(res: Option<Attempt>, usage: Option<Usage>)

  function Add(r: Report, a: Attempt): (r': Report) {
    Report(Some(a),
           if a.usage.None? then r.usage
           else Some(Plus(if r.usage.Some? then r.usage.value else Zero(), a.usage.value)))
  }

  function ReportOf<T>(cs: seq<Candidate<T>>, ran: seq<nat>): (r: Report)
    requires forall k :: 0 <= k < |ran| ==> ran[k] < |cs|
  {
    if ran == [] then Report(None, None) else Add(ReportOf(cs, ran[..|ran| - 1]), cs[ran[|ran| - 1]].attempt)
  }

  /** The sum of one field over the attempts that report usage. */
  function IntSum<T>(cs: seq<Candidate<T>>, ran: seq<nat>, field: Usage -> int): (n: int)
    requires forall k :: 0 <= k < |ran| ==> ran[k] < |cs|
  {
    if ran == [] then 0
    else
      var u := cs[ran[0]].attempt.usage;
      (if u.Some? then field(u.value) else 0) + IntSum(cs, ran[1..], field)
  }

  function RealSum<T>(cs: seq<Candidate<T>>, ran: seq<nat>, field: Usage -> real): (n: real)
    requires forall k :: 0 <= k < |ran| ==> ran[k] < |cs|
  {
    if ran == [] then 0.0
    else
      var u := cs[ran[0]].attempt.usage;
      (if u.Some? then field(u.value) else 0.0) + RealSum(cs, ran[1..], field)
  }

  /** The usage is there if some attempt reports any, and then it is, field by field, the sum over the attempts. */
  ghost predicate IsSum<T(!new)>(cs: seq<Candidate<T>>, ran: seq<nat>, usage: Option<Usage>)
    requires forall k :: 0 <= k < |ran| ==> ran[k] < |cs|
  {
    && (usage.Some? <==> exists k :: 0 <= k < |ran| && cs[ran[k]].attempt.usage.Some?)
    && (usage.Some? ==>
          && usage.value.input == IntSum(cs, ran, (u: Usage) => u.input)
          && usage.value.output == IntSum(cs, ran, (u: Usage) => u.output)
          && usage.value.total == IntSum(cs, ran, (u: Usage) => u.total)
          && usage.value.cacheWrite == IntSum(cs, ran, (u: Usage) => u.cacheWrite)
          && usage.value.cacheRead == IntSum(cs, ran, (u: Usage) => u.cacheRead)
          && usage.value.turns == IntSum(cs, ran, (u: Usage) => u.turns)
          && usage.value.toolCalls == IntSum(cs, ran, (u: Usage) => u.toolCalls)
          && usage.value.cost == RealSum(cs, ran, (u: Usage) => u.cost))
  }

  lemma {:induction false} IntSumLast<T>(cs: seq<Candidate<T>>, ran: seq<nat>, field: Usage -> int)
    requires ran != [] && forall k :: 0 <= k < |ran| ==> ran[k] < |cs|
    ensures var u := cs[ran[|ran| - 1]].attempt.usage;
            IntSum(cs, ran, field) == IntSum(cs, ran[..|ran| - 1], field) + if u.Some? then field(u.value) else 0
  {
    if |ran| > 1 {
      IntSumLast(cs, ran[1..], field);
      assert ran[1..][..|ran| - 2] == ran[..|ran| - 1][1..];
    }
  }

  lemma {:induction false} RealSumLast<T>(cs: seq<Candidate<T>>, ran: seq<nat>, field: Usage -> real)
    requires ran != [] && forall k :: 0 <= k < |ran| ==> ran[k] < |cs|
    ensures var u := cs[ran[|ran| - 1]].attempt.usage;
            RealSum(cs, ran, field) == RealSum(cs, ran[..|ran| - 1], field) + if u.Some? then field(u.value) else 0.0
  {
    if |ran| > 1 {
      RealSumLast(cs, ran[1..], field);
      assert ran[1..][..|ran| - 2] == ran[..|ran| - 1][1..];
    }
  }

  /** A field that the report adds up, starting from nothing, is its sum. */
  lemma {:induction false} FieldIsSum<T(!new)>(cs: seq<Candidate<T>>, ran: seq<nat>, field: Usage -> int)
    requires forall k :: 0 <= k < |ran| ==> ran[k] < |cs|
    requires field(Zero()) == 0 && forall a, b :: field(Plus(a, b)) == field(a) + field(b)
    ensures var u := ReportOf(cs, ran).usage; IntSum(cs, ran, field) == if u.Some? then field(u.value) else 0
    decreases |ran|
  {
    if ran != [] {
      FieldIsSum(cs, ran[..|ran| - 1], field);
      IntSumLast(cs, ran, field);
    }
  }

  lemma {:induction false} CostIsSum<T(!new)>(cs: seq<Candidate<T>>, ran: seq<nat>)
    requires forall k :: 0 <= k < |ran| ==> ran[k] < |cs|
    ensures var u, sum := ReportOf(cs, ran).usage, RealSum(cs, ran, (x: Usage) => x.cost);
            sum == if u.Some? then u.value.cost else 0.0
    decreases |ran|
  {
    if ran != [] {
      CostIsSum(cs, ran[..|ran| - 1]);
      RealSumLast(cs, ran, (x: Usage) => x.cost);
    }
  }

  lemma {:induction false} ReportedAny<T(!new)>(cs: seq<Candidate<T>>, ran: seq<nat>)
    requires forall k :: 0 <= k < |ran| ==> ran[k] < |cs|
    ensures ReportOf(cs, ran).usage.Some? <==> exists k :: 0 <= k < |ran| && cs[ran[k]].attempt.usage.Some?
    decreases |ran|
  {
    if ran != [] {
      var before := ran[..|ran| - 1];
      ReportedAny(cs, before);
      if k :| 0 <= k < |before| && cs[before[k]].attempt.usage.Some? {
        assert ran[k] == before[k];
      }
    }
  }

  /** What is reported: the last attempt, and the usage of all attempts made, field by field. */
  lemma {:induction false} ReportIsSum<T(!new)>(cs: seq<Candidate<T>>, ran: seq<nat>)
    requires forall k :: 0 <= k < |ran| ==> ran[k] < |cs|
    ensures ran != [] ==> ReportOf(cs, ran).res == Some(cs[ran[|ran| - 1]].attempt)
    ensures IsSum(cs, ran, ReportOf(cs, ran).usage)
  {
    ReportedAny(cs, ran);
    FieldIsSum(cs, ran, (u: Usage) => u.input);
    FieldIsSum(cs, ran, (u: Usage) => u.output);
    FieldIsSum(cs, ran, (u: Usage) => u.total);
    FieldIsSum(cs, ran, (u: Usage) => u.cacheWrite);
    FieldIsSum(cs, ran, (u: Usage) => u.cacheRead);
    FieldIsSum(cs, ran, (u: Usage) => u.turns);
    FieldIsSum(cs, ran, (u: Usage) => u.toolCalls);
    CostIsSum(cs, ran);
  }

  lemma {:induction false} ReportNext<T>(cs: seq<Candidate<T>>, ran: seq<nat>, i: nat)
    requires (forall k :: 0 <= k < |ran| ==> ran[k] < |cs|) && i < |cs|
    ensures ReportOf(cs, ran + [i]) == Add(ReportOf(cs, ran), cs[i].attempt)
  {
    assert (ran + [i])[..|ran|] == ran;
  }

  /** The loop has ended after a run without failure, or after the last candidate. */
  lemma {:induction false} EndedBy<T(!new)>(cs: seq<Candidate<T>>, cooldown: int, paused: Paused<T>, i: nat)
    requires i <= |cs|
    ensures StateAt(cs, cooldown, paused, i).ended <==>
            exists k :: 0 <= k < i && RunsAt(cs, cooldown, paused, k) && !FailsOver(cs, k)
  {
    if i > 0 {
      EndedBy(cs, cooldown, paused, i - 1);
      if StateAt(cs, cooldown, paused, i).ended && !StateAt(cs, cooldown, paused, i - 1).ended {
        assert RunsAt(cs, cooldown, paused, i - 1) && !FailsOver(cs, i - 1);
      }
    }
  }

  /** Nothing runs after the first run without a failure kind. */
  lemma {:induction false} StopsAtSuccess<T(!new)>(cs: seq<Candidate<T>>, cooldown: int, paused: Paused<T>, i: nat, k: nat)
    requires i < k < |cs| && RunsAt(cs, cooldown, paused, i) && KindOf(cs[i].attempt) == NoFailure
    ensures !RunsAt(cs, cooldown, paused, k)
  {
    EndedBy(cs, cooldown, paused, k);
    assert RunsAt(cs, cooldown, paused, i) && !FailsOver(cs, i);
  }

  /** At least one candidate runs. */
  lemma {:induction false} SomeoneRuns<T(!new)>(cs: seq<Candidate<T>>, cooldown: int, paused: Paused<T>)
    requires cs != []
    ensures Ran(cs, cooldown, paused, |cs|) != []
  {
    var last := |cs| - 1;
    EndedBy(cs, cooldown, paused, last);
    if RunsAt(cs, cooldown, paused, last) {
      assert last in Ran(cs, cooldown, paused, |cs|);
    } else {
      var k :| 0 <= k < last && RunsAt(cs, cooldown, paused, k) && !FailsOver(cs, k);
      assert k in Ran(cs, cooldown, paused, |cs|);
    }
  }

  /** Within a chain the table only grows, so an earlier pause still binds later candidates. */
  lemma {:induction false} ChainKeepsPauses<T(!new)>(
    cs: seq<Candidate<T>>, cooldown: int, paused: Paused<T>, i: nat, k: nat, t: T)
    requires i <= k <= |cs| && t in StateAt(cs, cooldown, paused, i).paused
    ensures var p, q := StateAt(cs, cooldown, paused, i).paused, StateAt(cs, cooldown, paused, k).paused;
            t in q && q[t] >= p[t]
    decreases k
  {
    if i < k {
      ChainKeepsPauses(cs, cooldown, paused, i, k - 1, t);
    }
  }

  /** A candidate that failed over is not tried again, as another candidate, before its pause is over. */
  lemma {:induction false} PauseBinds<T(!new)>(cs: seq<Candidate<T>>, cooldown: int, paused: Paused<T>, i: nat, k: nat)
    requires i < k < |cs| - 1 && RunsAt(cs, cooldown, paused, i) && FailsOver(cs, i)
    requires RunsAt(cs, cooldown, paused, k) && cs[k].runner == cs[i].runner
    ensures var end := EndOf(cs[i], cooldown); end.Some? ==> end.value <= cs[k].before
  {
    var end := EndOf(cs[i], cooldown);
    if end.Some? {
      assert cs[i].runner in StateAt(cs, cooldown, paused, i + 1).paused;
      ChainKeepsPauses(cs, cooldown, paused, i + 1, k, cs[i].runner);
    }
  }

  /** ... and no candidate but the last is tried before a pause from before the chain is over. */
  lemma {:induction false} EarlierPauseBinds<T(!new)>(cs: seq<Candidate<T>>, cooldown: int, paused: Paused<T>, k: nat)
    requires k < |cs| - 1 && RunsAt(cs, cooldown, paused, k) && cs[k].runner in paused
    ensures paused[cs[k].runner] <= cs[k].before
  {
    ChainKeepsPauses(cs, cooldown, paused, 0, k, cs[k].runner);
  }

  /** The attempt failed: it says so, or it says only that it was rate-limited. */
  predicate Failed(a: Attempt) {
    a.kind != NoFailure || a.rateLimited
  }

  /**
   A failed attempt that ended at the given time pauses its runner until n: the time the
   provider named; else a cooldown after spent credit, five minutes after a rate limit, and
   never after an abort.
   */
  predicate PausesUntil(a: Attempt, ended: int, cooldown: int, n: int) {
    if a.resetsAt.Some? then n == a.resetsAt.value
    else if a.kind == CreditExhausted then n == ended + cooldown
    else a.kind != Aborted && n == ended + 300
  }

  /** The time n bars runner t at candidate k: it was in the table, or an earlier candidate failed over and set it. */
  ghost predicate Bars<T(!new)>(cs: seq<Candidate<T>>, cooldown: int, paused: Paused<T>, k: nat, t: T, n: int)
    requires k <= |cs|
  {
    || (t in paused && paused[t] == n)
    || exists i :: 0 <= i < k && RunsAt(cs, cooldown, paused, i) && Failed(cs[i].attempt) && cs[i].runner == t
                   && PausesUntil(cs[i].attempt, cs[i].after, cooldown, n)
  }

  function EndOf<T>(c: Candidate<T>, cooldown: int): (r: Option<int>) {
    Effective(c.attempt.resetsAt, KindOf(c.attempt), c.after, cooldown)
  }

  lemma {:induction false} BarsNext<T(!new)>(cs: seq<Candidate<T>>, cooldown: int, paused: Paused<T>, k: nat, t: T, n: int)
    requires k < |cs|
    ensures Bars(cs, cooldown, paused, k + 1, t, n) <==>
            || Bars(cs, cooldown, paused, k, t, n)
            || (RunsAt(cs, cooldown, paused, k) && Failed(cs[k].attempt) && cs[k].runner == t
                && PausesUntil(cs[k].attempt, cs[k].after, cooldown, n))
  {
  }

  lemma {:induction false} EndIs<T(!new)>(cs: seq<Candidate<T>>, cooldown: int, i: nat, n: int)
    requires i < |cs|
    ensures FailsOver(cs, i) <==> Failed(cs[i].attempt) && i < |cs| - 1
    ensures EndOf(cs[i], cooldown) == Some(n) <==> PausesUntil(cs[i].attempt, cs[i].after, cooldown, n)
  {
  }

  /** The pause seen by candidate k is the latest time that bars its runner. */
  lemma {:induction false} TableIsBars<T(!new)>(cs: seq<Candidate<T>>, cooldown: int, paused: Paused<T>, k: nat, t: T)
    requires k < |cs|
    ensures var r := StateAt(cs, cooldown, paused, k).paused;
            && (t in r ==> Bars(cs, cooldown, paused, k, t, r[t]))
            && (forall n :: Bars(cs, cooldown, paused, k, t, n) ==> t in r && n <= r[t])
  {
    if k > 0 {
      TableIsBars(cs, cooldown, paused, k - 1, t);
      var r := StateAt(cs, cooldown, paused, k).paused;
      forall n
        ensures Bars(cs, cooldown, paused, k, t, n) ==> t in r && n <= r[t]
      {
        BarsNext(cs, cooldown, paused, k - 1, t, n);
        EndIs(cs, cooldown, k - 1, n);
      }
      if t in r {
        BarsNext(cs, cooldown, paused, k - 1, t, r[t]);
        EndIs(cs, cooldown, k - 1, r[t]);
      }
    }
  }

  /**
   Who is tried: any candidate but the last runs exactly when no earlier run ended the chain
   and every pause of its runner, from before the chain or from within it, is over. The last
   one runs whatever the table says.
   */
  lemma {:induction false} RunsExactly<T(!new)>(cs: seq<Candidate<T>>, cooldown: int, paused: Paused<T>, k: nat)
    requires k < |cs|
    ensures RunsAt(cs, cooldown, paused, k) <==>
            && (forall i :: 0 <= i < k && RunsAt(cs, cooldown, paused, i) ==> Failed(cs[i].attempt))
            && (k == |cs| - 1 || forall n :: Bars(cs, cooldown, paused, k, cs[k].runner, n) ==> n <= cs[k].before)
  {
    EndedBy(cs, cooldown, paused, k);
    forall i | 0 <= i < k
      ensures FailsOver(cs, i) <==> Failed(cs[i].attempt)
    {
      EndIs(cs, cooldown, i, 0);
    }
    TableIsBars(cs, cooldown, paused, k, cs[k].runner);
  }

  // ---------- the code ----------

  class Runners<T(==,!new)> {
    const cooldown: int
    var paused: Paused<T>

    constructor (cooldown: int)
      ensures this.cooldown == cooldown && paused == map[]
    {
      this.cooldown := cooldown;
      paused := map[];
    }

    method PauseRunnerWithKind(t: T, until0: Option<int>, kind: Kind, now: int) returns (r: Option<int>)
      modifies this`paused
      ensures r == Effective(until0, kind, now, cooldown)
      ensures forall n :: r == Some(n) <==> PausesUntil(Attempt(kind, true, until0, None), now, cooldown, n)
      ensures paused == Extend(old(paused), t, r)
    {
      var until := until0;
      if until.None? {
        match kind
        case CreditExhausted => until := Some(now + cooldown);
        case Aborted =>
        case _ => until := Some(now + DEFAULT_PAUSE);
      }
      if until.None? {
        return until;
      }
      if t !in paused || until.value > paused[t] {
        paused := paused[t := until.value];
      }
      return until;
    }

    /** ExecuteStep: who ran, and what is reported. */
    method ExecuteStep(cs: seq<Candidate<T>>) returns (ran: seq<nat>, report: Report)
      requires cs != []
      modifies this`paused
      ensures ran == Ran(cs, cooldown, old(paused), |cs|) && ran != []
      ensures report.res == Some(cs[ran[|ran| - 1]].attempt) && IsSum(cs, ran, report.usage)
      ensures paused == StateAt(cs, cooldown, old(paused), |cs|).paused
    {
      ran, report := TryCandidates(cs);
      ReportIsSum(cs, ran);
    }

    /** The candidate loop. */
    method TryCandidates(cs: seq<Candidate<T>>) returns (ran: seq<nat>, report: Report)
      requires cs != []
      modifies this`paused
      ensures ran == Ran(cs, cooldown, old(paused), |cs|) && ran != []
      ensures report == ReportOf(cs, ran)
      ensures paused == StateAt(cs, cooldown, old(paused), |cs|).paused
    {
      ghost var before := paused;
      ran, report := [], Report(None, None);
      var i, stop := 0, false;
      while i < |cs| && !stop
        invariant 0 <= i <= |cs|
        invariant ran == Ran(cs, cooldown, before, i)
        invariant StateAt(cs, cooldown, before, i) == Loop(paused, stop)
        invariant report == ReportOf(cs, ran)
      {
        var c := cs[i];
        var last := i == |cs| - 1;
        if last || !(c.runner in paused && paused[c.runner] > c.before) {
          ReportNext(cs, ran, i);
          report := Add(report, c.attempt);
          ran := ran + [i];
          if KindOf(c.attempt) != NoFailure && !last {
            var until := PauseRunnerWithKind(c.runner, c.attempt.resetsAt, KindOf(c.attempt), c.after);
          } else {
            stop := true;
          }
        }
        i := i + 1;
      }
      RestSkipped(cs, cooldown, before, i);
      SomeoneRuns(cs, cooldown, before);
    }
  }

  /** Once the loop has ended, the rest of the chain changes nothing. */
  lemma {:induction false} RestSkipped<T(!new)>(cs: seq<Candidate<T>>, cooldown: int, paused: Paused<T>, i: nat)
    requires i <= |cs| && (i < |cs| ==> StateAt(cs, cooldown, paused, i).ended)
    ensures Ran(cs, cooldown, paused, |cs|) == Ran(cs, cooldown, paused, i)
    ensures StateAt(cs, cooldown, paused, |cs|) == StateAt(cs, cooldown, paused, i)
    decreases |cs| - i
  {
    if i < |cs| {
      assert StateAt(cs, cooldown, paused, i + 1) == StateAt(cs, cooldown, paused, i);
      assert Ran(cs, cooldown, paused, i + 1) == Ran(cs, cooldown, paused, i) + [];
      RestSkipped(cs, cooldown, paused, i + 1);
    }
  }
}
