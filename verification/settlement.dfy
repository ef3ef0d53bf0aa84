/**
 Who releases a run's hold on its task's outstanding counter. A reserved row leaves 'queued'
 by compare-and-set, for the engine, an operator's stop or the settlement of its job; a job
 without a reservation is settled by inserting a uniquely named row. Any number of these
 processes run side by side, may be repeated and may die between two steps.
 */
module Settlement {
  import opened Wrappers

  /** What can be taken once: a reserved instance out of 'queued', or the name queue-<job>. */
  datatype Token<R, J> = Row(row: R) | Mark(job: J)

  /** What a process does next. */
  datatype Pc<R, J> =
    | StopRead(row: R)                          // StopInstance: is the instance queued?
    | SettleRead(job: J)                        // settleRemoteQueueJob: is there a reserved row?
    | SettleMark(job: J)                        // is there a queue-<job> row?
    | SettleScan(job: J)                        // does the local engine own the run?
    | Take(token: Token<R, J>, releases: bool)  // LeaveQueuedState, or the insert of queue-<job>
    | Release(token: Token<R, J>)               // DecrementOutstanding
    | End

  /** The engine claims a reserved run, an operator stops it, or its job is settled. */
  predicate IsStart<R, J>(pc: Pc<R, J>) {
    pc.StopRead? || pc.SettleRead? || (pc.Take? && pc.token.Row? && !pc.releases)
  }

  /** The reserved rows, who took what, the processes, and how often each token was released. */
  datatype Store<R(==), J(==), K> = Store(
    rows: set<R>,
    taken: map<Token<R, J>, K>,
    procs: map<K, Pc<R, J>>,
    released: map<Token<R, J>, nat>)

  datatype Action<R, J, K> =
    | Spawn(k: K, pc: Pc<R, J>)
    | Advance(k: K, owned: bool)
    | Crash(k: K)

  function Released<R(==), J(==), K>(s: Store<R, J, K>, t: Token<R, J>): (n: nat) {
    if t in s.released then s.released[t] else 0
  }

  /** The reserved row of a job, if it exists. */
  function RowOf<R(==), J(==), K>(reserves: J -> Option<R>, s: Store<R, J, K>, j: J): (r: Option<R>) {
    if reserves(j).Some? && reserves(j).value in s.rows then reserves(j) else None
  }

  /** Where process k goes next; owned is what the scan for a local run finds. */
  function NextPc<R(==), J(==), K(==)>(reserves: J -> Option<R>, s: Store<R, J, K>, k: K, owned: bool): (pc: Pc<R, J>)
    requires k in s.procs
  {
    match s.procs[k]
    case StopRead(row) => if row in s.rows && Row(row) !in s.taken then Take(Row(row), true) else End
    case SettleRead(job) =>
      var row := RowOf(reserves, s, job);
      if row.Some? then Take(Row(row.value), true) else SettleMark(job)
    case SettleMark(job) => if Mark(job) in s.taken then End else SettleScan(job)
    case SettleScan(job) => if owned then End else Take(Mark(job), true)
    case Take(t, releases) => if t !in s.taken && releases then Release(t) else End
    case Release(t) => End
    case End => End
  }

  function Next<R(==), J(==), K(==)>(reserves: J -> Option<R>, s: Store<R, J, K>, k: K, owned: bool): (r: Store<R, J, K>)
    requires k in s.procs
  {
    var pc := s.procs[k];
    Store(
      s.rows,
      if pc.Take? && pc.token !in s.taken then s.taken[pc.token := k] else s.taken,
      s.procs[k := NextPc(reserves, s, k, owned)],
      if pc.Release? then s.released[pc.token := Released(s, pc.token) + 1] else s.released)
  }

  ghost predicate Step<R(!new), J(!new), K(!new)>(
    reserves: J -> Option<R>, s: Store<R, J, K>, a: Action<R, J, K>, s': Store<R, J, K>)
  {
    match a
    case Spawn(k, pc) => k !in s.procs && IsStart(pc) && s' == s.(procs := s.procs[k := pc])
    case Advance(k, owned) => k in s.procs && s' == Next(reserves, s, k, owned)
    case Crash(k) => k in s.procs && s' == s.(procs := s.procs[k := End])
  }

  ghost predicate Run<R(!new), J(!new), K(!new)>(
    reserves: J -> Option<R>, rows: set<R>, states: seq<Store<R, J, K>>, actions: seq<Action<R, J, K>>)
  {
    && |states| == |actions| + 1 && states[0] == Store(rows, map[], map[], map[])
    && forall i :: 0 <= i < |actions| ==> Step(reserves, states[i], actions[i], states[i + 1])
  }

  // ---------- the invariant ----------

  /** A token is released at most once, and only by the process that took it. */
  ghost predicate TokenHolds<R(!new), J(!new), K(!new)>(s: Store<R, J, K>, t: Token<R, J>) {
    && (t in s.taken ==> s.taken[t] in s.procs)
    && Released(s, t) <= 1
    && (Released(s, t) == 1 ==> t in s.taken && s.procs[s.taken[t]] == End)
  }

  /** A process about to release is the one that took the token, and has not released it yet. */
  ghost predicate ProcHolds<R(!new), J(!new), K(!new)>(s: Store<R, J, K>, k: K) {
    k in s.procs && s.procs[k].Release? ==>
      var t := s.procs[k].token;
      t in s.taken && s.taken[t] == k && Released(s, t) == 0
  }

  ghost predicate Inv<R(!new), J(!new), K(!new)>(s: Store<R, J, K>) {
    (forall t :: TokenHolds(s, t)) && (forall k :: ProcHolds(s, k))
  }

  lemma {:induction false} StepToken<R(!new), J(!new), K(!new)>(
    reserves: J -> Option<R>, s: Store<R, J, K>, a: Action<R, J, K>, s': Store<R, J, K>, t: Token<R, J>)
    requires TokenHolds(s, t) && ProcHolds(s, a.k) && Step(reserves, s, a, s')
    ensures TokenHolds(s', t)
  {
  }

  lemma {:induction false} StepProc<R(!new), J(!new), K(!new)>(
    reserves: J -> Option<R>, s: Store<R, J, K>, a: Action<R, J, K>, s': Store<R, J, K>, k: K)
    requires ProcHolds(s, k) && ProcHolds(s, a.k) && Step(reserves, s, a, s')
    requires forall t :: TokenHolds(s, t)
    ensures ProcHolds(s', k)
  {
    if a.k in s.procs && s.procs[a.k].Take? {
      assert TokenHolds(s, s.procs[a.k].token);
    }
  }

  lemma {:induction false} StepKeepsInv<R(!new), J(!new), K(!new)>(
    reserves: J -> Option<R>, s: Store<R, J, K>, a: Action<R, J, K>, s': Store<R, J, K>)
    requires Inv(s) && Step(reserves, s, a, s')
    ensures Inv(s')
  {
    assert ProcHolds(s, a.k);
    forall t
      ensures TokenHolds(s', t)
    {
      StepToken(reserves, s, a, s', t);
    }
    forall k
      ensures ProcHolds(s', k)
    {
      StepProc(reserves, s, a, s', k);
    }
  }

  lemma {:induction false} RunKeepsInv<R(!new), J(!new), K(!new)>(
    reserves: J -> Option<R>, rows: set<R>, states: seq<Store<R, J, K>>, actions: seq<Action<R, J, K>>, i: nat)
    requires Run(reserves, rows, states, actions) && i < |states|
    ensures Inv(states[i]) && states[i].rows == rows
    decreases i
  {
    if i > 0 {
      RunKeepsInv(reserves, rows, states, actions, i - 1);
      assert Step(reserves, states[i - 1], actions[i - 1], states[i - 1 + 1]);
      StepKeepsInv(reserves, states[i - 1], actions[i - 1], states[i]);
    }
  }

  /** However often settlement is replayed and whoever competes, a hold is released at most once. */
  lemma {:induction false} ReleasedAtMostOnce<R(!new), J(!new), K(!new)>(
    reserves: J -> Option<R>, rows: set<R>, states: seq<Store<R, J, K>>, actions: seq<Action<R, J, K>>, i: nat, t: Token<R, J>)
    requires Run(reserves, rows, states, actions) && i < |states|
    ensures Released(states[i], t) <= 1
  {
    RunKeepsInv(reserves, rows, states, actions, i);
    assert TokenHolds(states[i], t);
  }

  /** Exactly one process takes a row out of 'queued': who took it never changes. */
  lemma {:induction false} TakenForGood<R(!new), J(!new), K(!new)>(
    reserves: J -> Option<R>, rows: set<R>, states: seq<Store<R, J, K>>, actions: seq<Action<R, J, K>>,
    i: nat, m: nat, t: Token<R, J>)
    requires Run(reserves, rows, states, actions) && i <= m < |states| && t in states[i].taken
    ensures t in states[m].taken && states[m].taken[t] == states[i].taken[t]
    decreases m
  {
    if i < m {
      TakenForGood(reserves, rows, states, actions, i, m - 1, t);
      assert Step(reserves, states[m - 1], actions[m - 1], states[m - 1 + 1]);
    }
  }

  /** A token whose taker is not about to release it stays unreleased. */
  lemma {:induction false} NeverReleased<R(!new), J(!new), K(!new)>(
    reserves: J -> Option<R>, rows: set<R>, states: seq<Store<R, J, K>>, actions: seq<Action<R, J, K>>,
    i: nat, m: nat, t: Token<R, J>)
    requires Run(reserves, rows, states, actions) && i <= m < |states|
    requires t in states[i].taken && states[i].taken[t] in states[i].procs && states[i].procs[states[i].taken[t]] == End
    requires Released(states[i], t) == 0
    ensures t in states[m].taken && states[m].taken[t] in states[m].procs && states[m].procs[states[m].taken[t]] == End
    ensures Released(states[m], t) == 0
    decreases m
  {
    if i < m {
      NeverReleased(reserves, rows, states, actions, i, m - 1, t);
      RunKeepsInv(reserves, rows, states, actions, m - 1);
      var s, a := states[m - 1], actions[m - 1];
      assert Step(reserves, s, a, states[m - 1 + 1]);
      assert ProcHolds(s, a.k);
    }
  }

  /** When the engine wins the row, neither stop nor settlement ever releases it. */
  lemma {:induction false} EngineWins<R(!new), J(!new), K(!new)>(
    reserves: J -> Option<R>, rows: set<R>, states: seq<Store<R, J, K>>, actions: seq<Action<R, J, K>>,
    i: nat, m: nat, k: K, row: R)
    requires Run(reserves, rows, states, actions) && i < m < |states|
    requires actions[i].Advance? && actions[i].k == k
    requires k in states[i].procs && states[i].procs[k] == Take(Row(row), false) && Row(row) !in states[i].taken
    ensures Released(states[m], Row(row)) == 0
  {
    RunKeepsInv(reserves, rows, states, actions, i);
    assert TokenHolds(states[i], Row(row));
    assert Step(reserves, states[i], actions[i], states[i + 1]);
    NeverReleased(reserves, rows, states, actions, i + 1, m, Row(row));
  }

  /** A process settles a job by its mark only when the job has no reserved row. */
  ghost predicate Unreserved<R(!new), J(!new), K(!new)>(reserves: J -> Option<R>, s: Store<R, J, K>, k: K) {
    k in s.procs ==>
      match s.procs[k]
      case SettleMark(j) => RowOf(reserves, s, j).None?
      case SettleScan(j) => RowOf(reserves, s, j).None?
      case Take(t, _) => t.Mark? ==> RowOf(reserves, s, t.job).None?
      case _ => true
  }

  ghost predicate MarksUnreserved<R(!new), J(!new), K(!new)>(reserves: J -> Option<R>, s: Store<R, J, K>) {
    && (forall k :: Unreserved(reserves, s, k))
    && (forall t :: t in s.taken && t.Mark? ==> RowOf(reserves, s, t.job).None?)
  }

  lemma {:induction false} StepUnreserved<R(!new), J(!new), K(!new)>(
    reserves: J -> Option<R>, s: Store<R, J, K>, a: Action<R, J, K>, s': Store<R, J, K>)
    requires MarksUnreserved(reserves, s) && Step(reserves, s, a, s')
    ensures MarksUnreserved(reserves, s')
  {
    assert Unreserved(reserves, s, a.k);
    forall j
      ensures RowOf(reserves, s', j) == RowOf(reserves, s, j)
    {
    }
    forall k
      ensures Unreserved(reserves, s', k)
    {
      assert Unreserved(reserves, s, k);
    }
  }

  lemma {:induction false} RunUnreserved<R(!new), J(!new), K(!new)>(
    reserves: J -> Option<R>, rows: set<R>, states: seq<Store<R, J, K>>, actions: seq<Action<R, J, K>>, i: nat)
    requires Run(reserves, rows, states, actions) && i < |states|
    ensures MarksUnreserved(reserves, states[i])
    decreases i
  {
    if i > 0 {
      RunUnreserved(reserves, rows, states, actions, i - 1);
      assert Step(reserves, states[i - 1], actions[i - 1], states[i - 1 + 1]);
      StepUnreserved(reserves, states[i - 1], actions[i - 1], states[i]);
    }
  }

  /** A job with a reservation is released through its row alone, and once at most. */
  lemma {:induction false} JobReleasedAtMostOnce<R(!new), J(!new), K(!new)>(
    reserves: J -> Option<R>, rows: set<R>, states: seq<Store<R, J, K>>, actions: seq<Action<R, J, K>>,
    i: nat, j: J, row: R)
    requires Run(reserves, rows, states, actions) && i < |states|
    requires reserves(j) == Some(row) && row in rows
    ensures Released(states[i], Row(row)) + Released(states[i], Mark(j)) <= 1
  {
    RunKeepsInv(reserves, rows, states, actions, i);
    RunUnreserved(reserves, rows, states, actions, i);
    assert TokenHolds(states[i], Row(row)) && TokenHolds(states[i], Mark(j));
  }

  // ---------- and it is released ----------

  /** Process k began so. */
  ghost predicate Began<R(!new), J(!new), K(!new)>(actions: seq<Action<R, J, K>>, n: nat, k: K, pc: Pc<R, J>)
    requires n <= |actions|
  {
    exists i :: 0 <= i < n && actions[i] == Spawn(k, pc)
  }

  /** Process k is an operator's stop or the settlement of a job, and not the engine's claim. */
  ghost predicate Gives<R(!new), J(!new), K(!new)>(actions: seq<Action<R, J, K>>, n: nat, k: K)
    requires n <= |actions|
  {
    exists pc :: Began(actions, n, k, pc) && !pc.Take?
  }

  ghost predicate Crashed<R(!new), J(!new), K(!new)>(actions: seq<Action<R, J, K>>, n: nat, k: K)
    requires n <= |actions|
  {
    exists i :: 0 <= i < n && actions[i] == Crash(k)
  }

  /** A process about to take a token is going to release it exactly if it is not the engine's. */
  ghost predicate Intends<R(!new), J(!new), K(!new)>(s: Store<R, J, K>, actions: seq<Action<R, J, K>>, n: nat, k: K)
    requires n <= |actions|
  {
    k in s.procs ==>
      && (exists pc :: Began(actions, n, k, pc))
      && (s.procs[k].Take? ==> (s.procs[k].releases <==> Gives(actions, n, k)))
      && (!s.procs[k].Take? && !s.procs[k].End? ==> Gives(actions, n, k))
  }

  /** A taken token of a process that did not crash is released, or about to be, exactly if the process gives it back. */
  ghost predicate Settles<R(!new), J(!new), K(!new)>(s: Store<R, J, K>, actions: seq<Action<R, J, K>>, n: nat, t: Token<R, J>)
    requires n <= |actions|
  {
    t in s.taken && s.taken[t] in s.procs && !Crashed(actions, n, s.taken[t]) ==>
      if Gives(actions, n, s.taken[t]) then Released(s, t) == 1 || s.procs[s.taken[t]] == Release(t)
      else Released(s, t) == 0 && s.procs[s.taken[t]] == End
  }

  ghost predicate Complete<R(!new), J(!new), K(!new)>(s: Store<R, J, K>, actions: seq<Action<R, J, K>>, n: nat)
    requires n <= |actions|
  {
    && (forall k :: Intends(s, actions, n, k))
    && (forall t :: Settles(s, actions, n, t))
    && (forall k, pc :: Began(actions, n, k, pc) ==> k in s.procs)
  }

  lemma {:induction false} BeganNext<R(!new), J(!new), K(!new)>(actions: seq<Action<R, J, K>>, n: nat, k: K, pc: Pc<R, J>)
    requires n < |actions|
    ensures Began(actions, n + 1, k, pc) <==> Began(actions, n, k, pc) || actions[n] == Spawn(k, pc)
  {
  }

  lemma {:induction false} CrashedNext<R(!new), J(!new), K(!new)>(actions: seq<Action<R, J, K>>, n: nat, k: K)
    requires n < |actions|
    ensures Crashed(actions, n + 1, k) <==> Crashed(actions, n, k) || actions[n] == Crash(k)
  {
  }

  /** Who a process is does not change once it runs. */
  lemma {:induction false} GivesNext<R(!new), J(!new), K(!new)>(actions: seq<Action<R, J, K>>, n: nat, k: K)
    requires n < |actions|
    ensures Gives(actions, n + 1, k) <==>
            Gives(actions, n, k) || (actions[n].Spawn? && actions[n].k == k && !actions[n].pc.Take?)
  {
    if pc :| Began(actions, n + 1, k, pc) && !pc.Take? {
      BeganNext(actions, n, k, pc);
    }
    if pc :| Began(actions, n, k, pc) && !pc.Take? {
      BeganNext(actions, n, k, pc);
    }
    if actions[n].Spawn? && actions[n].k == k {
      BeganNext(actions, n, k, actions[n].pc);
    }
  }

  lemma {:induction false} NotBegunYet<R(!new), J(!new), K(!new)>(s: Store<R, J, K>, actions: seq<Action<R, J, K>>, n: nat, k: K)
    requires n <= |actions| && Complete(s, actions, n) && k !in s.procs
    ensures !Gives(actions, n, k)
  {
  }

  lemma {:induction false} IntendsNext<R(!new), J(!new), K(!new)>(
    reserves: J -> Option<R>, s: Store<R, J, K>, s': Store<R, J, K>, actions: seq<Action<R, J, K>>, n: nat, k: K)
    requires n < |actions| && Complete(s, actions, n) && Step(reserves, s, actions[n], s')
    ensures Intends(s', actions, n + 1, k)
  {
    assert Intends(s, actions, n, k);
    GivesNext(actions, n, k);
    if k in s.procs {
      var pc :| Began(actions, n, k, pc);
      BeganNext(actions, n, k, pc);
    } else if k in s'.procs {
      NotBegunYet(s, actions, n, k);
      BeganNext(actions, n, k, actions[n].pc);
    }
  }

  lemma {:induction false} SettlesNext<R(!new), J(!new), K(!new)>(
    reserves: J -> Option<R>, s: Store<R, J, K>, s': Store<R, J, K>, actions: seq<Action<R, J, K>>, n: nat, t: Token<R, J>)
    requires n < |actions| && Inv(s) && Complete(s, actions, n) && Step(reserves, s, actions[n], s')
    ensures Settles(s', actions, n + 1, t)
  {
    var a := actions[n];
    assert Settles(s, actions, n, t) && TokenHolds(s, t) && ProcHolds(s, a.k);
    if t in s'.taken {
      var k := s'.taken[t];
      GivesNext(actions, n, k);
      CrashedNext(actions, n, k);
      assert Intends(s, actions, n, k);
      if t in s.taken {
        assert ProcHolds(s, k);
      }
    }
  }

  lemma {:induction false} CompleteNext<R(!new), J(!new), K(!new)>(
    reserves: J -> Option<R>, s: Store<R, J, K>, s': Store<R, J, K>, actions: seq<Action<R, J, K>>, n: nat)
    requires n < |actions| && Inv(s) && Complete(s, actions, n) && Step(reserves, s, actions[n], s')
    ensures Complete(s', actions, n + 1)
  {
    var m := n + 1;
    forall k
      ensures Intends(s', actions, m, k)
    {
      IntendsNext(reserves, s, s', actions, n, k);
    }
    forall t
      ensures Settles(s', actions, m, t)
    {
      SettlesNext(reserves, s, s', actions, n, t);
    }
    forall k, pc | Began(actions, m, k, pc)
      ensures k in s'.procs
    {
      BeganNext(actions, n, k, pc);
    }
  }

  lemma {:induction false} RunComplete<R(!new), J(!new), K(!new)>(
    reserves: J -> Option<R>, rows: set<R>, states: seq<Store<R, J, K>>, actions: seq<Action<R, J, K>>, i: nat)
    requires Run(reserves, rows, states, actions) && i < |states|
    ensures Complete(states[i], actions, i)
    decreases i
  {
    if i > 0 {
      var n := i - 1;
      RunComplete(reserves, rows, states, actions, n);
      RunKeepsInv(reserves, rows, states, actions, n);
      assert Step(reserves, states[n], actions[n], states[n + 1]);
      CompleteNext(reserves, states[n], states[n + 1], actions, n);
    }
  }

  /**
   In every run: a token taken by a stop or a settlement that did not crash and has come to its
   end is released exactly once, and one taken by the engine never.
   */
  lemma {:induction false} TakenIsReleased<R(!new), J(!new), K(!new)>(
    reserves: J -> Option<R>, rows: set<R>, states: seq<Store<R, J, K>>, actions: seq<Action<R, J, K>>, i: nat, t: Token<R, J>)
    requires Run(reserves, rows, states, actions) && i < |states| && t in states[i].taken
    requires var k := states[i].taken[t]; k in states[i].procs && states[i].procs[k] == End && !Crashed(actions, i, k)
    ensures Released(states[i], t) == if Gives(actions, i, states[i].taken[t]) then 1 else 0
  {
    RunComplete(reserves, rows, states, actions, i);
    assert Settles(states[i], actions, i, t);
  }

  /** When all processes have ended and none crashed, exactly the tokens taken by stops and settlements are released. */
  lemma {:induction false} ReleasedExactly<R(!new), J(!new), K(!new)>(
    reserves: J -> Option<R>, rows: set<R>, states: seq<Store<R, J, K>>, actions: seq<Action<R, J, K>>, i: nat, t: Token<R, J>)
    requires Run(reserves, rows, states, actions) && i < |states|
    requires forall k :: k in states[i].procs ==> states[i].procs[k] == End && !Crashed(actions, i, k)
    ensures Released(states[i], t) == if t in states[i].taken && Gives(actions, i, states[i].taken[t]) then 1 else 0
  {
    RunKeepsInv(reserves, rows, states, actions, i);
    assert TokenHolds(states[i], t);
    if t in states[i].taken {
      TakenIsReleased(reserves, rows, states, actions, i, t);
    }
  }

  // ---------- a process that runs alone ----------

  /** The store after process k has run n steps alone. */
  function Alone<R(==), J(==), K(==)>(reserves: J -> Option<R>, s: Store<R, J, K>, k: K, owned: bool, n: nat): (r: Store<R, J, K>)
    requires k in s.procs
    decreases n
  {
    if n == 0 then s else Alone(reserves, Next(reserves, s, k, owned), k, owned, n - 1)
  }

  /** Process k has ended, the hold on t is released, and no other token is touched. */
  ghost predicate GivesBack<R(!new), J(!new), K(!new)>(s: Store<R, J, K>, r: Store<R, J, K>, k: K, t: Token<R, J>) {
    && k in r.procs && r.procs[k] == End && r.taken == s.taken[t := k]
    && r.released == s.released[t := Released(s, t) + 1]
  }

  ghost predicate Untouched<R(!new), J(!new), K(!new)>(s: Store<R, J, K>, r: Store<R, J, K>, k: K) {
    k in r.procs && r.procs[k] == End && r.taken == s.taken && r.released == s.released
  }

  lemma {:induction false} NextIs<R(!new), J(!new), K(!new)>(reserves: J -> Option<R>, s: Store<R, J, K>, k: K, owned: bool, n: nat)
    requires k in s.procs && n > 0
    ensures k in Next(reserves, s, k, owned).procs
    ensures Alone(reserves, s, k, owned, n) == Alone(reserves, Next(reserves, s, k, owned), k, owned, n - 1)
    ensures Alone(reserves, s, k, owned, 0) == s
  {
  }

  /** A process about to take a free token takes it, releases it and ends; a taken one it leaves alone. */
  lemma {:induction false} TakesAlone<R(!new), J(!new), K(!new)>(reserves: J -> Option<R>, s: Store<R, J, K>, k: K, owned: bool, t: Token<R, J>)
    requires k in s.procs && s.procs[k] == Take(t, true)
    ensures if t !in s.taken then GivesBack(s, Alone(reserves, s, k, owned, 2), k, t)
            else Untouched(s, Alone(reserves, s, k, owned, 2), k)
  {
    var one := Next(reserves, s, k, owned);
    NextIs(reserves, s, k, owned, 2);
    NextIs(reserves, one, k, owned, 1);
    NextIs(reserves, Next(reserves, one, k, owned), k, owned, 1);
  }

  lemma {:induction false} SameBooks<R(!new), J(!new), K(!new)>(s: Store<R, J, K>, t: Store<R, J, K>, r: Store<R, J, K>, k: K, token: Token<R, J>)
    requires t.taken == s.taken && t.released == s.released
    ensures GivesBack(t, r, k, token) ==> GivesBack(s, r, k, token)
    ensures Untouched(t, r, k) ==> Untouched(s, r, k)
  {
  }

  lemma {:induction false} EndsAlone<R(!new), J(!new), K(!new)>(reserves: J -> Option<R>, s: Store<R, J, K>, k: K, owned: bool, n: nat)
    requires k in s.procs && s.procs[k] == End
    ensures Untouched(s, Alone(reserves, s, k, owned, n), k)
    decreases n
  {
    if n > 0 {
      EndsAlone(reserves, Next(reserves, s, k, owned), k, owned, n - 1);
    }
  }

  /** A stop of a queued instance releases its hold; of any other instance it does nothing. */
  lemma {:induction false} StopAlone<R(!new), J(!new), K(!new)>(reserves: J -> Option<R>, s: Store<R, J, K>, k: K, row: R, owned: bool)
    requires k in s.procs && s.procs[k] == StopRead(row)
    ensures if row in s.rows && Row(row) !in s.taken then GivesBack(s, Alone(reserves, s, k, owned, 3), k, Row(row))
            else Untouched(s, Alone(reserves, s, k, owned, 3), k)
  {
    var one := Next(reserves, s, k, owned);
    NextIs(reserves, s, k, owned, 3);
    if row in s.rows && Row(row) !in s.taken {
      TakesAlone(reserves, one, k, owned, Row(row));
    } else {
      EndsAlone(reserves, one, k, owned, 2);
    }
    SameBooks(s, one, Alone(reserves, one, k, owned, 2), k, Row(row));
  }

  /** The settlement of a job with a reserved row releases the row's hold unless somebody took the row. */
  lemma {:induction false} SettleRowAlone<R(!new), J(!new), K(!new)>(
    reserves: J -> Option<R>, s: Store<R, J, K>, k: K, j: J, row: R, owned: bool)
    requires k in s.procs && s.procs[k] == SettleRead(j) && reserves(j) == Some(row) && row in s.rows
    ensures if Row(row) !in s.taken then GivesBack(s, Alone(reserves, s, k, owned, 3), k, Row(row))
            else Untouched(s, Alone(reserves, s, k, owned, 3), k)
  {
    var one := Next(reserves, s, k, owned);
    NextIs(reserves, s, k, owned, 3);
    TakesAlone(reserves, one, k, owned, Row(row));
    SameBooks(s, one, Alone(reserves, one, k, owned, 2), k, Row(row));
  }

  lemma {:induction false} MarkAlone<R(!new), J(!new), K(!new)>(reserves: J -> Option<R>, s: Store<R, J, K>, k: K, j: J, owned: bool)
    requires k in s.procs && s.procs[k] == SettleScan(j)
    ensures if Mark(j) !in s.taken && !owned then GivesBack(s, Alone(reserves, s, k, owned, 3), k, Mark(j))
            else Untouched(s, Alone(reserves, s, k, owned, 3), k)
  {
    var one := Next(reserves, s, k, owned);
    NextIs(reserves, s, k, owned, 3);
    if owned {
      EndsAlone(reserves, one, k, owned, 2);
    } else {
      TakesAlone(reserves, one, k, owned, Mark(j));
    }
    SameBooks(s, one, Alone(reserves, one, k, owned, 2), k, Mark(j));
  }

  /** The settlement of a job without one releases the job's hold once, unless the local engine owns the run. */
  lemma {:induction false} SettleMarkAlone<R(!new), J(!new), K(!new)>(reserves: J -> Option<R>, s: Store<R, J, K>, k: K, j: J, owned: bool)
    requires k in s.procs && s.procs[k] == SettleRead(j) && (reserves(j).None? || reserves(j).value !in s.rows)
    ensures if Mark(j) !in s.taken && !owned then GivesBack(s, Alone(reserves, s, k, owned, 5), k, Mark(j))
            else Untouched(s, Alone(reserves, s, k, owned, 5), k)
  {
    var one := Next(reserves, s, k, owned);
    var two := Next(reserves, one, k, owned);
    NextIs(reserves, s, k, owned, 5);
    NextIs(reserves, one, k, owned, 4);
    if Mark(j) in s.taken {
      EndsAlone(reserves, two, k, owned, 3);
    } else {
      MarkAlone(reserves, two, k, j, owned);
    }
    SameBooks(s, two, Alone(reserves, two, k, owned, 3), k, Mark(j));
  }
}
