/**
 Resume goroutines, polls and redeliveries over shared claims and rows, one atomic step at a
 time. Two orders carry the safety: claims are all made before the poll loops and the queue
 worker start, and a check loads the claim before it queries the live rows.
 */
module ResumeProtocol {

  /** Where a resume goroutine stands. */
  datatype Stage = Launching | Creating | Executing | Returning | Finished

  /** The row of the resume descendant: running or parked, or in a terminal state. */
  datatype DescendantRow = LiveRow | TerminalRow

  /** A poll or a redelivery deciding about one pair. */
  datatype Check<P> = Begun(pair: P) | Passed1(pair: P) | Admitted(pair: P) | Dropped(pair: P)

  datatype System<P, C> = System(
    started: bool,
    claims: set<P>,
    stages: map<P, Stage>,
    rows: map<P, DescendantRow>,
    checks: map<C, Check<P>>)

  /** The two orders of the source, and their opposites. */
  datatype Policy = Policy(claimsFirst: bool, lateChecks: bool)

  const SOURCE := Policy(true, true)

  predicate IsLive<P(==), C>(s: System<P, C>, p: P) {
    p in s.rows && s.rows[p] == LiveRow
  }

  predicate At<P(==), C>(s: System<P, C>, p: P, stage: Stage) {
    p in s.stages && s.stages[p] == stage
  }

  function Move<P(==), C>(s: System<P, C>, p: P, stage: Stage): (r: System<P, C>) {
    s.(stages := s.stages[p := stage])
  }

  datatype Action<P, C> =
    | Claim(p: P)          // LoadOrStore of the claim, before startResume
    | LaunchFails(p: P)    // startResume reports an error and the claim is deleted
    | Launch(p: P)         // the goroutine is started
    | StartLoops           // the worker and the poll loops start
    | CreateRow(p: P)      // the engine inserts the descendant
    | ResumeFails(p: P)    // ResumeInstance returns an error without a row
    | Settle(p: P)         // the descendant reaches a terminal state
    | Park(p: P)           // ResumeInstance returns with the descendant parked
    | Release(p: P)        // onDone deletes the claim
    | Resolve(p: P)        // a parked descendant reaches a terminal state
    | Begin(c: C, pair: P) // a poll or a redelivery takes up a pair
    | LoadClaim(c: C)      // autoResuming.Load
    | QueryLive(c: C, other: bool) // HasActiveInstanceForRoute; other: some other row is live, or the query failed

  /** The outcome of one look at the store. */
  function Looked<P, C(==)>(s: System<P, C>, c: C, drop: bool, last: bool): (r: System<P, C>)
    requires c in s.checks
  {
    var p := s.checks[c].pair;
    s.(checks := s.checks[c := if drop then Dropped(p) else if last then Admitted(p) else Passed1(p)])
  }

  ghost predicate Step<P(!new), C(!new)>(policy: Policy, s: System<P, C>, a: Action<P, C>, s': System<P, C>) {
    match a
    case Claim(p) => !s.started && p !in s.claims && p !in s.stages && s' == Move(s, p, Launching).(claims := s.claims + {p})
    case LaunchFails(p) => At(s, p, Launching) && s' == Move(s, p, Finished).(claims := s.claims - {p})
    case Launch(p) => At(s, p, Launching) && s' == Move(s, p, Creating)
    case StartLoops => !s.started && (forall p :: p in s.stages ==> s.stages[p] != Launching) && s' == s.(started := true)
    case CreateRow(p) => At(s, p, Creating) && s' == Move(s, p, Executing).(rows := s.rows[p := LiveRow])
    case ResumeFails(p) => At(s, p, Creating) && s' == Move(s, p, Returning)
    case Settle(p) => At(s, p, Executing) && s' == Move(s, p, Returning).(rows := s.rows[p := TerminalRow])
    case Park(p) => At(s, p, Executing) && s' == Move(s, p, Returning)
    case Release(p) => At(s, p, Returning) && s' == Move(s, p, Finished).(claims := s.claims - {p})
    case Resolve(p) => At(s, p, Finished) && IsLive(s, p) && s' == s.(rows := s.rows[p := TerminalRow])
    case Begin(c, p) => (policy.lateChecks ==> s.started) && c !in s.checks && s' == s.(checks := s.checks[c := Begun(p)])
    case LoadClaim(c) =>
      && c in s.checks && (if policy.claimsFirst then s.checks[c].Begun? else s.checks[c].Passed1?)
      && s' == Looked(s, c, s.checks[c].pair in s.claims, !policy.claimsFirst)
    case QueryLive(c, other) =>
      && c in s.checks && (if policy.claimsFirst then s.checks[c].Passed1? else s.checks[c].Begun?)
      && s' == Looked(s, c, other || IsLive(s, s.checks[c].pair), policy.claimsFirst)
  }

  function Initial<P, C>(): (s: System<P, C>) {
    System(false, {}, map[], map[], map[])
  }

  /** A run: any interleaving of steps from the initial state. */
  ghost predicate Run<P(!new), C(!new)>(policy: Policy, states: seq<System<P, C>>, actions: seq<Action<P, C>>) {
    && |states| == |actions| + 1 && states[0] == Initial()
    && forall k :: 0 <= k < |actions| ==> Step(policy, states[k], actions[k], states[k + 1])
  }

  /** No admitted dispatch while its pair is claimed or its resume descendant is live. */
  ghost predicate Safe<P(!new), C(!new)>(s: System<P, C>) {
    forall c :: c in s.checks && s.checks[c].Admitted? ==>
      s.checks[c].pair !in s.claims && !IsLive(s, s.checks[c].pair)
  }

  // ---------- the invariant ----------

  ghost predicate Holds<P(!new), C(!new)>(s: System<P, C>, p: P) {
    && (p in s.claims <==> p in s.stages && s.stages[p] != Finished)
    && (p in s.stages && s.stages[p] == Launching ==> !s.started)
    && (IsLive(s, p) ==> p in s.stages && !(s.stages[p] == Launching || s.stages[p] == Creating))
  }

  /** A check that got past the claim will never see it again, nor a row come alive. */
  ghost predicate CheckHolds<P(!new), C(!new)>(s: System<P, C>, c: C) {
    c in s.checks ==>
      && s.started
      && (s.checks[c].Passed1? || s.checks[c].Admitted? ==> s.checks[c].pair !in s.claims)
      && (s.checks[c].Admitted? ==> !IsLive(s, s.checks[c].pair))
  }

  ghost predicate Inv<P(!new), C(!new)>(s: System<P, C>) {
    (forall p :: Holds(s, p)) && (forall c :: CheckHolds(s, c))
  }

  lemma {:induction false} StepHolds<P(!new), C(!new)>(s: System<P, C>, a: Action<P, C>, s': System<P, C>, p: P)
    requires Holds(s, p) && Step(SOURCE, s, a, s')
    ensures Holds(s', p)
  {
  }

  lemma {:induction false} StepChecks<P(!new), C(!new)>(s: System<P, C>, a: Action<P, C>, s': System<P, C>, c: C)
    requires (forall p :: Holds(s, p)) && CheckHolds(s, c) && Step(SOURCE, s, a, s')
    ensures CheckHolds(s', c)
  {
    if c in s.checks {
      assert Holds(s, s.checks[c].pair);
    }
  }

  lemma {:induction false} StepKeepsInv<P(!new), C(!new)>(s: System<P, C>, a: Action<P, C>, s': System<P, C>)
    requires Inv(s) && Step(SOURCE, s, a, s')
    ensures Inv(s')
  {
    forall p
      ensures Holds(s', p)
    {
      StepHolds(s, a, s', p);
    }
    forall c
      ensures CheckHolds(s', c)
    {
      StepChecks(s, a, s', c);
    }
  }

  lemma {:induction false} RunKeepsInv<P(!new), C(!new)>(states: seq<System<P, C>>, actions: seq<Action<P, C>>, k: nat)
    requires Run(SOURCE, states, actions) && k < |states|
    ensures Inv(states[k])
    decreases k
  {
    if k > 0 {
      RunKeepsInv(states, actions, k - 1);
      assert Step(SOURCE, states[k - 1], actions[k - 1], states[k - 1 + 1]);
      StepKeepsInv(states[k - 1], actions[k - 1], states[k]);
    }
  }

  /** In every interleaving, at every moment. */
  lemma {:induction false} NoDuplicateRun<P(!new), C(!new)>(states: seq<System<P, C>>, actions: seq<Action<P, C>>, k: nat)
    requires Run(SOURCE, states, actions) && k < |states|
    ensures Safe(states[k])
  {
    RunKeepsInv(states, actions, k);
    forall c | c in states[k].checks && states[k].checks[c].Admitted?
      ensures states[k].checks[c].pair !in states[k].claims && !IsLive(states[k], states[k].checks[c].pair)
    {
      assert CheckHolds(states[k], c);
    }
  }

  // ---------- each order is needed ----------

  lemma {:induction false} RunNext<P(!new), C(!new)>(
    policy: Policy, states: seq<System<P, C>>, actions: seq<Action<P, C>>, a: Action<P, C>, s': System<P, C>)
    requires Run(policy, states, actions) && Step(policy, states[|states| - 1], a, s')
    ensures Run(policy, states + [s'], actions + [a])
  {
    var ss, aa := states + [s'], actions + [a];
    forall k | 0 <= k < |aa|
      ensures Step(policy, ss[k], aa[k], ss[k + 1])
    {
      assert k < |actions| ==> ss[k] == states[k] && aa[k] == actions[k] && ss[k + 1] == states[k + 1];
    }
  }

  /** With the live query first, a run that parks between the two looks is dispatched again. */
  lemma {:induction false} LiveFirstIsUnsafe<P(!new), C(!new)>(p: P, c: C) returns (states: seq<System<P, C>>, actions: seq<Action<P, C>>)
    ensures Run(Policy(false, true), states, actions) && !Safe(states[|states| - 1])
  {
    var policy := Policy(false, true);
    var s0: System<P, C> := Initial();
    states, actions := [s0], [];
    var s1 := Move(s0, p, Launching).(claims := {p});
    RunNext(policy, states, actions, Claim(p), s1);
    states, actions := states + [s1], actions + [Claim(p)];
    var s2 := Move(s1, p, Creating);
    RunNext(policy, states, actions, Launch(p), s2);
    states, actions := states + [s2], actions + [Launch(p)];
    var s3 := s2.(started := true);
    RunNext(policy, states, actions, StartLoops, s3);
    states, actions := states + [s3], actions + [StartLoops];
    var s4 := s3.(checks := map[c := Begun(p)]);
    RunNext(policy, states, actions, Begin(c, p), s4);
    states, actions := states + [s4], actions + [Begin(c, p)];
    var s5 := s4.(checks := map[c := Passed1(p)]);
    RunNext(policy, states, actions, QueryLive(c, false), s5);
    states, actions := states + [s5], actions + [QueryLive(c, false)];
    states, actions := ParkAndRelease(policy, states, actions, p);
    var s8 := states[|states| - 1];
    var s9 := s8.(checks := s8.checks[c := Admitted(p)]);
    RunNext(policy, states, actions, LoadClaim(c), s9);
    states, actions := states + [s9], actions + [LoadClaim(c)];
    assert s9.checks[c].Admitted? && IsLive(s9, p);
  }

  /** The goroutine creates its row, parks and releases its claim. */
  lemma {:induction false} ParkAndRelease<P(!new), C(!new)>(policy: Policy, ss: seq<System<P, C>>, aa: seq<Action<P, C>>, p: P)
    returns (states: seq<System<P, C>>, actions: seq<Action<P, C>>)
    requires Run(policy, ss, aa) && At(ss[|ss| - 1], p, Creating)
    ensures Run(policy, states, actions)
    ensures var s, s' := ss[|ss| - 1], states[|states| - 1];
            s' == Move(s, p, Finished).(claims := s.claims - {p}, rows := s.rows[p := LiveRow])
  {
    var s := ss[|ss| - 1];
    var s1 := Move(s, p, Executing).(rows := s.rows[p := LiveRow]);
    RunNext(policy, ss, aa, CreateRow(p), s1);
    states, actions := ss + [s1], aa + [CreateRow(p)];
    var s2 := Move(s1, p, Returning);
    RunNext(policy, states, actions, Park(p), s2);
    states, actions := states + [s2], actions + [Park(p)];
    var s3 := Move(s2, p, Finished).(claims := s2.claims - {p});
    RunNext(policy, states, actions, Release(p), s3);
    states, actions := states + [s3], actions + [Release(p)];
    assert s.stages[p := Executing][p := Returning][p := Finished] == s.stages[p := Finished];
  }

  /** With polls running before the claims, a pair is dispatched while it is being claimed. */
  lemma {:induction false} EarlyChecksAreUnsafe<P(!new), C(!new)>(p: P, c: C) returns (states: seq<System<P, C>>, actions: seq<Action<P, C>>)
    ensures Run(Policy(true, false), states, actions) && !Safe(states[|states| - 1])
  {
    var policy := Policy(true, false);
    var s0: System<P, C> := Initial();
    states, actions := [s0], [];
    var s1 := s0.(checks := map[c := Begun(p)]);
    RunNext(policy, states, actions, Begin(c, p), s1);
    states, actions := states + [s1], actions + [Begin(c, p)];
    var s2 := s1.(checks := map[c := Passed1(p)]);
    RunNext(policy, states, actions, LoadClaim(c), s2);
    states, actions := states + [s2], actions + [LoadClaim(c)];
    var s3 := Move(s2, p, Launching).(claims := {p});
    RunNext(policy, states, actions, Claim(p), s3);
    states, actions := states + [s3], actions + [Claim(p)];
    var s4 := s3.(checks := map[c := Admitted(p)]);
    RunNext(policy, states, actions, QueryLive(c, false), s4);
    states, actions := states + [s4], actions + [QueryLive(c, false)];
    assert s4.checks[c].Admitted? && p in s4.claims;
  }
}
