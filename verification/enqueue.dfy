/**
 enqueueFanOut: handing the matched workflows of a task to the dispatch queue. The counter of
 outstanding workflows is raised for all of them first and taken back for each that creates
 no job.
 */
module Enqueue {
  import opened Wrappers
  import opened Text

  // ---------- the idempotency key ----------

  function Suffixed(suffix: string): (s: string) {
    if suffix == "" then "" else [':'] + suffix
  }

  /** dispatchIdempotencyKey: task, generation, workflow and, for a manual run, a nonce. */
  function Key(task: string, generation: nat, workflow: string, suffix: string): (k: string) {
    task + ([':'] + (Decimal(generation) + ([':'] + (workflow + Suffixed(suffix)))))
  }

  predicate Plain(s: string) {
    ':' !in s
  }

  lemma {:induction false} DecimalPlain(n: nat)
    ensures Plain(Decimal(n)) && Decimal(n) != []
  {
    if n >= 10 {
      DecimalPlain(n / 10);
    }
  }

  lemma {:induction false} DecimalInjective(m: nat, n: nat)
    requires Decimal(m) == Decimal(n)
    ensures m == n
  {
    DecimalPlain(m / 10);
    DecimalPlain(n / 10);
    var s, t := Decimal(m), Decimal(n);
    assert s[|s| - 1] == Digit(m % 10) && t[|t| - 1] == Digit(n % 10);
    assert |s| == 1 <==> m < 10;
    if m >= 10 {
      assert s[..|s| - 1] == Decimal(m / 10) && t[..|t| - 1] == Decimal(n / 10);
      DecimalInjective(m / 10, n / 10);
    }
  }

  /** The text before the first colon, and the text after it, are determined. */
  lemma {:induction false} SplitUnique(a: string, x: string, b: string, y: string)
    requires Plain(a) && Plain(b) && a + ([':'] + x) == b + ([':'] + y)
    ensures a == b && x == y
  {
    var s, t := a + ([':'] + x), b + ([':'] + y);
    assert s[|a|] == ':' && t[|b|] == ':';
    assert |a| == |b|;
    assert s[..|a|] == a && t[..|b|] == b;
    assert s[|a| + 1..] == x && t[|b| + 1..] == y;
  }

  lemma {:induction false} SuffixShows(w: string, s: string)
    requires Plain(w)
    ensures Plain(w + Suffixed(s)) <==> s == ""
  {
    if s != "" {
      assert (w + Suffixed(s))[|w|] == ':';
    }
  }

  lemma {:induction false} TailUnique(w: string, s: string, v: string, t: string)
    requires Plain(w) && Plain(v) && w + Suffixed(s) == v + Suffixed(t)
    ensures w == v && s == t
  {
    SuffixShows(w, s);
    SuffixShows(v, t);
    if s != "" {
      SplitUnique(w, s, v, t);
    } else {
      assert w + [] == w && v + [] == v;
    }
  }

  /** For task and workflow ids without a colon, equal keys mean equal dispatches. */
  lemma {:induction false} KeyInjective(t: string, g: nat, w: string, s: string, t': string, g': nat, w': string, s': string)
    requires Plain(t) && Plain(t') && Plain(w) && Plain(w') && Key(t, g, w, s) == Key(t', g', w', s')
    ensures t == t' && g == g' && w == w' && s == s'
  {
    var x, x' := w + Suffixed(s), w' + Suffixed(s');
    SplitUnique(t, Decimal(g) + ([':'] + x), t', Decimal(g') + ([':'] + x'));
    DecimalPlain(g);
    DecimalPlain(g');
    SplitUnique(Decimal(g), x, Decimal(g'), x');
    DecimalInjective(g, g');
    TailUnique(w, s, w', s');
  }

  /** With colons, two dispatches can share a key, and the second is swallowed. */
  lemma {:induction false} KeyClash()
    ensures Key("a:1", 2, "w", "") == Key("a", 1, "2:w", "")
  {
    assert Decimal(1) == ['1'] && Decimal(2) == ['2'];
  }

  lemma {:induction false} FirstColon(s: string) returns (a: string, x: string)
    requires !Plain(s)
    ensures Plain(a) && s == a + ([':'] + x)
  {
    if s[0] == ':' {
      a, x := [], s[1..];
    } else {
      a, x := FirstColon(s[1..]);
      assert s == [s[0]] + s[1..];
      assert s == ([s[0]] + a) + ([':'] + x);
      a := [s[0]] + a;
    }
  }

  function WorkflowPart(w: string, s: string): (r: string) {
    w + Suffixed(s)
  }

  lemma {:induction false} Cancel<T>(h: seq<T>, x: seq<T>, y: seq<T>)
    ensures h + x == h + y <==> x == y
  {
    assert (h + x)[|h|..] == x && (h + y)[|h|..] == y;
  }

  lemma {:induction false} Regroup<T>(a: seq<T>, c: seq<T>, b: seq<T>, x: seq<T>)
    ensures a + (c + (b + (c + x))) == (a + (c + (b + c))) + x
  {
  }

  lemma {:induction false} KeyCancels(t: string, g: nat, w: string, s: string, w': string, s': string)
    ensures Key(t, g, w, s) == Key(t, g, w', s') <==> WorkflowPart(w, s) == WorkflowPart(w', s')
  {
    Regroup(t, [':'], Decimal(g), WorkflowPart(w, s));
    Regroup(t, [':'], Decimal(g), WorkflowPart(w', s'));
    Cancel(t + ([':'] + (Decimal(g) + [':'])), WorkflowPart(w, s), WorkflowPart(w', s'));
  }

  /** The workflow id v is w followed by a colon and more, which may be read as a nonce. */
  predicate GoesOn(w: string, v: string) {
    w + [':'] <= v
  }

  ghost predicate FlowsShare(t: string, g: nat, w: string, v: string, s: string, z: string) {
    Key(t, g, w, s) == Key(t, g, v, z)
  }

  lemma {:induction false} GoingOnShares(t: string, g: nat, w: string, v: string)
    requires GoesOn(w, v)
    ensures exists s, z :: FlowsShare(t, g, w, v, s, z)
  {
    var more := v[|w| + 1..];
    assert v == w + [':'] + more;
    assert w + ([':'] + (more + [':', 'x'])) == v + [':', 'x'];
    KeyCancels(t, g, w, more + [':', 'x'], v, "x");
    assert WorkflowPart(v, "x") == v + [':', 'x'];
    assert FlowsShare(t, g, w, v, more + [':', 'x'], "x");
  }

  lemma {:induction false} SharedGoesOn(w: string, v: string, s: string, z: string)
    requires WorkflowPart(w, s) == WorkflowPart(v, z) && w != v && |w| <= |v|
    ensures GoesOn(w, v)
  {
    var k := WorkflowPart(w, s);
    assert k[..|w|] == w && k[..|v|] == v;
    assert |w| < |v|;
    assert k[|w|] == ':' && v[|w|] == k[|w|];
    assert v[..|w| + 1] == k[..|w| + 1] == w + [':'];
  }

  /** Two workflows of one task and generation can share a key exactly when one id is the other and a colon goes on. */
  lemma {:induction false} WorkflowIdsClash(t: string, g: nat, w: string, v: string)
    requires w != v
    ensures (exists s, z :: FlowsShare(t, g, w, v, s, z)) <==> GoesOn(w, v) || GoesOn(v, w)
  {
    if s, z :| FlowsShare(t, g, w, v, s, z) {
      KeyCancels(t, g, w, s, v, z);
      if |w| <= |v| {
        SharedGoesOn(w, v, s, z);
      } else {
        SharedGoesOn(v, w, z, s);
      }
    }
    if GoesOn(w, v) {
      GoingOnShares(t, g, w, v);
    }
    if GoesOn(v, w) {
      GoingOnShares(t, g, v, w);
      var z, s :| FlowsShare(t, g, v, w, z, s);
      assert FlowsShare(t, g, w, v, s, z);
    }
  }

  /** The task id u is t followed by a colon and a number, which ends there or before another colon. */
  ghost predicate Continues(t: string, u: string, m: nat, r: string) {
    u == t + ([':'] + (Decimal(m) + r)) && (r == "" || r[0] == ':')
  }

  ghost predicate Extends(t: string, u: string) {
    exists m, r :: Continues(t, u, m, r)
  }

  /** Keys with everything after the generation in one text. */
  ghost predicate SameKey(t: string, g: nat, x: string, t': string, g': nat, x': string) {
    t + ([':'] + (Decimal(g) + ([':'] + x))) == t' + ([':'] + (Decimal(g') + ([':'] + x')))
  }

  ghost predicate TasksShare(t: string, u: string, g: nat, w: string, s: string, g': nat, w': string, s': string) {
    Key(t, g, w, s) == Key(u, g', w', s')
  }

  lemma {:induction false} ExtensionShares(t: string, u: string)
    requires Extends(t, u)
    ensures exists g, w, s, g', w', s' :: TasksShare(t, u, g, w, s, g', w', s')
  {
    var m, r :| Continues(t, u, m, r);
    var rest := [':'] + (Decimal(0) + ([':'] + ""));
    var x := (r + rest)[1..];
    assert r + rest == [':'] + x;
    assert u + rest == t + ([':'] + (Decimal(m) + (r + rest)));
    assert SameKey(t, m, x, u, 0, "");
    assert x + Suffixed("") == x;
    assert TasksShare(t, u, m, x, "", 0, "", "");
  }

  lemma {:induction false} SharedExtends(t: string, g: nat, x: string, u: string, g': nat, x': string)
    requires SameKey(t, g, x, u, g', x') && t != u && |t| <= |u|
    ensures Extends(t, u)
  {
    var rest, rest' := Decimal(g) + ([':'] + x), Decimal(g') + ([':'] + x');
    var k := t + ([':'] + rest);
    assert k[..|t|] == t && k[..|u|] == u;
    assert |t| < |u|;
    assert u[|t|] == k[|t|] == ':';
    var y := u[|t| + 1..];
    assert u == t + ([':'] + y);
    assert k == t + ([':'] + (y + ([':'] + rest')));
    assert k[|t| + 1..] == rest && k[|t| + 1..] == y + ([':'] + rest');
    DecimalPlain(g);
    NumberFirst(y, rest', g, x);
    var r :| y == Decimal(g) + r && (r == "" || r[0] == ':');
    assert Continues(t, u, g, r);
  }

  /** What stands before a colon where a number stands before a colon. */
  lemma {:induction false} NumberFirst(y: string, rest: string, g: nat, x: string)
    requires y + ([':'] + rest) == Decimal(g) + ([':'] + x)
    ensures exists r :: y == Decimal(g) + r && (r == "" || r[0] == ':')
  {
    DecimalPlain(g);
    if Plain(y) {
      SplitUnique(y, rest, Decimal(g), x);
      assert y == Decimal(g) + "";
    } else {
      var b, z := FirstColon(y);
      assert y + ([':'] + rest) == b + ([':'] + (z + ([':'] + rest)));
      SplitUnique(b, z + ([':'] + rest), Decimal(g), x);
      assert y == Decimal(g) + ([':'] + z);
    }
  }

  /** Two tasks can share a key exactly when one id is the other followed by a colon and a whole number. */
  lemma {:induction false} TaskIdsClash(t: string, u: string)
    requires t != u
    ensures (exists g, w, s, g', w', s' :: TasksShare(t, u, g, w, s, g', w', s')) <==> Extends(t, u) || Extends(u, t)
  {
    if g, w, s, g', w', s' :| TasksShare(t, u, g, w, s, g', w', s') {
      assert SameKey(t, g, WorkflowPart(w, s), u, g', WorkflowPart(w', s'));
      if |t| <= |u| {
        SharedExtends(t, g, WorkflowPart(w, s), u, g', WorkflowPart(w', s'));
      } else {
        SharedExtends(u, g', WorkflowPart(w', s'), t, g, WorkflowPart(w, s));
      }
    }
    if Extends(t, u) {
      ExtensionShares(t, u);
    }
    if Extends(u, t) {
      ExtensionShares(u, t);
      var g, w, s, g', w', s' :| TasksShare(u, t, g, w, s, g', w', s');
      assert TasksShare(t, u, g', w', s', g, w, s);
    }
  }

  /** Two generations of one task never share a key. */
  lemma {:induction false} GenerationsDiffer(t: string, g: nat, w: string, s: string, g': nat, w': string, s': string)
    requires Key(t, g, w, s) == Key(t, g', w', s')
    ensures g == g'
  {
    var x, x' := Decimal(g) + ([':'] + WorkflowPart(w, s)), Decimal(g') + ([':'] + WorkflowPart(w', s'));
    Cancel(t, [':'] + x, [':'] + x');
    Cancel([':'], x, x');
    DecimalPlain(g);
    DecimalPlain(g');
    SplitUnique(Decimal(g), WorkflowPart(w, s), Decimal(g'), WorkflowPart(w', s'));
    DecimalInjective(g, g');
  }

  // ---------- the fan-out ----------

  /** A matched workflow with its idempotency key and its reservation, if it has one. */
  datatype Match<K, R> = Match(key: K, instance: Option<R>)

  /** What goes wrong for a match, if anything. */
  datatype Fault = NoFault | EncodeFails | EnqueueFails

  datatype Reserved = Queued | Canceled | Started

  /** The keys of the first n matches that reach the queue. */
  function Sent<K(==), R>(matches: seq<Match<K, R>>, faults: seq<Fault>, n: nat): (r: set<K>)
    requires n <= |matches| == |faults|
  {
    if n == 0 then {}
    else Sent(matches, faults, n - 1) + if faults[n - 1] == NoFault then {matches[n - 1].key} else {}
  }

  /** Match i inserts a job: nothing fails, and its key is neither in the queue nor sent before. */
  predicate Creates<K(==), R>(keys: set<K>, matches: seq<Match<K, R>>, faults: seq<Fault>, i: nat)
    requires i < |matches| == |faults|
  {
    faults[i] == NoFault && matches[i].key !in keys + Sent(matches, faults, i)
  }

  /** How many of the first n matches insert a job. */
  function Created<K(==), R>(keys: set<K>, matches: seq<Match<K, R>>, faults: seq<Fault>, n: nat): (c: nat)
    requires n <= |matches| == |faults|
    ensures c <= n
  {
    if n == 0 then 0
    else Created(keys, matches, faults, n - 1) + if Creates(keys, matches, faults, n - 1) then 1 else 0
  }

  /** The queue grows by one key for each. */
  lemma {:induction false} CreatedAreNew<K, R>(keys: set<K>, matches: seq<Match<K, R>>, faults: seq<Fault>, n: nat)
    requires n <= |matches| == |faults|
    ensures |keys + Sent(matches, faults, n)| == |keys| + Created(keys, matches, faults, n)
  {
    if n > 0 {
      CreatedAreNew(keys, matches, faults, n - 1);
      var before, after := keys + Sent(matches, faults, n - 1), keys + Sent(matches, faults, n);
      if faults[n - 1] == NoFault {
        GrowOne(before, matches[n - 1].key);
        assert after == before + {matches[n - 1].key};
      } else {
        assert after == before;
      }
    } else {
      EmptySum(keys);
    }
  }

  lemma {:induction false} GrowOne<K>(s: set<K>, x: K)
    ensures |s + {x}| == |s| + if x in s then 0 else 1
  {
    assert x in s ==> s + {x} == s;
  }

  lemma {:induction false} EmptySum<K>(s: set<K>)
    ensures s + {} == s
  {
  }

  function Abandoned<R(==)>(reserved: map<R, Reserved>, instance: Option<R>): (r: map<R, Reserved>) {
    if instance.Some? && instance.value in reserved && reserved[instance.value] == Queued
    then reserved[instance.value := Canceled]
    else reserved
  }

  /** The reservations once those of the chosen matches among the first n are abandoned. */
  function AbandonAll<K, R(==)>(reserved: map<R, Reserved>, matches: seq<Match<K, R>>, drop: nat -> bool, n: nat)
    : (r: map<R, Reserved>)
    requires n <= |matches|
  {
    if n == 0 then reserved
    else
      var before := AbandonAll(reserved, matches, drop, n - 1);
      if drop(n - 1) then Abandoned(before, matches[n - 1].instance) else before
  }

  function Uncreated<K(==), R>(keys: set<K>, matches: seq<Match<K, R>>, faults: seq<Fault>): (r: nat -> bool)
    requires |matches| == |faults|
  {
    (i: nat) => i < |matches| && !Creates(keys, matches, faults, i)
  }

  function Always(): (r: nat -> bool) {
    (i: nat) => true
  }

  /** The store as the fan-out of one task sees it. */
  class FanOut<K(==), R(==)> {
    var outstanding: nat
    var keys: set<K>
    var reserved: map<R, Reserved>

    constructor (outstanding: nat, keys: set<K>, reserved: map<R, Reserved>)
      ensures this.outstanding == outstanding && this.keys == keys && this.reserved == reserved
    {
      this.outstanding, this.keys, this.reserved := outstanding, keys, reserved;
    }

    /** DecrementOutstanding: clamped at zero. */
    method Decrement()
      modifies this`outstanding
      ensures outstanding == if old(outstanding) > 0 then old(outstanding) - 1 else 0
    {
      outstanding := if outstanding > 0 then outstanding - 1 else 0;
    }

    /** abandonReservation: cancel the reserved row if it is still queued. */
    method Abandon(instance: Option<R>)
      modifies this`reserved
      ensures reserved == Abandoned(old(reserved), instance)
    {
      if instance.None? {
        return;
      }
      if instance.value in reserved && reserved[instance.value] == Queued {
        reserved := reserved[instance.value := Canceled];
      }
    }

    /** One round of the loop: a job, or the counter and the reservation taken back. */
    method Send(m: Match<K, R>, fault: Fault)
      requires outstanding > 0
      modifies this
      ensures var creates := fault == NoFault && m.key !in old(keys);
              && keys == (if creates then old(keys) + {m.key} else old(keys))
              && outstanding == old(outstanding) - (if creates then 0 else 1)
              && reserved == (if creates then old(reserved) else Abandoned(old(reserved), m.instance))
    {
      if fault != NoFault || m.key in keys {
        Decrement();
        Abandon(m.instance);
      } else {
        keys := keys + {m.key};
      }
    }

    /** The counter could not be raised: nothing is sent. */
    method AbandonMatches(matches: seq<Match<K, R>>)
      modifies this`reserved
      ensures reserved == AbandonAll(old(reserved), matches, Always(), |matches|)
    {
      var i := 0;
      while i < |matches|
        invariant 0 <= i <= |matches|
        invariant reserved == AbandonAll(old(reserved), matches, Always(), i)
      {
        Abandon(matches[i].instance);
        i := i + 1;
      }
    }

    /**
     The counter rises by exactly the number of jobs newly created, and the reservations of
     the matches that created none are abandoned.
     */
    method EnqueueFanOut(matches: seq<Match<K, R>>, faults: seq<Fault>, incrementFails: bool)
      requires |matches| == |faults|
      modifies this
      ensures incrementFails ==>
                && outstanding == old(outstanding) && keys == old(keys)
                && reserved == AbandonAll(old(reserved), matches, Always(), |matches|)
      ensures !incrementFails ==>
                && keys == old(keys) + Sent(matches, faults, |matches|)
                && outstanding - old(outstanding) == |keys| - |old(keys)|
                && reserved == AbandonAll(old(reserved), matches, Uncreated(old(keys), matches, faults), |matches|)
    {
      if incrementFails {
        AbandonMatches(matches);
        return;
      }
      outstanding := outstanding + |matches|;
      SendAll(matches, faults);
      CreatedAreNew(old(keys), matches, faults, |matches|);
    }

    /** The loop over the matches, with the counter raised for all of them. */
    method SendAll(matches: seq<Match<K, R>>, faults: seq<Fault>)
      requires |matches| == |faults| && outstanding >= |matches|
      modifies this
      ensures keys == old(keys) + Sent(matches, faults, |matches|)
      ensures outstanding == old(outstanding) - |matches| + Created(old(keys), matches, faults, |matches|)
      ensures reserved == AbandonAll(old(reserved), matches, Uncreated(old(keys), matches, faults), |matches|)
    {
      ghost var keys0, reserved0, before := keys, reserved, outstanding;
      ghost var drop := Uncreated(keys0, matches, faults);
      var i := 0;
      while i < |matches|
        invariant 0 <= i <= |matches|
        invariant keys == keys0 + Sent(matches, faults, i)
        invariant outstanding == before - i + Created(keys0, matches, faults, i)
        invariant reserved == AbandonAll(reserved0, matches, drop, i)
      {
        assert drop(i) <==> !Creates(keys0, matches, faults, i);
        Send(matches[i], faults[i]);
        i := i + 1;
      }
    }
  }

  /** No reservation stays queued for a match that created no job ... */
  lemma {:induction false} NoneLeftQueued<K, R(!new)>(
    reserved: map<R, Reserved>, matches: seq<Match<K, R>>, drop: nat -> bool, n: nat, i: nat)
    requires i < n <= |matches| && drop(i) && matches[i].instance.Some? && matches[i].instance.value in reserved
    ensures var r := AbandonAll(reserved, matches, drop, n);
            matches[i].instance.value in r && r[matches[i].instance.value] != Queued
    decreases n
  {
    AbandonKeeps(reserved, matches, drop, n - 1, matches[i].instance.value);
    if i < n - 1 {
      NoneLeftQueued(reserved, matches, drop, n - 1, i);
    }
  }

  ghost predicate DroppedFor<K, R(!new)>(matches: seq<Match<K, R>>, drop: nat -> bool, n: nat, id: R)
    requires n <= |matches|
  {
    exists i: nat :: i < n && drop(i) && matches[i].instance == Some(id)
  }

  /** ... and a reservation changes only for such a match, from queued to canceled. */
  lemma {:induction false} AbandonKeeps<K, R(!new)>(
    reserved: map<R, Reserved>, matches: seq<Match<K, R>>, drop: nat -> bool, n: nat, id: R)
    requires n <= |matches|
    ensures var r := AbandonAll(reserved, matches, drop, n);
            && (id in r <==> id in reserved)
            && (id in reserved ==>
                  r[id] == if reserved[id] == Queued && DroppedFor(matches, drop, n, id) then Canceled else reserved[id])
  {
    if n > 0 {
      AbandonKeeps(reserved, matches, drop, n - 1, id);
      if drop(n - 1) && matches[n - 1].instance == Some(id) {
        assert DroppedFor(matches, drop, n, id);
      } else {
        assert DroppedFor(matches, drop, n, id) ==> DroppedFor(matches, drop, n - 1, id);
      }
    }
  }

  /** Two runs with different nonces are both enqueued; two polls of one generation are one job. */
  lemma {:induction false} NoncesAndPolls(t: string, g: nat, w: string, s: string, s': string)
    requires Plain(t) && Plain(w)
    ensures Key(t, g, w, s) == Key(t, g, w, s') <==> s == s'
  {
    if Key(t, g, w, s) == Key(t, g, w, s') {
      KeyInjective(t, g, w, s, t, g, w, s');
    }
  }
}
