/**
 pollPREvents and routePREvent: a persisted watermark with an overlap, and a claim per
 (source, event, workflow) that makes the overlap safe.
 */
module PrEvents {
  import opened Wrappers

  // ---------- the watermark ----------

  // seconds
  const OVERLAP := 120

  /** One poll of a source: when it started, and which of its calls succeeded. */
  datatype Poll = Poll(start: int, readOk: bool, fetchOk: bool, writeOk: bool)

  /** The watermark after a poll: the first one only sets it, a failed one leaves it. */
  function Advance(watermark: Option<int>, p: Poll): (r: Option<int>) {
    if p.readOk && p.writeOk && (watermark.None? || p.fetchOk) then Some(p.start) else watermark
  }

  function WatermarkAfter(polls: seq<Poll>, n: nat): (r: Option<int>)
    requires n <= |polls|
  {
    if n == 0 then None else Advance(WatermarkAfter(polls, n - 1), polls[n - 1])
  }

  /** Poll k moves the watermark: the first that reads and writes, and later each that also fetches. */
  ghost predicate Moves(polls: seq<Poll>, k: int) {
    && 0 <= k < |polls| && polls[k].readOk && polls[k].writeOk
    && (polls[k].fetchOk || forall j :: 0 <= j < k ==> !(polls[j].readOk && polls[j].writeOk))
  }

  ghost predicate LastMove(polls: seq<Poll>, n: nat, k: int) {
    0 <= k < n && Moves(polls, k) && forall j :: k < j < n ==> !Moves(polls, j)
  }

  /** The watermark is the start of the last poll that moved it, and there is one once a poll could read and write. */
  lemma {:induction false} WatermarkIs(polls: seq<Poll>, n: nat)
    requires n <= |polls|
    ensures WatermarkAfter(polls, n).None? <==> forall j :: 0 <= j < n ==> !(polls[j].readOk && polls[j].writeOk)
    ensures WatermarkAfter(polls, n).Some? ==> exists k :: LastMove(polls, n, k) && WatermarkAfter(polls, n) == Some(polls[k].start)
  {
    if n > 0 {
      WatermarkIs(polls, n - 1);
      if Moves(polls, n - 1) {
        assert LastMove(polls, n, n - 1);
      } else if WatermarkAfter(polls, n).Some? {
        var m: nat := n - 1;
        var k :| LastMove(polls, m, k) && WatermarkAfter(polls, m) == Some(polls[k].start);
        assert LastMove(polls, n, k);
      }
    }
  }

  ghost predicate Monotone(polls: seq<Poll>) {
    forall i, j :: 0 <= i <= j < |polls| ==> polls[i].start <= polls[j].start
  }

  /** Poll k asks the source for events and gets an answer. */
  predicate Fetches(polls: seq<Poll>, k: nat)
    requires k < |polls|
  {
    polls[k].readOk && polls[k].fetchOk && WatermarkAfter(polls, k).Some?
  }

  /** An event, and the moment from which the source reports it. */
  datatype Timed = Timed(at: int, visible: int)

  /** The answer holds every event after watermark - overlap that is visible when the poll starts. */
  predicate Answers(polls: seq<Poll>, k: nat, e: Timed)
    requires k < |polls|
  {
    Fetches(polls, k) && e.visible <= polls[k].start && e.at > WatermarkAfter(polls, k).value - OVERLAP
  }

  /** Poll b is the one that set the first watermark. */
  predicate Baselines(polls: seq<Poll>, b: nat)
    requires b < |polls|
  {
    WatermarkAfter(polls, b).None? && WatermarkAfter(polls, b + 1).Some?
  }

  lemma {:induction false} WatermarkStays(polls: seq<Poll>, i: nat, k: nat)
    requires i <= k <= |polls| && WatermarkAfter(polls, i).Some?
    ensures WatermarkAfter(polls, k).Some?
    decreases k
  {
    if i < k {
      WatermarkStays(polls, i, k - 1);
    }
  }

  /** The watermark is the start of the baseline or of an earlier poll that fetched. */
  lemma {:induction false} WatermarkIsAStart(polls: seq<Poll>, k: nat) returns (i: nat)
    requires k <= |polls| && WatermarkAfter(polls, k).Some?
    ensures i < k && WatermarkAfter(polls, k) == Some(polls[i].start)
    ensures Baselines(polls, i) || Fetches(polls, i)
    decreases k
  {
    if Advance(WatermarkAfter(polls, k - 1), polls[k - 1]) == WatermarkAfter(polls, k - 1) {
      i := WatermarkIsAStart(polls, k - 1);
    } else {
      i := k - 1;
    }
  }

  lemma {:induction false} OneBaseline(polls: seq<Poll>, b: nat, c: nat)
    requires b < |polls| && c < |polls| && Baselines(polls, b) && Baselines(polls, c)
    ensures b == c
  {
    if b < c {
      WatermarkStays(polls, b + 1, c);
    } else if c < b {
      WatermarkStays(polls, c + 1, b);
    }
  }

  /**
   No gap: an event after the baseline that becomes visible within the overlap is in the
   answer to the first fetching poll that starts once it is visible.
   */
  lemma {:induction false} NoGap(polls: seq<Poll>, b: nat, k: nat, e: Timed)
    requires Monotone(polls) && b < |polls| && Baselines(polls, b) && polls[b].start <= e.at
    requires e.at <= e.visible <= e.at + 120
    requires k < |polls| && Fetches(polls, k) && e.visible <= polls[k].start
    requires forall i :: 0 <= i < k && Fetches(polls, i) ==> polls[i].start < e.visible
    ensures Answers(polls, k, e)
  {
    var i := WatermarkIsAStart(polls, k);
    if Baselines(polls, i) {
      OneBaseline(polls, b, i);
    }
  }

  /** The overlap is exactly what it takes: any longer delay can lose an event for good. */
  lemma {:induction false} LateEventIsLost(e: Timed, more: seq<Poll>) returns (polls: seq<Poll>)
    requires e.visible > e.at + 120
    requires Monotone(more) && forall i :: 0 <= i < |more| ==> more[i].start >= e.visible
    ensures Monotone(polls) && |polls| == 2 + |more| && polls[2..] == more
    ensures Baselines(polls, 0) && polls[0].start <= e.at
    ensures forall k :: 0 <= k < |polls| ==> !Answers(polls, k, e)
  {
    var first, second := Poll(e.at, true, true, true), Poll(e.visible - 1, true, true, true);
    polls := [first, second] + more;
    assert WatermarkAfter(polls, 0) == None && WatermarkAfter(polls, 1) == Some(e.at);
    forall k | 0 <= k < |polls|
      ensures !Answers(polls, k, e)
    {
      if k >= 2 {
        WatermarkAbove(polls, e.visible - 1, k);
      }
    }
  }

  lemma {:induction false} WatermarkAbove(polls: seq<Poll>, low: int, k: nat)
    requires 2 <= k <= |polls| && polls[0].readOk && polls[0].writeOk
    requires polls[1] == Poll(low, true, true, true) && forall i :: 1 <= i < |polls| ==> polls[i].start >= low
    ensures WatermarkAfter(polls, k).Some? && WatermarkAfter(polls, k).value >= low
  {
    if k == 2 {
      assert WatermarkAfter(polls, 1).Some?;
    } else {
      WatermarkAbove(polls, low, k - 1);
    }
  }

  // ---------- the claims ----------

  /** The primary key of pr_event_dispatches. */
  datatype Claim<S, E, W> = Claim(source: S, event: E, workflow: W)

  datatype Event<S, E> = Event(source: S, id: E, pr: int)

  /** A database error on the budget count or on the claim. */
  datatype Fault = NoFault | CountFails | ClaimFails

  /** The claims with their pull request, and the dispatches made, in order. */
  datatype Ledger<S(==), E(==), W(==)> = Ledger(claims: map<Claim<S, E, W>, int>, log: seq<Claim<S, E, W>>)

  ghost function ClaimsFor<S(!new), E(!new), W(!new)>(l: Ledger<S, E, W>, source: S, workflow: W, pr: int): (r: set<Claim<S, E, W>>) {
    set c | c in l.claims && c.source == source && c.workflow == workflow && l.claims[c] == pr
  }

  function Insert<S(==), E(==), W(==)>(l: Ledger<S, E, W>, c: Claim<S, E, W>, pr: int): (r: Ledger<S, E, W>) {
    if c in l.claims then l else Ledger(l.claims[c := pr], l.log + [c])
  }

  /** One matched workflow: the budget, then the claim, then the dispatch. */
  ghost function RouteMatch<S(!new), E(!new), W(!new)>(
    budget: W -> int, l: Ledger<S, E, W>, ev: Event<S, E>, w: W, fault: Fault): (r: Ledger<S, E, W>)
  {
    if budget(w) > 0 && (fault == CountFails || |ClaimsFor(l, ev.source, w, ev.pr)| >= budget(w)) then l
    else if fault == ClaimFails then l
    else Insert(l, Claim(ev.source, ev.id, w), ev.pr)
  }

  ghost function RouteMatches<S(!new), E(!new), W(!new)>(
    budget: W -> int, l: Ledger<S, E, W>, ev: Event<S, E>, matches: seq<(W, Fault)>, n: nat): (r: Ledger<S, E, W>)
    requires n <= |matches|
  {
    if n == 0 then l
    else RouteMatch(budget, RouteMatches(budget, l, ev, matches, n - 1), ev, matches[n - 1].0, matches[n - 1].1)
  }

  /** Every dispatch has its claim, none is made twice, and no budget is exceeded. */
  ghost predicate LedgerOk<S(!new), E(!new), W(!new)>(budget: W -> int, l: Ledger<S, E, W>) {
    && (forall c :: c in l.log <==> c in l.claims)
    && (forall i, j :: 0 <= i < j < |l.log| ==> l.log[i] != l.log[j])
    && (forall s, w, pr :: WithinBudget(budget, l, s, w, pr))
  }

  ghost predicate WithinBudget<S(!new), E(!new), W(!new)>(budget: W -> int, l: Ledger<S, E, W>, source: S, w: W, pr: int) {
    budget(w) > 0 ==> |ClaimsFor(l, source, w, pr)| <= budget(w)
  }

  lemma {:induction false} InsertGrows<S(!new), E(!new), W(!new)>(l: Ledger<S, E, W>, c: Claim<S, E, W>, pr: int, source: S, w: W, p: int)
    requires c !in l.claims
    ensures |ClaimsFor(Insert(l, c, pr), source, w, p)| ==
            |ClaimsFor(l, source, w, p)| + if c.source == source && c.workflow == w && pr == p then 1 else 0
  {
    var before, after := ClaimsFor(l, source, w, p), ClaimsFor(Insert(l, c, pr), source, w, p);
    if c.source == source && c.workflow == w && pr == p {
      assert after == before + {c};
    } else {
      assert after == before;
    }
  }

  lemma {:induction false} RouteMatchOk<S(!new), E(!new), W(!new)>(
    budget: W -> int, l: Ledger<S, E, W>, ev: Event<S, E>, w: W, fault: Fault)
    requires LedgerOk(budget, l)
    ensures LedgerOk(budget, RouteMatch(budget, l, ev, w, fault))
  {
    var c := Claim(ev.source, ev.id, w);
    var after := RouteMatch(budget, l, ev, w, fault);
    if after != l {
      forall s, v, pr
        ensures WithinBudget(budget, after, s, v, pr)
      {
        assert WithinBudget(budget, l, s, v, pr);
        InsertGrows(l, c, ev.pr, s, v, pr);
      }
    }
  }

  lemma {:induction false} RouteMatchesOk<S(!new), E(!new), W(!new)>(
    budget: W -> int, l: Ledger<S, E, W>, ev: Event<S, E>, matches: seq<(W, Fault)>, n: nat)
    requires n <= |matches| && LedgerOk(budget, l)
    ensures LedgerOk(budget, RouteMatches(budget, l, ev, matches, n))
  {
    if n > 0 {
      RouteMatchesOk(budget, l, ev, matches, n - 1);
      RouteMatchOk(budget, RouteMatches(budget, l, ev, matches, n - 1), ev, matches[n - 1].0, matches[n - 1].1);
    }
  }

  /** The events of all polls so far, repeats included, with their matches. */
  ghost function LedgerAfter<S(!new), E(!new), W(!new)>(
    budget: W -> int, history: seq<(Event<S, E>, seq<(W, Fault)>)>): (r: Ledger<S, E, W>)
  {
    if history == [] then Ledger(map[], [])
    else
      var (ev, matches) := history[|history| - 1];
      RouteMatches(budget, LedgerAfter(budget, history[..|history| - 1]), ev, matches, |matches|)
  }

  /**
   Over every sequence of polls: each (source, event, workflow) is dispatched at most once,
   and the dispatches per (source, workflow, pull request) never exceed a positive budget.
   */
  lemma {:induction false} DispatchedOnceWithinBudget<S(!new), E(!new), W(!new)>(
    budget: W -> int, history: seq<(Event<S, E>, seq<(W, Fault)>)>)
    ensures LedgerOk(budget, LedgerAfter(budget, history))
  {
    if history == [] {
      forall s: S, w: W, pr: int
        ensures WithinBudget(budget, Ledger<S, E, W>.Ledger(map[], []), s, w, pr)
      {
        assert ClaimsFor(Ledger<S, E, W>.Ledger(map[], []), s, w, pr) == {};
      }
    } else {
      var (ev, matches) := history[|history| - 1];
      DispatchedOnceWithinBudget(budget, history[..|history| - 1]);
      RouteMatchesOk(budget, LedgerAfter(budget, history[..|history| - 1]), ev, matches, |matches|);
    }
  }

  // ---------- the code that does it ----------

  class EventPoller<S(==,!new), E(==,!new), W(==,!new)> {
    const budget: W -> int
    var watermark: Option<int>
    var claims: map<Claim<S, E, W>, int>
    var log: seq<Claim<S, E, W>>

    constructor (budget: W -> int)
      ensures this.budget == budget && watermark == None && claims == map[] && log == []
    {
      this.budget := budget;
      watermark, claims, log := None, map[], [];
    }

    ghost function Books(): (l: Ledger<S, E, W>)
      reads this
    {
      Ledger(claims, log)
    }

    /** CountPREventDispatches. */
    method CountFor(source: S, workflow: W, pr: int) returns (n: nat)
      ensures n == |ClaimsFor(Books(), source, workflow, pr)|
    {
      var found := set c | c in claims && c.source == source && c.workflow == workflow && claims[c] == pr;
      n := |found|;
    }

    /** One round of the loop over the matches. */
    method Route(ev: Event<S, E>, w: W, fault: Fault)
      modifies this`claims, this`log
      ensures Books() == RouteMatch(budget, old(Books()), ev, w, fault)
    {
      if budget(w) > 0 {
        if fault == CountFails {
          return;
        }
        var n := CountFor(ev.source, w, ev.pr);
        if n >= budget(w) {
          return;
        }
      }
      if fault == ClaimFails {
        return;
      }
      var c := Claim(ev.source, ev.id, w);
      if c !in claims {
        claims := claims[c := ev.pr];
        log := log + [c];
      }
    }

    method RoutePREvent(ev: Event<S, E>, matches: seq<(W, Fault)>)
      modifies this`claims, this`log
      ensures Books() == RouteMatches(budget, old(Books()), ev, matches, |matches|)
    {
      var i := 0;
      while i < |matches|
        invariant 0 <= i <= |matches|
        invariant Books() == RouteMatches(budget, old(Books()), ev, matches, i)
      {
        Route(ev, matches[i].0, matches[i].1);
        i := i + 1;
      }
    }

    /** One poll: baseline, or fetch, route everything fetched, then advance the watermark. */
    method PollPREvents(p: Poll, fetched: seq<(Event<S, E>, seq<(W, Fault)>)>)
      modifies this
      ensures watermark == Advance(old(watermark), p)
      ensures Books() == if p.readOk && p.fetchOk && old(watermark).Some?
                         then RouteAll(budget, old(Books()), fetched, |fetched|) else old(Books())
    {
      if !p.readOk {
        return;
      }
      if watermark.None? {
        if p.writeOk {
          watermark := Some(p.start);
        }
        return;
      }
      if !p.fetchOk {
        return;
      }
      var i := 0;
      while i < |fetched|
        invariant 0 <= i <= |fetched| && watermark == old(watermark)
        invariant Books() == RouteAll(budget, old(Books()), fetched, i)
      {
        RoutePREvent(fetched[i].0, fetched[i].1);
        i := i + 1;
      }
      if p.writeOk {
        watermark := Some(p.start);
      }
    }
  }

  ghost function RouteAll<S(!new), E(!new), W(!new)>(
    budget: W -> int, l: Ledger<S, E, W>, fetched: seq<(Event<S, E>, seq<(W, Fault)>)>, n: nat): (r: Ledger<S, E, W>)
    requires n <= |fetched|
  {
    if n == 0 then l
    else
      var (ev, matches) := fetched[n - 1];
      RouteMatches(budget, RouteAll(budget, l, fetched, n - 1), ev, matches, |matches|)
  }

  /** A poll only extends the history of routed events. */
  lemma {:induction false} RouteAllExtends<S(!new), E(!new), W(!new)>(
    budget: W -> int, history: seq<(Event<S, E>, seq<(W, Fault)>)>, fetched: seq<(Event<S, E>, seq<(W, Fault)>)>, n: nat)
    requires n <= |fetched|
    ensures RouteAll(budget, LedgerAfter(budget, history), fetched, n) == LedgerAfter(budget, history + fetched[..n])
  {
    if n == 0 {
      assert history + fetched[..0] == history;
    } else {
      RouteAllExtends(budget, history, fetched, n - 1);
      var all := history + fetched[..n];
      assert all[..|all| - 1] == history + fetched[..n - 1];
    }
  }
}
