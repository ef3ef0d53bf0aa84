/**
 Polls and routing together: which events end up dispatched. The watermark moves on even when
 the claim of an event failed, so a failed event is tried again only by the polls whose
 overlap still reaches it.
 */
module PrDelivery {
  import opened Wrappers
  import opened PrEvents

  // ---------- a claim is made by an attempt that passes ----------

  /** The attempt gets through: the budget is not spent, and neither query fails. */
  ghost predicate Passes<S(!new), E(!new), W(!new)>(
    budget: W -> int, l: Ledger<S, E, W>, ev: Event<S, E>, w: W, fault: Fault)
  {
    && (budget(w) > 0 ==> fault != CountFails && |ClaimsFor(l, ev.source, w, ev.pr)| < budget(w))
    && fault != ClaimFails
  }

  /** The matches of an event that concern workflow w. */
  ghost predicate PassedAt<S(!new), E(!new), W(!new)>(
    budget: W -> int, l: Ledger<S, E, W>, ev: Event<S, E>, matches: seq<(W, Fault)>, i: nat, w: W)
    requires i < |matches|
  {
    matches[i].0 == w && Passes(budget, RouteMatches(budget, l, ev, matches, i), ev, w, matches[i].1)
  }

  /** One of the first n matches makes the claim. */
  ghost predicate PassedFor<S(!new), E(!new), W(!new)>(
    budget: W -> int, l: Ledger<S, E, W>, ev: Event<S, E>, matches: seq<(W, Fault)>, n: nat, c: Claim<S, E, W>)
    requires n <= |matches|
  {
    c.source == ev.source && c.event == ev.id && exists i :: 0 <= i < n && PassedAt(budget, l, ev, matches, i, c.workflow)
  }

  lemma {:induction false} MatchClaims<S(!new), E(!new), W(!new)>(
    budget: W -> int, l: Ledger<S, E, W>, ev: Event<S, E>, w: W, fault: Fault, c: Claim<S, E, W>)
    ensures c in RouteMatch(budget, l, ev, w, fault).claims <==>
            c in l.claims || (c == Claim(ev.source, ev.id, w) && Passes(budget, l, ev, w, fault))
  {
  }

  lemma {:induction false} MatchesClaim<S(!new), E(!new), W(!new)>(
    budget: W -> int, l: Ledger<S, E, W>, ev: Event<S, E>, matches: seq<(W, Fault)>, n: nat, c: Claim<S, E, W>)
    requires n <= |matches|
    ensures c in RouteMatches(budget, l, ev, matches, n).claims <==>
            c in l.claims || PassedFor(budget, l, ev, matches, n, c)
  {
    if n > 0 {
      MatchesClaim(budget, l, ev, matches, n - 1, c);
      MatchClaims(budget, RouteMatches(budget, l, ev, matches, n - 1), ev, matches[n - 1].0, matches[n - 1].1, c);
      assert PassedFor(budget, l, ev, matches, n, c) <==>
             || PassedFor(budget, l, ev, matches, n - 1, c)
             || (c.source == ev.source && c.event == ev.id && PassedAt(budget, l, ev, matches, n - 1, c.workflow));
    }
  }

  /** Event q of the answer makes the claim. */
  ghost predicate PassedIn<S(!new), E(!new), W(!new)>(
    budget: W -> int, l: Ledger<S, E, W>, fetched: seq<(Event<S, E>, seq<(W, Fault)>)>, q: nat, c: Claim<S, E, W>)
    requires q < |fetched|
  {
    var (ev, matches) := fetched[q];
    PassedFor(budget, RouteAll(budget, l, fetched, q), ev, matches, |matches|, c)
  }

  lemma {:induction false} AnswerClaims<S(!new), E(!new), W(!new)>(
    budget: W -> int, l: Ledger<S, E, W>, fetched: seq<(Event<S, E>, seq<(W, Fault)>)>, n: nat, c: Claim<S, E, W>)
    requires n <= |fetched|
    ensures c in RouteAll(budget, l, fetched, n).claims <==>
            c in l.claims || exists q :: 0 <= q < n && PassedIn(budget, l, fetched, q, c)
  {
    if n > 0 {
      AnswerClaims(budget, l, fetched, n - 1, c);
      var (ev, matches) := fetched[n - 1];
      MatchesClaim(budget, RouteAll(budget, l, fetched, n - 1), ev, matches, |matches|, c);
      assert PassedIn(budget, l, fetched, n - 1, c) <==>
             PassedFor(budget, RouteAll(budget, l, fetched, n - 1), ev, matches, |matches|, c);
    }
  }

  // ---------- polls ----------

  /** A poll and the events it is answered with, each with its matches and their faults. */
  datatype Round<S, E, W> = Round(poll: Poll, fetched: seq<(Event<S, E>, seq<(W, Fault)>)>)

  function Polls<S, E, W>(rounds: seq<Round<S, E, W>>): (r: seq<Poll>)
    ensures |r| == |rounds| && forall k :: 0 <= k < |rounds| ==> r[k] == rounds[k].poll
  {
    seq(|rounds|, k requires 0 <= k < |rounds| => rounds[k].poll)
  }

  /** The books after n rounds of PollPREvents. */
  ghost function BooksAfter<S(!new), E(!new), W(!new)>(
    budget: W -> int, rounds: seq<Round<S, E, W>>, n: nat): (l: Ledger<S, E, W>)
    requires n <= |rounds|
  {
    if n == 0 then Ledger(map[], [])
    else
      var l, fetched := BooksAfter(budget, rounds, n - 1), rounds[n - 1].fetched;
      if Fetches(Polls(rounds), n - 1) then RouteAll(budget, l, fetched, |fetched|) else l
  }

  ghost predicate PassedBy<S(!new), E(!new), W(!new)>(
    budget: W -> int, rounds: seq<Round<S, E, W>>, k: nat, q: nat, c: Claim<S, E, W>)
    requires k < |rounds| && q < |rounds[k].fetched|
  {
    Fetches(Polls(rounds), k) && PassedIn(budget, BooksAfter(budget, rounds, k), rounds[k].fetched, q, c)
  }

  /** An event is dispatched to a workflow exactly when some fetching poll brings it and one of its attempts passes. */
  lemma {:induction false} DispatchedExactly<S(!new), E(!new), W(!new)>(
    budget: W -> int, rounds: seq<Round<S, E, W>>, n: nat, c: Claim<S, E, W>)
    requires n <= |rounds|
    ensures c in BooksAfter(budget, rounds, n).claims <==>
            exists k, q :: 0 <= k < n && 0 <= q < |rounds[k].fetched| && PassedBy(budget, rounds, k, q, c)
  {
    if n > 0 {
      DispatchedExactly(budget, rounds, n - 1, c);
      var l, fetched := BooksAfter(budget, rounds, n - 1), rounds[n - 1].fetched;
      AnswerClaims(budget, l, fetched, |fetched|, c);
      if Fetches(Polls(rounds), n - 1) {
        if q :| 0 <= q < |fetched| && PassedIn(budget, l, fetched, q, c) {
          assert PassedBy(budget, rounds, n - 1, q, c);
        }
      }
    }
  }

  // ---------- what is delivered, and what is lost ----------

  /** When each event happens and is reported, if it exists. */
  type World<!S, !E> = Event<S, E> -> Option<Timed>

  /** The source answers poll k with exactly the events it should. */
  ghost predicate Answered<S(!new), E(!new), W(!new)>(world: World<S, E>, rounds: seq<Round<S, E, W>>, k: nat)
    requires k < |rounds|
  {
    forall ev :: InAnswer(rounds[k].fetched, ev) <==> world(ev).Some? && Answers(Polls(rounds), k, world(ev).value)
  }

  ghost predicate InAnswer<S(!new), E(!new), W(!new)>(fetched: seq<(Event<S, E>, seq<(W, Fault)>)>, ev: Event<S, E>) {
    exists q :: 0 <= q < |fetched| && fetched[q].0 == ev
  }

  /** The event ids of a source name one event each. */
  ghost predicate OneEach<S(!new), E(!new)>(world: World<S, E>) {
    forall a, b :: world(a).Some? && world(b).Some? && a.source == b.source && a.id == b.id ==> a == b
  }

  ghost predicate AllAnswered<S(!new), E(!new), W(!new)>(world: World<S, E>, rounds: seq<Round<S, E, W>>) {
    OneEach(world) && forall k :: 0 <= k < |rounds| && Fetches(Polls(rounds), k) ==> Answered(world, rounds, k)
  }

  /** Poll k brings the event, and match i of it is workflow w without a fault of its claim. */
  ghost predicate Offered<S(!new), E(!new), W(!new)>(
    rounds: seq<Round<S, E, W>>, k: nat, q: nat, i: nat, ev: Event<S, E>, w: W)
    requires k < |rounds| && q < |rounds[k].fetched| && i < |rounds[k].fetched[q].1|
  {
    Fetches(Polls(rounds), k) && rounds[k].fetched[q].0 == ev && rounds[k].fetched[q].1[i].0 == w
    && rounds[k].fetched[q].1[i].1 != ClaimFails
  }

  /** An event that is claimed was brought by a poll that its time answers. */
  lemma {:induction false} ClaimedByAnswer<S(!new), E(!new), W(!new)>(
    budget: W -> int, world: World<S, E>, rounds: seq<Round<S, E, W>>, k: nat, q: nat, ev: Event<S, E>, w: W)
    requires AllAnswered(world, rounds) && world(ev).Some?
    requires k < |rounds| && q < |rounds[k].fetched| && PassedBy(budget, rounds, k, q, Claim(ev.source, ev.id, w))
    ensures rounds[k].fetched[q].0 == ev && Answers(Polls(rounds), k, world(ev).value)
  {
    var e := rounds[k].fetched[q].0;
    assert Answered(world, rounds, k);
    assert InAnswer(rounds[k].fetched, e);
  }

  /** Without a budget, an event is dispatched exactly when some poll brings it and its claim does not fail. */
  lemma {:induction false} DeliveredExactly<S(!new), E(!new), W(!new)>(
    budget: W -> int, world: World<S, E>, rounds: seq<Round<S, E, W>>, n: nat, ev: Event<S, E>, w: W)
    requires AllAnswered(world, rounds) && world(ev).Some? && n <= |rounds| && budget(w) <= 0
    ensures Claim(ev.source, ev.id, w) in BooksAfter(budget, rounds, n).claims <==>
            exists k, q, i :: 0 <= k < n && 0 <= q < |rounds[k].fetched| && 0 <= i < |rounds[k].fetched[q].1| &&
              Offered(rounds, k, q, i, ev, w)
  {
    var c := Claim(ev.source, ev.id, w);
    DispatchedExactly(budget, rounds, n, c);
    if c in BooksAfter(budget, rounds, n).claims {
      var k, q :| 0 <= k < n && 0 <= q < |rounds[k].fetched| && PassedBy(budget, rounds, k, q, c);
      ClaimedByAnswer(budget, world, rounds, k, q, ev, w);
      var i := PassedOffered(budget, rounds, k, q, ev, w);
    }
    if k, q, i :| 0 <= k < n && 0 <= q < |rounds[k].fetched| && 0 <= i < |rounds[k].fetched[q].1| &&
                  Offered(rounds, k, q, i, ev, w) {
      OfferedPasses(budget, rounds, k, q, i, ev, w);
    }
  }

  lemma {:induction false} PassedOffered<S(!new), E(!new), W(!new)>(
    budget: W -> int, rounds: seq<Round<S, E, W>>, k: nat, q: nat, ev: Event<S, E>, w: W) returns (i: nat)
    requires k < |rounds| && q < |rounds[k].fetched| && rounds[k].fetched[q].0 == ev
    requires PassedBy(budget, rounds, k, q, Claim(ev.source, ev.id, w))
    ensures i < |rounds[k].fetched[q].1| && Offered(rounds, k, q, i, ev, w)
  {
    var matches, l := rounds[k].fetched[q].1, RouteAll(budget, BooksAfter(budget, rounds, k), rounds[k].fetched, q);
    assert PassedFor(budget, l, ev, matches, |matches|, Claim(ev.source, ev.id, w));
    i :| 0 <= i < |matches| && PassedAt(budget, l, ev, matches, i, w);
  }

  lemma {:induction false} OfferedPasses<S(!new), E(!new), W(!new)>(
    budget: W -> int, rounds: seq<Round<S, E, W>>, k: nat, q: nat, i: nat, ev: Event<S, E>, w: W)
    requires k < |rounds| && q < |rounds[k].fetched| && i < |rounds[k].fetched[q].1| && budget(w) <= 0
    requires Offered(rounds, k, q, i, ev, w)
    ensures PassedBy(budget, rounds, k, q, Claim(ev.source, ev.id, w))
  {
    var matches, l := rounds[k].fetched[q].1, RouteAll(budget, BooksAfter(budget, rounds, k), rounds[k].fetched, q);
    assert PassedAt(budget, l, ev, matches, i, w);
    assert PassedFor(budget, l, ev, matches, |matches|, Claim(ev.source, ev.id, w));
  }

  /**
   No gap, through to the dispatch: an event after the baseline that becomes visible within the
   overlap is dispatched by the first fetching poll that starts once it is visible, to every
   workflow without a budget that the answer matches it with and whose claim does not fail.
   */
  lemma {:induction false} DeliveredInTime<S(!new), E(!new), W(!new)>(
    budget: W -> int, world: World<S, E>, rounds: seq<Round<S, E, W>>, b: nat, k: nat, ev: Event<S, E>, w: W)
    requires AllAnswered(world, rounds) && world(ev).Some? && budget(w) <= 0
    requires Monotone(Polls(rounds)) && b < |rounds| && Baselines(Polls(rounds), b) && rounds[b].poll.start <= world(ev).value.at
    requires world(ev).value.at <= world(ev).value.visible <= world(ev).value.at + 120
    requires k < |rounds| && Fetches(Polls(rounds), k) && world(ev).value.visible <= rounds[k].poll.start
    requires forall i :: 0 <= i < k && Fetches(Polls(rounds), i) ==> rounds[i].poll.start < world(ev).value.visible
    requires forall q :: 0 <= q < |rounds[k].fetched| && rounds[k].fetched[q].0 == ev ==> Reaches(rounds[k].fetched[q].1, w)
    ensures Claim(ev.source, ev.id, w) in BooksAfter(budget, rounds, k + 1).claims
  {
    NoGap(Polls(rounds), b, k, world(ev).value);
    assert Answered(world, rounds, k);
    assert InAnswer(rounds[k].fetched, ev);
    var q :| 0 <= q < |rounds[k].fetched| && rounds[k].fetched[q].0 == ev;
    assert Reaches(rounds[k].fetched[q].1, w);
    var i :| 0 <= i < |rounds[k].fetched[q].1| && rounds[k].fetched[q].1[i].0 == w && rounds[k].fetched[q].1[i].1 != ClaimFails;
    assert Offered(rounds, k, q, i, ev, w);
    DeliveredExactly(budget, world, rounds, k + 1, ev, w);
  }

  ghost predicate Reaches<W(!new)>(matches: seq<(W, Fault)>, w: W) {
    exists i :: 0 <= i < |matches| && matches[i].0 == w && matches[i].1 != ClaimFails
  }

  lemma {:induction false} WatermarkGrows(polls: seq<Poll>, i: nat, k: nat)
    requires Monotone(polls) && i <= k <= |polls| && WatermarkAfter(polls, i).Some?
    ensures WatermarkAfter(polls, k).Some? && WatermarkAfter(polls, k).value >= WatermarkAfter(polls, i).value
    decreases k
  {
    if i < k {
      WatermarkGrows(polls, i, k - 1);
      if WatermarkAfter(polls, k) != WatermarkAfter(polls, k - 1) {
        var j := WatermarkIsAStart(polls, k - 1);
        assert polls[j].start <= polls[k - 1].start;
      }
    }
  }

  /**
   The watermark does not wait: once it is past an event by the overlap, an event that every
   poll so far failed to dispatch is lost, whatever its budget and whatever polls follow.
   */
  lemma {:induction false} LostForGood<S(!new), E(!new), W(!new)>(
    budget: W -> int, world: World<S, E>, rounds: seq<Round<S, E, W>>, m: nat, n: nat, ev: Event<S, E>, w: W)
    requires AllAnswered(world, rounds) && world(ev).Some? && Monotone(Polls(rounds)) && m <= n <= |rounds|
    requires var mark := WatermarkAfter(Polls(rounds), m); mark.Some? && mark.value >= world(ev).value.at + 120
    ensures Claim(ev.source, ev.id, w) in BooksAfter(budget, rounds, n).claims <==>
            Claim(ev.source, ev.id, w) in BooksAfter(budget, rounds, m).claims
  {
    var c := Claim(ev.source, ev.id, w);
    DispatchedExactly(budget, rounds, n, c);
    DispatchedExactly(budget, rounds, m, c);
    if c in BooksAfter(budget, rounds, n).claims {
      var k, q :| 0 <= k < n && 0 <= q < |rounds[k].fetched| && PassedBy(budget, rounds, k, q, c);
      ClaimedByAnswer(budget, world, rounds, k, q, ev, w);
      if k >= m {
        WatermarkGrows(Polls(rounds), m, k);
        assert false;
      }
    }
  }
}
