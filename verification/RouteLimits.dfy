/** What a route's own `dedup` and `rate_limit` promise over whole runs
    (crates/core/src/throttle.rs). */
module RouteLimits {
  import opened Basics
  import opened Model
  import opened Throttle
  import opened RoutePlans
  import opened Planning

  /** The greatest number of milliseconds an `i64` holds; a longer window counts as that. */
  const LONGEST_MS: nat := 9_223_372_036_854_775_807

  /** Less than `secs` seconds lie between the two times. */
  predicate Within(at: int, now: int, secs: nat) {
    now - at < 1000 * secs && now - at < LONGEST_MS
  }

  ghost function Recent(sends: seq<Row>, h: History, now: int, secs: nat): set<int> {
    set i | 0 <= i < |sends| && sends[i].owner == h && Within(sends[i].at, now, secs)
  }

  /** The sends of a history in the half-open interval [from, to). */
  ghost function SentIn(sends: seq<Row>, h: History, from: int, to: int): set<int> {
    set i | 0 <= i < |sends| && sends[i].owner == h && from <= sends[i].at < to
  }

  /** Counting one element more. */
  lemma OneMoreCounts(before: set<int>, all: set<int>, n: int, counts: bool)
    requires n !in before && forall i :: i in all <==> i in before || (counts && i == n)
    ensures |all| == |before| + if counts then 1 else 0
  {
    var grown := if counts then before + {n} else before;
    forall i ensures i in all <==> i in grown {}
    assert all == grown;
  }

  lemma {:induction false} RecentIsSince(sends: seq<Row>, h: History, now: int, secs: nat)
    ensures SentSince(sends, h, now - Millis(secs)) == |Recent(sends, h, now, secs)|
  {
    if sends != [] {
      var n := |sends| - 1;
      var init, last := sends[..n], sends[n];
      RecentIsSince(init, h, now, secs);
      assert forall i | 0 <= i < n :: init[i] == sends[i];
      OneMoreCounts(Recent(init, h, now, secs), Recent(sends, h, now, secs), n,
                    last.owner == h && Within(last.at, now, secs));
    }
  }

  lemma {:induction false} SentInIsWithin(sends: seq<Row>, h: History, from: int, to: int)
    ensures SentWithin(sends, h, from, to) == |SentIn(sends, h, from, to)|
  {
    if sends != [] {
      var n := |sends| - 1;
      var init, last := sends[..n], sends[n];
      SentInIsWithin(init, h, from, to);
      assert forall i | 0 <= i < n :: init[i] == sends[i];
      OneMoreCounts(SentIn(init, h, from, to), SentIn(sends, h, from, to), n, last.owner == h && from <= last.at < to);
    }
  }

  /* ----- the bounds ----- */

  function Longer(a: nat, b: nat): nat {
    if a < b then b else a
  }

  /** How long a route's signals stay in the table, in seconds. */
  function KeptFor(route: Route): nat {
    Longer(if route.dedup.Some? then route.dedup.value else 0,
           if route.rateLimit.Some? && !SendsDigests(route) then route.rateLimit.value.per else 0)
  }

  /** What a lag of `d` leaves of a window of `secs`, for rows kept for `kept` seconds. */
  predicate Leaves(length: int, d: nat, secs: nat, kept: nat) {
    length <= 1000 * secs && length + d <= 1000 * kept && length + d <= LONGEST_MS
  }

  lemma LeavesIsLeft(length: int, d: nat, h: History, secs: nat, kept: nat)
    requires Leaves(length, d, secs, kept) && Keep(LimitsOf(h)) == Millis(kept)
    ensures length <= Left(LimitsOf(h), Millis(secs), d)
  {
  }

  lemma {:induction false} ShorterHoldsFewer(sends: seq<Row>, h: History, from: int, to: int, later: int)
    requires to <= later
    ensures SentWithin(sends, h, from, to) <= SentWithin(sends, h, from, later)
  {
    if sends != [] {
      ShorterHoldsFewer(sends[..|sends| - 1], h, from, to, later);
    }
  }

  lemma HistoryKeepsLimit(h: History, limit: RateLimit, events: seq<Event>, d: nat, from: int, length: int, kept: nat)
    requires Lag(events, d) && LimitsOf(h).rate == Some(limit)
    requires Leaves(length, d, limit.per, kept) && Keep(LimitsOf(h)) == Millis(kept)
    ensures |SentIn(Sent(events), h, from, from + length)| <= limit.max
  {
    ThrottleIsSafe(events, d, h, from);
    LeavesIsLeft(length, d, h, limit.per, kept);
    ShorterHoldsFewer(Sent(events), h, from, from + length, from + Left(LimitsOf(h), Millis(limit.per), d));
    SentInIsWithin(Sent(events), h, from, from + length);
  }

  /** A route that sends signals one by one keeps its own `rate_limit`, with `dedup` or
      without: in every run, no interval of `per`, less what the lag takes, holds more than
      `max` of its sends. Without lag that is all of `per`. */
  lemma RouteKeepsRateLimit(route: Route, limit: RateLimit, events: seq<Event>, d: nat, from: int, length: int)
    requires route.rateLimit == Some(limit) && route.groupBy.None? && route.groupWait.None?
    requires Lag(events, d) && Leaves(length, d, limit.per, KeptFor(route))
    ensures |SentIn(Sent(events), Signals(route), from, from + length)| <= limit.max
  {
    HistoryKeepsLimit(Signals(route), limit, events, d, from, length, KeptFor(route));
  }

  /** Every route with a `rate_limit` keeps it for its digests. */
  lemma DigestsKeepRateLimit(route: Route, limit: RateLimit, events: seq<Event>, d: nat, from: int, length: int)
    requires route.rateLimit == Some(limit)
    requires Lag(events, d) && Leaves(length, d, limit.per, limit.per)
    ensures |SentIn(Sent(events), Digests(route), from, from + length)| <= limit.max
  {
    HistoryKeepsLimit(Digests(route), limit, events, d, from, length, limit.per);
  }

  /** Every route with `dedup` keeps two sends of one key that far apart, less what the lag
      takes. */
  lemma RouteKeepsDedup(route: Route, window: nat, events: seq<Event>, d: nat, gap: int, i: nat, j: nat)
    requires route.dedup == Some(window) && Lag(events, d) && Leaves(gap, d, window, KeptFor(route))
    requires i < j < |Sent(events)|
    requires Sent(events)[i].owner == Sent(events)[j].owner == Signals(route)
    requires Sent(events)[i].key == Sent(events)[j].key
    ensures Sent(events)[j].at - Sent(events)[i].at >= gap
  {
    ThrottleIsSafe(events, d, Signals(route), 0);
    LeavesIsLeft(gap, d, Signals(route), window, KeptFor(route));
  }

  /* ----- the decisions ----- */

  /** A standing send with the key is less than the window before. */
  ghost predicate SentBefore(sends: seq<Row>, h: History, key: string, now: int, secs: nat) {
    exists i | 0 <= i < |sends| :: sends[i].owner == h && sends[i].key == key && Within(sends[i].at, now, secs)
  }

  /** `d` is what a history with these windows must be told. */
  ghost predicate Right(d: Decision, sends: seq<Row>, h: History, key: string, now: int,
    dedup: Option<nat>, rate: Option<RateLimit>)
  {
    && (d.Duplicate? <==> dedup.Some? && SentBefore(sends, h, key, now, dedup.value))
    && (d.RateLimited? <==>
          !d.Duplicate? && rate.Some? && |Recent(sends, h, now, rate.value.per)| >= rate.value.max)
  }

  lemma DecidesRight(sends: seq<Row>, h: History, key: string, now: int, limits: Limits)
    ensures Right(Decide(sends, h, key, now, limits), sends, h, key, now, limits.dedup, limits.rate)
  {
    LastSentIsLatest(sends, h, key);
    if limits.dedup.Some? && LastSent(sends, h, key).Some? {
      var i :| 0 <= i < |sends| && sends[i] == Row(h, key, LastSent(sends, h, key).value);
    }
    if limits.rate.Some? {
      RecentIsSince(sends, h, now, limits.rate.value.per);
    }
  }

  /** At a time no earlier attempt is after, a route turns a signal down as a duplicate iff it
      has `dedup` and a standing send of the key is in the window; and else for its rate iff
      it sends signals one by one, has a limit, and as many sends stand in `per`. So a route
      that sends digests turns no signal down for its rate. */
  lemma SignalDecidedByFields(route: Route, events: seq<Event>, key: string, now: int)
    requires NoneLater(events, Signals(route), now)
    ensures Right(Decide(Pruned(events), Signals(route), key, now, LimitsOf(Signals(route))),
                  Sent(events), Signals(route), key, now,
                  route.dedup, if SendsDigests(route) then None else route.rateLimit)
  {
    PruningNeverShows(events, Signals(route), key, now);
    DecidesRight(Sent(events), Signals(route), key, now, LimitsOf(Signals(route)));
  }

  /** A digest is never a duplicate, and turned down for its rate iff the route has a limit and
      as many digests stand in `per`. */
  lemma DigestDecidedByFields(route: Route, events: seq<Event>, key: string, now: int)
    requires NoneLater(events, Digests(route), now)
    ensures Right(Decide(Pruned(events), Digests(route), key, now, LimitsOf(Digests(route))),
                  Sent(events), Digests(route), key, now, None, route.rateLimit)
  {
    PruningNeverShows(events, Digests(route), key, now);
    DecidesRight(Sent(events), Digests(route), key, now, LimitsOf(Digests(route)));
  }

  /* ----- while a signal is planned ----- */

  /** The throttle is asked about the signal for this route. */
  predicate MustAsk(route: Route, signal: Signal) {
    Takes(route, signal) && (route.dedup.Some? || (route.rateLimit.Some? && !SendsDigests(route)))
  }

  /** The attempts made before route `i`: one for each earlier route that must ask, for that
      route's history and the signal's own key. */
  ghost predicate AttemptsSoFar(attempts: seq<Event>, routes: seq<Route>, signal: Signal, now: int, i: nat)
    requires i <= |routes|
  {
    forall e :: e in attempts <==>
      exists k | 0 <= k < i :: MustAsk(routes[k], signal) && IsAttempt(e, Signals(routes[k]), signal, now)
  }

  predicate IsAttempt(e: Event, h: History, signal: Signal, now: int) {
    e.Attempt? && e.owner == h && e.now == now
    && e.key == if signal.dedupKey.Some? then signal.dedupKey.value else ""
  }

  lemma {:induction false} AttemptsAre(routes: seq<Route>, signal: Signal, now: int, e: Event)
    ensures e in AttemptsBy(routes, signal, now) <==>
            exists k | 0 <= k < |routes| :: MustAsk(routes[k], signal) && IsAttempt(e, Signals(routes[k]), signal, now)
  {
    if routes != [] {
      var init := routes[..|routes| - 1];
      AttemptsAre(init, signal, now, e);
      assert forall k | 0 <= k < |init| :: init[k] == routes[k];
    }
  }

  lemma {:induction false} AnswerAt(table: seq<Row>, routes: seq<Route>, signal: Signal, now: int, i: nat)
    requires i < |routes|
    ensures Consult(table, routes, signal, now).answers[i]
         == Asked(Consult(table, routes[..i], signal, now), routes[i], signal, now).answers[i]
  {
    var n := |routes| - 1;
    if i < n {
      AnswerAt(table, routes[..n], signal, now, i);
      assert routes[..n][..i] == routes[..i];
    }
  }

  lemma NoneLaterSoFar(events: seq<Event>, routes: seq<Route>, signal: Signal, now: int, h: History)
    requires NoneLater(events, h, now)
    ensures NoneLater(events + AttemptsBy(routes, signal, now), h, now)
  {
    forall e | e in AttemptsBy(routes, signal, now) && e.Attempt? && e.owner == h ensures e.now <= now {
      AttemptsAre(routes, signal, now, e);
    }
  }

  /** Planning a signal in any run: what is answered for a route that must ask is right for
      its own windows, the signal's own key, and what stood after the routes before it. */
  lemma AnsweredByFields(events: seq<Event>, routes: seq<Route>, signal: Signal, now: int, i: nat, key: string)
    returns (attempts: seq<Event>)
    requires i < |routes| && NoneLater(events, Signals(routes[i]), now) && signal.dedupKey == Some(key)
    ensures AttemptsSoFar(attempts, routes, signal, now, i)
    ensures var route, answers := routes[i], Consult(Pruned(events), routes, signal, now).answers;
            MustAsk(route, signal) ==>
              Right(answers[i], Sent(events + attempts), Signals(route), key, now,
                    route.dedup, if SendsDigests(route) then None else route.rateLimit)
  {
    attempts := AttemptsBy(routes[..i], signal, now);
    forall e ensures e in attempts <==>
      exists k | 0 <= k < i :: MustAsk(routes[k], signal) && IsAttempt(e, Signals(routes[k]), signal, now)
    {
      AttemptsAre(routes[..i], signal, now, e);
      assert forall k | 0 <= k < i :: routes[..i][k] == routes[k];
    }
    AnswerAt(Pruned(events), routes, signal, now, i);
    PlanningIsARun(events, routes[..i], signal, now);
    NoneLaterSoFar(events, routes[..i], signal, now, Signals(routes[i]));
    SignalDecidedByFields(routes[i], events + attempts, key, now);
  }
}
