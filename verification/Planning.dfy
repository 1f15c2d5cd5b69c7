/** A signal's sends on the throttle's books, from planning to settling
    (crates/core/src/lib.rs, crates/core/src/routing.rs). */
module Planning {
  import opened Basics
  import opened Model
  import opened Throttle
  import opened Routing
  import D = Delivery

  predicate Asks(route: Route, signal: Signal) {
    route.rule.Matches(signal) && route.GatesSignals()
  }

  /** What the throttle answered route by route, its table afterwards, and the
      sends it noted for the signal. */
  datatype Books = Books(answers: seq<Decision>, table: seq<Row>, noted: seq<Row>)

  function Asked(b: Books, route: Route, signal: Signal, now: int): Books {
    if !Asks(route, signal) then b.(answers := b.answers + [Admitted])
    else
      var h := Signals(route);
      var d := Decide(b.table, h, KeyOf(signal), now, LimitsOf(h));
      Books(b.answers + [d], PrunedStep(b.table, Attempt(h, KeyOf(signal), now)),
            if d.Admitted? then b.noted + [Row(h, KeyOf(signal), now)] else b.noted)
  }

  /** The routes in order: each sees what the ones before it recorded. */
  function Consult(table: seq<Row>, routes: seq<Route>, signal: Signal, now: int): (b: Books)
    ensures |b.answers| == |routes|
  {
    if routes == [] then Books([], table, [])
    else Asked(Consult(table, routes[..|routes| - 1], signal, now), routes[|routes| - 1], signal, now)
  }

  method PlanSignal(routes: seq<Route>, signal: Signal, throttle: Throttle, now: int)
    returns (plan: D.Plan, admission: Admission)
    modifies throttle
    ensures fresh(admission)
    ensures var b := Consult(old(throttle.rows), routes, signal, now);
            && plan == PlanOf(routes, signal, b.answers)
            && throttle.rows == b.table
            && admission.rows == b.noted
  {
    admission := new Admission();
    var answers: seq<Decision> := [];
    var i := 0;
    while i < |routes|
      invariant 0 <= i <= |routes| && fresh(admission)
      invariant Books(answers, throttle.rows, admission.rows) == Consult(old(throttle.rows), routes[..i], signal, now)
    {
      assert routes[..i + 1][..i] == routes[..i];
      if routes[i].rule.Matches(signal) && routes[i].GatesSignals() {
        var d := throttle.Check(Signals(routes[i]), signal, now, admission);
        answers := answers + [d];
      } else {
        answers := answers + [Admitted];
      }
      i := i + 1;
    }
    assert routes[..i] == routes;
    plan := PlanWith(routes, signal, answers);
  }

  /** A route was asked and admitted, so it holds or sends the signal. */
  ghost predicate NotedFor(routes: seq<Route>, signal: Signal, now: int, answers: seq<Decision>, i: nat, r: Row)
    requires i < |routes| == |answers|
  {
    Asks(routes[i], signal) && answers[i].Admitted? && r == Row(Signals(routes[i]), KeyOf(signal), now)
  }

  /** The noted sends are exactly those of the gated routes that hold or send it. */
  lemma {:induction false} NotedAreAdmitted(table: seq<Row>, routes: seq<Route>, signal: Signal, now: int, r: Row)
    ensures var b := Consult(table, routes, signal, now);
            r in b.noted <==> exists i | 0 <= i < |routes| :: NotedFor(routes, signal, now, b.answers, i, r)
  {
    if routes != [] {
      var n := |routes| - 1;
      var before, b := Consult(table, routes[..n], signal, now), Consult(table, routes, signal, now);
      NotedAreAdmitted(table, routes[..n], signal, now, r);
      assert b.answers[..n] == before.answers;
      forall i | 0 <= i < n
        ensures NotedFor(routes, signal, now, b.answers, i, r)
                <==> NotedFor(routes[..n], signal, now, before.answers, i, r)
      {
        assert b.answers[i] == before.answers[i];
      }
      assert r in b.noted <==> r in before.noted || NotedFor(routes, signal, now, b.answers, n, r);
    }
  }

  /** A plan with nothing to send and nothing to hold, which is never settled, has
      no send to take back. Provider lists are not empty, as checked on loading. */
  lemma NothingNotedUnlessPlanned(table: seq<Row>, routes: seq<Route>, signal: Signal, now: int)
    requires forall i | 0 <= i < |routes| :: routes[i].providers != []
    ensures var b := Consult(table, routes, signal, now);
            var plan := PlanOf(routes, signal, b.answers);
            b.noted != [] ==> plan.targets != [] || plan.grouped != []
  {
    var b := Consult(table, routes, signal, now);
    NoTargetNoSender(routes, signal, b.answers);
    NoLineNoRoute(routes, signal, b.answers);
    if b.noted != [] {
      NotedAreAdmitted(table, routes, signal, now, b.noted[0]);
      var i :| 0 <= i < |routes| && NotedFor(routes, signal, now, b.answers, i, b.noted[0]);
      assert FateOf(routes[i], signal, b.answers[i]) in {Held, Sending};
    }
  }

  /* ----- holding: who owns which send ----- */

  /** The sends each held route's member takes along, and those that stay with the signal. */
  datatype Owners = Owners(shares: seq<seq<Row>>, rest: seq<Row>)

  function Split(rows: seq<Row>, held: seq<Route>): (o: Owners)
    ensures |o.shares| == |held|
  {
    if held == [] then Owners([], rows)
    else
      var before, h := Split(rows, held[..|held| - 1]), Signals(held[|held| - 1]);
      Owners(before.shares + [Of(before.rest, h)], NotOf(before.rest, h))
  }

  method Hold(held: seq<Route>, admission: Admission) returns (shares: seq<seq<Row>>)
    modifies admission
    ensures Owners(shares, admission.rows) == Split(old(admission.rows), held)
  {
    shares := [];
    var i := 0;
    while i < |held|
      invariant 0 <= i <= |held|
      invariant Owners(shares, admission.rows) == Split(old(admission.rows), held[..i])
    {
      assert held[..i + 1][..i] == held[..i];
      var mine := admission.SplitOff(held[i]);
      shares := shares + [mine];
      i := i + 1;
    }
    assert held[..i] == held;
  }

  function Flat(shares: seq<seq<Row>>): seq<Row> {
    if shares == [] then [] else Flat(shares[..|shares| - 1]) + shares[|shares| - 1]
  }

  lemma FlatNext(shares: seq<seq<Row>>, share: seq<Row>)
    ensures Flat(shares + [share]) == Flat(shares) + share
  {
    assert (shares + [share])[..|shares|] == shares;
  }

  /** Every send has one owner: a member of a held route, or the signal itself. So
      however they are settled, none is taken back twice. */
  lemma {:induction false} EachSendHasOneOwner(rows: seq<Row>, held: seq<Route>)
    ensures var o := Split(rows, held); multiset(rows) == multiset(Flat(o.shares)) + multiset(o.rest)
  {
    if held != [] {
      var init, h := held[..|held| - 1], Signals(held[|held| - 1]);
      EachSendHasOneOwner(rows, init);
      var before := Split(rows, init);
      SplitPartitions(before.rest, h);
      FlatNext(before.shares, Of(before.rest, h));
    }
  }

  /** The signal keeps exactly the sends of routes that do not hold it. */
  lemma {:induction false} RestIsUnheld(rows: seq<Row>, held: seq<Route>, r: Row)
    ensures r in Split(rows, held).rest <==> r in rows && !(r.owner.Signals? && r.owner.route in held)
  {
    if held != [] {
      var init, last := held[..|held| - 1], held[|held| - 1];
      RestIsUnheld(rows, init, r);
      SplitPartitions(Split(rows, init).rest, Signals(last));
      assert held == init + [last];
    }
  }

  /** A member owns only its own route's sends. */
  lemma {:induction false} ShareIsOfRoute(rows: seq<Row>, held: seq<Route>, r: Row, i: nat)
    requires i < |held| && r in Split(rows, held).shares[i]
    ensures r in rows && r.owner == Signals(held[i])
  {
    var init, last := held[..|held| - 1], held[|held| - 1];
    var before := Split(rows, init);
    assert Split(rows, held).shares == before.shares + [Of(before.rest, Signals(last))];
    if i < |init| {
      ShareIsOfRoute(rows, init, r, i);
    } else {
      SplitPartitions(before.rest, Signals(last));
      RestIsUnheld(rows, init, r);
    }
  }

  function HeldOf(routes: seq<Route>, grouped: seq<(nat, string)>): seq<Route>
    requires forall g | g in grouped :: g.0 < |routes|
  {
    if grouped == [] then []
    else HeldOf(routes, grouped[..|grouped| - 1]) + [routes[grouped[|grouped| - 1].0]]
  }

  lemma {:induction false} HeldAreHeld(routes: seq<Route>, signal: Signal, answers: seq<Decision>, i: nat)
    requires i < |routes| == |answers|
    ensures forall g | g in HeldRoutes(routes, signal, answers) :: g.0 < |routes|
    ensures FateOf(routes[i], signal, answers[i]) == Held ==>
              exists g | g in HeldRoutes(routes, signal, answers) :: g.0 == i
  {
    var n := |routes| - 1;
    var before := HeldRoutes(routes[..n], signal, answers[..n]);
    if n > 0 {
      HeldAreHeld(routes[..n], signal, answers[..n], if i < n then i else 0);
    }
    if i == n && FateOf(routes[n], signal, answers[n]) == Held {
      assert (before + [(n, HeldLine(routes[n]))])[|before|].0 == i;
    } else if FateOf(routes[i], signal, answers[i]) == Held {
      var g :| g in before && g.0 == i;
      assert g in HeldRoutes(routes, signal, answers);
    }
  }

  lemma {:induction false} HeldOfHas(routes: seq<Route>, grouped: seq<(nat, string)>, g: (nat, string))
    requires (forall x | x in grouped :: x.0 < |routes|) && g in grouped
    ensures routes[g.0] in HeldOf(routes, grouped)
  {
    var init, last := grouped[..|grouped| - 1], grouped[|grouped| - 1];
    assert grouped == init + [last];
    if g in init {
      HeldOfHas(routes, init, g);
    }
  }

  /** A signal that nothing is sent of at once is never settled itself, and has nothing
      left to settle: all its sends go with the routes that hold it. */
  lemma UnsentKeepsNothing(table: seq<Row>, routes: seq<Route>, signal: Signal, now: int)
    requires forall i | 0 <= i < |routes| :: routes[i].providers != []
    requires PlanOf(routes, signal, Consult(table, routes, signal, now).answers).targets == []
    ensures var b := Consult(table, routes, signal, now);
            var grouped := PlanOf(routes, signal, b.answers).grouped;
            (forall g | g in grouped :: g.0 < |routes|) && Split(b.noted, HeldOf(routes, grouped)).rest == []
  {
    var b := Consult(table, routes, signal, now);
    var grouped := PlanOf(routes, signal, b.answers).grouped;
    NoTargetNoSender(routes, signal, b.answers);
    if routes != [] {
      HeldAreHeld(routes, signal, b.answers, 0);
    }
    var rest := Split(b.noted, HeldOf(routes, grouped)).rest;
    if rest != [] {
      assert rest[0] in rest;
      UnsentRowGoes(table, routes, signal, now, rest[0]);
    }
  }

  /** Each noted send is of a route that holds the signal. */
  lemma UnsentRowGoes(table: seq<Row>, routes: seq<Route>, signal: Signal, now: int, r: Row)
    requires var answers := Consult(table, routes, signal, now).answers;
             forall i | 0 <= i < |routes| :: FateOf(routes[i], signal, answers[i]) != Sending
    requires var grouped := HeldRoutes(routes, signal, Consult(table, routes, signal, now).answers);
             forall g | g in grouped :: g.0 < |routes|
    ensures var b := Consult(table, routes, signal, now);
            r !in Split(b.noted, HeldOf(routes, HeldRoutes(routes, signal, b.answers))).rest
  {
    var b := Consult(table, routes, signal, now);
    var grouped := HeldRoutes(routes, signal, b.answers);
    RestIsUnheld(b.noted, HeldOf(routes, grouped), r);
    NotedAreAdmitted(table, routes, signal, now, r);
    if r in b.noted {
      var i :| 0 <= i < |routes| && NotedFor(routes, signal, now, b.answers, i, r);
      HeldAreHeld(routes, signal, b.answers, i);
      var g :| g in grouped && g.0 == i;
      HeldOfHas(routes, grouped, g);
    }
  }

  /* ----- settling ----- */

  function TakenBack(rows: seq<Row>, gone: seq<Row>, result: D.Result): seq<Row> {
    if result.status.Failed? then RemoveAll(rows, gone) else rows
  }

  /** Takes the sends back when the delivery failed. */
  method Settle(throttle: Throttle, rows: seq<Row>, result: D.Result)
    modifies throttle
    ensures throttle.rows == TakenBack(old(throttle.rows), rows, result)
  {
    if result.status.Failed? {
      throttle.ReleaseAll(rows);
    }
  }

  lemma {:induction false} RemoveBoth(rows: seq<Row>, a: seq<Row>, b: seq<Row>)
    ensures RemoveAll(rows, a + b) == RemoveAll(RemoveAll(rows, a), b)
  {
    if b == [] {
      assert a + b == a;
    } else {
      RemoveBoth(rows, a, b[..|b| - 1]);
      assert (a + b)[..|a + b| - 1] == a + b[..|b| - 1];
    }
  }

  lemma NextShare(own: seq<Row>, shares: seq<seq<Row>>, i: nat)
    requires i < |shares|
    ensures own + Flat(shares[..i + 1]) == own + Flat(shares[..i]) + shares[i]
  {
    assert shares[..i + 1] == shares[..i] + [shares[i]];
    FlatNext(shares[..i], shares[i]);
  }

  /** A digest settles its own send and those of all its members, all one way. */
  method SettleGroup(throttle: Throttle, own: seq<Row>, shares: seq<seq<Row>>, result: D.Result)
    modifies throttle
    ensures throttle.rows == TakenBack(old(throttle.rows), own + Flat(shares), result)
  {
    Settle(throttle, own, result);
    ghost var gone := own;
    var i := 0;
    while i < |shares|
      invariant 0 <= i <= |shares|
      invariant gone == own + Flat(shares[..i])
      invariant throttle.rows == TakenBack(old(throttle.rows), gone, result)
    {
      NextShare(own, shares, i);
      RemoveBoth(old(throttle.rows), gone, shares[i]);
      gone := gone + shares[i];
      Settle(throttle, shares[i], result);
      i := i + 1;
    }
    assert shares[..i] == shares;
  }

  /** Cut off anywhere or not, a planned signal's sends are taken back exactly when
      there was somewhere to send it and nobody got it. */
  lemma ReleasedIffNobodyGotIt(table: seq<Row>, routes: seq<Route>, signal: Signal, now: int,
                               ps: D.Providers, schedule: seq<nat>, cut: Option<string>, rows: seq<Row>, own: seq<Row>)
    requires var plan := PlanOf(routes, signal, Consult(table, routes, signal, now).answers);
             D.ScheduleOf(schedule, plan.targets)
    ensures var plan := PlanOf(routes, signal, Consult(table, routes, signal, now).answers);
            D.Distinct(plan.targets)
            && var outcomes := D.Run(plan.targets, ps, schedule).log.outcomes;
               TakenBack(rows, own, D.Summary(plan, outcomes, cut)) ==
               if plan.targets != [] && NobodyReached(plan.targets, outcomes) then RemoveAll(rows, own) else rows
  {
    var answers := Consult(table, routes, signal, now).answers;
    PlanIsSound(routes, signal, answers);
    FailedIffNobodyReached(PlanOf(routes, signal, answers), ps, schedule, cut);
  }

  ghost predicate NobodyReached(targets: seq<seq<string>>, outcomes: seq<D.Outcome>) {
    forall t | 0 <= t < |targets| :: !D.Reached(targets[t], outcomes)
  }

  lemma FailedIffNobodyReached(plan: D.Plan, ps: D.Providers, schedule: seq<nat>, cut: Option<string>)
    requires D.Distinct(plan.targets) && D.ScheduleOf(schedule, plan.targets)
    ensures var outcomes := D.Run(plan.targets, ps, schedule).log.outcomes;
            D.Summary(plan, outcomes, cut).status.Failed? <==>
            plan.targets != [] && NobodyReached(plan.targets, outcomes)
  {
    if plan.targets != [] {
      D.CutAnywhereIsSound(plan, ps, schedule, cut);
    }
  }

  /* ----- a closed group ----- */

  /** Where a closed group's digest goes: its route alone, if the route's limit allows. */
  function GroupPlan(route: Route, answer: Decision): D.Plan {
    if answer.Admitted? then D.Plan(RouteTargets(route), [], [])
    else D.Plan([], [SuppressedLine(route, answer)], [])
  }

  lemma GroupPlanIsSound(route: Route, answer: Decision)
    ensures D.Distinct(GroupPlan(route, answer).targets)
    ensures route.providers != [] ==> (GroupPlan(route, answer).targets != [] <==> answer.Admitted?)
  {
    DedupIsDistinct(route.providers);
    if route.providers != [] {
      assert route.providers[0] in Dedup(route.providers);
    }
  }

  /** Every interleaving and cut of a digest's delivery: its own send and those of all
      its members are taken back exactly when the digest was let through and nobody got
      it. Members of a digest that its limit held back keep theirs. */
  lemma GroupReleasedIffNobodyGotIt(route: Route, answer: Decision, ps: D.Providers, schedule: seq<nat>,
                                    cut: Option<string>, rows: seq<Row>, own: seq<Row>, shares: seq<seq<Row>>)
    requires route.providers != [] && D.ScheduleOf(schedule, GroupPlan(route, answer).targets)
    ensures var plan := GroupPlan(route, answer);
            D.Distinct(plan.targets)
            && var outcomes := D.Run(plan.targets, ps, schedule).log.outcomes;
               TakenBack(rows, own + Flat(shares), D.Summary(plan, outcomes, cut)) ==
               if answer.Admitted? && NobodyReached(plan.targets, outcomes)
               then RemoveAll(rows, own + Flat(shares)) else rows
  {
    GroupPlanIsSound(route, answer);
    FailedIffNobodyReached(GroupPlan(route, answer), ps, schedule, cut);
  }

  /** What the throttle makes of a digest; a route without a limit has no books. */
  function DigestAsked(table: seq<Row>, route: Route, signal: Signal, now: int): (b: Books)
    ensures |b.answers| == 1
  {
    var h := Digests(route);
    if LimitsOf(h) == Limits(None, None) then Books([Admitted], table, [])
    else
      var d := Decide(table, h, KeyOf(signal), now, LimitsOf(h));
      Books([d], PrunedStep(table, Attempt(h, KeyOf(signal), now)),
            if d.Admitted? then [Row(h, KeyOf(signal), now)] else [])
  }

  /* ----- a digest that its limit holds back ----- */

  lemma StandingDuplicate(table: seq<Row>, h: History, key: string, at: int, later: int)
    requires Row(h, key, at) in table
    requires LimitsOf(h).dedup.Some? && later - at < Millis(LimitsOf(h).dedup.value)
    ensures Decide(table, h, key, later, LimitsOf(h)).Duplicate?
  {
    LastSentIsLatest(table, h, key);
    var i :| 0 <= i < |table| && table[i] == Row(h, key, at);
  }

  /** Nobody gets the members of a digest that its limit holds back. However it is
      settled the table stays as it was, so while a member's send is in it, the next
      signals with that member's key are held back as duplicates. */
  lemma HeldBackStaysSuppressed(table: seq<Row>, route: Route, digest: Signal, now: int, outcomes: seq<D.Outcome>,
                                cut: Option<string>, shares: seq<seq<Row>>, key: string, at: int, later: int)
    requires !DigestAsked(table, route, digest, now).answers[0].Admitted?
    requires Row(Signals(route), key, at) in table
    requires route.dedup.Some? && later - at < Millis(route.dedup.value)
    ensures var b := DigestAsked(table, route, digest, now);
            var settled := TakenBack(b.table, b.noted + Flat(shares),
                                     D.Summary(GroupPlan(route, b.answers[0]), outcomes, cut));
            && settled == table
            && Decide(settled, Signals(route), key, later, LimitsOf(Signals(route))).Duplicate?
  {
    StandingDuplicate(table, Signals(route), key, at, later);
  }

  lemma {:induction false} MarksOfOther(h: History, t: int, n: nat, other: History, key: string, at: int)
    requires other != h
    ensures LastSent(Marks(h, t, n), other, key) == None
    ensures Prune(Marks(h, t, n), other, at) == Marks(h, t, n)
  {
    if n > 0 {
      MarksOfOther(h, t, n - 1, other, key, at);
      OneMoreLast(Marks(h, t, n - 1), Row(h, Ticks(n - 1), t), other, key);
      OneMorePruned(Marks(h, t, n - 1), Row(h, Ticks(n - 1), t), other, at);
    }
  }

  /** A member's send beside as many digests as the limit lets through. */
  lemma MemberBesideDigests(route: Route, n: nat, key: string, t: int)
    requires route.IsGrouped() && route.dedup.Some? && route.dedup.value > 0
    ensures var marks, member := Marks(Digests(route), t, n), Row(Signals(route), key, t);
            && Decide(marks, member.owner, key, t, LimitsOf(member.owner)).Admitted?
            && Commit(marks, member.owner, key, t, LimitsOf(member.owner)) == marks + [member]
  {
    var h := Signals(route);
    MarksOfOther(Digests(route), t, n, h, key, t - Keep(LimitsOf(h)));
    OneMorePruned(Marks(Digests(route), t, n), Row(h, key, t), h, t - Keep(LimitsOf(h)));
  }

  lemma FullOfDigests(route: Route, member: Row, t: int, next: Signal)
    requires route.rateLimit.Some? && route.rateLimit.value.per > 0 && member.owner != Digests(route)
    ensures !DigestAsked(Marks(Digests(route), t, route.rateLimit.value.max) + [member], route, next, t)
              .answers[0].Admitted?
  {
    var after := t - Millis(route.rateLimit.value.per);
    MarksCount(Digests(route), t, route.rateLimit.value.max, after);
    OneMoreCounted(Marks(Digests(route), t, route.rateLimit.value.max), member, Digests(route), after);
  }

  /** It happens: on every grouped route with `dedup` and a rate limit, a run ends in a
      table that holds a member's send and lets no digest through. */
  lemma HeldBackIsReached(route: Route, key: string, t: int, digest: Signal) returns (events: seq<Event>)
    requires route.IsGrouped() && route.dedup.Some? && route.dedup.value > 0
    requires route.rateLimit.Some? && route.rateLimit.value.max > 0 && route.rateLimit.value.per > 0
    ensures Lag(events, 0) && Row(Signals(route), key, t) in Pruned(events)
    ensures !DigestAsked(Pruned(events), route, digest, t).answers[0].Admitted?
  {
    var n, member := route.rateLimit.value.max, Row(Signals(route), key, t);
    var burst := Burst(Digests(route), t, n);
    MemberBesideDigests(route, n, key, t);
    Admits(burst, Marks(Digests(route), t, n), member);
    FullOfDigests(route, member, t, digest);
    events := burst + [Try(member)];
    StandsLast(Marks(Digests(route), t, n), member);
    LagOfAll(burst, Try(member), 0);
  }

  lemma StandsLast(rows: seq<Row>, r: Row)
    ensures r in rows + [r]
  {
    assert (rows + [r])[|rows|] == r;
  }

  method AskDigest(route: Route, signal: Signal, throttle: Throttle, now: int) returns (answer: Decision, own: seq<Row>)
    modifies throttle
    ensures Books([answer], throttle.rows, own) == DigestAsked(old(throttle.rows), route, signal, now)
  {
    var admission := new Admission();
    answer := throttle.Check(Digests(route), signal, now, admission);
    own := admission.rows;
  }

  method DeliverGroup(route: Route, answer: Decision, tracker: D.Tracker, ps: D.Providers) returns (result: D.Result)
    requires tracker.OnFile() == D.Log([], map[], []) && route.providers != []
    modifies tracker
    ensures result == D.Summary(GroupPlan(route, answer), tracker.OnFile().outcomes, None)
    ensures result.status.Failed? <==> answer.Admitted? && D.WinnerNames(RouteTargets(route), ps) == []
  {
    var plan := D.Plan([], [SuppressedLine(route, answer)], []);
    if answer.Admitted? {
      var targets := TargetsOfRoute(route);
      plan := D.Plan(targets, [], []);
    }
    GroupPlanIsSound(route, answer);
    result := tracker.Deliver(plan, ps);
    D.SettledFails(plan, ps, tracker.OnFile());
  }

  /** Sends a closed group: `signal` is its digest, or its one member. The books end
      up without the group's sends exactly when it was let through and no provider of
      the route accepted. */
  method SendGroup(route: Route, signal: Signal, shares: seq<seq<Row>>, throttle: Throttle, now: int,
                   tracker: D.Tracker, ps: D.Providers) returns (result: D.Result)
    requires tracker.OnFile() == D.Log([], map[], []) && route.providers != []
    modifies throttle, tracker
    ensures var b := DigestAsked(old(throttle.rows), route, signal, now);
            && result == D.Summary(GroupPlan(route, b.answers[0]), tracker.OnFile().outcomes, None)
            && throttle.rows ==
               if b.answers[0].Admitted? && D.WinnerNames(RouteTargets(route), ps) == []
               then RemoveAll(b.table, b.noted + Flat(shares)) else b.table
  {
    var answer, own := AskDigest(route, signal, throttle, now);
    result := DeliverGroup(route, answer, tracker, ps);
    SettleGroup(throttle, own, shares, result);
  }

  /* ----- planning and settling are runs of the throttle ----- */

  /** The attempts that planning a signal makes. */
  function AttemptsBy(routes: seq<Route>, signal: Signal, now: int): seq<Event> {
    if routes == [] then []
    else
      var before, last := AttemptsBy(routes[..|routes| - 1], signal, now), routes[|routes| - 1];
      if Asks(last, signal) then before + [Attempt(Signals(last), KeyOf(signal), now)] else before
  }

  /** So what is proved of every run of attempts and releases holds of every client's use. */
  lemma {:induction false} PlanningIsARun(events: seq<Event>, routes: seq<Route>, signal: Signal, now: int)
    ensures Consult(Pruned(events), routes, signal, now).table == Pruned(events + AttemptsBy(routes, signal, now))
  {
    if routes == [] {
      assert events + [] == events;
    } else {
      var init, last := routes[..|routes| - 1], routes[|routes| - 1];
      PlanningIsARun(events, init, signal, now);
      if Asks(last, signal) {
        var e := Attempt(Signals(last), KeyOf(signal), now);
        assert events + AttemptsBy(routes, signal, now) == events + AttemptsBy(init, signal, now) + [e];
        RunStep(events + AttemptsBy(init, signal, now), e);
      }
    }
  }

  function ReleasesOf(gone: seq<Row>): seq<Event> {
    if gone == [] then [] else ReleasesOf(gone[..|gone| - 1]) + [Release(gone[|gone| - 1])]
  }

  lemma {:induction false} SettlingIsARun(events: seq<Event>, gone: seq<Row>)
    ensures RemoveAll(Pruned(events), gone) == Pruned(events + ReleasesOf(gone))
  {
    if gone == [] {
      assert events + [] == events;
    } else {
      var init, last := gone[..|gone| - 1], gone[|gone| - 1];
      SettlingIsARun(events, init);
      assert events + ReleasesOf(gone) == events + ReleasesOf(init) + [Release(last)];
      RunStep(events + ReleasesOf(init), Release(last));
    }
  }
}
