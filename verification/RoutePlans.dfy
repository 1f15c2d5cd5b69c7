/** What a plan is, said of the routes' own fields (crates/core/src/routing.rs): which
    routes have a part in it, and where each provider stands. */
module RoutePlans {
  import opened Basics
  import opened Model
  import opened Throttle
  import opened Routing
  import D = Delivery

  /* ----- which routes have a part in it ----- */

  predicate TakesAnySeverity(route: Route, signal: Signal) {
    && (route.rule.environment.None? || signal.environment == route.rule.environment)
    && (route.rule.source.None? || Some(signal.source) == route.rule.source)
  }

  predicate Takes(route: Route, signal: Signal) {
    TakesAnySeverity(route, signal) && (route.rule.severity == [] || signal.severity in route.rule.severity)
  }

  predicate SendsDigests(route: Route) {
    route.groupBy.Some? || route.groupWait.Some?
  }

  /** The throttle is asked about `dedup`, and about `rate_limit` unless digests are sent. */
  predicate TurnsDown(route: Route, signal: Signal, answer: Decision) {
    && Takes(route, signal) && !answer.Admitted?
    && (route.dedup.Some? || (route.rateLimit.Some? && !SendsDigests(route)))
  }

  predicate Sends(route: Route, signal: Signal, answer: Decision) {
    Takes(route, signal) && !TurnsDown(route, signal, answer) && !SendsDigests(route)
  }

  predicate Holds(route: Route, signal: Signal, answer: Decision) {
    Takes(route, signal) && !TurnsDown(route, signal, answer) && SendsDigests(route)
  }

  lemma FateOnFields(route: Route, signal: Signal, answer: Decision)
    ensures FateOf(route, signal, answer) ==
            if Sends(route, signal, answer) then Sending
            else if Holds(route, signal, answer) then Held
            else if TurnsDown(route, signal, answer) then Suppressed
            else Unmatched
    ensures route.rule.Matches(signal) <==> Takes(route, signal)
  {
  }

  ghost function TurningDown(routes: seq<Route>, signal: Signal, answers: seq<Decision>): set<nat>
    requires |answers| == |routes|
  {
    set i | 0 <= i < |routes| && TurnsDown(routes[i], signal, answers[i])
  }

  ghost predicate HasEntry(grouped: seq<(nat, string)>, i: nat) {
    exists a | 0 <= a < |grouped| :: grouped[a].0 == i
  }

  /** One line for each route that turned the signal down, one entry for each that holds it,
      in the order of the routes. */
  lemma LinesOnFields(routes: seq<Route>, signal: Signal, answers: seq<Decision>)
    requires |answers| == |routes|
    ensures var plan := PlanOf(routes, signal, answers);
            && |plan.suppressed| == |TurningDown(routes, signal, answers)|
            && (forall i: nat :: HasEntry(plan.grouped, i) <==>
                  i < |routes| && Holds(routes[i], signal, answers[i]))
            && Ascending(plan.grouped)
            && forall n | 0 <= n <= |routes| :: PlanOf(routes[..n], signal, answers[..n]).suppressed <= plan.suppressed
  {
    SuppressedCount(routes, signal, answers);
    forall n | 0 <= n <= |routes|
      ensures SuppressedLines(routes[..n], signal, answers[..n]) <= SuppressedLines(routes, signal, answers)
    {
      SuppressedGrow(routes, signal, answers, n);
    }
    forall i: nat
      ensures HasEntry(HeldRoutes(routes, signal, answers), i) <==>
              i < |routes| && Holds(routes[i], signal, answers[i])
    {
      HeldIndex(routes, signal, answers, i);
    }
    HeldInOrder(routes, signal, answers);
  }

  lemma {:induction false} SuppressedCount(routes: seq<Route>, signal: Signal, answers: seq<Decision>)
    requires |answers| == |routes|
    ensures |SuppressedLines(routes, signal, answers)| == |TurningDown(routes, signal, answers)|
  {
    if routes != [] {
      var n := |routes| - 1;
      SuppressedCount(routes[..n], signal, answers[..n]);
      FateOnFields(routes[n], signal, answers[n]);
      var before := TurningDown(routes[..n], signal, answers[..n]);
      assert TurningDown(routes, signal, answers)
          == if TurnsDown(routes[n], signal, answers[n]) then before + {n} else before;
    }
  }

  lemma {:induction false} SuppressedGrow(routes: seq<Route>, signal: Signal, answers: seq<Decision>, n: nat)
    requires n <= |routes| == |answers|
    ensures SuppressedLines(routes[..n], signal, answers[..n]) <= SuppressedLines(routes, signal, answers)
  {
    if n == |routes| {
      assert routes[..n] == routes && answers[..n] == answers;
    } else {
      var m := |routes| - 1;
      SuppressedGrow(routes[..m], signal, answers[..m], n);
      assert routes[..m][..n] == routes[..n] && answers[..m][..n] == answers[..n];
    }
  }

  lemma {:induction false} HeldIndex(routes: seq<Route>, signal: Signal, answers: seq<Decision>, i: nat)
    requires |answers| == |routes|
    ensures HasEntry(HeldRoutes(routes, signal, answers), i) <==>
            i < |routes| && Holds(routes[i], signal, answers[i])
  {
    if routes != [] {
      var n := |routes| - 1;
      HeldIndex(routes[..n], signal, answers[..n], i);
      FateOnFields(routes[n], signal, answers[n]);
      OneMoreEntry(HeldRoutes(routes[..n], signal, answers[..n]), (n, HeldLine(routes[n])), i);
    }
  }

  lemma OneMoreEntry(grouped: seq<(nat, string)>, g: (nat, string), i: nat)
    ensures HasEntry(grouped + [g], i) <==> HasEntry(grouped, i) || g.0 == i
  {
    assert (grouped + [g])[|grouped|] == g;
    if HasEntry(grouped, i) {
      var a :| 0 <= a < |grouped| && grouped[a].0 == i;
      assert (grouped + [g])[a] == grouped[a];
    }
  }

  ghost predicate Ascending(grouped: seq<(nat, string)>) {
    forall a, b | 0 <= a < b < |grouped| :: grouped[a].0 < grouped[b].0
  }

  lemma AscendingNext(grouped: seq<(nat, string)>, g: (nat, string))
    requires Ascending(grouped) && forall a | 0 <= a < |grouped| :: grouped[a].0 < g.0
    ensures Ascending(grouped + [g])
  {
  }

  lemma {:induction false} HeldInOrder(routes: seq<Route>, signal: Signal, answers: seq<Decision>)
    requires |answers| == |routes|
    ensures Ascending(HeldRoutes(routes, signal, answers))
  {
    if routes != [] {
      var n := |routes| - 1;
      var before := HeldRoutes(routes[..n], signal, answers[..n]);
      HeldInOrder(routes[..n], signal, answers[..n]);
      forall a | 0 <= a < |before| ensures before[a].0 < n {
        HeldIndex(routes[..n], signal, answers[..n], before[a].0);
      }
      AscendingNext(before, (n, HeldLine(routes[n])));
    }
  }

  ghost predicate Listed(routes: seq<Route>, signal: Signal, answers: seq<Decision>, name: string)
    requires |answers| == |routes|
  {
    exists i | 0 <= i < |routes| :: Sends(routes[i], signal, answers[i]) && name in routes[i].providers
  }

  lemma UsedIffListed(routes: seq<Route>, signal: Signal, answers: seq<Decision>, name: string)
    requires |answers| == |routes|
    ensures InPlan(Targets(Firsts(Uses(routes, signal, answers))), name) <==> Listed(routes, signal, answers, name)
  {
    var uses := Uses(routes, signal, answers);
    FirstsNoRepeats(uses);
    TargetsAreDistinct(Firsts(uses));
    FirstsKeepName(uses, name);
    UsesAreListed(routes, signal, answers, name);
    forall i | 0 <= i < |routes|
      ensures FateOf(routes[i], signal, answers[i]) == Sending <==> Sends(routes[i], signal, answers[i])
    {
      FateOnFields(routes[i], signal, answers[i]);
    }
  }

  /** Every provider of a route that sends the signal is told. Nobody else is, but for the
      console when the routes that take the signal all send it and list nobody. */
  lemma ToldOnFields(routes: seq<Route>, signal: Signal, answers: seq<Decision>, name: string)
    requires |answers| == |routes|
    ensures var told, listed := InPlan(PlanOf(routes, signal, answers).targets, name),
                                Listed(routes, signal, answers, name);
            && (listed ==> told)
            && (told && !listed ==>
                  name == "console" && forall i | 0 <= i < |routes| && Takes(routes[i], signal) ::
                    Sends(routes[i], signal, answers[i]) && routes[i].providers == [])
  {
    UsedIffListed(routes, signal, answers, name);
    if InPlan(PlanOf(routes, signal, answers).targets, name) && !Listed(routes, signal, answers, name) {
      NoLineNoRoute(routes, signal, answers);
      forall i | 0 <= i < |routes| && Takes(routes[i], signal)
        ensures Sends(routes[i], signal, answers[i]) && routes[i].providers == []
      {
        FateOnFields(routes[i], signal, answers[i]);
        if routes[i].providers != [] {
          assert routes[i].providers[0] in routes[i].providers;
          UsedIffListed(routes, signal, answers, routes[i].providers[0]);
        }
      }
    }
  }

  /** A signal that no route takes goes to the console. */
  lemma UntakenGoesToConsole(routes: seq<Route>, signal: Signal, answers: seq<Decision>)
    requires |answers| == |routes| && forall i | 0 <= i < |routes| :: !Takes(routes[i], signal)
    ensures PlanOf(routes, signal, answers) == D.Plan([["console"]], [], [])
  {
    NoLineNoRoute(routes, signal, answers);
    var targets := Targets(Firsts(Uses(routes, signal, answers)));
    FirstsNoRepeats(Uses(routes, signal, answers));
    TargetsAreDistinct(Firsts(Uses(routes, signal, answers)));
    if targets != [] {
      assert InPlan(targets, targets[0][0]);
      UsedIffListed(routes, signal, answers, targets[0][0]);
    }
  }

  /* ----- where each provider stands ----- */

  /** Provider `j` of route `i`. */
  datatype Spot = Spot(i: nat, j: nat) {
    predicate Earlier(other: Spot) {
      i < other.i || (i == other.i && j < other.j)
    }
  }

  ghost predicate IsUse(routes: seq<Route>, signal: Signal, answers: seq<Decision>, s: Spot)
    requires |answers| == |routes|
  {
    s.i < |routes| && Sends(routes[s.i], signal, answers[s.i]) && s.j < |routes[s.i].providers|
  }

  function NameAt(routes: seq<Route>, s: Spot): string
    requires s.i < |routes| && s.j < |routes[s.i].providers|
  {
    routes[s.i].providers[s.j]
  }

  /** No route that sends the signal lists the provider earlier. */
  ghost predicate IsFirstUse(routes: seq<Route>, signal: Signal, answers: seq<Decision>, s: Spot)
    requires |answers| == |routes|
  {
    && IsUse(routes, signal, answers, s)
    && forall e: Spot | IsUse(routes, signal, answers, e) && e.Earlier(s) :: NameAt(routes, e) != NameAt(routes, s)
  }

  /** How many uses stand before route `i`'s. */
  function Offset(routes: seq<Route>, signal: Signal, answers: seq<Decision>, i: nat): nat
    requires i <= |routes| == |answers|
  {
    |Uses(routes[..i], signal, answers[..i])|
  }

  lemma UsesOfAt(providers: seq<string>, mode: DeliveryMode)
    ensures |UsesOf(providers, mode)| == |providers|
    ensures forall j | 0 <= j < |providers| :: UsesOf(providers, mode)[j] == Use(providers[j], mode)
  {
    if providers != [] {
      UsesOfAt(providers[..|providers| - 1], mode);
    }
  }

  lemma OffsetNext(routes: seq<Route>, signal: Signal, answers: seq<Decision>, i: nat)
    requires i < |routes| == |answers|
    ensures Offset(routes, signal, answers, i + 1) == Offset(routes, signal, answers, i)
            + if Sends(routes[i], signal, answers[i]) then |routes[i].providers| else 0
  {
    OneMoreRoute(routes, signal, answers, i);
    FateOnFields(routes[i], signal, answers[i]);
    UsesOfAt(routes[i].providers, routes[i].mode);
  }

  lemma {:induction false} OffsetsGrow(routes: seq<Route>, signal: Signal, answers: seq<Decision>, i: nat, k: nat)
    requires i <= k <= |routes| == |answers|
    ensures Offset(routes, signal, answers, i) <= Offset(routes, signal, answers, k)
    decreases k - i
  {
    if i < k {
      OffsetNext(routes, signal, answers, i);
      OffsetsGrow(routes, signal, answers, i + 1, k);
    }
  }

  lemma UsesBut(routes: seq<Route>, signal: Signal, answers: seq<Decision>)
    requires |answers| == |routes| > 0
    ensures var n := |routes| - 1;
            Uses(routes, signal, answers) == Uses(routes[..n], signal, answers[..n])
            + if Sends(routes[n], signal, answers[n]) then UsesOf(routes[n].providers, routes[n].mode) else []
  {
    FateOnFields(routes[|routes| - 1], signal, answers[|routes| - 1]);
  }

  lemma OffsetBut(routes: seq<Route>, signal: Signal, answers: seq<Decision>, i: nat)
    requires i < |routes| == |answers|
    ensures var n := |routes| - 1; Offset(routes, signal, answers, i) == Offset(routes[..n], signal, answers[..n], i)
  {
    var n := |routes| - 1;
    assert routes[..n][..i] == routes[..i] && answers[..n][..i] == answers[..i];
  }

  /** Each spot of a sending route has its place among the uses. */
  lemma {:induction false} UseAt(routes: seq<Route>, signal: Signal, answers: seq<Decision>, s: Spot)
    requires |answers| == |routes| && IsUse(routes, signal, answers, s)
    ensures var at := Offset(routes, signal, answers, s.i) + s.j;
            at < |Uses(routes, signal, answers)|
            && Uses(routes, signal, answers)[at] == Use(NameAt(routes, s), routes[s.i].mode)
  {
    var n := |routes| - 1;
    UsesBut(routes, signal, answers);
    if s.i < n {
      OffsetBut(routes, signal, answers, s.i);
      UseAt(routes[..n], signal, answers[..n], s);
    } else {
      UsesOfAt(routes[n].providers, routes[n].mode);
    }
  }

  /** And each place is some spot's. */
  lemma {:induction false} SpotOf(routes: seq<Route>, signal: Signal, answers: seq<Decision>, at: nat) returns (s: Spot)
    requires |answers| == |routes| && at < |Uses(routes, signal, answers)|
    ensures IsUse(routes, signal, answers, s) && Offset(routes, signal, answers, s.i) + s.j == at
  {
    var n := |routes| - 1;
    UsesBut(routes, signal, answers);
    var before := |Uses(routes[..n], signal, answers[..n])|;
    if at < before {
      s := SpotOf(routes[..n], signal, answers[..n], at);
      OffsetBut(routes, signal, answers, s.i);
    } else {
      UsesOfAt(routes[n].providers, routes[n].mode);
      s := Spot(n, at - before);
    }
  }

  lemma PlacesFollowSpots(routes: seq<Route>, signal: Signal, answers: seq<Decision>, s: Spot, e: Spot)
    requires |answers| == |routes| && IsUse(routes, signal, answers, s) && IsUse(routes, signal, answers, e)
    ensures e.Earlier(s) <==>
            Offset(routes, signal, answers, e.i) + e.j < Offset(routes, signal, answers, s.i) + s.j
  {
    OffsetNext(routes, signal, answers, e.i);
    OffsetNext(routes, signal, answers, s.i);
    if e.i < s.i {
      OffsetsGrow(routes, signal, answers, e.i + 1, s.i);
    } else if s.i < e.i {
      OffsetsGrow(routes, signal, answers, s.i + 1, e.i);
    }
  }

  lemma {:induction false} PlaceIs(uses: seq<Use>, at: nat)
    requires at < |uses| && forall k | 0 <= k < at :: uses[k].name != uses[at].name
    ensures Place(uses, uses[at].name) == at
  {
    var init, last := uses[..|uses| - 1], uses[|uses| - 1];
    if at < |init| {
      PlaceIs(init, at);
    } else {
      PlaceOfNew(init, last.name);
      if Place(init, last.name) < |init| {
        FoundIsNamed(init, last.name);
      }
    }
  }

  lemma {:induction false} FoundIsNamed(uses: seq<Use>, name: string)
    ensures Place(uses, name) < |uses| ==> uses[Place(uses, name)].name == name
  {
    if uses != [] {
      FoundIsNamed(uses[..|uses| - 1], name);
    }
  }

  lemma EarlierUseDiffers(routes: seq<Route>, signal: Signal, answers: seq<Decision>, s: Spot, k: nat)
    requires |answers| == |routes| && IsFirstUse(routes, signal, answers, s)
    requires k < Offset(routes, signal, answers, s.i) + s.j && k < |Uses(routes, signal, answers)|
    ensures Uses(routes, signal, answers)[k].name != NameAt(routes, s)
  {
    var e := SpotOf(routes, signal, answers, k);
    UseAt(routes, signal, answers, e);
    PlacesFollowSpots(routes, signal, answers, s, e);
  }

  /** A first use is found by its provider's name. */
  lemma FirstUseIsPlace(routes: seq<Route>, signal: Signal, answers: seq<Decision>, s: Spot)
    requires |answers| == |routes| && IsFirstUse(routes, signal, answers, s)
    ensures Place(Uses(routes, signal, answers), NameAt(routes, s)) == Offset(routes, signal, answers, s.i) + s.j
  {
    var uses, at := Uses(routes, signal, answers), Offset(routes, signal, answers, s.i) + s.j;
    UseAt(routes, signal, answers, s);
    forall k | 0 <= k < at ensures uses[k].name != uses[at].name {
      EarlierUseDiffers(routes, signal, answers, s, k);
    }
    PlaceIs(uses, at);
  }

  lemma {:induction false} NameHasIndex(uses: seq<Use>, name: string) returns (a: nat)
    requires name in NamesOf(uses)
    ensures a < |uses| && uses[a].name == name
  {
    if uses[|uses| - 1].name == name {
      a := |uses| - 1;
    } else {
      a := NameHasIndex(uses[..|uses| - 1], name);
    }
  }

  lemma IndexOfUse(routes: seq<Route>, signal: Signal, answers: seq<Decision>, s: Spot) returns (a: nat)
    requires |answers| == |routes| && IsUse(routes, signal, answers, s)
    requires Place(Uses(routes, signal, answers), NameAt(routes, s)) == Offset(routes, signal, answers, s.i) + s.j
    ensures var firsts := Firsts(Uses(routes, signal, answers));
            a < |firsts| && firsts[a] == Use(NameAt(routes, s), routes[s.i].mode)
  {
    var uses := Uses(routes, signal, answers);
    UseAt(routes, signal, answers, s);
    NamesHave(uses, Offset(routes, signal, answers, s.i) + s.j);
    FirstsKeepName(uses, NameAt(routes, s));
    a := NameHasIndex(Firsts(uses), NameAt(routes, s));
    FirstsAreFirst(uses, a);
  }

  /** The provider of a first use stands among the firsts, with its route's mode. */
  lemma IndexOfFirst(routes: seq<Route>, signal: Signal, answers: seq<Decision>, s: Spot) returns (a: nat)
    requires |answers| == |routes| && IsFirstUse(routes, signal, answers, s)
    ensures var firsts := Firsts(Uses(routes, signal, answers));
            a < |firsts| && firsts[a] == Use(NameAt(routes, s), routes[s.i].mode)
  {
    FirstUseIsPlace(routes, signal, answers, s);
    a := IndexOfUse(routes, signal, answers, s);
  }

  lemma {:induction false} NamesHave(uses: seq<Use>, at: nat)
    requires at < |uses|
    ensures uses[at].name in NamesOf(uses)
  {
    if at < |uses| - 1 {
      NamesHave(uses[..|uses| - 1], at);
    }
  }

  lemma {:induction false} FirstsInOrder(uses: seq<Use>, a: nat, b: nat)
    requires a < b < |Firsts(uses)|
    ensures Place(uses, Firsts(uses)[a].name) < Place(uses, Firsts(uses)[b].name)
    decreases b - a
  {
    FirstsAreFirst(uses, b);
    if a < b - 1 {
      FirstsInOrder(uses, a, b - 1);
    }
  }

  /* ----- the layout of the firsts ----- */

  /** Where the target of a use is: fan-out ones are targets of their own, before or after
      the chain as they come before or after the first failover use. */
  lemma {:induction false} TargetOf(firsts: seq<Use>, a: nat) returns (t: nat, k: nat)
    requires a < |firsts|
    ensures t < |Targets(firsts)| && k < |Targets(firsts)[t]| && Targets(firsts)[t][k] == firsts[a].name
    ensures firsts[a].mode.Failover? ==> FirstFailover(firsts) <= a && t == Slot(firsts)
    ensures firsts[a].mode.Fanout? ==>
              && Targets(firsts)[t] == [firsts[a].name] && FirstFailover(firsts) != a
              && (FirstFailover(firsts) < a ==> Slot(firsts) < t)
              && (a < FirstFailover(firsts) ==> t < Slot(firsts))
  {
    var init, u := firsts[..|firsts| - 1], firsts[|firsts| - 1];
    assert firsts == init + [u];
    AddUse(init, u);
    FirstFailoverGrows(init, u);
    if a < |init| {
      t, k := TargetOf(init, a);
    } else if FirstFailover(init) < |init| && u.mode.Failover? {
      t, k := Slot(init), |Targets(init)[Slot(init)]|;
    } else {
      t, k := |Targets(init)|, 0;
    }
  }

  lemma {:induction false} ChainInOrder(firsts: seq<Use>, a: nat, b: nat) returns (k: nat, l: nat)
    requires a < b < |firsts| && firsts[a].mode.Failover? && firsts[b].mode.Failover?
    ensures Slot(firsts) < |Targets(firsts)| && k < l < |Targets(firsts)[Slot(firsts)]|
    ensures Targets(firsts)[Slot(firsts)][k] == firsts[a].name && Targets(firsts)[Slot(firsts)][l] == firsts[b].name
  {
    var init, u := firsts[..|firsts| - 1], firsts[|firsts| - 1];
    assert firsts == init + [u];
    AddUse(init, u);
    FirstFailoverGrows(init, u);
    if b < |init| {
      k, l := ChainInOrder(init, a, b);
    } else {
      var t;
      t, k := TargetOf(init, a);
      l := |Targets(init)[Slot(init)]|;
    }
  }

  lemma {:induction false} SolosInOrder(firsts: seq<Use>, a: nat, b: nat) returns (t: nat, u: nat)
    requires a < b < |firsts| && firsts[a].mode.Fanout? && firsts[b].mode.Fanout?
    ensures t < u < |Targets(firsts)|
    ensures Targets(firsts)[t] == [firsts[a].name] && Targets(firsts)[u] == [firsts[b].name]
    ensures FirstFailover(firsts) == |firsts| || (t != Slot(firsts) && u != Slot(firsts))
  {
    var init, last := firsts[..|firsts| - 1], firsts[|firsts| - 1];
    assert firsts == init + [last];
    AddUse(init, last);
    FirstFailoverGrows(init, last);
    if b < |init| {
      t, u := SolosInOrder(init, a, b);
    } else {
      var k;
      t, k := TargetOf(init, a);
      u := |Targets(init)|;
    }
  }

  /** The provider of a fan-out route that lists it first is a target of its own. */
  lemma FanoutStandsAlone(routes: seq<Route>, signal: Signal, answers: seq<Decision>, s: Spot)
    requires |answers| == |routes| && IsFirstUse(routes, signal, answers, s) && routes[s.i].mode.Fanout?
    ensures [NameAt(routes, s)] in PlanOf(routes, signal, answers).targets
  {
    var a := IndexOfFirst(routes, signal, answers, s);
    var t, k := TargetOf(Firsts(Uses(routes, signal, answers)), a);
  }

  /** What follows is about two providers by their first uses, `s` before `e`. */
  lemma IndicesOf(routes: seq<Route>, signal: Signal, answers: seq<Decision>, s: Spot, e: Spot) returns (a: nat, b: nat)
    requires |answers| == |routes| && IsFirstUse(routes, signal, answers, s) && IsFirstUse(routes, signal, answers, e)
    requires s.Earlier(e)
    ensures var firsts := Firsts(Uses(routes, signal, answers));
            && a < b < |firsts| && firsts[a] == Use(NameAt(routes, s), routes[s.i].mode)
            && firsts[b] == Use(NameAt(routes, e), routes[e.i].mode)
    ensures PlanOf(routes, signal, answers).targets == Targets(Firsts(Uses(routes, signal, answers)))
  {
    a := IndexOfFirst(routes, signal, answers, s);
    b := IndexOfFirst(routes, signal, answers, e);
    HasTargets(routes, signal, answers);
    if b < a {
      SpotsFollowFirsts(routes, signal, answers, e, s, b, a);
    } else if a == b {
      FirstUseIsPlace(routes, signal, answers, s);
      FirstUseIsPlace(routes, signal, answers, e);
      PlacesFollowSpots(routes, signal, answers, e, s);
    }
  }

  lemma HasTargets(routes: seq<Route>, signal: Signal, answers: seq<Decision>)
    requires |answers| == |routes| && Firsts(Uses(routes, signal, answers)) != []
    ensures PlanOf(routes, signal, answers).targets == Targets(Firsts(Uses(routes, signal, answers)))
  {
    var t, k := TargetOf(Firsts(Uses(routes, signal, answers)), 0);
  }

  /** All failover providers are in one target, in the order of their first uses. */
  lemma FailoverIsOneChain(routes: seq<Route>, signal: Signal, answers: seq<Decision>, s: Spot, e: Spot)
    returns (t: nat, k: nat, l: nat)
    requires |answers| == |routes| && IsFirstUse(routes, signal, answers, s) && IsFirstUse(routes, signal, answers, e)
    requires s.Earlier(e) && routes[s.i].mode.Failover? && routes[e.i].mode.Failover?
    ensures var targets := PlanOf(routes, signal, answers).targets;
            t < |targets| && k < l < |targets[t]|
            && targets[t][k] == NameAt(routes, s) && targets[t][l] == NameAt(routes, e)
  {
    var a, b := IndicesOf(routes, signal, answers, s, e);
    k, l := ChainInOrder(Firsts(Uses(routes, signal, answers)), a, b);
    t := Slot(Firsts(Uses(routes, signal, answers)));
  }

  /** Targets stand in the order of first uses, the chain where the first of its providers
      is: one use after another has the later target, but for failover uses after the first. */
  lemma TargetsInOrder(routes: seq<Route>, signal: Signal, answers: seq<Decision>, s: Spot, e: Spot)
    returns (t: nat, u: nat, k: nat, l: nat)
    requires |answers| == |routes| && IsFirstUse(routes, signal, answers, s) && IsFirstUse(routes, signal, answers, e)
    requires s.Earlier(e)
    requires routes[e.i].mode.Failover? ==>
               forall f: Spot | IsFirstUse(routes, signal, answers, f) && f.Earlier(e) :: routes[f.i].mode.Fanout?
    ensures var targets := PlanOf(routes, signal, answers).targets;
            t < u < |targets| && k < |targets[t]| && l < |targets[u]|
            && targets[t][k] == NameAt(routes, s) && targets[u][l] == NameAt(routes, e)
  {
    var firsts := Firsts(Uses(routes, signal, answers));
    var a, b := IndicesOf(routes, signal, answers, s, e);
    t, k := TargetOf(firsts, a);
    u, l := TargetOf(firsts, b);
    if firsts[a].mode.Fanout? && firsts[b].mode.Fanout? {
      t, u := SolosInOrder(firsts, a, b);
      k, l := 0, 0;
    } else if firsts[b].mode.Failover? && FirstFailover(firsts) < b {
      var f := SpotOfFirst(routes, signal, answers, FirstFailover(firsts));
      FirstFailoverIs(firsts);
      SpotsFollowFirsts(routes, signal, answers, f, e, FirstFailover(firsts), b);
      assert false;
    }
  }

  lemma {:induction false} FirstFailoverIs(firsts: seq<Use>)
    ensures FirstFailover(firsts) < |firsts| ==> firsts[FirstFailover(firsts)].mode.Failover?
  {
    if firsts != [] && firsts[0].mode.Fanout? {
      FirstFailoverIs(firsts[1..]);
    }
  }

  /** Each of the firsts is some provider's first use. */
  lemma SpotOfFirst(routes: seq<Route>, signal: Signal, answers: seq<Decision>, a: nat) returns (s: Spot)
    requires |answers| == |routes| && a < |Firsts(Uses(routes, signal, answers))|
    ensures IsFirstUse(routes, signal, answers, s)
    ensures Firsts(Uses(routes, signal, answers))[a] == Use(NameAt(routes, s), routes[s.i].mode)
  {
    var uses := Uses(routes, signal, answers);
    FirstsAreFirst(uses, a);
    var at := Place(uses, Firsts(uses)[a].name);
    s := SpotOf(routes, signal, answers, at);
    UseAt(routes, signal, answers, s);
    forall e: Spot | IsUse(routes, signal, answers, e) && e.Earlier(s) ensures NameAt(routes, e) != NameAt(routes, s) {
      EarlierIsOther(routes, signal, answers, s, e);
    }
  }

  lemma EarlierIsOther(routes: seq<Route>, signal: Signal, answers: seq<Decision>, s: Spot, e: Spot)
    requires |answers| == |routes| && IsUse(routes, signal, answers, s) && IsUse(routes, signal, answers, e)
    requires Place(Uses(routes, signal, answers), NameAt(routes, s)) == Offset(routes, signal, answers, s.i) + s.j
    requires e.Earlier(s)
    ensures NameAt(routes, e) != NameAt(routes, s)
  {
    var uses := Uses(routes, signal, answers);
    PlaceOfNew(uses, NameAt(routes, s));
    UseAt(routes, signal, answers, e);
    PlacesFollowSpots(routes, signal, answers, s, e);
    assert uses[Offset(routes, signal, answers, e.i) + e.j].name != NameAt(routes, s);
  }

  lemma SpotsFollowFirsts(routes: seq<Route>, signal: Signal, answers: seq<Decision>, s: Spot, e: Spot, a: nat, b: nat)
    requires |answers| == |routes| && IsFirstUse(routes, signal, answers, s) && IsFirstUse(routes, signal, answers, e)
    requires a < b < |Firsts(Uses(routes, signal, answers))|
    requires Firsts(Uses(routes, signal, answers))[a].name == NameAt(routes, s)
    requires Firsts(Uses(routes, signal, answers))[b].name == NameAt(routes, e)
    ensures s.Earlier(e)
  {
    FirstsInOrder(Uses(routes, signal, answers), a, b);
    FirstUseIsPlace(routes, signal, answers, s);
    FirstUseIsPlace(routes, signal, answers, e);
    PlacesFollowSpots(routes, signal, answers, e, s);
  }

  /* ----- whatever the severity ----- */

  lemma {:induction false} ListedAre(routes: seq<Route>, signal: Signal, name: string)
    ensures name in ListedAnySeverity(routes, signal) <==>
            exists i | 0 <= i < |routes| :: TakesAnySeverity(routes[i], signal) && name in routes[i].providers
  {
    if routes != [] {
      var init := routes[..|routes| - 1];
      ListedAre(init, signal, name);
      assert forall i | 0 <= i < |init| :: init[i] == routes[i];
    }
  }

  /** The providers of the routes that would take the signal at some severity. */
  lemma AnySeverityOnFields(routes: seq<Route>, signal: Signal, name: string)
    ensures name in Dedup(ListedAnySeverity(routes, signal)) <==>
            exists i | 0 <= i < |routes| :: TakesAnySeverity(routes[i], signal) && name in routes[i].providers
  {
    ListedAre(routes, signal, name);
    DedupIsDistinct(ListedAnySeverity(routes, signal));
  }

  lemma {:induction false} DedupGrows(a: seq<string>, b: seq<string>)
    ensures Dedup(a) <= Dedup(a + b)
  {
    if b == [] {
      assert a + b == a;
    } else {
      DedupGrows(a, b[..|b| - 1]);
      assert (a + b)[..|a + b| - 1] == a + b[..|b| - 1];
    }
  }

  /** What the routes after these list comes after what these do. */
  lemma {:induction false} ListedGrows(routes: seq<Route>, signal: Signal, n: nat)
    requires n <= |routes|
    ensures ListedAnySeverity(routes[..n], signal) <= ListedAnySeverity(routes, signal)
  {
    if n == |routes| {
      assert routes[..n] == routes;
    } else {
      ListedGrows(routes[..|routes| - 1], signal, n);
      assert routes[..|routes| - 1][..n] == routes[..n];
    }
  }

  lemma ListedUpTo(routes: seq<Route>, signal: Signal, n: nat, j: nat)
    requires n < |routes| && j <= |routes[n].providers| && TakesAnySeverity(routes[n], signal)
    ensures ListedAnySeverity(routes[..n], signal) + routes[n].providers[..j] <= ListedAnySeverity(routes, signal)
  {
    ListedGrows(routes, signal, n + 1);
    assert routes[..n + 1][..n] == routes[..n] && routes[..n + 1][n] == routes[n];
    var before := ListedAnySeverity(routes[..n], signal);
    assert before + routes[n].providers[..j] <= before + routes[n].providers;
  }

  lemma PrefixFirst(part: seq<string>, all: seq<string>, p: string, q: string)
    requires part <= all && p in part && q !in part && q in all
    ensures exists a, b | 0 <= a < b < |all| :: all[a] == p && all[b] == q
  {
    var a :| 0 <= a < |part| && part[a] == p;
    var b :| 0 <= b < |all| && all[b] == q;
    assert all[..|part|] == part && all[a] == p;
  }

  /** They stand in the order of the routes and of each route's list: a provider listed by
      route `n` at `j` stands before one that nothing up to there lists. */
  lemma AnySeverityInOrder(routes: seq<Route>, signal: Signal, n: nat, j: nat, q: string)
    requires n < |routes| && j < |routes[n].providers| && TakesAnySeverity(routes[n], signal)
    requires forall k | 0 <= k < n && TakesAnySeverity(routes[k], signal) :: q !in routes[k].providers
    requires q !in routes[n].providers[..j + 1]
    requires exists k | n <= k < |routes| :: TakesAnySeverity(routes[k], signal) && q in routes[k].providers
    ensures var names := Dedup(ListedAnySeverity(routes, signal));
            exists a, b | 0 <= a < b < |names| :: names[a] == routes[n].providers[j] && names[b] == q
  {
    var part := ListedAnySeverity(routes[..n], signal) + routes[n].providers[..j + 1];
    var all := ListedAnySeverity(routes, signal);
    ListedUpTo(routes, signal, n, j + 1);
    NotListedBefore(routes, signal, n, q);
    ListedAre(routes, signal, q);
    assert routes[n].providers[..j + 1][j] == routes[n].providers[j];
    FirstListedFirst(part, all, routes[n].providers[j], q);
  }

  lemma NotListedBefore(routes: seq<Route>, signal: Signal, n: nat, q: string)
    requires n <= |routes|
    requires forall k | 0 <= k < n && TakesAnySeverity(routes[k], signal) :: q !in routes[k].providers
    ensures q !in ListedAnySeverity(routes[..n], signal)
  {
    ListedAre(routes[..n], signal, q);
  }

  lemma FirstListedFirst(part: seq<string>, all: seq<string>, p: string, q: string)
    requires part <= all && p in part && q !in part && q in all
    ensures var names := Dedup(all); exists a, b | 0 <= a < b < |names| :: names[a] == p && names[b] == q
  {
    DedupGrows(part, all[|part|..]);
    assert part + all[|part|..] == all;
    DedupIsDistinct(part);
    DedupIsDistinct(all);
    PrefixFirst(Dedup(part), Dedup(all), p, q);
  }
}
