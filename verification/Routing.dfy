/** Planning where a signal goes (crates/core/src/routing.rs). */
module Routing {
  import opened Basics
  import opened Model
  import opened Throttle
  import D = Delivery

  /* ----- what becomes of each route ----- */

  datatype Fate = Unmatched | Suppressed | Held | Sending

  /** `answer` is what the throttle says; it counts only for a route that gates signals. */
  function FateOf(route: Route, signal: Signal, answer: Decision): Fate {
    if !route.rule.Matches(signal) then Unmatched
    else if route.GatesSignals() && !answer.Admitted? then Suppressed
    else if route.IsGrouped() then Held
    else Sending
  }

  function Describe(route: Route): string {
    "[" + D.Join(route.providers, ", ") + "]"
  }

  function SuppressedLine(route: Route, answer: Decision): string {
    "route " + Describe(route) + ": " + Reason(answer)
  }

  function HeldLine(route: Route): string {
    "route " + Describe(route) + ": held for a digest"
  }

  function Reason(answer: Decision): string {
    if answer.Duplicate? then "duplicate" else "rate limit reached"
  }

  function SuppressedLines(routes: seq<Route>, signal: Signal, answers: seq<Decision>): seq<string>
    requires |answers| == |routes|
  {
    if routes == [] then []
    else
      var n := |routes| - 1;
      var before := SuppressedLines(routes[..n], signal, answers[..n]);
      if FateOf(routes[n], signal, answers[n]) == Suppressed
      then before + [SuppressedLine(routes[n], answers[n])] else before
  }

  function HeldRoutes(routes: seq<Route>, signal: Signal, answers: seq<Decision>): seq<(nat, string)>
    requires |answers| == |routes|
  {
    if routes == [] then []
    else
      var n := |routes| - 1;
      var before := HeldRoutes(routes[..n], signal, answers[..n]);
      if FateOf(routes[n], signal, answers[n]) == Held
      then before + [(n, HeldLine(routes[n]))] else before
  }

  /* ----- the targets, stated without the loop ----- */

  datatype Use = Use(name: string, mode: DeliveryMode)

  function UsesOf(providers: seq<string>, mode: DeliveryMode): seq<Use> {
    if providers == [] then []
    else UsesOf(providers[..|providers| - 1], mode) + [Use(providers[|providers| - 1], mode)]
  }

  /** Every provider every sending route lists, in route order. */
  function Uses(routes: seq<Route>, signal: Signal, answers: seq<Decision>): seq<Use>
    requires |answers| == |routes|
  {
    if routes == [] then []
    else
      var n := |routes| - 1;
      var before := Uses(routes[..n], signal, answers[..n]);
      if FateOf(routes[n], signal, answers[n]) == Sending
      then before + UsesOf(routes[n].providers, routes[n].mode) else before
  }

  function NamesOf(uses: seq<Use>): seq<string> {
    if uses == [] then [] else NamesOf(uses[..|uses| - 1]) + [uses[|uses| - 1].name]
  }

  /** Each name once, where and how it is first used. */
  function Firsts(uses: seq<Use>): seq<Use> {
    if uses == [] then []
    else
      var before, last := Firsts(uses[..|uses| - 1]), uses[|uses| - 1];
      if last.name in NamesOf(before) then before else before + [last]
  }

  lemma NextUse(uses: seq<Use>, u: Use)
    ensures NamesOf(uses + [u]) == NamesOf(uses) + [u.name]
    ensures Firsts(uses + [u]) == if u.name in NamesOf(Firsts(uses)) then Firsts(uses) else Firsts(uses) + [u]
  {
    assert (uses + [u])[..|uses|] == uses;
  }

  predicate NoRepeats(uses: seq<Use>) {
    uses == [] || (NoRepeats(uses[..|uses| - 1]) && uses[|uses| - 1].name !in NamesOf(uses[..|uses| - 1]))
  }

  lemma {:induction false} FirstsNoRepeats(uses: seq<Use>)
    ensures NoRepeats(Firsts(uses))
  {
    if uses != [] {
      var init, last := uses[..|uses| - 1], uses[|uses| - 1];
      FirstsNoRepeats(init);
      assert (Firsts(init) + [last])[..|Firsts(init)|] == Firsts(init);
    }
  }

  lemma {:induction false} FirstsKeepName(uses: seq<Use>, name: string)
    ensures name in NamesOf(Firsts(uses)) <==> name in NamesOf(uses)
  {
    if uses != [] {
      var init, last := uses[..|uses| - 1], uses[|uses| - 1];
      FirstsKeepName(init, name);
      NextUse(Firsts(init), last);
    }
  }

  /** Where a provider is first used; past the end when it is not. */
  function Place(uses: seq<Use>, name: string): nat {
    if uses == [] then 0
    else
      var before := Place(uses[..|uses| - 1], name);
      if before < |uses| - 1 || uses[|uses| - 1].name == name then before else |uses|
  }

  /** Each provider comes with the mode of its first use, in the order of first uses. */
  lemma {:induction false} FirstsAreFirst(uses: seq<Use>, k: nat)
    requires k < |Firsts(uses)|
    ensures var u := Firsts(uses)[k];
            && Place(uses, u.name) < |uses| && uses[Place(uses, u.name)] == u
            && (k > 0 ==> Place(uses, Firsts(uses)[k - 1].name) < Place(uses, u.name))
  {
    var init, last := uses[..|uses| - 1], uses[|uses| - 1];
    if k < |Firsts(init)| {
      FirstsAreFirst(init, k);
    } else {
      FirstsKeepName(init, last.name);
      PlaceOfNew(init, last.name);
      if k > 0 {
        FirstsAreFirst(init, k - 1);
      }
    }
  }

  lemma {:induction false} PlaceOfNew(uses: seq<Use>, name: string)
    ensures Place(uses, name) <= |uses|
    ensures name !in NamesOf(uses) ==> Place(uses, name) == |uses|
    ensures forall i | 0 <= i < |uses| && i < Place(uses, name) :: uses[i].name != name
  {
    if uses != [] {
      PlaceOfNew(uses[..|uses| - 1], name);
      assert forall i | 0 <= i < |uses| - 1 :: uses[..|uses| - 1][i] == uses[i];
    }
  }

  /** Where the first failover provider is; past the end when there is none. */
  function FirstFailover(firsts: seq<Use>): (f: nat)
    ensures f <= |firsts|
  {
    if firsts == [] || firsts[0].mode.Failover? then 0 else 1 + FirstFailover(firsts[1..])
  }

  /** The fan-out providers, each a target of its own. */
  function Solos(uses: seq<Use>): seq<seq<string>> {
    if uses == [] then []
    else
      var before, last := Solos(uses[..|uses| - 1]), uses[|uses| - 1];
      if last.mode.Fanout? then before + [[last.name]] else before
  }

  /** The failover providers, one chain. */
  function Fallbacks(uses: seq<Use>): seq<string> {
    if uses == [] then []
    else
      var before, last := Fallbacks(uses[..|uses| - 1]), uses[|uses| - 1];
      if last.mode.Failover? then before + [last.name] else before
  }

  /** Fan-out providers in place; all failover ones in one chain where the first of them is. */
  function Targets(firsts: seq<Use>): seq<seq<string>> {
    var f := FirstFailover(firsts);
    if f == |firsts| then Solos(firsts) else Solos(firsts[..f]) + [Fallbacks(firsts)] + Solos(firsts[f..])
  }

  /** The plan, stated as a whole: the console stands in only when there is nothing else to say. */
  function PlanOf(routes: seq<Route>, signal: Signal, answers: seq<Decision>): D.Plan
    requires |answers| == |routes|
  {
    var targets := Targets(Firsts(Uses(routes, signal, answers)));
    var suppressed := SuppressedLines(routes, signal, answers);
    var grouped := HeldRoutes(routes, signal, answers);
    D.Plan(if targets == [] && suppressed == [] && grouped == [] then [["console"]] else targets, suppressed, grouped)
  }

  /* ----- one more use ----- */

  function Slot(firsts: seq<Use>): nat {
    |Solos(firsts[..FirstFailover(firsts)])|
  }

  lemma {:induction false} FirstFailoverGrows(firsts: seq<Use>, u: Use)
    ensures FirstFailover(firsts + [u])
         == if FirstFailover(firsts) < |firsts| || u.mode.Failover? then FirstFailover(firsts) else |firsts| + 1
  {
    if firsts != [] && firsts[0].mode.Fanout? {
      assert (firsts + [u])[1..] == firsts[1..] + [u];
      FirstFailoverGrows(firsts[1..], u);
    }
  }

  /** How the targets change when one more provider joins. */
  lemma AddUse(firsts: seq<Use>, u: Use)
    ensures FirstFailover(firsts) < |firsts| ==> Slot(firsts) < |Targets(firsts)|
    ensures Slot(firsts + [u])
         == if FirstFailover(firsts) < |firsts| || u.mode.Failover? then Slot(firsts) else Slot(firsts) + 1
    ensures Targets(firsts + [u])
         == if FirstFailover(firsts) < |firsts| && u.mode.Failover?
            then Targets(firsts)[Slot(firsts) := Targets(firsts)[Slot(firsts)] + [u.name]]
            else Targets(firsts) + [[u.name]]
    ensures FirstFailover(firsts) == |firsts| ==> Slot(firsts) == |Targets(firsts)|
  {
    FirstFailoverGrows(firsts, u);
    if FirstFailover(firsts) < |firsts| {
      AddAfterFailover(firsts, u);
    } else {
      AddBeforeFailover(firsts, u);
    }
  }

  lemma AddAfterFailover(firsts: seq<Use>, u: Use)
    requires FirstFailover(firsts) < |firsts| && FirstFailover(firsts + [u]) == FirstFailover(firsts)
    ensures Slot(firsts + [u]) == Slot(firsts) < |Targets(firsts)|
    ensures Targets(firsts + [u])
         == if u.mode.Failover? then Targets(firsts)[Slot(firsts) := Targets(firsts)[Slot(firsts)] + [u.name]]
            else Targets(firsts) + [[u.name]]
  {
    var more, f := firsts + [u], FirstFailover(firsts);
    assert more[..|firsts|] == firsts && more[..f] == firsts[..f];
    assert more[f..] == firsts[f..] + [u];
    assert (firsts[f..] + [u])[..|firsts[f..]|] == firsts[f..];
    Middle(Solos(firsts[..f]), Fallbacks(firsts), Solos(firsts[f..]), Fallbacks(firsts) + [u.name], [u.name]);
  }

  lemma Middle<T>(before: seq<T>, x: T, rest: seq<T>, y: T, z: T)
    ensures (before + [x] + rest)[|before|] == x
    ensures (before + [x] + rest)[|before| := y] == before + [y] + rest
    ensures before + [x] + (rest + [z]) == before + [x] + rest + [z]
  {
  }

  lemma AddBeforeFailover(firsts: seq<Use>, u: Use)
    requires FirstFailover(firsts) == |firsts|
    requires FirstFailover(firsts + [u]) == if u.mode.Failover? then |firsts| else |firsts| + 1
    ensures Slot(firsts) == |Targets(firsts)|
    ensures Slot(firsts + [u]) == if u.mode.Failover? then Slot(firsts) else Slot(firsts) + 1
    ensures Targets(firsts + [u]) == Targets(firsts) + [[u.name]]
  {
    var more, n := firsts + [u], |firsts|;
    assert firsts[..n] == firsts && more[..n] == firsts;
    if u.mode.Failover? {
      NoFallbacks(firsts);
      assert more[n..] == [u] && [u][..0] == [];
      assert Fallbacks(more) == [u.name] && Solos([u]) == [];
    } else {
      assert more[..n + 1] == more;
    }
  }

  lemma {:induction false} NoFallbacks(firsts: seq<Use>)
    requires FirstFailover(firsts) == |firsts|
    ensures Fallbacks(firsts) == []
  {
    if firsts != [] {
      var init, last := firsts[..|firsts| - 1], firsts[|firsts| - 1];
      assert firsts == init + [last];
      FirstFailoverGrows(init, last);
      NoFallbacks(init);
    }
  }

  ghost predicate InPlan(targets: seq<seq<string>>, name: string) {
    exists t, j | 0 <= t < |targets| && 0 <= j < |targets[t]| :: targets[t][j] == name
  }

  /** The targets name exactly the providers used, each at one place, and none is empty. */
  lemma {:induction false} TargetsAreDistinct(firsts: seq<Use>)
    requires NoRepeats(firsts)
    ensures D.Distinct(Targets(firsts))
    ensures forall name :: InPlan(Targets(firsts), name) <==> name in NamesOf(firsts)
    ensures forall t | 0 <= t < |Targets(firsts)| :: Targets(firsts)[t] != []
  {
    if firsts != [] {
      var init, u := firsts[..|firsts| - 1], firsts[|firsts| - 1];
      assert firsts == init + [u];
      TargetsAreDistinct(init);
      AddUse(init, u);
      JoinTargets(Targets(init), Targets(firsts), u.name,
                  if FirstFailover(init) < |init| && u.mode.Failover? then Slot(init) else |Targets(init)|);
    }
  }

  lemma JoinTargets(before: seq<seq<string>>, after: seq<seq<string>>, name: string, slot: nat)
    requires D.Distinct(before) && !InPlan(before, name) && slot <= |before|
    requires after == if slot < |before| then before[slot := before[slot] + [name]] else before + [[name]]
    ensures D.Distinct(after)
    ensures forall n :: InPlan(after, n) <==> InPlan(before, n) || n == name
  {
    forall n ensures InPlan(after, n) <==> InPlan(before, n) || n == name {
      if InPlan(before, n) {
        var t, j :| 0 <= t < |before| && 0 <= j < |before[t]| && before[t][j] == n;
        assert after[t][j] == n;
      }
      assert after[slot][|after[slot]| - 1] == name;
    }
    forall t, j, u, k | 0 <= t < |after| && 0 <= j < |after[t]| && 0 <= u < |after| && 0 <= k < |after[u]|
                        && after[t][j] == after[u][k]
      ensures t == u && j == k
    {
      var last := |after[slot]| - 1;
      assert (t == slot && j == last) || (t < |before| && j < |before[t]| && before[t][j] == after[t][j]);
      assert (u == slot && k == last) || (u < |before| && k < |before[u]| && before[u][k] == after[u][k]);
    }
  }

  /* ----- the loop ----- */

  method AddProvider(u: Use, ghost uses: seq<Use>, seen: seq<string>, targets: seq<seq<string>>, failover: Option<nat>)
    returns (seen': seq<string>, targets': seq<seq<string>>, failover': Option<nat>)
    requires Tracks(uses, seen, targets, failover)
    ensures Tracks(uses + [u], seen', targets', failover')
  {
    seen', targets', failover' := seen, targets, failover;
    NextUse(uses, u);
    if u.name in seen {
      return;
    }
    AddUse(Firsts(uses), u);
    FirstFailoverGrows(Firsts(uses), u);
    seen' := seen + [u.name];
    if u.mode.Fanout? {
      targets' := targets + [[u.name]];
    } else if failover.Some? {
      targets' := targets[failover.value := targets[failover.value] + [u.name]];
    } else {
      failover' := Some(|targets|);
      targets' := targets + [[u.name]];
    }
    NextUse(Firsts(uses), u);
  }

  lemma OneMoreUse(uses: seq<Use>, providers: seq<string>, mode: DeliveryMode, i: nat)
    requires i < |providers|
    ensures uses + UsesOf(providers[..i + 1], mode) == uses + UsesOf(providers[..i], mode) + [Use(providers[i], mode)]
  {
    assert providers[..i + 1][..i] == providers[..i];
  }

  /** Adds a sending route's providers. */
  method AddProviders(route: Route, ghost uses: seq<Use>, seen: seq<string>, targets: seq<seq<string>>,
      failover: Option<nat>)
    returns (seen': seq<string>, targets': seq<seq<string>>, failover': Option<nat>)
    requires Tracks(uses, seen, targets, failover)
    ensures Tracks(uses + UsesOf(route.providers, route.mode), seen', targets', failover')
  {
    seen', targets', failover' := seen, targets, failover;
    var i := 0;
    assert uses + UsesOf([], route.mode) == uses;
    while i < |route.providers|
      invariant 0 <= i <= |route.providers|
      invariant Tracks(uses + UsesOf(route.providers[..i], route.mode), seen', targets', failover')
    {
      ghost var before := uses + UsesOf(route.providers[..i], route.mode);
      var u := Use(route.providers[i], route.mode);
      seen', targets', failover' := AddProvider(u, before, seen', targets', failover');
      OneMoreUse(uses, route.providers, route.mode, i);
      i := i + 1;
    }
    assert route.providers[..i] == route.providers;
  }

  /** What the loop's variables hold once `uses` have been looked at. */
  ghost predicate Tracks(uses: seq<Use>, seen: seq<string>, targets: seq<seq<string>>, failover: Option<nat>) {
    var firsts := Firsts(uses);
    && seen == NamesOf(firsts)
    && targets == Targets(firsts)
    && failover == (if FirstFailover(firsts) < |firsts| then Some(Slot(firsts)) else None)
    && (failover.Some? ==> failover.value < |targets|)
  }

  /** What one more route adds. */
  lemma OneMoreRoute(routes: seq<Route>, signal: Signal, answers: seq<Decision>, n: nat)
    requires n < |routes| == |answers|
    ensures var fate := FateOf(routes[n], signal, answers[n]);
            && Uses(routes[..n + 1], signal, answers[..n + 1]) ==
               (var before := Uses(routes[..n], signal, answers[..n]);
                if fate == Sending then before + UsesOf(routes[n].providers, routes[n].mode) else before)
            && SuppressedLines(routes[..n + 1], signal, answers[..n + 1]) ==
               (var before := SuppressedLines(routes[..n], signal, answers[..n]);
                if fate == Suppressed then before + [SuppressedLine(routes[n], answers[n])] else before)
            && HeldRoutes(routes[..n + 1], signal, answers[..n + 1]) ==
               (var before := HeldRoutes(routes[..n], signal, answers[..n]);
                if fate == Held then before + [(n, HeldLine(routes[n]))] else before)
  {
    assert routes[..n + 1][..n] == routes[..n] && answers[..n + 1][..n] == answers[..n];
  }

  /** Plans a signal. `answers[i]` is what `admit` says about route `i`; it is
      looked at only for matching routes that gate signals. */
  method PlanWith(routes: seq<Route>, signal: Signal, answers: seq<Decision>) returns (plan: D.Plan)
    requires |answers| == |routes|
    ensures plan == PlanOf(routes, signal, answers)
  {
    var seen: seq<string> := [];
    var targets: seq<seq<string>> := [];
    var failover: Option<nat> := None;
    var suppressed: seq<string> := [];
    var grouped: seq<(nat, string)> := [];
    var i := 0;
    while i < |routes|
      invariant 0 <= i <= |routes|
      invariant Tracks(Uses(routes[..i], signal, answers[..i]), seen, targets, failover)
      invariant suppressed == SuppressedLines(routes[..i], signal, answers[..i])
      invariant grouped == HeldRoutes(routes[..i], signal, answers[..i])
    {
      OneMoreRoute(routes, signal, answers, i);
      var route := routes[i];
      if route.rule.Matches(signal) {
        if route.GatesSignals() && !answers[i].Admitted? {
          suppressed := suppressed + [SuppressedLine(route, answers[i])];
        } else if route.GroupWindow().Some? {
          grouped := grouped + [(i, HeldLine(route))];
        } else {
          ghost var uses := Uses(routes[..i], signal, answers[..i]);
          seen, targets, failover := AddProviders(route, uses, seen, targets, failover);
        }
      }
      i := i + 1;
    }
    assert routes[..i] == routes && answers[..i] == answers;
    if targets == [] && suppressed == [] && grouped == [] {
      targets := [["console"]];
    }
    plan := D.Plan(targets, suppressed, grouped);
  }

  /* ----- what the plan promises ----- */

  ghost predicate Lists(routes: seq<Route>, signal: Signal, answers: seq<Decision>, name: string)
    requires |answers| == |routes|
  {
    exists i | 0 <= i < |routes| :: FateOf(routes[i], signal, answers[i]) == Sending && name in routes[i].providers
  }

  lemma {:induction false} UsesAreListed(routes: seq<Route>, signal: Signal, answers: seq<Decision>, name: string)
    requires |answers| == |routes|
    ensures name in NamesOf(Uses(routes, signal, answers)) <==> Lists(routes, signal, answers, name)
  {
    if routes != [] {
      var n := |routes| - 1;
      UsesAreListed(routes[..n], signal, answers[..n], name);
      assert forall i | 0 <= i < n :: routes[..n][i] == routes[i] && answers[..n][i] == answers[i];
      NamesOfSum(Uses(routes[..n], signal, answers[..n]), UsesOf(routes[n].providers, routes[n].mode));
      NamesOfUses(routes[n].providers, routes[n].mode);
    }
  }

  lemma {:induction false} NamesOfSum(a: seq<Use>, b: seq<Use>)
    ensures NamesOf(a + b) == NamesOf(a) + NamesOf(b)
  {
    if b == [] {
      assert a + b == a;
    } else {
      assert (a + b)[..|a + b| - 1] == a + b[..|b| - 1];
      NamesOfSum(a, b[..|b| - 1]);
    }
  }

  lemma {:induction false} NamesOfUses(providers: seq<string>, mode: DeliveryMode)
    ensures NamesOf(UsesOf(providers, mode)) == providers
  {
    if providers != [] {
      var init, last := providers[..|providers| - 1], providers[|providers| - 1];
      NamesOfUses(init, mode);
      NextUse(UsesOf(init, mode), Use(last, mode));
    }
  }

  lemma {:induction false} NoLineNoRoute(routes: seq<Route>, signal: Signal, answers: seq<Decision>)
    requires |answers| == |routes|
    ensures SuppressedLines(routes, signal, answers) == [] <==>
            forall i | 0 <= i < |routes| :: FateOf(routes[i], signal, answers[i]) != Suppressed
    ensures HeldRoutes(routes, signal, answers) == [] <==>
            forall i | 0 <= i < |routes| :: FateOf(routes[i], signal, answers[i]) != Held
  {
    if routes != [] {
      var n := |routes| - 1;
      NoLineNoRoute(routes[..n], signal, answers[..n]);
      assert forall i | 0 <= i < n :: routes[..n][i] == routes[i] && answers[..n][i] == answers[i];
    }
  }

  /** Every plan: no provider twice, no empty target, and outside the console
      fallback exactly the providers of the sending routes. */
  lemma PlanIsSound(routes: seq<Route>, signal: Signal, answers: seq<Decision>)
    requires |answers| == |routes|
    ensures var plan := PlanOf(routes, signal, answers);
            && D.Distinct(plan.targets)
            && (forall t | 0 <= t < |plan.targets| :: plan.targets[t] != [])
            && forall name :: Lists(routes, signal, answers, name) ==> InPlan(plan.targets, name)
    ensures var plan := PlanOf(routes, signal, answers);
            (exists i | 0 <= i < |routes| :: FateOf(routes[i], signal, answers[i]) in {Suppressed, Held})
            || (exists name :: Lists(routes, signal, answers, name)) ==>
              forall name :: InPlan(plan.targets, name) ==> Lists(routes, signal, answers, name)
  {
    var firsts := Firsts(Uses(routes, signal, answers));
    FirstsNoRepeats(Uses(routes, signal, answers));
    TargetsAreDistinct(firsts);
    NoLineNoRoute(routes, signal, answers);
    forall name ensures InPlan(Targets(firsts), name) <==> Lists(routes, signal, answers, name) {
      FirstsKeepName(Uses(routes, signal, answers), name);
      UsesAreListed(routes, signal, answers, name);
    }
    if name :| Lists(routes, signal, answers, name) {
      assert InPlan(Targets(firsts), name);
    }
  }

  lemma NoTargetNoSender(routes: seq<Route>, signal: Signal, answers: seq<Decision>)
    requires |answers| == |routes| && forall i | 0 <= i < |routes| :: routes[i].providers != []
    ensures Targets(Firsts(Uses(routes, signal, answers))) == [] <==>
            forall i | 0 <= i < |routes| :: FateOf(routes[i], signal, answers[i]) != Sending
  {
    var targets := Targets(Firsts(Uses(routes, signal, answers)));
    FirstsNoRepeats(Uses(routes, signal, answers));
    TargetsAreDistinct(Firsts(Uses(routes, signal, answers)));
    forall name ensures InPlan(targets, name) <==> Lists(routes, signal, answers, name) {
      FirstsKeepName(Uses(routes, signal, answers), name);
      UsesAreListed(routes, signal, answers, name);
    }
    forall i | 0 <= i < |routes| && FateOf(routes[i], signal, answers[i]) == Sending ensures targets != [] {
      assert routes[i].providers[0] in routes[i].providers;
      assert InPlan(targets, routes[i].providers[0]);
    }
    if targets != [] {
      assert InPlan(targets, targets[0][0]);
    }
  }

  /** With provider lists that are not empty, as checked on loading, the console
      stands in exactly when no route matches: no signal disappears, and a
      suppressed one is not turned into a console line. */
  lemma ConsoleIffUnmatched(routes: seq<Route>, signal: Signal, answers: seq<Decision>)
    requires |answers| == |routes| && forall i | 0 <= i < |routes| :: routes[i].providers != []
    ensures Targets(Firsts(Uses(routes, signal, answers))) == [] && PlanOf(routes, signal, answers).targets != [] <==>
            forall i | 0 <= i < |routes| :: !routes[i].rule.Matches(signal)
    ensures (forall i | 0 <= i < |routes| :: !routes[i].rule.Matches(signal)) ==>
              PlanOf(routes, signal, answers) == D.Plan([["console"]], [], [])
    ensures PlanOf(routes, signal, answers).targets == [] ==>
              exists i | 0 <= i < |routes| :: FateOf(routes[i], signal, answers[i]) in {Suppressed, Held}
  {
    NoTargetNoSender(routes, signal, answers);
    NoLineNoRoute(routes, signal, answers);
  }

  /* ----- one route on its own, for a digest ----- */

  function Dedup(names: seq<string>): seq<string> {
    if names == [] then []
    else
      var before, last := Dedup(names[..|names| - 1]), names[|names| - 1];
      if last in before then before else before + [last]
  }

  function Singles(names: seq<string>): seq<seq<string>> {
    seq(|names|, i requires 0 <= i < |names| => [names[i]])
  }

  function RouteTargets(route: Route): seq<seq<string>> {
    match route.mode
    case Failover => [Dedup(route.providers)]
    case Fanout => Singles(Dedup(route.providers))
  }

  method TargetsOfRoute(route: Route) returns (targets: seq<seq<string>>)
    ensures targets == RouteTargets(route)
    ensures D.Distinct(targets)
  {
    var names: seq<string> := [];
    var i := 0;
    while i < |route.providers|
      invariant 0 <= i <= |route.providers|
      invariant names == Dedup(route.providers[..i])
    {
      assert route.providers[..i + 1][..i] == route.providers[..i];
      if route.providers[i] !in names {
        names := names + [route.providers[i]];
      }
      i := i + 1;
    }
    assert route.providers[..i] == route.providers;
    DedupIsDistinct(route.providers);
    targets := if route.mode.Failover? then [names] else Singles(names);
  }

  lemma {:induction false} DedupIsDistinct(names: seq<string>)
    ensures forall i, j | 0 <= i < j < |Dedup(names)| :: Dedup(names)[i] != Dedup(names)[j]
    ensures forall n :: n in Dedup(names) <==> n in names
  {
    if names != [] {
      DedupIsDistinct(names[..|names| - 1]);
      assert names == names[..|names| - 1] + [names[|names| - 1]];
    }
  }

  lemma {:induction false} FirstsOfOne(providers: seq<string>, mode: DeliveryMode)
    ensures Firsts(UsesOf(providers, mode)) == UsesOf(Dedup(providers), mode)
  {
    if providers != [] {
      var init, last := providers[..|providers| - 1], providers[|providers| - 1];
      FirstsOfOne(init, mode);
      assert UsesOf(providers, mode) == UsesOf(init, mode) + [Use(last, mode)];
      NextUse(UsesOf(init, mode), Use(last, mode));
      NamesOfUses(Dedup(init), mode);
      assert last !in Dedup(init) ==>
          UsesOf(Dedup(init) + [last], mode) == UsesOf(Dedup(init), mode) + [Use(last, mode)];
    }
  }

  lemma {:induction false} FanoutLayout(names: seq<string>)
    ensures Targets(UsesOf(names, Fanout)) == Singles(names)
  {
    if names != [] {
      var init, last := names[..|names| - 1], names[|names| - 1];
      FanoutLayout(init);
      AddUse(UsesOf(init, Fanout), Use(last, Fanout));
      assert Singles(names) == Singles(init) + [[last]];
    }
  }

  lemma {:induction false} FallbacksOfUses(names: seq<string>)
    ensures Fallbacks(UsesOf(names, Failover)) == names && Solos(UsesOf(names, Failover)) == []
    ensures names != [] ==> UsesOf(names, Failover) != [] && UsesOf(names, Failover)[0].mode == Failover
  {
    if names != [] {
      var init, last := names[..|names| - 1], Use(names[|names| - 1], Failover);
      FallbacksOfUses(init);
      assert (UsesOf(init, Failover) + [last])[..|UsesOf(init, Failover)|] == UsesOf(init, Failover);
      assert init == [] ==> UsesOf(init, Failover) == [];
    }
  }

  lemma FailoverLayout(names: seq<string>)
    requires names != []
    ensures Targets(UsesOf(names, Failover)) == [names]
  {
    var uses := UsesOf(names, Failover);
    FallbacksOfUses(names);
    assert FirstFailover(uses) == 0 && uses[..0] == [] && uses[0..] == uses;
    assert Solos([]) == [];
  }

  lemma OneRouteUses(route: Route, signal: Signal, answer: Decision)
    requires route.rule.Matches(signal) && !route.IsThrottled() && !route.IsGrouped()
    ensures Uses([route], signal, [answer]) == UsesOf(route.providers, route.mode)
  {
    OneMoreRoute([route], signal, [answer], 0);
    assert [route][..1] == [route] && [answer][..1] == [answer];
  }

  /** For a single route that is not gated or grouped, the plan and the route's own targets agree. */
  lemma OneRouteAgrees(route: Route, signal: Signal, answer: Decision)
    requires route.rule.Matches(signal) && !route.IsThrottled() && !route.IsGrouped() && route.providers != []
    ensures PlanOf([route], signal, [answer]).targets == RouteTargets(route)
  {
    OneRouteUses(route, signal, answer);
    FirstsOfOne(route.providers, route.mode);
    DedupIsDistinct(route.providers);
    assert route.providers[0] in Dedup(route.providers);
    if route.mode.Fanout? {
      FanoutLayout(Dedup(route.providers));
    } else {
      FailoverLayout(Dedup(route.providers));
    }
  }

  /* ----- providers whatever the severity ----- */

  /** Everything the routes that match apart from severity list, in order. */
  function ListedAnySeverity(routes: seq<Route>, signal: Signal): seq<string> {
    if routes == [] then []
    else
      var before, last := ListedAnySeverity(routes[..|routes| - 1], signal), routes[|routes| - 1];
      if last.rule.MatchesAnySeverity(signal) then before + last.providers else before
  }

  method ProvidersAnySeverity(routes: seq<Route>, signal: Signal) returns (names: seq<string>)
    ensures names == Dedup(ListedAnySeverity(routes, signal))
  {
    names := [];
    var i := 0;
    while i < |routes|
      invariant 0 <= i <= |routes|
      invariant names == Dedup(ListedAnySeverity(routes[..i], signal))
    {
      assert routes[..i + 1][..i] == routes[..i];
      if routes[i].rule.MatchesAnySeverity(signal) {
        ghost var listed := ListedAnySeverity(routes[..i], signal);
        var providers := routes[i].providers;
        var j := 0;
        assert listed + providers[..0] == listed;
        while j < |providers|
          invariant 0 <= j <= |providers|
          invariant names == Dedup(listed + providers[..j])
        {
          assert (listed + providers[..j + 1])[..|listed| + j] == listed + providers[..j];
          if providers[j] !in names {
            names := names + [providers[j]];
          }
          j := j + 1;
        }
        assert providers[..j] == providers;
      }
      i := i + 1;
    }
    assert routes[..i] == routes;
  }
}
