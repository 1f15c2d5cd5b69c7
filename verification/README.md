# OpsSignal's delivery engine, modelled and proved

OpsSignal turns an event into an alert and gets it to somebody: it plans where
a signal goes, holds it back when it repeats or comes too often, groups signals
into digests, retries and falls over between providers, and remembers which
alerts are open so that they can be closed. This project models that core in
Dafny and proves what it promises, together with the algorithms that build its
configuration out of files that extend each other.

Check everything with `dafny verify dfyconfig.toml`.

| file | what it models |
|---|---|
| `Throttle.dfy` | `dedup` and `rate_limit`: the pruned table of sends beside one that never prunes |
| `RouteLimits.dfy` | what a route's own `dedup` and `rate_limit` promise over whole runs |
| `Routing.dfy` | planning a signal's targets; a single route's own targets |
| `RoutePlans.dfy` | plans, said of the routes' own fields: who is told, and where each provider stands |
| `Planning.dfy` | planning with the throttle, who owns each recorded send, and taking sends back |
| `Delivery.dfy` | targets delivered at the same time, with retries and failover, and the result they fold into |
| `Outcomes.dfy` | what a delivery's record and result say about the providers' answers |
| `Groups.dfy` | the table of open groups |
| `Flushing.dfy` | callers, timers, flushes and sends interleaved around that table |
| `Rows.dfy` | the stored status of every signal, over every interleaving |
| `Stored.dfy` | the stored outcomes of one signal's providers, which all deliveries of it write |
| `Lifecycle.dfy` | the alert book, and where an acknowledge or resolve goes |
| `Chain.dfy`, `ChainOrder.dfy` | the walk over `extends`, and the order it takes roots and entries in |
| `Layers.dfy`, `Loading.dfy` | the merge of what a walk found, and what a config that loads promises of its routes |
| `Placeholders.dfy` | `${...}` in configuration text |
| `Sources.dfy` | naming a configuration source, printing it, and joining relative entries to it |
| `SourceForms.dfy` | the texts that name a source, written out, and what relative entries come to |
| `Windows.dfy` | windows such as `10m` |
| `Text.dfy`, `Model.dfy`, `Basics.dfy` | trimming and splitting text; signals and routes; option and result |

## How it is modelled

Objects that change are classes with the same fields (`Throttle.Throttle`,
`Throttle.Admission`, `Delivery.Tracker`, `Groups.OpenGroups`,
`Groups.InFlight`, `Lifecycle.AlertBook`, `Chain.Walk`); loops are loops. Each
method is tied to a function of the state it starts from, and the theorems are
about those functions, over whole runs. What such a function takes from a route,
a signal, an answer or a text is said once more without it, on their own fields:
that is what the modules `RouteLimits`, `RoutePlans`, `Outcomes`, `ChainOrder`,
`Loading` and `SourceForms` are for.

What runs at the same time is a machine whose steps are what happens under one
lock or in one transaction. A run is any sequence of steps that the locks
allow, so a theorem about runs is one about every interleaving. There are four:

* `Delivery.Run`: a step is one target reporting, calling, or hearing back from
  a provider, in any order among the targets. A provider is an oracle on its
  name and the attempt.
* `Flushing.After`: adds, timers, flushes and sends. A holder of the open-groups
  lock takes the guards of the groups it closes in steps of their own, during
  which other tasks still run; the proof that a flush misses nothing rests on
  the lock being held meanwhile.
* `Rows.After`: how each signal's stored row changes. Which members a group
  closes with is left entirely open, so every behaviour of the table in
  `Groups.dfy` is among these runs.
* `Stored.After`: any number of deliveries that write one signal's provider rows, its
  own and those of the groups it was held in. A step is one target's next, or the end of
  a delivery, which writes its whole result; only a delivery somebody waits for may end
  before its targets do. Every mixture of kinds is allowed, also such as never meet: a
  digest of many never writes beside the signal's own delivery.

Taken as given: hashes of routes, groups and dedup keys are injective (the model
uses what is hashed); a SQL transaction is atomic; and provider lists are not
empty and windows not zero, as loading checks. Nothing is assumed about the
throttle's times: its theorems are about every run, and say how much they give
away when attempts on a route are committed out of the order of their times.

## What the proofs found

* **A throttle's windows shrink by the lag.** The time of an attempt is read
  (`crates/core/src/lib.rs:654`) before the table is locked
  (`crates/core/src/throttle.rs:147`), so two callers can commit out of order
  though no clock steps back. If no attempt is more than `d` earlier than one
  committed before it on its route, all that is left of a window is the time that
  the route's rows are kept (its longer window) less `d`, where that is shorter than
  the window: `Throttle.ThrottleIsSafe`, `Throttle.DedupLagIsTight`,
  `Throttle.RateLagIsTight`. With `d` zero both windows hold in full:
  `Throttle.WindowsHoldInFull`.
* **64 files is really 71.** `docs/configuration.md:256` says that a chain loads
  at most 64 files. The code compares 64 with the files it has finished, not
  with those it is still reading, so the true bound is 71 and is reached:
  `Chain.FilesBound`, `Chain.SeventyOneFiles`. The model follows the code.
* **8 deep is 71 deep as well.** The same line says that a chain is at most 8 files
  deep. The check sees the files being read and is skipped for a finished one, so a
  chain through finished files can hold all 71: `Chain.DepthBound`,
  `Chain.SeventyOneDeep`. Whether eight is kept can be told from the graph before
  the walk, and from heights after it: `Chain.DepthKeptIffLow`,
  `Chain.HeightsTellDepth`.
* **Printing a source and reading it again can lose a space.** It gives the
  source back exactly when the printed form has no space at its ends; with
  parameters written in another order a space can end up there:
  `Sources.RoundTripIffTrimmed`, `Sources.TrailingSpaceIsLost`. The printed form
  is still a sound identity: `Sources.PrintedFormIdentifies`.
* **Two relative `extends` entries can print alike**, so the walk would take two
  files for one. It takes two sources of one form, Azure App Configuration or
  Firestore, whose keys keep a `?` that an entry holds. Of all the sources a walk may
  hold, two different ones are taken for one exactly when they are of one such form
  and store, their keys differ, and the keys with the sources' own parameters after
  them are the same text: `Sources.TakenForOneIffConfused`. One of the two can be a
  source that text names, and which joined entries print like such a one is told by
  their keys alone (`Sources.JoinClashesIffDisguised`,
  `Sources.QueryInReferenceClashes`); both can be joined entries that print like
  none (`Sources.JoinedEntriesClash`).
* **A digest that its limit holds back keeps its members' sends.** Nobody got those
  signals, but the next ones with their keys are still suppressed as duplicates, for
  the result is `skipped` and not `failed`: `Planning.HeldBackStaysSuppressed`,
  `Planning.HeldBackIsReached`.
* **A stored `delivered` can be lost.** Several deliveries write under one signal's id:
  its own, that of each group it turned out to be alone in, and, if it was not sent at
  once, that of each digest it is a member of, when the digest is over. A later one writes
  `pending` or `failed` over the `delivered` of an earlier one. For given deliveries, some
  answers and some order do this to a provider iff two of them name it:
  `Stored.LostIffShared`. Two groups are enough, where the signal's own plan does not name
  the provider or it has none. `Stored.DeliveredStaysUnlessShared`,
  `Stored.SharedCanBeLost`.
* **A late acknowledge reopens a resolved alert**: `Lifecycle.LateAcknowledgeReopens`.

## Model

| member | source | states |
|---|---|---|
| Throttle.PrunedIsKept | crates/core/src/throttle.rs:149-192 | over every run, in whatever order its times come, the table holds exactly the standing sends that no attempt admitted since on their history has outlived by its longest window |
| Throttle.InOrderOneCut | crates/core/src/throttle.rs:184-192 | when times come in order, that is the standing sends newer than their history's last cut |
| Throttle.PruningNeverShows | crates/core/src/throttle.rs:149-192 | at a time that no earlier attempt on the route is after, the pruned table decides what the sends that were never pruned decide, down to which of them a duplicate is blamed on |
| Throttle.SentIsFull | crates/core/src/throttle.rs:149-214 | when times come in order, a table that never prunes, deciding for itself all along, holds the same sends |
| Throttle.SameIffAlike | crates/core/src/throttle.rs:149-214 | in any run the two hold the same sends at every moment iff each attempt is let through by both or by neither |
| Throttle.RunIsClear | crates/core/src/throttle.rs:149-176 | every send still standing was clear of those before it in what the run's lag leaves of its windows, whatever was rejected, released or pruned in between |
| Throttle.ThrottleIsSafe | crates/core/src/throttle.rs:136-195 | in every run, of the sends never released, an interval as long as what its lag leaves of `per` holds at most `max` of a route, and two with one dedup key are what it leaves of the dedup window apart |
| Throttle.EveryRunHasALag | crates/core/src/throttle.rs:136-195 | every run has a lag, so the bound says something about each |
| Throttle.WindowsHoldInFull | crates/core/src/throttle.rs:136-195 | a run whose times come in order keeps both windows in full |
| Throttle.DedupLagIsTight | crates/core/src/throttle.rs:149-192 | on every route with `dedup` and for every lag that shows, a run repeats a key just when what is left of the window is over |
| Throttle.RateLagIsTight | crates/core/src/throttle.rs:165-192 | on every route with a rate limit and for every lag that shows, a run has one send too many in an interval one millisecond longer than what is left |
| Throttle.DecisionsAreExact | crates/core/src/throttle.rs:149-176 | in any run an attempt that no earlier one on its route is after is admitted iff the standing sends allow it, and a duplicate is blamed on the latest of them |
| Throttle.RejectionsAreJustified | crates/core/src/throttle.rs:149-176 | in any run at all, what is held back is forbidden by standing sends |
| Throttle.ReleaseUndoesAdmit | crates/core/src/throttle.rs:200-214 | admitting and releasing leaves the sends as they were and the table short of rows too old only, so decisions at times no attempt is after are as if neither had happened |
| Throttle.SplitPartitions | crates/core/src/throttle.rs:41-48 | splitting off a route's sends loses and copies none, and leaves none of that route behind |
| Throttle.Admission.SplitOff | crates/core/src/throttle.rs:41-48 | every noted send ends up on one side: with the split-off part if it is of the route's own history, and else with the signal |
| Throttle.Throttle.TryAdmit | crates/core/src/throttle.rs:136-195 | decides on the table as it was, and on admission adds the send and drops the rows too old to matter |
| Throttle.Throttle.Check | crates/core/src/throttle.rs:110-134 | one attempt on the table; exactly an admitted send is noted for taking back, and a route without limits leaves no trace |
| Throttle.Throttle.ReleaseAll | crates/core/src/throttle.rs:200-214 | takes back each given send once, one row per send |
| Throttle.ReleaseTakesOneEach | crates/core/src/throttle.rs:200-214 | releasing takes out one equal row for each given send that has one, and nothing else |
| RouteLimits.RouteKeepsRateLimit | crates/core/src/throttle.rs:74-93 | in every run, no interval of a one-by-one route's own `per`, less what the lag takes, holds more than its own `max` of its sends, with `dedup` or without |
| RouteLimits.DigestsKeepRateLimit | crates/core/src/throttle.rs:99-108 | and so for the digests of every route with a `rate_limit` |
| RouteLimits.RouteKeepsDedup | crates/core/src/throttle.rs:74-93 | on every route with `dedup`, two sends with one key are its own window apart, less what the lag takes |
| RouteLimits.SignalDecidedByFields | crates/core/src/throttle.rs:149-176 | at a time no earlier attempt is after, a signal is a duplicate iff the route has `dedup` and its key was sent within it, and else turned down for its rate iff the route sends one by one, has a limit, and as many sends stand within `per`; a grouped route never does that |
| RouteLimits.DigestDecidedByFields | crates/core/src/throttle.rs:99-108 | a digest is never a duplicate, and turned down iff the route has a limit and as many digests stand within `per` |
| RouteLimits.AnsweredByFields | crates/core/src/lib.rs:648-663 | while a signal is planned, in any run, each route that has to ask is answered so, for the signal's own key and after the attempts of the routes before it |
| Routing.AddProvider | crates/core/src/routing.rs:341-354 | the loop's variables go on describing the targets of all uses so far |
| Routing.PlanWith | crates/core/src/routing.rs:307-365 | the loop computes the plan that is stated without it: fan-out providers in place, all failover ones in one chain where the first of them is |
| Routing.TargetsAreDistinct | crates/core/src/routing.rs:315-354 | the targets name each provider used exactly once, nobody else, and none is empty |
| Routing.FirstsAreFirst | crates/core/src/routing.rs:341-354 | each provider gets the mode of its first use, and they stand in the order of their first uses |
| Routing.PlanIsSound | crates/core/src/routing.rs:307-365 | every plan is free of duplicates and, but for the console, names exactly the providers of the sending routes |
| Routing.ConsoleIffUnmatched | crates/core/src/routing.rs:357-364 | the console stands in exactly when no route matches, and a plan without targets had a route that suppressed or held the signal |
| Routing.TargetsOfRoute | crates/core/src/routing.rs:111-122 | a route's own targets, without duplicates |
| Routing.OneRouteAgrees | crates/core/src/routing.rs:111-122 | for one route that is not gated or grouped, planning and the route's own targets agree |
| Routing.DedupIsDistinct | crates/core/src/routing.rs:111-122 | the same names, each once |
| Routing.ProvidersAnySeverity | crates/core/src/routing.rs:263-277 | the providers of the routes that match whatever the severity, each once |
| RoutePlans.ToldOnFields | crates/core/src/routing.rs:307-365 | who is told is whoever a route lists that matches on its fields, is not turned down and is not grouped; nobody else but the console, and that only when no route has anything to say |
| RoutePlans.LinesOnFields | crates/core/src/routing.rs:319-341 | one line for each route that turned the signal down, and one entry, in order, for each that holds it |
| RoutePlans.UntakenGoesToConsole | crates/core/src/routing.rs:357-359 | a signal that no route matches on its fields goes to the console alone |
| RoutePlans.FanoutStandsAlone | crates/core/src/routing.rs:341-354 | a provider first listed by a fan-out route is a target of its own |
| RoutePlans.FailoverIsOneChain | crates/core/src/routing.rs:341-354 | those first listed by failover routes share one target, in the order of their first listings |
| RoutePlans.TargetsInOrder | crates/core/src/routing.rs:341-354 | targets stand in the order of first listings, the chain where its first provider is |
| RoutePlans.AnySeverityOnFields | crates/core/src/routing.rs:263-277 | the providers whatever the severity are those of the routes whose other fields match |
| RoutePlans.AnySeverityInOrder | crates/core/src/routing.rs:263-277 | they stand in the order of the routes and of each route's list, by their first listing |
| Planning.PlanSignal | crates/core/src/lib.rs:648-663 | one pass asks the throttle for each gated matching route, each seeing what those before recorded, and plans with the answers |
| Planning.NotedAreAdmitted | crates/core/src/throttle.rs:110-134 | the sends noted for a signal are exactly those of the gated routes that were admitted |
| Planning.NothingNotedUnlessPlanned | crates/core/src/lib.rs:400-412 | a plan with nothing to send and nothing to hold has no send to take back |
| Planning.Hold | crates/core/src/lib.rs:417-436 | each held route's member takes its route's sends along, in order |
| Planning.EachSendHasOneOwner | crates/core/src/lib.rs:425-436 | after holding, every noted send belongs to one member or to the signal, so none is taken back twice |
| Planning.RestIsUnheld | crates/core/src/throttle.rs:41-48 | the signal keeps exactly the sends of the routes that do not hold it |
| Planning.ShareIsOfRoute | crates/core/src/throttle.rs:41-48 | a member owns only its own route's sends |
| Planning.UnsentKeepsNothing | crates/core/src/lib.rs:400-436 | a signal that nothing is sent of at once, and that is never settled itself, keeps no send of its own once it is held |
| Planning.Settle | crates/core/src/lib.rs:668-672 | takes the sends back on failure and only then |
| Planning.SettleGroup | crates/core/src/lib.rs:715-719 | a digest's own send and all its members' are settled one way |
| Planning.ReleasedIffNobodyGotIt | crates/core/src/lib.rs:668-672 | for every signal sent at once, interleaving and cut, its sends are taken back iff there was a target and no provider was reached, and else none are |
| Planning.GroupReleasedIffNobodyGotIt | crates/core/src/lib.rs:679-719 | for every closed group, its own send and its members' are taken back iff its digest was let through and nobody was reached |
| Planning.SendGroup | crates/core/src/lib.rs:679-719 | asks the route's limit for the digest, delivers it, and settles: the table loses the group's sends iff it was let through and no provider of the route accepts |
| Planning.HeldBackStaysSuppressed | crates/core/src/lib.rs:692-719 | a digest held back leaves the table as it was, so a member's key stays suppressed until its window is over though nobody got it |
| Planning.HeldBackIsReached | crates/core/src/throttle.rs:99-108 | on every grouped route with `dedup` and a rate limit, a run ends in a table where that happens |
| Planning.PlanningIsARun | crates/core/src/lib.rs:648-663 | planning is a run of throttle attempts, so the theorems about runs hold of it |
| Planning.SettlingIsARun | crates/core/src/throttle.rs:200-214 | taking back is a run of releases |
| Delivery.RunKeeps | crates/core/src/lib.rs:826-873 | in every interleaving each target is on course and what is on record of its providers is what its own progress says |
| Delivery.NeverResent | crates/core/src/lib.rs:826-873 | a provider is sent a plan at most three times, never after it accepted, and only once every registered one before it in its target refused three times |
| Delivery.FairRunEnds | crates/core/src/lib.rs:811-873 | a target given more than seven turns per provider is done, whoever else runs |
| Delivery.LastDecides | crates/core/src/lib.rs:901-917 | at any point of any run, the provider tried last says whether the target has the signal |
| Delivery.CutAnywhereIsSound | crates/core/src/lib.rs:878-944 | cut off anywhere, `delivered` means every target has it, `failed` that none has, `partial` the rest |
| Delivery.DeliveriesAreTried | crates/core/src/lib.rs:887-918 | each entry of the result is the record of a provider of the plan |
| Delivery.DeliveredStaysDelivered | crates/core/src/lib.rs:510-520 | a provider on record as delivered is listed so in the result, cut off or not |
| Delivery.GroupedOnlyWhenHeld | crates/core/src/lib.rs:921-934 | only an empty plan with a group waiting reads `grouped`, and no result reads `pending` |
| Delivery.ScheduleDoesNotMatter | crates/core/src/lib.rs:811-823 | all complete interleavings leave the same record of every provider and give the same result |
| Delivery.SettledNames | crates/core/src/lib.rs:901-917 | a finished delivery names, per target, the first registered provider that accepts one of three attempts |
| Delivery.SettledFails | crates/core/src/lib.rs:921-934 | a finished delivery failed iff there were targets and nobody accepted |
| Delivery.Summarize | crates/core/src/lib.rs:878-944 | the loop over the targets gives the result that is stated without it |
| Delivery.CollectTried | crates/core/src/lib.rs:887-900 | collects a target's providers on record in order, a pending one cut off as failed |
| Delivery.Tracker.Report | crates/core/src/lib.rs:789-798 | one entry per provider: the newest replaces the old one where it stood |
| Delivery.Tracker.DeliverChain | crates/core/src/lib.rs:826-873 | leaves on record what its own chain should leave, and nothing about anybody else |
| Delivery.Tracker.Attempt | crates/core/src/lib.rs:842-871 | the retry loop: ends with success on record, or with failure after the third refusal |
| Delivery.Tracker.Deliver | crates/core/src/lib.rs:811-823 | targets one after another give the very result of every complete concurrent run |
| Outcomes.RecordIsTrue | crates/core/src/lib.rs:826-873 | at any moment of any run a provider's record is true: `delivered` with the attempt it accepted and the reference it returned then, `failed` after three refusals with the words of the third, else `pending`, and nothing before it is sent anything |
| Outcomes.EndedRecordIsWhole | crates/core/src/lib.rs:826-873 | once delivery has ended, exactly the registered providers before which all others refused three times are on record, and each is `failed` iff it refused three times |
| Outcomes.AttemptsAreMost | crates/core/src/lib.rs:878-919 | a result's attempts are the most that any target's last provider took |
| Outcomes.EachTargetSpeaks | crates/core/src/lib.rs:878-919 | each target is named or complained of once, in the plan's order, by its provider tried last |
| Groups.AddKeeps | crates/core/src/group.rs:95-128 | open groups keep 1 to 499 members who share their values; a group leaves full at exactly 500; a new one gets a new number |
| Groups.SameKeyIffAgree | crates/core/src/group.rs:156-215 | two signals have one key on a route iff they agree on every field it groups by, each signal field and metadata path spelled out |
| Groups.JoinsWhereItBelongs | crates/core/src/group.rs:95-113 | a member joins the open group of its route whose members it agrees with, which closes iff it then has 500, and leaves every other alone |
| Groups.OpensWhenItBelongsToNone | crates/core/src/group.rs:114-127 | a member that agrees with none opens a group, to be sent after `group_wait` or else 30 seconds |
| Groups.AddConserves | crates/core/src/group.rs:95-128 | an added member is open or in the group that closed, and no other member moves |
| Groups.TakeConserves | crates/core/src/group.rs:132-138 | what a timer takes is what leaves the table |
| Groups.DrainConserves | crates/core/src/group.rs:141-144 | what a flush takes is everything that was open, each member once |
| Groups.OpenGroups.Add | crates/core/src/group.rs:95-128 | one atomic add, and a group it fills is counted in flight at once |
| Groups.OpenGroups.Take | crates/core/src/group.rs:132-138 | closes the group only while it has the number the timer was started for |
| Groups.OpenGroups.TakeAll | crates/core/src/group.rs:141-153 | closes every open group once and counts each |
| Flushing.CountedKept | crates/core/src/inflight.rs:18-51 | in every step the count is the number of sends and direct deliveries not finished |
| Flushing.ConservedKept | crates/core/src/group.rs:95-153 | every member ever added is in exactly one place: open, closing, being sent or sent |
| Flushing.TimedKept | crates/core/src/lib.rs:439-448 | every open group has a timer for its own key and number, started or owed by its caller |
| Flushing.RunIsSound | crates/core/src/group.rs:95-153 | in every reachable state: group sizes and values, conservation, the count, and timers |
| Flushing.GroupsAreOfOneMind | crates/core/src/group.rs:95-153 | in every reachable state any two members of a group, open, closed or being sent, agree on every field their route groups by |
| Flushing.StaleTimerClosesNothing | crates/core/src/group.rs:130-138 | once a number's group is closed, its timer closes nothing for ever, though another group may be open under the key |
| Flushing.TimersWillClose | crates/core/src/lib.rs:439-448 | an open group's timer, when it fires, closes that group and no other |
| Flushing.CoveredFromStart | crates/core/src/group.rs:141-153 | from a flush's start on, what was added or started before it is counted or finished, or still in that flush's hands |
| Flushing.FlushMissesNothing | crates/core/src/lib.rs:364-369 | if a flush returns true, every member added and every direct send started before it has finished sending, in every interleaving |
| Rows.RunIsSound | crates/core/src/lib.rs:400-451 | in every reachable state rows fit where their callers are, members of groups were settled before they joined and own their row iff they are not sent at once, and no digest is decided as held |
| Rows.GroupedIsAwaited | crates/core/src/lib.rs:400-451 | in every reachable state a row reads `grouped` only while its caller is about to join a group or a group has the signal and will write it |
| Rows.QuietMeansSettled | crates/core/src/lib.rs:679-732 | once all is quiet no row is left `pending` or `grouped` |
| Rows.OutcomesAreFinal | crates/core/src/lib.rs:679-732 | a row goes from `pending` to `grouped` to an outcome and never back |
| Rows.OwnOutcomeStays | crates/core/src/lib.rs:333-357 | a signal also sent at once keeps its own delivery's outcome, whatever digests it is in |
| Rows.StepNeverGoesBack | crates/core/src/lib.rs:724-731 | no single step takes a row back |
| Rows.RowIsLastWrite | crates/core/src/lib.rs:724-731 | in every run the row of a signal not sent at once reads the outcome of the last digest that wrote it |
| Rows.OutcomeWasDecided | crates/core/src/lib.rs:713-731 | and that outcome is the status of a delivery's result |
| Rows.RowBeforeAnyWrite | crates/core/src/lib.rs:400-413 | until one wrote it, it reads `pending` and then `grouped` if a group has it and `skipped` if none has |
| Stored.RowsFollow | crates/core/src/lib.rs:679-732 | in every run of any number of deliveries of one signal, a provider that only one of them names has that one's record stored: as it goes if it reports under the signal's id, otherwise from its end on, and as a cut leaves it if it was cut off |
| Stored.ResultFinds | crates/core/src/sink.rs:160-171 | writing a whole result makes each provider's row its record as the cut leaves it, and changes no row of a provider without a record |
| Stored.DeliveredStaysUnlessShared | crates/core/src/lib.rs:789-798 | however many deliveries there are, a provider that no two of them name keeps a stored `delivered` through the rest of the run |
| Stored.SharedCanBeLost | crates/core/src/lib.rs:679-732 | for any two deliveries, of any kinds and beside any others, and every provider that both name, a run stores the first's `delivered` and ends with both over and `failed` stored |
| Stored.LostIffShared | crates/core/src/lib.rs:679-732 | some answers and some order lose a stored `delivered` of a provider iff two deliveries name it |
| Lifecycle.AlertBook.Record | crates/core/src/lifecycle.rs:96-143 | the loop writes one event per delivered outcome, in order, and so leaves the table as the delivery says |
| Lifecycle.RecordsDelivery | crates/core/src/lifecycle.rs:96-152 | said of the signal and the result: each delivered trigger leaves its provider's row open with the reference returned and the signal's title, each delivered acknowledge or resolve moves the state of an existing row and nothing else, every other row stays as and where it is, and only triggers add rows, at the end and in the order of delivery |
| Lifecycle.BookIsHistory | crates/core/src/lifecycle.rs:96-143 | after any records the table is exactly what their history says, row by row and in order |
| Lifecycle.OpenIffHistory | crates/core/src/lifecycle.rs:70-90 | a provider is open for a key iff it was triggered and its last recorded action is no resolve; reference and title are the last trigger's |
| Lifecycle.OpenInOrder | crates/core/src/lifecycle.rs:70-90 | open alerts are listed in the order of their rows |
| Lifecycle.LateAcknowledgeReopens | crates/core/src/lifecycle.rs:146-152 | an acknowledge after a resolve makes the provider open again |
| Lifecycle.ClosesOnlyWhatIsOpen | crates/core/src/lib.rs:592-626 | each configured provider with the alert open is told; one that does not resolve by key is told only then |
| Lifecycle.LifecyclePlanIsDistinct | crates/core/src/lib.rs:592-626 | a lifecycle plan names no provider twice |
| Lifecycle.KeyLookedUpIsKeyRecorded | crates/core/src/signal.rs:227-282 | for every accepted input the key looked up before the defaults is the key recorded after them |
| Lifecycle.SameKeyIffSameFields | crates/core/src/signal.rs:195-205 | without bars in the first three, two inputs are given one key iff source, type, title and environment agree |
| Lifecycle.AcceptedOnFields | crates/core/src/signal.rs:227-252 | an input is accepted iff it is an acknowledge or resolve with a key that is not blank, or else source, type and title are not |
| Lifecycle.FilledCanBeSent | crates/core/src/signal.rs:254-273 | filling the defaults makes an accepted acknowledge or resolve one that could be sent, and keeps what it said |
| Chain.VisitIsSound | crates/core/src/chain.rs:108-160 | from any good state, a visit ends in a good state that lists the file, or in a fault that is true of the graph |
| Chain.Walk.Visit | crates/core/src/chain.rs:108-160 | ends on every graph, finite or not; the recursion in place does what the visit stated on values does |
| Chain.Walk.Run | crates/core/src/chain.rs:61-75 | all roots in turn, or the first fault |
| Chain.WalkFlattens | crates/core/src/chain.rs:61-75 | the order lists exactly the files reachable from the roots, each once, every parent before its child |
| Chain.AncestorsStandBefore | crates/core/src/chain.rs:143-157 | whatever a file extends, however far up, stands before it: what was walked has no cycle |
| ChainOrder.EarlierRootsFirst | crates/core/src/chain.rs:61-75 | every file that the first `i` roots lead to stands before every file that they do not |
| ChainOrder.EarlierEntriesFirst | crates/core/src/chain.rs:143-146 | every file that the first `i` entries of a file lead to stands before every file that they do not and that is reached through that file only |
| Chain.WalkFaultsAreReal | crates/core/src/chain.rs:117-135 | a reported cycle is one, a chain called too deep is that deep, and one file too many is reachable with 64 others |
| Chain.FilesBound | crates/core/src/chain.rs:131-135 | a walk loads at most 71 files, and at most 64 iff counting files being read as well would have let it through |
| Chain.SeventyOneFiles | crates/core/src/chain.rs:131-135 | 71 is reached |
| Chain.DepthBound | crates/core/src/chain.rs:123-130 | no chain of a walk that succeeds is longer than the number of its files, so at most 71 |
| Chain.SeventyOneDeep | crates/core/src/chain.rs:123-130 | a chain of 71 is reached |
| Chain.HeightIsDepth | crates/core/src/chain.rs:143-157 | a file's height, from one pass over the order, is the length of its longest chain |
| Chain.DepthKeptIffLow | crates/core/src/chain.rs:123-130 | on every graph, the chains from the roots keep to eight files iff a look eight entries deep finds no more |
| Chain.LowIffShallow | crates/core/src/chain.rs:123-130 | the same for any file and depth |
| Chain.HeightsTellDepth | crates/core/src/chain.rs:123-130 | after a walk that succeeds, they do iff the roots' heights are at most eight |
| Layers.Merge | crates/core/src/config.rs:474-508 | the fold gives the merge that is stated without it, with each route's origin |
| Layers.MergeIsUnique | crates/core/src/config.rs:474-508 | that statement leaves nothing open |
| Layers.LastSetIsLast | crates/core/src/config.rs:480-491 | what a layer sets of a provider is decided by that layer or a later one: the last that sets it |
| Layers.LastStorageIsLast | crates/core/src/config.rs:489-491 | and so with the storage |
| Layers.NeverSetIsUnset | crates/core/src/config.rs:477-491 | what no layer sets is unset, and the storage then the default |
| Layers.PlacesAreReal | crates/core/src/config.rs:492-498 | each merged route's recorded origin is a real place |
| Layers.PlacesAreAll | crates/core/src/config.rs:492-498 | no layer's route is lost |
| Layers.PlacesAreOrdered | crates/core/src/config.rs:492-498 | later layers' routes come first, and a layer's own stay in order |
| Layers.PlacesAreOnce | crates/core/src/config.rs:492-498 | no route comes twice |
| Layers.ChildBeatsParent | crates/core/src/chain.rs:87-98 | after any walk that succeeds, a file stands after everything it extends; each provider and the storage it sets are decided by the last file that sets them, itself or a later one; and its routes come first |
| Layers.LaterRootBeatsEarlier | crates/core/src/chain.rs:61-98 | a file of a later root beats what earlier roots lead to: what it sets is decided by it or a later file, its routes come first, and where it alone of the later roots' files sets a provider, its value stands |
| Layers.LaterEntryBeatsEarlier | crates/core/src/chain.rs:87-146 | and so for a later entry of one file |
| Loading.LoadsIffUsable | crates/core/src/config.rs:566-609 | a merged config passes iff each route lists providers that are set up, its windows and limits are above zero, and it groups by signal fields or metadata paths without empty parts |
| Loading.CheckedFieldsTellApart | crates/core/src/group.rs:175-181 | every field that a config may group by tells some two signals apart |
| Layers.FromLayers | crates/core/src/config.rs:474-508 | the merged config when every route is usable, else the origin of the first that is not |
| Placeholders.PiecesMakeTheText | crates/core/src/config.rs:641-657 | the literals and names make up the text again |
| Placeholders.CutsExactly | crates/core/src/config.rs:641-657 | a text can be cut iff it is made up of literals without an opening mark and names that are not empty and hold no closing one, in turn, and those are its pieces |
| Placeholders.OneIsFilled | crates/core/src/config.rs:659-684 | a name is replaced by its secret if it holds a colon and by its variable if not, and without one the text fails |
| Placeholders.MarkIsThere | crates/core/src/config.rs:659-680 | searching again for a listed name's placeholder finds it where it was cut |
| Placeholders.ListNames | crates/core/src/config.rs:641-657 | lists the names of the pieces, in order, or their fault |
| Placeholders.SearchedIsWhole | crates/core/src/config.rs:659-684 | every listed name is found when searched for again, and what that gives is one left-to-right substitution whose values are not looked at again |
| Placeholders.Interpolate | crates/core/src/config.rs:659-684 | the loop gives that substitution, or the fault of the first name without a value |
| Placeholders.SecretsAreThoseLookedUp | crates/core/src/config.rs:95-123 | the secrets listed, each once, are those interpolation needs: it succeeds iff they and the variables are there |
| Placeholders.EveryTextIsFilled | crates/core/src/config.rs:616-638 | a document that can be filled in keeps its shape: at every place the same keys, tags, lengths and other values, and each text with its placeholders filled in |
| Placeholders.FilledIffEachIs | crates/core/src/config.rs:616-638 | it can be filled in iff each of its texts can |
| Sources.SplitQuery | crates/core/src/source.rs:644-670 | the loop splits text into its path and each allowed parameter's value |
| Sources.QueryRoundTrip | crates/core/src/source.rs:672-681 | a written query reads back |
| Sources.QueryOrderDoesNotMatter | crates/core/src/source.rs:644-670 | two parameters read alike in either order |
| Sources.ParsedIsNameable | crates/core/src/source.rs:172-289 | what parses is nameable, and its printed form is as long as the text it was read from |
| Sources.PrintReadsBack | crates/core/src/source.rs:119-167 | read without trimming, each printed source is itself, over all ten forms |
| Sources.PrintIsInjective | crates/core/src/source.rs:119-167 | no two nameable sources print alike |
| Sources.RoundTripIffTrimmed | crates/core/src/source.rs:172-175 | for every text that parses, printing and parsing gives the source back iff the printed form has no space at its ends |
| Sources.TrailingSpaceIsLost | crates/core/src/source.rs:172-175 | texts for which it does not |
| Sources.PrintedFormIdentifies | crates/core/src/source.rs:119-167 | no two sources that text names print alike, so the walk's visited key tells them apart |
| SourceForms.ObjectReads | crates/core/src/source.rs:174-185 | what the texts of the three object stores read as |
| SourceForms.ProfileReads | crates/core/src/source.rs:186-203 | what the text of a configuration profile reads as |
| SourceForms.SettingReads | crates/core/src/source.rs:204-208 | what the text of a setting reads as, with or without a label |
| SourceForms.ItemReads | crates/core/src/source.rs:209-224 | what the text of a table's item reads as, with any of its parameters |
| SourceForms.DocumentReads | crates/core/src/source.rs:225-240 | what the text of a document reads as, with any of its parameters |
| SourceForms.ContainerItemReads | crates/core/src/source.rs:241-263 | what the text of a container's item reads as, with any of its parameters |
| SourceForms.PlainHttpIsLocal | crates/core/src/source.rs:267-283 | text after `http://` reads iff its host, up to a port or path, is the local one |
| SourceForms.BracketedHttpIsLocal | crates/core/src/source.rs:267-283 | and a host in brackets iff it is `::1` |
| SourceForms.OtherTexts | crates/core/src/source.rs:282-288 | any other text is a local path, unless it looks like a scheme |
| Sources.JoinKey | crates/core/src/source.rs:456-478 | walking a reference from a key's folder, in place, gives the joined key or fails above the top |
| SourceForms.NameIsSibling | crates/core/src/source.rs:456-478 | a bare name is a file of the same folder |
| SourceForms.DotStays | crates/core/src/source.rs:456-478 | a dot or nothing before a slash goes nowhere |
| SourceForms.DotsGoUp | crates/core/src/source.rs:456-478 | two dots go to the folder above |
| SourceForms.DotsStopAtTop | crates/core/src/source.rs:456-478 | as far as the top, and there is none above it |
| SourceForms.NameGoesDown | crates/core/src/source.rs:456-478 | a name before a slash goes into that folder |
| SourceForms.EndsAtFolder | crates/core/src/source.rs:456-478 | a reference that ends without a name is the folder it has come to, if it is in one |
| SourceForms.EntryStaysInStore | crates/core/src/source.rs:334-454 | a relative entry stays in its store; a sibling item does not take over the partition key |
| Sources.JoinStaysNameable | crates/core/src/source.rs:334-442 | from every source a walk may hold, joins give another of that form; it is nameable iff its key is not empty and, for the two forms that resolve paths and have a query, holds no `?` |
| Sources.NameableIsKept | crates/core/src/source.rs:172-289 | every source that text names is among those a walk may hold |
| Sources.CleanEntryJoinsClean | crates/core/src/source.rs:456-478 | an entry without `?` joins to a key without one iff the folders of the base's key that stay hold none |
| Sources.TakenForOneIffConfused | crates/core/src/source.rs:119-167 | of all sources a walk may hold, joined ones on both sides included, two different ones print alike iff they are of one of two forms and one store, their keys differ, and the keys read on alike with the parameters |
| Sources.JoinedEntriesClash | crates/core/src/source.rs:334-442 | joined entries that do, neither of them printing like a source that text names |
| Sources.JoinClashesIffDisguised | crates/core/src/source.rs:334-442 | a joined entry prints like another source that text names iff its key from the first `?` on, with its own parameters, is just as its form writes a query, and what stands before is a key of the form |
| Sources.QueryInReferenceClashes | crates/core/src/source.rs:334-442 | entries that do |
| Windows.WindowRoundTrip | crates/core/src/routing.rs:143-178 | reading a printed window gives it back for every number of seconds a `u64` holds |
| Windows.PrintIsInjective | crates/core/src/routing.rs:168-178 | different windows print differently |
| Windows.WindowMeans | crates/core/src/routing.rs:146-165 | a count and a unit, with or without spaces, is that many seconds, minutes, hours or days, or the greatest number there is |
| Windows.OnlyWindowsRead | crates/core/src/routing.rs:146-165 | nothing reads as a window but digits of a count that fits and a unit |

## Left out

- Throttle.Throttle.TryAdmit: times are unbounded integers; only the window's conversion to milliseconds saturates as in the source.
- Flushing.FlushMissesNothing: does not model the wait itself, only what the count is when the wait reads it for the last time; nor a send that panics, whose guard also drops.
- Stored.RowsFollow: a write that the storage refuses, after which the code goes on, is not modelled; nor are the rows of the digest itself.
- Rows.GroupedIsAwaited: any held members may close together; that real groups are those of the table is stated in `Groups` and `Flushing`.
- Delivery.Tracker.Deliver: runs the targets in turn; concurrency is in `Delivery.Run`, and the two are proved to agree.
- Lifecycle.ClosesOnlyWhatIsOpen: holds for plans made from the whole history so far; two signals planned at the same time may both see an alert open.
- Planning.SendGroup: the members' rows of the sink are in `Rows`; what the digest says is not modelled, only its key.
- Placeholders.SecretsAreThoseLookedUp: a YAML tree is a value that is rebuilt, not rewritten in place; parsing the YAML is not modelled.
- Placeholders.Interpolate: looks up what the names stand for before the loop that puts it in place, not within it.
- Layers.FromLayers: the checks on providers' settings are a parameter.
- Groups.AddKeeps: metadata is a map from dotted paths to text, so walking JSON objects is not modelled.
- Providers' HTTP, SMTP and SES code, message formatting and templates: a provider is an oracle.
- What a digest says: its title, severity and common fields; and the digest's own stored row.
- SQLite, file locks and storage errors: on such an error the code lets the signal through.
- A client opened without a throttle or an alert book.
- Cloud services, fetching secrets and files, caches, add-ons, and reloading the configuration.
- Hashes, identifiers, clocks, JSON and YAML, and the exact words of errors and suppression lines.
- Joining entries to local paths and web addresses, which rests on the path and URL libraries, and entries that are absolute. Such sources count among those a walk may hold as far as text names them.
- The time between retries.
- The Python, C and command-line bindings and the adapters.
