/** The stored outcomes of one signal, a row per provider. Whoever delivers the signal
    writes them: its own delivery and that of every group it was held in, in any number
    and at the same time (crates/core/src/lib.rs, crates/core/src/sink.rs). */
module Stored {
  import opened Basics
  import opened Delivery

  /** A delivery that writes rows under the signal's id. `Own`: the signal's own, which may be
      cut off when a caller waits for it. `Alone`: of a group that closed with this signal only.
      `Digest`: of many signals; it reports under an id of its own, and writes this signal's rows
      when it is over. A digest whose member has a delivery of its own writes none of them. */
  datatype Kind = Own(awaited: bool) | Alone(ownsRow: bool) | Digest

  predicate Reports(kind: Kind) {
    !kind.Digest?
  }

  predicate WritesAtEnd(kind: Kind) {
    kind.Alone? ==> kind.ownsRow
  }

  datatype Writer = Writer(kind: Kind, targets: seq<seq<string>>)

  /** Everybody who writes the rows, and what each hears from the providers. */
  datatype Plans = Plans(writers: seq<Writer>, to: nat -> Providers)

  /** The steps each delivery has taken so far, those that are over with how they were cut
      off, and the rows. */
  datatype State = State(schedules: seq<seq<nat>>, over: map<nat, Option<string>>, rows: seq<Outcome>)

  /** A target of a delivery takes a step, or a delivery is over and writes its result. */
  datatype Turn =
    | Take(which: nat, target: nat)
    | Finish(which: nat, cut: Option<string>)

  ghost predicate Valid(plans: Plans, s: State) {
    && |s.schedules| == |plans.writers|
    && forall w | 0 <= w < |s.schedules| :: ScheduleOf(s.schedules[w], plans.writers[w].targets)
  }

  function Start(plans: Plans): State {
    State(seq(|plans.writers|, _ => []), map[], [])
  }

  ghost function Progress(plans: Plans, s: State, w: nat): System
    requires Valid(plans, s) && w < |plans.writers|
  {
    Run(plans.writers[w].targets, plans.to(w), s.schedules[w])
  }

  ghost predicate Enabled(plans: Plans, s: State, turn: Turn)
    requires Valid(plans, s)
  {
    && turn.which < |plans.writers| && turn.which !in s.over
    && match turn
       case Take(w, t) => t < |plans.writers[w].targets|
       case Finish(w, cut) =>
         && WritesAtEnd(plans.writers[w].kind)
         && if cut.Some? then plans.writers[w].kind == Own(true) else Complete(Progress(plans, s, w))
  }

  /** What a target's next step writes, if anything. */
  function Told(chain: seq<string>, ps: Providers, pc: Pc): Option<Outcome>
    requires PlacedIn(chain, pc)
  {
    match pc
    case Next(i) => if i < |chain| && chain[i] in ps.known then Some(Outcome(chain[i], Pending, None, 0)) else None
    case Ready(_, _) => None
    case Calling(i, a) =>
      (match ps.answer(chain[i], a)
       case Accepted(_) => Some(Outcome(chain[i], Delivered, None, a))
       case Refused(e) =>
         if a < MAX_RETRY_ATTEMPTS then None else Some(Outcome(chain[i], Failed, Some(e), MAX_RETRY_ATTEMPTS)))
    case Done(_) => None
  }

  ghost function NextTold(plans: Plans, s: State, w: nat, t: nat): Option<Outcome>
    requires Valid(plans, s) && w < |plans.writers| && t < |plans.writers[w].targets|
  {
    Told(plans.writers[w].targets[t], plans.to(w), Progress(plans, s, w).pcs[t])
  }

  function Noted(outcomes: seq<Outcome>, told: Option<Outcome>): seq<Outcome> {
    if told.Some? then Reported(outcomes, told.value) else outcomes
  }

  function NotedAll(outcomes: seq<Outcome>, all: seq<Outcome>): seq<Outcome>
    decreases all
  {
    if all == [] then outcomes else NotedAll(Reported(outcomes, all[0]), all[1..])
  }

  /** The outcomes in a delivery's result. */
  ghost function Entries(plans: Plans, s: State, w: nat, cut: Option<string>): seq<Outcome>
    requires Valid(plans, s) && w < |plans.writers|
  {
    var targets := plans.writers[w].targets;
    Summary(Plan(targets, [], []), Progress(plans, s, w).log.outcomes, cut).deliveries
  }

  ghost function Do(plans: Plans, s: State, turn: Turn): (after: State)
    requires Valid(plans, s) && Enabled(plans, s, turn)
    ensures Valid(plans, after)
  {
    match turn
    case Take(w, t) =>
      var told := if Reports(plans.writers[w].kind) then NextTold(plans, s, w, t) else None;
      s.(schedules := s.schedules[w := s.schedules[w] + [t]], rows := Noted(s.rows, told))
    case Finish(w, cut) =>
      s.(over := s.over[w := cut], rows := NotedAll(s.rows, Entries(plans, s, w, cut)))
  }

  /** The state after these turns, if each can be taken when it comes. */
  ghost function After(plans: Plans, s: State, turns: seq<Turn>): (after: Option<State>)
    requires Valid(plans, s)
    ensures after.Some? ==> Valid(plans, after.value)
    decreases turns
  {
    if turns == [] then Some(s)
    else if Enabled(plans, s, turns[0]) then After(plans, Do(plans, s, turns[0]), turns[1..])
    else None
  }

  ghost predicate Names(targets: seq<seq<string>>, p: string) {
    exists t | 0 <= t < |targets| :: p in targets[t]
  }

  ghost predicate Writes(plans: Plans, w: nat, p: string) {
    w < |plans.writers| && Names(plans.writers[w].targets, p)
  }

  /* ----- what one turn writes for one provider ----- */

  lemma NotedFinds(outcomes: seq<Outcome>, told: Option<Outcome>, p: string)
    ensures Find(Noted(outcomes, told), p) ==
            if told.Some? && told.value.provider == p then told else Find(outcomes, p)
  {
    if told.Some? {
      FindReported(outcomes, told.value, p);
    }
  }

  /** When all entries for a provider are alike, that is what is stored for it. */
  lemma {:induction false} NotedAllFinds(outcomes: seq<Outcome>, all: seq<Outcome>, p: string, o: Outcome)
    requires forall e | e in all && e.provider == p :: e == o
    ensures Find(NotedAll(outcomes, all), p) == if o in all && o.provider == p then Some(o) else Find(outcomes, p)
    decreases all
  {
    if all != [] {
      assert forall e | e in all[1..] :: e in all;
      FindReported(outcomes, all[0], p);
      NotedAllFinds(Reported(outcomes, all[0]), all[1..], p, o);
    }
  }

  lemma {:induction false} FoundIsOf(outcomes: seq<Outcome>, p: string)
    ensures Find(outcomes, p).Some? ==> Find(outcomes, p).value.provider == p
  {
    if outcomes != [] {
      FoundIsOf(outcomes[1..], p);
    }
  }

  lemma StepTells(chain: seq<string>, ps: Providers, pc: Pc, log: Log)
    requires PlacedIn(chain, pc)
    ensures Step(chain, ps, pc, log).1.outcomes == Noted(log.outcomes, Told(chain, ps, pc))
    ensures Told(chain, ps, pc).Some? ==> Told(chain, ps, pc).value.provider in chain
  {
  }

  lemma RunTells(targets: seq<seq<string>>, ps: Providers, schedule: seq<nat>, t: nat)
    requires ScheduleOf(schedule, targets) && t < |targets|
    ensures ScheduleOf(schedule + [t], targets)
    ensures var s := Run(targets, ps, schedule);
            var told := Told(targets[t], ps, s.pcs[t]);
            && Run(targets, ps, schedule + [t]).log.outcomes == Noted(s.log.outcomes, told)
            && (told.Some? ==> Names(targets, told.value.provider))
  {
    assert (schedule + [t])[..|schedule|] == schedule;
    var s := Run(targets, ps, schedule);
    StepTells(targets[t], ps, s.pcs[t], s.log);
  }

  lemma {:induction false} RunNames(targets: seq<seq<string>>, ps: Providers, schedule: seq<nat>, p: string)
    requires ScheduleOf(schedule, targets)
    ensures Find(Run(targets, ps, schedule).log.outcomes, p).Some? ==> Names(targets, p)
  {
    if schedule != [] {
      var init, t := schedule[..|schedule| - 1], schedule[|schedule| - 1];
      RunNames(targets, ps, init, p);
      RunTells(targets, ps, init, t);
      assert init + [t] == schedule;
      var s := Run(targets, ps, init);
      NotedFinds(s.log.outcomes, Told(targets[t], ps, s.pcs[t]), p);
    }
  }

  /** A provider's entry in a result is its record, as the cut leaves it. */
  lemma ResultFinds(plans: Plans, s: State, w: nat, cut: Option<string>, p: string)
    requires Valid(plans, s) && w < |plans.writers|
    ensures var found := Find(Progress(plans, s, w).log.outcomes, p);
            Find(NotedAll(s.rows, Entries(plans, s, w, cut)), p)
              == if found.Some? then Some(CutOff(found.value, cut)) else Find(s.rows, p)
  {
    var targets, outcomes := plans.writers[w].targets, Progress(plans, s, w).log.outcomes;
    var all, found := Entries(plans, s, w, cut), Find(outcomes, p);
    forall e | e in all && e.provider == p ensures found.Some? && e == CutOff(found.value, cut) {
      var t := DeliveriesAreTried(targets, outcomes, cut, |targets| == 1, e);
      TriedComesFrom(targets[t], outcomes, cut, e);
      var j :| 0 <= j < |targets[t]| && Find(outcomes, targets[t][j]).Some?
        && CutOff(Find(outcomes, targets[t][j]).value, cut) == e;
      FoundIsOf(outcomes, targets[t][j]);
    }
    FoundIsOf(outcomes, p);
    var o := if found.Some? then CutOff(found.value, cut) else Outcome(p, Pending, None, 0);
    NotedAllFinds(s.rows, all, p, o);
    if found.Some? {
      RunNames(targets, plans.to(w), s.schedules[w], p);
      var t :| 0 <= t < |targets| && p in targets[t];
      var j :| 0 <= j < |targets[t]| && targets[t][j] == p;
      DeliveredStaysDelivered(Plan(targets, [], []), outcomes, cut, t, j);
    }
  }

  /** What a delivery has said about a provider under the signal's id. */
  ghost function RecordOf(plans: Plans, s: State, w: nat, p: string): Option<Outcome>
    requires Valid(plans, s) && w < |plans.writers|
  {
    var found := Find(Progress(plans, s, w).log.outcomes, p);
    if w in s.over && found.Some? then Some(CutOff(found.value, s.over[w]))
    else if w in s.over || Reports(plans.writers[w].kind) then found
    else None
  }

  lemma OneTake(plans: Plans, s: State, w: nat, t: nat, p: string)
    requires Valid(plans, s) && Enabled(plans, s, Take(w, t))
    ensures var after := Do(plans, s, Take(w, t));
            || (Find(after.rows, p) == Find(s.rows, p) && RecordOf(plans, after, w, p) == RecordOf(plans, s, w, p))
            || (Find(after.rows, p) == RecordOf(plans, after, w, p) != None && Writes(plans, w, p))
  {
    var told, outcomes := NextTold(plans, s, w, t), Progress(plans, s, w).log.outcomes;
    RunTells(plans.writers[w].targets, plans.to(w), s.schedules[w], t);
    NotedFinds(outcomes, told, p);
    NotedFinds(s.rows, told, p);
  }

  lemma OneFinish(plans: Plans, s: State, w: nat, cut: Option<string>, p: string)
    requires Valid(plans, s) && Enabled(plans, s, Finish(w, cut))
    ensures var after := Do(plans, s, Finish(w, cut));
            || (Find(after.rows, p) == Find(s.rows, p) && RecordOf(plans, after, w, p) == RecordOf(plans, s, w, p))
            || (Find(after.rows, p) == RecordOf(plans, after, w, p) != None && Writes(plans, w, p))
  {
    ResultFinds(plans, s, w, cut, p);
    RunNames(plans.writers[w].targets, plans.to(w), s.schedules[w], p);
  }

  /** A turn leaves a provider's row alone, or makes it what the delivery says; it does not
      change what other deliveries said. */
  lemma OneTurn(plans: Plans, s: State, turn: Turn, v: nat, p: string)
    requires Valid(plans, s) && Enabled(plans, s, turn) && v < |plans.writers|
    ensures var after, w := Do(plans, s, turn), turn.which;
            && (v != w ==> RecordOf(plans, after, v, p) == RecordOf(plans, s, v, p))
            && (|| (Find(after.rows, p) == Find(s.rows, p) && RecordOf(plans, after, w, p) == RecordOf(plans, s, w, p))
                || (Find(after.rows, p) == RecordOf(plans, after, w, p) != None && Writes(plans, w, p)))
  {
    match turn
    case Take(w, t) => OneTake(plans, s, w, t, p);
    case Finish(w, cut) => OneFinish(plans, s, w, cut, p);
  }

  /* ----- a provider that one delivery names ----- */

  /** Of those who take these turns, only `w` writes for the provider. */
  ghost predicate OnlyOneWrites(plans: Plans, turns: seq<Turn>, w: nat, p: string) {
    forall turn | turn in turns :: turn.which == w || !Writes(plans, turn.which, p)
  }

  function Either(first: Option<Outcome>, second: Option<Outcome>): Option<Outcome> {
    if first.Some? then first else second
  }

  /** Whatever was stored before, the row is what `w` said once `w` said something. */
  lemma {:induction false} TheOneThatWrites(plans: Plans, s: State, turns: seq<Turn>, w: nat, p: string,
      was: Option<Outcome>)
    requires Valid(plans, s) && After(plans, s, turns).Some? && w < |plans.writers| && OnlyOneWrites(plans, turns, w, p)
    requires Find(s.rows, p) == Either(RecordOf(plans, s, w, p), was)
    ensures var after := After(plans, s, turns).value;
            Find(after.rows, p) == Either(RecordOf(plans, after, w, p), was)
    decreases turns
  {
    if turns != [] {
      OneTurn(plans, s, turns[0], w, p);
      assert turns[0] in turns;
      assert forall turn | turn in turns[1..] :: turn in turns;
      TheOneThatWrites(plans, Do(plans, s, turns[0]), turns[1..], w, p, was);
    }
  }

  lemma NothingSaidYet(plans: Plans, s: State, w: nat, p: string)
    requires Valid(plans, s) && w < |plans.writers| && s.schedules[w] == [] && w !in s.over
    ensures RecordOf(plans, s, w, p) == None
  {
  }

  /** Nobody but `w` names the provider. */
  ghost predicate SoleWriter(plans: Plans, w: nat, p: string) {
    forall v | 0 <= v < |plans.writers| && v != w :: !Names(plans.writers[v].targets, p)
  }

  /** In every run, a provider that no other delivery names has stored what this one said:
      as it goes if it reports, or else once it is over. */
  lemma RowsFollow(plans: Plans, turns: seq<Turn>, w: nat, p: string)
    requires w < |plans.writers| && SoleWriter(plans, w, p)
    requires After(plans, Start(plans), turns).Some?
    ensures var s := After(plans, Start(plans), turns).value;
            Find(s.rows, p) == RecordOf(plans, s, w, p)
  {
    NothingSaidYet(plans, Start(plans), w, p);
    TheOneThatWrites(plans, Start(plans), turns, w, p, None);
  }

  predicate HasIt(found: Option<Outcome>) {
    found.Some? && found.value.status == Delivered
  }

  /** Within one delivery a provider that has the signal is not written again. */
  lemma NotToldAgain(targets: seq<seq<string>>, ps: Providers, schedule: seq<nat>, t: nat, p: string)
    requires Distinct(targets) && ScheduleOf(schedule, targets) && t < |targets|
    requires HasIt(Find(Run(targets, ps, schedule).log.outcomes, p))
    ensures var told := Told(targets[t], ps, Run(targets, ps, schedule).pcs[t]);
            told.Some? ==> told.value.provider != p
  {
    RunKeeps(targets, ps, schedule);
    var s := Run(targets, ps, schedule);
    var pc := s.pcs[t];
    if pc.i < |targets[t]| && targets[t][pc.i] == p {
      assert OnRecord(targets[t], ps, pc, s.log);
      assert s.log.Seen(targets[t][pc.i]) == Expected(targets[t], ps, pc.i, pc);
    }
  }

  lemma SaidForGood(plans: Plans, s: State, turn: Turn, p: string)
    requires Valid(plans, s) && Enabled(plans, s, turn) && Distinct(plans.writers[turn.which].targets)
    requires HasIt(RecordOf(plans, s, turn.which, p))
    ensures RecordOf(plans, Do(plans, s, turn), turn.which, p) == RecordOf(plans, s, turn.which, p)
  {
    match turn
    case Take(w, t) =>
      var targets, outcomes := plans.writers[w].targets, Progress(plans, s, w).log.outcomes;
      NotToldAgain(targets, plans.to(w), s.schedules[w], t, p);
      RunTells(targets, plans.to(w), s.schedules[w], t);
      NotedFinds(outcomes, NextTold(plans, s, w, t), p);
    case Finish(_, _) =>
  }

  lemma {:induction false} DeliveredStays(plans: Plans, s: State, more: seq<Turn>, w: nat, p: string)
    requires Valid(plans, s) && After(plans, s, more).Some?
    requires w < |plans.writers| && SoleWriter(plans, w, p) && Distinct(plans.writers[w].targets)
    requires HasIt(RecordOf(plans, s, w, p)) && Find(s.rows, p) == RecordOf(plans, s, w, p)
    ensures Find(After(plans, s, more).value.rows, p) == Find(s.rows, p)
    decreases more
  {
    if more != [] {
      OneTurn(plans, s, more[0], w, p);
      if more[0].which == w {
        SaidForGood(plans, s, more[0], p);
      }
      DeliveredStays(plans, Do(plans, s, more[0]), more[1..], w, p);
    }
  }

  /** Two deliveries name the provider. */
  ghost predicate Shared(writers: seq<Writer>, p: string) {
    exists a, b | 0 <= a < |writers| && 0 <= b < |writers| && a != b ::
      Names(writers[a].targets, p) && Names(writers[b].targets, p)
  }

  ghost predicate AllDistinct(writers: seq<Writer>) {
    forall w | 0 <= w < |writers| :: Distinct(writers[w].targets)
  }

  /** However many deliveries there are, in whatever order they write, a provider that no two
      of them name keeps a stored `delivered` through the rest of the run. */
  lemma DeliveredStaysUnlessShared(plans: Plans, turns: seq<Turn>, more: seq<Turn>, p: string)
    requires AllDistinct(plans.writers) && !Shared(plans.writers, p)
    requires After(plans, Start(plans), turns).Some?
    requires var s := After(plans, Start(plans), turns).value;
             HasIt(Find(s.rows, p)) && After(plans, s, more).Some?
    ensures var s := After(plans, Start(plans), turns).value;
            Find(After(plans, s, more).value.rows, p) == Find(s.rows, p)
  {
    var s := After(plans, Start(plans), turns).value;
    if w: nat :| w < |plans.writers| && Names(plans.writers[w].targets, p) {
      RowsFollow(plans, turns, w, p);
      DeliveredStays(plans, s, more, w, p);
    } else if |plans.writers| > 0 {
      RowsFollow(plans, turns, 0, p);
      SaysWhatItNames(plans, s, 0, p);
    }
  }

  lemma SaysWhatItNames(plans: Plans, s: State, w: nat, p: string)
    requires Valid(plans, s) && w < |plans.writers|
    ensures RecordOf(plans, s, w, p).Some? ==> Writes(plans, w, p)
  {
    RunNames(plans.writers[w].targets, plans.to(w), s.schedules[w], p);
  }

  /* ----- a provider that two deliveries name ----- */

  /** Only one provider is registered, and it refuses delivery `b` and accepts the others. */
  function OnlyOne(p: string, b: nat): nat -> Providers {
    w => Providers({p}, (name, attempt) => if w == b then Refused("refused") else Accepted(None))
  }

  lemma {:induction false} Also(plans: Plans, s: State, turns: seq<Turn>, more: seq<Turn>)
    requires Valid(plans, s) && After(plans, s, turns).Some?
    ensures After(plans, s, turns + more) == After(plans, After(plans, s, turns).value, more)
    decreases turns
  {
    if turns == [] {
      assert turns + more == more;
    } else {
      assert (turns + more)[1..] == turns[1..] + more;
      Also(plans, Do(plans, s, turns[0]), turns[1..], more);
    }
  }

  lemma {:induction false} GivesTurns(schedule: seq<nat>, t: nat, k: nat) returns (more: seq<nat>)
    ensures forall i | 0 <= i < |more| :: more[i] == t || more[i] in schedule
    ensures Times(more, t) >= k && forall u :: Times(more, u) >= Times(schedule, u)
  {
    if k == 0 {
      more := schedule;
    } else {
      var before := GivesTurns(schedule, t, k - 1);
      more := before + [t];
      assert more[..|before|] == before;
    }
  }

  lemma {:induction false} ServesAll(targets: seq<seq<string>>, n: nat) returns (schedule: seq<nat>)
    requires n <= |targets|
    ensures ScheduleOf(schedule, targets)
    ensures forall t | 0 <= t < n :: Times(schedule, t) > 7 * |targets[t]|
  {
    if n == 0 {
      schedule := [];
    } else {
      var before := ServesAll(targets, n - 1);
      schedule := GivesTurns(before, n - 1, 7 * |targets[n - 1]| + 1);
    }
  }

  /** Every delivery can be run to its end. */
  lemma SomeRunEnds(targets: seq<seq<string>>, ps: Providers) returns (schedule: seq<nat>)
    requires Distinct(targets)
    ensures ScheduleOf(schedule, targets) && Complete(Run(targets, ps, schedule))
  {
    schedule := ServesAll(targets, |targets|);
    forall t | 0 <= t < |targets| ensures Run(targets, ps, schedule).pcs[t].Done? {
      FairRunEnds(targets, ps, schedule, t);
    }
  }

  lemma {:induction false} Takes(plans: Plans, s: State, w: nat, schedule: seq<nat>) returns (turns: seq<Turn>)
    requires Valid(plans, s) && w < |plans.writers| && w !in s.over
    requires ScheduleOf(schedule, plans.writers[w].targets)
    ensures After(plans, s, turns).Some? && forall turn | turn in turns :: turn.which == w
    ensures var after := After(plans, s, turns).value;
            after.over == s.over && after.schedules == s.schedules[w := s.schedules[w] + schedule]
    decreases schedule
  {
    turns := [];
    if schedule == [] {
      assert s.schedules[w] + schedule == s.schedules[w];
    } else {
      var first := Take(w, schedule[0]);
      assert s.schedules[w] + schedule == s.schedules[w] + [schedule[0]] + schedule[1..];
      var rest := Takes(plans, Do(plans, s, first), w, schedule[1..]);
      turns := [first] + rest;
      assert turns[1..] == rest;
    }
  }

  /** A delivery is over when every target is done and, if it is one that writes its result, it has. */
  ghost predicate IsOver(plans: Plans, s: State, w: nat)
    requires Valid(plans, s) && w < |plans.writers|
  {
    Complete(Progress(plans, s, w)) && (WritesAtEnd(plans.writers[w].kind) ==> w in s.over && s.over[w] == None)
  }

  lemma RunsOut(plans: Plans, s: State, w: nat) returns (turns: seq<Turn>)
    requires Valid(plans, s) && w < |plans.writers| && w !in s.over && s.schedules[w] == []
    requires Distinct(plans.writers[w].targets)
    ensures After(plans, s, turns).Some? && forall turn | turn in turns :: turn.which == w
    ensures var after := After(plans, s, turns).value;
            && IsOver(plans, after, w)
            && forall v | 0 <= v < |plans.writers| && v != w ::
                 after.schedules[v] == s.schedules[v] && (v in after.over <==> v in s.over)
                 && (v in s.over ==> after.over[v] == s.over[v])
  {
    var schedule := SomeRunEnds(plans.writers[w].targets, plans.to(w));
    turns := Takes(plans, s, w, schedule);
    assert [] + schedule == schedule;
    if WritesAtEnd(plans.writers[w].kind) {
      var done := After(plans, s, turns).value;
      var last := Finish(w, None);
      assert Enabled(plans, done, last);
      assert After(plans, done, [last]) == Some(Do(plans, done, last)) by {
        assert [last][1..] == [];
      }
      Also(plans, s, turns, [last]);
      turns := turns + [last];
    }
  }

  /** The last word on the one provider that is registered. */
  function LastOf(p: string, refused: bool): Outcome {
    if refused then Outcome(p, Failed, Some("refused"), MAX_RETRY_ATTEMPTS) else Outcome(p, Delivered, None, 1)
  }

  lemma ExpectedOfOne(chain: seq<string>, j: nat, p: string, b: nat, w: nat)
    requires j < |chain| && chain[j] == p && forall i | 0 <= i < |chain| && i != j :: chain[i] != p
    ensures var ps := OnlyOne(p, b)(w);
            Expected(chain, ps, j, Done(Winner(chain, ps))).outcome == Some(LastOf(p, w == b))
  {
    var ps := OnlyOne(p, b)(w);
    assert FirstSuccess(ps, p) == if w == b then None else Some(1);
    assert Winner(chain, ps) == if w == b then |chain| else j;
  }

  lemma SettledRecord(targets: seq<seq<string>>, ps: Providers, schedule: seq<nat>, t: nat, j: nat)
    requires Distinct(targets) && ScheduleOf(schedule, targets) && Complete(Run(targets, ps, schedule))
    requires t < |targets| && j < |targets[t]|
    ensures Find(Run(targets, ps, schedule).log.outcomes, targets[t][j])
         == Expected(targets[t], ps, j, Done(Winner(targets[t], ps))).outcome
  {
    ScheduleDoesNotMatter(Plan(targets, [], []), ps, schedule, schedule);
    assert OnRecord(targets[t], ps, Done(Winner(targets[t], ps)), Run(targets, ps, schedule).log);
    FoundAsExpected(targets[t], ps, Done(Winner(targets[t], ps)), Run(targets, ps, schedule).log);
  }

  lemma PlaceIn(targets: seq<seq<string>>, p: string) returns (t: nat, j: nat)
    requires Distinct(targets) && Names(targets, p)
    ensures t < |targets| && j < |targets[t]| && targets[t][j] == p
    ensures forall i | 0 <= i < |targets[t]| && i != j :: targets[t][i] != p
  {
    t :| 0 <= t < |targets| && p in targets[t];
    j :| 0 <= j < |targets[t]| && targets[t][j] == p;
  }

  lemma LastWord(plans: Plans, s: State, w: nat, p: string, b: nat)
    requires Valid(plans, s) && plans.to == OnlyOne(p, b)
    requires Writes(plans, w, p) && Distinct(plans.writers[w].targets) && IsOver(plans, s, w)
    ensures RecordOf(plans, s, w, p) == Some(LastOf(p, w == b))
  {
    var t, j := PlaceIn(plans.writers[w].targets, p);
    SettledRecord(plans.writers[w].targets, plans.to(w), s.schedules[w], t, j);
    ExpectedOfOne(plans.writers[w].targets[t], j, p, b, w);
  }

  /** From a state in which `w` has not begun, `w` alone runs and has the last word. */
  lemma HasTheLastWord(plans: Plans, s: State, w: nat, p: string, b: nat) returns (turns: seq<Turn>)
    requires Valid(plans, s) && w !in s.over && Writes(plans, w, p) && s.schedules[w] == []
    requires plans.to == OnlyOne(p, b) && Distinct(plans.writers[w].targets)
    ensures After(plans, s, turns).Some?
    ensures var after := After(plans, s, turns).value;
            && IsOver(plans, after, w)
            && Find(after.rows, p) == Some(LastOf(p, w == b))
            && forall v | 0 <= v < |plans.writers| && v != w ::
                 after.schedules[v] == s.schedules[v] && (v in after.over <==> v in s.over)
                 && (v in s.over ==> after.over[v] == s.over[v])
  {
    turns := RunsOut(plans, s, w);
    NothingSaidYet(plans, s, w, p);
    TheOneThatWrites(plans, s, turns, w, p, Find(s.rows, p));
    LastWord(plans, After(plans, s, turns).value, w, p, b);
  }

  /** Whatever provider two deliveries name, whoever else writes, there is a run in which the first
      delivers to it and that is stored, and which ends with both over and `failed` stored. */
  lemma SharedCanBeLost(writers: seq<Writer>, a: nat, b: nat, p: string)
    returns (plans: Plans, turns: seq<Turn>, more: seq<Turn>)
    requires AllDistinct(writers) && a < |writers| && b < |writers| && a != b
    requires Names(writers[a].targets, p) && Names(writers[b].targets, p)
    ensures plans.writers == writers && After(plans, Start(plans), turns).Some?
    ensures var s := After(plans, Start(plans), turns).value;
            && HasIt(Find(s.rows, p)) && IsOver(plans, s, a)
            && After(plans, s, more).Some?
            && var end := After(plans, s, more).value;
               && IsOver(plans, end, a) && IsOver(plans, end, b)
               && Find(end.rows, p) == Some(Outcome(p, Failed, Some("refused"), MAX_RETRY_ATTEMPTS))
  {
    plans := Plans(writers, OnlyOne(p, b));
    turns := HasTheLastWord(plans, Start(plans), a, p, b);
    more := HasTheLastWord(plans, After(plans, Start(plans), turns).value, b, p, b);
  }

  /** A run in which a stored `delivered` is there after some turns and no longer after more. */
  ghost predicate Loses(plans: Plans, turns: seq<Turn>, more: seq<Turn>, p: string) {
    && After(plans, Start(plans), turns).Some?
    && var s := After(plans, Start(plans), turns).value;
       && HasIt(Find(s.rows, p))
       && After(plans, s, more).Some? && !HasIt(Find(After(plans, s, more).value.rows, p))
  }

  /** Some answers and some order of turns lose a provider's `delivered` exactly when two
      deliveries name it. */
  lemma LostIffShared(writers: seq<Writer>, p: string)
    requires AllDistinct(writers)
    ensures Shared(writers, p) <==> exists to, turns, more :: Loses(Plans(writers, to), turns, more, p)
  {
    if Shared(writers, p) {
      var a: nat, b: nat :| a < |writers| && b < |writers| && a != b
        && Names(writers[a].targets, p) && Names(writers[b].targets, p);
      var plans, turns, more := SharedCanBeLost(writers, a, b, p);
      assert Loses(Plans(writers, plans.to), turns, more, p);
    } else {
      forall to, turns, more | Loses(Plans(writers, to), turns, more, p) ensures false {
        DeliveredStaysUnlessShared(Plans(writers, to), turns, more, p);
      }
    }
  }
}
