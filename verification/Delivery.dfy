/** Delivering one plan (crates/core/src/lib.rs, `deliver` to `summarize`): every
    target is a process of its own, all report to one tracker, and what the
    tracker holds when delivery ends or is cut off becomes one result. */
module Delivery {
  import opened Basics

  datatype Status = Pending | Delivered | Partial | Failed | Skipped | Grouped

  /** How delivery to one provider went. */
  datatype Outcome = Outcome(provider: string, status: Status, error: Option<string>, attempts: nat)

  /** Where one signal goes: targets run at once, the providers of a target in order. */
  datatype Plan = Plan(targets: seq<seq<string>>, suppressed: seq<string>, grouped: seq<(nat, string)>)

  datatype Result = Result(
    status: Status,
    provider: Option<string>,
    error: Option<string>,
    attempts: nat,
    deliveries: seq<Outcome>,
    suppressed: seq<string>,
    grouped: seq<string>)

  /** What a provider answers to one attempt. */
  datatype Answer = Accepted(alertRef: Option<string>) | Refused(error: string)

  /** The providers in effect: which names are registered, and how each answers each attempt. */
  datatype Providers = Providers(known: set<string>, answer: (string, nat) -> Answer)

  const MAX_RETRY_ATTEMPTS: nat := 3

  /* ----- the tracker ----- */

  function Find(outcomes: seq<Outcome>, p: string): Option<Outcome> {
    if outcomes == [] then None
    else if outcomes[0].provider == p then Some(outcomes[0])
    else Find(outcomes[1..], p)
  }

  /** The outcomes once `o` replaced its provider's entry, or joined at the end. */
  function Reported(outcomes: seq<Outcome>, o: Outcome): seq<Outcome> {
    if outcomes == [] then [o]
    else if outcomes[0].provider == o.provider then [o] + outcomes[1..]
    else [outcomes[0]] + Reported(outcomes[1..], o)
  }

  lemma {:induction false} FindReported(outcomes: seq<Outcome>, o: Outcome, p: string)
    ensures Find(Reported(outcomes, o), p) == if p == o.provider then Some(o) else Find(outcomes, p)
  {
    if outcomes != [] && outcomes[0].provider != o.provider {
      FindReported(outcomes[1..], o, p);
    }
  }

  /** The attempts a log of sends holds for one provider, in order. */
  function AttemptsOf(sends: seq<(string, nat)>, p: string): seq<nat> {
    if sends == [] then []
    else
      var before := AttemptsOf(sends[..|sends| - 1], p);
      var last := sends[|sends| - 1];
      if last.0 == p then before + [last.1] else before
  }

  datatype Log = Log(outcomes: seq<Outcome>, refs: map<string, string>, sends: seq<(string, nat)>) {
    function Report(o: Outcome): Log {
      this.(outcomes := Reported(outcomes, o))
    }

    function Send(p: string, attempt: nat): Log {
      this.(sends := sends + [(p, attempt)])
    }

    function KeepRef(p: string, alertRef: Option<string>): Log {
      if alertRef.Some? then this.(refs := refs[p := alertRef.value]) else this
    }

    /** All that is on record for one provider. */
    function Seen(p: string): Record {
      Record(Find(outcomes, p), AttemptsOf(sends, p), if p in refs then Some(refs[p]) else None)
    }
  }

  datatype Record = Record(outcome: Option<Outcome>, attempts: seq<nat>, alertRef: Option<string>)

  const NOTHING := Record(None, [], None)

  lemma SeenAfter(log: Log, p: string, q: string, o: Outcome, attempt: nat, alertRef: Option<string>)
    ensures log.Report(o).Seen(q) == if q == o.provider then log.Seen(q).(outcome := Some(o)) else log.Seen(q)
    ensures log.Send(p, attempt).Seen(q)
         == if q == p then log.Seen(q).(attempts := log.Seen(q).attempts + [attempt]) else log.Seen(q)
    ensures log.KeepRef(p, alertRef).Seen(q)
         == if q == p && alertRef.Some? then log.Seen(q).(alertRef := alertRef) else log.Seen(q)
  {
    FindReported(log.outcomes, o, q);
    assert (log.sends + [(p, attempt)])[..|log.sends|] == log.sends;
  }

  /* ----- one target as a process ----- */

  /** Where a target is: about to look at provider `i`, about to make an attempt
      on it, waiting for the answer, or done with provider `i` delivered
      (`i` past the end when every provider failed). */
  datatype Pc =
    | Next(i: nat)
    | Ready(i: nat, attempt: nat)
    | Calling(i: nat, attempt: nat)
    | Done(i: nat)

  /** One step of a target, between two points where another may run. */
  function Step(chain: seq<string>, ps: Providers, pc: Pc, log: Log): (Pc, Log)
    requires pc.i <= |chain| && (pc.Ready? || pc.Calling? ==> pc.i < |chain|)
  {
    match pc
    case Next(i) =>
      if i == |chain| then (Done(i), log)
      else if chain[i] !in ps.known then (Next(i + 1), log)
      else (Ready(i, 1), log.Report(Outcome(chain[i], Pending, None, 0)))
    case Ready(i, a) => (Calling(i, a), log.Send(chain[i], a))
    case Calling(i, a) =>
      (match ps.answer(chain[i], a)
       case Accepted(alertRef) =>
         (Done(i), log.KeepRef(chain[i], alertRef).Report(Outcome(chain[i], Delivered, None, a)))
       case Refused(e) =>
         if a < MAX_RETRY_ATTEMPTS then (Ready(i, a + 1), log)
         else (Next(i + 1), log.Report(Outcome(chain[i], Failed, Some(e), MAX_RETRY_ATTEMPTS))))
    case Done(_) => (pc, log)
  }

  datatype System = System(pcs: seq<Pc>, log: Log)

  /** Runs the targets in any order, one step each time a target is named. */
  ghost predicate ScheduleOf(schedule: seq<nat>, targets: seq<seq<string>>) {
    forall i | 0 <= i < |schedule| :: schedule[i] < |targets|
  }

  ghost predicate Placed(targets: seq<seq<string>>, s: System) {
    && |s.pcs| == |targets|
    && forall t | 0 <= t < |targets| :: PlacedIn(targets[t], s.pcs[t])
  }

  predicate PlacedIn(chain: seq<string>, pc: Pc) {
    pc.i <= |chain| && (pc.Ready? || pc.Calling? ==> pc.i < |chain|)
  }

  ghost function Run(targets: seq<seq<string>>, ps: Providers, schedule: seq<nat>): (s: System)
    requires ScheduleOf(schedule, targets)
    ensures Placed(targets, s)
  {
    if schedule == [] then System(seq(|targets|, _ => Next(0)), Log([], map[], []))
    else
      var before := Run(targets, ps, schedule[..|schedule| - 1]);
      var t := schedule[|schedule| - 1];
      var (pc, log) := Step(targets[t], ps, before.pcs[t], before.log);
      System(before.pcs[t := pc], log)
  }

  /* ----- what every schedule must leave behind ----- */

  /** The first attempt a provider accepts, if any of its attempts is accepted. */
  function FirstSuccess(ps: Providers, p: string): Option<nat> {
    if ps.answer(p, 1).Accepted? then Some(1)
    else if ps.answer(p, 2).Accepted? then Some(2)
    else if ps.answer(p, 3).Accepted? then Some(3)
    else None
  }

  predicate Wins(ps: Providers, p: string) {
    p in ps.known && FirstSuccess(ps, p).Some?
  }

  /** The position of the provider that gets the signal: the first registered
      one that accepts an attempt. Past the end when there is none. */
  function Winner(chain: seq<string>, ps: Providers): (w: nat)
    ensures w <= |chain|
    ensures w < |chain| ==> Wins(ps, chain[w])
    ensures forall j | 0 <= j < w :: !Wins(ps, chain[j])
  {
    if chain == [] then 0
    else if Wins(ps, chain[0]) then 0
    else 1 + Winner(chain[1..], ps)
  }

  function Upto(n: nat): seq<nat> {
    seq(n, i requires 0 <= i < n => i + 1)
  }

  /** What must be on record for provider `j` of a target that is at `pc`. */
  function Expected(chain: seq<string>, ps: Providers, j: nat, pc: Pc): Record
    requires j < |chain|
  {
    var p := chain[j];
    if p !in ps.known || j > pc.i then NOTHING
    else if j < pc.i then
      var e := ps.answer(p, 3);
      Record(Some(Outcome(p, Failed, if e.Refused? then Some(e.error) else None, MAX_RETRY_ATTEMPTS)), Upto(3), None)
    else
      match pc
      case Next(_) => NOTHING
      case Ready(_, a) => Record(Some(Outcome(p, Pending, None, 0)), Upto(if a > 0 then a - 1 else 0), None)
      case Calling(_, a) => Record(Some(Outcome(p, Pending, None, 0)), Upto(a), None)
      case Done(_) =>
        (match FirstSuccess(ps, p)
         case None => NOTHING
         case Some(a) =>
           Record(Some(Outcome(p, Delivered, None, a)), Upto(a),
             match ps.answer(p, a) case Accepted(r) => r case Refused(_) => None))
  }

  /** A target never passes a provider that would have accepted, and is done only at the winner. */
  predicate OnCourse(chain: seq<string>, ps: Providers, pc: Pc) {
    && PlacedIn(chain, pc)
    && pc.i <= Winner(chain, ps)
    && (pc.Done? ==> pc.i == Winner(chain, ps))
    && (pc.Ready? || pc.Calling? ==>
          && chain[pc.i] in ps.known
          && 1 <= pc.attempt <= MAX_RETRY_ATTEMPTS
          && (FirstSuccess(ps, chain[pc.i]).Some? ==> pc.attempt <= FirstSuccess(ps, chain[pc.i]).value))
  }

  /** No provider appears twice in the plan. */
  ghost predicate Distinct(targets: seq<seq<string>>) {
    forall t, j, u, k | 0 <= t < |targets| && 0 <= j < |targets[t]| && 0 <= u < |targets| && 0 <= k < |targets[u]| ::
      targets[t][j] == targets[u][k] ==> t == u && j == k
  }

  ghost predicate OnRecord(chain: seq<string>, ps: Providers, pc: Pc, log: Log) {
    forall j | 0 <= j < |chain| :: log.Seen(chain[j]) == Expected(chain, ps, j, pc)
  }

  /** One step keeps a target on course and its record as expected, and touches no other provider. */
  lemma StepKeeps(chain: seq<string>, ps: Providers, pc: Pc, log: Log)
    requires Distinct([chain]) && OnCourse(chain, ps, pc) && OnRecord(chain, ps, pc, log)
    ensures var (pc', log') := Step(chain, ps, pc, log);
            && OnCourse(chain, ps, pc') && OnRecord(chain, ps, pc', log')
            && forall q | q !in chain :: log'.Seen(q) == log.Seen(q)
  {
    var (pc', log') := Step(chain, ps, pc, log);
    StaysOnCourse(chain, ps, pc, log);
    forall q ensures (q !in chain || pc.i == |chain| || q != chain[pc.i]) ==> log'.Seen(q) == log.Seen(q) {
      if pc.i < |chain| && q != chain[pc.i] {
        SeenOfOthers(chain, ps, pc, log, q);
      }
    }
    forall j | 0 <= j < |chain| ensures log'.Seen(chain[j]) == Expected(chain, ps, j, pc') {
      assert [chain][0] == chain;
      assert j != pc.i && pc.i < |chain| ==> chain[j] != chain[pc.i];
      if j == pc.i {
        SeenOfMine(chain, ps, pc, log);
      }
    }
  }

  lemma SeenOfOthers(chain: seq<string>, ps: Providers, pc: Pc, log: Log, q: string)
    requires PlacedIn(chain, pc) && pc.i < |chain| && q != chain[pc.i]
    ensures Step(chain, ps, pc, log).1.Seen(q) == log.Seen(q)
  {
    var p := chain[pc.i];
    match pc
    case Next(_) => SeenAfter(log, p, q, Outcome(p, Pending, None, 0), 0, None);
    case Ready(_, a) => SeenAfter(log, p, q, Outcome(p, Pending, None, 0), a, None);
    case Calling(_, a) =>
      match ps.answer(p, a) {
        case Accepted(r) =>
          var o := Outcome(p, Delivered, None, a);
          SeenAfter(log, p, q, o, a, r);
          SeenAfter(log.KeepRef(p, r), p, q, o, a, r);
        case Refused(e) => SeenAfter(log, p, q, Outcome(p, Failed, Some(e), MAX_RETRY_ATTEMPTS), a, None);
      }
    case Done(_) =>
  }

  lemma SeenOfAnswer(chain: seq<string>, ps: Providers, pc: Pc, log: Log)
    requires OnCourse(chain, ps, pc) && pc.Calling?
    requires log.Seen(chain[pc.i]) == Expected(chain, ps, pc.i, pc)
    ensures var (pc', log') := Step(chain, ps, pc, log);
            log'.Seen(chain[pc.i]) == Expected(chain, ps, pc.i, pc')
  {
    var p, a := chain[pc.i], pc.attempt;
    match ps.answer(p, a)
    case Accepted(r) =>
      var o := Outcome(p, Delivered, None, a);
      assert FirstSuccess(ps, p) == Some(a);
      SeenAfter(log, p, p, o, a, r);
      SeenAfter(log.KeepRef(p, r), p, p, o, a, r);
    case Refused(e) =>
      SeenAfter(log, p, p, Outcome(p, Failed, Some(e), MAX_RETRY_ATTEMPTS), a, None);
  }

  lemma SeenOfMine(chain: seq<string>, ps: Providers, pc: Pc, log: Log)
    requires OnCourse(chain, ps, pc) && pc.i < |chain|
    requires log.Seen(chain[pc.i]) == Expected(chain, ps, pc.i, pc)
    ensures var (pc', log') := Step(chain, ps, pc, log);
            log'.Seen(chain[pc.i]) == Expected(chain, ps, pc.i, pc')
  {
    var p := chain[pc.i];
    match pc
    case Next(_) => SeenAfter(log, p, p, Outcome(p, Pending, None, 0), 0, None);
    case Ready(_, a) =>
      SeenAfter(log, p, p, Outcome(p, Pending, None, 0), a, None);
      assert Upto(a - 1) + [a] == Upto(a);
    case Calling(_, _) => SeenOfAnswer(chain, ps, pc, log);
    case Done(_) =>
  }

  /** One step keeps a target on course. */
  lemma StaysOnCourse(chain: seq<string>, ps: Providers, pc: Pc, log: Log)
    requires OnCourse(chain, ps, pc)
    ensures OnCourse(chain, ps, Step(chain, ps, pc, log).0)
  {
  }

  /** Whatever prefix of whatever interleaving has run, each target is where its
      own steps took it and the record shows exactly that. */
  lemma {:induction false} RunKeeps(targets: seq<seq<string>>, ps: Providers, schedule: seq<nat>)
    requires Distinct(targets) && ScheduleOf(schedule, targets)
    ensures var s := Run(targets, ps, schedule);
            forall t | 0 <= t < |targets| :: OnCourse(targets[t], ps, s.pcs[t])
                && OnRecord(targets[t], ps, s.pcs[t], s.log)
  {
    if schedule != [] {
      var init, u := schedule[..|schedule| - 1], schedule[|schedule| - 1];
      RunKeeps(targets, ps, init);
      var before, after := Run(targets, ps, init), Run(targets, ps, schedule);
      OneOf(targets, u);
      StepKeeps(targets[u], ps, before.pcs[u], before.log);
      forall t | 0 <= t < |targets|
        ensures OnCourse(targets[t], ps, after.pcs[t]) && OnRecord(targets[t], ps, after.pcs[t], after.log)
      {
        if t != u {
          assert OnRecord(targets[t], ps, before.pcs[t], before.log);
          forall j | 0 <= j < |targets[t]| ensures targets[t][j] !in targets[u] {}
        }
      }
    }
  }

  lemma OneOf(targets: seq<seq<string>>, u: nat)
    requires Distinct(targets) && u < |targets|
    ensures Distinct([targets[u]])
  {
  }

  ghost predicate Complete(s: System) {
    forall t | 0 <= t < |s.pcs| :: s.pcs[t].Done?
  }

  lemma RefusedBefore(ps: Providers, p: string, a: nat)
    requires 1 <= a <= MAX_RETRY_ATTEMPTS
    requires FirstSuccess(ps, p).Some? ==> a < FirstSuccess(ps, p).value
    ensures ps.answer(p, a).Refused?
  {
  }

  /** The attempts on record for provider `j`, and what they show about the ones before it. */
  lemma AttemptsExpected(chain: seq<string>, ps: Providers, pc: Pc, j: nat)
    requires OnCourse(chain, ps, pc) && j < |chain|
    ensures var n := |Expected(chain, ps, j, pc).attempts|;
            && Expected(chain, ps, j, pc).attempts == Upto(n) && n <= MAX_RETRY_ATTEMPTS
            && (n > 0 ==> chain[j] in ps.known && j <= Winner(chain, ps))
            && (forall a | 1 <= a < n :: ps.answer(chain[j], a).Refused?)
  {
    var n := |Expected(chain, ps, j, pc).attempts|;
    if chain[j] in ps.known && j <= pc.i {
      if j < pc.i {
        assert !Wins(ps, chain[j]);
      }
      forall a | 1 <= a < n ensures ps.answer(chain[j], a).Refused? {
        RefusedBefore(ps, chain[j], a);
      }
    }
  }

  /** A provider is sent the signal at most three times, never again once it
      accepted, and only after every registered provider before it in its target
      refused three times; unregistered ones never. */
  lemma NeverResent(targets: seq<seq<string>>, ps: Providers, schedule: seq<nat>, t: nat, j: nat)
    requires Distinct(targets) && ScheduleOf(schedule, targets) && t < |targets| && j < |targets[t]|
    ensures var p, attempts := targets[t][j], AttemptsOf(Run(targets, ps, schedule).log.sends, targets[t][j]);
            && attempts == Upto(|attempts|) && |attempts| <= MAX_RETRY_ATTEMPTS
            && (forall a | 1 <= a < |attempts| :: ps.answer(p, a).Refused?)
            && (attempts != [] ==>
                  && p in ps.known
                  && forall k, a | 0 <= k < j && 1 <= a <= MAX_RETRY_ATTEMPTS && targets[t][k] in ps.known ::
                       ps.answer(targets[t][k], a).Refused?)
  {
    RunKeeps(targets, ps, schedule);
    var s, chain := Run(targets, ps, schedule), targets[t];
    assert OnRecord(chain, ps, s.pcs[t], s.log);
    assert s.log.Seen(chain[j]).attempts == Expected(chain, ps, j, s.pcs[t]).attempts;
    AttemptsExpected(chain, ps, s.pcs[t], j);
    if AttemptsOf(s.log.sends, chain[j]) != [] {
      forall k, a | 0 <= k < j && 1 <= a <= MAX_RETRY_ATTEMPTS && chain[k] in ps.known
        ensures ps.answer(chain[k], a).Refused?
      {
        assert !Wins(ps, chain[k]);
        RefusedBefore(ps, chain[k], a);
      }
    }
  }

  function Times(schedule: seq<nat>, t: nat): nat {
    if schedule == [] then 0
    else Times(schedule[..|schedule| - 1], t) + if schedule[|schedule| - 1] == t then 1 else 0
  }

  /** Steps a target may still need. */
  function Remaining(chain: seq<string>, pc: Pc): int {
    var before := 7 * (|chain| - pc.i) + 1;
    match pc
    case Next(_) => before
    case Ready(_, a) => before - 2 * a + 1
    case Calling(_, a) => before - 2 * a
    case Done(_) => 0
  }

  lemma StepUsesUp(chain: seq<string>, ps: Providers, pc: Pc, log: Log)
    requires OnCourse(chain, ps, pc)
    ensures var pc' := Step(chain, ps, pc, log).0;
            pc'.Done? || Remaining(chain, pc') < Remaining(chain, pc)
    ensures pc.Done? ==> Step(chain, ps, pc, log).0 == pc
  {
  }

  /** Delivery ends under any scheduler that keeps giving every target its turn. */
  lemma {:induction false} FairRunEnds(targets: seq<seq<string>>, ps: Providers, schedule: seq<nat>, t: nat)
    requires Distinct(targets) && ScheduleOf(schedule, targets) && t < |targets|
    ensures var pc := Run(targets, ps, schedule).pcs[t];
            pc.Done? || 0 < Remaining(targets[t], pc) <= 7 * |targets[t]| + 1 - Times(schedule, t)
    ensures Times(schedule, t) > 7 * |targets[t]| ==> Run(targets, ps, schedule).pcs[t].Done?
  {
    RunKeeps(targets, ps, schedule);
    if schedule != [] {
      var init := schedule[..|schedule| - 1];
      FairRunEnds(targets, ps, init, t);
      RunKeeps(targets, ps, init);
      var before := Run(targets, ps, init);
      StepUsesUp(targets[t], ps, before.pcs[t], before.log);
    }
  }

  /* ----- folding the record into one result ----- */

  /** Stopping early counts a provider still pending as failed. */
  function CutOff(o: Outcome, cut: Option<string>): Outcome {
    if cut.Some? && o.status == Pending then o.(status := Failed, error := cut) else o
  }

  /** The entries of a target, in its order. */
  function Tried(chain: seq<string>, outcomes: seq<Outcome>, cut: Option<string>): seq<Outcome> {
    if chain == [] then []
    else
      var before := Tried(chain[..|chain| - 1], outcomes, cut);
      match Find(outcomes, chain[|chain| - 1])
      case None => before
      case Some(o) => before + [CutOff(o, cut)]
  }

  function Word(s: Status): string {
    match s
    case Pending => "pending"
    case Delivered => "delivered"
    case Partial => "partial"
    case Failed => "failed"
    case Skipped => "skipped"
    case Grouped => "grouped"
  }

  datatype Tally = Tally(deliveries: seq<Outcome>, delivered: seq<string>, errors: seq<string>, attempts: nat)

  function Max(a: nat, b: nat): nat {
    if a < b then b else a
  }

  /** One target's part: the provider tried last decides it. */
  function Count(tally: Tally, tried: seq<Outcome>, alone: bool): Tally {
    var t := tally.(deliveries := tally.deliveries + tried);
    if tried == [] then t.(errors := t.errors + ["no provider delivered successfully"])
    else
      var o := tried[|tried| - 1];
      if o.status == Delivered then
        t.(delivered := t.delivered + [o.provider], attempts := Max(t.attempts, o.attempts))
      else
        var error := if o.error.Some? then o.error.value else Word(o.status);
        t.(errors := if alone then [error] else t.errors + [o.provider + ": " + error],
           attempts := Max(t.attempts, o.attempts))
  }

  function CountAll(targets: seq<seq<string>>, outcomes: seq<Outcome>, cut: Option<string>, alone: bool): Tally {
    if targets == [] then Tally([], [], [], 0)
    else
      Count(CountAll(targets[..|targets| - 1], outcomes, cut, alone),
            Tried(targets[|targets| - 1], outcomes, cut), alone)
  }

  function Join(words: seq<string>, sep: string): string {
    if words == [] then ""
    else if |words| == 1 then words[0]
    else words[0] + sep + Join(words[1..], sep)
  }

  function Lines(grouped: seq<(nat, string)>): seq<string> {
    seq(|grouped|, i requires 0 <= i < |grouped| => grouped[i].1)
  }

  function Summary(plan: Plan, outcomes: seq<Outcome>, cut: Option<string>): Result {
    var tally := CountAll(plan.targets, outcomes, cut, |plan.targets| == 1);
    var status :=
      if plan.targets == [] && plan.grouped != [] then Grouped
      else if plan.targets == [] then Skipped
      else if |tally.delivered| == |plan.targets| then Delivered
      else if tally.delivered == [] then Failed
      else Partial;
    var errors := if status == Skipped then plan.suppressed else tally.errors;
    Result(
      status,
      if tally.delivered == [] then None else Some(Join(tally.delivered, ",")),
      if errors == [] then None else Some(Join(errors, "; ")),
      tally.attempts, tally.deliveries, plan.suppressed, Lines(plan.grouped))
  }

  method CollectTried(chain: seq<string>, outcomes: seq<Outcome>, cut: Option<string>) returns (tried: seq<Outcome>)
    ensures tried == Tried(chain, outcomes, cut)
  {
    tried := [];
    var i := 0;
    while i < |chain|
      invariant 0 <= i <= |chain|
      invariant tried == Tried(chain[..i], outcomes, cut)
    {
      assert chain[..i + 1][..i] == chain[..i];
      var found := Find(outcomes, chain[i]);
      if found.Some? {
        tried := tried + [CutOff(found.value, cut)];
      }
      i := i + 1;
    }
    assert chain[..i] == chain;
  }

  method Summarize(plan: Plan, outcomes: seq<Outcome>, cut: Option<string>) returns (r: Result)
    ensures r == Summary(plan, outcomes, cut)
  {
    var tally := Tally([], [], [], 0);
    var t := 0;
    while t < |plan.targets|
      invariant 0 <= t <= |plan.targets|
      invariant tally == CountAll(plan.targets[..t], outcomes, cut, |plan.targets| == 1)
    {
      assert plan.targets[..t + 1][..t] == plan.targets[..t];
      var tried := CollectTried(plan.targets[t], outcomes, cut);
      tally := AddTarget(tally, tried, |plan.targets| == 1);
      t := t + 1;
    }
    assert plan.targets[..t] == plan.targets;
    var status, errors := Partial, tally.errors;
    if plan.targets == [] && plan.grouped != [] {
      status := Grouped;
    } else if plan.targets == [] {
      errors := plan.suppressed;
      status := Skipped;
    } else if |tally.delivered| == |plan.targets| {
      status := Delivered;
    } else if tally.delivered == [] {
      status := Failed;
    }
    r := Result(status,
                if tally.delivered == [] then None else Some(Join(tally.delivered, ",")),
                if errors == [] then None else Some(Join(errors, "; ")),
                tally.attempts, tally.deliveries, plan.suppressed, Lines(plan.grouped));
  }

  method AddTarget(tally: Tally, tried: seq<Outcome>, alone: bool) returns (t: Tally)
    ensures t == Count(tally, tried, alone)
  {
    var delivered, errors, attempts := tally.delivered, tally.errors, tally.attempts;
    if tried == [] {
      errors := errors + ["no provider delivered successfully"];
    } else {
      var o := tried[|tried| - 1];
      if o.status == Delivered {
        delivered := delivered + [o.provider];
      } else {
        var error := if o.error.Some? then o.error.value else Word(o.status);
        errors := errors + [o.provider + ": " + error];
        if alone {
          errors := [error];
        }
      }
      attempts := Max(attempts, o.attempts);
    }
    t := Tally(tally.deliveries + tried, delivered, errors, attempts);
  }

  /* ----- what the result says ----- */

  ghost predicate Reached(chain: seq<string>, outcomes: seq<Outcome>) {
    exists j | 0 <= j < |chain| :: Find(outcomes, chain[j]).Some? && Find(outcomes, chain[j]).value.status == Delivered
  }

  predicate LastDelivered(tried: seq<Outcome>) {
    tried != [] && tried[|tried| - 1].status == Delivered
  }

  lemma {:induction false} TriedEnds(chain: seq<string>, outcomes: seq<Outcome>, cut: Option<string>, last: nat)
    requires last < |chain| && Find(outcomes, chain[last]).Some?
    requires forall j | last < j < |chain| :: Find(outcomes, chain[j]).None?
    ensures var tried := Tried(chain, outcomes, cut);
            tried != [] && tried[|tried| - 1] == CutOff(Find(outcomes, chain[last]).value, cut)
  {
    if last < |chain| - 1 {
      TriedEnds(chain[..|chain| - 1], outcomes, cut, last);
    }
  }

  lemma {:induction false} TriedComesFrom(chain: seq<string>, outcomes: seq<Outcome>, cut: Option<string>, o: Outcome)
    ensures o in Tried(chain, outcomes, cut) <==>
            exists j | 0 <= j < |chain| :: Find(outcomes, chain[j]).Some?
              && CutOff(Find(outcomes, chain[j]).value, cut) == o
  {
    if chain != [] {
      var init := chain[..|chain| - 1];
      TriedComesFrom(init, outcomes, cut, o);
      assert forall j | 0 <= j < |init| :: init[j] == chain[j];
    }
  }

  lemma FoundAsExpected(chain: seq<string>, ps: Providers, pc: Pc, log: Log)
    requires OnRecord(chain, ps, pc, log)
    ensures forall j | 0 <= j < |chain| :: Find(log.outcomes, chain[j]) == Expected(chain, ps, j, pc).outcome
  {
    forall j | 0 <= j < |chain| ensures Find(log.outcomes, chain[j]) == Expected(chain, ps, j, pc).outcome {
      assert log.Seen(chain[j]).outcome == Find(log.outcomes, chain[j]);
    }
  }

  lemma LastOfCourse(chain: seq<string>, ps: Providers, pc: Pc, log: Log, cut: Option<string>)
    requires OnCourse(chain, ps, pc) && OnRecord(chain, ps, pc, log)
    ensures LastDelivered(Tried(chain, log.outcomes, cut)) <==> Reached(chain, log.outcomes)
  {
    FoundAsExpected(chain, ps, pc, log);
    var tried := Tried(chain, log.outcomes, cut);
    if Reached(chain, log.outcomes) {
      TriedEnds(chain, log.outcomes, cut, pc.i);
    }
    if LastDelivered(tried) {
      TriedComesFrom(chain, log.outcomes, cut, tried[|tried| - 1]);
    }
  }

  /** In any run, the entry tried last decides its target. */
  lemma LastDecides(targets: seq<seq<string>>, ps: Providers, schedule: seq<nat>, cut: Option<string>, t: nat)
    requires Distinct(targets) && ScheduleOf(schedule, targets) && t < |targets|
    ensures var outcomes := Run(targets, ps, schedule).log.outcomes;
            LastDelivered(Tried(targets[t], outcomes, cut)) <==> Reached(targets[t], outcomes)
  {
    RunKeeps(targets, ps, schedule);
    var s := Run(targets, ps, schedule);
    LastOfCourse(targets[t], ps, s.pcs[t], s.log, cut);
  }

  /** How many targets were delivered. */
  function Won(targets: seq<seq<string>>, outcomes: seq<Outcome>, cut: Option<string>): nat {
    if targets == [] then 0
    else
      Won(targets[..|targets| - 1], outcomes, cut)
      + if LastDelivered(Tried(targets[|targets| - 1], outcomes, cut)) then 1 else 0
  }

  lemma {:induction false} CountsWon(targets: seq<seq<string>>, outcomes: seq<Outcome>, cut: Option<string>,
      alone: bool)
    ensures |CountAll(targets, outcomes, cut, alone).delivered| == Won(targets, outcomes, cut)
  {
    if targets != [] {
      var init := targets[..|targets| - 1];
      CountsWon(init, outcomes, cut, alone);
      CountAdds(CountAll(init, outcomes, cut, alone), Tried(targets[|init|], outcomes, cut), alone);
    }
  }

  lemma {:induction false} WonAllOrNone(targets: seq<seq<string>>, outcomes: seq<Outcome>, cut: Option<string>)
    ensures Won(targets, outcomes, cut) <= |targets|
    ensures Won(targets, outcomes, cut) == |targets| <==>
            forall t | 0 <= t < |targets| :: LastDelivered(Tried(targets[t], outcomes, cut))
    ensures Won(targets, outcomes, cut) == 0 <==>
            forall t | 0 <= t < |targets| :: !LastDelivered(Tried(targets[t], outcomes, cut))
  {
    if targets != [] {
      var init := targets[..|targets| - 1];
      WonAllOrNone(init, outcomes, cut);
      assert forall t | 0 <= t < |init| :: init[t] == targets[t];
    }
  }

  /** Cut off anywhere, the status says exactly which targets have the signal. */
  lemma CutAnywhereIsSound(plan: Plan, ps: Providers, schedule: seq<nat>, cut: Option<string>)
    requires Distinct(plan.targets) && ScheduleOf(schedule, plan.targets) && plan.targets != []
    ensures var outcomes := Run(plan.targets, ps, schedule).log.outcomes;
            var status := Summary(plan, outcomes, cut).status;
            && (status == Delivered <==> forall t | 0 <= t < |plan.targets| :: Reached(plan.targets[t], outcomes))
            && (status == Failed <==> forall t | 0 <= t < |plan.targets| :: !Reached(plan.targets[t], outcomes))
            && (status == Partial <==> status != Delivered && status != Failed)
  {
    var outcomes := Run(plan.targets, ps, schedule).log.outcomes;
    CountsWon(plan.targets, outcomes, cut, |plan.targets| == 1);
    WonAllOrNone(plan.targets, outcomes, cut);
    forall t | 0 <= t < |plan.targets|
      ensures LastDelivered(Tried(plan.targets[t], outcomes, cut)) <==> Reached(plan.targets[t], outcomes)
    {
      LastDecides(plan.targets, ps, schedule, cut, t);
    }
    StatusCounts(plan, outcomes, cut);
  }

  lemma StatusCounts(plan: Plan, outcomes: seq<Outcome>, cut: Option<string>)
    requires plan.targets != []
    ensures var n := |CountAll(plan.targets, outcomes, cut, |plan.targets| == 1).delivered|;
            var status := Summary(plan, outcomes, cut).status;
            && (status == Delivered <==> n == |plan.targets|)
            && (status == Failed <==> n == 0)
            && (status == Partial <==> n != 0 && n != |plan.targets|)
  {
  }

  lemma CountAdds(tally: Tally, tried: seq<Outcome>, alone: bool)
    ensures Count(tally, tried, alone).deliveries == tally.deliveries + tried
    ensures |Count(tally, tried, alone).delivered| == |tally.delivered| + if LastDelivered(tried) then 1 else 0
  {
  }

  lemma DeliveriesOf(targets: seq<seq<string>>, outcomes: seq<Outcome>, cut: Option<string>, alone: bool)
    requires targets != []
    ensures CountAll(targets, outcomes, cut, alone).deliveries
         == CountAll(targets[..|targets| - 1], outcomes, cut, alone).deliveries
            + Tried(targets[|targets| - 1], outcomes, cut)
  {
    var init, last := targets[..|targets| - 1], targets[|targets| - 1];
    CountAdds(CountAll(init, outcomes, cut, alone), Tried(last, outcomes, cut), alone);
  }

  lemma {:induction false} DeliveriesComeFrom(targets: seq<seq<string>>, outcomes: seq<Outcome>, cut: Option<string>,
      alone: bool, o: Outcome, t: nat)
    requires t < |targets| && o in Tried(targets[t], outcomes, cut)
    ensures o in CountAll(targets, outcomes, cut, alone).deliveries
  {
    var init := targets[..|targets| - 1];
    DeliveriesOf(targets, outcomes, cut, alone);
    if t < |init| {
      DeliveriesComeFrom(init, outcomes, cut, alone, o, t);
    }
  }

  /** Every reported entry is the record of a provider of the plan. */
  lemma {:induction false} DeliveriesAreTried(targets: seq<seq<string>>, outcomes: seq<Outcome>, cut: Option<string>,
      alone: bool, o: Outcome)
    returns (t: nat)
    requires o in CountAll(targets, outcomes, cut, alone).deliveries
    ensures t < |targets| && o in Tried(targets[t], outcomes, cut)
  {
    var init := targets[..|targets| - 1];
    DeliveriesOf(targets, outcomes, cut, alone);
    if o in Tried(targets[|init|], outcomes, cut) {
      t := |init|;
    } else {
      t := DeliveriesAreTried(init, outcomes, cut, alone, o);
    }
  }

  /** A recorded delivery is reported as it is, and nothing a cut reports is still pending. */
  lemma DeliveredStaysDelivered(plan: Plan, outcomes: seq<Outcome>, cut: Option<string>, t: nat, j: nat)
    requires t < |plan.targets| && j < |plan.targets[t]| && Find(outcomes, plan.targets[t][j]).Some?
    ensures var o := Find(outcomes, plan.targets[t][j]).value;
            && CutOff(o, cut) in Summary(plan, outcomes, cut).deliveries
            && (o.status == Delivered ==> CutOff(o, cut) == o)
            && (cut.Some? ==> CutOff(o, cut).status != Pending)
  {
    var o := CutOff(Find(outcomes, plan.targets[t][j]).value, cut);
    TriedComesFrom(plan.targets[t], outcomes, cut, o);
    DeliveriesComeFrom(plan.targets, outcomes, cut, |plan.targets| == 1, o, t);
  }

  /** Only an empty plan with a group waiting reads `grouped`; a digest's plan has none. */
  lemma GroupedOnlyWhenHeld(plan: Plan, outcomes: seq<Outcome>, cut: Option<string>)
    ensures Summary(plan, outcomes, cut).status == Grouped <==> plan.targets == [] && plan.grouped != []
    ensures Summary(plan, outcomes, cut).status != Pending
  {
  }

  /* ----- the schedule does not matter ----- */

  lemma {:induction false} TriedAlike(chain: seq<string>, a: seq<Outcome>, b: seq<Outcome>, cut: Option<string>)
    requires forall j | 0 <= j < |chain| :: Find(a, chain[j]) == Find(b, chain[j])
    ensures Tried(chain, a, cut) == Tried(chain, b, cut)
  {
    if chain != [] {
      TriedAlike(chain[..|chain| - 1], a, b, cut);
    }
  }

  lemma {:induction false} CountedAlike(targets: seq<seq<string>>, a: seq<Outcome>, b: seq<Outcome>,
      cut: Option<string>, alone: bool)
    requires forall t, j | 0 <= t < |targets| && 0 <= j < |targets[t]| ::
        Find(a, targets[t][j]) == Find(b, targets[t][j])
    ensures CountAll(targets, a, cut, alone) == CountAll(targets, b, cut, alone)
  {
    if targets != [] {
      var last := targets[|targets| - 1];
      forall j | 0 <= j < |last| ensures Find(a, last[j]) == Find(b, last[j]) {
        assert last[j] == targets[|targets| - 1][j];
      }
      CountedAlike(targets[..|targets| - 1], a, b, cut, alone);
      TriedAlike(last, a, b, cut);
    }
  }

  /** What a finished delivery leaves on record for each provider of the plan. */
  ghost predicate Settled(targets: seq<seq<string>>, ps: Providers, log: Log) {
    forall t | 0 <= t < |targets| :: OnRecord(targets[t], ps, Done(Winner(targets[t], ps)), log)
  }

  lemma SettledAlike(plan: Plan, ps: Providers, a: Log, b: Log)
    requires Settled(plan.targets, ps, a) && Settled(plan.targets, ps, b)
    ensures Summary(plan, a.outcomes, None) == Summary(plan, b.outcomes, None)
  {
    forall t, j | 0 <= t < |plan.targets| && 0 <= j < |plan.targets[t]|
      ensures Find(a.outcomes, plan.targets[t][j]) == Find(b.outcomes, plan.targets[t][j])
    {
      assert OnRecord(plan.targets[t], ps, Done(Winner(plan.targets[t], ps)), a);
      assert OnRecord(plan.targets[t], ps, Done(Winner(plan.targets[t], ps)), b);
      assert a.Seen(plan.targets[t][j]) == b.Seen(plan.targets[t][j]);
    }
    CountedAlike(plan.targets, a.outcomes, b.outcomes, None, |plan.targets| == 1);
  }

  /** Every complete interleaving leaves the same record and gives the same result. */
  lemma ScheduleDoesNotMatter(plan: Plan, ps: Providers, s1: seq<nat>, s2: seq<nat>)
    requires Distinct(plan.targets) && ScheduleOf(s1, plan.targets) && ScheduleOf(s2, plan.targets)
    requires Complete(Run(plan.targets, ps, s1)) && Complete(Run(plan.targets, ps, s2))
    ensures Settled(plan.targets, ps, Run(plan.targets, ps, s1).log)
    ensures forall t, j | 0 <= t < |plan.targets| && 0 <= j < |plan.targets[t]| ::
              Run(plan.targets, ps, s1).log.Seen(plan.targets[t][j])
                == Run(plan.targets, ps, s2).log.Seen(plan.targets[t][j])
    ensures Summary(plan, Run(plan.targets, ps, s1).log.outcomes, None)
         == Summary(plan, Run(plan.targets, ps, s2).log.outcomes, None)
  {
    RunKeeps(plan.targets, ps, s1);
    RunKeeps(plan.targets, ps, s2);
    SettledAlike(plan, ps, Run(plan.targets, ps, s1).log, Run(plan.targets, ps, s2).log);
  }

  /** The providers that got the signal, in plan order. */
  function WinnerNames(targets: seq<seq<string>>, ps: Providers): seq<string> {
    if targets == [] then []
    else
      var chain := targets[|targets| - 1];
      var w := Winner(chain, ps);
      WinnerNames(targets[..|targets| - 1], ps) + if w < |chain| then [chain[w]] else []
  }

  lemma SettledTarget(chain: seq<string>, ps: Providers, log: Log)
    requires OnRecord(chain, ps, Done(Winner(chain, ps)), log)
    ensures var tried, w := Tried(chain, log.outcomes, None), Winner(chain, ps);
            && (LastDelivered(tried) <==> w < |chain|)
            && (w < |chain| ==>
              tried[|tried| - 1] == Outcome(chain[w], Delivered, None, FirstSuccess(ps, chain[w]).value))
  {
    var tried, w := Tried(chain, log.outcomes, None), Winner(chain, ps);
    FoundAsExpected(chain, ps, Done(w), log);
    if w < |chain| {
      TriedEnds(chain, log.outcomes, None, w);
    } else if LastDelivered(tried) {
      TriedComesFrom(chain, log.outcomes, None, tried[|tried| - 1]);
    }
  }

  /** A finished delivery names, per target, the first registered provider that
      accepts one of three attempts, and nobody else. */
  lemma {:induction false} SettledNames(targets: seq<seq<string>>, ps: Providers, log: Log, alone: bool)
    requires Settled(targets, ps, log)
    ensures CountAll(targets, log.outcomes, None, alone).delivered == WinnerNames(targets, ps)
  {
    if targets != [] {
      SettledNames(targets[..|targets| - 1], ps, log, alone);
      SettledTarget(targets[|targets| - 1], ps, log);
    }
  }

  /** So it failed exactly when there were targets and nobody accepted. */
  lemma SettledFails(plan: Plan, ps: Providers, log: Log)
    requires Settled(plan.targets, ps, log)
    ensures Summary(plan, log.outcomes, None).status.Failed? <==>
            plan.targets != [] && WinnerNames(plan.targets, ps) == []
  {
    SettledNames(plan.targets, ps, log, |plan.targets| == 1);
    if plan.targets != [] {
      StatusCounts(plan, log.outcomes, None);
    }
  }

  /* ----- the tracker and the loops over it ----- */

  lemma {:induction false} ReportedAt(outcomes: seq<Outcome>, o: Outcome, i: nat)
    requires i <= |outcomes| && forall k | 0 <= k < i :: outcomes[k].provider != o.provider
    requires i < |outcomes| ==> outcomes[i].provider == o.provider
    ensures Reported(outcomes, o) == if i < |outcomes| then outcomes[i := o] else outcomes + [o]
  {
    if i > 0 {
      ReportedAt(outcomes[1..], o, i - 1);
      assert outcomes == [outcomes[0]] + outcomes[1..];
    }
  }

  class Tracker {
    var outcomes: seq<Outcome>
    var refs: map<string, string>
    /** What the providers were sent: not state of the tracker, only of the world. */
    ghost var sends: seq<(string, nat)>

    constructor ()
      ensures OnFile() == Log([], map[], [])
    {
      outcomes, refs, sends := [], map[], [];
    }

    ghost function OnFile(): Log
      reads this
    {
      Log(outcomes, refs, sends)
    }

    method Report(o: Outcome)
      modifies this
      ensures OnFile() == old(OnFile()).Report(o)
    {
      var i := 0;
      while i < |outcomes| && outcomes[i].provider != o.provider
        invariant 0 <= i <= |outcomes|
        invariant forall k | 0 <= k < i :: outcomes[k].provider != o.provider
      {
        i := i + 1;
      }
      ReportedAt(outcomes, o, i);
      outcomes := if i < |outcomes| then outcomes[i := o] else outcomes + [o];
    }

    method KeepRef(p: string, alertRef: string)
      modifies this
      ensures OnFile() == old(OnFile()).KeepRef(p, Some(alertRef))
    {
      refs := refs[p := alertRef];
    }

    /** One whole target, as the step machine runs it when nothing else does. */
    method DeliverChain(chain: seq<string>, ps: Providers)
      requires Distinct([chain]) && OnRecord(chain, ps, Next(0), OnFile())
      modifies this
      ensures OnRecord(chain, ps, Done(Winner(chain, ps)), OnFile())
      ensures forall q | q !in chain :: OnFile().Seen(q) == old(OnFile().Seen(q))
    {
      var i := 0;
      while i < |chain|
        invariant 0 <= i <= |chain| && OnCourse(chain, ps, Next(i)) && OnRecord(chain, ps, Next(i), OnFile())
        invariant forall q | q !in chain :: OnFile().Seen(q) == old(OnFile().Seen(q))
      {
        StepKeeps(chain, ps, Next(i), OnFile());
        if chain[i] in ps.known {
          Report(Outcome(chain[i], Pending, None, 0));
          var delivered := Attempt(chain, ps, i);
          if delivered {
            return;
          }
        }
        i := i + 1;
      }
      StepKeeps(chain, ps, Next(i), OnFile());
    }

    /** One attempt: the error it gave, or none once the provider has the signal. */
    method SendOnce(chain: seq<string>, ps: Providers, i: nat, attempt: nat) returns (error: Option<string>)
      requires Distinct([chain]) && i < |chain|
      requires OnCourse(chain, ps, Ready(i, attempt)) && OnRecord(chain, ps, Ready(i, attempt), OnFile())
      modifies this
      ensures error == (match ps.answer(chain[i], attempt) case Accepted(_) => None case Refused(e) => Some(e))
      ensures var pc := if error.Some? then Calling(i, attempt) else Done(i);
              OnCourse(chain, ps, pc) && OnRecord(chain, ps, pc, OnFile())
      ensures forall q | q !in chain :: OnFile().Seen(q) == old(OnFile().Seen(q))
    {
      StepKeeps(chain, ps, Ready(i, attempt), OnFile());
      sends := sends + [(chain[i], attempt)];
      match ps.answer(chain[i], attempt) {
        case Accepted(alertRef) =>
          StepKeeps(chain, ps, Calling(i, attempt), OnFile());
          if alertRef.Some? {
            KeepRef(chain[i], alertRef.value);
          }
          Report(Outcome(chain[i], Delivered, None, attempt));
          error := None;
        case Refused(e) =>
          error := Some(e);
      }
    }

    /** The retry loop on one provider, up to its final report. */
    method Attempt(chain: seq<string>, ps: Providers, i: nat) returns (delivered: bool)
      requires Distinct([chain]) && i < |chain| && OnCourse(chain, ps, Ready(i, 1))
          && OnRecord(chain, ps, Ready(i, 1), OnFile())
      modifies this
      ensures var pc := if delivered then Done(i) else Next(i + 1);
              OnCourse(chain, ps, pc) && OnRecord(chain, ps, pc, OnFile())
      ensures forall q | q !in chain :: OnFile().Seen(q) == old(OnFile().Seen(q))
    {
      var lastError: Option<string> := None;
      var attempt := 1;
      while attempt <= MAX_RETRY_ATTEMPTS
        invariant 1 <= attempt <= MAX_RETRY_ATTEMPTS + 1
        invariant var pc := if attempt <= MAX_RETRY_ATTEMPTS then Ready(i, attempt) else Calling(i, MAX_RETRY_ATTEMPTS);
                  OnCourse(chain, ps, pc) && OnRecord(chain, ps, pc, OnFile())
        invariant attempt > MAX_RETRY_ATTEMPTS ==>
                    ps.answer(chain[i], MAX_RETRY_ATTEMPTS).Refused?
                    && lastError == Some(ps.answer(chain[i], MAX_RETRY_ATTEMPTS).error)
        invariant forall q | q !in chain :: OnFile().Seen(q) == old(OnFile().Seen(q))
      {
        lastError := SendOnce(chain, ps, i, attempt);
        if lastError.None? {
          return true;
        }
        if attempt < MAX_RETRY_ATTEMPTS {
          StepKeeps(chain, ps, Calling(i, attempt), OnFile());
        }
        attempt := attempt + 1;
      }
      GiveUp(chain, ps, i, lastError);
      return false;
    }

    method GiveUp(chain: seq<string>, ps: Providers, i: nat, lastError: Option<string>)
      requires Distinct([chain]) && i < |chain|
      requires lastError.Some? && ps.answer(chain[i], MAX_RETRY_ATTEMPTS) == Refused(lastError.value)
      requires OnCourse(chain, ps, Calling(i, MAX_RETRY_ATTEMPTS))
          && OnRecord(chain, ps, Calling(i, MAX_RETRY_ATTEMPTS), OnFile())
      modifies this
      ensures OnCourse(chain, ps, Next(i + 1)) && OnRecord(chain, ps, Next(i + 1), OnFile())
      ensures forall q | q !in chain :: OnFile().Seen(q) == old(OnFile().Seen(q))
    {
      StepKeeps(chain, ps, Calling(i, MAX_RETRY_ATTEMPTS), OnFile());
      Report(Outcome(chain[i], Failed, lastError, MAX_RETRY_ATTEMPTS));
    }

    /** Delivers the targets one after another, and reports what every
        concurrent run of them reports once it is complete. */
    method Deliver(plan: Plan, ps: Providers) returns (r: Result)
      requires Distinct(plan.targets) && OnFile() == Log([], map[], [])
      modifies this
      ensures Settled(plan.targets, ps, OnFile()) && r == Summary(plan, OnFile().outcomes, None)
      ensures forall s | ScheduleOf(s, plan.targets) && Complete(Run(plan.targets, ps, s)) ::
                r == Summary(plan, Run(plan.targets, ps, s).log.outcomes, None)
    {
      var t := 0;
      while t < |plan.targets|
        invariant 0 <= t <= |plan.targets|
        invariant forall u | 0 <= u < t :: OnRecord(plan.targets[u], ps, Done(Winner(plan.targets[u], ps)), OnFile())
        invariant forall u | t <= u < |plan.targets| :: OnRecord(plan.targets[u], ps, Next(0), OnFile())
      {
        OneOf(plan.targets, t);
        label Before:
        DeliverChain(plan.targets[t], ps);
        forall u, j | 0 <= u < |plan.targets| && u != t && 0 <= j < |plan.targets[u]|
          ensures OnFile().Seen(plan.targets[u][j]) == old@Before(OnFile().Seen(plan.targets[u][j]))
        {
          assert plan.targets[u][j] !in plan.targets[t];
        }
        t := t + 1;
      }
      r := Summarize(plan, outcomes, None);
      forall s | ScheduleOf(s, plan.targets) && Complete(Run(plan.targets, ps, s))
        ensures r == Summary(plan, Run(plan.targets, ps, s).log.outcomes, None)
      {
        ScheduleDoesNotMatter(plan, ps, s, s);
        SettledAlike(plan, ps, OnFile(), Run(plan.targets, ps, s).log);
      }
    }
  }
}
