/** The stored status of each signal while callers hold it in groups, digests go
    out and its own delivery runs (crates/core/src/lib.rs). Which members a group
    closes with is left open here: any held ones may leave together. */
module Rows {
  import opened Basics
  import opened Delivery

  /** How far the caller is: its row is stored, `next` counts the groups it has
      joined, or its own delivery is under way. */
  datatype Caller = Recorded | Holding(next: nat) | Sending | Returned

  datatype Call = Call(plan: Plan, caller: Caller)

  /** One signal in one of its groups, and whether its row waits for the digest. */
  datatype Part = Part(id: nat, index: nat, ownsRow: bool)

  /** A closed group being sent, and how many of its members have been written. */
  datatype Digest = Digest(parts: seq<Part>, outcome: Option<Status>, written: nat)

  datatype State = State(calls: map<nat, Call>, open: set<Part>, digests: map<nat, Digest>, rows: map<nat, Status>)

  const START := State(map[], {}, map[], map[])

  datatype Step =
    | Notify(id: nat, plan: Plan)
    | Settle(id: nat)
    | Begin(id: nat)
    | Hold(id: nat)
    | Leave(id: nat)
    | SendNow(id: nat)
    | Complete(id: nat, outcomes: seq<Outcome>, cut: Option<string>)
    | Close(n: nat, parts: seq<Part>)
    | Decide(n: nat, plan: Plan, outcomes: seq<Outcome>)
    | Write(n: nat)
    | Finish(n: nat)

  predicate HasJoined(c: Call) {
    c.caller == Holding(|c.plan.grouped|)
  }

  ghost predicate Enabled(s: State, a: Step) {
    match a
    case Notify(id, _) => id !in s.calls
    case Settle(id) => id in s.calls && s.calls[id].caller.Recorded? && s.calls[id].plan.targets == []
    case Begin(id) => id in s.calls && s.calls[id].caller.Recorded? && s.calls[id].plan.targets != []
    case Hold(id) => id in s.calls && s.calls[id].caller.Holding?
        && s.calls[id].caller.next < |s.calls[id].plan.grouped|
    case Leave(id) => id in s.calls && HasJoined(s.calls[id]) && s.calls[id].plan.targets == []
    case SendNow(id) => id in s.calls && HasJoined(s.calls[id]) && s.calls[id].plan.targets != []
    case Complete(id, _, _) => id in s.calls && s.calls[id].caller.Sending?
    case Close(n, parts) => n !in s.digests && parts != [] && forall p | p in parts :: p in s.open
    case Decide(n, plan, _) => n in s.digests && s.digests[n].outcome.None? && plan.grouped == []
    case Write(n) => n in s.digests && s.digests[n].outcome.Some? && s.digests[n].written < |s.digests[n].parts|
    case Finish(n) => n in s.digests && s.digests[n].outcome.Some? && s.digests[n].written == |s.digests[n].parts|
  }

  function Goes(calls: map<nat, Call>, id: nat, caller: Caller): map<nat, Call>
    requires id in calls
  {
    calls[id := calls[id].(caller := caller)]
  }

  function AfterWrite(rows: map<nat, Status>, d: Digest): map<nat, Status>
    requires d.outcome.Some? && d.written < |d.parts|
  {
    var p := d.parts[d.written];
    if p.ownsRow then rows[p.id := d.outcome.value] else rows
  }

  ghost function Do(s: State, a: Step): State
    requires Enabled(s, a)
  {
    match a
    case Notify(id, plan) => s.(calls := s.calls[id := Call(plan, Recorded)], rows := s.rows[id := Pending])
    case Settle(id) =>
      s.(calls := Goes(s.calls, id, Holding(0)), rows := s.rows[id := Summary(s.calls[id].plan, [], None).status])
    case Begin(id) => s.(calls := Goes(s.calls, id, Holding(0)))
    case Hold(id) =>
      var c := s.calls[id];
      s.(calls := Goes(s.calls, id, Holding(c.caller.next + 1)),
         open := s.open + {Part(id, c.caller.next, c.plan.targets == [])})
    case Leave(id) => s.(calls := Goes(s.calls, id, Returned))
    case SendNow(id) => s.(calls := Goes(s.calls, id, Sending))
    case Complete(id, outcomes, cut) =>
      s.(calls := Goes(s.calls, id, Returned), rows := s.rows[id := Summary(s.calls[id].plan, outcomes, cut).status])
    case Close(n, parts) =>
      s.(open := s.open - (set p | p in parts), digests := s.digests[n := Digest(parts, None, 0)])
    case Decide(n, plan, outcomes) =>
      s.(digests := s.digests[n := s.digests[n].(outcome := Some(Summary(plan, outcomes, None).status))])
    case Write(n) =>
      var d := s.digests[n];
      s.(digests := s.digests[n := d.(written := d.written + 1)], rows := AfterWrite(s.rows, d))
    case Finish(n) => s.(digests := s.digests - {n})
  }

  /** A run: any steps that are possible, in any order. */
  ghost predicate Legal(steps: seq<Step>)
    decreases |steps|, 0
  {
    steps == [] || (Legal(steps[..|steps| - 1]) && Enabled(After(steps[..|steps| - 1]), steps[|steps| - 1]))
  }

  ghost function After(steps: seq<Step>): State
    requires Legal(steps)
    decreases |steps|, 1
  {
    if steps == [] then START else Do(After(steps[..|steps| - 1]), steps[|steps| - 1])
  }

  /* ----- what every step keeps ----- */

  /** A group's member is a signal whose row was settled before it joined. */
  ghost predicate Joined(calls: map<nat, Call>, p: Part) {
    && p.id in calls
    && !calls[p.id].caller.Recorded?
    && (p.ownsRow <==> calls[p.id].plan.targets == [])
  }

  predicate Final(st: Status) {
    !st.Pending? && !st.Grouped?
  }

  ghost predicate PartsJoined(s: State) {
    && (forall p | p in s.open :: Joined(s.calls, p))
    && (forall n, i | n in s.digests && 0 <= i < |s.digests[n].parts| :: Joined(s.calls, s.digests[n].parts[i]))
  }

  /** No digest is decided as held or pending. */
  ghost predicate DigestsFinal(s: State) {
    forall n | n in s.digests ::
      && s.digests[n].written <= |s.digests[n].parts|
      && (s.digests[n].outcome.Some? ==> Final(s.digests[n].outcome.value))
  }

  /** What a row may read while its caller is where it is. */
  predicate RowFits(c: Call, st: Status) {
    if c.plan.targets != [] then
      if c.caller.Returned? then Final(st) else st.Pending?
    else
      && !c.caller.Sending?
      && (c.caller.Recorded? <==> st.Pending?)
      && (c.plan.grouped == [] ==> !st.Grouped?)
  }

  ghost predicate AllFit(calls: map<nat, Call>, rows: map<nat, Status>) {
    rows.Keys == calls.Keys && forall id | id in calls :: RowFits(calls[id], rows[id])
  }

  ghost predicate RowsFit(s: State) {
    AllFit(s.calls, s.rows)
  }

  /** The caller is about to hold the signal once more. */
  predicate ToJoin(c: Call) {
    c.caller.Holding? && c.caller.next < |c.plan.grouped|
  }

  ghost predicate InOpen(open: set<Part>, id: nat) {
    exists p | p in open :: p.id == id && p.ownsRow
  }

  ghost predicate InDigest(d: Digest, id: nat) {
    exists i | d.written <= i < |d.parts| :: d.parts[i].id == id && d.parts[i].ownsRow
  }

  /** Some digest is still going to write the row. */
  ghost predicate Awaited(s: State, id: nat) {
    && id in s.calls
    && (ToJoin(s.calls[id]) || InOpen(s.open, id) || exists n | n in s.digests :: InDigest(s.digests[n], id))
  }

  ghost predicate GroupedAwaited(s: State) {
    forall id | id in s.rows && s.rows[id].Grouped? :: Awaited(s, id)
  }

  lemma PartsKept(s: State, a: Step)
    requires PartsJoined(s) && Enabled(s, a)
    ensures PartsJoined(Do(s, a))
  {
  }

  lemma DigestsKept(s: State, a: Step)
    requires DigestsFinal(s) && Enabled(s, a)
    ensures DigestsFinal(Do(s, a))
  {
    if a.Decide? {
      GroupedOnlyWhenHeld(a.plan, a.outcomes, None);
    }
  }

  lemma RowsKeptByWrite(calls: map<nat, Call>, rows: map<nat, Status>, d: Digest)
    requires AllFit(calls, rows)
    requires d.outcome.Some? && d.written < |d.parts| && Final(d.outcome.value) && Joined(calls, d.parts[d.written])
    ensures AllFit(calls, AfterWrite(rows, d))
  {
  }

  lemma RowsKeptByCaller(calls: map<nat, Call>, rows: map<nat, Status>, id: nat, c: Call, st: Status)
    requires AllFit(calls, rows) && RowFits(c, st)
    ensures AllFit(calls[id := c], rows[id := st])
    ensures id in rows && rows[id] == st ==> AllFit(calls[id := c], rows)
  {
  }

  lemma RowsKept(s: State, a: Step)
    requires PartsJoined(s) && DigestsFinal(s) && RowsFit(s) && Enabled(s, a)
    ensures RowsFit(Do(s, a))
  {
    var t := Do(s, a);
    match a {
      case Settle(id) =>
        GroupedOnlyWhenHeld(s.calls[id].plan, [], None);
        RowsKeptByCaller(s.calls, s.rows, id, t.calls[id], t.rows[id]);
      case Complete(id, outcomes, cut) =>
        GroupedOnlyWhenHeld(s.calls[id].plan, outcomes, cut);
        RowsKeptByCaller(s.calls, s.rows, id, t.calls[id], t.rows[id]);
      case Notify(id, plan) => RowsKeptByCaller(s.calls, s.rows, id, Call(plan, Recorded), Pending);
      case Begin(id) => RowsKeptByCaller(s.calls, s.rows, id, t.calls[id], s.rows[id]);
      case Hold(id) => RowsKeptByCaller(s.calls, s.rows, id, t.calls[id], s.rows[id]);
      case Leave(id) => RowsKeptByCaller(s.calls, s.rows, id, t.calls[id], s.rows[id]);
      case SendNow(id) => RowsKeptByCaller(s.calls, s.rows, id, t.calls[id], s.rows[id]);
      case Write(n) => RowsKeptByWrite(s.calls, s.rows, s.digests[n]);
      case _ =>
    }
  }

  lemma AwaitedAfterHold(s: State, id: nat, other: nat)
    requires Enabled(s, Hold(other)) && Awaited(s, id) && s.calls[id].plan.targets == []
    ensures Awaited(Do(s, Hold(other)), id)
  {
    var t := Do(s, Hold(other));
    if other == id {
      assert Part(id, s.calls[id].caller.next, true) in t.open;
    } else if InOpen(s.open, id) {
      var p :| p in s.open && p.id == id && p.ownsRow;
      assert p in t.open;
    }
  }

  lemma AwaitedAfterClose(s: State, id: nat, n: nat, parts: seq<Part>)
    requires Enabled(s, Close(n, parts)) && Awaited(s, id)
    ensures Awaited(Do(s, Close(n, parts)), id)
  {
    var t := Do(s, Close(n, parts));
    if InOpen(s.open, id) {
      var p :| p in s.open && p.id == id && p.ownsRow;
      if p in parts {
        var i :| 0 <= i < |parts| && parts[i] == p;
        assert InDigest(t.digests[n], id);
      } else {
        assert p in t.open;
      }
    } else if !ToJoin(s.calls[id]) {
      var m :| m in s.digests && InDigest(s.digests[m], id);
      assert m in t.digests && t.digests[m] == s.digests[m];
    }
  }

  /** Writing one member's row still leaves the others to be written. */
  lemma InDigestAfterWrite(d: Digest, id: nat)
    requires d.written < |d.parts| && InDigest(d, id)
    requires !(d.parts[d.written].ownsRow && d.parts[d.written].id == id)
    ensures InDigest(d.(written := d.written + 1), id)
  {
    var i :| d.written <= i < |d.parts| && d.parts[i].id == id && d.parts[i].ownsRow;
    assert d.(written := d.written + 1).parts[i] == d.parts[i];
  }

  lemma AwaitedAfterDigestStep(s: State, id: nat, a: Step)
    requires (a.Write? || a.Decide? || a.Finish?) && Enabled(s, a) && Awaited(s, id)
    requires a.Write? ==> var d := s.digests[a.n]; !(d.parts[d.written].ownsRow && d.parts[d.written].id == id)
    ensures Awaited(Do(s, a), id)
  {
    var t := Do(s, a);
    if !ToJoin(s.calls[id]) && !InOpen(s.open, id) {
      var m :| m in s.digests && InDigest(s.digests[m], id);
      if a.Write? && a.n == m {
        InDigestAfterWrite(s.digests[m], id);
      }
      assert m in t.digests && InDigest(t.digests[m], id);
    }
  }

  lemma AwaitedKept(s: State, a: Step, id: nat)
    requires PartsJoined(s) && DigestsFinal(s) && RowsFit(s) && GroupedAwaited(s) && Enabled(s, a)
    requires id in Do(s, a).rows && Do(s, a).rows[id].Grouped?
    ensures Awaited(Do(s, a), id)
  {
    match a {
      case Settle(other) =>
        GroupedOnlyWhenHeld(s.calls[other].plan, [], None);
        if other == id {
          assert ToJoin(Do(s, a).calls[id]);
        }
      case Hold(other) => AwaitedAfterHold(s, id, other);
      case Close(n, parts) => AwaitedAfterClose(s, id, n, parts);
      case Complete(other, outcomes, cut) => GroupedOnlyWhenHeld(s.calls[other].plan, outcomes, cut);
      case Write(n) => AwaitedAfterDigestStep(s, id, a);
      case Decide(n, _, _) => AwaitedAfterDigestStep(s, id, a);
      case Finish(n) => AwaitedAfterDigestStep(s, id, a);
      case _ =>
    }
  }

  ghost predicate Sound(s: State) {
    PartsJoined(s) && DigestsFinal(s) && RowsFit(s) && GroupedAwaited(s)
  }

  lemma StepKeepsSound(s: State, a: Step)
    requires Sound(s) && Enabled(s, a)
    ensures Sound(Do(s, a))
  {
    PartsKept(s, a);
    DigestsKept(s, a);
    RowsKept(s, a);
    forall id | id in Do(s, a).rows && Do(s, a).rows[id].Grouped? ensures Awaited(Do(s, a), id) {
      AwaitedKept(s, a, id);
    }
  }

  lemma {:induction false} RunIsSound(steps: seq<Step>)
    requires Legal(steps)
    ensures var s := After(steps);
            PartsJoined(s) && DigestsFinal(s) && RowsFit(s) && GroupedAwaited(s)
  {
    if steps != [] {
      RunIsSound(steps[..|steps| - 1]);
      StepKeepsSound(After(steps[..|steps| - 1]), steps[|steps| - 1]);
    }
  }

  /** In every reachable state a row reads `grouped` only while some digest will
      still write it: the caller is about to join, or a group has the signal. */
  lemma GroupedIsAwaited(steps: seq<Step>, id: nat)
    requires Legal(steps) && id in After(steps).rows && After(steps).rows[id].Grouped?
    ensures var s := After(steps);
            && id in s.calls && s.calls[id].plan.targets == [] && s.calls[id].plan.grouped != []
            && (ToJoin(s.calls[id]) || InOpen(s.open, id) || exists n | n in s.digests :: InDigest(s.digests[n], id))
  {
    RunIsSound(steps);
    var s := After(steps);
    assert RowFits(s.calls[id], s.rows[id]) && Awaited(s, id);
  }

  /** Once every caller has returned and nothing is open or being sent, no row is
      left `pending` or `grouped`. */
  lemma QuietMeansSettled(steps: seq<Step>, id: nat)
    requires Legal(steps) && id in After(steps).calls
    requires var s := After(steps);
             s.open == {} && s.digests == map[] && forall i | i in s.calls :: s.calls[i].caller.Returned?
    ensures id in After(steps).rows && Final(After(steps).rows[id])
  {
    RunIsSound(steps);
    var s := After(steps);
    assert RowFits(s.calls[id], s.rows[id]);
    assert s.rows[id].Grouped? ==> Awaited(s, id);
  }

  /* ----- outcomes are final ----- */

  function Rank(st: Status): nat {
    if st.Pending? then 0 else if st.Grouped? then 1 else 2
  }

  lemma StepNeverGoesBack(s: State, a: Step, id: nat)
    requires Sound(s) && Enabled(s, a) && id in s.rows
    ensures id in Do(s, a).rows && Rank(s.rows[id]) <= Rank(Do(s, a).rows[id])
  {
    match a {
      case Settle(other) => assert RowFits(s.calls[other], s.rows[other]);
      case Complete(other, _, _) => assert RowFits(s.calls[other], s.rows[other]);
      case Write(n) => assert Final(s.digests[n].outcome.value);
      case _ =>
    }
  }

  /** A row goes from `pending` to `grouped` to an outcome and never back. */
  lemma {:induction false} OutcomesAreFinal(steps: seq<Step>, n: nat, id: nat)
    requires Legal(steps) && n <= |steps| && Legal(steps[..n]) && id in After(steps[..n]).rows
    ensures id in After(steps).rows && Rank(After(steps[..n]).rows[id]) <= Rank(After(steps).rows[id])
  {
    if n < |steps| {
      var init := steps[..|steps| - 1];
      assert init[..n] == steps[..n];
      OutcomesAreFinal(init, n, id);
      RunIsSound(init);
      StepNeverGoesBack(After(init), steps[|steps| - 1], id);
    } else {
      assert steps[..n] == steps;
    }
  }

  ghost predicate SentWith(s: State, id: nat, plan: Plan, st: Status) {
    && id in s.calls && s.calls[id] == Call(plan, Returned)
    && id in s.rows && s.rows[id] == st
  }

  lemma StepKeepsOwnOutcome(s: State, a: Step, id: nat, plan: Plan, st: Status)
    requires Sound(s) && Enabled(s, a) && plan.targets != [] && SentWith(s, id, plan, st)
    ensures SentWith(Do(s, a), id, plan, st)
  {
    if a.Write? {
      var d := s.digests[a.n];
      assert Joined(s.calls, d.parts[d.written]);
    }
  }

  /** A signal that was also sent at once keeps its own delivery's outcome: no
      digest it is in ever overwrites it. */
  lemma {:induction false} OwnOutcomeStays(steps: seq<Step>, n: nat)
    requires Legal(steps) && n < |steps| && steps[n].Complete? && Legal(steps[..n])
    requires Enabled(After(steps[..n]), steps[n])
    ensures var call := After(steps[..n]).calls[steps[n].id];
            && call.plan.targets != []
            && SentWith(After(steps), steps[n].id, call.plan,
                        Summary(call.plan, steps[n].outcomes, steps[n].cut).status)
  {
    var init, last := steps[..|steps| - 1], steps[|steps| - 1];
    RunIsSound(init);
    var s := After(init);
    if n < |init| {
      assert init[..n] == steps[..n];
      OwnOutcomeStays(init, n);
      var plan := After(steps[..n]).calls[steps[n].id].plan;
      StepKeepsOwnOutcome(s, last, steps[n].id, plan, Summary(plan, steps[n].outcomes, steps[n].cut).status);
    } else {
      assert init == steps[..n];
      assert RowFits(s.calls[last.id], s.rows[last.id]);
    }
  }

  /* ----- what a row reads ----- */

  /** The step writes the row of this signal, for a digest it was a member of. */
  ghost predicate WritesRow(s: State, a: Step, id: nat) {
    && Enabled(s, a) && a.Write?
    && var d := s.digests[a.n]; d.parts[d.written].id == id && d.parts[d.written].ownsRow
  }

  /** Digest `n` was decided with this outcome: that of some delivery of a plan. */
  ghost predicate WasDecided(steps: seq<Step>, n: nat, outcome: Status) {
    exists m | 0 <= m < |steps| ::
      steps[m].Decide? && steps[m].n == n && outcome == Summary(steps[m].plan, steps[m].outcomes, None).status
  }

  lemma StepRow(s: State, a: Step, id: nat)
    requires Sound(s) && Enabled(s, a) && id in s.calls && s.calls[id].plan.targets == []
    ensures id in s.rows && id in Do(s, a).calls && id in Do(s, a).rows
    ensures Do(s, a).calls[id].plan == s.calls[id].plan
    ensures !s.calls[id].caller.Recorded? ==> !Do(s, a).calls[id].caller.Recorded?
    ensures Do(s, a).rows[id] ==
            if WritesRow(s, a, id) then s.digests[a.n].outcome.value
            else if a == Settle(id) then Summary(s.calls[id].plan, [], None).status
            else s.rows[id]
  {
    assert RowFits(s.calls[id], s.rows[id]);
  }

  /** A digest has its outcome from before the step, or the step decides it. */
  lemma StepOutcome(s: State, a: Step, n: nat)
    requires Enabled(s, a) && n in Do(s, a).digests && Do(s, a).digests[n].outcome.Some?
    ensures (a.Decide? && a.n == n
             && Do(s, a).digests[n].outcome.value == Summary(a.plan, a.outcomes, None).status)
            || (n in s.digests && s.digests[n].outcome == Do(s, a).digests[n].outcome)
  {
  }

  lemma DecidedStays(steps: seq<Step>, n: nat, outcome: Status)
    requires steps != [] && WasDecided(steps[..|steps| - 1], n, outcome)
    ensures WasDecided(steps, n, outcome)
  {
    var init := steps[..|steps| - 1];
    var m :| 0 <= m < |init| && init[m].Decide? && init[m].n == n
             && outcome == Summary(init[m].plan, init[m].outcomes, None).status;
    assert steps[m] == init[m];
  }

  /** Every outcome a digest has is that of some delivery it was decided by. */
  lemma {:induction false} OutcomeWasDecided(steps: seq<Step>, n: nat)
    requires Legal(steps) && n in After(steps).digests && After(steps).digests[n].outcome.Some?
    ensures WasDecided(steps, n, After(steps).digests[n].outcome.value)
  {
    if steps != [] {
      var init, last := steps[..|steps| - 1], steps[|steps| - 1];
      var outcome := After(steps).digests[n].outcome.value;
      StepOutcome(After(init), last, n);
      if !(last.Decide? && last.n == n && outcome == Summary(last.plan, last.outcomes, None).status) {
        OutcomeWasDecided(init, n);
        DecidedStays(steps, n, outcome);
      }
    }
  }

  /** What a row reads that was written last in step `n`. */
  ghost predicate Reads(s: State, id: nat, outcome: Status) {
    && id in s.rows && s.rows[id] == outcome
    && id in s.calls && !s.calls[id].caller.Recorded? && s.calls[id].plan.targets == []
  }

  lemma ReadsAfterWrite(s: State, a: Step, id: nat)
    requires Sound(s) && Enabled(s, a) && WritesRow(s, a, id)
    ensures Reads(Do(s, a), id, s.digests[a.n].outcome.value)
  {
    var d := s.digests[a.n];
    assert Joined(s.calls, d.parts[d.written]);
  }

  lemma ReadsStill(s: State, a: Step, id: nat, outcome: Status)
    requires Sound(s) && Enabled(s, a) && Reads(s, id, outcome) && !WritesRow(s, a, id)
    ensures Reads(Do(s, a), id, outcome)
  {
    StepRow(s, a, id);
  }

  /** The row of a signal that is not sent at once reads what the last digest that wrote it
      came to, whatever happens meanwhile. */
  lemma {:induction false} RowIsLastWrite(steps: seq<Step>, n: nat, id: nat)
    requires Legal(steps) && n < |steps| && Legal(steps[..n]) && WritesRow(After(steps[..n]), steps[n], id)
    requires forall m | n < m < |steps| && Legal(steps[..m]) :: !WritesRow(After(steps[..m]), steps[m], id)
    ensures var outcome := After(steps[..n]).digests[steps[n].n].outcome.value;
            Reads(After(steps), id, outcome)
  {
    var init, last := steps[..|steps| - 1], steps[|steps| - 1];
    var outcome := After(steps[..n]).digests[steps[n].n].outcome.value;
    RunIsSound(init);
    if n < |init| {
      assert init[..n] == steps[..n] && steps[..|init|] == init;
      forall m | n < m < |init| && Legal(init[..m]) ensures !WritesRow(After(init[..m]), init[m], id) {
        assert init[..m] == steps[..m];
      }
      RowIsLastWrite(init, n, id);
      ReadsStill(After(init), last, id, outcome);
    } else {
      assert init == steps[..n];
      ReadsAfterWrite(After(init), last, id);
    }
  }

  /** Until a digest has written it, it reads `pending` while the caller decides, and then
      what planning came to: `grouped` if a group has it, `skipped` if every route turned it down. */
  lemma {:induction false} RowBeforeAnyWrite(steps: seq<Step>, id: nat)
    requires Legal(steps) && id in After(steps).calls && After(steps).calls[id].plan.targets == []
    requires forall m | 0 <= m < |steps| && Legal(steps[..m]) :: !WritesRow(After(steps[..m]), steps[m], id)
    ensures var s := After(steps);
            id in s.rows && s.rows[id] ==
              if s.calls[id].caller.Recorded? then Pending
              else if s.calls[id].plan.grouped != [] then Grouped
              else Skipped
  {
    if steps != [] {
      var init, last := steps[..|steps| - 1], steps[|steps| - 1];
      RunIsSound(init);
      if last.Notify? && last.id == id {
        assert id in After(steps).rows;
      } else {
        forall m | 0 <= m < |init| && Legal(init[..m]) ensures !WritesRow(After(init[..m]), init[m], id) {
          assert init[..m] == steps[..m];
        }
        RowBeforeAnyWrite(init, id);
        assert init == steps[..|init|];
        StepRow(After(init), last, id);
        assert RowFits(After(init).calls[id], After(init).rows[id]);
      }
    }
  }
}
