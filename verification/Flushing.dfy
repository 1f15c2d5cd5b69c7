/** Everything that runs at once around the open groups: callers that add, timers,
    flushes and sends (crates/core/src/lib.rs, group.rs, inflight.rs). A step is what
    happens under one lock, except that a holder of the open-groups lock takes the
    guard of each group it closes in a step of its own: the count has its own lock. */
module Flushing {
  import opened Basics
  import opened Model
  import opened Groups

  /** The open-groups lock; its holder has removed `closing` but taken no guard for
      them yet. `flush` is the flush that holds it, if it is one. */
  datatype Lock = Free | Held(flush: Option<nat>, closing: seq<Group>)

  datatype Sends = Sends(count: nat, tasks: map<nat, Group>, nextTask: nat, directs: set<nat>)

  /** Timers not started yet and running, each for the group it was started for. */
  datatype Timers = Timers(owed: set<(GroupKey, nat)>, running: set<(GroupKey, nat)>)

  /** What happened so far: members added and sent, and direct sends finished. */
  datatype Past = Past(added: multiset<Member>, sent: multiset<Member>, finished: set<nat>)

  datatype Flush = Waiting | Returned(ok: bool)

  datatype State = State(table: Table, lock: Lock, sends: Sends, timers: Timers, flushes: map<nat, Flush>, past: Past)

  datatype Step =
    | Add(route: Route, m: Member)
    | Arm(key: GroupKey, seqNo: nat)
    | Fire(key: GroupKey, seqNo: nat)
    | TakeGuard
    | Finish(task: nat)
    | StartDirect(id: nat)
    | FinishDirect(id: nat)
    | FlushStart(f: nat, closing: seq<Group>)
    | FlushReturn(f: nat)

  const START :=
    State(Table(map[], 0), Free, Sends(0, map[], 0, {}), Timers({}, {}), map[], Past(multiset{}, multiset{}, {}))

  function Holding(flush: Option<nat>, closing: seq<Group>): Lock {
    if closing == [] then Free else Held(flush, closing)
  }

  function Closing(lock: Lock): seq<Group> {
    if lock.Held? then lock.closing else []
  }

  ghost predicate Enabled(s: State, a: Step) {
    match a
    case Add(_, _) => s.lock.Free?
    case Arm(key, q) => (key, q) in s.timers.owed
    case Fire(key, q) => (key, q) in s.timers.running && s.lock.Free?
    case TakeGuard => s.lock.Held? && s.lock.closing != []
    case Finish(t) => t in s.sends.tasks && s.sends.count > 0
    case StartDirect(id) => id !in s.sends.directs && id !in s.past.finished
    case FinishDirect(id) => id in s.sends.directs && s.sends.count > 0
    case FlushStart(f, closing) => f !in s.flushes && s.lock.Free? && Drains(closing, s.table.open)
    case FlushReturn(f) => f in s.flushes && s.flushes[f].Waiting? && !(s.lock.Held? && s.lock.flush == Some(f))
  }

  function AfterAdd(s: State, route: Route, m: Member): State {
    var (table, added) := AddTo(s.table, route, m);
    var past := s.past.(added := s.past.added + multiset{m});
    match added
    case Joined => s.(table := table, past := past)
    case Full(g) => s.(table := table, past := past, lock := Held(None, [g]))
    case Opened(key, q, _) =>
      s.(table := table, past := past, timers := s.timers.(owed := s.timers.owed + {(key, q)}))
  }

  function AfterFire(s: State, key: GroupKey, q: nat): State {
    var (table, taken) := TakeFrom(s.table, key, q);
    s.(table := table, timers := s.timers.(running := s.timers.running - {(key, q)}),
       lock := Holding(None, if taken.Some? then [taken.value] else []))
  }

  function Spawned(sends: Sends, g: Group): Sends {
    Sends(sends.count + 1, sends.tasks[sends.nextTask := g], sends.nextTask + 1, sends.directs)
  }

  ghost function Do(s: State, a: Step): State
    requires Enabled(s, a)
  {
    match a
    case Add(route, m) => AfterAdd(s, route, m)
    case Arm(key, q) => s.(timers := Timers(s.timers.owed - {(key, q)}, s.timers.running + {(key, q)}))
    case Fire(key, q) => AfterFire(s, key, q)
    case TakeGuard =>
      s.(lock := Holding(s.lock.flush, s.lock.closing[1..]), sends := Spawned(s.sends, s.lock.closing[0]))
    case Finish(t) =>
      s.(sends := s.sends.(count := s.sends.count - 1, tasks := s.sends.tasks - {t}),
         past := s.past.(sent := s.past.sent + multiset(s.sends.tasks[t].members)))
    case StartDirect(id) =>
      s.(sends := s.sends.(count := s.sends.count + 1, directs := s.sends.directs + {id}))
    case FinishDirect(id) =>
      s.(sends := s.sends.(count := s.sends.count - 1, directs := s.sends.directs - {id}),
         past := s.past.(finished := s.past.finished + {id}))
    case FlushStart(f, closing) =>
      s.(table := s.table.(open := map[]), lock := Holding(Some(f), closing), flushes := s.flushes[f := Waiting])
    case FlushReturn(f) => s.(flushes := s.flushes[f := Returned(s.sends.count == 0)])
  }

  /** Where the steps lead, if the locks allow them. */
  ghost function Reached(steps: seq<Step>): Option<State> {
    if steps == [] then Some(START)
    else
      var before, last := Reached(steps[..|steps| - 1]), steps[|steps| - 1];
      if before.Some? && Enabled(before.value, last) then Some(Do(before.value, last)) else None
  }

  /** A run: any steps, in any order the locks allow. */
  ghost predicate Legal(steps: seq<Step>) {
    Reached(steps).Some?
  }

  ghost function After(steps: seq<Step>): State
    requires Legal(steps)
  {
    Reached(steps).value
  }

  /* ----- the count is the number of sends ----- */

  ghost predicate Counted(sends: Sends) {
    && sends.count == |sends.tasks| + |sends.directs|
    && forall t | t in sends.tasks :: t < sends.nextTask
  }

  lemma CountedKept(s: State, a: Step)
    requires Counted(s.sends) && Enabled(s, a)
    ensures Counted(Do(s, a).sends)
  {
    match a {
      case TakeGuard =>
        assert s.sends.nextTask !in s.sends.tasks;
      case Finish(t) =>
        assert |s.sends.tasks - {t}| == |s.sends.tasks| - 1;
      case FinishDirect(id) =>
        assert |s.sends.directs - {id}| == |s.sends.directs| - 1;
      case _ =>
    }
  }

  /* ----- no member is lost or copied ----- */

  ghost function Waiters(table: Table, lock: Lock): multiset<Member> {
    MembersOf(table.open) + MembersIn(Closing(lock))
  }

  ghost predicate Balanced(added: multiset<Member>, waiting: multiset<Member>, sending: multiset<Member>,
      sent: multiset<Member>)
  {
    added == waiting + sending + sent
  }

  /** Every member ever added is in exactly one place: an open group, one whose
      guard is about to be taken, one being sent, or one that was sent. */
  ghost predicate Conserved(s: State) {
    Balanced(s.past.added, Waiters(s.table, s.lock), MembersOf(s.sends.tasks), s.past.sent)
  }

  lemma MembersInOne(g: Group)
    ensures MembersIn([g]) == multiset(g.members)
  {
    assert [g][1..] == [];
    assert multiset(g.members) + multiset{} == multiset(g.members);
  }

  lemma WaitersAfterAdd(table: Table, route: Route, m: Member)
    ensures var (after, added) := AddTo(table, route, m);
            Waiters(after, if added.Full? then Held(None, [added.group]) else Free)
            == Waiters(table, Free) + multiset{m}
  {
    var (after, added) := AddTo(table, route, m);
    AddConserves(table, route, m);
    if added.Full? {
      MembersInOne(added.group);
    }
    assert Waiters(table, Free) == MembersOf(table.open);
  }

  lemma WaitersAfterFire(table: Table, key: GroupKey, q: nat)
    ensures var (after, taken) := TakeFrom(table, key, q);
            Waiters(after, Holding(None, if taken.Some? then [taken.value] else [])) == Waiters(table, Free)
  {
    var (after, taken) := TakeFrom(table, key, q);
    TakeConserves(table, key, q);
    if taken.Some? {
      MembersInOne(taken.value);
    }
    assert Waiters(table, Free) == MembersOf(table.open);
  }

  lemma WaitersAfterDrain(table: Table, f: nat, closing: seq<Group>)
    requires TableOk(table) && Drains(closing, table.open)
    ensures Waiters(table.(open := map[]), Holding(Some(f), closing)) == Waiters(table, Free)
  {
    DrainConserves(closing, table.open);
    assert MembersOf<GroupKey>(map[]) == multiset{};
  }

  /** Taking a guard moves one group's members from the lock's holder to a send. */
  lemma MembersAfterSpawn(table: Table, lock: Lock, sends: Sends)
    requires lock.Held? && lock.closing != [] && Counted(sends)
    ensures var rest := Holding(lock.flush, lock.closing[1..]);
            && MembersIn(Closing(lock)) + MembersOf(sends.tasks)
                 == MembersIn(Closing(rest)) + MembersOf(Spawned(sends, lock.closing[0]).tasks)
            && Waiters(table, rest) + MembersOf(Spawned(sends, lock.closing[0]).tasks)
                 == Waiters(table, lock) + MembersOf(sends.tasks)
  {
    var g, rest := lock.closing[0], lock.closing[1..];
    MembersPut(sends.tasks, sends.nextTask, g);
    assert Closing(Holding(lock.flush, rest)) == rest;
    assert MembersIn(lock.closing) == multiset(g.members) + MembersIn(rest);
  }

  lemma OneMoreWaits(added: multiset<Member>, waiting: multiset<Member>, sending: multiset<Member>,
      sent: multiset<Member>, m: multiset<Member>)
    requires Balanced(added, waiting, sending, sent)
    ensures Balanced(added + m, waiting + m, sending, sent)
  {
  }

  /** What adding changes, besides who owes a timer. */
  lemma AddChanges(s: State, route: Route, m: Member)
    ensures var (table, added) := AddTo(s.table, route, m);
            var after := AfterAdd(s, route, m);
            && after.table == table
            && after.lock == (if added.Full? then Held(None, [added.group]) else s.lock)
            && after.sends == s.sends
            && after.past.sent == s.past.sent
            && after.past.added == s.past.added + multiset{m}
  {
  }

  lemma AddConserved(s: State, route: Route, m: Member)
    requires Conserved(s) && s.lock.Free?
    ensures Conserved(AfterAdd(s, route, m))
  {
    AddChanges(s, route, m);
    WaitersAfterAdd(s.table, route, m);
    OneMoreWaits(s.past.added, Waiters(s.table, s.lock), MembersOf(s.sends.tasks), s.past.sent, multiset{m});
  }

  lemma FireConserved(s: State, key: GroupKey, q: nat)
    requires Conserved(s) && s.lock.Free?
    ensures Conserved(AfterFire(s, key, q))
  {
    WaitersAfterFire(s.table, key, q);
  }

  lemma TakeGuardConserved(s: State)
    requires Counted(s.sends) && Conserved(s) && Enabled(s, TakeGuard)
    ensures Conserved(Do(s, TakeGuard))
  {
    MembersAfterSpawn(s.table, s.lock, s.sends);
  }

  lemma FinishConserved(s: State, t: nat)
    requires Conserved(s) && Enabled(s, Finish(t))
    ensures Conserved(Do(s, Finish(t)))
  {
    MembersWithout(s.sends.tasks, t);
  }

  lemma ConservedKept(s: State, a: Step)
    requires TableOk(s.table) && Counted(s.sends) && Conserved(s) && Enabled(s, a)
    ensures Conserved(Do(s, a))
  {
    match a {
      case Add(route, m) => AddConserved(s, route, m);
      case Fire(key, q) => FireConserved(s, key, q);
      case FlushStart(f, closing) => WaitersAfterDrain(s.table, f, closing);
      case TakeGuard => TakeGuardConserved(s);
      case Finish(t) => FinishConserved(s, t);
      case _ =>
    }
  }

  /* ----- every open group has its timer ----- */

  function All(timers: Timers): set<(GroupKey, nat)> {
    timers.owed + timers.running
  }

  /** Each open group has a timer for its own number, started or about to be. */
  ghost predicate Timed(table: Table, timers: Timers) {
    && (forall k | k in table.open :: (k, table.open[k].seqNo) in All(timers))
    && (forall t | t in All(timers) :: t.1 <= table.nextSeq)
  }

  lemma TableKept(s: State, a: Step)
    requires TableOk(s.table) && Enabled(s, a)
    ensures TableOk(Do(s, a).table)
  {
    match a {
      case Add(route, m) => AddKeeps(s.table, route, m);
      case _ =>
    }
  }

  lemma TimedAfterAdd(s: State, route: Route, m: Member)
    requires Timed(s.table, s.timers)
    ensures Timed(AfterAdd(s, route, m).table, AfterAdd(s, route, m).timers)
  {
    var (table, added) := AddTo(s.table, route, m);
    var timers := AfterAdd(s, route, m).timers;
    assert AfterAdd(s, route, m).table == table;
    forall k | k in table.open ensures (k, table.open[k].seqNo) in All(timers) {
      assert k in s.table.open ==> (k, s.table.open[k].seqNo) in All(s.timers);
    }
  }

  lemma TimedAfterFire(table: Table, timers: Timers, key: GroupKey, q: nat)
    requires Timed(table, timers)
    ensures Timed(TakeFrom(table, key, q).0, timers.(running := timers.running - {(key, q)}))
  {
  }

  lemma TimedKept(s: State, a: Step)
    requires Timed(s.table, s.timers) && Enabled(s, a)
    ensures Timed(Do(s, a).table, Do(s, a).timers)
  {
    match a {
      case Add(route, m) => TimedAfterAdd(s, route, m);
      case Fire(key, q) => TimedAfterFire(s.table, s.timers, key, q);
      case _ =>
    }
  }

  /* ----- groups that are closed ----- */

  /** What has left the table is still a group of one mind. */
  ghost predicate ClosedOk(s: State) {
    && (forall i | 0 <= i < |Closing(s.lock)| :: GroupOk(Closing(s.lock)[i], s.table.nextSeq))
    && forall t | t in s.sends.tasks :: GroupOk(s.sends.tasks[t], s.table.nextSeq)
  }

  lemma OkLater(g: Group, nextSeq: nat, later: nat)
    requires GroupOk(g, nextSeq) && nextSeq <= later
    ensures GroupOk(g, later)
  {
  }

  lemma ClosedOkAfterAdd(s: State, route: Route, m: Member)
    requires TableOk(s.table) && ClosedOk(s) && s.lock.Free?
    ensures ClosedOk(AfterAdd(s, route, m))
  {
    var after := AfterAdd(s, route, m);
    AddKeeps(s.table, route, m);
    AddChanges(s, route, m);
    forall t | t in after.sends.tasks ensures GroupOk(after.sends.tasks[t], after.table.nextSeq) {
      OkLater(s.sends.tasks[t], s.table.nextSeq, after.table.nextSeq);
    }
  }

  lemma ClosedOkAfterFire(s: State, key: GroupKey, q: nat)
    requires TableOk(s.table) && ClosedOk(s)
    ensures ClosedOk(AfterFire(s, key, q))
  {
    if key in s.table.open {
      assert GroupOk(s.table.open[key], s.table.nextSeq);
    }
  }

  lemma ClosedOkAfterTakeGuard(s: State)
    requires ClosedOk(s) && Enabled(s, TakeGuard)
    ensures ClosedOk(Do(s, TakeGuard))
  {
    var rest, after := s.lock.closing[1..], Do(s, TakeGuard);
    assert Closing(after.lock) == rest;
    forall i | 0 <= i < |rest| ensures GroupOk(rest[i], s.table.nextSeq) {
      assert rest[i] == Closing(s.lock)[i + 1];
    }
    assert GroupOk(Closing(s.lock)[0], s.table.nextSeq);
  }

  lemma ClosedOkKept(s: State, a: Step)
    requires TableOk(s.table) && ClosedOk(s) && Enabled(s, a)
    ensures ClosedOk(Do(s, a))
  {
    match a {
      case Add(route, m) => ClosedOkAfterAdd(s, route, m);
      case Fire(key, q) => ClosedOkAfterFire(s, key, q);
      case TakeGuard => ClosedOkAfterTakeGuard(s);
      case FlushStart(f, closing) =>
        forall i | 0 <= i < |closing| ensures GroupOk(closing[i], s.table.nextSeq) {
          assert closing[i] == s.table.open[closing[i].key];
        }
      case _ =>
    }
  }

  /* ----- whole runs ----- */

  ghost predicate Sound(s: State) {
    && TableOk(s.table)
    && Counted(s.sends)
    && Conserved(s)
    && Timed(s.table, s.timers)
  }

  lemma StepKeepsSound(s: State, a: Step)
    requires Sound(s) && Enabled(s, a)
    ensures Sound(Do(s, a))
  {
    TableKept(s, a);
    CountedKept(s, a);
    ConservedKept(s, a);
    TimedKept(s, a);
  }

  lemma {:induction false} RunIsSound(steps: seq<Step>)
    requires Legal(steps)
    ensures Sound(After(steps))
  {
    if steps != [] {
      RunIsSound(steps[..|steps| - 1]);
      StepKeepsSound(After(steps[..|steps| - 1]), steps[|steps| - 1]);
    }
  }

  lemma {:induction false} RunKeepsClosedOk(steps: seq<Step>)
    requires Legal(steps)
    ensures ClosedOk(After(steps))
  {
    if steps != [] {
      var init := steps[..|steps| - 1];
      RunIsSound(init);
      RunKeepsClosedOk(init);
      ClosedOkKept(After(init), steps[|steps| - 1]);
    }
  }

  /** In every reachable state the members of a group, whether it is open, closed or being
      sent, say the same for every field their route groups by. */
  lemma GroupsAreOfOneMind(steps: seq<Step>)
    requires Legal(steps)
    ensures var s := After(steps);
            && (forall k | k in s.table.open :: s.table.open[k].key == k && OneMind(s.table.open[k]))
            && (forall i | 0 <= i < |Closing(s.lock)| :: OneMind(Closing(s.lock)[i]))
            && forall t | t in s.sends.tasks :: OneMind(s.sends.tasks[t])
  {
    var s := After(steps);
    RunIsSound(steps);
    RunKeepsClosedOk(steps);
    forall k | k in s.table.open ensures OneMind(s.table.open[k]) {
      GroupIsOfOneMind(s.table.open[k], s.table.nextSeq);
    }
    forall i | 0 <= i < |Closing(s.lock)| ensures OneMind(Closing(s.lock)[i]) {
      GroupIsOfOneMind(Closing(s.lock)[i], s.table.nextSeq);
    }
    forall t | t in s.sends.tasks ensures OneMind(s.sends.tasks[t]) {
      GroupIsOfOneMind(s.sends.tasks[t], s.table.nextSeq);
    }
  }

  /* ----- a number is never open again ----- */

  ghost predicate Closed(table: Table, q: nat) {
    q <= table.nextSeq && forall k | k in table.open :: table.open[k].seqNo != q
  }

  lemma ClosedKept(s: State, a: Step, q: nat)
    requires Closed(s.table, q) && Enabled(s, a)
    ensures Closed(Do(s, a).table, q)
  {
  }

  /** Once the group of a number has been closed, by whatever closed it, its timer
      closes nothing, though another group may be open under the same key. */
  lemma {:induction false} StaleTimerClosesNothing(steps: seq<Step>, n: nat, key: GroupKey, q: nat)
    requires Legal(steps) && n <= |steps| && Legal(steps[..n]) && Closed(After(steps[..n]).table, q)
    ensures Closed(After(steps).table, q)
    ensures TakeFrom(After(steps).table, key, q) == (After(steps).table, None)
  {
    if n < |steps| {
      var init := steps[..|steps| - 1];
      assert init[..n] == steps[..n];
      StaleTimerClosesNothing(init, n, key, q);
      ClosedKept(After(init), steps[|steps| - 1], q);
    } else {
      assert steps[..n] == steps;
    }
  }

  /* ----- flush ----- */

  /** Members closed by flush `f` that have no guard yet. */
  function ClosingBy(lock: Lock, f: nat): multiset<Member> {
    if lock.Held? && lock.flush == Some(f) then MembersIn(lock.closing) else multiset{}
  }

  /** Nothing in `earlier` can be closed without being counted. */
  ghost predicate Covered(s: State, f: nat, earlier: multiset<Member>, directs: set<nat>) {
    && earlier <= ClosingBy(s.lock, f) + MembersOf(s.sends.tasks) + s.past.sent
    && directs <= s.sends.directs + s.past.finished
  }

  lemma CoveredByTakeGuard(s: State, f: nat, earlier: multiset<Member>, directs: set<nat>)
    requires Counted(s.sends) && Enabled(s, TakeGuard) && Covered(s, f, earlier, directs)
    ensures Covered(Do(s, TakeGuard), f, earlier, directs)
  {
    var g, rest := s.lock.closing[0], s.lock.closing[1..];
    MembersPut(s.sends.tasks, s.sends.nextTask, g);
    assert MembersIn(s.lock.closing) == multiset(g.members) + MembersIn(rest);
    if s.lock.flush == Some(f) {
      assert ClosingBy(Holding(s.lock.flush, rest), f) == MembersIn(rest);
    }
  }

  lemma CoveredByFinish(s: State, t: nat, f: nat, earlier: multiset<Member>, directs: set<nat>)
    requires Enabled(s, Finish(t)) && Covered(s, f, earlier, directs)
    ensures Covered(Do(s, Finish(t)), f, earlier, directs)
  {
    MembersWithout(s.sends.tasks, t);
  }

  lemma CoveredKept(s: State, a: Step, f: nat, earlier: multiset<Member>, directs: set<nat>)
    requires f in s.flushes && Counted(s.sends) && Enabled(s, a) && Covered(s, f, earlier, directs)
    ensures f in Do(s, a).flushes && Covered(Do(s, a), f, earlier, directs)
  {
    match a {
      case TakeGuard => CoveredByTakeGuard(s, f, earlier, directs);
      case Finish(t) => CoveredByFinish(s, t, f, earlier, directs);
      case _ =>
    }
  }

  lemma CoveredAtStart(s: State, f: nat, closing: seq<Group>)
    requires Sound(s) && Enabled(s, FlushStart(f, closing))
    ensures Covered(Do(s, FlushStart(f, closing)), f, s.past.added, s.sends.directs + s.past.finished)
  {
    DrainConserves(closing, s.table.open);
    assert Waiters(s.table, s.lock) == MembersOf(s.table.open);
    assert ClosingBy(Holding(Some(f), closing), f) == MembersIn(closing);
  }

  /** From its start on, a flush's earlier members are covered. */
  lemma {:induction false} CoveredFromStart(steps: seq<Step>, n: nat)
    requires Legal(steps) && n < |steps| && steps[n].FlushStart? && Legal(steps[..n])
    ensures var before := After(steps[..n]);
            && steps[n].f in After(steps).flushes
            && Covered(After(steps), steps[n].f, before.past.added, before.sends.directs + before.past.finished)
  {
    var init, last := steps[..|steps| - 1], steps[|steps| - 1];
    RunIsSound(init);
    if n < |init| {
      assert init[..n] == steps[..n];
      CoveredFromStart(init, n);
      var before := After(steps[..n]);
      CoveredKept(After(init), last, steps[n].f, before.past.added, before.sends.directs + before.past.finished);
    } else {
      assert init == steps[..n];
      CoveredAtStart(After(init), last.f, last.closing);
    }
  }

  /** A flush that returns true missed nothing: every member added, and every direct
      send started, before it closed the open groups has been sent, however
      callers, timers, other flushes and sends were interleaved. */
  lemma FlushMissesNothing(steps: seq<Step>, n: nat)
    requires Legal(steps) && n < |steps| && steps[n].FlushStart? && Legal(steps[..n])
    requires Enabled(After(steps), FlushReturn(steps[n].f))
    requires Do(After(steps), FlushReturn(steps[n].f)).flushes[steps[n].f] == Returned(true)
    ensures var before := After(steps[..n]);
            && before.past.added <= After(steps).past.sent
            && before.sends.directs + before.past.finished <= After(steps).past.finished
  {
    var s := After(steps);
    CoveredFromStart(steps, n);
    RunIsSound(steps);
    assert s.sends.count == 0;
    assert |s.sends.tasks| == 0 && |s.sends.directs| == 0;
    assert s.sends.tasks == map[] && s.sends.directs == {};
    assert MembersOf(s.sends.tasks) == multiset{};
  }

  /** A run's open groups each have a timer that, when it fires, closes that group. */
  lemma TimersWillClose(steps: seq<Step>, key: GroupKey)
    requires Legal(steps) && key in After(steps).table.open
    ensures var s := After(steps);
            var g := s.table.open[key];
            && (key, g.seqNo) in s.timers.owed + s.timers.running
            && TakeFrom(s.table, key, g.seqNo) == (Table(s.table.open - {key}, s.table.nextSeq), Some(g))
  {
    RunIsSound(steps);
  }
}
