/** Route `group_by` and `group_wait` (crates/core/src/group.rs), and the count of
    unfinished sends that a flush waits on (crates/core/src/inflight.rs). */
module Groups {
  import opened Basics
  import opened Model
  import opened Text

  const MAX_GROUP_SIZE: nat := 500

  /** A route's `group_by` fields with a signal's values for them, in order. */
  type By = seq<(string, Option<string>)>

  /** What a group is filed under; the source joins both parts in one string,
      which is taken to be injective. */
  datatype GroupKey = GroupKey(route: Route, values: By)

  /** One signal of a group. `ownsRow`: no other delivery of it will ever write its row. */
  datatype Member = Member(signal: Signal, ownsRow: bool)

  datatype Group = Group(key: GroupKey, seqNo: nat, members: seq<Member>)

  datatype Table = Table(open: map<GroupKey, Group>, nextSeq: nat)

  /** What adding a signal did. */
  datatype Added = Joined | Opened(key: GroupKey, seqNo: nat, wait: nat) | Full(group: Group)

  function SeverityWord(s: Severity): string {
    match s
    case Info => "info"
    case Success => "success"
    case Warning => "warning"
    case Error => "error"
    case Critical => "critical"
  }

  /** What a signal says for one of the fields its route groups by; a `metadata.` prefix asks for
      what stands at the rest of the name. */
  function FieldValue(signal: Signal, field: string): Option<string> {
    match StripPrefix(field, "metadata.")
    case Some(path) => if path in signal.metadata then Some(signal.metadata[path]) else None
    case None =>
      if field == "source" then Some(signal.source)
      else if field == "service" then signal.service
      else if field == "component" then signal.component
      else if field == "event_type" then Some(signal.eventType)
      else if field == "severity" then Some(SeverityWord(signal.severity))
      else if field == "title" then Some(signal.title)
      else if field == "environment" then signal.environment
      else if field == "team" then signal.team
      else if field == "run_id" then signal.runId
      else if field == "correlation_id" then signal.correlationId
      else if field == "dedup_key" then signal.dedupKey
      else None
  }

  function GroupValues(route: Route, signal: Signal): By {
    if route.groupBy.None? then []
    else
      var fields := route.groupBy.value;
      seq(|fields|, i requires 0 <= i < |fields| => (fields[i], FieldValue(signal, fields[i])))
  }

  function KeyFor(route: Route, signal: Signal): GroupKey {
    GroupKey(route, GroupValues(route, signal))
  }

  function AddTo(t: Table, route: Route, m: Member): (Table, Added) {
    var key := KeyFor(route, m.signal);
    if key in t.open then
      var g := t.open[key].(members := t.open[key].members + [m]);
      if |g.members| < MAX_GROUP_SIZE then (t.(open := t.open[key := g]), Joined)
      else (t.(open := t.open - {key}), Full(g))
    else
      var q := t.nextSeq + 1;
      var wait := route.GroupWindow();
      (Table(t.open[key := Group(key, q, [m])], q), Opened(key, q, if wait.Some? then wait.value else 0))
  }

  function TakeFrom(t: Table, key: GroupKey, seqNo: nat): (Table, Option<Group>) {
    if key in t.open && t.open[key].seqNo == seqNo then (t.(open := t.open - {key}), Some(t.open[key]))
    else (t, None)
  }

  /* ----- what every open group keeps ----- */

  /** Not empty, not full, numbered, and all its members share its values. */
  ghost predicate GroupOk(g: Group, nextSeq: nat) {
    && 1 <= |g.members| <= MAX_GROUP_SIZE
    && 1 <= g.seqNo <= nextSeq
    && forall i | 0 <= i < |g.members| :: KeyFor(g.key.route, g.members[i].signal) == g.key
  }

  ghost predicate TableOk(t: Table) {
    && (forall k | k in t.open ::
          t.open[k].key == k && GroupOk(t.open[k], t.nextSeq) && |t.open[k].members| < MAX_GROUP_SIZE)
    && (forall k, l | k in t.open && l in t.open :: t.open[k].seqNo == t.open[l].seqNo ==> k == l)
  }

  /** Adding keeps every open group between 1 and 499 members, of one mind about
      its values; a group leaves full at exactly 500; a new one gets a new number. */
  lemma AddKeeps(t: Table, route: Route, m: Member)
    requires TableOk(t)
    ensures var (after, added) := AddTo(t, route, m);
            && TableOk(after) && t.nextSeq <= after.nextSeq
            && (added.Full? ==>
                  GroupOk(added.group, after.nextSeq) && |added.group.members| == MAX_GROUP_SIZE
                  && added.group.key !in after.open)
            && (added.Opened? ==>
                  && added.seqNo == t.nextSeq + 1 == after.nextSeq
                  && added.key in after.open
                  && after.open[added.key] == Group(added.key, added.seqNo, [m]))
  {
    var key := KeyFor(route, m.signal);
    if key in t.open {
      var g := t.open[key];
      assert GroupOk(g, t.nextSeq);
      assert GroupOk(g.(members := g.members + [m]), t.nextSeq);
    } else {
      assert GroupOk(Group(key, t.nextSeq + 1, [m]), t.nextSeq + 1);
      assert forall k | k in t.open :: GroupOk(t.open[k], t.nextSeq) && GroupOk(t.open[k], t.nextSeq + 1);
    }
  }

  /* ----- which signals share a group ----- */

  /** Two signals say the same for a field: both nothing, or both the same text. */
  predicate Agree(a: Signal, b: Signal, field: string) {
    && (field == "source" ==> a.source == b.source)
    && (field == "service" ==> a.service == b.service)
    && (field == "component" ==> a.component == b.component)
    && (field == "event_type" ==> a.eventType == b.eventType)
    && (field == "severity" ==> a.severity == b.severity)
    && (field == "title" ==> a.title == b.title)
    && (field == "environment" ==> a.environment == b.environment)
    && (field == "team" ==> a.team == b.team)
    && (field == "run_id" ==> a.runId == b.runId)
    && (field == "correlation_id" ==> a.correlationId == b.correlationId)
    && (field == "dedup_key" ==> a.dedupKey == b.dedupKey)
    && ("metadata." <= field ==>
          && (field[9..] in a.metadata <==> field[9..] in b.metadata)
          && (field[9..] in a.metadata && field[9..] in b.metadata ==>
                a.metadata[field[9..]] == b.metadata[field[9..]]))
  }

  predicate AgreeOnAll(route: Route, a: Signal, b: Signal) {
    route.groupBy.Some? ==> forall field | field in route.groupBy.value :: Agree(a, b, field)
  }

  lemma SameWordSameSeverity(a: Severity, b: Severity)
    ensures SeverityWord(a) == SeverityWord(b) <==> a == b
  {
    assert |SeverityWord(Info)| == 4 && |SeverityWord(Critical)| == 8 && |SeverityWord(Error)| == 5;
    assert SeverityWord(Success)[0] == 's' && SeverityWord(Warning)[0] == 'w';
  }

  lemma SameTextIffAgree(a: Signal, b: Signal, field: string)
    ensures FieldValue(a, field) == FieldValue(b, field) <==> Agree(a, b, field)
  {
    SameWordSameSeverity(a.severity, b.severity);
    if "metadata." <= field {
      assert field[0] == 'm';
    }
  }

  /** Two signals have one key on a route iff they agree on every field it groups by. */
  lemma SameKeyIffAgree(route: Route, a: Signal, b: Signal)
    ensures KeyFor(route, a) == KeyFor(route, b) <==> AgreeOnAll(route, a, b)
  {
    if route.groupBy.Some? {
      var fields := route.groupBy.value;
      forall i | 0 <= i < |fields|
        ensures GroupValues(route, a)[i] == GroupValues(route, b)[i] <==> Agree(a, b, fields[i])
      {
        SameTextIffAgree(a, b, fields[i]);
      }
      if AgreeOnAll(route, a, b) {
        forall i | 0 <= i < |fields| ensures GroupValues(route, a)[i] == GroupValues(route, b)[i] {
          assert fields[i] in fields;
        }
      }
    }
  }

  /** Any two members of a group say the same for every field its route groups by. */
  ghost predicate OneMind(g: Group) {
    forall i, j | 0 <= i < |g.members| && 0 <= j < |g.members| ::
      AgreeOnAll(g.key.route, g.members[i].signal, g.members[j].signal)
  }

  lemma GroupIsOfOneMind(g: Group, nextSeq: nat)
    requires GroupOk(g, nextSeq)
    ensures OneMind(g)
  {
    forall i, j | 0 <= i < |g.members| && 0 <= j < |g.members|
      ensures AgreeOnAll(g.key.route, g.members[i].signal, g.members[j].signal)
    {
      SameKeyIffAgree(g.key.route, g.members[i].signal, g.members[j].signal);
    }
  }

  /** A signal belongs with an open group: it is of its route, and agrees with its members. */
  predicate BelongsTo(g: Group, route: Route, signal: Signal)
    requires g.members != []
  {
    g.key.route == route && AgreeOnAll(route, signal, g.members[0].signal)
  }

  /** A member joins the open group it belongs with, which then closes iff it has 500, and
      leaves every other open group alone. */
  lemma JoinsWhereItBelongs(t: Table, route: Route, m: Member, key: GroupKey)
    requires TableOk(t) && key in t.open
    ensures t.open[key].members != []
    ensures var (after, added) := AddTo(t, route, m);
            var g := t.open[key];
            var more := g.(members := g.members + [m]);
            if !BelongsTo(g, route, m.signal) then key in after.open && after.open[key] == g
            else if |more.members| < 500 then after == t.(open := t.open[key := more]) && added == Joined
            else after == t.(open := t.open - {key}) && added == Full(more)
  {
    SharesKey(t, key);
    SameKeyIffAgree(route, m.signal, t.open[key].members[0].signal);
  }

  /** One that belongs with none opens a group of its own, to be sent after the route's
      `group_wait`, or 30 seconds if it only says what to group by. */
  lemma OpensWhenItBelongsToNone(t: Table, route: Route, m: Member)
    requires TableOk(t) && (route.groupBy.Some? || route.groupWait.Some?)
    requires forall k | k in t.open :: t.open[k].members != [] && !BelongsTo(t.open[k], route, m.signal)
    ensures var (after, added) := AddTo(t, route, m);
            && added.Opened? && added.wait == (if route.groupWait.Some? then route.groupWait.value else 30)
            && added.key !in t.open && after.open.Keys == t.open.Keys + {added.key}
            && after.open[added.key].members == [m]
            && forall k | k in t.open :: after.open[k] == t.open[k]
  {
    var key := KeyFor(route, m.signal);
    if key in t.open {
      SharesKey(t, key);
      SameKeyIffAgree(route, m.signal, t.open[key].members[0].signal);
    }
  }

  lemma SharesKey(t: Table, key: GroupKey)
    requires TableOk(t) && key in t.open
    ensures t.open[key].key == key && t.open[key].members != []
    ensures KeyFor(key.route, t.open[key].members[0].signal) == key
  {
    assert GroupOk(t.open[key], t.nextSeq);
  }

  /* ----- conservation ----- */

  ghost function MembersOf<K(!new)>(groups: map<K, Group>): multiset<Member> {
    if groups == map[] then multiset{}
    else
      var k :| k in groups;
      multiset(groups[k].members) + MembersOf(groups - {k})
  }

  /** Any one group can be counted first. */
  lemma {:induction false} MembersWithout<K(!new)>(groups: map<K, Group>, k: K)
    requires k in groups
    ensures MembersOf(groups) == multiset(groups[k].members) + MembersOf(groups - {k})
    decreases |groups|
  {
    var first :| first in groups && MembersOf(groups) == multiset(groups[first].members) + MembersOf(groups - {first});
    if first != k {
      MembersWithout(groups - {first}, k);
      MembersWithout(groups - {k}, first);
      assert groups - {first} - {k} == groups - {k} - {first};
    }
  }

  lemma MembersPut<K(!new)>(groups: map<K, Group>, k: K, g: Group)
    ensures MembersOf(groups[k := g]) == multiset(g.members) + MembersOf(groups - {k})
    ensures k !in groups ==> MembersOf(groups[k := g]) == multiset(g.members) + MembersOf(groups)
  {
    MembersWithout(groups[k := g], k);
    assert groups[k := g] - {k} == groups - {k};
    if k !in groups {
      assert groups - {k} == groups;
    }
  }

  function MembersIn(closing: seq<Group>): multiset<Member> {
    if closing == [] then multiset{} else multiset(closing[0].members) + MembersIn(closing[1..])
  }

  function ClosedBy(added: Added): multiset<Member> {
    if added.Full? then multiset(added.group.members) else multiset{}
  }

  /** Adding loses and copies no member: it ends up open or in the group that closed. */
  lemma AddConserves(t: Table, route: Route, m: Member)
    ensures var (after, added) := AddTo(t, route, m);
            MembersOf(after.open) + ClosedBy(added) == MembersOf(t.open) + multiset{m}
  {
    var key := KeyFor(route, m.signal);
    var (after, added) := AddTo(t, route, m);
    if key in t.open {
      var g := t.open[key];
      MembersWithout(t.open, key);
      assert multiset(g.members + [m]) == multiset(g.members) + multiset{m};
      if added.Joined? {
        MembersPut(t.open, key, after.open[key]);
      }
    } else {
      MembersPut(t.open, key, after.open[key]);
    }
  }

  lemma TakeConserves(t: Table, key: GroupKey, seqNo: nat)
    ensures var (after, taken) := TakeFrom(t, key, seqNo);
            MembersOf(after.open) + (if taken.Some? then multiset(taken.value.members) else multiset{})
            == MembersOf(t.open)
  {
    if key in t.open {
      MembersWithout(t.open, key);
    }
  }

  /** `closing` lists every open group once, in some order. */
  ghost predicate Drains(closing: seq<Group>, open: map<GroupKey, Group>) {
    && (forall i | 0 <= i < |closing| :: closing[i].key in open && open[closing[i].key] == closing[i])
    && (forall i, j | 0 <= i < j < |closing| :: closing[i].key != closing[j].key)
    && (forall k | k in open :: open[k] in closing)
  }

  lemma {:induction false} DrainConserves(closing: seq<Group>, open: map<GroupKey, Group>)
    requires Drains(closing, open) && forall k | k in open :: open[k].key == k
    ensures MembersIn(closing) == MembersOf(open)
    decreases |closing|
  {
    if closing == [] {
      assert forall k :: k !in open;
      assert open == map[];
    } else {
      var g := closing[0];
      MembersWithout(open, g.key);
      forall k | k in open - {g.key} ensures open[k] in closing[1..] {
        var i :| 0 <= i < |closing| && closing[i] == open[k];
        assert closing[1..][i - 1] == open[k];
      }
      DrainConserves(closing[1..], open - {g.key});
    }
  }

  /** `closed` lists what has left `all` so far, and `open` what has not. */
  ghost predicate Drained(closed: seq<Group>, open: map<GroupKey, Group>, all: map<GroupKey, Group>) {
    && (forall k | k in open :: k in all && open[k] == all[k])
    && (forall i | 0 <= i < |closed| :: closed[i].key in all && closed[i].key !in open
                                       && all[closed[i].key] == closed[i])
    && (forall i, j | 0 <= i < j < |closed| :: closed[i].key != closed[j].key)
    && (forall k | k in all && k !in open :: all[k] in closed)
  }

  lemma DrainOne(closed: seq<Group>, open: map<GroupKey, Group>, all: map<GroupKey, Group>, k: GroupKey)
    requires Drained(closed, open, all) && k in open && open[k].key == k
    ensures Drained(closed + [open[k]], open - {k}, all)
  {
    forall l | l in all && l !in open - {k} ensures all[l] in closed + [open[k]] {
      if l == k {
        assert (closed + [open[k]])[|closed|] == all[l];
      } else {
        assert all[l] in closed;
      }
    }
  }

  /* ----- the objects ----- */

  /** Counts sends that have not finished. */
  class InFlight {
    var count: nat

    constructor ()
      ensures count == 0
    {
      count := 0;
    }

    method Start()
      modifies this
      ensures count == old(count) + 1
    {
      count := count + 1;
    }

    /** What dropping a guard does. */
    method Finish()
      requires count > 0
      modifies this
      ensures count == old(count) - 1
    {
      count := count - 1;
    }
  }

  class OpenGroups {
    var open: map<GroupKey, Group>
    var nextSeq: nat
    const inFlight: InFlight

    constructor (inFlight: InFlight)
      ensures Now() == Table(map[], 0) && this.inFlight == inFlight
    {
      open, nextSeq := map[], 0;
      this.inFlight := inFlight;
    }

    function Now(): Table
      reads this
    {
      Table(open, nextSeq)
    }

    /** Adds a member to its group, opening one if needed. A group it fills is
        closed, and counts as in flight from then on. */
    method Add(route: Route, m: Member) returns (added: Added)
      modifies this, inFlight
      ensures (Now(), added) == AddTo(old(Now()), route, m)
      ensures inFlight.count == old(inFlight.count) + if added.Full? then 1 else 0
    {
      var key := KeyFor(route, m.signal);
      if key in open {
        var g := open[key].(members := open[key].members + [m]);
        open := open[key := g];
        if |g.members| < MAX_GROUP_SIZE {
          return Joined;
        }
        assert open - {key} == old(open) - {key};
        open := open - {key};
        inFlight.Start();
        return Full(g);
      }
      nextSeq := nextSeq + 1;
      open := open[key := Group(key, nextSeq, [m])];
      var wait := route.GroupWindow();
      return Opened(key, nextSeq, if wait.Some? then wait.value else 0);
    }

    /** Closes a group if it is still the one opened under that number. */
    method Take(key: GroupKey, seqNo: nat) returns (taken: Option<Group>)
      modifies this, inFlight
      ensures (Now(), taken) == TakeFrom(old(Now()), key, seqNo)
      ensures inFlight.count == old(inFlight.count) + if taken.Some? then 1 else 0
    {
      if key !in open || open[key].seqNo != seqNo {
        return None;
      }
      taken := Some(open[key]);
      open := open - {key};
      inFlight.Start();
    }

    /** Closes every open group. */
    method TakeAll() returns (closed: seq<Group>)
      requires TableOk(Now())
      modifies this, inFlight
      ensures Drains(closed, old(open))
      ensures open == map[] && nextSeq == old(nextSeq)
      ensures inFlight.count == old(inFlight.count) + |closed|
    {
      closed := [];
      while open != map[]
        invariant nextSeq == old(nextSeq) && inFlight.count == old(inFlight.count) + |closed|
        invariant Drained(closed, open, old(open))
        decreases |open|
      {
        var k :| k in open;
        DrainOne(closed, open, old(open), k);
        closed := closed + [open[k]];
        open := open - {k};
        inFlight.Start();
      }
    }
  }
}
