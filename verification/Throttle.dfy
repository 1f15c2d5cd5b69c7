/** Route `dedup` and `rate_limit` (crates/core/src/throttle.rs): decisions are
    taken from a pruned table of sends, and sends are taken back on failure. */
module Throttle {
  import opened Basics
  import opened Model

  const I64_MAX: nat := 0x7fff_ffff_ffff_ffff

  /** Which history a send counts in. The source hashes the whole route, and
      appends `#digest` for digests; the hash is taken to be injective. */
  datatype History = Signals(route: Route) | Digests(route: Route)

  datatype Row = Row(owner: History, key: string, at: int)

  datatype Limits = Limits(dedup: Option<nat>, rate: Option<RateLimit>)

  datatype Decision = Admitted | Duplicate(sentAgo: int) | RateLimited

  function LimitsOf(h: History): Limits {
    match h
    case Signals(r) => Limits(r.dedup, if r.IsGrouped() then None else r.rateLimit)
    case Digests(r) => Limits(None, r.rateLimit)
  }

  /** Milliseconds in an `i64`, saturating. */
  function Millis(secs: nat): nat {
    if secs * 1000 <= I64_MAX then secs * 1000 else I64_MAX
  }

  /* ----- the four SQL statements of one transaction ----- */

  /** SELECT MAX(sent_at) for one history and key. */
  function LastSent(rows: seq<Row>, h: History, key: string): Option<int> {
    if rows == [] then None
    else
      var r := rows[|rows| - 1];
      var before := LastSent(rows[..|rows| - 1], h, key);
      if r.owner == h && r.key == key && (before.None? || before.value < r.at) then Some(r.at) else before
  }

  /** SELECT COUNT(*) for one history, strictly after a time. */
  function SentSince(rows: seq<Row>, h: History, after: int): nat {
    if rows == [] then 0
    else
      var r := rows[|rows| - 1];
      SentSince(rows[..|rows| - 1], h, after) + if r.owner == h && r.at > after then 1 else 0
  }

  /** DELETE of one history's rows up to a time. */
  function Prune(rows: seq<Row>, h: History, upTo: int): seq<Row> {
    if rows == [] then []
    else
      var r := rows[|rows| - 1];
      var before := Prune(rows[..|rows| - 1], h, upTo);
      if r.owner == h && r.at <= upTo then before else before + [r]
  }

  /** DELETE of one row with these values, if there is one. */
  function RemoveOne(rows: seq<Row>, row: Row): seq<Row> {
    if rows == [] then []
    else if rows[|rows| - 1] == row then rows[..|rows| - 1]
    else RemoveOne(rows[..|rows| - 1], row) + [rows[|rows| - 1]]
  }

  function RemoveAll(rows: seq<Row>, gone: seq<Row>): seq<Row> {
    if gone == [] then rows
    else RemoveOne(RemoveAll(rows, gone[..|gone| - 1]), gone[|gone| - 1])
  }

  function Decide(rows: seq<Row>, h: History, key: string, now: int, limits: Limits): Decision {
    var last := LastSent(rows, h, key);
    if limits.dedup.Some? && last.Some? && now - last.value < Millis(limits.dedup.value) then
      Duplicate(now - last.value)
    else if limits.rate.Some? && SentSince(rows, h, now - Millis(limits.rate.value.per)) >= limits.rate.value.max then
      RateLimited
    else
      Admitted
  }

  /** The longer of the two windows, in milliseconds: how long a row can matter. */
  function Keep(limits: Limits): nat {
    var d := if limits.dedup.Some? then limits.dedup.value else 0;
    var p := if limits.rate.Some? then limits.rate.value.per else 0;
    Millis(if d < p then p else d)
  }

  function Commit(rows: seq<Row>, h: History, key: string, now: int, limits: Limits): seq<Row> {
    Prune(rows + [Row(h, key, now)], h, now - Keep(limits))
  }

  /* ----- runs: the pruned table beside one that never prunes ----- */

  /** What processes sharing the file do to the table, one transaction each. */
  datatype Event = Attempt(owner: History, key: string, now: int) | Release(row: Row)

  /** One transaction on the table, as the code keeps it. */
  function PrunedStep(rows: seq<Row>, e: Event): seq<Row> {
    match e
    case Attempt(h, key, now) =>
      if Decide(rows, h, key, now, LimitsOf(h)).Admitted? then Commit(rows, h, key, now, LimitsOf(h)) else rows
    case Release(row) => RemoveOne(rows, row)
  }

  /** The same transaction on the simple table: every admitted send stays unless it is released. */
  function FullStep(rows: seq<Row>, e: Event): seq<Row> {
    match e
    case Attempt(h, key, now) =>
      if Decide(rows, h, key, now, LimitsOf(h)).Admitted? then rows + [Row(h, key, now)] else rows
    case Release(row) => RemoveOne(rows, row)
  }

  function Pruned(events: seq<Event>): seq<Row> {
    if events == [] then [] else PrunedStep(Pruned(events[..|events| - 1]), events[|events| - 1])
  }

  function Full(events: seq<Event>): seq<Row> {
    if events == [] then [] else FullStep(Full(events[..|events| - 1]), events[|events| - 1])
  }

  function SentStep(sent: seq<Row>, rows: seq<Row>, e: Event): seq<Row> {
    match e
    case Attempt(h, key, now) =>
      if Decide(rows, h, key, now, LimitsOf(h)).Admitted? then sent + [Row(h, key, now)] else sent
    case Release(row) => RemoveOne(sent, row)
  }

  /** The sends the pruned table let through and nobody took back. */
  function Sent(events: seq<Event>): seq<Row> {
    if events == [] then []
    else
      var init := events[..|events| - 1];
      SentStep(Sent(init), Pruned(init), events[|events| - 1])
  }

  lemma RunStep(events: seq<Event>, e: Event)
    ensures Pruned(events + [e]) == PrunedStep(Pruned(events), e)
    ensures Full(events + [e]) == FullStep(Full(events), e)
    ensures Sent(events + [e]) == SentStep(Sent(events), Pruned(events), e)
  {
    assert (events + [e])[..|events|] == events;
  }

  /* ----- what the pruned table holds, whatever the clocks say ----- */

  /** A send nobody took back, with the latest time of an attempt admitted on its
      history since, its own included. */
  datatype Send = Send(row: Row, latest: int)

  function AgedOne(s: Send, h: History, now: int): Send {
    if s.row.owner == h && s.latest < now then s.(latest := now) else s
  }

  function Aged(sends: seq<Send>, h: History, now: int): seq<Send> {
    if sends == [] then []
    else Aged(sends[..|sends| - 1], h, now) + [AgedOne(sends[|sends| - 1], h, now)]
  }

  function TakenOut(sends: seq<Send>, row: Row): seq<Send> {
    if sends == [] then []
    else if sends[|sends| - 1].row == row then sends[..|sends| - 1]
    else TakenOut(sends[..|sends| - 1], row) + [sends[|sends| - 1]]
  }

  function Standing(events: seq<Event>): seq<Send> {
    if events == [] then []
    else
      var init, e := events[..|events| - 1], events[|events| - 1];
      match e
      case Attempt(h, key, now) =>
        if Decide(Pruned(init), h, key, now, LimitsOf(h)).Admitted?
        then Aged(Standing(init) + [Send(Row(h, key, now), now)], h, now) else Standing(init)
      case Release(row) => TakenOut(Standing(init), row)
  }

  function RowsOf(sends: seq<Send>): seq<Row> {
    if sends == [] then [] else RowsOf(sends[..|sends| - 1]) + [sends[|sends| - 1].row]
  }

  /** No attempt admitted since is so much later that it dropped the send. */
  predicate Alive(s: Send) {
    s.row.at > s.latest - Keep(LimitsOf(s.row.owner))
  }

  function LiveRows(sends: seq<Send>): seq<Row> {
    if sends == [] then []
    else
      var before, last := LiveRows(sends[..|sends| - 1]), sends[|sends| - 1];
      if Alive(last) then before + [last.row] else before
  }

  /* What each query and deletion makes of one more row. */

  lemma OneMoreLast(rows: seq<Row>, r: Row, h: History, key: string)
    ensures LastSent(rows + [r], h, key) ==
            var before := LastSent(rows, h, key);
            if r.owner == h && r.key == key && (before.None? || before.value < r.at) then Some(r.at) else before
  {
    assert (rows + [r])[..|rows|] == rows;
  }

  lemma OneMoreCounted(rows: seq<Row>, r: Row, h: History, after: int)
    ensures SentSince(rows + [r], h, after) == SentSince(rows, h, after) + if r.owner == h && r.at > after then 1 else 0
  {
    assert (rows + [r])[..|rows|] == rows;
  }

  lemma OneMorePruned(rows: seq<Row>, r: Row, h: History, upTo: int)
    ensures Prune(rows + [r], h, upTo) ==
            if r.owner == h && r.at <= upTo then Prune(rows, h, upTo) else Prune(rows, h, upTo) + [r]
  {
    assert (rows + [r])[..|rows|] == rows;
  }

  lemma OneMoreRemoved(rows: seq<Row>, r: Row)
    ensures RemoveOne(rows + [r], r) == rows
  {
    assert (rows + [r])[..|rows|] == rows;
  }

  lemma OneMoreSend(sends: seq<Send>, s: Send)
    ensures RowsOf(sends + [s]) == RowsOf(sends) + [s.row]
    ensures LiveRows(sends + [s]) == if Alive(s) then LiveRows(sends) + [s.row] else LiveRows(sends)
  {
    assert (sends + [s])[..|sends|] == sends;
  }

  /** Earlier sends of a history have seen at least what later ones have. */
  predicate Ages(sends: seq<Send>) {
    sends == []
    || (var last := sends[|sends| - 1];
        && Ages(sends[..|sends| - 1])
        && forall s | s in sends[..|sends| - 1] && s.row.owner == last.row.owner :: s.latest >= last.latest)
  }

  lemma {:induction false} AgedIs(sends: seq<Send>, h: History, now: int)
    ensures RowsOf(Aged(sends, h, now)) == RowsOf(sends)
    ensures LiveRows(Aged(sends, h, now)) == Prune(LiveRows(sends), h, now - Keep(LimitsOf(h)))
  {
    if sends != [] {
      var init, last := sends[..|sends| - 1], sends[|sends| - 1];
      AgedIs(init, h, now);
      OneMoreSend(Aged(init, h, now), AgedOne(last, h, now));
      OneMorePruned(LiveRows(init), last.row, h, now - Keep(LimitsOf(h)));
    }
  }

  lemma {:induction false} AgedComeFrom(sends: seq<Send>, h: History, now: int, s: Send)
    requires s in Aged(sends, h, now)
    ensures exists t | t in sends :: s == AgedOne(t, h, now)
  {
    var init := sends[..|sends| - 1];
    if s in Aged(init, h, now) {
      AgedComeFrom(init, h, now, s);
    } else {
      assert s == AgedOne(sends[|init|], h, now);
    }
  }

  lemma {:induction false} AgedAges(sends: seq<Send>, h: History, now: int)
    requires Ages(sends)
    ensures Ages(Aged(sends, h, now))
  {
    if sends != [] {
      var init, last := sends[..|sends| - 1], AgedOne(sends[|sends| - 1], h, now);
      AgedAges(init, h, now);
      forall s | s in Aged(init, h, now) && s.row.owner == last.row.owner ensures s.latest >= last.latest {
        AgedComeFrom(init, h, now, s);
      }
      assert (Aged(init, h, now) + [last])[..|Aged(init, h, now)|] == Aged(init, h, now);
    }
  }

  lemma {:induction false} TakenOutComeFrom(sends: seq<Send>, row: Row, s: Send)
    requires s in TakenOut(sends, row)
    ensures s in sends
  {
    var init, last := sends[..|sends| - 1], sends[|sends| - 1];
    assert sends == init + [last];
    if last.row != row && s in TakenOut(init, row) {
      TakenOutComeFrom(init, row, s);
    }
  }

  lemma {:induction false} TakenOutAges(sends: seq<Send>, row: Row)
    requires Ages(sends)
    ensures Ages(TakenOut(sends, row))
  {
    if sends != [] && sends[|sends| - 1].row != row {
      var init, last := sends[..|sends| - 1], sends[|sends| - 1];
      TakenOutAges(init, row);
      forall s | s in TakenOut(init, row) && s.row.owner == last.row.owner ensures s.latest >= last.latest {
        TakenOutComeFrom(init, row, s);
      }
      assert (TakenOut(init, row) + [last])[..|TakenOut(init, row)|] == TakenOut(init, row);
    }
  }

  /** A send that was dropped leaves no equal one in the table for a release to find. */
  lemma {:induction false} NoneToTakeOut(sends: seq<Send>, row: Row)
    requires forall s | s in sends && s.row == row :: !Alive(s)
    ensures RemoveOne(LiveRows(sends), row) == LiveRows(sends)
  {
    if sends != [] {
      var init, last := sends[..|sends| - 1], sends[|sends| - 1];
      assert sends == init + [last];
      NoneToTakeOut(init, row);
      assert (LiveRows(init) + [last.row])[..|LiveRows(init)|] == LiveRows(init);
    }
  }

  lemma {:induction false} TakenOutIs(sends: seq<Send>, row: Row)
    requires Ages(sends)
    ensures RowsOf(TakenOut(sends, row)) == RemoveOne(RowsOf(sends), row)
    ensures LiveRows(TakenOut(sends, row)) == RemoveOne(LiveRows(sends), row)
  {
    if sends != [] {
      var init, last := sends[..|sends| - 1], sends[|sends| - 1];
      TakenOutIs(init, row);
      OneMoreSend(TakenOut(init, row), last);
      assert (RowsOf(init) + [last.row])[..|RowsOf(init)|] == RowsOf(init);
      assert (LiveRows(init) + [last.row])[..|LiveRows(init)|] == LiveRows(init);
      if last.row == row && !Alive(last) {
        NoneToTakeOut(init, row);
      }
    }
  }

  lemma AdmitKept(sends: seq<Send>, h: History, key: string, now: int)
    requires Ages(sends)
    ensures var limits, more := LimitsOf(h), Aged(sends + [Send(Row(h, key, now), now)], h, now);
            && Ages(more)
            && RowsOf(more) == RowsOf(sends) + [Row(h, key, now)]
            && LiveRows(more) == Commit(LiveRows(sends), h, key, now, limits)
  {
    var s := Send(Row(h, key, now), now);
    OneMoreSend(sends, s);
    AgedIs(sends + [s], h, now);
    OneMorePruned(LiveRows(sends), s.row, h, now - Keep(LimitsOf(h)));
    NewAges(sends, h, now, s);
  }

  /** Ageing by a new send's time puts it in its place. */
  lemma NewAges(sends: seq<Send>, h: History, now: int, s: Send)
    requires Ages(sends) && s.latest == now && s.row.owner == h
    ensures Ages(Aged(sends + [s], h, now))
  {
    var aged := Aged(sends, h, now);
    AgedAges(sends, h, now);
    assert (sends + [s])[..|sends|] == sends;
    forall t | t in aged && t.row.owner == h ensures t.latest >= now {
      AgedComeFrom(sends, h, now, t);
    }
    assert (aged + [s])[..|aged|] == aged;
  }

  /** For every run, in whatever order the times come: the sends nobody took back are
      the standing ones, and the table holds exactly those of them that no attempt
      admitted since on their history has outlived by its longest window. */
  lemma {:induction false} PrunedIsKept(events: seq<Event>)
    ensures Ages(Standing(events))
    ensures Sent(events) == RowsOf(Standing(events))
    ensures Pruned(events) == LiveRows(Standing(events))
  {
    if events != [] {
      var init, e := events[..|events| - 1], events[|events| - 1];
      PrunedIsKept(init);
      match e
      case Attempt(h, key, now) => AdmitKept(Standing(init), h, key, now);
      case Release(row) =>
        TakenOutIs(Standing(init), row);
        TakenOutAges(Standing(init), row);
    }
  }

  /* ----- when decisions agree ----- */

  /** No attempt on the history was made for a time after `m`. */
  ghost predicate NoneLater(events: seq<Event>, h: History, m: int) {
    forall e | e in events && e.Attempt? && e.owner == h :: e.now <= m
  }

  /** An attempt is at most `d` earlier than any attempt on its history before it. The
      time is read before the table is locked, so with more callers than one `d` may
      be positive though no clock ever steps back. */
  ghost predicate Lag(events: seq<Event>, d: nat) {
    forall i, j | 0 <= i < j < |events| && events[i].Attempt? && events[j].Attempt? ::
      events[i].owner == events[j].owner ==> events[i].now <= events[j].now + d
  }

  lemma LagBefore(events: seq<Event>, e: Event, d: nat)
    requires Lag(events + [e], d)
    ensures Lag(events, d)
    ensures e.Attempt? ==> NoneLater(events, e.owner, e.now + d)
  {
    var more := events + [e];
    assert forall i | 0 <= i < |events| :: more[i] == events[i];
    assert more[|events|] == e;
  }

  lemma LagOfAll(events: seq<Event>, e: Event, d: nat)
    requires Lag(events, d) && (e.Attempt? ==> NoneLater(events, e.owner, e.now + d))
    ensures Lag(events + [e], d)
  {
  }

  lemma {:induction false} StandingNotLater(events: seq<Event>, h: History, m: int)
    requires NoneLater(events, h, m)
    ensures forall s | s in Standing(events) && s.row.owner == h :: s.row.at <= m && s.latest <= m
  {
    if events != [] {
      var init, e := events[..|events| - 1], events[|events| - 1];
      assert events == init + [e];
      StandingNotLater(init, h, m);
      forall s | s in Standing(events) && s.row.owner == h ensures s.row.at <= m && s.latest <= m {
        StandingComesFrom(init, e, s);
      }
    }
  }

  /** A standing send stood before the step, aged at most by it, or is the step's own. */
  lemma StandingComesFrom(events: seq<Event>, e: Event, s: Send)
    requires s in Standing(events + [e])
    ensures s in Standing(events)
            || (e.Attempt? && s.row.owner == e.owner
                && (s.latest == e.now || exists t | t in Standing(events) :: s.row == t.row && s.latest == t.latest)
                && (s.row.at == e.now || exists t | t in Standing(events) :: s.row == t.row))
  {
    assert (events + [e])[..|events|] == events;
    if s !in Standing(events) {
      if e.Release? {
        TakenOutComeFrom(Standing(events), e.row, s);
      } else {
        var all := Standing(events) + [Send(Row(e.owner, e.key, e.now), e.now)];
        AgedComeFrom(all, e.owner, e.now, s);
      }
    }
  }

  /** After `after`, the table and the standing sends count alike. */
  lemma {:induction false} CountAlike(sends: seq<Send>, h: History, after: int)
    requires forall s | s in sends && s.row.owner == h :: s.latest - Keep(LimitsOf(h)) <= after
    ensures SentSince(LiveRows(sends), h, after) == SentSince(RowsOf(sends), h, after)
  {
    if sends != [] {
      var init, last := sends[..|sends| - 1], sends[|sends| - 1];
      assert sends == init + [last];
      CountAlike(init, h, after);
      OneMoreCounted(LiveRows(init), last.row, h, after);
      OneMoreCounted(RowsOf(init), last.row, h, after);
    }
  }

  predicate SameAfterTime(last: Option<int>, all: Option<int>, after: int) {
    if all.Some? && all.value > after then last == all else last.None? || last.value <= after
  }

  /** A last send after `after` is the same in the table and among the standing sends. */
  lemma {:induction false} LastAlike(sends: seq<Send>, h: History, key: string, after: int)
    requires forall s | s in sends && s.row.owner == h :: s.latest - Keep(LimitsOf(h)) <= after
    ensures SameAfterTime(LastSent(LiveRows(sends), h, key), LastSent(RowsOf(sends), h, key), after)
  {
    if sends != [] {
      var init, last := sends[..|sends| - 1], sends[|sends| - 1];
      assert sends == init + [last];
      LastAlike(init, h, key, after);
      OneMoreLast(LiveRows(init), last.row, h, key);
      OneMoreLast(RowsOf(init), last.row, h, key);
      assert last.row.owner == h && last.row.at > after ==> Alive(last);
    }
  }

  lemma RateAlike(sends: seq<Send>, h: History, now: int)
    requires LimitsOf(h).rate.Some? && forall s | s in sends && s.row.owner == h :: s.latest <= now
    ensures var after := now - Millis(LimitsOf(h).rate.value.per);
            SentSince(LiveRows(sends), h, after) == SentSince(RowsOf(sends), h, after)
  {
    CountAlike(sends, h, now - Millis(LimitsOf(h).rate.value.per));
  }

  lemma DecideAlike(sends: seq<Send>, h: History, key: string, now: int)
    requires forall s | s in sends && s.row.owner == h :: s.latest <= now
    ensures Decide(LiveRows(sends), h, key, now, LimitsOf(h)) == Decide(RowsOf(sends), h, key, now, LimitsOf(h))
  {
    LastAlike(sends, h, key, now - Keep(LimitsOf(h)));
    if LimitsOf(h).rate.Some? {
      RateAlike(sends, h, now);
    }
  }

  /** At a time no attempt on the history is after, the pruned table decides as the
      sends that were never pruned do, down to the one a duplicate is blamed on. */
  lemma PruningNeverShows(events: seq<Event>, h: History, key: string, now: int)
    requires NoneLater(events, h, now)
    ensures Decide(Pruned(events), h, key, now, LimitsOf(h)) == Decide(Sent(events), h, key, now, LimitsOf(h))
  {
    PrunedIsKept(events);
    StandingNotLater(events, h, now);
    DecideAlike(Standing(events), h, key, now);
  }

  /** Whether the unpruned sends would let through what the pruned table did. */
  ghost predicate Alike(events: seq<Event>, e: Event) {
    e.Attempt? ==>
      (Decide(Pruned(events), e.owner, e.key, e.now, LimitsOf(e.owner)).Admitted? <==>
       Decide(Sent(events), e.owner, e.key, e.now, LimitsOf(e.owner)).Admitted?)
  }

  ghost predicate AllAlike(events: seq<Event>) {
    events == [] || (AllAlike(events[..|events| - 1]) && Alike(events[..|events| - 1], events[|events| - 1]))
  }

  /** The never-pruned table, deciding for itself, holds the same sends at every moment. */
  ghost predicate SameThroughout(events: seq<Event>) {
    Sent(events) == Full(events) && (events == [] || SameThroughout(events[..|events| - 1]))
  }

  lemma SameAfter(events: seq<Event>, e: Event)
    requires Sent(events) == Full(events)
    ensures Sent(events + [e]) == Full(events + [e]) <==> Alike(events, e)
  {
    RunStep(events, e);
    if e.Attempt? {
      assert |Sent(events) + [Row(e.owner, e.key, e.now)]| != |Sent(events)|;
    }
  }

  /** The tables agree throughout a run exactly when each attempt is let through by
      both or by neither. */
  lemma {:induction false} SameIffAlike(events: seq<Event>)
    ensures SameThroughout(events) <==> AllAlike(events)
  {
    if events != [] {
      var init, e := events[..|events| - 1], events[|events| - 1];
      assert events == init + [e];
      SameIffAlike(init);
      if SameThroughout(init) {
        assert Sent(init) == Full(init);
        SameAfter(init, e);
      }
    }
  }

  /** It does in every run whose times come in order on each history. */
  lemma {:induction false} SentIsFull(events: seq<Event>)
    requires Lag(events, 0)
    ensures Sent(events) == Full(events)
  {
    if events != [] {
      var init, e := events[..|events| - 1], events[|events| - 1];
      assert events == init + [e];
      LagBefore(init, e, 0);
      SentIsFull(init);
      RunStep(init, e);
      if e.Attempt? {
        PruningNeverShows(init, e.owner, e.key, e.now);
      }
    }
  }

  /** `sent` holds what `d` says is in the way. */
  ghost predicate Justified(d: Decision, sent: seq<Row>, h: History, key: string, now: int) {
    var limits := LimitsOf(h);
    && (d.Duplicate? ==>
          limits.dedup.Some? && d.sentAgo < Millis(limits.dedup.value) && Row(h, key, now - d.sentAgo) in sent)
    && (d.RateLimited? ==>
          limits.rate.Some? && SentSince(sent, h, now - Millis(limits.rate.value.per)) >= limits.rate.value.max)
  }

  lemma DecisionIsJustified(rows: seq<Row>, h: History, key: string, now: int)
    ensures Justified(Decide(rows, h, key, now, LimitsOf(h)), rows, h, key, now)
  {
    LastSentIsLatest(rows, h, key);
  }

  lemma JustifiedByAll(d: Decision, sends: seq<Send>, h: History, key: string, now: int)
    requires Justified(d, LiveRows(sends), h, key, now)
    ensures Justified(d, RowsOf(sends), h, key, now)
  {
    if d.Duplicate? {
      LiveRowsStand(sends, Row(h, key, now - d.sentAgo));
    }
    if d.RateLimited? {
      LiveRowsCount(sends, h, now - Millis(LimitsOf(h).rate.value.per));
    }
  }

  /** In any run at all, nothing is held back without standing sends that forbid it. */
  lemma RejectionsAreJustified(events: seq<Event>, h: History, key: string, now: int)
    ensures Justified(Decide(Pruned(events), h, key, now, LimitsOf(h)), Sent(events), h, key, now)
  {
    PrunedIsKept(events);
    DecisionIsJustified(Pruned(events), h, key, now);
    JustifiedByAll(Decide(Pruned(events), h, key, now, LimitsOf(h)), Standing(events), h, key, now);
  }

  lemma {:induction false} LiveRowsStand(sends: seq<Send>, r: Row)
    ensures r in LiveRows(sends) ==> r in RowsOf(sends)
  {
    if sends != [] {
      LiveRowsStand(sends[..|sends| - 1], r);
    }
  }

  lemma {:induction false} LiveRowsCount(sends: seq<Send>, h: History, after: int)
    ensures SentSince(LiveRows(sends), h, after) <= SentSince(RowsOf(sends), h, after)
  {
    if sends != [] {
      var init, last := sends[..|sends| - 1], sends[|sends| - 1];
      LiveRowsCount(init, h, after);
      OneMoreCounted(LiveRows(init), last.row, h, after);
      OneMoreCounted(RowsOf(init), last.row, h, after);
    }
  }

  lemma {:induction false} LastSentIsLatest(rows: seq<Row>, h: History, key: string)
    ensures forall i | 0 <= i < |rows| && rows[i].owner == h && rows[i].key == key ::
              LastSent(rows, h, key).Some? && rows[i].at <= LastSent(rows, h, key).value
    ensures LastSent(rows, h, key).Some? ==> Row(h, key, LastSent(rows, h, key).value) in rows
  {
    if rows != [] {
      var init := rows[..|rows| - 1];
      LastSentIsLatest(init, h, key);
      assert rows == init + [rows[|rows| - 1]];
    }
  }

  /* ----- safety of whole runs ----- */

  /** What a lag of `d` leaves of a window: nothing is lost while the history keeps its
      rows longer than the window by as much. */
  function Left(limits: Limits, window: nat, d: nat): int {
    if window <= Keep(limits) - d then window else Keep(limits) - d
  }

  /** Nothing before contradicts `r` but for the lag: its history's sends are at most
      that much later, what is left of its dedup window is clear, and what is left of
      its rate limit's holds fewer than `max`. */
  ghost predicate Clear(before: seq<Row>, r: Row, d: nat) {
    var limits := LimitsOf(r.owner);
    && (forall i | 0 <= i < |before| && before[i].owner == r.owner ::
          && before[i].at <= r.at + d
          && (limits.dedup.Some? && before[i].key == r.key ==>
                r.at - before[i].at >= Left(limits, Millis(limits.dedup.value), d)))
    && (limits.rate.Some? ==>
          SentSince(before, r.owner, r.at - Left(limits, Millis(limits.rate.value.per), d)) < limits.rate.value.max)
  }

  ghost predicate AllClear(rows: seq<Row>, d: nat) {
    forall j | 0 <= j < |rows| :: Clear(rows[..j], rows[j], d)
  }

  lemma ClearInit(rows: seq<Row>, d: nat)
    requires AllClear(rows, d) && rows != []
    ensures AllClear(rows[..|rows| - 1], d) && Clear(rows[..|rows| - 1], rows[|rows| - 1], d)
  {
    var init := rows[..|rows| - 1];
    forall j | 0 <= j < |init| ensures Clear(init[..j], init[j], d) {
      assert init[..j] == rows[..j];
    }
  }

  /** Taking a row back leaves a subset with no higher counts. */
  lemma {:induction false} RemoveOneShrinks(rows: seq<Row>, row: Row)
    ensures forall r :: r in RemoveOne(rows, row) ==> r in rows
    ensures forall h, after :: SentSince(RemoveOne(rows, row), h, after) <= SentSince(rows, h, after)
  {
    if rows != [] {
      var init, last := rows[..|rows| - 1], rows[|rows| - 1];
      RemoveOneShrinks(init, row);
      assert rows == init + [last];
      var less := RemoveOne(init, row);
      assert (less + [last])[..|less|] == less;
    }
  }

  lemma {:induction false} RemoveOneClear(rows: seq<Row>, row: Row, d: nat)
    requires AllClear(rows, d)
    ensures AllClear(RemoveOne(rows, row), d)
  {
    if rows != [] {
      var init, last := rows[..|rows| - 1], rows[|rows| - 1];
      ClearInit(rows, d);
      RemoveOneClear(init, row, d);
      if last != row {
        RemoveOneShrinks(init, row);
        ClearOfFewer(init, RemoveOne(init, row), last, d);
        AppendClear(RemoveOne(init, row), last, d);
      }
    }
  }

  lemma ClearOfFewer(before: seq<Row>, fewer: seq<Row>, r: Row, d: nat)
    requires Clear(before, r, d)
    requires forall x :: x in fewer ==> x in before
    requires forall h, after :: SentSince(fewer, h, after) <= SentSince(before, h, after)
    ensures Clear(fewer, r, d)
  {
    forall i | 0 <= i < |fewer| && fewer[i].owner == r.owner
      ensures fewer[i].at <= r.at + d
      ensures LimitsOf(r.owner).dedup.Some? && fewer[i].key == r.key ==>
                r.at - fewer[i].at >= Left(LimitsOf(r.owner), Millis(LimitsOf(r.owner).dedup.value), d)
    {
      assert fewer[i] in before;
    }
  }

  lemma AppendClear(rows: seq<Row>, r: Row, d: nat)
    requires AllClear(rows, d) && Clear(rows, r, d)
    ensures AllClear(rows + [r], d)
  {
    var more := rows + [r];
    forall j | 0 <= j < |more| ensures Clear(more[..j], more[j], d) {
      assert more[..j] == rows[..j];
    }
  }

  lemma {:induction false} LaterCountsLess(rows: seq<Row>, h: History, from: int, to: int)
    requires from <= to
    ensures SentSince(rows, h, to) <= SentSince(rows, h, from)
  {
    if rows != [] {
      LaterCountsLess(rows[..|rows| - 1], h, from, to);
    }
  }

  lemma {:induction false} RowsComeFrom(sends: seq<Send>, r: Row)
    requires r in RowsOf(sends)
    ensures exists s | s in sends :: s.row == r
  {
    var init, last := sends[..|sends| - 1], sends[|sends| - 1];
    if r in RowsOf(init) {
      RowsComeFrom(init, r);
    } else {
      assert last in sends;
    }
  }

  ghost predicate WithinLag(sends: seq<Send>, h: History, m: int) {
    forall s | s in sends && s.row.owner == h :: s.row.at <= m && s.latest <= m
  }

  lemma DedupWithinLag(sends: seq<Send>, h: History, key: string, now: int, d: nat)
    requires WithinLag(sends, h, now + d) && LimitsOf(h).dedup.Some?
    requires Decide(LiveRows(sends), h, key, now, LimitsOf(h)).Admitted?
    ensures var rows := RowsOf(sends);
            forall i | 0 <= i < |rows| && rows[i].owner == h && rows[i].key == key ::
              now - rows[i].at >= Left(LimitsOf(h), Millis(LimitsOf(h).dedup.value), d)
  {
    LastAlike(sends, h, key, now + d - Keep(LimitsOf(h)));
    LastSentIsLatest(RowsOf(sends), h, key);
  }

  lemma RateWithinLag(sends: seq<Send>, h: History, key: string, now: int, d: nat)
    requires WithinLag(sends, h, now + d) && LimitsOf(h).rate.Some?
    requires Decide(LiveRows(sends), h, key, now, LimitsOf(h)).Admitted?
    ensures SentSince(RowsOf(sends), h, now - Left(LimitsOf(h), Millis(LimitsOf(h).rate.value.per), d))
            < LimitsOf(h).rate.value.max
  {
    var per := Millis(LimitsOf(h).rate.value.per);
    var left := Left(LimitsOf(h), per, d);
    CountAlike(sends, h, now - left);
    LaterCountsLess(LiveRows(sends), h, now - per, now - left);
  }

  /** What the pruned table lets through is clear of all that stands, but for the lag. */
  lemma AdmittedIsClear(sends: seq<Send>, h: History, key: string, now: int, d: nat)
    requires WithinLag(sends, h, now + d)
    requires Decide(LiveRows(sends), h, key, now, LimitsOf(h)).Admitted?
    ensures Clear(RowsOf(sends), Row(h, key, now), d)
  {
    var rows := RowsOf(sends);
    forall i | 0 <= i < |rows| && rows[i].owner == h ensures rows[i].at <= now + d {
      RowsComeFrom(sends, rows[i]);
    }
    if LimitsOf(h).dedup.Some? {
      DedupWithinLag(sends, h, key, now, d);
    }
    if LimitsOf(h).rate.Some? {
      RateWithinLag(sends, h, key, now, d);
    }
  }

  lemma {:induction false} RunIsClear(events: seq<Event>, d: nat)
    requires Lag(events, d)
    ensures AllClear(Sent(events), d)
  {
    if events != [] {
      var init, e := events[..|events| - 1], events[|events| - 1];
      assert events == init + [e];
      LagBefore(init, e, d);
      RunIsClear(init, d);
      match e
      case Attempt(h, key, now) =>
        if Decide(Pruned(init), h, key, now, LimitsOf(h)).Admitted? {
          PrunedIsKept(init);
          StandingNotLater(init, h, now + d);
          AdmittedIsClear(Standing(init), h, key, now, d);
          AppendClear(Sent(init), Row(h, key, now), d);
        }
      case Release(row) =>
        RemoveOneClear(Sent(init), row, d);
    }
  }

  /** Sends of a history in the half-open interval [from, to). */
  function SentWithin(rows: seq<Row>, h: History, from: int, to: int): nat {
    if rows == [] then 0
    else
      var r := rows[|rows| - 1];
      SentWithin(rows[..|rows| - 1], h, from, to) + if r.owner == h && from <= r.at < to then 1 else 0
  }

  lemma {:induction false} WithinAtMostSince(rows: seq<Row>, h: History, from: int, to: int, after: int)
    requires after < from
    ensures SentWithin(rows, h, from, to) <= SentSince(rows, h, after)
  {
    if rows != [] {
      WithinAtMostSince(rows[..|rows| - 1], h, from, to, after);
    }
  }

  lemma {:induction false} ClearBoundsInterval(rows: seq<Row>, h: History, from: int, d: nat)
    requires AllClear(rows, d) && LimitsOf(h).rate.Some?
    ensures SentWithin(rows, h, from, from + Left(LimitsOf(h), Millis(LimitsOf(h).rate.value.per), d))
            <= LimitsOf(h).rate.value.max
  {
    if rows != [] {
      var init, r := rows[..|rows| - 1], rows[|rows| - 1];
      var left := Left(LimitsOf(h), Millis(LimitsOf(h).rate.value.per), d);
      ClearInit(rows, d);
      ClearBoundsInterval(init, h, from, d);
      if r.owner == h && from <= r.at < from + left {
        WithinAtMostSince(init, h, from, from + left, r.at - left);
      }
    }
  }

  /** Later in the run means later by `gap`, for sends of one key. */
  ghost predicate SpacedBy(rows: seq<Row>, h: History, gap: int) {
    forall i, j | 0 <= i < j < |rows| && rows[i].owner == h && rows[j].owner == h ::
      rows[i].key == rows[j].key ==> rows[j].at - rows[i].at >= gap
  }

  /** Over any run, however admits, rejections, releases and prunes mix: of the sends
      let through and not taken back, no interval as long as what the lag leaves of
      `per` holds more than `max` of a route, and two with one key are what it leaves of
      the dedup window apart. Without lag the two windows hold in full. */
  lemma ThrottleIsSafe(events: seq<Event>, d: nat, h: History, from: int)
    requires Lag(events, d)
    ensures var limits := LimitsOf(h);
            && (limits.rate.Some? ==>
                  SentWithin(Sent(events), h, from, from + Left(limits, Millis(limits.rate.value.per), d))
                  <= limits.rate.value.max)
            && (limits.dedup.Some? ==>
                  SpacedBy(Sent(events), h, Left(limits, Millis(limits.dedup.value), d)))
  {
    RunIsClear(events, d);
    var rows := Sent(events);
    if LimitsOf(h).rate.Some? {
      ClearBoundsInterval(rows, h, from, d);
    }
    forall i, j | 0 <= i < j < |rows| && rows[i].owner == h && rows[j].owner == h
                  && rows[i].key == rows[j].key && LimitsOf(h).dedup.Some?
      ensures rows[j].at - rows[i].at >= Left(LimitsOf(h), Millis(LimitsOf(h).dedup.value), d)
    {
      assert Clear(rows[..j], rows[j], d) && rows[..j][i] == rows[i];
    }
  }

  /** What is left is the whole window less the lag, where a route has just one, and all
      of it without lag. */
  lemma LeftIs(limits: Limits, d: nat)
    ensures limits.dedup.Some? ==>
              Millis(limits.dedup.value) - d <= Left(limits, Millis(limits.dedup.value), d)
                <= Millis(limits.dedup.value)
    ensures limits.rate.Some? ==>
              Millis(limits.rate.value.per) - d <= Left(limits, Millis(limits.rate.value.per), d)
                <= Millis(limits.rate.value.per)
  {
  }

  /** A run without lag, one whose times come in order on each history, keeps both
      windows in full. */
  lemma WindowsHoldInFull(events: seq<Event>, h: History, from: int)
    requires Lag(events, 0)
    ensures LimitsOf(h).rate.Some? ==>
              SentWithin(Sent(events), h, from, from + Millis(LimitsOf(h).rate.value.per)) <= LimitsOf(h).rate.value.max
    ensures LimitsOf(h).dedup.Some? ==> SpacedBy(Sent(events), h, Millis(LimitsOf(h).dedup.value))
  {
    ThrottleIsSafe(events, 0, h, from);
    LeftIs(LimitsOf(h), 0);
  }

  /** So the theorem says something about every run. */
  lemma {:induction false} EveryRunHasALag(events: seq<Event>) returns (d: nat)
    ensures Lag(events, d)
  {
    d := 0;
    if events != [] {
      var init, e := events[..|events| - 1], events[|events| - 1];
      assert events == init + [e];
      d := EveryRunHasALag(init);
      if e.Attempt? {
        var m := LatestAttempt(init, e.owner, e.now);
        d := if m - e.now > d then m - e.now else d;
      }
      LagOfAll(init, e, d);
    }
  }

  lemma {:induction false} LatestAttempt(events: seq<Event>, h: History, from: int) returns (m: int)
    ensures m >= from && NoneLater(events, h, m)
  {
    m := from;
    if events != [] {
      var init, e := events[..|events| - 1], events[|events| - 1];
      assert events == init + [e];
      m := LatestAttempt(init, h, from);
      m := if e.Attempt? && m < e.now then e.now else m;
    }
  }

  /* ----- decisions are exact ----- */

  /** `d` admits exactly a send that nothing standing contradicts, and blames a
      duplicate on the latest send of its key. */
  ghost predicate Exact(d: Decision, sent: seq<Row>, h: History, key: string, now: int) {
    && (d.Admitted? <==> Clear(sent, Row(h, key, now), 0))
    && (d.Duplicate? ==>
          && Row(h, key, now - d.sentAgo) in sent
          && forall i | 0 <= i < |sent| && sent[i].owner == h && sent[i].key == key :: sent[i].at <= now - d.sentAgo)
  }

  lemma DecidesExactly(rows: seq<Row>, h: History, key: string, now: int)
    requires forall i | 0 <= i < |rows| && rows[i].owner == h :: rows[i].at <= now
    ensures Exact(Decide(rows, h, key, now, LimitsOf(h)), rows, h, key, now)
  {
    LastSentIsLatest(rows, h, key);
    var limits, last := LimitsOf(h), LastSent(rows, h, key);
    if limits.dedup.Some? && last.Some? && now - last.value < Millis(limits.dedup.value) {
      var i :| 0 <= i < |rows| && rows[i] == Row(h, key, last.value);
      assert !Clear(rows, Row(h, key, now), 0);
    }
  }

  /** Whatever the run, an attempt that no earlier one on its history is later than is
      let through exactly when the standing sends allow it. */
  lemma DecisionsAreExact(events: seq<Event>, h: History, key: string, now: int)
    requires NoneLater(events, h, now)
    ensures Exact(Decide(Pruned(events), h, key, now, LimitsOf(h)), Sent(events), h, key, now)
  {
    PruningNeverShows(events, h, key, now);
    PrunedIsKept(events);
    StandingNotLater(events, h, now);
    var rows := Sent(events);
    forall i | 0 <= i < |rows| && rows[i].owner == h ensures rows[i].at <= now {
      RowsComeFrom(Standing(events), rows[i]);
    }
    DecidesExactly(rows, h, key, now);
  }

  /* ----- one send let through, and taken back ----- */

  /** What letting one more send through makes of the table and of the sends. */
  lemma Admits(events: seq<Event>, rows: seq<Row>, r: Row)
    requires Pruned(events) == rows && Decide(rows, r.owner, r.key, r.at, LimitsOf(r.owner)).Admitted?
    ensures Pruned(events + [Attempt(r.owner, r.key, r.at)]) == Commit(rows, r.owner, r.key, r.at, LimitsOf(r.owner))
    ensures Sent(events + [Attempt(r.owner, r.key, r.at)]) == Sent(events) + [r]
  {
    RunStep(events, Attempt(r.owner, r.key, r.at));
  }

  function Try(r: Row): Event {
    Attempt(r.owner, r.key, r.at)
  }

  lemma {:induction false} NothingAtTheCut(rows: seq<Row>, r: Row, upTo: int)
    ensures r.at <= upTo ==> RemoveOne(Prune(rows, r.owner, upTo), r) == Prune(rows, r.owner, upTo)
  {
    if rows != [] {
      var init, last := rows[..|rows| - 1], rows[|rows| - 1];
      NothingAtTheCut(init, r, upTo);
      var before := Prune(init, r.owner, upTo);
      assert (before + [last])[..|before|] == before;
    }
  }

  lemma RemoveCommitted(rows: seq<Row>, r: Row, limits: Limits)
    ensures RemoveOne(Commit(rows, r.owner, r.key, r.at, limits), r) == Prune(rows, r.owner, r.at - Keep(limits))
  {
    var upTo := r.at - Keep(limits);
    OneMorePruned(rows, r, r.owner, upTo);
    OneMoreRemoved(Prune(rows, r.owner, upTo), r);
    NothingAtTheCut(rows, r, upTo);
  }

  lemma TwoSteps(events: seq<Event>, a: Event, b: Event)
    ensures Pruned(events + [a] + [b]) == PrunedStep(PrunedStep(Pruned(events), a), b)
    ensures Sent(events + [a] + [b]) ==
            SentStep(SentStep(Sent(events), Pruned(events), a), PrunedStep(Pruned(events), a), b)
  {
    RunStep(events, a);
    RunStep(events + [a], b);
  }

  lemma TryThenRelease(rows: seq<Row>, sent: seq<Row>, r: Row)
    requires Decide(rows, r.owner, r.key, r.at, LimitsOf(r.owner)).Admitted?
    ensures PrunedStep(PrunedStep(rows, Try(r)), Release(r)) == Prune(rows, r.owner, r.at - Keep(LimitsOf(r.owner)))
    ensures SentStep(SentStep(sent, rows, Try(r)), PrunedStep(rows, Try(r)), Release(r)) == sent
  {
    OneMoreRemoved(sent, r);
    RemoveCommitted(rows, r, LimitsOf(r.owner));
  }

  lemma AdmitThenRelease(events: seq<Event>, r: Row)
    requires Decide(Pruned(events), r.owner, r.key, r.at, LimitsOf(r.owner)).Admitted?
    ensures Sent(events + [Try(r)] + [Release(r)]) == Sent(events)
    ensures Pruned(events + [Try(r)] + [Release(r)]) == Prune(Pruned(events), r.owner, r.at - Keep(LimitsOf(r.owner)))
  {
    TwoSteps(events, Try(r), Release(r));
    TryThenRelease(Pruned(events), Sent(events), r);
  }

  /* ----- and no more is left ----- */

  /** The history keeps rows, and lets at least one send through. */
  ghost predicate Limited(h: History) {
    Keep(LimitsOf(h)) > 0 && (LimitsOf(h).rate.Some? ==> LimitsOf(h).rate.value.max > 0)
  }

  function Ticks(n: nat): (s: string)
    ensures |s| == n
  {
    seq(n, _ => 'x')
  }

  /** The rows of `n` sends at one moment, each with a key of its own. */
  function Marks(h: History, t: int, n: nat): seq<Row> {
    if n == 0 then [] else Marks(h, t, n - 1) + [Row(h, Ticks(n - 1), t)]
  }

  lemma {:induction false} MarksCount(h: History, t: int, n: nat, after: int)
    ensures SentSince(Marks(h, t, n), h, after) == if t > after then n else 0
    ensures Prune(Marks(h, t, n), h, after) == if t > after then Marks(h, t, n) else []
  {
    if n > 0 {
      MarksCount(h, t, n - 1, after);
      OneMoreCounted(Marks(h, t, n - 1), Row(h, Ticks(n - 1), t), h, after);
      OneMorePruned(Marks(h, t, n - 1), Row(h, Ticks(n - 1), t), h, after);
    }
  }

  lemma {:induction false} MarksWithin(h: History, t: int, n: nat, to: int)
    requires t < to
    ensures SentWithin(Marks(h, t, n), h, t, to) == n
  {
    if n > 0 {
      MarksWithin(h, t, n - 1, to);
      assert Marks(h, t, n)[..|Marks(h, t, n)| - 1] == Marks(h, t, n - 1);
    }
  }

  lemma {:induction false} MarksLast(h: History, t: int, n: nat, key: string)
    ensures LastSent(Marks(h, t, n), h, key) == if |key| < n && key == Ticks(|key|) then Some(t) else None
  {
    if n > 0 {
      MarksLast(h, t, n - 1, key);
      OneMoreLast(Marks(h, t, n - 1), Row(h, Ticks(n - 1), t), h, key);
    }
  }

  lemma MarkDecide(h: History, t: int, n: nat)
    requires Limited(h) && (LimitsOf(h).rate.Some? ==> n < LimitsOf(h).rate.value.max)
    ensures Decide(Marks(h, t, n), h, Ticks(n), t, LimitsOf(h)).Admitted?
  {
    MarksLast(h, t, n, Ticks(n));
    if LimitsOf(h).rate.Some? {
      MarksCount(h, t, n, t - Millis(LimitsOf(h).rate.value.per));
    }
  }

  lemma MarkCommit(h: History, t: int, n: nat)
    requires Limited(h)
    ensures Commit(Marks(h, t, n), h, Ticks(n), t, LimitsOf(h)) == Marks(h, t, n + 1)
  {
    MarksCount(h, t, n + 1, t - Keep(LimitsOf(h)));
  }

  lemma MarkGrows(events: seq<Event>, h: History, t: int, n: nat)
    requires Limited(h) && (LimitsOf(h).rate.Some? ==> n < LimitsOf(h).rate.value.max)
    requires Pruned(events) == Marks(h, t, n) && Sent(events) == Marks(h, t, n)
    ensures var more := events + [Try(Row(h, Ticks(n), t))];
            Pruned(more) == Marks(h, t, n + 1) && Sent(more) == Marks(h, t, n + 1)
  {
    MarkDecide(h, t, n);
    MarkCommit(h, t, n);
    Admits(events, Marks(h, t, n), Row(h, Ticks(n), t));
  }

  /** A run of `n` attempts at one moment, all let through. */
  lemma {:induction false} Burst(h: History, t: int, n: nat) returns (events: seq<Event>)
    requires Limited(h) && (LimitsOf(h).rate.Some? ==> n <= LimitsOf(h).rate.value.max)
    ensures Pruned(events) == Marks(h, t, n) && Sent(events) == Marks(h, t, n)
    ensures Lag(events, 0) && forall e | e in events :: e.Attempt? && e.owner == h && e.now == t
  {
    if n == 0 {
      events := [];
    } else {
      var before := Burst(h, t, n - 1);
      MarkGrows(before, h, t, n - 1);
      LagOfAll(before, Try(Row(h, Ticks(n - 1), t)), 0);
      events := before + [Try(Row(h, Ticks(n - 1), t))];
    }
  }

  /** An attempt as late as the history keeps its rows is let through after a burst. */
  lemma BurstLetsThrough(h: History, t: int, n: nat, late: Row)
    requires Limited(h) && late.owner == h && t <= late.at - Keep(LimitsOf(h))
    ensures Decide(Marks(h, t, n), h, late.key, late.at, LimitsOf(h)).Admitted?
  {
    MarksLast(h, t, n, late.key);
    if LimitsOf(h).rate.Some? {
      MarksCount(h, t, n, late.at - Millis(LimitsOf(h).rate.value.per));
    }
  }

  /** It drops all of it, so once it is taken back the table is empty, though the whole
      burst stands. */
  lemma BurstIsForgotten(events: seq<Event>, h: History, t: int, n: nat, late: Row)
    requires Limited(h) && late.owner == h && t <= late.at - Keep(LimitsOf(h))
    requires Pruned(events) == Marks(h, t, n) && Sent(events) == Marks(h, t, n)
    ensures Pruned(events + [Try(late)] + [Release(late)]) == []
    ensures Sent(events + [Try(late)] + [Release(late)]) == Marks(h, t, n)
  {
    BurstLetsThrough(h, t, n, late);
    AdmitThenRelease(events, late);
    MarksCount(h, t, n, late.at - Keep(LimitsOf(h)));
  }

  lemma LagOfBurst(burst: seq<Event>, late: Row, last: Row, d: nat)
    requires Lag(burst, 0) && NoneLater(burst, late.owner, last.at)
    requires late.owner == last.owner && last.at <= late.at <= last.at + d
    ensures Lag(burst + [Try(late)] + [Release(late)] + [Try(last)], d)
  {
    LagOfAll(burst, Try(late), d);
    LagOfAll(burst + [Try(late)], Release(late), d);
    LagOfAll(burst + [Try(late)] + [Release(late)], Try(last), d);
  }

  lemma EmptyAdmits(r: Row)
    requires Limited(r.owner)
    ensures Decide([], r.owner, r.key, r.at, LimitsOf(r.owner)).Admitted?
  {
    assert LastSent([], r.owner, r.key) == None;
    assert LimitsOf(r.owner).rate.Some? ==>
             SentSince([], r.owner, r.at - Millis(LimitsOf(r.owner).rate.value.per)) == 0;
  }

  /** After a burst, an attempt that drops it and is taken back, and one `d` behind
      that: the burst and the last send stand together. */
  lemma BurstAndOne(h: History, t: int, n: nat, last: Row, d: nat) returns (events: seq<Event>)
    requires Limited(h) && (LimitsOf(h).rate.Some? ==> n <= LimitsOf(h).rate.value.max)
    requires last.owner == h && last.at == t + Keep(LimitsOf(h)) - d && d <= Keep(LimitsOf(h))
    ensures Lag(events, d) && Sent(events) == Marks(h, t, n) + [last]
  {
    var late := Row(h, "", t + Keep(LimitsOf(h)));
    var burst := Burst(h, t, n);
    LagOfBurst(burst, late, last, d);
    BurstIsForgotten(burst, h, t, n, late);
    EmptyAdmits(last);
    Admits(burst + [Try(late)] + [Release(late)], [], last);
    events := burst + [Try(late)] + [Release(late)] + [Try(last)];
  }

  /** What is said to be left of a dedup window is all that is: where the lag shows, a
      run repeats a key that soon. */
  lemma DedupLagIsTight(h: History, t: int, d: nat) returns (events: seq<Event>)
    requires Limited(h) && LimitsOf(h).dedup.Some?
    requires Keep(LimitsOf(h)) - Millis(LimitsOf(h).dedup.value) <= d <= Keep(LimitsOf(h))
    ensures var left := Left(LimitsOf(h), Millis(LimitsOf(h).dedup.value), d);
            Lag(events, d) && Sent(events) == [Row(h, "", t), Row(h, "", t + left)]
  {
    events := BurstAndOne(h, t, 1, Row(h, "", t + Keep(LimitsOf(h)) - d), d);
    assert Marks(h, t, 0) == [] && Marks(h, t, 1) == [Row(h, "", t)];
  }

  /** And of a rate limit's: a run has `max` and one more sends in an interval just one
      millisecond longer. */
  lemma RateLagIsTight(h: History, t: int, d: nat) returns (events: seq<Event>)
    requires Limited(h) && LimitsOf(h).rate.Some?
    requires Keep(LimitsOf(h)) - Millis(LimitsOf(h).rate.value.per) <= d <= Keep(LimitsOf(h))
    ensures var limit := LimitsOf(h).rate.value;
            var left := Left(LimitsOf(h), Millis(limit.per), d);
            Lag(events, d) && SentWithin(Sent(events), h, t, t + left + 1) == limit.max + 1
  {
    var n, last := LimitsOf(h).rate.value.max, Row(h, "", t + Keep(LimitsOf(h)) - d);
    events := BurstAndOne(h, t, n, last, d);
    MarksWithin(h, t, n, last.at + 1);
    assert (Marks(h, t, n) + [last])[..|Marks(h, t, n)|] == Marks(h, t, n);
  }

  /* ----- in order, the last cut says it all ----- */

  /** The time of the history's last admitted attempt. */
  function LastAdmitted(events: seq<Event>, h: History): Option<int> {
    if events == [] then None
    else
      var init, e := events[..|events| - 1], events[|events| - 1];
      if e.Attempt? && e.owner == h && Decide(Pruned(init), h, e.key, e.now, LimitsOf(h)).Admitted? then Some(e.now)
      else LastAdmitted(init, h)
  }

  /** When times come in order, the table holds the standing sends newer than their
      history's last cut. */
  lemma {:induction false} InOrderOneCut(events: seq<Event>)
    requires Lag(events, 0)
    ensures forall s | s in Standing(events) :: LastAdmitted(events, s.row.owner) == Some(s.latest)
  {
    if events != [] {
      var init, e := events[..|events| - 1], events[|events| - 1];
      assert events == init + [e];
      LagBefore(init, e, 0);
      InOrderOneCut(init);
      forall s | s in Standing(events) ensures LastAdmitted(events, s.row.owner) == Some(s.latest) {
        if e.Release? {
          TakenOutComeFrom(Standing(init), e.row, s);
        } else if Decide(Pruned(init), e.owner, e.key, e.now, LimitsOf(e.owner)).Admitted? {
          StandingNotLater(init, e.owner, e.now);
          AgedComeFrom(Standing(init) + [Send(Row(e.owner, e.key, e.now), e.now)], e.owner, e.now, s);
        }
      }
    }
  }

  /* ----- the table and a signal's own sends ----- */

  /** What one signal has on the throttle's books. */
  class Admission {
    var rows: seq<Row>

    constructor ()
      ensures rows == []
    {
      rows := [];
    }

    /** Hands over what one route's history has on the books: all of it and nothing
        else goes along, in order, and every row is on one side. */
    method SplitOff(route: Route) returns (mine: seq<Row>)
      modifies this
      ensures multiset(old(rows)) == multiset(mine) + multiset(rows)
      ensures forall r | r in mine :: r.owner == Signals(route)
      ensures forall r | r in rows :: r.owner != Signals(route)
      ensures mine == Of(old(rows), Signals(route)) && rows == NotOf(old(rows), Signals(route))
    {
      mine := [];
      var rest: seq<Row> := [];
      var i := 0;
      while i < |rows|
        invariant 0 <= i <= |rows| && rows == old(rows)
        invariant mine == Of(rows[..i], Signals(route)) && rest == NotOf(rows[..i], Signals(route))
      {
        assert rows[..i + 1][..i] == rows[..i];
        if rows[i].owner == Signals(route) {
          mine := mine + [rows[i]];
        } else {
          rest := rest + [rows[i]];
        }
        i := i + 1;
      }
      assert rows[..i] == rows;
      SplitPartitions(rows, Signals(route));
      rows := rest;
    }
  }

  function Of(rows: seq<Row>, h: History): seq<Row> {
    if rows == [] then []
    else
      var before, last := Of(rows[..|rows| - 1], h), rows[|rows| - 1];
      if last.owner == h then before + [last] else before
  }

  function NotOf(rows: seq<Row>, h: History): seq<Row> {
    if rows == [] then []
    else
      var before, last := NotOf(rows[..|rows| - 1], h), rows[|rows| - 1];
      if last.owner == h then before else before + [last]
  }

  class Throttle {
    var rows: seq<Row>

    constructor ()
      ensures rows == []
    {
      rows := [];
    }

    method TryAdmit(h: History, key: string, now: int, limits: Limits) returns (d: Decision)
      modifies this
      ensures d == Decide(old(rows), h, key, now, limits)
      ensures rows == if d.Admitted? then Commit(old(rows), h, key, now, limits) else old(rows)
    {
      if limits.dedup.Some? {
        var last := LastSent(rows, h, key);
        if last.Some? && now - last.value < Millis(limits.dedup.value) {
          return Duplicate(now - last.value);
        }
      }
      if limits.rate.Some? {
        var sent := SentSince(rows, h, now - Millis(limits.rate.value.per));
        if sent >= limits.rate.value.max {
          return RateLimited;
        }
      }
      rows := rows + [Row(h, key, now)];
      rows := Prune(rows, h, now - Keep(limits));
      return Admitted;
    }

    /** Decides for `signal`, and notes an admitted send in `admission`. A
        history without limits keeps no record at all. */
    method Check(h: History, signal: Signal, now: int, admission: Admission) returns (d: Decision)
      modifies this, admission
      ensures var e := Attempt(h, KeyOf(signal), now);
              if LimitsOf(h) == Limits(None, None) then
                d == Admitted && rows == old(rows) && admission.rows == old(admission.rows)
              else
                && d == Decide(old(rows), h, e.key, now, LimitsOf(h))
                && rows == PrunedStep(old(rows), e)
                && admission.rows == old(admission.rows) + if d.Admitted? then [Row(h, e.key, now)] else []
    {
      var limits := LimitsOf(h);
      if limits.dedup.None? && limits.rate.None? {
        return Admitted;
      }
      var key := KeyOf(signal);
      d := TryAdmit(h, key, now, limits);
      if d.Admitted? {
        admission.rows := admission.rows + [Row(h, key, now)];
      }
    }

    /** Deletes one row for each of these sends. */
    method ReleaseAll(gone: seq<Row>)
      modifies this
      ensures rows == RemoveAll(old(rows), gone)
    {
      var i := 0;
      while i < |gone|
        invariant 0 <= i <= |gone|
        invariant rows == RemoveAll(old(rows), gone[..i])
      {
        rows := RemoveOne(rows, gone[i]);
        i := i + 1;
        assert gone[..i][..i - 1] == gone[..i - 1];
      }
      assert gone[..i] == gone;
    }
  }

  function KeyOf(signal: Signal): string {
    if signal.dedupKey.Some? then signal.dedupKey.value else ""
  }

  /** Splitting neither loses nor copies a send, and leaves none of the route's behind:
      each has one owner, so it is taken back at most once. */
  lemma {:induction false} SplitPartitions(rows: seq<Row>, h: History)
    ensures multiset(rows) == multiset(Of(rows, h)) + multiset(NotOf(rows, h))
    ensures forall r :: r in Of(rows, h) <==> r in rows && r.owner == h
    ensures forall r :: r in NotOf(rows, h) <==> r in rows && r.owner != h
  {
    if rows != [] {
      var init, last := rows[..|rows| - 1], rows[|rows| - 1];
      SplitPartitions(init, h);
      assert rows == init + [last];
    }
  }

  /** Releasing removes one equal row for each given send that has one, and nothing else. */
  lemma {:induction false} ReleaseTakesOneEach(rows: seq<Row>, gone: seq<Row>)
    ensures multiset(RemoveAll(rows, gone)) == multiset(rows) - multiset(gone)
  {
    if gone != [] {
      var init, last := gone[..|gone| - 1], gone[|gone| - 1];
      assert gone == init + [last];
      ReleaseTakesOneEach(rows, init);
      RemoveOneTakesOne(RemoveAll(rows, init), last);
    }
  }

  lemma {:induction false} RemoveOneTakesOne(rows: seq<Row>, row: Row)
    ensures multiset(RemoveOne(rows, row)) == multiset(rows) - multiset{row}
  {
    if rows != [] {
      var init, last := rows[..|rows| - 1], rows[|rows| - 1];
      assert rows == init + [last];
      RemoveOneTakesOne(init, row);
    }
  }

  /** Taking back an admitted send leaves the sends as they were. The table has lost
      only rows too old by then, so wherever no attempt has a later time, every
      decision comes out as if neither had happened. */
  lemma ReleaseUndoesAdmit(events: seq<Event>, r: Row, h: History, key: string, later: int)
    requires Decide(Pruned(events), r.owner, r.key, r.at, LimitsOf(r.owner)).Admitted?
    ensures var both := events + [Try(r)] + [Release(r)];
            && Sent(both) == Sent(events)
            && Pruned(both) == Prune(Pruned(events), r.owner, r.at - Keep(LimitsOf(r.owner)))
            && (NoneLater(both, h, later) ==>
                  Decide(Pruned(both), h, key, later, LimitsOf(h))
                    == Decide(Pruned(events), h, key, later, LimitsOf(h)))
  {
    var both := events + [Try(r)] + [Release(r)];
    AdmitThenRelease(events, r);
    if NoneLater(both, h, later) {
      assert forall e | e in events :: e in both;
      PruningNeverShows(both, h, key, later);
      PruningNeverShows(events, h, key, later);
    }
  }
}
