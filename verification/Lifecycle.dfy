/** Which providers hold an open alert, and where an acknowledge or resolve
    goes (crates/core/src/lifecycle.rs, crates/core/src/lib.rs, crates/core/src/signal.rs). */
module Lifecycle {
  import opened Basics
  import opened Model
  import opened Text
  import D = Delivery
  import R = Routing

  datatype AlertState = Open | Acknowledged | Resolved

  /** One row of the table; `(key, provider)` is its primary key. */
  datatype Row = Row(key: string, provider: string, state: AlertState, alertRef: Option<string>, title: string)

  datatype OpenAlert = OpenAlert(provider: string, alertRef: Option<string>, title: string)

  /** One delivered outcome, as it is recorded. */
  datatype Event = Event(key: string, provider: string, action: Action, alertRef: Option<string>, title: string)

  function StateAfter(action: Action): AlertState {
    match action
    case Trigger => Open
    case Acknowledge => Acknowledged
    case Resolve => Resolved
  }

  /* ----- the table ----- */

  function RowAt(rows: seq<Row>, key: string, provider: string): (i: nat)
    ensures i <= |rows|
    ensures i < |rows| ==> rows[i].key == key && rows[i].provider == provider
  {
    if rows == [] || (rows[0].key == key && rows[0].provider == provider) then 0
    else 1 + RowAt(rows[1..], key, provider)
  }

  /** A trigger inserts its row or overwrites it in place; the others move an existing row's state. */
  function Apply(rows: seq<Row>, e: Event): seq<Row> {
    var i := RowAt(rows, e.key, e.provider);
    if e.action.Trigger? then
      var row := Row(e.key, e.provider, Open, e.alertRef, e.title);
      if i < |rows| then rows[i := row] else rows + [row]
    else if i < |rows| then rows[i := rows[i].(state := StateAfter(e.action))]
    else rows
  }

  function ApplyAll(rows: seq<Row>, events: seq<Event>): seq<Row> {
    if events == [] then rows else Apply(ApplyAll(rows, events[..|events| - 1]), events[|events| - 1])
  }

  /** Who has an alert under `key` that is not resolved, oldest row first. */
  function OpenIn(rows: seq<Row>, key: string): seq<OpenAlert> {
    if rows == [] then []
    else
      var before, r := OpenIn(rows[..|rows| - 1], key), rows[|rows| - 1];
      if r.key == key && r.state != Resolved then before + [OpenAlert(r.provider, r.alertRef, r.title)] else before
  }

  function EventFor(signal: Signal, provider: string, refs: map<string, string>): Event
    requires signal.dedupKey.Some?
  {
    var alertRef := if provider in refs then Some(refs[provider]) else None;
    Event(signal.dedupKey.value, provider, signal.action, alertRef, signal.title)
  }

  /** The delivered outcomes of a result, in order. */
  function EventsOf(signal: Signal, deliveries: seq<D.Outcome>, refs: map<string, string>): seq<Event> {
    if deliveries == [] || signal.dedupKey.None? then []
    else
      var before := EventsOf(signal, deliveries[..|deliveries| - 1], refs);
      var p := deliveries[|deliveries| - 1].provider;
      if deliveries[|deliveries| - 1].status == D.Delivered then
        before + [EventFor(signal, p, refs)]
      else before
  }

  lemma OneMoreOutcome(rows: seq<Row>, signal: Signal, deliveries: seq<D.Outcome>, refs: map<string, string>, i: nat)
    requires i < |deliveries| && signal.dedupKey.Some?
    ensures var p, before := deliveries[i].provider, ApplyAll(rows, EventsOf(signal, deliveries[..i], refs));
            ApplyAll(rows, EventsOf(signal, deliveries[..i + 1], refs)) ==
            if deliveries[i].status == D.Delivered
            then Apply(before, EventFor(signal, p, refs)) else before
  {
    assert deliveries[..i + 1][..i] == deliveries[..i];
    var events := EventsOf(signal, deliveries[..i], refs);
    var p := deliveries[i].provider;
    var e := EventFor(signal, p, refs);
    assert (events + [e])[..|events|] == events;
  }

  /* ----- what recording one delivery does to the table ----- */

  /** The table's primary key: one row for each key and provider. */
  ghost predicate OneRowEach(rows: seq<Row>) {
    forall i, j | 0 <= i < j < |rows| :: rows[i].key != rows[j].key || rows[i].provider != rows[j].provider
  }

  predicate DeliveredTo(deliveries: seq<D.Outcome>, p: string) {
    exists o | o in deliveries :: o.provider == p && o.status == D.Delivered
  }

  function RefOf(refs: map<string, string>, p: string): Option<string> {
    if p in refs then Some(refs[p]) else None
  }

  /** What becomes of a row when a signal is delivered to these providers. */
  ghost predicate RowMoves(before: Row, after: Row, signal: Signal, deliveries: seq<D.Outcome>,
    refs: map<string, string>)
  {
    if signal.dedupKey == Some(before.key) && DeliveredTo(deliveries, before.provider) then
      match signal.action
      case Trigger => after == Row(before.key, before.provider, Open, RefOf(refs, before.provider), signal.title)
      case Acknowledge => after == before.(state := Acknowledged)
      case Resolve => after == before.(state := Resolved)
    else after == before
  }

  /** A row that a delivery makes: only a trigger does, for a provider that got it. */
  ghost predicate RowIsNew(row: Row, signal: Signal, deliveries: seq<D.Outcome>, refs: map<string, string>) {
    && signal.action.Trigger? && signal.dedupKey == Some(row.key) && DeliveredTo(deliveries, row.provider)
    && row.state == Open && row.alertRef == RefOf(refs, row.provider) && row.title == signal.title
  }

  ghost predicate HasRow(rows: seq<Row>, key: string, p: string) {
    exists i | 0 <= i < |rows| :: rows[i].key == key && rows[i].provider == p
  }

  /** The first got the signal before the second did, if the second did. */
  ghost predicate GotBefore(deliveries: seq<D.Outcome>, p: string, q: string) {
    exists a | 0 <= a < |deliveries| ::
      deliveries[a].provider == p && deliveries[a].status == D.Delivered && !DeliveredTo(deliveries[..a + 1], q)
  }

  /** The table `after` is `before` once the signal was delivered: every row stays in its
      place and moves as it should, what is new stands at the end in the order of delivery,
      and every provider that got a trigger has its row. */
  ghost predicate Records(before: seq<Row>, after: seq<Row>, signal: Signal, deliveries: seq<D.Outcome>,
    refs: map<string, string>)
  {
    && |before| <= |after| && OneRowEach(after)
    && (forall i | 0 <= i < |before| :: RowMoves(before[i], after[i], signal, deliveries, refs))
    && (forall i | |before| <= i < |after| :: RowIsNew(after[i], signal, deliveries, refs))
    && (forall i, j | |before| <= i < j < |after| :: GotBefore(deliveries, after[i].provider, after[j].provider))
    && (signal.action.Trigger? && signal.dedupKey.Some? ==>
          forall p | DeliveredTo(deliveries, p) :: HasRow(after, signal.dedupKey.value, p))
  }

  lemma {:induction false} RowAtFinds(rows: seq<Row>, key: string, p: string)
    ensures RowAt(rows, key, p) == |rows| ==> !HasRow(rows, key, p)
  {
    if rows != [] && RowAt(rows, key, p) == |rows| {
      RowAtFinds(rows[1..], key, p);
      forall i | 0 <= i < |rows| ensures rows[i].key != key || rows[i].provider != p {
        assert i > 0 ==> rows[i] == rows[1..][i - 1];
      }
    }
  }

  lemma DeliveredNext(deliveries: seq<D.Outcome>, p: string)
    requires deliveries != []
    ensures var last := deliveries[|deliveries| - 1];
            DeliveredTo(deliveries, p) <==>
            DeliveredTo(deliveries[..|deliveries| - 1], p) || (last.provider == p && last.status == D.Delivered)
  {
    assert deliveries == deliveries[..|deliveries| - 1] + [deliveries[|deliveries| - 1]];
  }

  lemma ApplyKeepsOneRowEach(rows: seq<Row>, e: Event)
    requires OneRowEach(rows)
    ensures |rows| <= |Apply(rows, e)| && OneRowEach(Apply(rows, e))
    ensures e.action.Trigger? || HasRow(rows, e.key, e.provider) ==> HasRow(Apply(rows, e), e.key, e.provider)
    ensures forall p | HasRow(rows, e.key, p) :: HasRow(Apply(rows, e), e.key, p)
  {
    var at, after := RowAt(rows, e.key, e.provider), Apply(rows, e);
    RowAtFinds(rows, e.key, e.provider);
    assert at < |after| ==> after[at].key == e.key && after[at].provider == e.provider;
    forall p | HasRow(rows, e.key, p) ensures HasRow(after, e.key, p) {
      var i :| 0 <= i < |rows| && rows[i].key == e.key && rows[i].provider == p;
      assert after[i].key == e.key && after[i].provider == p;
    }
  }

  /** One outcome more moves the row of its own provider, in place, and no other. */
  lemma RowMovesNext(before: seq<Row>, now: seq<Row>, signal: Signal, deliveries: seq<D.Outcome>,
      refs: map<string, string>, i: nat)
    requires deliveries != [] && signal.dedupKey.Some? && i < |before| <= |now|
    requires OneRowEach(now) && deliveries[|deliveries| - 1].status == D.Delivered
    requires RowMoves(before[i], now[i], signal, deliveries[..|deliveries| - 1], refs)
    ensures var after := Apply(now, EventFor(signal, deliveries[|deliveries| - 1].provider, refs));
            |now| <= |after| && RowMoves(before[i], after[i], signal, deliveries, refs)
  {
    var p := deliveries[|deliveries| - 1].provider;
    DeliveredNext(deliveries, before[i].provider);
    RowAtFinds(now, signal.dedupKey.value, p);
    assert now[i].key == before[i].key && now[i].provider == before[i].provider;
  }

  lemma RowIsNewNext(now: seq<Row>, signal: Signal, deliveries: seq<D.Outcome>, refs: map<string, string>, i: nat)
    requires deliveries != [] && signal.dedupKey.Some? && OneRowEach(now)
    requires deliveries[|deliveries| - 1].status == D.Delivered
    requires i < |now| ==> RowIsNew(now[i], signal, deliveries[..|deliveries| - 1], refs)
    requires i < |Apply(now, EventFor(signal, deliveries[|deliveries| - 1].provider, refs))|
    ensures RowIsNew(Apply(now, EventFor(signal, deliveries[|deliveries| - 1].provider, refs))[i],
                     signal, deliveries, refs)
  {
    var p := deliveries[|deliveries| - 1].provider;
    DeliveredNext(deliveries, p);
    if i < |now| {
      DeliveredNext(deliveries, now[i].provider);
    }
  }

  /** Recording one more outcome, in place or at the end. */
  lemma RecordsNext(before: seq<Row>, now: seq<Row>, signal: Signal, deliveries: seq<D.Outcome>,
      refs: map<string, string>)
    requires deliveries != [] && signal.dedupKey.Some?
    requires Records(before, now, signal, deliveries[..|deliveries| - 1], refs)
    requires deliveries[|deliveries| - 1].status == D.Delivered
    ensures var after := Apply(now, EventFor(signal, deliveries[|deliveries| - 1].provider, refs));
            Records(before, after, signal, deliveries, refs)
  {
    var e := EventFor(signal, deliveries[|deliveries| - 1].provider, refs);
    var after := Apply(now, e);
    ApplyKeepsOneRowEach(now, e);
    forall i | 0 <= i < |before| ensures RowMoves(before[i], after[i], signal, deliveries, refs) {
      RowMovesNext(before, now, signal, deliveries, refs, i);
    }
    forall i | |before| <= i < |after| ensures RowIsNew(after[i], signal, deliveries, refs) {
      RowIsNewNext(now, signal, deliveries, refs, i);
    }
    forall p | signal.action.Trigger? && DeliveredTo(deliveries, p) ensures HasRow(after, signal.dedupKey.value, p) {
      DeliveredNext(deliveries, p);
    }
    forall i, j | |before| <= i < j < |after|
      ensures GotBefore(deliveries, after[i].provider, after[j].provider)
    {
      NewRowsNext(before, now, signal, deliveries, refs, i, j);
    }
  }

  lemma NewRowsNext(before: seq<Row>, now: seq<Row>, signal: Signal, deliveries: seq<D.Outcome>,
      refs: map<string, string>, i: nat, j: nat)
    requires deliveries != [] && signal.dedupKey.Some?
    requires Records(before, now, signal, deliveries[..|deliveries| - 1], refs)
    requires deliveries[|deliveries| - 1].status == D.Delivered
    requires |before| <= i < j < |Apply(now, EventFor(signal, deliveries[|deliveries| - 1].provider, refs))|
    ensures var after := Apply(now, EventFor(signal, deliveries[|deliveries| - 1].provider, refs));
            GotBefore(deliveries, after[i].provider, after[j].provider)
  {
    var init, q := deliveries[..|deliveries| - 1], deliveries[|deliveries| - 1].provider;
    RowAtFinds(now, signal.dedupKey.value, q);
    if j < |now| {
      GotBeforeStill(deliveries, now[i].provider, now[j].provider);
    } else {
      assert RowIsNew(now[i], signal, init, refs);
      GotBeforeLast(deliveries, now[i].provider);
    }
  }

  lemma GotBeforeStill(deliveries: seq<D.Outcome>, p: string, q: string)
    requires deliveries != [] && GotBefore(deliveries[..|deliveries| - 1], p, q)
    ensures GotBefore(deliveries, p, q)
  {
    var init := deliveries[..|deliveries| - 1];
    var a :| 0 <= a < |init| && init[a].provider == p && init[a].status == D.Delivered
             && !DeliveredTo(init[..a + 1], q);
    assert deliveries[..a + 1] == init[..a + 1] && deliveries[a] == init[a];
  }

  /** Who got it before the last outcome got it before that outcome's provider, if that one is new. */
  lemma GotBeforeLast(deliveries: seq<D.Outcome>, p: string)
    requires deliveries != [] && DeliveredTo(deliveries[..|deliveries| - 1], p)
    requires !DeliveredTo(deliveries[..|deliveries| - 1], deliveries[|deliveries| - 1].provider)
    ensures GotBefore(deliveries, p, deliveries[|deliveries| - 1].provider)
  {
    var init, q := deliveries[..|deliveries| - 1], deliveries[|deliveries| - 1].provider;
    var o :| o in init && o.provider == p && o.status == D.Delivered;
    var a :| 0 <= a < |init| && init[a] == o;
    assert deliveries[a] == o;
    assert forall d | d in deliveries[..a + 1] :: d in init;
  }

  /** An outcome that is no delivery changes nothing. */
  lemma RecordsNothing(before: seq<Row>, now: seq<Row>, signal: Signal, deliveries: seq<D.Outcome>,
      refs: map<string, string>)
    requires deliveries != [] && Records(before, now, signal, deliveries[..|deliveries| - 1], refs)
    requires deliveries[|deliveries| - 1].status != D.Delivered
    ensures Records(before, now, signal, deliveries, refs)
  {
    forall p ensures DeliveredTo(deliveries, p) <==> DeliveredTo(deliveries[..|deliveries| - 1], p) {
      DeliveredNext(deliveries, p);
    }
    forall i, j | |before| <= i < j < |now| ensures GotBefore(deliveries, now[i].provider, now[j].provider) {
      GotBeforeStill(deliveries, now[i].provider, now[j].provider);
    }
  }

  /** What recording a delivered signal does, said of the signal and the result alone. */
  lemma {:induction false} RecordsDelivery(rows: seq<Row>, signal: Signal, deliveries: seq<D.Outcome>,
      refs: map<string, string>)
    requires OneRowEach(rows)
    ensures Records(rows, ApplyAll(rows, EventsOf(signal, deliveries, refs)), signal, deliveries, refs)
  {
    if deliveries != [] && signal.dedupKey.Some? {
      var n := |deliveries| - 1;
      RecordsDelivery(rows, signal, deliveries[..n], refs);
      assert deliveries[..n + 1] == deliveries;
      OneMoreOutcome(rows, signal, deliveries, refs, n);
      var now := ApplyAll(rows, EventsOf(signal, deliveries[..n], refs));
      if deliveries[n].status == D.Delivered {
        RecordsNext(rows, now, signal, deliveries, refs);
      } else {
        RecordsNothing(rows, now, signal, deliveries, refs);
      }
    }
  }

  class AlertBook {
    var rows: seq<Row>

    constructor ()
      ensures rows == []
    {
      rows := [];
    }

    /** One statement: the insert with its conflict clause, or the update. */
    method Write(e: Event)
      modifies this
      ensures rows == Apply(old(rows), e)
    {
      var at := RowAt(rows, e.key, e.provider);
      if e.action.Trigger? {
        var row := Row(e.key, e.provider, Open, e.alertRef, e.title);
        rows := if at < |rows| then rows[at := row] else rows + [row];
      } else if at < |rows| {
        rows := rows[at := rows[at].(state := StateAfter(e.action))];
      }
    }

    /** Records what delivering `signal` did. */
    method Record(signal: Signal, result: D.Result, refs: map<string, string>)
      modifies this
      ensures rows == ApplyAll(old(rows), EventsOf(signal, result.deliveries, refs))
      ensures OneRowEach(old(rows)) ==> Records(old(rows), rows, signal, result.deliveries, refs)
    {
      if OneRowEach(old(rows)) {
        RecordsDelivery(rows, signal, result.deliveries, refs);
      }
      if signal.dedupKey.None? {
        return;
      }
      var i := 0;
      while i < |result.deliveries|
        invariant 0 <= i <= |result.deliveries|
        invariant rows == ApplyAll(old(rows), EventsOf(signal, result.deliveries[..i], refs))
      {
        var outcome := result.deliveries[i];
        OneMoreOutcome(old(rows), signal, result.deliveries, refs, i);
        if outcome.status == D.Delivered {
          var p := outcome.provider;
          Write(EventFor(signal, p, refs));
        }
        i := i + 1;
      }
      assert result.deliveries[..i] == result.deliveries;
    }
  }

  /* ----- the same, from the whole history ----- */

  function LastTrigger(events: seq<Event>, key: string, provider: string): Option<Event> {
    if events == [] then None
    else
      var e := events[|events| - 1];
      if e.key == key && e.provider == provider && e.action.Trigger? then Some(e)
      else LastTrigger(events[..|events| - 1], key, provider)
  }

  function LastAction(events: seq<Event>, key: string, provider: string): Option<Action> {
    if events == [] then None
    else
      var e := events[|events| - 1];
      if e.key == key && e.provider == provider then Some(e.action)
      else LastAction(events[..|events| - 1], key, provider)
  }

  /** Who was ever triggered for what, in the order of the first time. */
  function Triggered(events: seq<Event>): seq<(string, string)> {
    if events == [] then []
    else
      var before, e := Triggered(events[..|events| - 1]), events[|events| - 1];
      if e.action.Trigger? && (e.key, e.provider) !in before then before + [(e.key, e.provider)] else before
  }

  /** The row history says a triggered provider must have. */
  function RowOf(events: seq<Event>, who: (string, string)): Row {
    var t, a := LastTrigger(events, who.0, who.1), LastAction(events, who.0, who.1);
    if t.None? || a.None? then Row(who.0, who.1, Open, None, "")
    else Row(who.0, who.1, StateAfter(a.value), t.value.alertRef, t.value.title)
  }

  function RowsOf(events: seq<Event>, who: seq<(string, string)>): seq<Row> {
    seq(|who|, i requires 0 <= i < |who| => RowOf(events, who[i]))
  }

  lemma {:induction false} TriggeredIffEver(events: seq<Event>, key: string, provider: string)
    ensures (key, provider) in Triggered(events) <==> LastTrigger(events, key, provider).Some?
    ensures LastTrigger(events, key, provider).Some? ==> LastAction(events, key, provider).Some?
  {
    if events != [] {
      TriggeredIffEver(events[..|events| - 1], key, provider);
    }
  }

  lemma {:induction false} TriggeredOnce(events: seq<Event>)
    ensures forall i, j | 0 <= i < j < |Triggered(events)| :: Triggered(events)[i] != Triggered(events)[j]
  {
    if events != [] {
      TriggeredOnce(events[..|events| - 1]);
    }
  }

  /** A row is found where its provider stands in the list. */
  lemma {:induction false} RowFound(events: seq<Event>, who: seq<(string, string)>, key: string, provider: string)
    ensures var i := RowAt(RowsOf(events, who), key, provider);
            if (key, provider) in who then i < |who| && who[i] == (key, provider) else i == |who|
  {
    var rows := RowsOf(events, who);
    if who != [] && who[0] != (key, provider) {
      assert rows[1..] == RowsOf(events, who[1..]);
      RowFound(events, who[1..], key, provider);
      assert who == [who[0]] + who[1..];
    } else if who != [] {
      assert rows[0].key == key && rows[0].provider == provider;
    }
  }

  /** One more event changes the row of its own provider and no other. */
  lemma OneMoreEvent(events: seq<Event>, e: Event, who: (string, string))
    ensures var more := events + [e];
            && LastTrigger(more, who.0, who.1) ==
               (if (e.key, e.provider) == who && e.action.Trigger? then Some(e) else LastTrigger(events, who.0, who.1))
            && LastAction(more, who.0, who.1) ==
               (if (e.key, e.provider) == who then Some(e.action) else LastAction(events, who.0, who.1))
  {
    assert (events + [e])[..|events|] == events;
  }

  lemma ApplyIsHistory(events: seq<Event>, e: Event)
    requires forall i, j | 0 <= i < j < |Triggered(events)| :: Triggered(events)[i] != Triggered(events)[j]
    ensures Apply(RowsOf(events, Triggered(events)), e) == RowsOf(events + [e], Triggered(events + [e]))
  {
    var who, more := Triggered(events), events + [e];
    var rows := RowsOf(events, who);
    assert more[..|events|] == events;
    RowFound(events, who, e.key, e.provider);
    var at := RowAt(rows, e.key, e.provider);
    forall i | 0 <= i < |who| ensures i != at ==> RowOf(more, who[i]) == RowOf(events, who[i]) {
      OneMoreEvent(events, e, who[i]);
    }
    OneMoreEvent(events, e, (e.key, e.provider));
    TriggeredIffEver(events, e.key, e.provider);
    var after := Apply(rows, e);
    assert |after| == |Triggered(more)|;
    forall i | 0 <= i < |after| ensures after[i] == RowOf(more, Triggered(more)[i]) {}
  }

  /** After any sequence of records the table is exactly what the history says:
      one row for each provider ever triggered, in the order of the first time. */
  lemma {:induction false} BookIsHistory(events: seq<Event>)
    ensures ApplyAll([], events) == RowsOf(events, Triggered(events))
  {
    if events != [] {
      var init, e := events[..|events| - 1], events[|events| - 1];
      BookIsHistory(init);
      TriggeredOnce(init);
      ApplyIsHistory(init, e);
      assert init + [e] == events;
    }
  }

  ghost predicate Holds(events: seq<Event>, key: string, provider: string) {
    LastTrigger(events, key, provider).Some? && LastAction(events, key, provider) != Some(Resolve)
  }

  lemma {:induction false} OpenInRows(rows: seq<Row>, key: string, a: OpenAlert)
    ensures a in OpenIn(rows, key) <==>
            exists i | 0 <= i < |rows| :: rows[i].key == key && rows[i].state != Resolved
              && a == OpenAlert(rows[i].provider, rows[i].alertRef, rows[i].title)
  {
    if rows != [] {
      var init := rows[..|rows| - 1];
      OpenInRows(init, key, a);
      assert forall i | 0 <= i < |init| :: init[i] == rows[i];
    }
  }

  /** They are listed in the order of their rows. */
  lemma {:induction false} OpenInOrder(rows: seq<Row>, key: string, a: nat, b: nat) returns (i: nat, j: nat)
    requires a < b < |OpenIn(rows, key)|
    ensures i < j < |rows| && rows[i].key == rows[j].key == key
    ensures rows[i].provider == OpenIn(rows, key)[a].provider && rows[j].provider == OpenIn(rows, key)[b].provider
  {
    var init := rows[..|rows| - 1];
    if b < |OpenIn(init, key)| {
      i, j := OpenInOrder(init, key, a, b);
    } else {
      j := |rows| - 1;
      OpenInRows(init, key, OpenIn(init, key)[a]);
      i :| 0 <= i < |init| && init[i].key == key && init[i].provider == OpenIn(init, key)[a].provider;
    }
  }

  predicate LastTriggersAlert(events: seq<Event>, key: string, a: OpenAlert) {
    var last := LastTrigger(events, key, a.provider);
    last.Some? && a.alertRef == last.value.alertRef && a.title == last.value.title
  }

  lemma OpenRowHolds(events: seq<Event>, key: string, a: OpenAlert, i: nat)
    requires i < |Triggered(events)| && RowsOf(events, Triggered(events))[i].key == key
    requires var row := RowsOf(events, Triggered(events))[i];
             row.state != Resolved && a == OpenAlert(row.provider, row.alertRef, row.title)
    ensures Holds(events, key, a.provider) && LastTriggersAlert(events, key, a)
  {
    TriggeredIffEver(events, key, a.provider);
    assert Triggered(events)[i] == (key, a.provider) && Triggered(events)[i] in Triggered(events);
  }

  /** A provider is open for a key iff it was ever triggered and the last thing
      recorded for it is not a resolve; its reference and title are the last trigger's. */
  lemma OpenIffHistory(events: seq<Event>, key: string, a: OpenAlert)
    ensures a in OpenIn(ApplyAll([], events), key) <==>
            Holds(events, key, a.provider) && LastTriggersAlert(events, key, a)
  {
    BookIsHistory(events);
    var rows, who := RowsOf(events, Triggered(events)), Triggered(events);
    OpenInRows(rows, key, a);
    if a in OpenIn(rows, key) {
      var i :| 0 <= i < |rows| && rows[i].key == key && rows[i].state != Resolved
               && a == OpenAlert(rows[i].provider, rows[i].alertRef, rows[i].title);
      OpenRowHolds(events, key, a, i);
    }
    if Holds(events, key, a.provider) {
      TriggeredIffEver(events, key, a.provider);
      var i :| 0 <= i < |who| && who[i] == (key, a.provider);
      assert rows[i] == RowOf(events, who[i]);
    }
  }

  /** A late acknowledge reopens a resolved alert. */
  lemma LateAcknowledgeReopens(events: seq<Event>, e: Event)
    requires e.action == Acknowledge && LastTrigger(events, e.key, e.provider).Some?
    requires LastAction(events, e.key, e.provider) == Some(Resolve)
    ensures !Holds(events, e.key, e.provider) && Holds(events + [e], e.key, e.provider)
  {
    OneMoreEvent(events, e, (e.key, e.provider));
  }

  /* ----- where an acknowledge or resolve goes ----- */

  /** Each alert's provider, if it is still configured, as a target of its own. */
  function OpenTargets(open: seq<OpenAlert>, known: set<string>): seq<seq<string>> {
    if open == [] then []
    else
      var before, last := OpenTargets(open[..|open| - 1], known), open[|open| - 1].provider;
      if last in known then before + [[last]] else before
  }

  function ByKeyTargets(names: seq<string>, known: set<string>, byKey: set<string>): seq<seq<string>> {
    if names == [] then []
    else
      var before, last := ByKeyTargets(names[..|names| - 1], known, byKey), names[|names| - 1];
      if last in known && last in byKey then before + [[last]] else before
  }

  const NOTHING_TO_CLOSE := "no open alert, and no route to a provider that resolves by key"

  /** `names` are the providers of the routes that match whatever the severity. */
  function LifecyclePlan(known: set<string>, byKey: set<string>, names: seq<string>, open: seq<OpenAlert>): D.Plan {
    var held := OpenTargets(open, known);
    var targets := if held == [] then ByKeyTargets(names, known, byKey) else held;
    D.Plan(targets, if targets == [] then [NOTHING_TO_CLOSE] else [], [])
  }

  lemma {:induction false} OpenTargetsAre(open: seq<OpenAlert>, known: set<string>, p: string)
    ensures [p] in OpenTargets(open, known) <==> p in known && exists i | 0 <= i < |open| :: open[i].provider == p
    ensures forall t :: t in OpenTargets(open, known) ==> |t| == 1
  {
    if open != [] {
      var init := open[..|open| - 1];
      OpenTargetsAre(init, known, p);
      assert forall i | 0 <= i < |init| :: init[i] == open[i];
    }
  }

  lemma {:induction false} ByKeyTargetsAre(names: seq<string>, known: set<string>, byKey: set<string>, p: string)
    ensures [p] in ByKeyTargets(names, known, byKey) <==> p in known && p in byKey && p in names
    ensures forall t :: t in ByKeyTargets(names, known, byKey) ==> |t| == 1
  {
    if names != [] {
      ByKeyTargetsAre(names[..|names| - 1], known, byKey, p);
      assert names == names[..|names| - 1] + [names[|names| - 1]];
    }
  }

  /** In a run where each plan is made from the whole history: every configured
      provider with the alert open is a target; one that does not resolve by key is
      a target only then; with none open, those that resolve by key on a matching route are. */
  lemma ClosesOnlyWhatIsOpen(events: seq<Event>, key: string, known: set<string>, byKey: set<string>,
      names: seq<string>, p: string)
    ensures var targets := LifecyclePlan(known, byKey, names, OpenIn(ApplyAll([], events), key)).targets;
            && (Holds(events, key, p) && p in known ==> [p] in targets)
            && ([p] in targets && p !in byKey ==> Holds(events, key, p))
            && ((forall q :: q in known ==> !Holds(events, key, q)) ==>
                  ([p] in targets <==> p in known && p in byKey && p in names))
            && forall t :: t in targets ==> |t| == 1
  {
    var open := OpenIn(ApplyAll([], events), key);
    OpenTargetsAre(open, known, p);
    ByKeyTargetsAre(names, known, byKey, p);
    if Holds(events, key, p) {
      var t := LastTrigger(events, key, p).value;
      OpenIffHistory(events, key, OpenAlert(p, t.alertRef, t.title));
      var i :| 0 <= i < |open| && open[i] == OpenAlert(p, t.alertRef, t.title);
      assert open[i].provider == p;
    }
    if i :| 0 <= i < |open| && open[i].provider == p {
      OpenIffHistory(events, key, open[i]);
    }
    if (forall q :: q in known ==> !Holds(events, key, q)) && OpenTargets(open, known) != [] {
      var q := OpenTargets(open, known)[0][0];
      assert OpenTargets(open, known)[0] == [q];
      OpenTargetsAre(open, known, q);
      var i :| 0 <= i < |open| && open[i].provider == q;
      OpenIffHistory(events, key, open[i]);
    }
  }

  lemma SinglesAreDistinct(targets: seq<seq<string>>)
    requires forall t | 0 <= t < |targets| :: |targets[t]| == 1
    requires forall t, u | 0 <= t < u < |targets| :: targets[t] != targets[u]
    ensures D.Distinct(targets)
  {
    forall t, j, u, k | 0 <= t < |targets| && 0 <= j < |targets[t]| && 0 <= u < |targets| && 0 <= k < |targets[u]|
                        && targets[t][j] == targets[u][k]
      ensures t == u && j == k
    {
      assert targets[t] == [targets[t][0]] && targets[u] == [targets[u][0]];
    }
  }

  lemma {:induction false} OpenOnce(rows: seq<Row>, key: string)
    requires forall i, j | 0 <= i < j < |rows| :: (rows[i].key, rows[i].provider) != (rows[j].key, rows[j].provider)
    ensures forall i, j | 0 <= i < j < |OpenIn(rows, key)| ::
        OpenIn(rows, key)[i].provider != OpenIn(rows, key)[j].provider
  {
    if rows != [] {
      var init, last := rows[..|rows| - 1], rows[|rows| - 1];
      OpenOnce(init, key);
      forall i | 0 <= i < |OpenIn(init, key)| && last.key == key
        ensures OpenIn(init, key)[i].provider != last.provider
      {
        OpenInRows(init, key, OpenIn(init, key)[i]);
      }
    }
  }

  lemma {:induction false} OpenTargetsOnce(open: seq<OpenAlert>, known: set<string>)
    requires forall i, j | 0 <= i < j < |open| :: open[i].provider != open[j].provider
    ensures D.Distinct(OpenTargets(open, known))
    ensures forall t, u | 0 <= t < u < |OpenTargets(open, known)| ::
        OpenTargets(open, known)[t] != OpenTargets(open, known)[u]
  {
    if open != [] {
      var init, last := open[..|open| - 1], open[|open| - 1].provider;
      OpenTargetsOnce(init, known);
      OpenTargetsAre(init, known, last);
      OpenTargetsAre(open, known, last);
      var before := OpenTargets(init, known);
      forall t | 0 <= t < |before| ensures before[t] != [last] {
        assert before[t] in before;
      }
    }
    forall t | 0 <= t < |OpenTargets(open, known)| ensures |OpenTargets(open, known)[t]| == 1 {
      OpenTargetsAre(open, known, "");
      assert OpenTargets(open, known)[t] in OpenTargets(open, known);
    }
    SinglesAreDistinct(OpenTargets(open, known));
  }

  lemma {:induction false} ByKeyTargetsOnce(names: seq<string>, known: set<string>, byKey: set<string>)
    requires forall i, j | 0 <= i < j < |names| :: names[i] != names[j]
    ensures D.Distinct(ByKeyTargets(names, known, byKey))
    ensures forall t, u | 0 <= t < u < |ByKeyTargets(names, known, byKey)| ::
              ByKeyTargets(names, known, byKey)[t] != ByKeyTargets(names, known, byKey)[u]
  {
    var targets := ByKeyTargets(names, known, byKey);
    if names != [] {
      var init, last := names[..|names| - 1], names[|names| - 1];
      ByKeyTargetsOnce(init, known, byKey);
      ByKeyTargetsAre(init, known, byKey, last);
      var before := ByKeyTargets(init, known, byKey);
      forall t | 0 <= t < |before| ensures before[t] != [last] {
        assert before[t] in before;
      }
    }
    forall t | 0 <= t < |targets| ensures |targets[t]| == 1 {
      ByKeyTargetsAre(names, known, byKey, "");
      assert targets[t] in targets;
    }
    SinglesAreDistinct(targets);
  }

  /** A lifecycle plan names no provider twice, so nobody is told twice. */
  lemma LifecyclePlanIsDistinct(events: seq<Event>, key: string, known: set<string>, byKey: set<string>,
      listed: seq<string>)
    ensures D.Distinct(LifecyclePlan(known, byKey, R.Dedup(listed), OpenIn(ApplyAll([], events), key)).targets)
  {
    BookIsHistory(events);
    TriggeredOnce(events);
    var rows := ApplyAll([], events);
    forall i, j | 0 <= i < j < |rows| ensures (rows[i].key, rows[i].provider) != (rows[j].key, rows[j].provider) {
      assert Triggered(events)[i] != Triggered(events)[j];
    }
    OpenOnce(rows, key);
    OpenTargetsOnce(OpenIn(rows, key), known);
    R.DedupIsDistinct(listed);
    ByKeyTargetsOnce(R.Dedup(listed), known, byKey);
  }

  /* ----- the key ----- */

  /** What callers give: the fields the key depends on. */
  datatype Input = Input(source: string, eventType: string, title: string, environment: Option<string>,
                         dedupKey: Option<string>, action: Action)

  predicate Blank(s: string) {
    Trim(s) == ""
  }

  /** Whether an input is accepted. */
  predicate Valid(input: Input) {
    if !input.action.Trigger? && input.dedupKey.Some? then !Blank(input.dedupKey.value)
    else !Blank(input.source) && !Blank(input.eventType) && !Blank(input.title)
  }

  /** The given key, or the text whose hash is the computed one. */
  function EffectiveKey(input: Input): string {
    match input.dedupKey
    case Some(key) => key
    case None =>
      input.source + "|" + input.eventType + "|" + input.title + "|"
      + if input.environment.Some? then input.environment.value else ""
  }

  function ActionWord(action: Action): string {
    match action
    case Trigger => "trigger"
    case Acknowledge => "acknowledge"
    case Resolve => "resolve"
  }

  function Filled(input: Input, knownTitle: Option<string>): Input {
    var title :=
      if knownTitle.Some? then knownTitle.value
      else if input.dedupKey.Some? then input.dedupKey.value
      else "";
    input.(
      source := if Blank(input.source) then "opssignal" else input.source,
      eventType := if Blank(input.eventType) then ActionWord(input.action) else input.eventType,
      title := if Blank(input.title) then title else input.title)
  }

  /** For every accepted input, the key looked up before the defaults are filled
      in is the key the signal is sent and recorded under. */
  lemma KeyLookedUpIsKeyRecorded(input: Input, knownTitle: Option<string>)
    requires Valid(input)
    ensures EffectiveKey(Filled(input, knownTitle)) == EffectiveKey(input)
    ensures input.action.Trigger? || input.dedupKey.None? ==> Filled(input, knownTitle) == input
  {
  }

  /** What callers need to know of a computed key: without bars in the first three fields,
      two signals share one iff they agree on source, type, title and environment. */
  lemma SameKeyIffSameFields(a: Input, b: Input)
    requires a.dedupKey.None? && b.dedupKey.None?
    requires '|' !in a.source && '|' !in a.eventType && '|' !in a.title
    requires '|' !in b.source && '|' !in b.eventType && '|' !in b.title
    ensures EffectiveKey(a) == EffectiveKey(b) <==>
            && a.source == b.source && a.eventType == b.eventType && a.title == b.title
            && (a.environment == b.environment
                || (a.environment in {None, Some("")} && b.environment in {None, Some("")}))
  {
    KeyShape(a);
    KeyShape(b);
    SameParts(a.source, a.eventType + ['|'] + (a.title + ['|'] + EnvOf(a)),
              b.source, b.eventType + ['|'] + (b.title + ['|'] + EnvOf(b)));
    SameParts(a.eventType, a.title + ['|'] + EnvOf(a), b.eventType, b.title + ['|'] + EnvOf(b));
    SameParts(a.title, EnvOf(a), b.title, EnvOf(b));
  }

  function EnvOf(input: Input): string {
    if input.environment.Some? then input.environment.value else ""
  }

  lemma KeyShape(input: Input)
    requires input.dedupKey.None?
    ensures EffectiveKey(input)
         == input.source + ['|'] + (input.eventType + ['|'] + (input.title + ['|'] + EnvOf(input)))
  {
    Regroup(input.source, input.eventType, input.title, EnvOf(input));
  }

  lemma Regroup(a: string, b: string, c: string, d: string)
    ensures a + "|" + b + "|" + c + "|" + d == a + ['|'] + (b + ['|'] + (c + ['|'] + d))
  {
  }

  lemma SameParts(a: string, b: string, c: string, d: string)
    requires '|' !in a && '|' !in c
    ensures a + ['|'] + b == c + ['|'] + d <==> a == c && b == d
  {
    SplitJoined(a, '|', b);
    SplitJoined(c, '|', d);
  }

  predicate OnlySpaces(s: string) {
    forall c | c in s :: IsSpace(c)
  }

  lemma {:induction false} StartsBlank(s: string)
    ensures TrimStart(s) == "" <==> OnlySpaces(s)
  {
    if s != [] {
      assert s == [s[0]] + s[1..];
      StartsBlank(s[1..]);
    }
  }

  lemma BlankIffSpaces(s: string)
    ensures Blank(s) <==> OnlySpaces(s)
  {
    StartsBlank(s);
    TrimStartStops(s);
    TrimTrims(s);
    TrimEndIsPrefix(TrimStart(s));
    EndsBlank(TrimStart(s));
    assert TrimStart(s) != "" ==> TrimStart(s)[0] in TrimStart(s);
  }

  lemma {:induction false} EndsBlank(s: string)
    ensures TrimEnd(s) == "" ==> OnlySpaces(s)
  {
    if s != [] && IsSpace(s[|s| - 1]) {
      assert s == s[..|s| - 1] + [s[|s| - 1]];
      EndsBlank(s[..|s| - 1]);
    }
  }

  /** What is accepted: an acknowledge or resolve that gives a key with something in it, and
      without a key, or for a trigger, what says something for source, type and title. */
  lemma AcceptedOnFields(input: Input)
    ensures Valid(input) <==>
            if (input.action == Acknowledge || input.action == Resolve) && input.dedupKey.Some?
            then !OnlySpaces(input.dedupKey.value)
            else !OnlySpaces(input.source) && !OnlySpaces(input.eventType) && !OnlySpaces(input.title)
  {
    BlankIffSpaces(input.source);
    BlankIffSpaces(input.eventType);
    BlankIffSpaces(input.title);
    if input.dedupKey.Some? {
      BlankIffSpaces(input.dedupKey.value);
    }
  }

  /** Once filled in, an accepted acknowledge or resolve has all a signal needs. What it
      said stays; a missing title is the open alert's or else the key, which is not blank. */
  lemma FilledCanBeSent(input: Input, knownTitle: Option<string>)
    requires Valid(input) && !input.action.Trigger? && (knownTitle.Some? ==> !Blank(knownTitle.value))
    ensures var filled := Filled(input, knownTitle);
            && !Blank(filled.source) && !Blank(filled.eventType) && !Blank(filled.title)
            && (Blank(input.source) || filled.source == input.source)
            && (Blank(input.eventType) || filled.eventType == input.eventType)
            && (Blank(input.title) || filled.title == input.title)
            && (Blank(input.eventType) ==>
                  filled.eventType == if input.action.Resolve? then "resolve" else "acknowledge")
            && (Blank(input.title) ==> Some(filled.title) == if knownTitle.Some? then knownTitle else input.dedupKey)
            && Valid(filled.(action := Trigger))
  {
    WordsAreNotBlank("opssignal");
    WordsAreNotBlank("acknowledge");
    WordsAreNotBlank("resolve");
  }

  lemma WordsAreNotBlank(word: string)
    requires word != "" && forall c | c in word :: 'a' <= c <= 'z'
    ensures !Blank(word)
  {
    assert word[0] in word && word[|word| - 1] in word;
    TrimTrims(word);
  }
}
