/** What the record of a delivery and its result say about the providers' answers
    (crates/core/src/lib.rs, `deliver_chain` and `summarize`). */
module Outcomes {
  import opened Basics
  import opened Delivery

  ghost predicate RefusesAll(ps: Providers, p: string) {
    forall a | 1 <= a <= 3 :: ps.answer(p, a).Refused?
  }

  /** How often the provider was sent the signal, what is on record, and what it returned. */
  ghost predicate Tells(ps: Providers, p: string, sends: nat, found: Option<Outcome>, alertRef: Option<string>) {
    match found
    case None => sends == 0 && alertRef == None
    case Some(o) =>
      && o.provider == p && p in ps.known
      && (o.status == Pending || o.status == Delivered || o.status == Failed)
      && (o.status == Pending ==> o.attempts == 0 && o.error == None && alertRef == None)
      && (o.status == Delivered ==>
            && 1 <= sends <= 3 && o.attempts == sends && o.error == None
            && ps.answer(p, sends) == Accepted(alertRef))
      && (o.status == Failed ==>
            && sends == o.attempts == 3 && RefusesAll(ps, p) && alertRef == None
            && o.error.Some? && ps.answer(p, 3) == Refused(o.error.value))
  }

  lemma ExpectedTells(chain: seq<string>, ps: Providers, pc: Pc, j: nat)
    requires OnCourse(chain, ps, pc) && j < |chain|
    ensures var r := Expected(chain, ps, j, pc); Tells(ps, chain[j], |r.attempts|, r.outcome, r.alertRef)
  {
    var p := chain[j];
    if p in ps.known && j < pc.i {
      assert !Wins(ps, p);
      forall a | 1 <= a <= 3 ensures ps.answer(p, a).Refused? {
        RefusedBefore(ps, p, a);
      }
    }
  }

  /** At any moment of any run the record of a provider is true: `delivered` with the attempt
      it accepted and the reference it returned then, `failed` once it refused three times,
      with what it said the third time, and else `pending`; nothing if it was sent nothing. */
  lemma RecordIsTrue(targets: seq<seq<string>>, ps: Providers, schedule: seq<nat>, t: nat, j: nat)
    requires Distinct(targets) && ScheduleOf(schedule, targets) && t < |targets| && j < |targets[t]|
    ensures var p, log := targets[t][j], Run(targets, ps, schedule).log;
            Tells(ps, p, |AttemptsOf(log.sends, p)|, Find(log.outcomes, p),
                  if p in log.refs then Some(log.refs[p]) else None)
  {
    RunKeeps(targets, ps, schedule);
    var s := Run(targets, ps, schedule);
    assert OnRecord(targets[t], ps, s.pcs[t], s.log);
    assert s.log.Seen(targets[t][j]) == Expected(targets[t], ps, j, s.pcs[t]);
    ExpectedTells(targets[t], ps, s.pcs[t], j);
  }

  /** The target gets to the provider: every registered one before it refuses three times. */
  ghost predicate GetsTo(chain: seq<string>, ps: Providers, j: nat)
    requires j < |chain|
  {
    chain[j] in ps.known && forall k | 0 <= k < j && chain[k] in ps.known :: RefusesAll(ps, chain[k])
  }

  lemma NotWinning(ps: Providers, p: string)
    ensures p in ps.known ==> (Wins(ps, p) <==> !RefusesAll(ps, p))
  {
    assert RefusesAll(ps, p) ==> ps.answer(p, 1).Refused? && ps.answer(p, 2).Refused? && ps.answer(p, 3).Refused?;
  }

  lemma GetsToIff(chain: seq<string>, ps: Providers, j: nat)
    requires j < |chain|
    ensures GetsTo(chain, ps, j) <==> chain[j] in ps.known && j <= Winner(chain, ps)
  {
    var w := Winner(chain, ps);
    forall k | 0 <= k < |chain| ensures chain[k] in ps.known ==> (Wins(ps, chain[k]) <==> !RefusesAll(ps, chain[k])) {
      NotWinning(ps, chain[k]);
    }
    assert w < j ==> chain[w] in ps.known && Wins(ps, chain[w]);
  }

  /** When delivery has ended, the providers on record are those their targets got to; each
      is `failed` if it refused three times and `delivered` if not. */
  lemma EndedRecordIsWhole(targets: seq<seq<string>>, ps: Providers, schedule: seq<nat>, t: nat, j: nat)
    requires Distinct(targets) && ScheduleOf(schedule, targets) && t < |targets| && j < |targets[t]|
    requires Complete(Run(targets, ps, schedule))
    ensures var p := targets[t][j];
            var found := Find(Run(targets, ps, schedule).log.outcomes, p);
            && (found.Some? <==> GetsTo(targets[t], ps, j))
            && (found.Some? ==> found.value.status == if RefusesAll(ps, p) then Failed else Delivered)
  {
    var chain, w := targets[t], Winner(targets[t], ps);
    RunKeeps(targets, ps, schedule);
    var s := Run(targets, ps, schedule);
    assert OnRecord(chain, ps, s.pcs[t], s.log) && s.pcs[t] == Done(w);
    assert s.log.Seen(chain[j]) == Expected(chain, ps, j, Done(w));
    GetsToIff(chain, ps, j);
    NotWinning(ps, chain[j]);
  }

  /* ----- the result ----- */

  /** How a target went: the entry of the provider tried last. */
  function LastOf(chain: seq<string>, outcomes: seq<Outcome>, cut: Option<string>): Option<Outcome> {
    var tried := Tried(chain, outcomes, cut);
    if tried == [] then None else Some(tried[|tried| - 1])
  }

  predicate Went(last: Option<Outcome>) {
    last.Some? && last.value.status == Delivered
  }

  /** What is said of a target that nobody got. */
  function Complaint(last: Option<Outcome>, alone: bool): string {
    match last
    case None => "no provider delivered successfully"
    case Some(o) =>
      var why := match o.error case Some(error) => error case None => Word(o.status);
      if alone then why else o.provider + ": " + why
  }

  /** The tally is the one before it and one target more. */
  lemma OneMoreTarget(targets: seq<seq<string>>, outcomes: seq<Outcome>, cut: Option<string>, alone: bool)
    requires targets != [] && (alone ==> |targets| == 1)
    ensures var n := |targets| - 1;
            var before, all := CountAll(targets[..n], outcomes, cut, alone), CountAll(targets, outcomes, cut, alone);
            var last := LastOf(targets[n], outcomes, cut);
            && all.deliveries == before.deliveries + Tried(targets[n], outcomes, cut)
            && all.delivered == before.delivered + (if Went(last) then [last.value.provider] else [])
            && all.errors == before.errors + (if Went(last) then [] else [Complaint(last, alone)])
            && before.attempts <= all.attempts
            && (last.Some? ==> last.value.attempts <= all.attempts)
            && (all.attempts == before.attempts || (last.Some? && all.attempts == last.value.attempts))
  {
  }

  /** The attempts of a result are the most that any target's last provider took. */
  lemma {:induction false} AttemptsAreMost(targets: seq<seq<string>>, outcomes: seq<Outcome>, cut: Option<string>,
      alone: bool)
    requires alone ==> |targets| <= 1
    ensures var most := CountAll(targets, outcomes, cut, alone).attempts;
            && (forall t | 0 <= t < |targets| :: LastOf(targets[t], outcomes, cut).Some? ==>
                  LastOf(targets[t], outcomes, cut).value.attempts <= most)
            && (most == 0 || exists t | 0 <= t < |targets| ::
                  LastOf(targets[t], outcomes, cut).Some? && LastOf(targets[t], outcomes, cut).value.attempts == most)
  {
    if targets != [] {
      var init := targets[..|targets| - 1];
      AttemptsAreMost(init, outcomes, cut, alone);
      OneMoreTarget(targets, outcomes, cut, alone);
      assert forall t | 0 <= t < |init| :: init[t] == targets[t];
    }
  }

  /** A target is named at place `won` of those delivered, or complained of at its place
      among the others. */
  ghost predicate Speaks(tally: Tally, t: nat, won: nat, last: Option<Outcome>, alone: bool) {
    && won <= t
    && (Went(last) ==> won < |tally.delivered| && tally.delivered[won] == last.value.provider)
    && (!Went(last) ==> t - won < |tally.errors| && tally.errors[t - won] == Complaint(last, alone))
  }

  /** Who is named and who is complained of: a target at a time, in the plan's order. The
      place of each is the number of such targets before it. */
  lemma {:induction false} EachTargetSpeaks(targets: seq<seq<string>>, outcomes: seq<Outcome>, cut: Option<string>,
      alone: bool, t: nat)
    requires (alone ==> |targets| <= 1) && t < |targets|
    ensures Speaks(CountAll(targets, outcomes, cut, alone), t, Won(targets[..t], outcomes, cut),
                   LastOf(targets[t], outcomes, cut), alone)
  {
    var n := |targets| - 1;
    if t < n {
      OneMoreTarget(targets, outcomes, cut, alone);
      EachTargetSpeaks(targets[..n], outcomes, cut, alone, t);
      assert targets[..n][..t] == targets[..t];
      SpeaksStill(CountAll(targets[..n], outcomes, cut, alone), CountAll(targets, outcomes, cut, alone), t,
                  Won(targets[..t], outcomes, cut), LastOf(targets[t], outcomes, cut), alone);
    } else {
      LastSpeaks(targets, outcomes, cut, alone);
    }
  }

  lemma LastSpeaks(targets: seq<seq<string>>, outcomes: seq<Outcome>, cut: Option<string>, alone: bool)
    requires (alone ==> |targets| <= 1) && targets != []
    ensures var n := |targets| - 1;
            Speaks(CountAll(targets, outcomes, cut, alone), n, Won(targets[..n], outcomes, cut),
                   LastOf(targets[n], outcomes, cut), alone)
  {
    OneMoreTarget(targets, outcomes, cut, alone);
    CountsOf(targets[..|targets| - 1], outcomes, cut, alone);
  }

  lemma SpeaksStill(before: Tally, all: Tally, t: nat, won: nat, last: Option<Outcome>, alone: bool)
    requires Speaks(before, t, won, last, alone)
    requires before.delivered <= all.delivered && before.errors <= all.errors
    ensures Speaks(all, t, won, last, alone)
  {
  }

  lemma {:induction false} CountsOf(targets: seq<seq<string>>, outcomes: seq<Outcome>, cut: Option<string>, alone: bool)
    requires alone ==> |targets| <= 1
    ensures var all, won := CountAll(targets, outcomes, cut, alone), Won(targets, outcomes, cut);
            won <= |targets| && |all.delivered| == won && |all.errors| == |targets| - won
  {
    if targets != [] {
      CountsOf(targets[..|targets| - 1], outcomes, cut, alone);
      OneMoreTarget(targets, outcomes, cut, alone);
    }
  }

  /** What cutting a delivery off makes of an entry: one still pending failed, with the words
      of the cut; every other is as it was. */
  lemma CutFailsThePending(o: Outcome, words: string)
    ensures CutOff(o, None) == o
    ensures CutOff(o, Some(words))
         == if o.status == Pending then Outcome(o.provider, Failed, Some(words), o.attempts) else o
  {
  }
}
