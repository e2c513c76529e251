/** Rows closed without being published give way to a row of their subject. */
module OutboxWinners {
  import opened BatchTypes
  import opened LatestOnly
  import opened OutboxSteps
  import opened OutboxSafety
  import opened OutboxDrain
  import opened OutboxExclusive

  /** Some relay is about to close the row. */
  ghost predicate ClosedBy(w: Work, id: nat) {
    (w.Settling? && id in Ids(w.published)) || (w.Draining? && w.outcomes.Some? && id in Ids(Published(w.outcomes.value)))
  }

  ghost predicate Closing(s: System, id: nat) {
    exists r :: r in s.relays && ClosedBy(s.relays[r], id)
  }

  /** A row of the subject that stays in the table. */
  ghost predicate Stays(s: System, id: nat, topic: string) {
    id in s.rows && s.rows[id].state != Done && s.rows[id].topic == topic && !Closing(s, id)
  }

  /** A row that is closed, or about to be, although the broker did not accept it. */
  ghost predicate GivesWay(s: System, id: nat) {
    id in s.topics && id !in s.accepted && (id !in s.rows || s.rows[id].state == Done || Closing(s, id))
  }

  ghost predicate Covered(s: System, id: nat) {
    id in s.topics && (id in s.served || exists w :: Stays(s, w, s.topics[id]))
  }

  ghost predicate AllCovered(s: System) {
    forall id :: GivesWay(s, id) ==> Covered(s, id)
  }

  /** A step that removes no staying row, and makes no row give way, keeps all rows covered. */
  lemma CoverKept(s: System, t: System)
    requires AllCovered(s) && t.served == s.served && t.accepted == s.accepted
    requires forall id :: id in s.topics ==> id in t.topics && t.topics[id] == s.topics[id]
    requires forall id :: GivesWay(t, id) ==> GivesWay(s, id)
    requires forall id, topic :: Stays(s, id, topic) ==> Stays(t, id, topic)
    ensures AllCovered(t)
  {
    forall id | GivesWay(t, id) ensures Covered(t, id) {
      assert GivesWay(s, id) && Covered(s, id);
      if id !in s.served {
        var w :| Stays(s, w, s.topics[id]);
        assert Stays(t, w, t.topics[id]);
      }
    }
  }

  /** A work that closes nothing new. */
  lemma ClosingKept(s: System, t: System, relay: nat, w: Work, id: nat)
    requires t.relays == s.relays || t.relays == s.relays[relay := w]
    requires t.relays == s.relays[relay := w] ==> ClosedBy(w, id) ==> ClosedBy(WorkOf(s, relay), id)
    ensures Closing(t, id) ==> Closing(s, id)
  {
    if Closing(t, id) {
      var r :| r in t.relays && ClosedBy(t.relays[r], id);
      if r == relay && t.relays == s.relays[relay := w] {
        assert ClosedBy(WorkOf(s, relay), id) && relay in s.relays;
      } else {
        assert r in s.relays && ClosedBy(s.relays[r], id);
      }
    }
  }

  lemma SameClosing(s: System, t: System, id: nat)
    requires t.relays == s.relays
    ensures Closing(t, id) ==> Closing(s, id)
  {
  }

  lemma ClosedIsHeld(s: System, w: Work, id: nat)
    requires WorkCurrent(s, w) && ClosedBy(w, id)
    ensures id in Ids(HeldBy(w)) && id in s.rows
  {
    if w.Settling? {
      var e :| e in w.published && e.id == id;
      assert e in HeldBy(w);
      assert Current(s, e);
    } else {
      var outcomes := w.outcomes.value;
      var e :| e in Published(outcomes) && e.id == id;
      var k :| 0 <= k < |outcomes| && outcomes[k] == Outcome(e, None);
      assert w.drained[k] == e;
      assert Current(s, e);
    }
  }

  lemma ClosingIsKnown(cfg: Config, s: System, id: nat)
    requires Owned(cfg, s) && RowsKnown(s)
    ensures Closing(s, id) ==> id in s.topics
  {
    if Closing(s, id) {
      var r :| r in s.relays && ClosedBy(s.relays[r], id);
      ClosedIsHeld(s, s.relays[r], id);
    }
  }

  lemma StepCloses(cfg: Config, s: System, step: Step, id: nat)
    requires Enabled(cfg, s, step) && !step.Publish?
    ensures Closing(Apply(cfg, s, step), id) ==> Closing(s, id)
  {
    hide Closing;
    var t := Apply(cfg, s, step);
    match step
    case Claim(relay, _, _, _) => ClosingKept(s, t, relay, t.relays[relay], id);
    case DrainClaim(relay, _, _) => ClosingKept(s, t, relay, t.relays[relay], id);
    case Revert(relay, _, _, _) => ClosingKept(s, t, relay, t.relays[relay], id);
    case Close(relay, _) => ClosingKept(s, t, relay, Idle, id);
    case DrainCommit(relay, _) => ClosingKept(s, t, relay, Idle, id);
    case DrainRollback(relay) => ClosingKept(s, t, relay, Idle, id);
    case Crash(relay) => ClosingKept(s, t, relay, Idle, id);
    case _ => SameClosing(s, t, id);
  }

  /** A row that is neither done nor about to be closed stays. */
  lemma RowStays(cfg: Config, s: System, step: Step, id: nat)
    requires RowsKnown(s) && Enabled(cfg, s, step)
    requires id in s.rows && s.rows[id].state != Done && !Closing(s, id)
    ensures var t := Apply(cfg, s, step);
      id in t.rows && t.rows[id].state != Done && t.rows[id].topic == s.rows[id].topic
  {
    hide Closing, RowsKnown, Apply, Enabled;
    match step
    case Close(relay, _) => NotClosed(s, relay, id); ClosedStays(cfg, s, step, id);
    case DrainCommit(relay, _) => NotClosed(s, relay, id); DrainedStays(cfg, s, step, id);
    case Revert(_, _, _, _) => RevertedStays(cfg, s, step, id);
    case _ => WrittenStays(cfg, s, step, id);
  }

  lemma ClosedStays(cfg: Config, s: System, step: Step, id: nat)
    requires Enabled(cfg, s, step) && step.Close? && id in s.rows && s.rows[id].state != Done
    requires !ClosedBy(WorkOf(s, step.relay), id)
    ensures var t := Apply(cfg, s, step); id in t.rows && t.rows[id] == s.rows[id]
  {
  }

  lemma DrainedStays(cfg: Config, s: System, step: Step, id: nat)
    requires Enabled(cfg, s, step) && step.DrainCommit? && id in s.rows && s.rows[id].state != Done
    requires !ClosedBy(WorkOf(s, step.relay), id)
    ensures var t := Apply(cfg, s, step);
      id in t.rows && t.rows[id].state != Done && t.rows[id].topic == s.rows[id].topic
  {
    hide FailureOf, Published, DrainedRows, DrainedFailures;
    DrainedRow(cfg, s.rows, WorkOf(s, step.relay).outcomes.value, step.times, id);
  }

  lemma RevertedStays(cfg: Config, s: System, step: Step, id: nat)
    requires Enabled(cfg, s, step) && step.Revert? && id in s.rows && s.rows[id].state != Done
    ensures var t := Apply(cfg, s, step);
      id in t.rows && t.rows[id].state != Done && t.rows[id].topic == s.rows[id].topic
  {
    hide Reverted;
    RevertedRow(cfg, s.rows[id], WorkOf(s, step.relay).failed[step.k], step.at);
  }

  lemma WrittenStays(cfg: Config, s: System, step: Step, id: nat)
    requires RowsKnown(s) && Enabled(cfg, s, step) && !step.Close? && !step.DrainCommit? && !step.Revert?
    requires id in s.rows && s.rows[id].state != Done
    ensures var t := Apply(cfg, s, step);
      id in t.rows && t.rows[id].state != Done && t.rows[id].topic == s.rows[id].topic
  {
    hide OutcomesOf, Stored, Failed, Published;
  }

  lemma RevertedRow(cfg: Config, row: Row, o: Outcome, at: int)
    requires o.err.Some?
    ensures Reverted(cfg, row, o, at).topic == row.topic && Reverted(cfg, row, o, at).state in {Pending, Parked}
  {
  }

  lemma NotClosed(s: System, relay: nat, id: nat)
    requires !Closing(s, id)
    ensures !ClosedBy(WorkOf(s, relay), id)
  {
    assert relay in s.relays ==> !ClosedBy(s.relays[relay], id);
  }

  lemma StepStays(cfg: Config, s: System, step: Step, id: nat, topic: string)
    requires RowsKnown(s) && Enabled(cfg, s, step) && !step.Publish?
    ensures Stays(s, id, topic) ==> Stays(Apply(cfg, s, step), id, topic)
  {
    hide Closing, Apply, Enabled, RowsKnown;
    StepCloses(cfg, s, step, id);
    if Stays(s, id, topic) {
      RowStays(cfg, s, step, id);
    }
  }

  lemma StepGivesWay(cfg: Config, s: System, step: Step, id: nat)
    requires Owned(cfg, s) && RowsKnown(s) && Enabled(cfg, s, step) && !step.Publish?
    ensures GivesWay(Apply(cfg, s, step), id) ==> GivesWay(s, id)
  {
    hide Closing, Owned, RowsKnown, Enabled;
    ClosingIsKnown(cfg, s, id);
    StepCloses(cfg, s, step, id);
    StepTopics(cfg, s, step, id);
    if id in s.rows && s.rows[id].state != Done && !Closing(s, id) {
      RowStays(cfg, s, step, id);
    }
  }

  lemma StepTopics(cfg: Config, s: System, step: Step, id: nat)
    requires Enabled(cfg, s, step) && !step.Publish?
    ensures var t := Apply(cfg, s, step);
      && t.accepted == s.accepted && t.served == s.served && t.beaten == s.beaten
      && (id in s.topics ==> id in t.topics && t.topics[id] == s.topics[id])
      && (id in t.topics && id !in s.topics ==> id in t.rows && t.rows[id].state == Pending)
  {
  }

  /** Every step but a publish. */
  lemma StepCovered(cfg: Config, s: System, step: Step)
    requires AllCovered(s) && Owned(cfg, s) && RowsKnown(s)
    requires Enabled(cfg, s, step) && !step.Publish?
    ensures AllCovered(Apply(cfg, s, step))
  {
    hide Owned, RowsKnown, Enabled, Apply, AllCovered, Stays, GivesWay;
    var t := Apply(cfg, s, step);
    forall id ensures GivesWay(t, id) ==> GivesWay(s, id) {
      StepGivesWay(cfg, s, step, id);
    }
    forall id ensures id in s.topics ==> id in t.topics && t.topics[id] == s.topics[id] {
      StepTopics(cfg, s, step, id);
    }
    forall id, topic ensures Stays(s, id, topic) ==> Stays(t, id, topic) {
      StepStays(cfg, s, step, id, topic);
    }
    StepTopics(cfg, s, step, 0);
    CoverKept(s, t);
  }

  lemma PublishClosing(cfg: Config, s: System, step: Step, id: nat)
    requires Enabled(cfg, s, step) && step.Publish?
    ensures Closing(Apply(cfg, s, step), id) ==>
      Closing(s, id) || id in Ids(Published(OutcomesOf(cfg, HeldBy(WorkOf(s, step.relay)), step.errs)))
  {
    hide Published, OutcomesOf, Stored;
    var t := Apply(cfg, s, step);
    if Closing(t, id) {
      var r :| r in t.relays && ClosedBy(t.relays[r], id);
      if r != step.relay {
        assert r in s.relays && ClosedBy(s.relays[r], id);
      }
    }
  }

  /** A published event is superseded, or the broker stored it. */
  lemma PublishedWhy(cfg: Config, events: seq<Event>, errs: seq<Option<PubErr>>, lost: set<nat>, id: nat) returns (i: nat)
    requires |errs| == |events| && id in Ids(Published(OutcomesOf(cfg, events, errs)))
    ensures i < |events| && events[i].id == id
    ensures Superseded(events, cfg.prefixes, i) || id in Stored(cfg, events, errs, lost)
  {
    var outcomes := OutcomesOf(cfg, events, errs);
    var e :| e in Published(outcomes) && e.id == id;
    i :| 0 <= i < |outcomes| && outcomes[i] == Outcome(e, None);
  }

  /** The winner of a superseded event is stored, or its publish failed and its row stays. */
  lemma WinnerStays(cfg: Config, s: System, step: Step, i: nat) returns (w: nat, k: nat)
    requires Owned(cfg, s) && Exclusive(s) && Enabled(cfg, s, step) && step.Publish?
    requires i < |HeldBy(WorkOf(s, step.relay))| && Superseded(HeldBy(WorkOf(s, step.relay)), cfg.prefixes, i)
    ensures var events := HeldBy(WorkOf(s, step.relay));
      var topic := events[i].topic;
      && k < |events| && w == events[k].id && events[k].topic == topic && Wins(events, k, |events|)
      && w in s.rows && s.rows[w].topic == topic && s.rows[w].version == events[k].version
      && (w in Stored(cfg, events, step.errs, step.lost) || Stays(Apply(cfg, s, step), w, topic))
  {
    hide Owned, Exclusive, Enabled, Stored, Closing, Published, OutcomesOf, Superseded;
    var events := HeldBy(WorkOf(s, step.relay));
    k := SupersededHasWinner(events, cfg.prefixes, i);
    WinnerWins(events, cfg.prefixes, i, k);
    HandCurrent(cfg, s, step.relay, k);
    w := events[k].id;
    SentOutcome(cfg, s, step, k);
    if w !in Stored(cfg, events, step.errs, step.lost) {
      NotClosing(cfg, s, step, k);
      PublishRows(cfg, s, step);
    }
  }

  lemma WinnerWins(events: seq<Event>, prefixes: seq<string>, i: nat, k: nat)
    requires i < |events| && k < |events| && events[k].topic == events[i].topic
    requires Superseded(events, prefixes, i) && !Superseded(events, prefixes, k)
    ensures Wins(events, k, |events|)
  {
  }

  lemma PublishRows(cfg: Config, s: System, step: Step)
    requires Enabled(cfg, s, step) && step.Publish?
    ensures var t, events := Apply(cfg, s, step), HeldBy(WorkOf(s, step.relay));
      && |step.errs| == |events| && t.rows == s.rows && t.topics == s.topics
      && t.accepted == s.accepted + Stored(cfg, events, step.errs, step.lost)
      && s.served <= t.served && t.beaten == s.beaten + Beats(cfg, events)
      && forall id, y :: id in s.topics && y in s.topics && y in Stored(cfg, events, step.errs, step.lost) ==>
           s.topics[y] == s.topics[id] ==> id in t.served
  {
    hide Stored, OutcomesOf, Beats;
  }

  lemma HandCurrent(cfg: Config, s: System, relay: nat, k: nat)
    requires Owned(cfg, s) && k < |HeldBy(WorkOf(s, relay))|
    ensures Current(s, HeldBy(WorkOf(s, relay))[k])
  {
    assert WorkCurrent(s, WorkOf(s, relay));
    assert HeldBy(WorkOf(s, relay))[k] in HeldBy(WorkOf(s, relay));
  }

  /** A sent event that was not stored has a failed outcome. */
  lemma SentOutcome(cfg: Config, s: System, step: Step, k: nat)
    requires Enabled(cfg, s, step) && step.Publish?
    requires k < |HeldBy(WorkOf(s, step.relay))| && !Superseded(HeldBy(WorkOf(s, step.relay)), cfg.prefixes, k)
    ensures var events := HeldBy(WorkOf(s, step.relay));
      |step.errs| == |events|
      && (step.errs[k].Some? || events[k].id in Stored(cfg, events, step.errs, step.lost))
      && OutcomesOf(cfg, events, step.errs)[k] == Outcome(events[k], step.errs[k])
  {
  }

  lemma NotElsewhere(cfg: Config, s: System, relay: nat, k: nat, r: nat)
    requires Owned(cfg, s) && Exclusive(s) && k < |HeldBy(WorkOf(s, relay))| && r in s.relays && r != relay
    ensures !ClosedBy(s.relays[r], HeldBy(WorkOf(s, relay))[k].id)
  {
    hide ClosedBy, WorkCurrent, Tallied;
    var events := HeldBy(WorkOf(s, relay));
    assert events[k].id in Ids(events);
    assert Ids(events) !! Ids(HeldBy(s.relays[r]));
    assert WorkCurrent(s, s.relays[r]);
    if ClosedBy(s.relays[r], events[k].id) {
      ClosedIsHeld(s, s.relays[r], events[k].id);
    }
  }

  lemma NotClosing(cfg: Config, s: System, step: Step, k: nat)
    requires Owned(cfg, s) && Exclusive(s) && Enabled(cfg, s, step) && step.Publish?
    requires k < |HeldBy(WorkOf(s, step.relay))| && |step.errs| == |HeldBy(WorkOf(s, step.relay))|
    requires OutcomesOf(cfg, HeldBy(WorkOf(s, step.relay)), step.errs)[k].err.Some?
    ensures !Closing(Apply(cfg, s, step), HeldBy(WorkOf(s, step.relay))[k].id)
  {
    hide OutcomesOf, Published, Stored, Failed, Owned, Exclusive;
    var t := Apply(cfg, s, step);
    var events := HeldBy(WorkOf(s, step.relay));
    var id := events[k].id;
    FailedNotPublished(cfg, s, step, k);
    forall r | r in t.relays ensures !ClosedBy(t.relays[r], id) {
      if r != step.relay {
        NotElsewhere(cfg, s, step.relay, k, r);
      }
    }
  }

  lemma FailedNotPublished(cfg: Config, s: System, step: Step, k: nat)
    requires Owned(cfg, s) && step.Publish? && k < |HeldBy(WorkOf(s, step.relay))|
    requires |step.errs| == |HeldBy(WorkOf(s, step.relay))|
    requires OutcomesOf(cfg, HeldBy(WorkOf(s, step.relay)), step.errs)[k].err.Some?
    ensures HeldBy(WorkOf(s, step.relay))[k].id !in Ids(Published(OutcomesOf(cfg, HeldBy(WorkOf(s, step.relay)), step.errs)))
  {
    var events := HeldBy(WorkOf(s, step.relay));
    var outcomes := OutcomesOf(cfg, events, step.errs);
    if step.relay in s.relays {
      assert WorkCurrent(s, WorkOf(s, step.relay));
    }
    assert EventsOf(outcomes) == events;
    FailureAt(outcomes, k);
  }

  /** A row of a topic that a superseded event of this publish is on is covered afterwards. */
  lemma CoveredByWinner(cfg: Config, s: System, step: Step, i: nat, id: nat)
    requires Owned(cfg, s) && Exclusive(s) && RowsKnown(s) && Enabled(cfg, s, step) && step.Publish?
    requires i < |HeldBy(WorkOf(s, step.relay))| && Superseded(HeldBy(WorkOf(s, step.relay)), cfg.prefixes, i)
    requires id in s.topics && s.topics[id] == HeldBy(WorkOf(s, step.relay))[i].topic
    ensures id in Apply(cfg, s, step).topics && Covered(Apply(cfg, s, step), id)
  {
    hide Owned, Exclusive, Enabled, Stored, Stays, Superseded;
    var w, k := WinnerStays(cfg, s, step, i);
    PublishRows(cfg, s, step);
  }

  lemma PublishCovers(cfg: Config, s: System, step: Step, id: nat)
    requires AllCovered(s) && Owned(cfg, s) && Exclusive(s) && RowsKnown(s)
    requires Enabled(cfg, s, step) && step.Publish? && GivesWay(Apply(cfg, s, step), id)
    ensures Covered(Apply(cfg, s, step), id)
  {
    hide Owned, Exclusive, Enabled, Stored, Closing, Published, OutcomesOf, Superseded;
    var t := Apply(cfg, s, step);
    var events := HeldBy(WorkOf(s, step.relay));
    PublishRows(cfg, s, step);
    PublishClosing(cfg, s, step, id);
    if GivesWay(s, id) {
      assert Covered(s, id);
      if id !in s.served {
        var w :| Stays(s, w, s.topics[id]);
        PublishClosing(cfg, s, step, w);
        if Closing(t, w) {
          var i := PublishedWhy(cfg, events, step.errs, step.lost, w);
          HandCurrent(cfg, s, step.relay, i);
          if Superseded(events, cfg.prefixes, i) {
            CoveredByWinner(cfg, s, step, i, id);
          }
        } else {
          assert Stays(t, w, t.topics[id]);
        }
      }
    } else {
      var i := PublishedWhy(cfg, events, step.errs, step.lost, id);
      HandCurrent(cfg, s, step.relay, i);
      CoveredByWinner(cfg, s, step, i, id);
    }
  }

  lemma PublishCovered(cfg: Config, s: System, step: Step)
    requires AllCovered(s) && Owned(cfg, s) && Exclusive(s) && RowsKnown(s)
    requires Enabled(cfg, s, step) && step.Publish?
    ensures AllCovered(Apply(cfg, s, step))
  {
    hide Owned, Exclusive, RowsKnown, Enabled, Apply, Covered, GivesWay;
    var t := Apply(cfg, s, step);
    forall id | GivesWay(t, id) ensures Covered(t, id) {
      PublishCovers(cfg, s, step, id);
    }
  }

  lemma {:induction false} RunCovered(cfg: Config, steps: seq<Step>)
    requires ExclusiveRun(cfg, steps)
    ensures AllCovered(Run(cfg, steps))
  {
    if steps != [] {
      hide Owned, RowsKnown, Enabled, Apply, Exclusive, Safe, AllCovered;
      var init := steps[..|steps| - 1];
      var s, step := Run(cfg, init), steps[|steps| - 1];
      RunCovered(cfg, init);
      RunOwned(cfg, init);
      RunSafe(cfg, init);
      KnownRows(cfg, s);
      assert Exclusive(s);
      if Enabled(cfg, s, step) {
        if step.Publish? {
          PublishCovered(cfg, s, step);
        } else {
          StepCovered(cfg, s, step);
        }
      }
    } else {
      NothingGivesWay();
    }
  }

  lemma NothingGivesWay()
    ensures AllCovered(EMPTY)
  {
  }
}
