/** A row closed without being published was beaten by a winner, which was accepted, stays, or was beaten in turn. */
module OutboxSuccession {
  import opened LatestOnly
  import opened OutboxSteps
  import opened OutboxSafety
  import opened OutboxDrain
  import opened OutboxExclusive
  import opened OutboxWinners

  /** Each row of the path was superseded by the next one, its winner at that time. */
  ghost predicate Succession(s: System, path: seq<nat>) {
    path != [] && forall n :: 0 <= n < |path| - 1 ==> (path[n], path[n + 1]) in s.beaten
  }

  /** w is id, or won over it directly or through the winners in between. */
  ghost predicate Succeeds(s: System, w: nat, id: nat) {
    exists path :: Succession(s, path) && path[0] == id && path[|path| - 1] == w
  }

  /** A successor on the subject that the broker accepted, or that is in the table with no relay about to close it. */
  ghost predicate Survives(s: System, w: nat, id: nat) {
    && id in s.topics && w in s.topics && s.topics[w] == s.topics[id] && Succeeds(s, w, id)
    && (w in s.accepted || Stays(s, w, s.topics[id]))
  }

  ghost predicate AllSurvived(s: System) {
    forall id :: GivesWay(s, id) ==> exists w :: Survives(s, w, id)
  }

  lemma SucceedsItself(s: System, id: nat)
    ensures Succeeds(s, id, id)
  {
    assert Succession(s, [id]) && [id][0] == id;
  }

  lemma NextSucceeds(s: System, w: nat, id: nat, v: nat)
    requires Succeeds(s, w, id) && (w, v) in s.beaten
    ensures Succeeds(s, v, id)
  {
    var path :| Succession(s, path) && path[0] == id && path[|path| - 1] == w;
    assert Succession(s, path + [v]) && (path + [v])[0] == id;
  }

  lemma StillSucceeds(s: System, t: System, w: nat, id: nat)
    requires Succeeds(s, w, id) && s.beaten <= t.beaten
    ensures Succeeds(t, w, id)
  {
    var path :| Succession(s, path) && path[0] == id && path[|path| - 1] == w;
    assert Succession(t, path);
  }

  lemma StillSurvives(s: System, t: System, w: nat, id: nat)
    requires Survives(s, w, id) && s.beaten <= t.beaten && s.accepted <= t.accepted
    requires forall x :: x in s.topics ==> x in t.topics && t.topics[x] == s.topics[x]
    requires w in t.accepted || (Stays(s, w, s.topics[id]) ==> Stays(t, w, s.topics[id]))
    ensures Survives(t, w, id)
  {
    hide Stays, Succeeds;
    StillSucceeds(s, t, w, id);
  }

  lemma GivesWayIsKnown(s: System, id: nat)
    requires GivesWay(s, id)
    ensures id in s.topics && id !in s.accepted
  {
  }

  lemma StepTopicsGrow(cfg: Config, s: System, step: Step)
    requires Enabled(cfg, s, step)
    ensures var t := Apply(cfg, s, step);
      forall id :: id in s.topics ==> id in t.topics && t.topics[id] == s.topics[id]
  {
    hide OutcomesOf, Stored, DrainedRows, DrainedFailures, CloseRows, Beats;
  }

  lemma StepSurvived(cfg: Config, s: System, step: Step)
    requires AllSurvived(s) && Owned(cfg, s) && RowsKnown(s)
    requires Enabled(cfg, s, step) && !step.Publish?
    ensures AllSurvived(Apply(cfg, s, step))
  {
    hide Owned, RowsKnown, Enabled, Apply, Stays, GivesWay, Survives;
    var t := Apply(cfg, s, step);
    StepTopicsGrow(cfg, s, step);
    StepTopics(cfg, s, step, 0);
    forall id | GivesWay(t, id) ensures exists w :: Survives(t, w, id) {
      StepGivesWay(cfg, s, step, id);
      GivesWayIsKnown(s, id);
      var w :| Survives(s, w, id);
      StepStays(cfg, s, step, w, s.topics[id]);
      StillSurvives(s, t, w, id);
    }
  }

  /** When the row of event i is superseded in this publish, its winner succeeds whom it succeeds, and survives. */
  lemma WinnerSurvives(cfg: Config, s: System, step: Step, i: nat, id: nat)
    requires Owned(cfg, s) && Exclusive(s) && RowsKnown(s) && Enabled(cfg, s, step) && step.Publish?
    requires i < |HeldBy(WorkOf(s, step.relay))| && Superseded(HeldBy(WorkOf(s, step.relay)), cfg.prefixes, i)
    requires id in s.topics && s.topics[id] == HeldBy(WorkOf(s, step.relay))[i].topic
    requires Succeeds(s, HeldBy(WorkOf(s, step.relay))[i].id, id)
    ensures exists w :: Survives(Apply(cfg, s, step), w, id)
  {
    hide Owned, Exclusive, Enabled, Stored, Stays, Superseded, Wins, Succeeds;
    var t, events := Apply(cfg, s, step), HeldBy(WorkOf(s, step.relay));
    var w, k := WinnerStays(cfg, s, step, i);
    PublishRows(cfg, s, step);
    StillSucceeds(s, t, events[i].id, id);
    assert (events[i].id, w) in Beats(cfg, events);
    NextSucceeds(t, events[i].id, id, w);
    assert Survives(t, w, id);
  }

  lemma PublishSurvives(cfg: Config, s: System, step: Step, id: nat)
    requires AllSurvived(s) && Owned(cfg, s) && Exclusive(s) && RowsKnown(s)
    requires Enabled(cfg, s, step) && step.Publish? && GivesWay(Apply(cfg, s, step), id)
    ensures exists w :: Survives(Apply(cfg, s, step), w, id)
  {
    hide Owned, Exclusive, Enabled, Stored, Closing, Published, OutcomesOf, Superseded, Succeeds, Beats;
    var t := Apply(cfg, s, step);
    var events := HeldBy(WorkOf(s, step.relay));
    PublishRows(cfg, s, step);
    PublishClosing(cfg, s, step, id);
    if GivesWay(s, id) {
      var w :| Survives(s, w, id);
      PublishClosing(cfg, s, step, w);
      if w !in t.accepted && Closing(t, w) {
        var i := PublishedWhy(cfg, events, step.errs, step.lost, w);
        HandCurrent(cfg, s, step.relay, i);
        WinnerSurvives(cfg, s, step, i, id);
      } else {
        StillSurvives(s, t, w, id);
      }
    } else {
      var i := PublishedWhy(cfg, events, step.errs, step.lost, id);
      HandCurrent(cfg, s, step.relay, i);
      SucceedsItself(s, id);
      WinnerSurvives(cfg, s, step, i, id);
    }
  }

  lemma PublishSurvived(cfg: Config, s: System, step: Step)
    requires AllSurvived(s) && Owned(cfg, s) && Exclusive(s) && RowsKnown(s)
    requires Enabled(cfg, s, step) && step.Publish?
    ensures AllSurvived(Apply(cfg, s, step))
  {
    hide Owned, Exclusive, RowsKnown, Enabled, Apply, GivesWay, Survives;
    var t := Apply(cfg, s, step);
    forall id | GivesWay(t, id) ensures exists w :: Survives(t, w, id) {
      PublishSurvives(cfg, s, step, id);
    }
  }

  lemma {:induction false} RunSurvived(cfg: Config, steps: seq<Step>)
    requires ExclusiveRun(cfg, steps)
    ensures AllSurvived(Run(cfg, steps))
  {
    if steps != [] {
      hide Owned, RowsKnown, Enabled, Apply, Exclusive, Safe, AllSurvived;
      var init := steps[..|steps| - 1];
      var s, step := Run(cfg, init), steps[|steps| - 1];
      RunSurvived(cfg, init);
      RunOwned(cfg, init);
      RunSafe(cfg, init);
      KnownRows(cfg, s);
      assert Exclusive(s);
      if Enabled(cfg, s, step) {
        if step.Publish? {
          PublishSurvived(cfg, s, step);
        } else {
          StepSurvived(cfg, s, step);
        }
      }
    } else {
      NothingGivesWay();
    }
  }

  /** While no two relays have the same row in hand: a row that was closed although the broker never accepted it has a
      row of its subject still in the table, which no relay is about to close, or a message of its subject was
      accepted after the row was inserted. And it was beaten by the winner of its subject in its batch, and the chain
      of winners from there ends with a row that the broker accepted, or that is still in the table with no relay
      about to close it. */
  lemma ClosedRowsGiveWay(cfg: Config, steps: seq<Step>, id: nat)
    requires ExclusiveRun(cfg, steps)
    ensures var s := Run(cfg, steps);
      id in s.topics && id !in s.accepted && (id !in s.rows || s.rows[id].state == Done) ==>
        && (id in s.served || exists w :: Stays(s, w, s.topics[id]))
        && (exists w :: w != id && Survives(s, w, id))
  {
    RunCovered(cfg, steps);
    RunSurvived(cfg, steps);
    var s := Run(cfg, steps);
    if id in s.topics && id !in s.accepted && (id !in s.rows || s.rows[id].state == Done) {
      assert GivesWay(s, id) && Covered(s, id);
      var w :| Survives(s, w, id);
      assert w != id;
    }
  }
}
