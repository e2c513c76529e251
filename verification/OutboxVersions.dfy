/** On a versioned latest-only subject a row closed without being published gives way to a version not older. */
module OutboxVersions {
  import opened LatestOnly
  import opened OutboxSteps
  import opened OutboxSafety
  import opened OutboxDrain
  import opened OutboxExclusive
  import opened OutboxWinners
  import opened OutboxSuccession

  /** Every row ever inserted on the subject carries a version. */
  ghost predicate Versioned(s: System, topic: string) {
    forall id :: id in s.topics && s.topics[id] == topic ==> id in s.versions && s.versions[id].Some?
  }

  /** The history knows the version of every row. */
  ghost predicate RowsVersioned(s: System) {
    && s.versions.Keys == s.topics.Keys
    && forall id :: id in s.rows ==> id in s.versions && s.versions[id] == s.rows[id].version
  }

  predicate NotOlder(s: System, w: nat, id: nat) {
    && w in s.versions && id in s.versions && s.versions[w].Some? && s.versions[id].Some?
    && s.versions[w].value >= s.versions[id].value
  }

  /** From s to t the history keeps every version, and knows the version of every row. */
  ghost predicate VersionsKept(s: System, t: System) {
    && RowsVersioned(t)
    && forall id :: id in s.versions ==> id in t.versions && t.versions[id] == s.versions[id]
  }

  lemma StepVersions(cfg: Config, s: System, step: Step)
    requires RowsVersioned(s) && Enabled(cfg, s, step)
    ensures VersionsKept(s, Apply(cfg, s, step))
  {
    hide Enabled, Apply, RowsVersioned;
    match step
    case Insert(_, _, _, _) => InsertVersions(cfg, s, step);
    case Publish(_, _, _) => RelayVersions(cfg, s, step);
    case Close(_, _) => RelayVersions(cfg, s, step);
    case DrainCommit(_, _) => DrainVersions(cfg, s, step);
    case Revert(_, _, _, _) => RevertVersions(cfg, s, step);
    case _ => WriteVersions(cfg, s, step);
  }

  lemma InsertVersions(cfg: Config, s: System, step: Step)
    requires RowsVersioned(s) && Enabled(cfg, s, step) && step.Insert?
    ensures VersionsKept(s, Apply(cfg, s, step))
  {
  }

  lemma RelayVersions(cfg: Config, s: System, step: Step)
    requires RowsVersioned(s) && Enabled(cfg, s, step) && (step.Publish? || step.Close?)
    ensures VersionsKept(s, Apply(cfg, s, step))
  {
    hide OutcomesOf, Stored, Failed, Published;
  }

  lemma DrainVersions(cfg: Config, s: System, step: Step)
    requires RowsVersioned(s) && Enabled(cfg, s, step) && step.DrainCommit?
    ensures VersionsKept(s, Apply(cfg, s, step))
  {
    hide FailureOf, Published;
  }

  lemma RevertVersions(cfg: Config, s: System, step: Step)
    requires RowsVersioned(s) && Enabled(cfg, s, step) && step.Revert?
    ensures VersionsKept(s, Apply(cfg, s, step))
  {
  }

  lemma WriteVersions(cfg: Config, s: System, step: Step)
    requires RowsVersioned(s) && Enabled(cfg, s, step)
    requires !step.Insert? && !step.Publish? && !step.Close? && !step.DrainCommit? && !step.Revert?
    ensures VersionsKept(s, Apply(cfg, s, step))
  {
  }

  /** The winner of a superseded event of a versioned subject is not older. */
  lemma WinnerIsNotOlder(events: seq<Event>, i: nat, k: nat)
    requires i < |events| && k < |events| && events[i].topic == events[k].topic && Wins(events, k, |events|)
    requires forall m :: 0 <= m < |events| && events[m].topic == events[i].topic ==> events[m].version.Some?
    ensures events[k].version.value >= events[i].version.value
  {
    assert AllVersioned(events, events[k].topic, |events|);
  }

  /** On a versioned subject a winner is not older than what it beat. */
  ghost predicate BeatenOrdered(s: System, topic: string) {
    forall l: nat, w: nat :: (l, w) in s.beaten && l in s.topics && s.topics[l] == topic ==>
      w in s.topics && s.topics[w] == topic && NotOlder(s, w, l)
  }

  /** The rows and winners in the history were inserted. */
  ghost predicate BeatenKnown(s: System) {
    forall l: nat, w: nat :: (l, w) in s.beaten ==> l in s.topics
  }

  lemma OrderedStill(s: System, t: System, topic: string)
    requires BeatenOrdered(s, topic) && BeatenKnown(s) && VersionsKept(s, t) && t.beaten == s.beaten
    requires forall id :: id in s.topics ==> id in t.topics && t.topics[id] == s.topics[id]
    ensures BeatenOrdered(t, topic) && BeatenKnown(t)
  {
  }

  lemma StepOrdered(cfg: Config, s: System, step: Step, topic: string)
    requires BeatenOrdered(s, topic) && BeatenKnown(s) && RowsVersioned(s) && Enabled(cfg, s, step) && !step.Publish?
    ensures BeatenOrdered(Apply(cfg, s, step), topic) && BeatenKnown(Apply(cfg, s, step))
  {
    hide Enabled, Apply, BeatenOrdered, BeatenKnown, RowsVersioned;
    StepVersions(cfg, s, step);
    StepTopicsGrow(cfg, s, step);
    StepTopics(cfg, s, step, 0);
    OrderedStill(s, Apply(cfg, s, step), topic);
  }

  lemma PublishOrdered(cfg: Config, s: System, step: Step, topic: string)
    requires BeatenOrdered(s, topic) && BeatenKnown(s) && RowsVersioned(s) && Versioned(s, topic)
    requires Owned(cfg, s) && RowsKnown(s) && Enabled(cfg, s, step) && step.Publish?
    ensures BeatenOrdered(Apply(cfg, s, step), topic) && BeatenKnown(Apply(cfg, s, step))
  {
    hide Owned, Enabled, Stored, Superseded, Wins, OutcomesOf;
    var t, events := Apply(cfg, s, step), HeldBy(WorkOf(s, step.relay));
    PublishRows(cfg, s, step);
    StepVersions(cfg, s, step);
    forall m | 0 <= m < |events|
      ensures events[m].id in s.topics && s.topics[events[m].id] == events[m].topic
      ensures s.versions[events[m].id] == events[m].version && (events[m].topic == topic ==> events[m].version.Some?)
    {
      HandCurrent(cfg, s, step.relay, m);
    }
    forall l: nat, w: nat | (l, w) in Beats(cfg, events)
      ensures l in s.topics && w in s.topics && s.topics[w] == s.topics[l] && (s.topics[l] == topic ==> NotOlder(t, w, l))
    {
      var i, k :| 0 <= i < |events| && 0 <= k < |events| && l == events[i].id && w == events[k].id
        && events[k].topic == events[i].topic && Wins(events, k, |events|);
      if events[i].topic == topic {
        WinnerIsNotOlder(events, i, k);
      }
    }
  }

  /** Along a succession the versions never go back. */
  lemma {:induction false} SuccessionOrdered(s: System, topic: string, path: seq<nat>)
    requires BeatenOrdered(s, topic) && Versioned(s, topic) && Succession(s, path)
    requires path[0] in s.topics && s.topics[path[0]] == topic
    ensures path[|path| - 1] in s.topics && s.topics[path[|path| - 1]] == topic && NotOlder(s, path[|path| - 1], path[0])
  {
    var n := |path| - 1;
    if n > 0 {
      SuccessionOrdered(s, topic, path[..n]);
      assert (path[n - 1], path[n]) in s.beaten;
    }
  }

  lemma VersionedBefore(cfg: Config, s: System, step: Step, topic: string)
    requires RowsVersioned(s) && Enabled(cfg, s, step) && Versioned(Apply(cfg, s, step), topic)
    ensures Versioned(s, topic)
  {
    hide Enabled, Apply;
    StepVersions(cfg, s, step);
    StepTopicsGrow(cfg, s, step);
  }

  lemma {:induction false} RunVersions(cfg: Config, steps: seq<Step>)
    ensures RowsVersioned(Run(cfg, steps))
  {
    if steps != [] {
      hide RowsVersioned, Enabled, Apply;
      RunVersions(cfg, steps[..|steps| - 1]);
      if Enabled(cfg, Run(cfg, steps[..|steps| - 1]), steps[|steps| - 1]) {
        StepVersions(cfg, Run(cfg, steps[..|steps| - 1]), steps[|steps| - 1]);
      }
    }
  }

  lemma {:induction false} RunOrdered(cfg: Config, steps: seq<Step>, topic: string)
    requires ExclusiveRun(cfg, steps) && Versioned(Run(cfg, steps), topic)
    ensures BeatenOrdered(Run(cfg, steps), topic) && BeatenKnown(Run(cfg, steps))
  {
    if steps != [] {
      hide Owned, RowsKnown, RowsVersioned, Enabled, Apply, Exclusive, Safe, BeatenOrdered, BeatenKnown, Versioned;
      var init := steps[..|steps| - 1];
      var s, step := Run(cfg, init), steps[|steps| - 1];
      RunVersions(cfg, init);
      RunOwned(cfg, init);
      RunSafe(cfg, init);
      KnownRows(cfg, s);
      if Enabled(cfg, s, step) {
        VersionedBefore(cfg, s, step, topic);
        RunOrdered(cfg, init, topic);
        if step.Publish? {
          PublishOrdered(cfg, s, step, topic);
        } else {
          StepOrdered(cfg, s, step, topic);
        }
      } else {
        RunOrdered(cfg, init, topic);
      }
    }
  }

  /** While no two relays have the same row in hand: when every row of a subject carries a version, a row closed
      although the broker never accepted it leaves a successor on the subject, by the chain of winners, whose version
      is not older, and which the broker accepted or which is still in the table with no relay about to close it. */
  lemma NewestVersionSurvives(cfg: Config, steps: seq<Step>, id: nat)
    requires ExclusiveRun(cfg, steps) && id in Run(cfg, steps).topics
    requires Versioned(Run(cfg, steps), Run(cfg, steps).topics[id])
    ensures var s := Run(cfg, steps);
      id !in s.accepted && (id !in s.rows || s.rows[id].state == Done) ==>
        exists w :: w != id && Survives(s, w, id) && NotOlder(s, w, id)
  {
    hide Run, Stays, BeatenOrdered, Versioned, ExclusiveRun;
    var s := Run(cfg, steps);
    if id !in s.accepted && (id !in s.rows || s.rows[id].state == Done) {
      ClosedRowsGiveWay(cfg, steps, id);
      var w :| w != id && Survives(s, w, id);
      RunOrdered(cfg, steps, s.topics[id]);
      var path :| Succession(s, path) && path[0] == id && path[|path| - 1] == w;
      SuccessionOrdered(s, s.topics[id], path);
    }
  }
}
