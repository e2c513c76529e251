/** What every step of every interleaving of relays keeps in the outbox table. */
module OutboxSafety {
  import opened BatchTypes
  import opened LatestOnly
  import opened OutboxSteps

  /** The rows of a latest-only subject may be closed unpublished. */
  predicate MayClose(cfg: Config, s: System, event: Event) {
    HasAnyPrefix(event.topic, cfg.prefixes) || event.id in s.accepted
  }

  ghost predicate KnownEvents(s: System, events: seq<Event>) {
    forall e :: e in events ==> e.id in s.topics && s.topics[e.id] == e.topic
  }

  ghost predicate WorkSafe(cfg: Config, s: System, w: Work) {
    && KnownEvents(s, HeldBy(w))
    && (w.Settling? ==> forall e :: e in w.published ==> MayClose(cfg, s, e))
    && (w.Draining? && w.outcomes.Some? ==>
          && EventsOf(w.outcomes.value) == w.drained
          && forall e :: Outcome(e, None) in w.outcomes.value ==> MayClose(cfg, s, e))
  }

  ghost predicate RowsKnown(s: System) {
    forall id :: id in s.rows ==> id in s.topics && s.topics[id] == s.rows[id].topic
  }

  /** A row is in the table and not done, or the broker accepted it, or its subject is latest-only. */
  ghost predicate NotLost(cfg: Config, s: System, id: nat)
    requires id in s.topics
  {
    HasAnyPrefix(s.topics[id], cfg.prefixes) || id in s.accepted || (id in s.rows && s.rows[id].state != Done)
  }

  ghost predicate Safe(cfg: Config, s: System) {
    && RowsKnown(s)
    && (forall id :: id in s.topics ==> NotLost(cfg, s, id))
    && (forall r :: r in s.relays ==> WorkSafe(cfg, s, s.relays[r]))
  }

  lemma WorkGrows(cfg: Config, s: System, t: System, w: Work)
    requires WorkSafe(cfg, s, w) && s.accepted <= t.accepted
    requires forall id :: id in s.topics ==> id in t.topics && t.topics[id] == s.topics[id]
    ensures WorkSafe(cfg, t, w)
  {
  }

  /** A step that gives one relay a safe work keeps the works of all relays safe. */
  lemma WorksKept(cfg: Config, s: System, t: System, relay: nat, w: Work)
    requires forall r :: r in s.relays ==> WorkSafe(cfg, s, s.relays[r])
    requires s.accepted <= t.accepted && t.relays == s.relays[relay := w] && WorkSafe(cfg, t, w)
    requires forall id :: id in s.topics ==> id in t.topics && t.topics[id] == s.topics[id]
    ensures forall r :: r in t.relays ==> WorkSafe(cfg, t, t.relays[r])
  {
    hide WorkSafe;
    forall r | r in t.relays ensures WorkSafe(cfg, t, t.relays[r]) {
      if r != relay {
        WorkGrows(cfg, s, t, s.relays[r]);
      }
    }
  }

  lemma IdleSafe(cfg: Config, s: System)
    ensures WorkSafe(cfg, s, Idle)
  {
  }

  lemma PublishedWorkSafe(cfg: Config, t: System, events: seq<Event>, outcomes: seq<Outcome>)
    requires KnownEvents(t, events) && EventsOf(outcomes) == events
    requires forall e :: Outcome(e, None) in outcomes ==> e in events && MayClose(cfg, t, e)
    requires forall o :: o in outcomes ==> o.event in events
    ensures WorkSafe(cfg, t, Settling(Failed(outcomes), Published(outcomes)))
    ensures WorkSafe(cfg, t, Draining(events, Some(outcomes)))
  {
    var failed := Failed(outcomes);
    forall e | e in EventsOf(failed) ensures e in events {
      var k :| 0 <= k < |failed| && failed[k].event == e;
      assert failed[k] in outcomes;
    }
  }

  lemma HandSafe(cfg: Config, s: System, relay: nat)
    requires Safe(cfg, s)
    ensures WorkSafe(cfg, s, WorkOf(s, relay)) && KnownEvents(s, HeldBy(WorkOf(s, relay)))
  {
  }

  lemma PublishSafe(cfg: Config, s: System, step: Step)
    requires Safe(cfg, s) && step.Publish? && Enabled(cfg, s, step)
    ensures Safe(cfg, Apply(cfg, s, step))
  {
    hide WorkSafe, OutcomesOf, Stored, KnownEvents, HeldBy, Beats;
    var t := Apply(cfg, s, step);
    HandSafe(cfg, s, step.relay);
    var events := HeldBy(WorkOf(s, step.relay));
    KnownGrows(s, t, events);
    OutcomesSafe(cfg, events, step.errs, step.lost, t);
    PublishedWorkSafe(cfg, t, events, OutcomesOf(cfg, events, step.errs));
    WorksKept(cfg, s, t, step.relay, t.relays[step.relay]);
  }

  lemma KnownGrows(s: System, t: System, events: seq<Event>)
    requires KnownEvents(s, events) && t.topics == s.topics
    ensures KnownEvents(t, events)
  {
  }

  lemma OutcomesSafe(cfg: Config, events: seq<Event>, errs: seq<Option<PubErr>>, lost: set<nat>, t: System)
    requires |errs| == |events| && Stored(cfg, events, errs, lost) <= t.accepted
    ensures var outcomes := OutcomesOf(cfg, events, errs);
      && EventsOf(outcomes) == events
      && (forall e :: Outcome(e, None) in outcomes ==> e in events && MayClose(cfg, t, e))
      && (forall o :: o in outcomes ==> o.event in events)
  {
    var outcomes := OutcomesOf(cfg, events, errs);
    assert EventsOf(outcomes) == events;
    forall e | Outcome(e, None) in outcomes ensures e in events && MayClose(cfg, t, e) {
      var i :| 0 <= i < |outcomes| && outcomes[i] == Outcome(e, None);
      assert events[i] == e;
      if !Superseded(events, cfg.prefixes, i) {
        assert events[i].id in Stored(cfg, events, errs, lost);
      }
    }
    forall o | o in outcomes ensures o.event in events {
      var i :| 0 <= i < |outcomes| && outcomes[i] == o;
      assert events[i] == o.event;
    }
  }

  lemma RemovedEvents(failed: seq<Outcome>, k: nat)
    requires k < |failed|
    ensures forall e :: e in EventsOf(failed[..k] + failed[k + 1..]) ==> e in EventsOf(failed)
    ensures failed[k].event in EventsOf(failed)
  {
    var rest := failed[..k] + failed[k + 1..];
    assert EventsOf(failed)[k] == failed[k].event;
    forall e | e in EventsOf(rest) ensures e in EventsOf(failed) {
      var m :| 0 <= m < |rest| && rest[m].event == e;
      assert EventsOf(failed)[if m < k then m else m + 1] == e;
    }
  }

  lemma RemovedWorkSafe(cfg: Config, s: System, w: Work, k: nat)
    requires WorkSafe(cfg, s, w) && w.Settling? && k < |w.failed|
    ensures WorkSafe(cfg, s, Settling(w.failed[..k] + w.failed[k + 1..], w.published))
    ensures w.failed[k].event.id in s.topics
  {
    hide EventsOf, MayClose;
    RemovedEvents(w.failed, k);
    var rest := EventsOf(w.failed[..k] + w.failed[k + 1..]);
    forall e | e in rest + w.published ensures e in HeldBy(w) {
    }
    assert w.failed[k].event in HeldBy(w);
  }

  lemma RevertSafe(cfg: Config, s: System, step: Step)
    requires Safe(cfg, s) && step.Revert? && Enabled(cfg, s, step)
    ensures Safe(cfg, Apply(cfg, s, step))
  {
    hide WorkSafe, HeldBy;
    var t := Apply(cfg, s, step);
    var w := WorkOf(s, step.relay);
    HandSafe(cfg, s, step.relay);
    RemovedWorkSafe(cfg, s, w, step.k);
    WorkGrows(cfg, s, t, t.relays[step.relay]);
    WorksKept(cfg, s, t, step.relay, t.relays[step.relay]);
  }

  lemma CloseSafe(cfg: Config, s: System, step: Step)
    requires Safe(cfg, s) && step.Close? && Enabled(cfg, s, step)
    ensures Safe(cfg, Apply(cfg, s, step))
  {
    var t := Apply(cfg, s, step);
    var w := WorkOf(s, step.relay);
    assert WorkSafe(cfg, s, w);
    IdleSafe(cfg, t);
    WorksKept(cfg, s, t, step.relay, Idle);
    forall e | e in w.published ensures NotLost(cfg, t, e.id) {
      assert e in HeldBy(w);
    }
  }

  lemma DrainedKnown(cfg: Config, s: System, w: Work)
    requires WorkSafe(cfg, s, w) && w.Draining? && w.outcomes.Some?
    ensures forall e :: e in Published(w.outcomes.value) ==>
      e.id in s.topics && s.topics[e.id] == e.topic && MayClose(cfg, s, e)
  {
    var outcomes := w.outcomes.value;
    forall e | e in Published(outcomes) ensures e in w.drained {
      var k :| 0 <= k < |outcomes| && outcomes[k] == Outcome(e, None);
      assert w.drained[k] == e;
    }
  }

  /** A drained row keeps its subject, and is gone or done only when it is published. */
  lemma DrainedRow(cfg: Config, rows: map<nat, Row>, outcomes: seq<Outcome>, at: nat -> int, id: nat)
    ensures var after := DrainedRows(cfg, rows, outcomes, at);
      && (id in after ==> id in rows && after[id].topic == rows[id].topic)
      && (id in rows && rows[id].state != Done && id !in Ids(Published(outcomes)) ==> id in after && after[id].state != Done)
  {
  }

  lemma DrainCommitSafe(cfg: Config, s: System, step: Step)
    requires Safe(cfg, s) && step.DrainCommit? && Enabled(cfg, s, step)
    ensures Safe(cfg, Apply(cfg, s, step))
  {
    hide WorkSafe, HeldBy, DrainedRows, DrainedFailures;
    var t := Apply(cfg, s, step);
    HandSafe(cfg, s, step.relay);
    IdleSafe(cfg, t);
    WorksKept(cfg, s, t, step.relay, Idle);
    var outcomes := WorkOf(s, step.relay).outcomes.value;
    DrainedKnown(cfg, s, WorkOf(s, step.relay));
    forall id ensures (id in t.rows ==> id in s.rows && t.rows[id].topic == s.rows[id].topic)
      && (id in s.rows && s.rows[id].state != Done && id !in Ids(Published(outcomes)) ==> id in t.rows && t.rows[id].state != Done)
    {
      DrainedRow(cfg, s.rows, outcomes, step.times, id);
    }
    forall id | id in t.topics ensures NotLost(cfg, t, id) {
      assert NotLost(cfg, s, id);
    }
  }

  lemma ClaimSafe(cfg: Config, s: System, step: Step)
    requires Safe(cfg, s) && (step.Claim? || step.DrainClaim?) && Enabled(cfg, s, step)
    ensures Safe(cfg, Apply(cfg, s, step))
  {
    var t := Apply(cfg, s, step);
    var events := EventsAt(s.rows, step.ids);
    forall e | e in events ensures e.id in s.topics && s.topics[e.id] == e.topic {
      var k :| 0 <= k < |events| && events[k] == e;
    }
    WorksKept(cfg, s, t, step.relay, t.relays[step.relay]);
  }

  lemma StepSafe(cfg: Config, s: System, step: Step)
    requires Safe(cfg, s) && Enabled(cfg, s, step)
    ensures Safe(cfg, Apply(cfg, s, step))
  {
    match step
    case Publish(_, _, _) => PublishSafe(cfg, s, step);
    case Revert(_, _, _, _) => RevertSafe(cfg, s, step);
    case Close(_, _) => CloseSafe(cfg, s, step);
    case DrainCommit(_, _) => DrainCommitSafe(cfg, s, step);
    case Claim(_, _, _, _) => ClaimSafe(cfg, s, step);
    case DrainClaim(_, _, _) => ClaimSafe(cfg, s, step);
    case DrainRollback(relay) => ReleaseSafe(cfg, s, step);
    case Crash(relay) => ReleaseSafe(cfg, s, step);
    case _ => RowStepSafe(cfg, s, step);
  }

  lemma ReleaseSafe(cfg: Config, s: System, step: Step)
    requires Safe(cfg, s) && (step.DrainRollback? || step.Crash?) && Enabled(cfg, s, step)
    ensures Safe(cfg, Apply(cfg, s, step))
  {
    IdleSafe(cfg, s);
    WorksKept(cfg, s, Apply(cfg, s, step), step.relay, Idle);
  }

  lemma RowStepSafe(cfg: Config, s: System, step: Step)
    requires Safe(cfg, s) && Enabled(cfg, s, step)
    requires step.Insert? || step.Reclaim? || step.Requeue? || step.Cleanup?
    ensures Safe(cfg, Apply(cfg, s, step))
  {
    hide WorkSafe;
    var t := Apply(cfg, s, step);
    forall r | r in t.relays ensures WorkSafe(cfg, t, t.relays[r]) {
      WorkGrows(cfg, s, t, s.relays[r]);
    }
  }

  lemma {:induction false} RunSafe(cfg: Config, steps: seq<Step>)
    ensures Safe(cfg, Run(cfg, steps))
  {
    if steps != [] {
      hide Safe, Enabled, Apply;
      RunSafe(cfg, steps[..|steps| - 1]);
      var s, step := Run(cfg, steps[..|steps| - 1]), steps[|steps| - 1];
      if Enabled(cfg, s, step) {
        StepSafe(cfg, s, step);
      }
    }
  }

  /** No loss: over every interleaving of relays, claims, stall reclaims, drains, crashes and failed settle
      writes, a row outside the latest-only subjects is done or gone only if the broker accepted it. */
  lemma NothingIsLost(cfg: Config, steps: seq<Step>, id: nat)
    ensures var s := Run(cfg, steps);
      id in s.topics && !HasAnyPrefix(s.topics[id], cfg.prefixes) && (id !in s.rows || s.rows[id].state == Done)
      ==> id in s.accepted
  {
    RunSafe(cfg, steps);
  }
}
