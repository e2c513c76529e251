/** When rows are parked. */
module OutboxParking {
  import opened BatchTypes
  import opened LatestOnly
  import opened OutboxSteps

  /** Below the limit: what every row that is not parked or done, and every row in hand, is. */
  predicate Below(cfg: Config, attempts: int) {
    0 <= attempts && !Exhausted(cfg, attempts)
  }

  ghost predicate WorkBelow(cfg: Config, w: Work) {
    && (forall e :: e in HeldBy(w) ==> Below(cfg, e.attempts))
    && (w.Draining? && w.outcomes.Some? ==> forall o :: o in w.outcomes.value ==> Below(cfg, o.event.attempts))
  }

  ghost predicate Parking(cfg: Config, s: System) {
    && (forall id :: id in s.rows && (s.rows[id].state == Pending || s.rows[id].state == InFlight) ==>
          Below(cfg, s.rows[id].attempts))
    && (forall r :: r in s.relays ==> WorkBelow(cfg, s.relays[r]))
  }

  lemma ClaimBelow(cfg: Config, s: System, step: Step)
    requires Parking(cfg, s) && (step.Claim? || step.DrainClaim?) && Enabled(cfg, s, step)
    ensures Parking(cfg, Apply(cfg, s, step))
  {
    var t := Apply(cfg, s, step);
    var events := EventsAt(s.rows, step.ids);
    forall e | e in events ensures Below(cfg, e.attempts) {
      var k :| 0 <= k < |events| && events[k] == e;
    }
    assert HeldBy(t.relays[step.relay]) == events;
  }

  lemma OutcomesBelow(cfg: Config, events: seq<Event>, errs: seq<Option<PubErr>>)
    requires |errs| == |events| && forall e :: e in events ==> Below(cfg, e.attempts)
    ensures var outcomes := OutcomesOf(cfg, events, errs);
      WorkBelow(cfg, Settling(Failed(outcomes), Published(outcomes))) && WorkBelow(cfg, Draining(events, Some(outcomes)))
  {
    var outcomes := OutcomesOf(cfg, events, errs);
    forall o | o in outcomes ensures Below(cfg, o.event.attempts) {
      var k :| 0 <= k < |outcomes| && outcomes[k] == o;
      assert o.event in events;
    }
    var failed := Failed(outcomes);
    forall e | e in EventsOf(failed) ensures Below(cfg, e.attempts) {
      var k :| 0 <= k < |failed| && failed[k].event == e;
      assert failed[k] in failed;
    }
    forall e | e in Published(outcomes) ensures Below(cfg, e.attempts) {
      assert Outcome(e, None) in outcomes;
    }
  }

  lemma PublishBelow(cfg: Config, s: System, step: Step)
    requires Parking(cfg, s) && step.Publish? && Enabled(cfg, s, step)
    ensures Parking(cfg, Apply(cfg, s, step))
  {
    hide OutcomesOf, Stored, Below;
    assert WorkBelow(cfg, WorkOf(s, step.relay));
    OutcomesBelow(cfg, HeldBy(WorkOf(s, step.relay)), step.errs);
  }

  lemma RemovedBelow(cfg: Config, w: Work, k: nat)
    requires WorkBelow(cfg, w) && w.Settling? && k < |w.failed|
    ensures WorkBelow(cfg, Settling(w.failed[..k] + w.failed[k + 1..], w.published))
    ensures Below(cfg, w.failed[k].event.attempts)
  {
    var rest := w.failed[..k] + w.failed[k + 1..];
    forall e | e in EventsOf(rest) ensures e in HeldBy(w) {
      var m :| 0 <= m < |rest| && rest[m].event == e;
      assert rest[m] == w.failed[if m < k then m else m + 1];
      assert EventsOf(w.failed)[if m < k then m else m + 1] == e;
    }
    assert EventsOf(w.failed)[k] in HeldBy(w);
  }

  lemma RevertBelow(cfg: Config, s: System, step: Step)
    requires Parking(cfg, s) && step.Revert? && Enabled(cfg, s, step)
    ensures Parking(cfg, Apply(cfg, s, step))
  {
    hide WorkBelow;
    var w := WorkOf(s, step.relay);
    assert WorkBelow(cfg, w);
    RemovedBelow(cfg, w, step.k);
  }

  lemma RestoredBelow(cfg: Config, row: Row, o: Outcome, at: int)
    requires o.err.Some? && Below(cfg, o.event.attempts)
    ensures Restored(cfg, row, o, at).state != Parked ==> Below(cfg, Restored(cfg, row, o, at).attempts)
  {
  }

  lemma DrainCommitBelow(cfg: Config, s: System, step: Step)
    requires Parking(cfg, s) && step.DrainCommit? && Enabled(cfg, s, step)
    ensures Parking(cfg, Apply(cfg, s, step))
  {
    hide WorkBelow, Restored, Below, Published, FailureOf;
    var t := Apply(cfg, s, step);
    var w := WorkOf(s, step.relay);
    assert WorkBelow(cfg, w);
    assert WorkBelow(cfg, Idle) by { IdleBelow(cfg); }
    forall id | id in t.rows && (t.rows[id].state == Pending || t.rows[id].state == InFlight)
      ensures Below(cfg, t.rows[id].attempts)
    {
      var o := FailureOf(w.outcomes.value, id);
      if o.Some? {
        OutcomeBelow(cfg, w, o.value);
        RestoredBelow(cfg, s.rows[id], o.value, step.times(id));
        RestoredBelow(cfg, s.rows[id].(state := Done), o.value, step.times(id));
      }
    }
  }

  lemma IdleBelow(cfg: Config)
    ensures WorkBelow(cfg, Idle)
  {
  }

  lemma OutcomeBelow(cfg: Config, w: Work, o: Outcome)
    requires WorkBelow(cfg, w) && w.Draining? && w.outcomes.Some? && o in w.outcomes.value
    ensures Below(cfg, o.event.attempts)
  {
  }

  lemma OtherBelow(cfg: Config, s: System, step: Step)
    requires Parking(cfg, s) && Enabled(cfg, s, step)
    requires !step.Claim? && !step.DrainClaim? && !step.Publish? && !step.Revert? && !step.DrainCommit?
    ensures Parking(cfg, Apply(cfg, s, step))
  {
    hide WorkBelow;
    IdleBelow(cfg);
  }

  lemma StepBelow(cfg: Config, s: System, step: Step)
    requires Parking(cfg, s) && Enabled(cfg, s, step)
    ensures Parking(cfg, Apply(cfg, s, step))
  {
    hide Parking, Enabled, Apply;
    match step
    case Claim(_, _, _, _) => ClaimBelow(cfg, s, step);
    case DrainClaim(_, _, _) => ClaimBelow(cfg, s, step);
    case Publish(_, _, _) => PublishBelow(cfg, s, step);
    case Revert(_, _, _, _) => RevertBelow(cfg, s, step);
    case DrainCommit(_, _) => DrainCommitBelow(cfg, s, step);
    case _ => OtherBelow(cfg, s, step);
  }

  lemma {:induction false} RunBelow(cfg: Config, steps: seq<Step>)
    ensures Parking(cfg, Run(cfg, steps))
  {
    if steps != [] {
      hide Parking, Enabled, Apply;
      RunBelow(cfg, steps[..|steps| - 1]);
      if Enabled(cfg, Run(cfg, steps[..|steps| - 1]), steps[|steps| - 1]) {
        StepBelow(cfg, Run(cfg, steps[..|steps| - 1]), steps[|steps| - 1]);
      }
    } else {
      assert Parking(cfg, EMPTY) by { IdleBelow(cfg); NothingParked(cfg); }
    }
  }

  lemma NothingParked(cfg: Config)
    ensures Parking(cfg, EMPTY)
  {
  }

  /** Parking invariant: on every interleaving a row that waits or is in flight has attempts left. */
  lemma WaitingRowsHaveAttempts(cfg: Config, steps: seq<Step>, id: nat)
    requires cfg.maxAttempts > 0
    ensures var rows := Run(cfg, steps).rows;
      id in rows && (rows[id].state == Pending || rows[id].state == InFlight) ==> 0 <= rows[id].attempts < cfg.maxAttempts
  {
    RunBelow(cfg, steps);
  }

  /** The outcome that a step records on a row, if it records one. */
  ghost function Recorded(s: System, step: Step, id: nat): Option<Outcome> {
    match step
    case Revert(relay, k, written, _) =>
      var w := WorkOf(s, relay);
      if written && w.Settling? && k < |w.failed| && w.failed[k].event.id == id then Some(w.failed[k]) else None
    case DrainCommit(relay, _) =>
      var w := WorkOf(s, relay);
      if w.Draining? && w.outcomes.Some? then FailureOf(w.outcomes.value, id) else None
    case _ => None
  }

  /** Only a counted failure parks a row, and only the one that uses the last attempt: a lost connection
      never does, and in a drain no unknown outcome does. */
  lemma OnlyCountedFailuresPark(cfg: Config, steps: seq<Step>, step: Step, id: nat)
    requires Enabled(cfg, Run(cfg, steps), step)
    requires var s, t := Run(cfg, steps), Apply(cfg, Run(cfg, steps), step);
      id in t.rows && t.rows[id].state == Parked && !(id in s.rows && s.rows[id].state == Parked)
    ensures var o := Recorded(Run(cfg, steps), step, id);
      && o.Some? && o.value.err.Some? && cfg.maxAttempts > 0
      && o.value.event.attempts == cfg.maxAttempts - 1
      && (if step.DrainCommit? then !UnknownOutcome(o.value.err.value) else !IsTransport(o.value.err.value))
  {
    RunBelow(cfg, steps);
    ParkedBy(cfg, Run(cfg, steps), step, id);
  }

  lemma ParkedBy(cfg: Config, s: System, step: Step, id: nat)
    requires Parking(cfg, s) && Enabled(cfg, s, step)
    requires var t := Apply(cfg, s, step);
      id in t.rows && t.rows[id].state == Parked && !(id in s.rows && s.rows[id].state == Parked)
    ensures var o := Recorded(s, step, id);
      && o.Some? && o.value.err.Some? && cfg.maxAttempts > 0
      && o.value.event.attempts == cfg.maxAttempts - 1
      && (if step.DrainCommit? then !UnknownOutcome(o.value.err.value) else !IsTransport(o.value.err.value))
  {
    hide WorkBelow, Published, FailureOf;
    match step
    case Revert(relay, k, _, _) =>
      assert WorkBelow(cfg, WorkOf(s, relay));
      RemovedBelow(cfg, WorkOf(s, relay), k);
    case DrainCommit(relay, _) =>
      var w := WorkOf(s, relay);
      assert WorkBelow(cfg, w);
      var o := FailureOf(w.outcomes.value, id);
      if o.Some? {
        OutcomeBelow(cfg, w, o.value);
      }
    case _ =>
  }
}
