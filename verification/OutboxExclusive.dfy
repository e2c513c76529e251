/** What holds as long as no two relays have the same row in hand. */
module OutboxExclusive {
  import opened BatchTypes
  import opened LatestOnly
  import opened OutboxSteps
  import opened OutboxSafety
  import opened OutboxDrain
  import opened OutboxParking

  /** No row is in hand twice. */
  ghost predicate Exclusive(s: System) {
    forall r, q :: r in s.relays && q in s.relays && r != q ==> Ids(HeldBy(s.relays[r])) !! Ids(HeldBy(s.relays[q]))
  }

  ghost predicate ExclusiveRun(cfg: Config, steps: seq<Step>) {
    Exclusive(Run(cfg, steps)) && (steps != [] ==> ExclusiveRun(cfg, steps[..|steps| - 1]))
  }

  /** A row in hand is in the table, neither done nor parked, with the attempts of the claim. */
  ghost predicate Current(s: System, e: Event) {
    && e.id in s.rows && (s.rows[e.id].state == Pending || s.rows[e.id].state == InFlight)
    && s.rows[e.id].attempts == e.attempts && s.rows[e.id].topic == e.topic && s.rows[e.id].version == e.version
  }

  ghost predicate WorkCurrent(s: System, w: Work) {
    && DistinctEvents(HeldBy(w))
    && (forall e :: e in HeldBy(w) ==> Current(s, e))
    && (w.Draining? && w.outcomes.Some? ==> EventsOf(w.outcomes.value) == w.drained)
  }

  /** The attempts of a row are the counted failures that were recorded on it. */
  ghost predicate Tallied(cfg: Config, s: System) {
    && (forall id :: id in s.rows ==> id in s.failures)
    && (forall id :: id in s.rows && s.rows[id].state != Done ==> s.rows[id].attempts == s.failures[id])
    && (forall id :: id in s.rows && s.rows[id].state == Parked ==> cfg.maxAttempts > 0 && s.rows[id].attempts == cfg.maxAttempts)
  }

  ghost predicate Owned(cfg: Config, s: System) {
    Tallied(cfg, s) && forall r :: r in s.relays ==> WorkCurrent(s, s.relays[r])
  }

  /** Nobody but the relay has one of these rows in hand. */
  ghost predicate OnlyIn(s: System, relay: nat, ids: set<nat>) {
    forall r, e :: r in s.relays && r != relay && e in HeldBy(s.relays[r]) ==> e.id !in ids
  }

  lemma OwnRows(s: System, relay: nat)
    requires Exclusive(s)
    ensures OnlyIn(s, relay, Ids(HeldBy(WorkOf(s, relay))))
  {
    forall r, e | r in s.relays && r != relay && e in HeldBy(s.relays[r]) ensures e.id !in Ids(HeldBy(WorkOf(s, relay))) {
      assert e.id in Ids(HeldBy(s.relays[r]));
    }
  }

  lemma FewerIn(s: System, relay: nat, ids: set<nat>, fewer: set<nat>)
    requires OnlyIn(s, relay, ids) && fewer <= ids
    ensures OnlyIn(s, relay, fewer)
  {
  }

  /** The other works stay current when only rows that are in no other hand change. */
  lemma OthersCurrent(s: System, t: System, relay: nat, w: Work, ids: set<nat>)
    requires forall r :: r in s.relays ==> WorkCurrent(s, s.relays[r])
    requires t.relays == s.relays[relay := w] && WorkCurrent(t, w) && OnlyIn(s, relay, ids)
    requires forall id :: id in s.rows && id !in ids ==> id in t.rows && t.rows[id] == s.rows[id]
    ensures forall r :: r in t.relays ==> WorkCurrent(t, t.relays[r])
  {
    forall r | r in t.relays ensures WorkCurrent(t, t.relays[r]) {
      if r != relay {
        assert WorkCurrent(s, s.relays[r]);
        assert forall e :: e in HeldBy(s.relays[r]) ==> Current(s, e) && e.id !in ids;
      }
    }
  }

  lemma IdleCurrent(s: System)
    ensures WorkCurrent(s, Idle)
  {
  }

  lemma ClaimOwned(cfg: Config, s: System, step: Step)
    requires Owned(cfg, s) && step.Claim? && Enabled(cfg, s, step) && Exclusive(Apply(cfg, s, step))
    ensures Owned(cfg, Apply(cfg, s, step))
  {
    hide Exclusive, WorkCurrent, Tallied, OnlyIn;
    var t := Apply(cfg, s, step);
    var w := t.relays[step.relay];
    var ids := set id | id in step.ids;
    ClaimedCurrent(cfg, s, step);
    ClaimTallied(cfg, s, step);
    OwnRows(t, step.relay);
    FewerIn(t, step.relay, Ids(w.events), ids);
    SameOthers(s, t, step.relay, w, ids);
    OthersCurrent(s, t, step.relay, w, ids);
  }

  lemma ClaimTallied(cfg: Config, s: System, step: Step)
    requires Tallied(cfg, s) && step.Claim? && Enabled(cfg, s, step)
    ensures Tallied(cfg, Apply(cfg, s, step))
  {
  }

  lemma SameOthers(s: System, t: System, relay: nat, w: Work, ids: set<nat>)
    requires t.relays == s.relays[relay := w] && OnlyIn(t, relay, ids)
    ensures OnlyIn(s, relay, ids)
  {
    forall r, e | r in s.relays && r != relay && e in HeldBy(s.relays[r]) ensures e.id !in ids {
      assert r in t.relays && t.relays[r] == s.relays[r];
    }
  }

  lemma ClaimedCurrent(cfg: Config, s: System, step: Step)
    requires step.Claim? && Enabled(cfg, s, step)
    ensures forall k :: 0 <= k < |step.ids| ==> step.ids[k] in s.rows
    ensures var events := EventsAt(s.rows, step.ids);
      WorkCurrent(Apply(cfg, s, step), Claimed(events)) && forall id :: id in step.ids ==> id in Ids(events)
  {
    var events := EventsAt(s.rows, step.ids);
    forall e | e in events ensures Current(Apply(cfg, s, step), e) {
      var k :| 0 <= k < |events| && events[k] == e;
    }
    forall id | id in step.ids ensures id in Ids(events) {
      var k :| 0 <= k < |step.ids| && step.ids[k] == id;
      assert events[k] in events;
    }
  }

  lemma DrainClaimOwned(cfg: Config, s: System, step: Step)
    requires Owned(cfg, s) && step.DrainClaim? && Enabled(cfg, s, step)
    ensures Owned(cfg, Apply(cfg, s, step))
  {
    var t := Apply(cfg, s, step);
    var events := EventsAt(s.rows, step.ids);
    forall e | e in events ensures Current(t, e) {
      var k :| 0 <= k < |events| && events[k] == e;
    }
    forall r | r in t.relays ensures WorkCurrent(t, t.relays[r]) {
      if r != step.relay {
        assert WorkCurrent(s, s.relays[r]);
      }
    }
  }

  lemma TailDistinct(outcomes: seq<Outcome>)
    requires outcomes != [] && DistinctEvents(EventsOf(outcomes))
    ensures DistinctEvents(EventsOf(outcomes[1..]))
    ensures forall f :: f in EventsOf(outcomes[1..]) ==> f in EventsOf(outcomes) && f.id != outcomes[0].event.id
    ensures outcomes[0].event in EventsOf(outcomes)
  {
    assert EventsOf(outcomes)[0] == outcomes[0].event;
    assert EventsOf(outcomes[1..]) == EventsOf(outcomes)[1..];
  }

  lemma ConsEvents(o: Outcome, outcomes: seq<Outcome>)
    ensures EventsOf([o] + outcomes) == [o.event] + EventsOf(outcomes)
  {
  }

  /** The first outcome goes to the failed or to the published rows. */
  lemma SplitFirst(outcomes: seq<Outcome>)
    requires outcomes != []
    ensures var rest, e := outcomes[1..], outcomes[0].event;
      if outcomes[0].err.Some? then
        EventsOf(Failed(outcomes)) == [e] + EventsOf(Failed(rest)) && Published(outcomes) == Published(rest)
      else
        EventsOf(Failed(outcomes)) == EventsOf(Failed(rest)) && Published(outcomes) == [e] + Published(rest)
  {
    hide EventsOf;
    ConsEvents(outcomes[0], Failed(outcomes[1..]));
  }

  /** Distinct rows of all, in two parts. */
  ghost predicate Parts(f: seq<Event>, p: seq<Event>, all: seq<Event>) {
    DistinctEvents(f + p) && forall e :: e in f + p ==> e in all
  }

  lemma {:induction false} SplitDistinct(outcomes: seq<Outcome>)
    requires DistinctEvents(EventsOf(outcomes))
    ensures Parts(EventsOf(Failed(outcomes)), Published(outcomes), EventsOf(outcomes))
  {
    if outcomes == [] {
      assert EventsOf([]) + [] == [];
    } else {
      hide Parts, DistinctEvents, EventsOf, Failed, Published;
      var rest, e := outcomes[1..], outcomes[0].event;
      TailDistinct(outcomes);
      SplitDistinct(rest);
      SplitFirst(outcomes);
      InsertDistinct(EventsOf(Failed(rest)), e, Published(rest), EventsOf(rest), EventsOf(outcomes));
    }
  }

  /** A new row may go in front of either part. */
  lemma InsertDistinct(f: seq<Event>, e: Event, p: seq<Event>, rest: seq<Event>, all: seq<Event>)
    requires Parts(f, p, rest) && e in all && forall g :: g in rest ==> g in all && g.id != e.id
    ensures Parts(f, [e] + p, all) && Parts([e] + f, p, all)
  {
    assert [] + (f + p) == f + p && [] + ([e] + (f + p)) == ([e] + f) + p;
    InsertAt(f, e, p, rest, all);
    InsertAt([], e, f + p, rest, all);
  }

  lemma InsertAt(f: seq<Event>, e: Event, p: seq<Event>, rest: seq<Event>, all: seq<Event>)
    requires Parts(f, p, rest) && e in all && forall g :: g in rest ==> g in all && g.id != e.id
    ensures Parts(f, [e] + p, all)
  {
    var more := f + ([e] + p);
    assert more[|f|] == e;
    forall a | 0 <= a < |more| && a != |f| ensures more[a] == (f + p)[if a < |f| then a else a - 1] && more[a] in rest {
      assert (f + p)[if a < |f| then a else a - 1] in f + p;
    }
  }

  lemma PublishedCurrent(cfg: Config, t: System, events: seq<Event>, errs: seq<Option<PubErr>>)
    requires |errs| == |events| && DistinctEvents(events) && forall e :: e in events ==> Current(t, e)
    ensures var outcomes := OutcomesOf(cfg, events, errs);
      && EventsOf(outcomes) == events
      && WorkCurrent(t, Settling(Failed(outcomes), Published(outcomes)))
      && WorkCurrent(t, Draining(events, Some(outcomes)))
  {
    var outcomes := OutcomesOf(cfg, events, errs);
    assert EventsOf(outcomes) == events;
    SplitDistinct(outcomes);
  }

  lemma PublishOwned(cfg: Config, s: System, step: Step)
    requires Owned(cfg, s) && step.Publish? && Enabled(cfg, s, step)
    ensures Owned(cfg, Apply(cfg, s, step))
  {
    hide OutcomesOf, Stored, Beats, WorkCurrent;
    var t := Apply(cfg, s, step);
    var events := HeldBy(WorkOf(s, step.relay));
    SameWork(s, t, WorkOf(s, step.relay));
    HeldIsCurrent(t, WorkOf(s, step.relay));
    PublishedCurrent(cfg, t, events, step.errs);
    forall r | r in t.relays ensures WorkCurrent(t, t.relays[r]) {
      if r != step.relay {
        SameWork(s, t, s.relays[r]);
      }
    }
  }

  lemma SameWork(s: System, t: System, w: Work)
    requires WorkCurrent(s, w) && t.rows == s.rows
    ensures WorkCurrent(t, w)
  {
    hide Current, DistinctEvents;
    forall e | e in HeldBy(w) ensures Current(t, e) {
      SameRows(s, t, e);
    }
  }

  lemma HeldIsCurrent(s: System, w: Work)
    requires WorkCurrent(s, w)
    ensures DistinctEvents(HeldBy(w)) && forall e :: e in HeldBy(w) ==> Current(s, e)
  {
  }

  lemma SameRows(s: System, t: System, e: Event)
    requires Current(s, e) && t.rows == s.rows
    ensures Current(t, e)
  {
  }

  lemma RevertOwned(cfg: Config, s: System, step: Step)
    requires Owned(cfg, s) && Exclusive(s) && step.Revert? && Enabled(cfg, s, step) && Parking(cfg, s)
    ensures Owned(cfg, Apply(cfg, s, step))
  {
    hide Exclusive, WorkCurrent, Parking, Ids;
    var t := Apply(cfg, s, step);
    var w := WorkOf(s, step.relay);
    assert WorkCurrent(s, w);
    var id := w.failed[step.k].event.id;
    OwnRows(s, step.relay);
    HeldIds(w, step.k);
    FewerIn(s, step.relay, Ids(HeldBy(w)), {id});
    RemovedCurrent(cfg, s, w, step.k, t);
    OthersCurrent(s, t, step.relay, t.relays[step.relay], {id});
    RevertTallied(cfg, s, step);
  }

  lemma HeldIds(w: Work, k: nat)
    requires w.Settling? && k < |w.failed|
    ensures w.failed[k].event in HeldBy(w) && w.failed[k].event.id in Ids(HeldBy(w))
  {
    assert EventsOf(w.failed)[k] in HeldBy(w);
  }

  lemma RemovedCurrent(cfg: Config, s: System, w: Work, k: nat, t: System)
    requires WorkCurrent(s, w) && w.Settling? && k < |w.failed|
    requires forall id :: id in s.rows && id != w.failed[k].event.id ==> id in t.rows && t.rows[id] == s.rows[id]
    ensures WorkCurrent(t, Settling(w.failed[..k] + w.failed[k + 1..], w.published))
  {
    var rest := Settling(w.failed[..k] + w.failed[k + 1..], w.published);
    var all, fewer := HeldBy(w), HeldBy(rest);
    forall a | 0 <= a < |fewer| ensures fewer[a] == all[if a < k then a else a + 1] {
    }
    assert all[k] == w.failed[k].event;
    forall e | e in fewer ensures Current(t, e) {
      var a :| 0 <= a < |fewer| && fewer[a] == e;
      assert e in all && Current(s, e) && e.id != all[k].id;
    }
  }

  lemma RevertTallied(cfg: Config, s: System, step: Step)
    requires Owned(cfg, s) && step.Revert? && Enabled(cfg, s, step) && Parking(cfg, s)
    ensures Tallied(cfg, Apply(cfg, s, step))
  {
    var w := WorkOf(s, step.relay);
    assert WorkCurrent(s, w) && WorkBelow(cfg, w);
    HeldIds(w, step.k);
    assert Current(s, w.failed[step.k].event);
  }

  lemma CloseOwned(cfg: Config, s: System, step: Step)
    requires Owned(cfg, s) && Exclusive(s) && step.Close? && Enabled(cfg, s, step)
    ensures Owned(cfg, Apply(cfg, s, step))
  {
    hide Exclusive, WorkCurrent;
    var t := Apply(cfg, s, step);
    var w := WorkOf(s, step.relay);
    OwnRows(s, step.relay);
    FewerIn(s, step.relay, Ids(HeldBy(w)), Ids(w.published));
    IdleCurrent(t);
    OthersCurrent(s, t, step.relay, Idle, Ids(w.published));
  }

  lemma DrainTallied(cfg: Config, s: System, step: Step)
    requires Owned(cfg, s) && step.DrainCommit? && Enabled(cfg, s, step) && Parking(cfg, s)
    ensures Tallied(cfg, Apply(cfg, s, step))
  {
    hide Published, FailureOf, WorkCurrent, WorkBelow, Restored, Current;
    var w := WorkOf(s, step.relay);
    assert WorkCurrent(s, w) && WorkBelow(cfg, w);
    var outcomes := w.outcomes.value;
    forall id | id in s.rows ensures DrainedTally(cfg, s, outcomes, step.times, id) {
      DrainedRowTallied(cfg, s, w, step.times, id);
    }
  }

  /** What a drain leaves of one row, when the row stays. */
  ghost predicate DrainedTally(cfg: Config, s: System, outcomes: seq<Outcome>, at: nat -> int, id: nat)
    requires id in s.rows
  {
    id in s.failures && FailureOf(outcomes, id).Some? ==>
      var o := FailureOf(outcomes, id).value;
      && o.err.Some?
      && var row := Restored(cfg, s.rows[id], o, at(id));
         && row == Restored(cfg, s.rows[id].(state := Done), o, at(id))
         && row.attempts == s.failures[id] + (if UnknownOutcome(o.err.value) then 0 else 1)
         && (row.state == Parked ==> cfg.maxAttempts > 0 && row.attempts == cfg.maxAttempts)
  }

  lemma DrainedRowTallied(cfg: Config, s: System, w: Work, at: nat -> int, id: nat)
    requires Tallied(cfg, s) && WorkCurrent(s, w) && WorkBelow(cfg, w) && w.Draining? && w.outcomes.Some? && id in s.rows
    ensures DrainedTally(cfg, s, w.outcomes.value, at, id)
  {
    hide FailureOf;
    var outcomes := w.outcomes.value;
    FailuresFit(outcomes);
    if FailureOf(outcomes, id).Some? {
      var o := FailureOf(outcomes, id).value;
      FailureIn(outcomes, id);
      var k :| 0 <= k < |outcomes| && outcomes[k] == o;
      assert w.drained[k] == o.event;
      assert Current(s, o.event);
    }
  }

  lemma FailureIn(outcomes: seq<Outcome>, id: nat)
    requires FailureOf(outcomes, id).Some?
    ensures FailureOf(outcomes, id).value in outcomes
  {
  }

  lemma FailuresFit(outcomes: seq<Outcome>)
    ensures forall id :: FailureOf(outcomes, id).Some? ==>
      FailureOf(outcomes, id).value.event.id == id && FailureOf(outcomes, id).value.err.Some?
  {
  }

  lemma DrainCommitOwned(cfg: Config, s: System, step: Step)
    requires Owned(cfg, s) && Exclusive(s) && step.DrainCommit? && Enabled(cfg, s, step) && Parking(cfg, s)
    ensures Owned(cfg, Apply(cfg, s, step))
  {
    hide Exclusive, WorkCurrent, Parking, Tallied;
    var t := Apply(cfg, s, step);
    var w := WorkOf(s, step.relay);
    assert WorkCurrent(s, w);
    OwnRows(s, step.relay);
    IdleCurrent(t);
    CurrentOutcomes(s, w);
    OutcomeIds(w);
    OthersCurrent(s, t, step.relay, Idle, Ids(w.drained));
    DrainTallied(cfg, s, step);
  }

  lemma CurrentOutcomes(s: System, w: Work)
    requires WorkCurrent(s, w) && w.Draining? && w.outcomes.Some?
    ensures EventsOf(w.outcomes.value) == w.drained
  {
  }

  lemma RowStepTallied(cfg: Config, s: System, step: Step)
    requires Tallied(cfg, s) && Enabled(cfg, s, step) && (step.Insert? || step.Reclaim? || step.Requeue? || step.Cleanup?)
    ensures Tallied(cfg, Apply(cfg, s, step))
  {
  }

  /** These statements are about rows that nobody may settle, or only set a row in flight back to pending. */
  lemma RowStepCurrent(cfg: Config, s: System, step: Step)
    requires Enabled(cfg, s, step) && (step.Insert? || step.Reclaim? || step.Requeue? || step.Cleanup?)
    requires forall id :: id in s.rows ==> id in s.topics
    ensures var t := Apply(cfg, s, step); t.relays == s.relays && forall e :: Current(s, e) ==> Current(t, e)
  {
  }

  lemma RowStepOwned(cfg: Config, s: System, step: Step)
    requires Owned(cfg, s) && Enabled(cfg, s, step)
    requires forall id :: id in s.rows ==> id in s.topics
    requires step.Insert? || step.Reclaim? || step.Requeue? || step.Cleanup?
    ensures Owned(cfg, Apply(cfg, s, step))
  {
    hide Enabled, Apply, Tallied, Current;
    RowStepTallied(cfg, s, step);
    RowStepCurrent(cfg, s, step);
    var t := Apply(cfg, s, step);
    forall r | r in t.relays ensures WorkCurrent(t, t.relays[r]) {
      assert WorkCurrent(s, s.relays[r]);
    }
  }

  lemma ReleaseOwned(cfg: Config, s: System, step: Step)
    requires Owned(cfg, s) && (step.DrainRollback? || step.Crash?) && Enabled(cfg, s, step)
    ensures Owned(cfg, Apply(cfg, s, step))
  {
    hide WorkCurrent;
    IdleCurrent(Apply(cfg, s, step));
    assert OnlyIn(s, step.relay, {});
    OthersCurrent(s, Apply(cfg, s, step), step.relay, Idle, {});
  }

  lemma StepOwned(cfg: Config, s: System, step: Step)
    requires Owned(cfg, s) && Exclusive(s) && Parking(cfg, s) && RowsKnown(s)
    requires Enabled(cfg, s, step) && Exclusive(Apply(cfg, s, step))
    ensures Owned(cfg, Apply(cfg, s, step))
  {
    hide Owned, Exclusive, Parking, Enabled, Apply;
    match step
    case Claim(_, _, _, _) => ClaimOwned(cfg, s, step);
    case DrainClaim(_, _, _) => DrainClaimOwned(cfg, s, step);
    case Publish(_, _, _) => PublishOwned(cfg, s, step);
    case Revert(_, _, _, _) => RevertOwned(cfg, s, step);
    case Close(_, _) => CloseOwned(cfg, s, step);
    case DrainCommit(_, _) => DrainCommitOwned(cfg, s, step);
    case DrainRollback(_) => ReleaseOwned(cfg, s, step);
    case Crash(_) => ReleaseOwned(cfg, s, step);
    case _ => RowStepOwned(cfg, s, step);
  }

  lemma {:induction false} RunOwned(cfg: Config, steps: seq<Step>)
    requires ExclusiveRun(cfg, steps)
    ensures Owned(cfg, Run(cfg, steps))
  {
    if steps != [] {
      hide Owned, Parking, Enabled, Apply, Exclusive, Safe;
      var init := steps[..|steps| - 1];
      var s, step := Run(cfg, init), steps[|steps| - 1];
      RunOwned(cfg, init);
      RunBelow(cfg, init);
      RunSafe(cfg, init);
      KnownRows(cfg, s);
      assert Exclusive(s);
      if Enabled(cfg, s, step) {
        StepOwned(cfg, s, step);
      }
    }
  }

  /** While no two relays have the same row in hand, the attempts of a row are exactly the counted failures
      recorded since its insert or its last requeue, and it is parked exactly with its last attempt. */
  lemma ParkedExactlyAtLimit(cfg: Config, steps: seq<Step>, id: nat)
    requires ExclusiveRun(cfg, steps)
    ensures var s := Run(cfg, steps);
      id in s.rows && s.rows[id].state != Done ==>
        && id in s.failures && s.rows[id].attempts == s.failures[id]
        && (cfg.maxAttempts > 0 ==> (s.rows[id].state == Parked <==> s.failures[id] == cfg.maxAttempts))
        && (cfg.maxAttempts <= 0 ==> s.rows[id].state != Parked)
  {
    RunOwned(cfg, steps);
    RunBelow(cfg, steps);
  }

  /** The steps of one relay, of the writers and of the operators. */
  ghost predicate OnlyRelay(steps: seq<Step>, relay: nat) {
    forall k :: 0 <= k < |steps| && !steps[k].Insert? && !steps[k].Reclaim? && !steps[k].Requeue? && !steps[k].Cleanup? ==>
      steps[k].relay == relay
  }

  lemma {:induction false} OneRelayWorks(cfg: Config, steps: seq<Step>, relay: nat)
    requires OnlyRelay(steps, relay)
    ensures Run(cfg, steps).relays.Keys <= {relay}
  {
    if steps != [] {
      hide Enabled, Apply;
      var init, step := steps[..|steps| - 1], steps[|steps| - 1];
      OneRelayWorks(cfg, init, relay);
      if Enabled(cfg, Run(cfg, init), step) {
        StepWorks(cfg, Run(cfg, init), step, relay);
      }
    }
  }

  lemma StepWorks(cfg: Config, s: System, step: Step, relay: nat)
    requires Enabled(cfg, s, step) && s.relays.Keys <= {relay}
    requires !step.Insert? && !step.Reclaim? && !step.Requeue? && !step.Cleanup? ==> step.relay == relay
    ensures Apply(cfg, s, step).relays.Keys <= {relay}
  {
    hide Enabled, DrainedRows, DrainedFailures, CloseRows, Stored, OutcomesOf;
  }

  /** A single relay never has a row in hand twice, whatever it reclaims and however often it restarts. */
  lemma {:induction false} OneRelayIsExclusive(cfg: Config, steps: seq<Step>, relay: nat)
    requires OnlyRelay(steps, relay)
    ensures ExclusiveRun(cfg, steps)
  {
    OneRelayWorks(cfg, steps, relay);
    if steps != [] {
      OneRelayIsExclusive(cfg, steps[..|steps| - 1], relay);
    }
  }
}
