/** A drain transaction: its rows do not change until it ends, and a commit removes exactly the published ones. */
module OutboxDrain {
  import opened BatchTypes
  import opened LatestOnly
  import opened OutboxSteps
  import opened OutboxSafety

  ghost predicate DistinctEvents(events: seq<Event>) {
    forall a, b :: 0 <= a < b < |events| ==> events[a].id != events[b].id
  }

  /** The rows of a drain are in the table as they were claimed. */
  ghost predicate Unchanged(s: System, w: Work) {
    w.Draining? ==>
      && DistinctEvents(w.drained)
      && (w.outcomes.Some? ==> EventsOf(w.outcomes.value) == w.drained)
      && forall e :: e in w.drained ==> e.id in s.rows && s.rows[e.id].state == Pending && EventOf(e.id, s.rows[e.id]) == e
  }

  ghost predicate LocksHold(s: System) {
    && (forall r :: r in s.relays ==> Unchanged(s, s.relays[r]))
    && (forall r, q :: r in s.relays && q in s.relays && r != q && s.relays[r].Draining? && s.relays[q].Draining? ==>
          Ids(s.relays[r].drained) !! Ids(s.relays[q].drained))
  }

  /** A step that changes no locked row, and gives one relay a work that locks nothing, keeps all locks. */
  lemma LocksKept(s: System, t: System, relay: nat, w: Work)
    requires LocksHold(s) && (t.relays == s.relays || (t.relays == s.relays[relay := w] && !w.Draining?))
    requires forall r, e :: r in t.relays && t.relays[r].Draining? && e in t.relays[r].drained ==>
      e.id in s.rows && e.id in t.rows && t.rows[e.id].state == s.rows[e.id].state
      && EventOf(e.id, t.rows[e.id]) == EventOf(e.id, s.rows[e.id])
    ensures LocksHold(t)
  {
    forall r | r in t.relays ensures Unchanged(t, t.relays[r]) {
      if t.relays[r].Draining? {
        assert r in s.relays && s.relays[r] == t.relays[r];
        assert Unchanged(s, s.relays[r]);
      }
    }
  }

  lemma LockedRow(s: System, r: nat, e: Event)
    requires LocksHold(s) && r in s.relays && s.relays[r].Draining? && e in s.relays[r].drained
    ensures Locked(s, e.id) && e.id in s.rows && s.rows[e.id].state == Pending && EventOf(e.id, s.rows[e.id]) == e
  {
    assert Unchanged(s, s.relays[r]);
    assert e.id in Ids(s.relays[r].drained);
  }

  /** No step of anyone else changes a row that a drain has locked. */
  lemma OthersWait(cfg: Config, s: System, step: Step, r: nat, e: Event)
    requires LocksHold(s) && Enabled(cfg, s, step)
    requires r in s.relays && s.relays[r].Draining? && e in s.relays[r].drained
    requires RowsKnown(s)
    requires step.DrainCommit? ==> step.relay != r
    ensures var t := Apply(cfg, s, step);
      e.id in t.rows && t.rows[e.id].state == Pending && EventOf(e.id, t.rows[e.id]) == e
  {
    hide LocksHold, Enabled, Apply;
    LockedRow(s, r, e);
    match step
    case DrainCommit(relay, at) => OtherDrain(cfg, s, step, r, e);
    case Close(_, _) => OtherClose(cfg, s, step, r, e);
    case Revert(_, _, _, _) => OtherRevert(cfg, s, step, r, e);
    case _ => OtherWrites(cfg, s, step, r, e);
  }

  lemma OtherClose(cfg: Config, s: System, step: Step, r: nat, e: Event)
    requires Enabled(cfg, s, step) && step.Close?
    requires r in s.relays && s.relays[r].Draining? && e in s.relays[r].drained && e.id in s.rows
    ensures var t := Apply(cfg, s, step); e.id in t.rows && t.rows[e.id] == s.rows[e.id]
  {
    assert Locked(s, e.id);
    if step.written {
      assert e.id !in Ids(WorkOf(s, step.relay).published);
    }
  }

  lemma OtherRevert(cfg: Config, s: System, step: Step, r: nat, e: Event)
    requires Enabled(cfg, s, step) && step.Revert?
    requires r in s.relays && s.relays[r].Draining? && e in s.relays[r].drained && e.id in s.rows
    ensures var t := Apply(cfg, s, step); e.id in t.rows && t.rows[e.id] == s.rows[e.id]
  {
    hide Reverted;
    assert Locked(s, e.id);
  }

  /** Claims skip locked rows, and the other statements are about rows in another state. */
  lemma OtherWrites(cfg: Config, s: System, step: Step, r: nat, e: Event)
    requires Enabled(cfg, s, step) && RowsKnown(s) && !step.DrainCommit? && !step.Close? && !step.Revert?
    requires r in s.relays && s.relays[r].Draining? && e in s.relays[r].drained
    requires e.id in s.rows && s.rows[e.id].state == Pending
    ensures var t := Apply(cfg, s, step); e.id in t.rows && t.rows[e.id] == s.rows[e.id]
  {
    hide OutcomesOf, Stored, Failed, Published;
    assert Locked(s, e.id);
  }

  lemma OtherDrain(cfg: Config, s: System, step: Step, r: nat, e: Event)
    requires LocksHold(s) && Enabled(cfg, s, step) && step.DrainCommit? && step.relay != r
    requires r in s.relays && s.relays[r].Draining? && e in s.relays[r].drained
    ensures var t := Apply(cfg, s, step); e.id in t.rows && t.rows[e.id] == s.rows[e.id]
  {
    LockedRow(s, r, e);
    var w := WorkOf(s, step.relay);
    assert Unchanged(s, w);
    assert e.id in Ids(s.relays[r].drained) && e.id !in Ids(w.drained);
    OutcomeIds(w);
  }

  /** The outcomes of a drain are about its rows. */
  lemma OutcomeIds(w: Work)
    requires w.Draining? && w.outcomes.Some? && EventsOf(w.outcomes.value) == w.drained
    ensures forall id :: id !in Ids(w.drained) ==>
      id !in Ids(Published(w.outcomes.value)) && FailureOf(w.outcomes.value, id) == None
  {
    var outcomes := w.outcomes.value;
    forall k | 0 <= k < |outcomes| ensures outcomes[k].event.id in Ids(w.drained) {
      assert w.drained[k] == outcomes[k].event;
    }
    forall e | e in Published(outcomes) ensures e.id in Ids(w.drained) {
      var k :| 0 <= k < |outcomes| && outcomes[k] == Outcome(e, None);
    }
  }

  lemma DrainClaimLocks(cfg: Config, s: System, step: Step)
    requires LocksHold(s) && step.DrainClaim? && Enabled(cfg, s, step)
    ensures LocksHold(Apply(cfg, s, step))
  {
    var t := Apply(cfg, s, step);
    var events := EventsAt(s.rows, step.ids);
    forall e | e in events ensures e.id in s.rows && s.rows[e.id].state == Pending && EventOf(e.id, s.rows[e.id]) == e
      && !Locked(s, e.id)
    {
      var k :| 0 <= k < |events| && events[k] == e;
    }
    assert DistinctEvents(events);
    assert Unchanged(t, t.relays[step.relay]);
    forall r | r in t.relays ensures Unchanged(t, t.relays[r]) {
      if r != step.relay {
        assert Unchanged(s, s.relays[r]);
      }
    }
    forall r | r in s.relays && r != step.relay && s.relays[r].Draining?
      ensures Ids(s.relays[r].drained) !! Ids(events)
    {
      forall id | id in Ids(events) ensures id !in Ids(s.relays[r].drained) {
        assert !Locked(s, id);
      }
    }
  }

  lemma PublishLocks(cfg: Config, s: System, step: Step)
    requires LocksHold(s) && step.Publish? && Enabled(cfg, s, step)
    ensures LocksHold(Apply(cfg, s, step))
  {
    hide Stored;
    var t := Apply(cfg, s, step);
    var w := WorkOf(s, step.relay);
    if w.Draining? {
      assert Unchanged(s, w);
      assert EventsOf(OutcomesOf(cfg, w.drained, step.errs)) == w.drained;
      forall r | r in t.relays ensures Unchanged(t, t.relays[r]) {
        assert r in s.relays && Unchanged(s, s.relays[r]);
      }
    } else {
      LocksKept(s, t, step.relay, t.relays[step.relay]);
    }
  }

  lemma StepLocks(cfg: Config, s: System, step: Step)
    requires LocksHold(s) && RowsKnown(s) && Enabled(cfg, s, step)
    ensures LocksHold(Apply(cfg, s, step))
  {
    if step.DrainClaim? {
      DrainClaimLocks(cfg, s, step);
    } else if step.Publish? {
      PublishLocks(cfg, s, step);
    } else {
      OtherLocks(cfg, s, step);
    }
  }

  lemma OtherLocks(cfg: Config, s: System, step: Step)
    requires LocksHold(s) && RowsKnown(s) && Enabled(cfg, s, step) && !step.DrainClaim? && !step.Publish?
    ensures LocksHold(Apply(cfg, s, step))
  {
    hide LocksHold, DrainedRows, DrainedFailures, CloseRows, Reverted, EventsAt;
    var t := Apply(cfg, s, step);
    forall r, e | r in t.relays && t.relays[r].Draining? && e in t.relays[r].drained
      ensures e.id in s.rows && e.id in t.rows && t.rows[e.id].state == s.rows[e.id].state
        && EventOf(e.id, t.rows[e.id]) == EventOf(e.id, s.rows[e.id])
    {
      assert r in s.relays && s.relays[r] == t.relays[r];
      LockedRow(s, r, e);
      OthersWait(cfg, s, step, r, e);
    }
    var relay := if step.Claim? || step.Revert? || step.Close? || step.DrainCommit? || step.DrainRollback? || step.Crash?
                 then step.relay else 0;
    LocksKept(s, t, relay, if relay in t.relays then t.relays[relay] else Idle);
  }

  lemma {:induction false} RunLocks(cfg: Config, steps: seq<Step>)
    ensures LocksHold(Run(cfg, steps))
  {
    if steps != [] {
      hide LocksHold, Enabled, Apply, Safe;
      RunLocks(cfg, steps[..|steps| - 1]);
      RunSafe(cfg, steps[..|steps| - 1]);
      var s, step := Run(cfg, steps[..|steps| - 1]), steps[|steps| - 1];
      KnownRows(cfg, s);
      if Enabled(cfg, s, step) {
        StepLocks(cfg, s, step);
      }
    } else {
      NoLocks();
    }
  }

  lemma NoLocks()
    ensures LocksHold(EMPTY)
  {
  }

  lemma KnownRows(cfg: Config, s: System)
    requires Safe(cfg, s)
    ensures RowsKnown(s)
  {
  }

  lemma {:induction false} FailureAt(outcomes: seq<Outcome>, k: nat)
    requires k < |outcomes| && DistinctEvents(EventsOf(outcomes))
    ensures FailureOf(outcomes, outcomes[k].event.id) == if outcomes[k].err.Some? then Some(outcomes[k]) else None
    ensures outcomes[k].event.id in Ids(Published(outcomes)) <==> outcomes[k].err.None?
  {
    var id := outcomes[k].event.id;
    forall m | 0 <= m < |outcomes| && outcomes[m].event.id == id ensures m == k {
      assert EventsOf(outcomes)[m].id == EventsOf(outcomes)[k].id;
    }
    if outcomes[k].err.None? {
      assert Outcome(outcomes[k].event, None) in outcomes;
    }
    if id in Ids(Published(outcomes)) {
      var e :| e in Published(outcomes) && e.id == id;
      var m :| 0 <= m < |outcomes| && outcomes[m] == Outcome(e, None);
      assert m == k;
    }
  }

  lemma DrainedRowAt(cfg: Config, s: System, w: Work, k: nat)
    requires w.Draining? && w.outcomes.Some? && Unchanged(s, w) && WorkSafe(cfg, s, w) && k < |w.outcomes.value|
    ensures var o := w.outcomes.value[k];
      var id := o.event.id;
      && id in s.rows && s.rows[id].state == Pending && EventOf(id, s.rows[id]) == o.event
      && (o.err.None? ==> MayClose(cfg, s, o.event))
      && FailureOf(w.outcomes.value, id) == (if o.err.Some? then Some(o) else None)
      && (id in Ids(Published(w.outcomes.value)) <==> o.err.None?)
  {
    var o := w.outcomes.value[k];
    assert w.drained[k] == o.event;
    FailureAt(w.outcomes.value, k);
    if o.err.None? {
      assert Outcome(o.event, None) in w.outcomes.value;
    }
  }

  lemma CommitIsExact(cfg: Config, s: System, relay: nat, at: nat -> int, k: nat)
    requires LocksHold(s) && Safe(cfg, s) && Enabled(cfg, s, DrainCommit(relay, at))
    requires k < |WorkOf(s, relay).outcomes.value|
    ensures var t, o := Apply(cfg, s, DrainCommit(relay, at)), WorkOf(s, relay).outcomes.value[k];
      var id := o.event.id;
      && id in s.rows && s.rows[id].state == Pending && EventOf(id, s.rows[id]) == o.event
      && (o.err.None? ==> MayClose(cfg, s, o.event))
      && (o.err.None? ==> if cfg.deleteAfterSend then id !in t.rows else id in t.rows && t.rows[id].state == Done)
      && (o.err.Some? ==> id in t.rows && t.rows[id] == Restored(cfg, s.rows[id], o, at(id)))
    ensures var t := Apply(cfg, s, DrainCommit(relay, at));
      forall id :: id !in Ids(WorkOf(s, relay).drained) ==>
        (id in s.rows <==> id in t.rows) && (id in s.rows ==> t.rows[id] == s.rows[id])
  {
    hide Unchanged, WorkSafe, Published, FailureOf, Restored;
    var w := WorkOf(s, relay);
    assert Unchanged(s, w) && WorkSafe(cfg, s, w);
    DrainedRowAt(cfg, s, w, k);
    DrainedEvents(s, w);
    OutcomeIds(w);
  }

  lemma RollbackIsExact(cfg: Config, s: System, relay: nat, at: nat -> int)
    requires Enabled(cfg, s, DrainCommit(relay, at))
    ensures Enabled(cfg, s, DrainRollback(relay)) && Apply(cfg, s, DrainRollback(relay)).rows == s.rows
  {
  }

  lemma DrainedEvents(s: System, w: Work)
    requires Unchanged(s, w) && w.Draining? && w.outcomes.Some?
    ensures EventsOf(w.outcomes.value) == w.drained
  {
  }

  /** A committed drain removes exactly the rows it published, which the broker accepted or which are
      superseded; it puts every other drained row back as it was claimed, but for the recorded failure, and
      touches no other row. A rolled-back drain and a crash change no row. */
  lemma DrainIsExact(cfg: Config, steps: seq<Step>, relay: nat, at: nat -> int, k: nat)
    requires Enabled(cfg, Run(cfg, steps), DrainCommit(relay, at))
    requires k < |WorkOf(Run(cfg, steps), relay).outcomes.value|
    ensures var s := Run(cfg, steps);
      var t, o := Apply(cfg, s, DrainCommit(relay, at)), WorkOf(s, relay).outcomes.value[k];
      var id := o.event.id;
      && id in s.rows && s.rows[id].state == Pending && EventOf(id, s.rows[id]) == o.event
      && (o.err.None? ==> MayClose(cfg, s, o.event))
      && (o.err.None? ==> if cfg.deleteAfterSend then id !in t.rows else id in t.rows && t.rows[id].state == Done)
      && (o.err.Some? ==> id in t.rows && t.rows[id] == Restored(cfg, s.rows[id], o, at(id)))
    ensures var s := Run(cfg, steps);
      var t := Apply(cfg, s, DrainCommit(relay, at));
      forall id :: id !in Ids(WorkOf(s, relay).drained) ==>
        (id in s.rows <==> id in t.rows) && (id in s.rows ==> t.rows[id] == s.rows[id])
    ensures Apply(cfg, Run(cfg, steps), DrainRollback(relay)).rows == Run(cfg, steps).rows
  {
    hide Enabled, Apply, LocksHold, Safe, MayClose, Restored, Locked;
    RunSafe(cfg, steps);
    RunLocks(cfg, steps);
    CommitIsExact(cfg, Run(cfg, steps), relay, at, k);
    RollbackIsExact(cfg, Run(cfg, steps), relay, at);
  }
}
